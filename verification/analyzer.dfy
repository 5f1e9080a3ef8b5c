/**
 * The semantic analyzer (SemanticVisitor): assignability, the type of each
 * expression, and the checks each statement makes while it drives the scope
 * stack.
 *
 * The functions of this module state, as a value, what one visit does to
 * the analyzer state (scope stack, loop flag, main flag, next local offset)
 * or which diagnostic ends it; the class SemanticVisitor performs the same
 * visit in place and each of its methods is proved to agree with them.
 */
module Analyzer {
  import opened Types
  import opened SymbolTable
  import opened Ast

  /** May a value of type `source` be stored where `target` is expected? */
  function IsAssignable(target: BuiltInType, source: BuiltInType): bool {
    if target == source then true
    else if target == INT && source == BYTE then true
    else false
  }

  /** Identical types, and byte into int, are the only legal assignments. */
  lemma IsAssignableWidensOnly(target: BuiltInType, source: BuiltInType)
    ensures IsAssignable(target, target)
    ensures IsAssignable(INT, BYTE) && !IsAssignable(BYTE, INT)
    ensures IsAssignable(target, source) && target != source ==> target == INT && source == BYTE
  {
  }

  /** The type an expression visit records, or the diagnostic it raises. */
  function ExpType(scopes: seq<Scope>, e: Exp): Result<BuiltInType> {
    match e
    case Num(_) => Ok(INT)
    case NumB(value, line) => if value > 255 then Err(ByteTooLarge(line, value)) else Ok(BYTE)
    case String(_) => Ok(STRING)
    case ID(name, line) =>
      match Find(scopes, name)
      case None => Err(Undef(line, name))
      case Some(sym) => if sym.isFunction then Err(DefAsVar(line, name)) else Ok(sym.typ)
  }

  /** Literals: int, string, and byte up to and including 255. */
  lemma LiteralTypes(scopes: seq<Scope>, v: int, text: string, line: int)
    ensures ExpType(scopes, Num(v)) == Ok(INT)
    ensures ExpType(scopes, String(text)) == Ok(STRING)
    ensures ExpType(scopes, NumB(v, line)) == if v > 255 then Err(ByteTooLarge(line, v)) else Ok(BYTE)
    ensures ExpType(scopes, NumB(255, line)) == Ok(BYTE)
    ensures ExpType(scopes, NumB(256, line)) == Err(ByteTooLarge(line, 256))
  {
  }

  /**
   * An identifier has the type of the innermost symbol of that name; it is
   * an error when no scope declares it or when that symbol is a function.
   */
  lemma IdType(scopes: seq<Scope>, name: string, line: int)
    ensures (forall i :: 0 <= i < |scopes| ==> name !in scopes[i]) ==>
              ExpType(scopes, ID(name, line)) == Err(Undef(line, name))
    ensures forall i :: InnermostAt(scopes, name, i) ==>
              ExpType(scopes, ID(name, line)) ==
                if scopes[i][name].isFunction then Err(DefAsVar(line, name)) else Ok(scopes[i][name].typ)
  {
    FindNoneIffAbsent(scopes, name);
    forall i | InnermostAt(scopes, name, i)
      ensures Find(scopes, name) == Some(scopes[i][name])
    {
      FindInnermost(scopes, name, i);
    }
  }

  /** What the analyzer carries from one visit to the next. */
  datatype AnalyzerState = AnalyzerState(
    scopes: seq<Scope>,
    insideLoop: bool,
    mainDefined: bool,
    offset: int)   // the next local-variable offset

  /** The analyzer state at the start of a translation unit. */
  function Initial(): AnalyzerState {
    AnalyzerState([map[]], false, false, 0)
  }

  /** The parameter types of a function, in declaration order. */
  function ParamTypes(formals: seq<Formal>): (r: seq<BuiltInType>)
    ensures |r| == |formals|
    ensures forall k :: 0 <= k < |formals| ==> r[k] == formals[k].typ
  {
    seq(|formals|, k requires 0 <= k < |formals| => formals[k].typ)
  }

  /** The optional initializer of a declaration of type `typ`. */
  function CheckInit(scopes: seq<Scope>, typ: BuiltInType, init: Option<Exp>, line: int): Outcome {
    match init
    case None => Pass
    case Some(e) =>
      match ExpType(scopes, e)
      case Err(err) => Fail(err)
      case Ok(t) => if IsAssignable(typ, t) then Pass else Fail(Mismatch(line))
  }

  /** The condition of an if or a while must be a boolean. */
  function CheckCondition(scopes: seq<Scope>, condition: Exp, line: int): Outcome {
    match ExpType(scopes, condition)
    case Err(err) => Fail(err)
    case Ok(t) => if t != BOOL then Fail(Mismatch(line)) else Pass
  }

  /**
   * Declares the formals, in order, in the innermost scope, the first at
   * `offset` and each next one a slot lower.
   */
  function DeclareFormals(scopes: seq<Scope>, formals: seq<Formal>, offset: int): (r: Result<seq<Scope>>)
    requires |scopes| > 0
    ensures r.Ok? ==> |r.value| == |scopes| && Pop(r.value) == Pop(scopes)
    decreases |formals|
  {
    if |formals| == 0 then Ok(scopes)
    else if formals[0].name in Top(scopes) then Err(Def(formals[0].line, formals[0].name))
    else DeclareFormals(Bind(scopes, formals[0].name, VariableSymbol(formals[0].name, formals[0].typ, offset)),
                        formals[1..], offset - 1)
  }

  /** No two formals share a name. */
  ghost predicate DistinctNames(formals: seq<Formal>) {
    forall i, j :: 0 <= i < j < |formals| ==> formals[i].name != formals[j].name
  }

  /** Declaring the formals fails exactly on a repeated name or on a name the scope already holds. */
  lemma {:induction false} DeclareFormalsOkIff(scopes: seq<Scope>, formals: seq<Formal>, offset: int)
    requires |scopes| > 0
    ensures DeclareFormals(scopes, formals, offset).Ok? <==>
              DistinctNames(formals) && forall k :: 0 <= k < |formals| ==> formals[k].name !in Top(scopes)
    decreases |formals|
  {
    if |formals| > 0 {
      var f := formals[0];
      var rest := formals[1..];
      var next := Bind(scopes, f.name, VariableSymbol(f.name, f.typ, offset));
      DeclareFormalsOkIff(next, rest, offset - 1);
      if DistinctNames(formals) && forall k :: 0 <= k < |formals| ==> formals[k].name !in Top(scopes) {
        assert f.name !in Top(scopes);
        forall k | 0 <= k < |rest| ensures rest[k].name !in Top(next) {
          assert rest[k] == formals[k + 1];
        }
        forall i, j | 0 <= i < j < |rest| ensures rest[i].name != rest[j].name {
          assert rest[i] == formals[i + 1] && rest[j] == formals[j + 1];
        }
      }
      if DeclareFormals(scopes, formals, offset).Ok? {
        assert f.name !in Top(scopes);
        forall i, j | 0 <= i < j < |formals| ensures formals[i].name != formals[j].name {
          if i > 0 {
            assert formals[i] == rest[i - 1] && formals[j] == rest[j - 1];
          } else {
            assert formals[j] == rest[j - 1];
            assert rest[j - 1].name !in Top(next);
          }
        }
        forall k | 0 <= k < |formals| ensures formals[k].name !in Top(scopes) {
          if k > 0 {
            assert formals[k] == rest[k - 1];
            assert rest[k - 1].name !in Top(next);
          }
        }
      }
    }
  }

  /**
   * After the formals are declared, the k-th one is mapped to a variable at
   * `offset - k`, and every entry the scope held before is kept.
   */
  lemma {:induction false} DeclareFormalsOffsets(scopes: seq<Scope>, formals: seq<Formal>, offset: int)
    requires |scopes| > 0 && DeclareFormals(scopes, formals, offset).Ok?
    ensures var top := Top(DeclareFormals(scopes, formals, offset).value);
      && (forall k :: 0 <= k < |formals| ==>
            formals[k].name in top && top[formals[k].name] == VariableSymbol(formals[k].name, formals[k].typ, offset - k))
      && (forall id :: id in Top(scopes) ==> id in top && top[id] == Top(scopes)[id])
      && (forall id :: id in top ==> id in Top(scopes) || exists k :: 0 <= k < |formals| && formals[k].name == id)
    decreases |formals|
  {
    if |formals| > 0 {
      var f := formals[0];
      var rest := formals[1..];
      var next := Bind(scopes, f.name, VariableSymbol(f.name, f.typ, offset));
      DeclareFormalsOffsets(next, rest, offset - 1);
      var top := Top(DeclareFormals(scopes, formals, offset).value);
      forall k | 0 <= k < |formals|
        ensures formals[k].name in top
        ensures top[formals[k].name] == VariableSymbol(formals[k].name, formals[k].typ, offset - k)
      {
        if k > 0 {
          assert formals[k] == rest[k - 1];
        }
      }
      forall id | id in top
        ensures id in Top(scopes) || exists k :: 0 <= k < |formals| && formals[k].name == id
      {
        if id !in Top(next) {
          var k :| 0 <= k < |rest| && rest[k].name == id;
          assert formals[k + 1].name == id;
        } else if id !in Top(scopes) {
          assert formals[0].name == id;
        }
      }
    }
  }

  /**
   * Everything a function declaration does before its body: the main-signature
   * check, the function symbol in the enclosing scope, a new scope, the
   * formals. Its result is the state the body is analyzed in.
   */
  function EnterFunction(st: AnalyzerState, returnType: BuiltInType, name: string, formals: seq<Formal>, line: int)
    : (r: Result<AnalyzerState>)
    requires |st.scopes| > 0
    ensures r.Ok? ==> |r.value.scopes| == |st.scopes| + 1
    ensures r.Ok? ==> Pop(r.value.scopes) == Bind(st.scopes, name, FunctionSymbol(name, returnType, ParamTypes(formals)))
    ensures r.Ok? ==> r.value.offset == st.offset && r.value.insideLoop == st.insideLoop
    ensures r.Ok? ==> r.value.mainDefined == (st.mainDefined || name == "main")
  {
    var params := ParamTypes(formals);
    if name == "main" && (st.mainDefined || |params| != 0 || returnType != VOID) then Err(MainMissing)
    else
      var mainDefined := if name == "main" then true else st.mainDefined;
      if name in Top(st.scopes) then Err(Def(line, name))
      else
        var outer := Bind(st.scopes, name, FunctionSymbol(name, returnType, params));
        match DeclareFormals(Push(outer), formals, -1)
        case Err(e) => Err(e)
        case Ok(inner) => Ok(st.(scopes := inner, mainDefined := mainDefined))
  }

  /**
   * The body of a function is analyzed in a scope of its own that holds
   * exactly its formals, the k-th at offset -1-k; the function itself is
   * visible there (so it may call itself) unless a formal shadows it.
   */
  lemma FunctionBodyScope(st: AnalyzerState, returnType: BuiltInType, name: string, formals: seq<Formal>, line: int)
    requires |st.scopes| > 0
    requires EnterFunction(st, returnType, name, formals, line).Ok?
    ensures var inner := EnterFunction(st, returnType, name, formals, line).value.scopes;
      && (forall k :: 0 <= k < |formals| ==>
            formals[k].name in Top(inner) && Top(inner)[formals[k].name] == VariableSymbol(formals[k].name, formals[k].typ, -1 - k))
      && (forall id :: id in Top(inner) ==> exists k :: 0 <= k < |formals| && formals[k].name == id)
      && ((forall k :: 0 <= k < |formals| ==> formals[k].name != name) ==>
            Find(inner, name) == Some(FunctionSymbol(name, returnType, ParamTypes(formals))))
  {
    var outer := Bind(st.scopes, name, FunctionSymbol(name, returnType, ParamTypes(formals)));
    DeclareFormalsOffsets(Push(outer), formals, -1);
  }

  /** The main-signature rules: a second main, or a main with parameters or a non-void type, is rejected. */
  lemma MainSignature(st: AnalyzerState, returnType: BuiltInType, formals: seq<Formal>, line: int)
    requires |st.scopes| > 0
    ensures st.mainDefined || |formals| != 0 || returnType != VOID ==>
              EnterFunction(st, returnType, "main", formals, line) == Err(MainMissing)
    ensures EnterFunction(st, returnType, "main", formals, line).Ok? ==>
              !st.mainDefined && formals == [] && returnType == VOID &&
              EnterFunction(st, returnType, "main", formals, line).value.mainDefined
  {
  }

  /**
   * What visiting a statement does to the analyzer state, or the diagnostic
   * that ends the run. A successful visit leaves the stack as deep as it
   * found it and can change only its innermost scope.
   */
  function Analyze(st: AnalyzerState, s: Stmt): (r: Result<AnalyzerState>)
    requires |st.scopes| > 0
    ensures r.Ok? ==> |r.value.scopes| == |st.scopes| && Pop(r.value.scopes) == Pop(st.scopes)
    ensures r.Ok? ==> st.offset <= r.value.offset
    ensures r.Ok? && st.mainDefined ==> r.value.mainDefined
    decreases s, 0
  {
    match s
    case VarDecl(typ, name, init, line) =>
      (match CheckInit(st.scopes, typ, init, line)
       case Fail(e) => Err(e)
       case Pass =>
         if name in Top(st.scopes) then Err(Def(line, name))
         else Ok(st.(scopes := Bind(st.scopes, name, VariableSymbol(name, typ, st.offset)), offset := st.offset + 1)))
    case FuncDecl(returnType, name, formals, body, line) =>
      (match EnterFunction(st, returnType, name, formals, line)
       case Err(e) => Err(e)
       case Ok(entered) =>
         match Analyze(entered, body)
         case Err(e) => Err(e)
         case Ok(done) => Ok(done.(scopes := Pop(done.scopes))))
    case If(condition, thenBranch, elseBranch, line) =>
      (match CheckCondition(st.scopes, condition, line)
       case Fail(e) => Err(e)
       case Pass =>
         match AnalyzeInScope(st, thenBranch)
         case Err(e) => Err(e)
         case Ok(afterThen) =>
           match elseBranch
           case None => Ok(afterThen)
           case Some(otherwise) => AnalyzeInScope(afterThen, otherwise))
    case While(condition, body, line) =>
      (match CheckCondition(st.scopes, condition, line)
       case Fail(e) => Err(e)
       case Pass =>
         match AnalyzeInScope(st.(insideLoop := true), body)
         case Err(e) => Err(e)
         case Ok(done) => Ok(done.(insideLoop := false)))
    case Break(line) => if st.insideLoop then Ok(st) else Err(UnexpectedBreak(line))
    case Continue(line) => if st.insideLoop then Ok(st) else Err(UnexpectedContinue(line))
    case Return(_, _) => Ok(st)
  }

  /**
   * A statement analyzed in a scope of its own: whatever it declares is
   * discarded on the way out, so the stack comes back exactly as it was.
   */
  function AnalyzeInScope(st: AnalyzerState, s: Stmt): (r: Result<AnalyzerState>)
    requires |st.scopes| > 0
    ensures r.Ok? ==> r.value.scopes == st.scopes
    ensures r.Ok? ==> st.offset <= r.value.offset
    ensures r.Ok? && st.mainDefined ==> r.value.mainDefined
    decreases s, 1
  {
    match Analyze(st.(scopes := Push(st.scopes)), s)
    case Err(e) => Err(e)
    case Ok(done) => Ok(done.(scopes := Pop(done.scopes)))
  }

  /**
   * A variable declaration fails on a bad initializer (with that
   * initializer's diagnostic) or on a duplicate in the innermost scope;
   * otherwise the name denotes a variable at the current offset, which then
   * grows by exactly one, every other name keeps its meaning, and nothing
   * else changes.
   */
  lemma VarDeclEffect(st: AnalyzerState, typ: BuiltInType, name: string, init: Option<Exp>, line: int)
    requires |st.scopes| > 0
    ensures var r := Analyze(st, VarDecl(typ, name, init, line));
      && (r.Ok? <==> CheckInit(st.scopes, typ, init, line).Pass? && name !in Top(st.scopes))
      && (CheckInit(st.scopes, typ, init, line).Fail? ==> r == Err(CheckInit(st.scopes, typ, init, line).error))
      && (CheckInit(st.scopes, typ, init, line).Pass? && name in Top(st.scopes) ==> r == Err(Def(line, name)))
      && (r.Ok? ==> r.value == st.(scopes := Bind(st.scopes, name, VariableSymbol(name, typ, st.offset)),
                                   offset := st.offset + 1))
      && (r.Ok? ==> Find(r.value.scopes, name) == Some(VariableSymbol(name, typ, st.offset)))
      && (r.Ok? ==> forall other :: other != name ==> Find(r.value.scopes, other) == Find(st.scopes, other))
  {
    var sym := VariableSymbol(name, typ, st.offset);
    forall other
      ensures Find(Bind(st.scopes, name, sym), name) == Some(sym)
      ensures other != name ==> Find(Bind(st.scopes, name, sym), other) == Find(st.scopes, other)
    {
      BindShadows(st.scopes, name, sym, other);
    }
  }

  /**
   * An initializer must be assignable to the declared type: an int literal
   * cannot initialize a byte, a byte literal can initialize an int.
   */
  lemma VarDeclInitializer(st: AnalyzerState, name: string, v: int, line: int)
    requires |st.scopes| > 0 && name !in Top(st.scopes)
    ensures Analyze(st, VarDecl(BYTE, name, Some(Num(v)), line)) == Err(Mismatch(line))
    ensures 0 <= v <= 255 ==> Analyze(st, VarDecl(INT, name, Some(NumB(v, line)), line)).Ok?
  {
  }

  /**
   * Shadowing: a name declared only in enclosing scopes may be declared
   * again, and afterwards denotes the new variable.
   */
  lemma VarDeclShadows(st: AnalyzerState, typ: BuiltInType, name: string, line: int)
    requires |st.scopes| > 1 && name in st.scopes[0] && name !in Top(st.scopes)
    ensures Analyze(st, VarDecl(typ, name, None, line)).Ok?
    ensures Find(Analyze(st, VarDecl(typ, name, None, line)).value.scopes, name) ==
              Some(VariableSymbol(name, typ, st.offset))
  {
    BindShadows(st.scopes, name, VariableSymbol(name, typ, st.offset), name);
  }

  /**
   * The lasting effect of a function declaration on the stack is its symbol
   * in the enclosing scope; its formals and locals are gone, and the local
   * offset is not reset, so it keeps growing across functions.
   */
  lemma FuncDeclEffect(st: AnalyzerState, returnType: BuiltInType, name: string, formals: seq<Formal>, body: Stmt, line: int)
    requires |st.scopes| > 0
    requires Analyze(st, FuncDecl(returnType, name, formals, body, line)).Ok?
    ensures var r := Analyze(st, FuncDecl(returnType, name, formals, body, line)).value;
      && r.scopes == Bind(st.scopes, name, FunctionSymbol(name, returnType, ParamTypes(formals)))
      && name !in Top(st.scopes)
      && st.offset <= r.offset
  {
  }

  /** Locals of one function take offsets after those of the functions before it. */
  lemma OffsetNotResetPerFunction(st: AnalyzerState, name: string, local: string, line: int)
    requires |st.scopes| > 0 && name != "main" && name !in Top(st.scopes)
    ensures var r := Analyze(st, FuncDecl(VOID, name, [], VarDecl(INT, local, None, line), line));
      r.Ok? && r.value.offset == st.offset + 1
  {
  }

  /** An if or while whose condition is not boolean is rejected. */
  lemma ConditionMustBeBool(st: AnalyzerState, condition: Exp, body: Stmt, otherwise: Option<Stmt>, line: int)
    requires |st.scopes| > 0
    requires ExpType(st.scopes, condition).Ok? && ExpType(st.scopes, condition).value != BOOL
    ensures Analyze(st, If(condition, body, otherwise, line)) == Err(Mismatch(line))
    ensures Analyze(st, While(condition, body, line)) == Err(Mismatch(line))
  {
  }

  /**
   * Each branch and each loop body runs in its own scope: afterwards the
   * stack is exactly as before. A loop ends with the loop flag cleared.
   */
  lemma BranchesRestoreScopes(st: AnalyzerState, condition: Exp, body: Stmt, otherwise: Option<Stmt>, line: int)
    requires |st.scopes| > 0
    ensures Analyze(st, If(condition, body, otherwise, line)).Ok? ==>
              Analyze(st, If(condition, body, otherwise, line)).value.scopes == st.scopes
    ensures Analyze(st, While(condition, body, line)).Ok? ==>
              Analyze(st, While(condition, body, line)).value.scopes == st.scopes &&
              !Analyze(st, While(condition, body, line)).value.insideLoop
  {
  }

  /** break and continue are accepted exactly when the loop flag is set, and change nothing. */
  lemma LoopControl(st: AnalyzerState, line: int)
    requires |st.scopes| > 0
    ensures Analyze(st, Break(line)) == if st.insideLoop then Ok(st) else Err(UnexpectedBreak(line))
    ensures Analyze(st, Continue(line)) == if st.insideLoop then Ok(st) else Err(UnexpectedContinue(line))
  {
  }

  /**
   * A loop body is analyzed with the flag set, whatever the flag was
   * outside: a break, continue or return as the body of a while is accepted.
   */
  lemma LoopBodyMayBreak(st: AnalyzerState, condition: Exp, body: Stmt, line: int)
    requires |st.scopes| > 0 && CheckCondition(st.scopes, condition, line).Pass?
    requires body.Break? || body.Continue? || body.Return?
    ensures Analyze(st, While(condition, body, line)) == Ok(st.(insideLoop := false))
  {
    var looping := st.(insideLoop := true);
    PopPush(st.scopes);
    assert Analyze(looping.(scopes := Push(st.scopes)), body) == Ok(looping.(scopes := Push(st.scopes)));
    assert AnalyzeInScope(looping, body) == Ok(looping);
  }

  /**
   * The loop flag is a boolean, not a depth: leaving an inner loop clears
   * it even inside an outer loop, so a break after the inner loop, still
   * inside the outer one, is rejected.
   */
  lemma InnerLoopClearsFlag(st: AnalyzerState, condition: Exp, body: Stmt, line: int)
    requires |st.scopes| > 0 && st.insideLoop
    requires Analyze(st, While(condition, body, line)).Ok?
    ensures Analyze(Analyze(st, While(condition, body, line)).value, Break(line)) == Err(UnexpectedBreak(line))
  {
  }

  /** `b` names a boolean variable (not a function) somewhere in the stack. */
  predicate BoolVariable(scopes: seq<Scope>, b: string) {
    Find(scopes, b).Some? && !Find(scopes, b).value.isFunction && Find(scopes, b).value.typ == BOOL
  }

  /** A boolean variable in scope is a valid condition, and keeps its meaning in a newly entered scope. */
  lemma BoolConditionInScope(scopes: seq<Scope>, b: string, line: int)
    requires BoolVariable(scopes, b)
    ensures CheckCondition(scopes, ID(b, line), line) == Pass
    ensures Find(Push(scopes), b) == Find(scopes, b)
  {
    PopPush(scopes);
  }

  /**
   * The same within one statement: in `while (b) { if (b) { while (b) return; } else { break; } }`
   * the else branch is visited after the inner loop cleared the flag, so its
   * break is rejected although it lies inside the outer loop.
   */
  lemma NestedLoopBreakRejected(st: AnalyzerState, b: string, line: int)
    requires |st.scopes| > 0 && BoolVariable(st.scopes, b)
    ensures Analyze(st, While(ID(b, line), If(ID(b, line), While(ID(b, line), Return(None, line), line), Some(Break(line)), line), line))
            == Err(UnexpectedBreak(line))
  {
    var c := ID(b, line);
    var inner := While(c, Return(None, line), line);
    var branch := If(c, inner, Some(Break(line)), line);
    var s1 := st.(insideLoop := true);
    var s2 := s1.(scopes := Push(st.scopes));
    var s3 := s2.(scopes := Push(s2.scopes));
    BoolConditionInScope(st.scopes, b, line);
    BoolConditionInScope(s2.scopes, b, line);
    BoolConditionInScope(s3.scopes, b, line);
    LoopBodyMayBreak(s3, c, Return(None, line), line);
    PopPush(s2.scopes);
    assert AnalyzeInScope(s2, inner) == Ok(s2.(insideLoop := false));
    assert AnalyzeInScope(s2.(insideLoop := false), Break(line)) == Err(UnexpectedBreak(line));
    assert Analyze(s2, branch) == Err(UnexpectedBreak(line));
    assert AnalyzeInScope(s1, branch) == Err(UnexpectedBreak(line));
  }

  /** A return statement is accepted unchecked: nothing in it is even looked up. */
  lemma ReturnIsNoOp(st: AnalyzerState, e: Option<Exp>, line: int)
    requires |st.scopes| > 0
    ensures Analyze(st, Return(e, line)) == Ok(st)
  {
  }

  /** The visit outcome `r` and the state `now` are those `spec` describes. */
  ghost predicate Reports(r: Outcome, spec: Result<AnalyzerState>, now: AnalyzerState) {
    match spec
    case Ok(st) => r == Pass && now == st
    case Err(e) => r == Fail(e)
  }

  /**
   * The analyzer. Expression visits return the type the source records for
   * the node; statement visits update the scope stack, the flags and the
   * next local offset. A failed visit stands for the diagnostic that ends
   * the run, so nothing is promised about the state it leaves.
   */
  class SemanticVisitor {
    const context: SemanticContext
    var currentOffset: int

    ghost predicate Valid()
      reads this, context
    {
      context.Valid()
    }

    ghost function State(): AnalyzerState
      reads this, context
    {
      AnalyzerState(context.scopes, context.insideLoop, context.mainDefined, currentOffset)
    }

    constructor ()
      ensures Valid() && fresh(context)
      ensures State() == Initial()
    {
      context := new SemanticContext();
      currentOffset := 0;
    }

    /** The end-of-unit check: a unit that defined no main is an error. */
    method Finish() returns (r: Outcome)
      ensures r == if context.mainDefined then Pass else Fail(MainMissing)
    {
      var defined := context.IsMainDefined();
      if !defined {
        return Fail(MainMissing);
      }
      r := Pass;
    }

    method VisitExp(e: Exp) returns (r: Result<BuiltInType>)
      ensures r == ExpType(context.scopes, e)
    {
      match e
      case Num(_) =>
        r := Ok(INT);
      case NumB(value, line) =>
        if value > 255 {
          return Err(ByteTooLarge(line, value));
        }
        r := Ok(BYTE);
      case String(_) =>
        r := Ok(STRING);
      case ID(name, line) =>
        var found := context.Lookup(name, line);
        if found.Err? {
          return Err(found.error);
        }
        if found.value.isFunction {
          return Err(DefAsVar(line, name));
        }
        r := Ok(found.value.typ);
    }

    /** Dispatches on the kind of statement, as accepting a visitor does. */
    method Visit(s: Stmt) returns (r: Outcome)
      requires Valid()
      modifies this, context
      ensures Valid()
      ensures Reports(r, Analyze(old(State()), s), State())
      decreases s, 2
    {
      match s
      case VarDecl(_, _, _, _) => r := VisitVarDecl(s);
      case FuncDecl(_, _, _, _, _) => r := VisitFuncDecl(s);
      case If(_, _, _, _) => r := VisitIf(s);
      case While(_, _, _) => r := VisitWhile(s);
      case Break(_) => r := VisitBreak(s);
      case Continue(_) => r := VisitContinue(s);
      case Return(_, _) => r := VisitReturn(s);
    }

    /** Visits `s` inside a scope entered for it and left after it. */
    method VisitInScope(s: Stmt) returns (r: Outcome)
      requires Valid()
      modifies this, context
      ensures Valid()
      ensures Reports(r, AnalyzeInScope(old(State()), s), State())
      decreases s, 3
    {
      context.EnterScope();
      assert State() == old(State()).(scopes := Push(old(State()).scopes));
      r := Visit(s);
      if r.Fail? {
        return;
      }
      context.ExitScope();
    }

    method VisitVarDecl(s: Stmt) returns (r: Outcome)
      requires Valid() && s.VarDecl?
      modifies this, context
      ensures Valid()
      ensures Reports(r, Analyze(old(State()), s), State())
      decreases s, 1
    {
      if s.init.Some? {
        var t := VisitExp(s.init.value);
        if t.Err? {
          return Fail(t.error);
        }
        if !IsAssignable(s.typ, t.value) {
          return Fail(Mismatch(s.line));
        }
      }
      var offset := currentOffset;
      currentOffset := currentOffset + 1;
      r := context.DeclareVariable(s.name, s.typ, offset, s.line);
    }

    method VisitFuncDecl(s: Stmt) returns (r: Outcome)
      requires Valid() && s.FuncDecl?
      modifies this, context
      ensures Valid()
      ensures Reports(r, Analyze(old(State()), s), State())
      decreases s, 1
    {
      r := VisitFuncHeader(s);
      if r.Fail? {
        return;
      }
      r := Visit(s.body);
      if r.Fail? {
        return;
      }
      context.ExitScope();
    }

    /**
     * The part of a function declaration's visit before its body: checks the
     * main signature, declares the function, enters the body's scope and
     * declares the formals there.
     */
    method VisitFuncHeader(s: Stmt) returns (r: Outcome)
      requires Valid() && s.FuncDecl?
      modifies context
      ensures Valid()
      ensures Reports(r, EnterFunction(old(State()), s.returnType, s.name, s.formals, s.line), State())
    {
      ghost var st := State();
      var paramTypes := CollectParamTypes(s.formals);
      if s.name == "main" {
        var defined := context.IsMainDefined();
        if defined || |paramTypes| != 0 || s.returnType != VOID {
          return Fail(MainMissing);
        }
        context.MarkMainDefined();
      }
      r := context.DeclareFunction(s.name, s.returnType, paramTypes, s.line);
      if r.Fail? {
        return;
      }
      context.EnterScope();
      r := DeclareFormalsInScope(s.formals);
    }

    /** Collects the formals' types in declaration order. */
    method CollectParamTypes(formals: seq<Formal>) returns (paramTypes: seq<BuiltInType>)
      ensures paramTypes == ParamTypes(formals)
    {
      paramTypes := [];
      var i := 0;
      while i < |formals|
        invariant 0 <= i <= |formals|
        invariant |paramTypes| == i
        invariant forall k :: 0 <= k < i ==> paramTypes[k] == formals[k].typ
      {
        paramTypes := paramTypes + [formals[i].typ];
        i := i + 1;
      }
    }

    /** Declares the formals in the innermost scope at offsets -1, -2, ... */
    method DeclareFormalsInScope(formals: seq<Formal>) returns (r: Outcome)
      requires Valid()
      modifies context
      ensures Valid()
      ensures match DeclareFormals(old(context.scopes), formals, -1)
              case Ok(scopes) => r == Pass && context.scopes == scopes
              case Err(e) => r == Fail(e)
      ensures context.insideLoop == old(context.insideLoop) && context.mainDefined == old(context.mainDefined)
    {
      var paramOffset := -1;
      var i := 0;
      r := Pass;
      while i < |formals|
        invariant 0 <= i <= |formals|
        invariant paramOffset == -1 - i
        invariant r == Pass
        invariant context.Valid()
        invariant context.insideLoop == old(context.insideLoop) && context.mainDefined == old(context.mainDefined)
        invariant DeclareFormals(context.scopes, formals[i..], paramOffset) == DeclareFormals(old(context.scopes), formals, -1)
      {
        var formal := formals[i];
        assert formals[i..][0] == formal && formals[i..][1..] == formals[i + 1..];
        r := context.DeclareVariable(formal.name, formal.typ, paramOffset, formal.line);
        if r.Fail? {
          return;
        }
        paramOffset := paramOffset - 1;
        i := i + 1;
      }
      assert formals[i..] == [];
    }

    method VisitIf(s: Stmt) returns (r: Outcome)
      requires Valid() && s.If?
      modifies this, context
      ensures Valid()
      ensures Reports(r, Analyze(old(State()), s), State())
      decreases s, 1
    {
      var t := VisitExp(s.condition);
      if t.Err? {
        return Fail(t.error);
      }
      if t.value != BOOL {
        return Fail(Mismatch(s.line));
      }
      r := VisitInScope(s.thenBranch);
      if r.Fail? || s.elseBranch.None? {
        return;
      }
      r := VisitInScope(s.elseBranch.value);
    }

    method VisitWhile(s: Stmt) returns (r: Outcome)
      requires Valid() && s.While?
      modifies this, context
      ensures Valid()
      ensures Reports(r, Analyze(old(State()), s), State())
      decreases s, 1
    {
      var t := VisitExp(s.condition);
      if t.Err? {
        return Fail(t.error);
      }
      if t.value != BOOL {
        return Fail(Mismatch(s.line));
      }
      context.SetInsideLoop(true);
      r := VisitInScope(s.body);
      if r.Fail? {
        return;
      }
      context.SetInsideLoop(false);
    }

    method VisitBreak(s: Stmt) returns (r: Outcome)
      requires s.Break?
      ensures r == if context.insideLoop then Pass else Fail(UnexpectedBreak(s.line))
    {
      var inLoop := context.IsInsideLoop();
      if !inLoop {
        return Fail(UnexpectedBreak(s.line));
      }
      r := Pass;
    }

    method VisitContinue(s: Stmt) returns (r: Outcome)
      requires s.Continue?
      ensures r == if context.insideLoop then Pass else Fail(UnexpectedContinue(s.line))
    {
      var inLoop := context.IsInsideLoop();
      if !inLoop {
        return Fail(UnexpectedContinue(s.line));
      }
      r := Pass;
    }

    /** Return statements are not checked at all. */
    method VisitReturn(s: Stmt) returns (r: Outcome)
      requires s.Return?
      ensures r == Pass
    {
      r := Pass;
    }
  }
}
