/**
 * The scope stack of the semantic analyzer (SemanticContext): a stack of
 * identifier -> symbol maps, innermost scope last, and two flags.
 *
 * The pure functions Top, Push, Pop, Bind and Find describe the stack as a
 * value; the class SemanticContext updates it in place and each of its
 * methods is specified by those functions.
 */
module SymbolTable {
  import opened Types

  /** A declared variable or function. */
  datatype Symbol = Symbol(
    id: string,
    typ: BuiltInType,
    offset: int,
    isFunction: bool,
    paramTypes: seq<BuiltInType>)

  /** The entry a variable declaration stores. */
  function VariableSymbol(id: string, typ: BuiltInType, offset: int): Symbol {
    Symbol(id, typ, offset, false, [])
  }

  /** The entry a function declaration stores: its offset is always 0. */
  function FunctionSymbol(id: string, returnType: BuiltInType, params: seq<BuiltInType>): Symbol {
    Symbol(id, returnType, 0, true, params)
  }

  type Scope = map<string, Symbol>

  /** The innermost scope. */
  function Top(scopes: seq<Scope>): Scope
    requires |scopes| > 0
  {
    scopes[|scopes| - 1]
  }

  /** The stack with one more, empty, innermost scope. */
  function Push(scopes: seq<Scope>): seq<Scope> {
    scopes + [map[]]
  }

  /** The stack without its innermost scope. */
  function Pop(scopes: seq<Scope>): seq<Scope>
    requires |scopes| > 0
  {
    scopes[..|scopes| - 1]
  }

  /** The stack after `id` is mapped to `sym` in the innermost scope. */
  function Bind(scopes: seq<Scope>, id: string, sym: Symbol): (r: seq<Scope>)
    requires |scopes| > 0
    ensures |r| == |scopes| && Pop(r) == Pop(scopes)
    ensures Top(r) == Top(scopes)[id := sym]
  {
    Pop(scopes) + [Top(scopes)[id := sym]]
  }

  /** The symbol `id` denotes: searched innermost scope first. */
  function Find(scopes: seq<Scope>, id: string): Option<Symbol>
    decreases |scopes|
  {
    if |scopes| == 0 then None
    else if id in Top(scopes) then Some(Top(scopes)[id])
    else Find(Pop(scopes), id)
  }

  /** Scope `i` holds `id` and no scope inside it does. */
  ghost predicate InnermostAt(scopes: seq<Scope>, id: string, i: int) {
    0 <= i < |scopes| && id in scopes[i] &&
    forall j :: i < j < |scopes| ==> id !in scopes[j]
  }

  /** Lookup fails exactly when no scope of the stack holds the identifier. */
  lemma {:induction false} FindNoneIffAbsent(scopes: seq<Scope>, id: string)
    ensures Find(scopes, id).None? <==> forall i :: 0 <= i < |scopes| ==> id !in scopes[i]
    decreases |scopes|
  {
    if |scopes| > 0 {
      FindNoneIffAbsent(Pop(scopes), id);
      assert forall i :: 0 <= i < |scopes| - 1 ==> scopes[i] == Pop(scopes)[i];
    }
  }

  /** Lookup returns the entry of the innermost scope that holds the identifier. */
  lemma {:induction false} FindInnermost(scopes: seq<Scope>, id: string, i: int)
    requires InnermostAt(scopes, id, i)
    ensures Find(scopes, id) == Some(scopes[i][id])
    decreases |scopes|
  {
    if i < |scopes| - 1 {
      assert id !in Top(scopes);
      FindInnermost(Pop(scopes), id, i);
    }
  }

  /** Leaving a scope just entered gives back the stack as it was. */
  lemma PopPush(scopes: seq<Scope>)
    ensures Pop(Push(scopes)) == scopes
  {
  }

  /**
   * Shadowing: after a declaration the identifier denotes the new symbol,
   * whatever the enclosing scopes hold, and every other identifier keeps
   * the meaning it had.
   */
  lemma {:induction false} BindShadows(scopes: seq<Scope>, id: string, sym: Symbol, other: string)
    requires |scopes| > 0
    ensures Find(Bind(scopes, id, sym), id) == Some(sym)
    ensures other != id ==> Find(Bind(scopes, id, sym), other) == Find(scopes, other)
  {
  }

  /**
   * The analyzer's scope stack. `scopes` is never empty: the global scope is
   * created by the constructor and never left.
   */
  class SemanticContext {
    var scopes: seq<Scope>
    var insideLoop: bool
    var mainDefined: bool

    ghost predicate Valid()
      reads this
    {
      |scopes| > 0
    }

    /**
     * One empty global scope and both flags false. The built-ins print and
     * printi go only to the declaration trace, never into a scope.
     */
    constructor ()
      ensures Valid()
      ensures scopes == [map[]] && !insideLoop && !mainDefined
    {
      scopes := [map[]];
      insideLoop := false;
      mainDefined := false;
    }

    method EnterScope()
      requires Valid()
      modifies this
      ensures Valid()
      ensures scopes == Push(old(scopes))
      ensures insideLoop == old(insideLoop) && mainDefined == old(mainDefined)
    {
      scopes := Push(scopes);
    }

    /** Discards the innermost scope; only a scope that was entered is left. */
    method ExitScope()
      requires |scopes| > 1
      modifies this
      ensures Valid()
      ensures scopes == Pop(old(scopes))
      ensures insideLoop == old(insideLoop) && mainDefined == old(mainDefined)
    {
      scopes := Pop(scopes);
    }

    /** Declares a variable in the innermost scope; a duplicate there is an error. */
    method DeclareVariable(id: string, typ: BuiltInType, offset: int, line: int) returns (r: Outcome)
      requires Valid()
      modifies this
      ensures Valid()
      ensures r == (if id in Top(old(scopes)) then Fail(Def(line, id)) else Pass)
      ensures scopes == (if r.Pass? then Bind(old(scopes), id, VariableSymbol(id, typ, offset)) else old(scopes))
      ensures insideLoop == old(insideLoop) && mainDefined == old(mainDefined)
    {
      if id in Top(scopes) {
        return Fail(Def(line, id));
      }
      scopes := Bind(scopes, id, VariableSymbol(id, typ, offset));
      r := Pass;
    }

    /** Declares a function in the innermost scope; a duplicate there is an error. */
    method DeclareFunction(id: string, returnType: BuiltInType, params: seq<BuiltInType>, line: int)
      returns (r: Outcome)
      requires Valid()
      modifies this
      ensures Valid()
      ensures r == (if id in Top(old(scopes)) then Fail(Def(line, id)) else Pass)
      ensures scopes == (if r.Pass? then Bind(old(scopes), id, FunctionSymbol(id, returnType, params)) else old(scopes))
      ensures insideLoop == old(insideLoop) && mainDefined == old(mainDefined)
    {
      if id in Top(scopes) {
        return Fail(Def(line, id));
      }
      scopes := Bind(scopes, id, FunctionSymbol(id, returnType, params));
      r := Pass;
    }

    /** Scans the scopes from the innermost outwards; no match is an error. */
    method Lookup(id: string, line: int) returns (r: Result<Symbol>)
      ensures r == match Find(scopes, id) case Some(sym) => Ok(sym) case None => Err(Undef(line, id))
    {
      var k := |scopes|;
      assert scopes[..k] == scopes;
      while k > 0
        invariant 0 <= k <= |scopes|
        invariant Find(scopes, id) == Find(scopes[..k], id)
      {
        assert Pop(scopes[..k]) == scopes[..k - 1];
        if id in scopes[k - 1] {
          return Ok(scopes[k - 1][id]);
        }
        k := k - 1;
      }
      return Err(Undef(line, id));
    }

    method MarkMainDefined()
      modifies this
      ensures mainDefined
      ensures scopes == old(scopes) && insideLoop == old(insideLoop)
    {
      mainDefined := true;
    }

    /** Reads the flag; has no modifies clause, so it changes nothing. */
    method IsMainDefined() returns (b: bool)
      ensures b == mainDefined
    {
      b := mainDefined;
    }

    method SetInsideLoop(status: bool)
      modifies this
      ensures insideLoop == status
      ensures scopes == old(scopes) && mainDefined == old(mainDefined)
    {
      insideLoop := status;
    }

    /** Reads the flag; has no modifies clause, so it changes nothing. */
    method IsInsideLoop() returns (b: bool)
      ensures b == insideLoop
    {
      b := insideLoop;
    }
  }
}
