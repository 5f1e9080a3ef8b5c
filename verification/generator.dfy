/**
 * The IR emission helpers of the code generator (LLVM_code_generator).
 *
 * Each helper draws fresh registers from the shared code buffer and appends
 * a fixed, short instruction sequence to it. Instructions are an abstract
 * datatype rather than text. The blocks each helper appends are given by
 * functions (GlobalFunctionsBlock, LoadVarBlock, StoreVarBlock, BinopBlock,
 * RelopBlock), and `Sound` is the buffer invariant they keep: every fresh
 * register is defined once and before it is used, and every division is
 * immediately preceded by the zero-divisor check on its divisor.
 */
module Generator {
  import opened Types

  /** A register: one drawn from the buffer's counter, or a fixed name such as %valid. */
  datatype Reg = Temp(n: nat) | Named(name: string)

  datatype Operand =
    | R(reg: Reg)
    | Imm(value: int)
    | Arg(index: nat)                    // an unnamed parameter (%0) of the enclosing function
    | StringPtr(global: string, size: nat) // address of the first byte of a global [size x i8]

  /** Comparison predicates of `icmp`. */
  datatype Cond = Eq | Ne | Sgt | Sge | Slt | Sle

  /** Integer instructions on i32. */
  datatype ArithOp = Add | Sub | Mul | SDiv | UDiv | And

  /** A branch target; `Hole` is the placeholder a later pass fills in. */
  datatype Target = Label(name: string) | Hole

  datatype Instr =
    | GlobalString(name: string, size: nat, text: string) // internal constant [size x i8] holding text and a NUL
    | DefineVoid(name: string, arity: nat)                 // opens `define void @name(i32, ...)`
    | EndDefine
    | LabelDef(name: string)
    | Icmp(dst: Reg, cond: Cond, lhs: Operand, rhs: Operand)
    | Br(flag: Reg, onTrue: Target, onFalse: Target)
    | CallVoid(callee: string, args: seq<Operand>)
    | RetVoid
    | Gep(dst: Reg, base: Operand, index: int)             // address of the i32 slot base + index
    | Load(dst: Reg, ptr: Reg)
    | Store(value: Operand, ptr: Reg)
    | Arith(dst: Reg, op: ArithOp, lhs: Operand, rhs: Operand)

  const CheckDivision: string := "check_division"
  const DivByZeroGlobal: string := ".DIV_BY_ZERO_ERROR"
  const DivByZeroMessage: string := "Error division by zero"

  // ---------------------------------------------------------------------------
  // Registers defined and used

  function TempSet(r: Reg): set<Reg> {
    if r.Temp? then {r} else {}
  }

  function OperandTemps(o: Operand): set<Reg> {
    if o.R? then TempSet(o.reg) else {}
  }

  function ArgTemps(args: seq<Operand>): set<Reg>
    decreases |args|
  {
    if |args| == 0 then {} else ArgTemps(args[..|args| - 1]) + OperandTemps(args[|args| - 1])
  }

  /** The fresh registers an instruction defines. */
  function Defs(i: Instr): set<Reg> {
    match i
    case Icmp(dst, _, _, _) => TempSet(dst)
    case Gep(dst, _, _) => TempSet(dst)
    case Load(dst, _) => TempSet(dst)
    case Arith(dst, _, _, _) => TempSet(dst)
    case _ => {}
  }

  /** The fresh registers an instruction reads. */
  function Uses(i: Instr): set<Reg> {
    match i
    case Icmp(_, _, lhs, rhs) => OperandTemps(lhs) + OperandTemps(rhs)
    case Br(flag, _, _) => TempSet(flag)
    case CallVoid(_, args) => ArgTemps(args)
    case Gep(_, base, _) => OperandTemps(base)
    case Load(_, ptr) => TempSet(ptr)
    case Store(value, ptr) => OperandTemps(value) + TempSet(ptr)
    case Arith(_, _, lhs, rhs) => OperandTemps(lhs) + OperandTemps(rhs)
    case _ => {}
  }

  function DefinedIn(code: seq<Instr>): set<Reg>
    decreases |code|
  {
    if |code| == 0 then {} else DefinedIn(code[..|code| - 1]) + Defs(code[|code| - 1])
  }

  /** `i` reads only registers already defined and defines only new ones. */
  ghost predicate StepOk(defined: set<Reg>, i: Instr) {
    Uses(i) <= defined && Defs(i) !! defined
  }

  /** Every fresh register is defined exactly once, and before any use. */
  ghost predicate WellFormed(code: seq<Instr>)
    decreases |code|
  {
    |code| == 0 || (WellFormed(code[..|code| - 1]) && StepOk(DefinedIn(code[..|code| - 1]), code[|code| - 1]))
  }

  predicate IsDivide(i: Instr) {
    i.Arith? && (i.op == SDiv || i.op == UDiv)
  }

  /** Every division is immediately preceded by the zero check of its divisor. */
  ghost predicate Guarded(code: seq<Instr>) {
    forall k :: 0 <= k < |code| && IsDivide(code[k]) ==>
      0 < k && code[k - 1] == CallVoid(CheckDivision, [code[k].rhs])
  }

  /** The invariant of the code buffer, given the next register number `counter`. */
  ghost predicate Sound(code: seq<Instr>, counter: nat) {
    && WellFormed(code)
    && Guarded(code)
    && forall r :: r in DefinedIn(code) ==> r.Temp? && r.n < counter
  }

  /** The operand's value is available at the end of `code`. */
  ghost predicate Available(code: seq<Instr>, o: Operand) {
    OperandTemps(o) <= DefinedIn(code)
  }

  lemma AppendOne(code: seq<Instr>, i: Instr)
    ensures DefinedIn(code + [i]) == DefinedIn(code) + Defs(i)
    ensures WellFormed(code + [i]) <==> WellFormed(code) && StepOk(DefinedIn(code), i)
  {
    assert (code + [i])[..|code|] == code;
  }

  /**
   * Appending one instruction keeps the buffer sound when it reads defined
   * registers, defines registers below the new counter that are not yet
   * defined, and is a division only right after the matching check.
   */
  lemma {:induction false} AppendSound(code: seq<Instr>, counter: nat, i: Instr, counter': nat)
    requires Sound(code, counter) && counter <= counter'
    requires StepOk(DefinedIn(code), i)
    requires forall r :: r in Defs(i) ==> r.Temp? && r.n < counter'
    requires IsDivide(i) ==> 0 < |code| && code[|code| - 1] == CallVoid(CheckDivision, [i.rhs])
    ensures Sound(code + [i], counter')
    ensures DefinedIn(code) <= DefinedIn(code + [i])
  {
    AppendOne(code, i);
    var code' := code + [i];
    forall k | 0 <= k < |code'| && IsDivide(code'[k])
      ensures 0 < k && code'[k - 1] == CallVoid(CheckDivision, [code'[k].rhs])
    {
      if k < |code| {
        assert code'[k] == code[k] && code'[k - 1] == code[k - 1];
      }
    }
  }

  /**
   * Appending a non-division that reads defined registers and defines one
   * register `n`, not defined yet and below the new count `counter'`.
   */
  lemma AppendFresh(code: seq<Instr>, counter: nat, i: Instr, n: nat, counter': nat)
    requires Sound(code, counter) && !IsDivide(i) && counter <= counter'
    requires Uses(i) <= DefinedIn(code) && Defs(i) == {Temp(n)}
    requires Temp(n) !in DefinedIn(code) && n < counter'
    ensures Sound(code + [i], counter')
    ensures DefinedIn(code + [i]) == DefinedIn(code) + {Temp(n)}
  {
    AppendSound(code, counter, i, counter');
    AppendOne(code, i);
  }

  /** Appending a non-division that reads defined registers and defines none. */
  lemma AppendReader(code: seq<Instr>, counter: nat, i: Instr)
    requires Sound(code, counter) && !IsDivide(i)
    requires Uses(i) <= DefinedIn(code) && Defs(i) == {}
    ensures Sound(code + [i], counter)
    ensures DefinedIn(code + [i]) == DefinedIn(code)
  {
    AppendSound(code, counter, i, counter);
    AppendOne(code, i);
  }

  /** An instruction that defines, reads and divides nothing. */
  predicate Inert(i: Instr) {
    Defs(i) == {} && Uses(i) == {} && !IsDivide(i)
  }

  /** Inert instructions keep the buffer sound. */
  lemma {:induction false} AppendInert(code: seq<Instr>, counter: nat, block: seq<Instr>)
    requires Sound(code, counter)
    requires forall i :: i in block ==> Inert(i)
    ensures Sound(code + block, counter)
    ensures DefinedIn(code + block) == DefinedIn(code)
    decreases |block|
  {
    if |block| == 0 {
      assert code + block == code;
    } else {
      var init := block[..|block| - 1];
      var last := block[|block| - 1];
      assert forall i :: i in init ==> i in block;
      assert last in block;
      AppendInert(code, counter, init);
      assert code + block == (code + init) + [last];
      AppendSound(code + init, counter, last, counter);
      AppendOne(code + init, last);
    }
  }

  // ---------------------------------------------------------------------------
  // The blocks each helper appends

  /**
   * The division-by-zero helper emitted once at program start: the message
   * constant, then `check_division(i32)`, which compares its argument with
   * 0 and branches to ILLEGAL (print the message, exit) or LEGAL (return).
   */
  function GlobalFunctionsBlock(): seq<Instr> {
    [ GlobalString(DivByZeroGlobal, 23, DivByZeroMessage),
      DefineVoid(CheckDivision, 1),
      Icmp(Named("valid"), Eq, Arg(0), Imm(0)),
      Br(Named("valid"), Label("ILLEGAL"), Label("LEGAL")),
      LabelDef("ILLEGAL"),
      CallVoid("print", [StringPtr(DivByZeroGlobal, 23)]),
      CallVoid("exit", [Imm(0)]),
      RetVoid,
      LabelDef("LEGAL"),
      RetVoid,
      EndDefine ]
  }

  /**
   * The helper is 11 instructions and defines the one-argument function
   * every guard calls; the message constant is exactly as long as its text
   * and terminating NUL, and the print call addresses that same constant.
   */
  lemma GlobalFunctionsShape()
    ensures |GlobalFunctionsBlock()| == 11
    ensures GlobalFunctionsBlock()[1] == DefineVoid(CheckDivision, 1)
    ensures GlobalFunctionsBlock()[0].size == |GlobalFunctionsBlock()[0].text| + 1
    ensures GlobalFunctionsBlock()[5].args == [StringPtr(GlobalFunctionsBlock()[0].name, GlobalFunctionsBlock()[0].size)]
  {
  }

  /** The helper defines, reads and divides no fresh register, so it keeps the buffer sound. */
  lemma GlobalFunctionsSound(code: seq<Instr>, counter: nat)
    ensures Sound(code, counter) ==> Sound(code + GlobalFunctionsBlock(), counter)
  {
    if Sound(code, counter) {
      assert ArgTemps([StringPtr(DivByZeroGlobal, 23)]) == {};
      assert ArgTemps([Imm(0)]) == {};
      AppendInert(code, counter, GlobalFunctionsBlock());
    }
  }

  /** A load of the slot at `offset` from `rbp`: register `c` receives it through the pointer in `c + 1`. */
  function LoadVarBlock(c: nat, rbp: Operand, offset: int): seq<Instr> {
    [Gep(Temp(c + 1), rbp, offset), Load(Temp(c), Temp(c + 1))]
  }

  /** A store of `value` into the slot at `offset` from `rbp`, through the pointer in register `c`. */
  function StoreVarBlock(c: nat, rbp: Operand, offset: int, value: Operand): seq<Instr> {
    [Gep(Temp(c), rbp, offset), Store(value, Temp(c))]
  }

  /** Opcode of a binary arithmetic operator; anything but + - * divides, signed for an int result. */
  function BinopOpcode(op: string, resType: BuiltInType): ArithOp {
    if op == "+" then Add
    else if op == "-" then Sub
    else if op == "*" then Mul
    else if resType == INT then SDiv
    else UDiv
  }

  /** Whether the block for `op` ends with the mask to 8 bits. */
  predicate Masks(op: string, resType: BuiltInType) {
    op != "/" && resType == BYTE
  }

  /**
   * The block for `lhs op rhs` whose result register is `c`: a division is
   * preceded by the divisor check; any other byte result is masked into
   * register `c + 1`.
   */
  function BinopBlock(c: nat, op: string, resType: BuiltInType, lhs: Operand, rhs: Operand): seq<Instr> {
    var opcode := BinopOpcode(op, resType);
    if op == "/" then [CallVoid(CheckDivision, [rhs]), Arith(Temp(c), opcode, lhs, rhs)]
    else if resType == BYTE then [Arith(Temp(c), opcode, lhs, rhs), Arith(Temp(c + 1), And, Imm(255), R(Temp(c)))]
    else [Arith(Temp(c), opcode, lhs, rhs)]
  }

  /** The register that holds the value of a binary operation. */
  function BinopResult(c: nat, op: string, resType: BuiltInType): Reg {
    if Masks(op, resType) then Temp(c + 1) else Temp(c)
  }

  /** Predicate of a relational operator; anything unmatched compares with `sle`. */
  function RelopCond(op: string): Cond {
    if op == "==" then Eq
    else if op == "!=" then Ne
    else if op == ">" then Sgt
    else if op == ">=" then Sge
    else if op == "<" then Slt
    else Sle
  }

  /** A comparison into register `c`, then a branch on it to two targets still to be filled in. */
  function RelopBlock(c: nat, op: string, lhs: Operand, rhs: Operand): seq<Instr> {
    [Icmp(Temp(c), RelopCond(op), lhs, rhs), Br(Temp(c), Hole, Hole)]
  }

  /** The opcode table of the binary operators: division is signed exactly for an int result. */
  lemma BinopOpcodeTable(resType: BuiltInType)
    ensures BinopOpcode("+", resType) == Add && BinopOpcode("-", resType) == Sub && BinopOpcode("*", resType) == Mul
    ensures BinopOpcode("/", resType) == if resType == INT then SDiv else UDiv
  {
  }

  /** The predicate table of the relational operators. */
  lemma RelopCondTable()
    ensures RelopCond("==") == Eq && RelopCond("!=") == Ne && RelopCond(">") == Sgt
    ensures RelopCond(">=") == Sge && RelopCond("<") == Slt && RelopCond("<=") == Sle
  {
  }

  /**
   * For each operator: the number of instructions, that a division comes
   * right after the check of its divisor and is not masked, and that a byte
   * result of + - * is masked with 255 into the result register.
   */
  lemma BinopBlockShape(c: nat, op: string, resType: BuiltInType, lhs: Operand, rhs: Operand)
    requires op in {"+", "-", "*", "/"}
    ensures var block := BinopBlock(c, op, resType, lhs, rhs);
      && |block| == (if op == "/" || resType == BYTE then 2 else 1)
      && (forall k :: 0 <= k < |block| && IsDivide(block[k]) ==>
            op == "/" && k == 1 && block[0] == CallVoid(CheckDivision, [rhs]))
      && (op == "/" ==> IsDivide(block[1]) && block[1].dst == BinopResult(c, op, resType))
      && (Masks(op, resType) ==>
            block[1] == Arith(BinopResult(c, op, resType), And, Imm(255), R(block[0].dst)) &&
            block[0].lhs == lhs && block[0].rhs == rhs)
      && (op != "/" && resType != BYTE ==> block == [Arith(BinopResult(c, op, resType), BinopOpcode(op, resType), lhs, rhs)])
  {
  }

  /**
   * An operator outside + - * / (none reaches this helper from the grammar)
   * is emitted as a division with no check before it.
   */
  lemma UnknownOperatorUnguarded(c: nat, op: string, resType: BuiltInType, lhs: Operand, rhs: Operand)
    requires op !in {"+", "-", "*", "/"}
    ensures IsDivide(BinopBlock(c, op, resType, lhs, rhs)[0])
    ensures !Guarded(BinopBlock(c, op, resType, lhs, rhs))
  {
  }

  // ---------------------------------------------------------------------------
  // Each block keeps the buffer sound

  lemma LoadVarSound(code: seq<Instr>, counter: nat, rbp: Operand, offset: int)
    requires Sound(code, counter) && Available(code, rbp)
    ensures Sound(code + LoadVarBlock(counter, rbp, offset), counter + 2)
    ensures Available(code + LoadVarBlock(counter, rbp, offset), R(Temp(counter)))
  {
    var gep := Gep(Temp(counter + 1), rbp, offset);
    var load := Load(Temp(counter), Temp(counter + 1));
    AppendFresh(code, counter, gep, counter + 1, counter + 2);
    AppendFresh(code + [gep], counter + 2, load, counter, counter + 2);
    assert code + LoadVarBlock(counter, rbp, offset) == code + [gep] + [load];
  }

  lemma StoreVarSound(code: seq<Instr>, counter: nat, rbp: Operand, offset: int, value: Operand)
    requires Sound(code, counter) && Available(code, rbp) && Available(code, value)
    ensures Sound(code + StoreVarBlock(counter, rbp, offset, value), counter + 1)
  {
    var gep := Gep(Temp(counter), rbp, offset);
    var store := Store(value, Temp(counter));
    AppendFresh(code, counter, gep, counter, counter + 1);
    AppendReader(code + [gep], counter + 1, store);
    assert code + StoreVarBlock(counter, rbp, offset, value) == code + [gep] + [store];
  }

  lemma BinopSound(code: seq<Instr>, counter: nat, op: string, resType: BuiltInType, lhs: Operand, rhs: Operand)
    requires op in {"+", "-", "*", "/"}
    requires Sound(code, counter) && Available(code, lhs) && Available(code, rhs)
    ensures var counter' := if Masks(op, resType) then counter + 2 else counter + 1;
      var code' := code + BinopBlock(counter, op, resType, lhs, rhs);
      Sound(code', counter') && Available(code', R(BinopResult(counter, op, resType)))
  {
    if op == "/" {
      DivideSound(code, counter, BinopOpcode(op, resType), lhs, rhs);
    } else if resType == BYTE {
      MaskedSound(code, counter, BinopOpcode(op, resType), lhs, rhs);
    } else {
      AppendFresh(code, counter, Arith(Temp(counter), BinopOpcode(op, resType), lhs, rhs), counter, counter + 1);
    }
  }

  /** The zero check of an available divisor keeps the buffer sound and defines nothing. */
  lemma AppendCheck(code: seq<Instr>, counter: nat, rhs: Operand)
    requires Sound(code, counter) && Available(code, rhs)
    ensures Sound(code + [CallVoid(CheckDivision, [rhs])], counter)
    ensures DefinedIn(code + [CallVoid(CheckDivision, [rhs])]) == DefinedIn(code)
  {
    var guard := CallVoid(CheckDivision, [rhs]);
    assert ArgTemps([rhs]) == OperandTemps(rhs);
    assert Defs(guard) == {} && !IsDivide(guard);
    AppendSound(code, counter, guard, counter);
    AppendOne(code, guard);
  }

  /** A checked division into register `counter` keeps the buffer sound. */
  lemma DivideSound(code: seq<Instr>, counter: nat, opcode: ArithOp, lhs: Operand, rhs: Operand)
    requires Sound(code, counter) && Available(code, lhs) && Available(code, rhs)
    ensures var code' := code + [CallVoid(CheckDivision, [rhs]), Arith(Temp(counter), opcode, lhs, rhs)];
      Sound(code', counter + 1) && Available(code', R(Temp(counter)))
  {
    var guard := CallVoid(CheckDivision, [rhs]);
    var first := Arith(Temp(counter), opcode, lhs, rhs);
    AppendCheck(code, counter, rhs);
    var checked := code + [guard];
    assert checked[|checked| - 1] == guard;
    assert Temp(counter) !in DefinedIn(checked);
    assert StepOk(DefinedIn(checked), first);
    assert Defs(first) == {Temp(counter)};
    AppendSound(checked, counter, first, counter + 1);
    AppendOne(checked, first);
    assert code + [guard, first] == checked + [first];
  }

  /** An operation into register `counter` masked with 255 into `counter + 1` keeps the buffer sound. */
  lemma MaskedSound(code: seq<Instr>, counter: nat, opcode: ArithOp, lhs: Operand, rhs: Operand)
    requires opcode != SDiv && opcode != UDiv
    requires Sound(code, counter) && Available(code, lhs) && Available(code, rhs)
    ensures var code' := code + [Arith(Temp(counter), opcode, lhs, rhs), Arith(Temp(counter + 1), And, Imm(255), R(Temp(counter)))];
      Sound(code', counter + 2) && Available(code', R(Temp(counter + 1)))
  {
    var first := Arith(Temp(counter), opcode, lhs, rhs);
    var mask := Arith(Temp(counter + 1), And, Imm(255), R(Temp(counter)));
    assert Temp(counter) !in DefinedIn(code) && Temp(counter + 1) !in DefinedIn(code);
    AppendFresh(code, counter, first, counter, counter + 2);
    assert Uses(mask) == {Temp(counter)} && Defs(mask) == {Temp(counter + 1)};
    AppendFresh(code + [first], counter + 2, mask, counter + 1, counter + 2);
    assert code + [first, mask] == code + [first] + [mask];
  }

  lemma RelopSound(code: seq<Instr>, counter: nat, op: string, lhs: Operand, rhs: Operand)
    requires Sound(code, counter) && Available(code, lhs) && Available(code, rhs)
    ensures Sound(code + RelopBlock(counter, op, lhs, rhs), counter + 1)
  {
    var cmp := Icmp(Temp(counter), RelopCond(op), lhs, rhs);
    var br := Br(Temp(counter), Hole, Hole);
    AppendFresh(code, counter, cmp, counter, counter + 1);
    AppendReader(code + [cmp], counter + 1, br);
    assert code + RelopBlock(counter, op, lhs, rhs) == code + [cmp] + [br];
  }

  // ---------------------------------------------------------------------------
  // The state the helpers update

  /** The instruction buffer and its fresh-register counter (an external collaborator). */
  class CodeBuffer {
    var code: seq<Instr>
    var counter: nat

    constructor ()
      ensures code == [] && counter == 0
    {
      code := [];
      counter := 0;
    }

    /** A register never handed out before. */
    method FreshVar() returns (r: Reg)
      modifies this
      ensures r == Temp(old(counter)) && counter == old(counter) + 1
      ensures code == old(code)
    {
      r := Temp(counter);
      counter := counter + 1;
    }

    method Emit(i: Instr)
      modifies this
      ensures code == old(code) + [i] && counter == old(counter)
    {
      code := code + [i];
    }
  }

  /** An expression node as the generator sees it: its type and where its value is held. */
  class Exp {
    const typ: BuiltInType
    var value: Operand

    constructor (typ: BuiltInType, value: Operand)
      ensures this.typ == typ && this.value == value
    {
      this.typ := typ;
      this.value := value;
    }
  }

  class LlvmCodeGenerator {
    const buffer: CodeBuffer

    constructor (buffer: CodeBuffer)
      ensures this.buffer == buffer
    {
      this.buffer := buffer;
    }

    /** Appends the division-by-zero helper. */
    method GlobalFunctions()
      modifies buffer
      ensures buffer.code == old(buffer.code) + GlobalFunctionsBlock()
      ensures buffer.counter == old(buffer.counter)
      ensures Sound(old(buffer.code), old(buffer.counter)) ==> Sound(buffer.code, buffer.counter)
    {
      ghost var before := buffer.code;
      buffer.Emit(GlobalString(DivByZeroGlobal, 23, DivByZeroMessage));
      buffer.Emit(DefineVoid(CheckDivision, 1));
      buffer.Emit(Icmp(Named("valid"), Eq, Arg(0), Imm(0)));
      buffer.Emit(Br(Named("valid"), Label("ILLEGAL"), Label("LEGAL")));
      buffer.Emit(LabelDef("ILLEGAL"));
      buffer.Emit(CallVoid("print", [StringPtr(DivByZeroGlobal, 23)]));
      buffer.Emit(CallVoid("exit", [Imm(0)]));
      buffer.Emit(RetVoid);
      buffer.Emit(LabelDef("LEGAL"));
      buffer.Emit(RetVoid);
      buffer.Emit(EndDefine);
      assert buffer.code == before + GlobalFunctionsBlock();
      GlobalFunctionsSound(before, buffer.counter);
    }

    /** Loads the variable at `offset` from `rbp` into a fresh register and returns that register. */
    method GenerateLoadVar(rbp: Operand, offset: int) returns (reg: Reg)
      modifies buffer
      ensures buffer.code == old(buffer.code) + LoadVarBlock(old(buffer.counter), rbp, offset)
      ensures buffer.counter == old(buffer.counter) + 2
      ensures reg == Temp(old(buffer.counter)) && buffer.code[|buffer.code| - 1].dst == reg
      ensures Sound(old(buffer.code), old(buffer.counter)) && Available(old(buffer.code), rbp) ==>
                Sound(buffer.code, buffer.counter) && Available(buffer.code, R(reg))
    {
      reg := buffer.FreshVar();
      var varPtr := buffer.FreshVar();
      buffer.Emit(Gep(varPtr, rbp, offset));
      buffer.Emit(Load(reg, varPtr));
      if Sound(old(buffer.code), old(buffer.counter)) && Available(old(buffer.code), rbp) {
        LoadVarSound(old(buffer.code), old(buffer.counter), rbp, offset);
      }
    }

    /** Stores `reg` into the variable at `offset` from `rbp`. */
    method GenerateStoreVar(rbp: Operand, offset: int, reg: Operand)
      modifies buffer
      ensures buffer.code == old(buffer.code) + StoreVarBlock(old(buffer.counter), rbp, offset, reg)
      ensures buffer.counter == old(buffer.counter) + 1
      ensures Sound(old(buffer.code), old(buffer.counter)) &&
              Available(old(buffer.code), rbp) && Available(old(buffer.code), reg) ==>
                Sound(buffer.code, buffer.counter)
    {
      var varPtr := buffer.FreshVar();
      buffer.Emit(Gep(varPtr, rbp, offset));
      buffer.Emit(Store(reg, varPtr));
      if Sound(old(buffer.code), old(buffer.counter)) && Available(old(buffer.code), rbp) && Available(old(buffer.code), reg) {
        StoreVarSound(old(buffer.code), old(buffer.counter), rbp, offset, reg);
      }
    }

    /**
     * Emits `operand1 op operand2` and records in `res` the register that
     * holds the result.
     */
    method BinopCode(res: Exp, operand1: Exp, operand2: Exp, op: string)
      requires res != operand1 && res != operand2
      modifies buffer, res
      ensures buffer.code == old(buffer.code) + BinopBlock(old(buffer.counter), op, res.typ, operand1.value, operand2.value)
      ensures buffer.counter == old(buffer.counter) + (if Masks(op, res.typ) then 2 else 1)
      ensures res.value == R(BinopResult(old(buffer.counter), op, res.typ))
      ensures op in {"+", "-", "*", "/"} && Sound(old(buffer.code), old(buffer.counter)) &&
              Available(old(buffer.code), operand1.value) && Available(old(buffer.code), operand2.value) ==>
                Sound(buffer.code, buffer.counter) && Available(buffer.code, res.value)
    {
      var dst := buffer.FreshVar();
      res.value := R(dst);
      var opcode := BinopOpcode(op, res.typ);
      if op == "/" {
        buffer.Emit(CallVoid(CheckDivision, [operand2.value]));
        buffer.Emit(Arith(dst, opcode, operand1.value, operand2.value));
      } else {
        buffer.Emit(Arith(dst, opcode, operand1.value, operand2.value));
        if res.typ == BYTE {
          var oldReg := dst;
          var masked := buffer.FreshVar();
          res.value := R(masked);
          buffer.Emit(Arith(masked, And, Imm(255), R(oldReg)));
        }
      }
      if op in {"+", "-", "*", "/"} && Sound(old(buffer.code), old(buffer.counter)) &&
         Available(old(buffer.code), operand1.value) && Available(old(buffer.code), operand2.value) {
        BinopSound(old(buffer.code), old(buffer.counter), op, res.typ, operand1.value, operand2.value);
      }
    }

    /**
     * Emits the comparison `operand1 op operand2` into a fresh register,
     * recorded in `res`, and a branch on it with both targets left open.
     */
    method RelopCode(res: Exp, operand1: Exp, operand2: Exp, op: string)
      requires res != operand1 && res != operand2
      modifies buffer, res
      ensures buffer.code == old(buffer.code) + RelopBlock(old(buffer.counter), op, operand1.value, operand2.value)
      ensures buffer.counter == old(buffer.counter) + 1
      ensures res.value == R(Temp(old(buffer.counter)))
      ensures Sound(old(buffer.code), old(buffer.counter)) &&
              Available(old(buffer.code), operand1.value) && Available(old(buffer.code), operand2.value) ==>
                Sound(buffer.code, buffer.counter)
    {
      var dst := buffer.FreshVar();
      res.value := R(dst);
      var cond := RelopCond(op);
      buffer.Emit(Icmp(dst, cond, operand1.value, operand2.value));
      buffer.Emit(Br(dst, Hole, Hole));
      if Sound(old(buffer.code), old(buffer.counter)) &&
         Available(old(buffer.code), operand1.value) && Available(old(buffer.code), operand2.value) {
        RelopSound(old(buffer.code), old(buffer.counter), op, operand1.value, operand2.value);
      }
    }
  }
}
