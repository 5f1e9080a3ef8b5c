# Semantic analysis and IR emission helpers of a small compiler, in Dafny

This project models three parts of a compiler for a small C-like teaching
language (types `int`, `byte`, `string`, `bool`, `void`; functions, `if`,
`while`, `break`, `continue`, `return`):

- **The scope stack** (`SemanticContext`, module `SymbolTable`). It is a stack
  of identifier-to-symbol maps, innermost scope last, plus two flags: "inside a
  loop" and "main defined". The pure functions `Push`, `Pop`, `Bind` and `Find`
  describe the stack as a value. The class `SymbolTable.SemanticContext`
  updates it in place, and each of its methods is proved against those
  functions.
- **The semantic checks** (`isAssignable` and `SemanticVisitor`, module
  `Analyzer`). `ExpType` gives the type an expression visit records, or the
  diagnostic it raises. `Analyze` and `AnalyzeInScope` give what visiting a
  statement does to the analyzer state (scope stack, loop flag, main flag,
  next local offset), or the diagnostic that ends the run. The class
  `Analyzer.SemanticVisitor` performs the visits in place on a
  `SemanticContext`. Each of its visit methods is proved to report exactly the
  diagnostic, or reach exactly the state, that the functions describe. The
  lemmas state the language rules the visitor enforces, including the quirks
  of the code as written.
- **The IR emission helpers** (`LLVM_code_generator`, module `Generator`).
  Instructions are an abstract datatype rather than text. Each helper draws
  fresh registers from the shared code buffer and appends a fixed block,
  given by a function. The buffer invariant `Sound` requires three things:
  - every fresh register is defined once, and before it is used;
  - every signed or unsigned division comes right after the call
    `check_division(divisor)`;
  - every register defined so far lies below the buffer's counter.

  Each helper preserves `Sound` when the registers it reads are available.
  For the binary-operator helper this holds only for the operators + − * /.
  Any other operator is emitted as a division with no check before it
  (`Generator.UnknownOperatorUnguarded`).

Diagnostics in the source print a message and end the process. They are
modelled as an error result (`Result.Err` / `Outcome.Fail`) that ends the
visit. After an error, nothing is promised about the state.

Where the system's design description and the code disagree, the model
follows the code:

- The loop flag is a boolean. The design describes a loop-depth counter.
  Leaving any `while` resets the flag to false, even inside an enclosing loop
  (`Analyzer.InnerLoopClearsFlag`, `Analyzer.NestedLoopBreakRejected`).
- The local-variable offset is never reset at a function boundary
  (`Analyzer.OffsetNotResetPerFunction`).
- The built-ins `print` and `printi` go only to the printed trace. They are
  never entered into the global scope, so they are not seeded there.
- A second `main`, or a `main` with parameters or a non-void return type,
  reports "main missing". The design calls for a separate signature error
  (`Analyzer.MainSignature`).
- `return` statements are not checked (`Analyzer.ReturnIsNoOp`).

## Model

| member | source | states |
|---|---|---|
| SymbolTable.Bind | hw3/SymbolTableManager.cpp:21 | Inserting into the innermost scope keeps the depth and every enclosing scope, and maps only `id` anew in the innermost one. Both declare methods use it (line 27 too). |
| SymbolTable.FindNoneIffAbsent | hw3/SymbolTableManager.cpp:31-37 | A lookup fails if and only if no scope of the stack holds the identifier. |
| SymbolTable.FindInnermost | hw3/SymbolTableManager.cpp:31-37 | A lookup returns the entry of the innermost scope that holds the identifier. |
| SymbolTable.BindShadows | hw3/SymbolTableManager.cpp:19-23 | After a declaration, the identifier denotes the new symbol whatever the enclosing scopes hold. Every other identifier keeps its meaning. |
| SymbolTable.PopPush | hw3/SymbolTableManager.cpp:9-17 | Leaving a scope just entered gives back the stack as it was. |
| SymbolTable.SemanticContext.constructor | hw3/SymbolTableManager.cpp:3-7 | The stack holds exactly one empty scope; both flags are false. |
| SymbolTable.SemanticContext.EnterScope | hw3/SymbolTableManager.cpp:9-12 | Pushes one empty innermost scope; the flags are unchanged. |
| SymbolTable.SemanticContext.ExitScope | hw3/SymbolTableManager.cpp:14-17 | Pops the innermost scope; the flags are unchanged. |
| SymbolTable.SemanticContext.DeclareVariable | hw3/SymbolTableManager.cpp:19-23 | A duplicate in the innermost scope is a Def error. Otherwise that scope maps the id to a non-function symbol with the given type and offset, and nothing else changes. |
| SymbolTable.SemanticContext.DeclareFunction | hw3/SymbolTableManager.cpp:25-29 | A duplicate in the innermost scope is a Def error. Otherwise that scope maps the id to a function symbol with offset 0 and the parameter types, and nothing else changes. |
| SymbolTable.SemanticContext.Lookup | hw3/SymbolTableManager.cpp:31-37 | The loop scanning innermost-first returns the symbol `Find` gives, or an Undef error for this id and line. |
| SymbolTable.SemanticContext.MarkMainDefined | hw3/SymbolTableManager.cpp:39 | Sets the main flag and changes nothing else. |
| SymbolTable.SemanticContext.IsMainDefined | hw3/SymbolTableManager.cpp:40 | Returns the main flag and changes nothing. |
| SymbolTable.SemanticContext.SetInsideLoop | hw3/SymbolTableManager.cpp:41 | Sets the loop flag to the given value and changes nothing else. |
| SymbolTable.SemanticContext.IsInsideLoop | hw3/SymbolTableManager.cpp:42 | Returns the loop flag and changes nothing. |
| Analyzer.IsAssignable | hw3/VisitorAnalyzer.cpp:7-11 | The definition: equal types, or an int target with a byte source. Its properties are stated by `Analyzer.IsAssignableWidensOnly`. |
| Analyzer.ExpType | hw3/VisitorAnalyzer.cpp:26-43 | The type each expression visit records, or the diagnostic it raises. Its properties are stated by `Analyzer.LiteralTypes` and `Analyzer.IdType`. |
| Analyzer.CheckInit | hw3/VisitorAnalyzer.cpp:48-53 | An absent initializer passes. Otherwise the initializer's diagnostic, or Mismatch when its type is not assignable to the declared one. Used by `Analyzer.VarDeclEffect` and `Analyzer.VarDeclInitializer`. |
| Analyzer.CheckCondition | hw3/VisitorAnalyzer.cpp:79-83 | The condition's diagnostic, or Mismatch when its type is not bool. The while visit makes the same check at lines 95-98. Its property is stated by `Analyzer.ConditionMustBeBool`. |
| Analyzer.ParamTypes | hw3/VisitorAnalyzer.cpp:58-61 | As many types as formals, the k-th being the k-th formal's type. |
| Analyzer.IsAssignableWidensOnly | hw3/VisitorAnalyzer.cpp:7-11 | Every type is assignable to itself, and byte to int. No other pair is assignable; in particular, int to byte is not. |
| Analyzer.LiteralTypes | hw3/VisitorAnalyzer.cpp:26-37 | Number literals are int and string literals are string. A byte literal is byte up to and including 255. Above that it is a ByteTooLarge error carrying the value. |
| Analyzer.IdType | hw3/VisitorAnalyzer.cpp:39-43 | An undeclared identifier is an Undef error. Otherwise the innermost symbol decides: a function is a DefAsVar error, a variable gives its type. |
| Analyzer.DeclareFormals | hw3/VisitorAnalyzer.cpp:70-74 | Declaring the formals keeps the depth of the stack and every enclosing scope. |
| Analyzer.DeclareFormalsOkIff | hw3/VisitorAnalyzer.cpp:70-74 | Declaring the formals succeeds if and only if their names are pairwise distinct and absent from the innermost scope. |
| Analyzer.DeclareFormalsOffsets | hw3/VisitorAnalyzer.cpp:70-74 | The k-th formal becomes a variable at offset `offset - k`. Every earlier entry of the scope is kept, and nothing else is added. |
| Analyzer.EnterFunction | hw3/VisitorAnalyzer.cpp:57-74 | Before its body, a function declaration puts its symbol, with the formals' types, in the enclosing scope. It pushes one scope and keeps the offset and the loop flag. Main is marked defined exactly when the name is `main`. |
| Analyzer.FunctionBodyScope | hw3/VisitorAnalyzer.cpp:68-74 | The body's scope holds exactly the formals, the k-th at offset -1-k. The function is visible there unless a formal shadows it. |
| Analyzer.MainSignature | hw3/VisitorAnalyzer.cpp:62-67 | A second `main`, or a `main` with parameters or a non-void type, is a MainMissing error. An accepted `main` sets the main flag. |
| Analyzer.Analyze | hw3/VisitorAnalyzer.cpp:45-116 | A successful statement visit keeps the stack depth and every enclosing scope. The offset never decreases, and the main flag is never cleared. |
| Analyzer.AnalyzeInScope | hw3/VisitorAnalyzer.cpp:84-91 | A statement visited in a scope of its own leaves the stack exactly as it was. |
| Analyzer.VarDeclEffect | hw3/VisitorAnalyzer.cpp:45-55 | A variable declaration fails with the initializer's own diagnostic on a bad initializer, or with Def on a duplicate in the innermost scope. Otherwise the name denotes a variable at the current offset, and every other name keeps its meaning. The offset grows by exactly one, and nothing else changes. |
| Analyzer.VarDeclInitializer | hw3/VisitorAnalyzer.cpp:48-53 | An int literal cannot initialize a byte (Mismatch). A byte literal can initialize an int. |
| Analyzer.VarDeclShadows | hw3/VisitorAnalyzer.cpp:54 | A name declared only in an enclosing scope may be declared again, and afterwards denotes the new variable. |
| Analyzer.FuncDeclEffect | hw3/VisitorAnalyzer.cpp:57-77 | After a function declaration, the only change to the stack is the function symbol in the enclosing scope. Formals and locals are gone. |
| Analyzer.OffsetNotResetPerFunction | hw3/VisitorAnalyzer.cpp:54 | A function declaring one local leaves the offset one higher than it found it: the offset is not reset to 0 at a function boundary. |
| Analyzer.ConditionMustBeBool | hw3/VisitorAnalyzer.cpp:79-98 | An if or while whose condition has a non-bool type is a Mismatch error. |
| Analyzer.BranchesRestoreScopes | hw3/VisitorAnalyzer.cpp:84-103 | After an if or a while, the stack is exactly as before. A while ends with the loop flag cleared. |
| Analyzer.LoopControl | hw3/VisitorAnalyzer.cpp:106-112 | break and continue are accepted exactly when the loop flag is set, and change nothing. |
| Analyzer.LoopBodyMayBreak | hw3/VisitorAnalyzer.cpp:99-103 | A break, continue or return as the body of a while is accepted whatever the flag was outside. The flag is false afterwards. |
| Analyzer.InnerLoopClearsFlag | hw3/VisitorAnalyzer.cpp:99-103 | Inside a loop, a break visited after an inner while is an UnexpectedBreak error. |
| Analyzer.NestedLoopBreakRejected | hw3/VisitorAnalyzer.cpp:79-108 | For any boolean variable `b` in scope, in `while (b) { if (b) { while (b) return; } else { break; } }` the else branch's break is rejected. |
| Analyzer.ReturnIsNoOp | hw3/VisitorAnalyzer.cpp:114-116 | A return statement is accepted and changes nothing, whatever its expression. |
| Analyzer.SemanticVisitor.constructor | hw3/VisitorAnalyzer.cpp:13-19 | A fresh context with one empty scope, both flags false, and local offset 0. |
| Analyzer.SemanticVisitor.Finish | hw3/VisitorAnalyzer.cpp:21-24 | The end of the unit is a MainMissing error exactly when no main was defined. |
| Analyzer.SemanticVisitor.VisitExp | hw3/VisitorAnalyzer.cpp:26-43 | The type recorded, or the error raised, is `ExpType` of the current stack. |
| Analyzer.SemanticVisitor.Visit | hw3/VisitorAnalyzer.cpp:45-116 | The statement's visit reports what `Analyze` gives, and on success reaches that state. |
| Analyzer.SemanticVisitor.VisitInScope | hw3/VisitorAnalyzer.cpp:84-86 | Entering a scope, visiting and leaving it agrees with `AnalyzeInScope`. |
| Analyzer.SemanticVisitor.VisitVarDecl | hw3/VisitorAnalyzer.cpp:45-55 | Agrees with `Analyze` on a variable declaration. |
| Analyzer.SemanticVisitor.VisitFuncDecl | hw3/VisitorAnalyzer.cpp:57-77 | Agrees with `Analyze` on a function declaration. |
| Analyzer.SemanticVisitor.VisitFuncHeader | hw3/VisitorAnalyzer.cpp:58-74 | Everything before the body agrees with `EnterFunction`. |
| Analyzer.SemanticVisitor.CollectParamTypes | hw3/VisitorAnalyzer.cpp:58-61 | Returns the formals' types in declaration order. |
| Analyzer.SemanticVisitor.DeclareFormalsInScope | hw3/VisitorAnalyzer.cpp:70-74 | The loop declaring the formals at -1, -2, … agrees with `DeclareFormals`, including its Def error. |
| Analyzer.SemanticVisitor.VisitIf | hw3/VisitorAnalyzer.cpp:79-92 | Agrees with `Analyze` on an if statement. |
| Analyzer.SemanticVisitor.VisitWhile | hw3/VisitorAnalyzer.cpp:94-104 | Agrees with `Analyze` on a while statement. |
| Analyzer.SemanticVisitor.VisitBreak | hw3/VisitorAnalyzer.cpp:106-108 | Accepted exactly when the loop flag is set; otherwise an UnexpectedBreak error on its line. |
| Analyzer.SemanticVisitor.VisitContinue | hw3/VisitorAnalyzer.cpp:110-112 | Accepted exactly when the loop flag is set; otherwise an UnexpectedContinue error on its line. |
| Analyzer.SemanticVisitor.VisitReturn | hw3/VisitorAnalyzer.cpp:114-116 | Always accepted. |
| Generator.CodeBuffer.FreshVar | hw5/generator.cpp:3 | The shared buffer's fresh register: the counter's current number, which then grows by one; the code is unchanged. The buffer itself is not part of this model, only this use of it. |
| Generator.CodeBuffer.Emit | hw5/generator.cpp:3 | Appends exactly one instruction to the shared buffer and draws no register. |
| Generator.GlobalFunctionsBlock | hw5/generator.cpp:6-18 | The 11 instructions of the helper. They are the message constant, then `check_division`: compare `%0` with 0, branch to ILLEGAL (print the message, exit with 0, return) or LEGAL (return). Its properties are stated by `Generator.GlobalFunctionsShape` and `Generator.GlobalFunctionsSound`. |
| Generator.LoadVarBlock | hw5/generator.cpp:20-26 | Address of slot `rbp + offset` into the second fresh register, then a load through it into the first. |
| Generator.StoreVarBlock | hw5/generator.cpp:28-32 | Address of slot `rbp + offset` into the fresh register, then a store of the value through it. |
| Generator.BinopOpcode | hw5/generator.cpp:36-49 | add, sub, mul for + − *; for any other operator, sdiv for an int result and udiv otherwise. The table is stated by `Generator.BinopOpcodeTable`. |
| Generator.Masks | hw5/generator.cpp:50-56 | The result is masked exactly when the operator is not / and the result type is byte. |
| Generator.BinopResult | hw5/generator.cpp:53-60 | The result register: the masked copy when the result is masked, otherwise the first fresh register. |
| Generator.BinopBlock | hw5/generator.cpp:50-60 | For /, the divisor check, then the division. Otherwise the operation, then, for a byte result, the mask with 255 into a second fresh register. Its shape is stated by `Generator.BinopBlockShape`. |
| Generator.RelopCond | hw5/generator.cpp:65-78 | eq, ne, sgt, sge, slt for == != > >= <, and sle for any other operator. The table is stated by `Generator.RelopCondTable`. |
| Generator.RelopBlock | hw5/generator.cpp:80-81 | A comparison into the fresh register, then a branch on it with both targets left open. |
| Generator.GlobalFunctionsShape | hw5/generator.cpp:6-18 | The helper is 11 instructions and defines the one-argument `check_division`. The message constant's size is its text plus the NUL, and the print call addresses that constant. |
| Generator.GlobalFunctionsSound | hw5/generator.cpp:6-18 | Appending the helper keeps the buffer sound. |
| Generator.BinopOpcodeTable | hw5/generator.cpp:36-49 | + − * map to add, sub, mul. Division is signed exactly when the result type is int. |
| Generator.RelopCondTable | hw5/generator.cpp:65-78 | == != > >= < <= map to eq, ne, sgt, sge, slt, sle. |
| Generator.BinopBlockShape | hw5/generator.cpp:50-60 | A division is one instruction, right after the check of its own divisor, and is never masked. A byte + − * is masked with 255 into the result register. Other results are a single instruction. |
| Generator.UnknownOperatorUnguarded | hw5/generator.cpp:43-52 | An operator other than + − * / is emitted as a division with no check before it. |
| Generator.LoadVarSound | hw5/generator.cpp:20-26 | The load block keeps the buffer sound, and leaves the loaded register available. |
| Generator.StoreVarSound | hw5/generator.cpp:28-32 | The store block keeps the buffer sound. |
| Generator.BinopSound | hw5/generator.cpp:34-61 | For + − * /, the block keeps the buffer sound and leaves the result register available. |
| Generator.RelopSound | hw5/generator.cpp:63-82 | The compare-and-branch block keeps the buffer sound. |
| Generator.LlvmCodeGenerator.GlobalFunctions | hw5/generator.cpp:6-18 | Appends exactly the helper block, draws no register, and keeps the buffer sound. |
| Generator.LlvmCodeGenerator.GenerateLoadVar | hw5/generator.cpp:20-26 | Appends the address computation at `rbp + offset`, then the load. It returns the load's destination, the first of its two fresh registers, and keeps the buffer sound. |
| Generator.LlvmCodeGenerator.GenerateStoreVar | hw5/generator.cpp:28-32 | Appends the address computation, then the store. It uses one fresh register and keeps the buffer sound. |
| Generator.LlvmCodeGenerator.BinopCode | hw5/generator.cpp:34-61 | Appends the binop block and records the result register in `res`. It keeps the buffer sound for + − * /. |
| Generator.LlvmCodeGenerator.RelopCode | hw5/generator.cpp:63-82 | Appends the comparison into a fresh register recorded in `res`, then a branch on it with both targets open. It keeps the buffer sound. |

## Left out

- Printed output is not modelled. This covers the scope printer (the declaration and scope trace), the printing of the trace at the end of the unit, and the diagnostics' message texts; each diagnostic is an `Error` value.
- Ending the process on a diagnostic is modelled as an error result. The state after an error is left unspecified.
- hw3/main.cpp (parsing and driving the visitor) is not part of this model.
- hw5/generator.hpp (declarations, and the commented-out initializer helpers) is not part of this model.
- `assign_code` (hw5/generator.cpp:84-91) is not modelled. It calls `bool_exp`, which is defined nowhere, and reads a symbol-table list the file takes from outside.
- The textual form of the IR is not modelled. Instructions are datatype values, and registers are numbered rather than named by the buffer's string format.
- The runtime meaning of the IR is not modelled. `Sound` is a structural invariant.
- The code buffer and the node types are external. `CodeBuffer` and `Exp` model only what the helpers use.
- The visitor's address-keyed map of node types is replaced by the type each expression visit returns.
- The declared type of a variable departs from the code. The model takes the type the declaration's type node names. The code instead reads the node-type map entry keyed by the type node's address (hw3/VisitorAnalyzer.cpp:47, 50, 54). No visit in that file writes this entry; line 47 only assigns it to itself. So, as written, the entry holds the map's default value: the `BuiltInType` enumerator numbered 0, in a header that is not part of this model.
- Visits of nodes absent from the analyzed file are not modelled: statement lists, binary, relational and boolean expressions, calls, casts, assignments, and the program node. A body or a branch is a single statement; a sequence of statements is successive `Visit` calls.
- SymbolTable.SemanticContext.ExitScope: requires more than one scope. The global scope is never left in the source, and an unchecked pop of the last scope has no meaning here.
- Generator.LlvmCodeGenerator.BinopCode: requires `res` to be distinct from both operands. The source reads the operands after writing `res`, and aliasing is not modelled.
- Generator.LlvmCodeGenerator.RelopCode: requires `res` to be distinct from both operands, for the same reason.
- Integer widths are not modelled. Offsets, literal values and line numbers are unbounded integers, so an `int` overflow of the offset counter is not captured.
- SymbolTable.SemanticContext.Lookup: the source returns a pointer into the scope; the model returns the symbol by value, since no caller updates through it.
