# GCC-in-Rust, modelled in Dafny

GCC-in-Rust is a small compiler for a subset of C. It compiles to RISC-V assembly. An external parser turns the source text into a syntax tree. The compiler then runs three stages, and this project models all three:

1. **Constant folder** (`Expr::reduce`). It rewrites an expression tree against a table that maps constant names to `i32`.
2. **IR builder** (`Constructor` and the `Construct` walk). It visits the global objects in order:
   - `const` declarations fill the constant table;
   - every function gets one `%entry` block;
   - every `return` folds its expression, lowers it into the function's value arena and appends one `ret` instruction.
3. **Assembly emitter** (`assemble`). It walks the IR in layout order and writes RISC-V text lines to a file.

The project is split into modules:

- `Base` holds Rust's `i32` with checked arithmetic. Truncating `/` and `%` are written out, and every panic of a debug build becomes an `Err` value.
- `Ast` holds the syntax tree and the folder.
- `Ir` holds an abstract stand-in for the koopa IR:
  - a program is a sequence of functions;
  - each function owns an arena of values (`Integer`, `Binary` or `Return`) and a sequence of blocks;
  - each block is a sequence of value handles.
- `Builder` holds the constructor. It is a class whose methods update its fields in place. Each method is proved against a step function on a `State` snapshot.
- `BuilderFacts` proves what those steps add up to.
- `Asm` holds the emitter:
  - the `AsmBuilder` class;
  - four generator methods writing to a `File` class;
  - the text each generator promises, as an `Emitted` value (lines plus outcome).
- `Pipeline` ties the two ends together and follows some whole programs from syntax tree to assembly text.

A file is modelled as a sequence of lines with an optional line limit. A write to a full file fails with `WriteFailed`. This is how the model captures `?` stopping at the first I/O error.

## Model

| member | source | states |
|---|---|---|
| Base.CheckedDiv | src/ast.rs:142 | Rust `i32` `/`: `Ok` exactly when the divisor is non-zero and the case is not `i32::MIN / -1`. `Ok` gives the quotient truncated toward zero. A zero divisor gives `DivideByZero`; the other panic gives `Overflow`. |
| Base.CheckedRem | src/ast.rs:143 | Rust `i32` `%`: the same success condition as `/`. The value is the remainder with the sign of the dividend, and the errors are the same. |
| Base.DivRemSpec | src/ast.rs:142-143 | Truncating quotient and remainder recombine to the dividend. The remainder is smaller than the divisor in magnitude, and is zero or has the dividend's sign. |
| Base.DivBound | src/ast.rs:142 | Every `i32` quotient other than `i32::MIN / -1` fits in `i32`. |
| Base.RemBound | src/ast.rs:143 | Every `i32` remainder fits in `i32`. |
| Base.BoolToI32 | src/ast.rs:144-151 | `bool as i32` is 0 or 1, and is 1 exactly for `true`. |
| Ast.Expr.IsNum | src/ast.rs:115-120 | True exactly for a numeric literal `Value(Num(n))`. |
| Ast.IrType | src/ast.rs:99-106 | `Int` maps to the IR `i32` type and `Void` to `unit`, in both directions. |
| Ast.ParamOf | src/ast.rs:108-112 | The IR parameter name is `@` followed by the source name, and the type is the converted type. |
| Ast.Reduce | src/ast.rs:122-166 | A successful fold leaves a reduced tree: no constant name and no operator over literals. A result that is not a literal has the same root (name or operator) as the input. Its meaning is kept (`ReducePreservesMeaning`) and its children are folded in place (`ReducePartial`). |
| Ast.ReducePartial | src/ast.rs:134-163 | A fold that does not end at a literal keeps the operator and replaces each child by that child's own fold, which succeeded. |
| Ast.ReducePreservesMeaning | src/ast.rs:122-166 | Under any environment that agrees with the constant table, a folded tree evaluates to what the input evaluates to. A failing fold means the input's evaluation fails too. |
| Ast.ReduceName | src/ast.rs:127-131 | A name folds to `Num(v)` exactly when the table maps it to `v`. It stays the same name exactly when it is not in the table. |
| Ast.ReducedIsFixpoint | src/ast.rs:122-166 | Folding a reduced tree returns it unchanged. Numeric literals are one case of this. |
| Ast.ReduceIdempotent | src/ast.rs:122-166 | Under a fixed table, folding twice gives the same result as folding once. |
| Ast.ReduceEvaluates | src/ast.rs:122-166 | When every name is a constant, folding gives the literal of the reference evaluation `Ast.Eval`, or the same error. |
| Ast.ReduceClosedIsLiteral | src/ast.rs:122-166 | A tree whose names are all constants folds to a literal or fails. |
| Ast.ReduceLiterals | src/ast.rs:134-153 | An operator over two literals folds to the operator's value, or fails with its error. |
| Ast.FoldBinary | src/ast.rs:138-151 | Only `+`, `-`, `*`, `/` and `%` can fail. They fail with `DivideByZero` exactly for a zero divisor, and otherwise with `Overflow`. Every other operator gives 0 or 1. |
| Ast.FoldUnary | src/ast.rs:158-162 | Fails exactly for `-i32::MIN`, with `Overflow`. `!x` gives 0 or 1. |
| Ast.FoldArithmetic | src/ast.rs:139-143 | `+`, `-` and `*` give the exact result when it fits in `i32`, and otherwise `Overflow`. A zero divisor fails both `/` and `%`. When `/` succeeds, quotient and remainder are truncating. |
| Ast.FoldTruth | src/ast.rs:144-151 | The logical and relational operators give only 0 or 1. Each gives 1 exactly under its condition; `&&` and `\|\|` treat non-zero as true. |
| Ast.FoldUnarySpec | src/ast.rs:155-163 | `-x` fails exactly for `i32::MIN` and is otherwise `-x`. `!x` is 1 exactly for 0. `+x` is `x`. |
| Ir.EvalExtend | src/ir.rs:58-60 | Appending to a value arena does not change what existing values denote. |
| Ir.LiteralReturnExtend | src/ir.rs:58-60 | Appending to a value arena keeps a literal return a literal return of the same number. |
| Ir.RetsExtend | src/ir.rs:58-60 | Appending to a function's arena, with its blocks unchanged, keeps every instruction a literal return. |
| Builder.SetFunc | src/ir.rs:54-56 | Replacing one function leaves the others and the count unchanged, and keeps the program well formed. |
| Builder.Initial | src/ir.rs:17-25 | The state starts well formed with no cursors, and an empty constant table: every name folds to itself. |
| Builder.ParamsOf | src/ir.rs:34 | The parameters are converted one for one, in order. |
| Builder.NewFuncStep | src/ir.rs:31-39 | A new function keeps the builder state well formed. The exact function appended, and the cursors, are stated by `BuilderFacts.EntryOpened` and `BuilderFacts.FuncLowering`. |
| Builder.NewBbStep | src/ir.rs:41-46 | A new block keeps the state well formed. The exact block appended, and the cursor, are stated by `BuilderFacts.EntryOpened`. |
| Builder.NewValueStep | src/ir.rs:58-60 | Succeeds exactly when there is a current function, and otherwise fails with `NoFunction`. A new value keeps the state well formed and the cursors and tables unchanged, extends the current arena, and returns a handle into it. |
| Builder.NewValueFrame | src/ir.rs:58-60 | The new value is the arena's new last entry, at index `\|dfg\|`, and holds the given kind. The blocks, every other function and the current function's name, parameters and type are unchanged. |
| Builder.PushInstStep | src/ir.rs:142-143 | Succeeds exactly when there is a current block and the value is not in it yet. Otherwise it fails with `NoBlock` or `DuplicateInst`. Success keeps the state well formed, the cursors and the tables. |
| Builder.PushInstFrame | src/ir.rs:142-143 | The current block's instruction list becomes the old list followed by the value. Its name, every other block, the arena, every other function and the current function's name, parameters and type are unchanged. |
| Builder.PushBinaryStep | src/ir.rs:153-159 | A pushed binary instruction keeps the state well formed and returns a handle into the arena. |
| Builder.BinaryOpOf | src/ir.rs:167-181 | An IR operator exists exactly for `+`, `-`, `*`, `/` and `%`. |
| Builder.LowerValue | src/ir.rs:196-207 | A lowered value keeps the state well formed and is a handle into the arena. |
| Builder.LowerExpr | src/ir.rs:149-194 | A lowered expression keeps the state well formed and is a handle into the arena. |
| Builder.LowerStmt | src/ir.rs:133-147 | Lowering a `return` keeps the state well formed within the current function. |
| Builder.LowerBlock | src/ir.rs:123-131 | Lowering a block keeps the state well formed. |
| Builder.LowerFunc | src/ir.rs:114-121 | Lowering a function keeps the state well formed. |
| Builder.DeclareConst | src/ir.rs:97-108 | Declaring one constant keeps the state well formed. |
| Builder.DeclareVar | src/ir.rs:85-96 | Declaring one variable keeps the state well formed. |
| Builder.DeclareConsts | src/ir.rs:97-108 | Declaring all constants keeps the state well formed. |
| Builder.DeclareVars | src/ir.rs:85-96 | Declaring all variables keeps the state well formed. |
| Builder.LowerDecl | src/ir.rs:80-112 | Lowering a declaration keeps the state well formed. |
| Builder.LowerGlobalObj | src/ir.rs:69-78 | Lowering a global object keeps the state well formed. |
| Builder.LowerObjs | src/ir.rs:211-213 | Lowering the objects in order keeps the state well formed. |
| Builder.LowerAst | src/ir.rs:209-215 | A constructed program is well formed: operands name earlier values, block instructions name existing values, and every function name is non-empty. The `@` prefix and the single `%entry` block are stated by `BuilderFacts.ConstructedFunctionsShaped`. |
| Builder.Constructor.constructor | src/ir.rs:17-25 | An empty program, no cursors and empty tables. |
| Builder.Constructor.GetConstVal | src/ir.rs:27-29 | Some exactly when the name is in the constant table. The value is the literal the folder substitutes for that name. |
| Builder.Constructor.GetFuncData | src/ir.rs:54-56 | Some exactly when there is a current function, and then it is that function. |
| Builder.Constructor.GetBb | src/ir.rs:48-52 | Some exactly when there is a current function and a current block, and then it is that block. |
| Builder.Constructor.NewFunc | src/ir.rs:31-39 | The fields become `NewFuncStep` of the old ones. |
| Builder.Constructor.NewBb | src/ir.rs:41-46 | The outcome and new fields agree with `NewBbStep`. Without a current function it fails with `NoFunction`. |
| Builder.Constructor.NewValue | src/ir.rs:58-60 | The handle and new fields agree with `NewValueStep`. |
| Builder.Constructor.PushInst | src/ir.rs:142-143 | The outcome and new fields agree with `PushInstStep`, including a duplicate key. |
| Builder.Constructor.PushBinary | src/ir.rs:153-159 | Agrees with `PushBinaryStep`. |
| Builder.Constructor.ConstructValue | src/ir.rs:196-207 | Agrees with `LowerValue`. |
| Builder.Constructor.ConstructExpr | src/ir.rs:149-194 | Agrees with `LowerExpr`: left operand, right operand, then the operator. |
| Builder.Constructor.ConstructStmt | src/ir.rs:133-147 | Agrees with `LowerStmt`: fold, lower, then one `ret`. |
| Builder.Constructor.ConstructBlock | src/ir.rs:123-131 | Agrees with `LowerBlock` over the statements in order. |
| Builder.Constructor.ConstructFunc | src/ir.rs:114-121 | Agrees with `LowerFunc`. |
| Builder.Constructor.ConstructDecl | src/ir.rs:80-112 | Agrees with `LowerDecl` over the initializers in order. |
| Builder.Constructor.ConstructGlobalObj | src/ir.rs:69-78 | Agrees with `LowerGlobalObj`. |
| Builder.Construct | src/ir.rs:209-215 | The program a fresh constructor builds over all global objects is `LowerAst` of the tree. |
| BuilderFacts.ExtendsTrans | src/ir.rs:123-131 | Growing the current block is transitive. |
| BuilderFacts.LowerNeedsNoNames | src/ir.rs:202-204 | Only an expression without names can be lowered. |
| BuilderFacts.ReducedHasName | src/ast.rs:122-166 | A folded tree that is not a literal still mentions a name. |
| BuilderFacts.ReducedNonLiteralFails | src/ir.rs:138-140 | Any folder output other than a literal fails to lower. |
| BuilderFacts.OperatorAgrees | src/ir.rs:167-171 | The IR operator chosen for a source operator computes what the folder computes. |
| BuilderFacts.PushBinaryMeaning | src/ir.rs:153-159 | A pushed binary value denotes its operator applied to what its operands denote. |
| BuilderFacts.BinaryMeaning | src/ir.rs:163-182 | When both operands' IR values denote their meanings, the lowered operator's value denotes the operator's meaning. |
| BuilderFacts.ZeroMeaning | src/ir.rs:185 | The zero a unary operator lowers to denotes 0, and older values keep what they denote. |
| BuilderFacts.ZeroOperandMeaning | src/ir.rs:183-191 | `Sub(0, v)` computes `-v` and `Eq(0, v)` computes `!v`, failing in the same cases. |
| BuilderFacts.NegMeaning | src/ir.rs:183-191 | A lowered `-x` denotes the negation of what `x` evaluates to. |
| BuilderFacts.NotMeaning | src/ir.rs:183-191 | A lowered `!x` denotes the logical not of what `x` evaluates to. |
| BuilderFacts.PlusMeaning | src/ir.rs:183-191 | A lowered `+x` denotes what `x` evaluates to. |
| BuilderFacts.LowerExprMeaning | src/ir.rs:149-194 | A lowered expression's IR value denotes what the expression evaluates to. |
| BuilderFacts.LowerLiteral | src/ir.rs:162 | A literal lowers exactly when there is a current function. It appends one integer value to the arena and no instruction to any block. |
| BuilderFacts.LoweredValueIsNew | src/ir.rs:149-194 | A lowered expression's value is newly created. |
| BuilderFacts.BinaryLowering | src/ir.rs:163-182 | A logical or relational operator fails. Otherwise the left operand is lowered before the right, then one binary instruction is appended to both the arena and the block. |
| BuilderFacts.ZeroThenBinary | src/ir.rs:185-188 | A zero and then a binary value of it add exactly those two values to the arena. The second one joins the current block. |
| BuilderFacts.UnaryLowering | src/ir.rs:183-191 | `+x` adds a zero and nothing to the block. `-x` adds `Sub(0, x)` and `!x` adds `Eq(0, x)`, each appended to the current block. |
| BuilderFacts.StmtLowering | src/ir.rs:133-147 | `return e;` lowers exactly when there is a current block and `e` folds to a literal. Then exactly an integer value and a `ret` of it are added, and the block gains only that `ret`. |
| BuilderFacts.AppendReturnExtends | src/ir.rs:142-143 | A lowered `return` grows the current block by one instruction, at its end, and leaves earlier instructions unchanged. |
| BuilderFacts.BlockLowers | src/ir.rs:123-131 | Given a current block, a block lowers exactly when each statement folds to a literal under the table. |
| BuilderFacts.BlockLowering | src/ir.rs:123-131 | A lowered block appends one literal `ret` per statement, in statement order, and changes nothing else. |
| BuilderFacts.ReturnsCons | src/ir.rs:127-129 | The inductive step: the first statement's `ret`, then the rest. |
| BuilderFacts.EntryOpened | src/ir.rs:117-118 | `new_func` then `new_bb("%entry")` appends one function with an empty arena and one empty `%entry` block. Both become the cursors, and the tables are unchanged. |
| BuilderFacts.FuncLowering | src/ir.rs:114-121 | A function lowers exactly when each `return` folds to a literal. It adds one function `@name` with the converted parameters and type, and a single block `%entry` holding one literal `ret` per statement. The cursors point at that function and block. |
| BuilderFacts.EntryFilled | src/ir.rs:114-121 | The function shape `FuncLowering` states follows from the opened entry block and the returns the body appended to it. |
| BuilderFacts.ConstDeclaration | src/ir.rs:97-108 | A missing initializer fails. One initializer succeeds exactly when it folds to a literal, which is then recorded under its name. |
| BuilderFacts.DeclareConstsSnoc | src/ir.rs:98-107 | Initializers are declared in order: the last one in the state the earlier ones leave. |
| BuilderFacts.ConstDeclarations | src/ir.rs:97-108 | A `const` declaration changes only the constant table. The table gains exactly the declared names. Any missing initializer fails. |
| BuilderFacts.VarDeclaration | src/ir.rs:85-96 | Without a value the name maps to `None`. With a value it maps to the handle of the folded literal lowered into the current function. |
| BuilderFacts.VarsKeepLiteralReturns | src/ir.rs:85-96 | Variable declarations keep every instruction a literal `ret`. |
| BuilderFacts.ConstsKeepProgram | src/ir.rs:97-108 | Constant declarations leave the program unchanged. |
| BuilderFacts.ObjKeepsLiteralReturns | src/ir.rs:69-78 | Every global object keeps every instruction a literal `ret`. |
| BuilderFacts.ObjsKeepLiteralReturns | src/ir.rs:211-213 | So does every sequence of them. |
| BuilderFacts.ConstructedReturnsLiterals | src/ir.rs:209-215 | Every instruction of a constructed program is a `ret` of an integer literal. |
| BuilderFacts.VarsKeepShape | src/ir.rs:85-96 | Variable declarations keep every function `@`-named with one `%entry` block. |
| BuilderFacts.ObjKeepsShape | src/ir.rs:69-78 | So does every global object. |
| BuilderFacts.ObjsKeepShape | src/ir.rs:211-213 | So does every sequence of them. |
| BuilderFacts.ConstructedFunctionsShaped | src/ir.rs:114-121 | Every function of a constructed program has a name starting with `@` and exactly one block, named `%entry`. |
| Asm.NatToString | src/asm.rs:32 | Decimal text: at least one digit, and no leading zero except for 0 itself. |
| Asm.IntToString | src/asm.rs:32 | A leading minus sign exactly for negative numbers. |
| Asm.NatRoundTrip | src/asm.rs:32 | Parsing the printed digits gives back the number. |
| Asm.IntRoundTrip | src/asm.rs:32 | Parsing the printed integer gives back the integer. |
| Asm.IntToStringInjective | src/asm.rs:32 | Different integers print differently. |
| Asm.Deliver | src/asm.rs:32 | A file with limited room receives a prefix of the text. The prefix is shorter exactly when the room runs out, and then the outcome is `WriteFailed`. Unlimited room receives everything. |
| Asm.ThenAssoc | src/asm.rs:45-46 | Running generators one after another is associative. |
| Asm.DeliverThen | src/asm.rs:45-46 | Delivering two generators in a row equals delivering the first and then the second into the room that is left. |
| Asm.Start | src/asm.rs:47-49 | A generator that has written nothing is on track with all its text still to come. |
| Asm.Advance | src/asm.rs:47-49 | One more generator done: on success the remaining text is the rest; on a failure the whole result is already written. |
| Asm.Finish | src/asm.rs:47-49 | A generator with nothing left has written all its text and succeeded. |
| Asm.Conclude | src/asm.rs:47-57 | The last generator done, by success or by failure: the whole generator has been written. |
| Asm.File.constructor | src/asm.rs:60 | An empty file with the given line limit. |
| Asm.File.WriteLn | src/asm.rs:32 | The file gains the line, or nothing and `WriteFailed` when it is full. |
| Asm.AsmBuilder.constructor | src/asm.rs:62-66 | The program, with no current function and no current block. |
| Asm.AsmBuilder.CurrentFuncData | src/asm.rs:14-16 | Some exactly when there is a current function, and then that function's data. |
| Asm.AsmBuilder.SetCurrentFunc | src/asm.rs:18-20 | The current function becomes the argument, and the block cursor is unchanged. |
| Asm.GenerateReturn | src/asm.rs:27-40 | The file gains what the file's room allows of `ReturnAsm`'s text, and the outcome matches. |
| Asm.GenerateInsts | src/asm.rs:48-54 | The file gains the block's instructions' text, in insertion order, stopping at the first error. |
| Asm.GenerateBlocks | src/asm.rs:47-55 | The file gains every block's text in layout order, stopping at the first error. |
| Asm.GenerateFunction | src/asm.rs:42-58 | The file gains `.globl N`, `N:` and every block's text in layout order, stopping at the first error. |
| Asm.Assemble | src/asm.rs:60-72 | The file gains `.text` and every function's text in layout order, stopping at the first error. |
| Asm.ReturnCases | src/asm.rs:27-40 | No operand writes only `ret`. An integer operand writes `li a0, i` then `ret`. Any other operand writes nothing and is unimplemented. |
| Asm.ReturnAsm | src/asm.rs:27-40 | Succeeds exactly for no operand or an integer operand, with one or two lines ending in `ret`. Otherwise it writes nothing and fails without a write error. |
| Asm.InstAsm | src/asm.rs:49-53 | Only a `ret` instruction succeeds. It writes at most two lines; a failure writes nothing and is not a write error. |
| Asm.InstsAsm | src/asm.rs:48-54 | At most two lines per instruction; never a write error. |
| Asm.InstsAsmOk | src/asm.rs:48-54 | A block's instructions succeed exactly when each one does. |
| Asm.BlocksAsm | src/asm.rs:47-55 | Never a write error. |
| Asm.BlocksAsmOk | src/asm.rs:47-55 | The blocks succeed exactly when every block is well formed and its instructions succeed. |
| Asm.FunctionAsm | src/asm.rs:42-58 | The text starts with `.globl N` and `N:`, where `N` is the name without its first character. Its outcome is that of its blocks, and never a write error. |
| Asm.FunctionsAsm | src/asm.rs:67-70 | Never a write error. |
| Asm.FunctionsAsmOk | src/asm.rs:67-70 | The functions succeed exactly when each is well formed and its text succeeds. |
| Asm.AssembleAsm | src/asm.rs:60-72 | The text starts with `.text`. Its outcome is that of the functions, and never a write error. |
| Asm.WriteFailsOnlyWhenFull | src/asm.rs:60-72 | Assembling fails with `WriteFailed` exactly when the file's room is smaller than the program's text. |
| Asm.InstAsmSucceeds | src/asm.rs:47-53 | An instruction succeeds exactly when it is a `ret` of nothing or of an integer. Any other instruction is unimplemented. A literal `ret` writes `li a0, n` and `ret`. |
| Asm.RetsLinesIndex | src/asm.rs:48-49 | A list of load lines, each followed by `ret`, has two lines per load, in order. |
| Asm.Loads | src/asm.rs:32 | One load line per literal return, each carrying that return's number. |
| Asm.InstsAsmRets | src/asm.rs:48-54 | A block of literal returns succeeds and writes exactly its load and `ret` lines. |
| Asm.InstsText | src/asm.rs:48-54 | For instruction `k` of such a block, line `2k` is its `li a0, n` and line `2k+1` is `ret`. |
| Asm.BlocksSucceed | src/asm.rs:47-55 | Blocks of literal returns generate without error. |
| Asm.FunctionText | src/asm.rs:42-58 | A function of literal returns writes `.globl N` then `N:`, where `N` is its name without the prefix character. With one block, it then writes two lines per return, in order. |
| Asm.FunctionsSucceed | src/asm.rs:67-70 | Functions of literal returns generate without error. |
| Asm.AssembleSucceeds | src/asm.rs:60-72 | A program of literal returns assembles without error, and its text begins with `.text`. |
| Asm.AssembleStartsWithText | src/asm.rs:61 | The text always begins with `.text`, and so does every file with any room. |
| Pipeline.ConstructedProgramAssembles | src/ir.rs:209-215 | Every program the builder constructs is assembled without `unimplemented!()`. Only a failing write can stop it. |
| Pipeline.ConstructedFunctionText | src/asm.rs:42-58 | Each function the builder constructs writes `.globl N` and `N:`, then `li a0, n` and `ret` for each of its returns, in order. |
| Pipeline.LowerMain | src/ir.rs:114-147 | `int main() { return e; }` with `e` folding to `n` becomes one function `@main`. It holds the integer `n` and a `ret` of it, in block `%entry`. |
| Pipeline.AssembleMain | src/asm.rs:60-72 | That function assembles to `.text`, `.globl main`, `main:`, `li a0, n` and `ret`. |
| Pipeline.ReturnZero | src/asm.rs:60-71 | `int main() { return 0; }` compiles to exactly those five lines with `li a0, 0`. |
| Pipeline.DeclareFive | src/ir.rs:97-108 | `const int x = 2 + 3;` records `x` as 5 and leaves the program unchanged. |
| Pipeline.ReturnFoldedConstant | src/ir.rs:97-108 | `const int x = 2 + 3; int main() { return x * 4; }` compiles to `li a0, 20`. |
| Pipeline.DivisionByZeroAborts | src/ast.rs:142 | `return 1 / 0;` stops compilation with `DivideByZero`. |
| Pipeline.ReturnParameterUnimplemented | src/ir.rs:202-204 | Returning a parameter stops compilation as unimplemented. |

## Left out

- Parsing and the driver (`main.rs`) are left out. The syntax tree is taken as given, and the output file is a parameter. The driver does command-line handling and file I/O outside the three stages.
- The koopa library is not modelled. In its place is an abstract arena: a value handle is an index into its function's arena, and a block is a sequence of handles. Block and function handles are indices too. Handle identity, the text form of the IR, and koopa's own checks are not part of this model.
- I/O error kinds are left out. Every write failure is one `WriteFailed`, caused by a file's line limit. A file is modelled as whole lines. A failing `writeln!` may leave part of a line in a real file; partial lines are not modelled.
- `AsmBuilder.current_bb` is kept as a field. The source never reads or writes it after setting it to `None`, so the model does not either.
- Every panic of the source becomes an `Err` value, which the model propagates instead of aborting. This covers `unwrap` on `None`, `todo!()`, `unimplemented!()`, `unreachable!()`, and `i32` overflow or division by zero in the folder. The state reached after an error is not constrained.
- `Ir.Eval` gives IR values a checked-`i32` reading that matches the folder. It is a reference meaning used by `BuilderFacts.LowerExprMeaning`. The IR library defines no evaluator of its own.
- Builder.NewFuncStep: koopa's `with_param_names` also allocates one argument value per parameter in the new function's arena. The model's arena starts empty. Nothing observes the difference, because a reference to a parameter never lowers.
- Only the IR operators the builder emits (`Add`, `Sub`, `Mul`, `Div`, `Mod`, `Eq`) are in `Ir.BinaryOp`.
- Asm.GenerateReturn: the source panics inside koopa when an operand handle is missing from the arena. The model returns `NoValue` instead. A missing operand cannot occur in a well-formed program.
- Asm.GenerateInsts: this method is the inner loop of `FunctionData::generate`, taken out as a method of its own. The output is unchanged.
- Asm.GenerateBlocks: this method is the outer loop of `FunctionData::generate`, taken out as a method of its own. The output is unchanged.
- Asm.FunctionAsm: `name[1..]` drops the first character, where Rust drops the first byte. The two agree for the ASCII `@` prefix the builder always writes.
- The `HashMap` tables are modelled as Dafny maps. Their iteration order is never observed.
- Global `int x = e;` outside any function lowers its folded value into the current function. That function is the most recent one, as in the source. With no function yet, it fails with `NoFunction`, where the source panics in `unwrap`.
- Each `return` statement appends a `ret`, so a function body with several returns holds several `ret`s and an empty body holds none, as src/ir.rs:133-147 appends one `ret` per `return` statement.
