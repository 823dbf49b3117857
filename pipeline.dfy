/** The two stages together: a program the front end builds is one the back
    end can always assemble, and a few whole programs followed from source
    tree to assembly text. */
module Pipeline {
  import opened Base
  import Ast
  import Ir
  import Builder
  import BuilderFacts
  import Asm

  /** Every program `construct` returns is assembled without a `todo!()` or
      `unimplemented!()`: only a failing write can stop `assemble`. */
  lemma ConstructedProgramAssembles(ast: Ast.Ast)
    requires Builder.LowerAst(ast).Ok?
    ensures Asm.AssembleAsm(Builder.LowerAst(ast).value).outcome == Ok(())
    ensures Asm.Deliver(Asm.AssembleAsm(Builder.LowerAst(ast).value), None).outcome == Ok(())
  {
    BuilderFacts.ConstructedReturnsLiterals(ast);
    Asm.AssembleSucceeds(Builder.LowerAst(ast).value);
  }

  /** Every function of a constructed program is assembled in full: `.globl
      f` and `f:`, then `li a0, n` and `ret` for each return of its `%entry`
      block, in order. */
  lemma ConstructedFunctionText(ast: Ast.Ast, g: nat)
    requires Builder.LowerAst(ast).Ok? && g < |Builder.LowerAst(ast).value.funcs|
    ensures var fd := Builder.LowerAst(ast).value.funcs[g];
      Ir.FunctionOk(fd) && Ir.RetsOfLiterals(fd) && BuilderFacts.EntryShaped(fd) &&
      var e := Asm.FunctionAsm(fd, Some(fd));
      var insts := fd.bbs[0].insts;
      e.outcome == Ok(()) && |e.lines| == 2 + 2 * |insts| &&
      e.lines[0] == ".globl " + fd.name[1..] && e.lines[1] == fd.name[1..] + ":" &&
      forall k :: 0 <= k < |insts| ==>
        e.lines[2 + 2 * k] == Asm.LoadLine(Ir.ReturnedLiteral(fd.dfg, insts[k])) && e.lines[3 + 2 * k] == "    ret"
  {
    var p := Builder.LowerAst(ast).value;
    BuilderFacts.ConstructedReturnsLiterals(ast);
    BuilderFacts.ConstructedFunctionsShaped(ast);
    assert Ir.RetsOfLiterals(p.funcs[g]) && BuilderFacts.EntryShaped(p.funcs[g]);
    Asm.FunctionText(p.funcs[g]);
  }

  function MainReturning(e: Ast.Expr): Ast.Func {
    Ast.Func("main", [], Ast.Block([Ast.Return(e)]), Ast.Int)
  }

  /** The IR of `int main() { return n; }`. */
  function MainData(n: i32): Ir.FunctionData {
    Ir.FunctionData("@main", [], Ir.I32, [Ir.Integer(n), Ir.Return(Some(0))],
                    [Ir.BasicBlockNode(Some("%entry"), [1])])
  }

  /** `int main() { return e; }`, after global constants `consts` and with
      `e` folding to `n`, becomes a function holding `n` and a return of it. */
  lemma LowerMain(e: Ast.Expr, consts: map<string, i32>, n: i32)
    requires Ast.Reduce(e, consts) == Ok(Ast.Value(Ast.Num(n)))
    ensures var st := Builder.Initial().(constSymbols := consts);
      Builder.LowerGlobalObj(Ast.FuncObj(MainReturning(e)), st).Ok? &&
      Builder.LowerGlobalObj(Ast.FuncObj(MainReturning(e)), st).value.program == Ir.Program([MainData(n)])
  {
    var st := Builder.Initial().(constSymbols := consts);
    var f := MainReturning(e);
    var st1 := Builder.NewFuncStep(st, f);
    assert Builder.ParamsOf([]) == [];
    assert "@" + "main" == "@main";
    var fd1 := Ir.FunctionData("@main", [], Ir.I32, [], []);
    assert [] + [fd1] == [fd1];
    assert st1.program == Ir.Program([fd1]);
    var st2 := Builder.NewBbStep(st1, "%entry").value;
    var fd2 := fd1.(bbs := [Ir.BasicBlockNode(Some("%entry"), [])]);
    assert fd1.bbs + [Ir.BasicBlockNode(Some("%entry"), [])] == fd2.bbs;
    assert [fd1][0 := fd2] == [fd2];
    assert st2.program == Ir.Program([fd2]);
    assert st2.currentFunc == Some(0) && st2.currentBb == Some(0) && st2.constSymbols == consts;
    BuilderFacts.StmtLowering(Ast.Return(e), st2);
    var st3 := BuilderFacts.AppendReturn(st2, n);
    assert fd2.dfg + [Ir.Integer(n), Ir.Return(Some(0))] == MainData(n).dfg;
    assert fd2.bbs[0].insts + [1] == [1];
    assert fd2.bbs[0 := fd2.bbs[0].(insts := fd2.bbs[0].insts + [1])] == MainData(n).bbs;
    assert [fd2][0 := MainData(n)] == [MainData(n)];
    assert st3.program == Ir.Program([MainData(n)]);
    assert [Ast.Return(e)][1..] == [];
    assert Builder.LowerBlock([Ast.Return(e)], st2) == Ok(st3);
  }

  /** The assembly of that function. */
  lemma AssembleMain(n: i32)
    ensures Asm.AssembleAsm(Ir.Program([MainData(n)])) ==
      Asm.Emitted([".text", ".globl main", "main:", Asm.LoadLine(n), "    ret"], Ok(()))
  {
    var fd := MainData(n);
    assert fd.name[1..] == "main";
    var ret := Asm.Then(Asm.Line(Asm.LoadLine(n)), Asm.Line("    ret"));
    assert Asm.InstAsm(fd.dfg, 1, Some(fd)) == ret;
    assert [1][1..] == [] && fd.bbs[1..] == [];
    assert Asm.InstsAsm(fd.dfg, [1], Some(fd)) == ret;
    assert Asm.BlocksAsm(fd.dfg, fd.bbs, Some(fd)) == ret;
    assert ".globl " + "main" == ".globl main" && "main" + ":" == "main:";
    assert Asm.Then(Asm.Line("main:"), ret) == Asm.Emitted(["main:", Asm.LoadLine(n), "    ret"], Ok(()));
    assert Asm.FunctionAsm(fd, Some(fd)) == Asm.Emitted([".globl main", "main:", Asm.LoadLine(n), "    ret"], Ok(()));
    assert [fd][1..] == [];
    assert Asm.FunctionsAsm([fd]) == Asm.FunctionAsm(fd, Some(fd));
  }

  /** `int main() { return 0; }` */
  lemma ReturnZero()
    ensures var ast := Ast.Ast([Ast.FuncObj(MainReturning(Ast.Value(Ast.Num(0))))]);
      Builder.LowerAst(ast) == Ok(Ir.Program([MainData(0)])) &&
      Asm.AssembleAsm(Builder.LowerAst(ast).value) ==
        Asm.Emitted([".text", ".globl main", "main:", "    li a0, 0", "    ret"], Ok(()))
  {
    var obj := Ast.FuncObj(MainReturning(Ast.Value(Ast.Num(0))));
    LowerMain(Ast.Value(Ast.Num(0)), map[], 0);
    assert Builder.Initial().(constSymbols := map[]) == Builder.Initial();
    assert [obj][1..] == [];
    AssembleMain(0);
    assert Asm.IntToString(0) == "0";
    assert Asm.LoadLine(0) == "    li a0, 0";
  }

  /** `const int x = 2 + 3;` records `x` as 5 and leaves the program empty. */
  lemma DeclareFive(init: Ast.Init)
    requires init == Ast.Init("x", Some(Ast.Binary(Ast.Add, Ast.Value(Ast.Num(2)), Ast.Value(Ast.Num(3)))))
    ensures Builder.LowerGlobalObj(Ast.DeclObj(Ast.Const(Ast.Int, [init])), Builder.Initial()) ==
      Ok(Builder.Initial().(constSymbols := map["x" := 5]))
  {
    var st := Builder.Initial().(constSymbols := map["x" := 5]);
    assert Builder.DeclareConst(init, Builder.Initial()) == Ok(st);
    assert [init][1..] == [];
    assert Builder.DeclareConsts([], st) == Ok(st);
    assert Builder.DeclareConsts([init], Builder.Initial()) == Ok(st);
  }

  lemma PrintTwenty()
    ensures Asm.LoadLine(20) == "    li a0, 20"
  {
    assert Asm.NatToString(20) == Asm.NatToString(2) + ['0'];
    assert Asm.IntToString(20) == "20";
  }

  /** `const int x = 2 + 3; int main() { return x * 4; }`: the constant and
      the returned expression are folded, so only the literal 20 reaches the
      IR. */
  lemma ReturnFoldedConstant()
    ensures var ast := Ast.Ast([
        Ast.DeclObj(Ast.Const(Ast.Int, [Ast.Init("x", Some(Ast.Binary(Ast.Add, Ast.Value(Ast.Num(2)), Ast.Value(Ast.Num(3)))))])),
        Ast.FuncObj(MainReturning(Ast.Binary(Ast.Mul, Ast.Value(Ast.LVal("x")), Ast.Value(Ast.Num(4)))))]);
      Builder.LowerAst(ast) == Ok(Ir.Program([MainData(20)])) &&
      Asm.AssembleAsm(Builder.LowerAst(ast).value) ==
        Asm.Emitted([".text", ".globl main", "main:", "    li a0, 20", "    ret"], Ok(()))
  {
    var init := Ast.Init("x", Some(Ast.Binary(Ast.Add, Ast.Value(Ast.Num(2)), Ast.Value(Ast.Num(3)))));
    var decl := Ast.DeclObj(Ast.Const(Ast.Int, [init]));
    var e := Ast.Binary(Ast.Mul, Ast.Value(Ast.LVal("x")), Ast.Value(Ast.Num(4)));
    var func := Ast.FuncObj(MainReturning(e));
    var consts := map["x" := 5];
    DeclareFive(init);
    assert Ast.Reduce(Ast.Value(Ast.LVal("x")), consts) == Ok(Ast.Value(Ast.Num(5)));
    assert Ast.Reduce(e, consts) == Ok(Ast.Value(Ast.Num(20)));
    LowerMain(e, consts, 20);
    var objs := [decl, func];
    assert objs[1..] == [func] && [func][1..] == [];
    AssembleMain(20);
    PrintTwenty();
  }

  /** `int main() { return 1 / 0; }` stops the compilation while folding. */
  lemma DivisionByZeroAborts()
    ensures Builder.LowerAst(Ast.Ast([Ast.FuncObj(MainReturning(
      Ast.Binary(Ast.Div, Ast.Value(Ast.Num(1)), Ast.Value(Ast.Num(0)))))])) == Err(DivideByZero)
  {
  }

  /** `int f(int a) { return a; }`: a parameter is not a constant, so the
      name survives folding and cannot be lowered. */
  lemma ReturnParameterUnimplemented()
    ensures Builder.LowerAst(Ast.Ast([Ast.FuncObj(Ast.Func("f", [Ast.Param("a", Ast.Int)],
      Ast.Block([Ast.Return(Ast.Value(Ast.LVal("a")))]), Ast.Int))])) == Err(Unimplemented)
  {
  }
}
