/** What the builder's steps add up to: which expressions lower, what the
    lowered values compute, the exact shape of a lowered statement, block and
    function, what declarations record, and the invariant the whole
    construction keeps (every instruction returns an integer literal). */
module BuilderFacts {
  import opened Base
  import Ast
  import Ir
  import opened Builder

  /** `e` folds, under `consts`, to a single literal. */
  predicate FoldsToLiteral(e: Ast.Expr, consts: map<string, i32>) {
    Ast.Reduce(e, consts).Ok? && Ast.Reduce(e, consts).value.IsNum()
  }

  function FoldedLiteral(e: Ast.Expr, consts: map<string, i32>): i32
    requires FoldsToLiteral(e, consts)
  {
    Ast.Reduce(e, consts).value.val.num
  }

  /** `v` returns the literal that `e` folds to. */
  predicate ReturnsLiteral(dfg: seq<Ir.ValueKind>, v: Ir.Value, e: Ast.Expr, consts: map<string, i32>) {
    Ir.LiteralReturn(dfg, v) && FoldsToLiteral(e, consts) &&
    Ir.ReturnedLiteral(dfg, v) == FoldedLiteral(e, consts)
  }

  /** The state after one more integer value in the current function. */
  function AppendInteger(st: State, n: i32): State
    requires StateOk(st) && st.currentFunc.Some?
  {
    var f := st.currentFunc.value;
    var fd := st.program.funcs[f];
    st.(program := Ir.Program(st.program.funcs[f := fd.(dfg := fd.dfg + [Ir.Integer(n)])]))
  }

  /** The state after `return n;`: an integer value, a return of it, and the
      return appended to the current block. */
  function AppendReturn(st: State, n: i32): State
    requires StateOk(st) && st.currentBb.Some?
  {
    var f, b := st.currentFunc.value, st.currentBb.value;
    var fd := st.program.funcs[f];
    var node := fd.bbs[b];
    var d := |fd.dfg|;
    st.(program := Ir.Program(st.program.funcs[f := fd.(
      dfg := fd.dfg + [Ir.Integer(n), Ir.Return(Some(d))],
      bbs := fd.bbs[b := node.(insts := node.insts + [d + 1])])]))
  }

  /** `st'` continues `st` inside the current block: cursors, tables, other
      functions and other blocks as they were; the arena and the current
      block's instruction list only extended. */
  ghost predicate Extends(st: State, st': State) {
    StateOk(st) && StateOk(st') && st.currentBb.Some? &&
    st'.currentFunc == st.currentFunc && st'.currentBb == st.currentBb &&
    st'.constSymbols == st.constSymbols && st'.varSymbols == st.varSymbols &&
    |st'.program.funcs| == |st.program.funcs| &&
    (forall g :: 0 <= g < |st.program.funcs| && g != st.currentFunc.value ==>
      st'.program.funcs[g] == st.program.funcs[g]) &&
    var fd, fd' := Fd(st), Fd(st');
    var b := st.currentBb.value;
    fd'.name == fd.name && fd'.params == fd.params && fd'.ty == fd.ty &&
    fd.dfg <= fd'.dfg && |fd'.bbs| == |fd.bbs| &&
    (forall c :: 0 <= c < |fd.bbs| && c != b ==> fd'.bbs[c] == fd.bbs[c]) &&
    fd'.bbs[b].name == fd.bbs[b].name && fd.bbs[b].insts <= fd'.bbs[b].insts
  }

  lemma ExtendsTrans(a: State, b: State, c: State)
    requires Extends(a, b) && Extends(b, c)
    ensures Extends(a, c)
  {
    var cb := a.currentBb.value;
    assert Fd(a).dfg <= Fd(b).dfg <= Fd(c).dfg;
    assert Fd(a).bbs[cb].insts <= Fd(b).bbs[cb].insts <= Fd(c).bbs[cb].insts;
  }

  // ---------------------------------------------------------------------
  // Expressions
  // ---------------------------------------------------------------------

  /** Only closed expressions lower: a name is never turned into a value. */
  lemma {:induction false} LowerNeedsNoNames(e: Ast.Expr, st: State)
    requires StateOk(st) && LowerExpr(e, st).Ok?
    ensures Ast.Names(e) == {}
  {
    match e
    case Value(_) =>
    case Binary(_, lhs, rhs) =>
      LowerNeedsNoNames(lhs, st);
      LowerNeedsNoNames(rhs, LowerExpr(lhs, st).value.st);
    case Unary(_, x) =>
      LowerNeedsNoNames(x, st);
  }

  /** A folded tree that is not a literal still mentions a name. */
  lemma {:induction false} ReducedHasName(e: Ast.Expr, consts: map<string, i32>)
    requires Ast.Reduced(e, consts) && !e.IsNum()
    ensures Ast.Names(e) != {}
  {
    match e
    case Value(v) =>
      assert v.LVal?;
      assert v.name in Ast.Names(e);
    case Binary(_, l, r) =>
      if !l.IsNum() {
        ReducedHasName(l, consts);
      } else {
        ReducedHasName(r, consts);
      }
    case Unary(_, x) =>
      ReducedHasName(x, consts);
  }

  /** What the folder leaves as a tree the builder cannot lower: after
      folding, only literals reach the IR. */
  lemma ReducedNonLiteralFails(e: Ast.Expr, consts: map<string, i32>, st: State)
    requires StateOk(st) && Ast.Reduced(e, consts) && !e.IsNum()
    ensures LowerExpr(e, st).Err?
  {
    ReducedHasName(e, consts);
    if LowerExpr(e, st).Ok? {
      LowerNeedsNoNames(e, st);
    }
  }

  /** The IR operator computes what the folder computes for the same
      source operator. */
  lemma OperatorAgrees(op: Ast.MultiOp, a: i32, b: i32)
    requires BinaryOpOf(op).Some?
    ensures Ir.EvalBinary(BinaryOpOf(op).value, a, b) == Ast.FoldBinary(op, a, b)
  {
  }

  /** A pushed binary instruction computes its operator on what its operands
      compute. */
  lemma PushBinaryMeaning(bop: Ir.BinaryOp, lv: Ir.Value, rv: Ir.Value, st: State)
    requires StateOk(st) && st.currentFunc.Some? && lv < |Dfg(st)| && rv < |Dfg(st)|
    requires PushBinaryStep(bop, lv, rv, st).Ok?
    ensures var lw := PushBinaryStep(bop, lv, rv, st).value;
      Ir.Eval(Dfg(lw.st), lw.value) ==
        (var a :- Ir.Eval(Dfg(st), lv); var b :- Ir.Eval(Dfg(st), rv); Ir.EvalBinary(bop, a, b))
  {
    var lw := PushBinaryStep(bop, lv, rv, st).value;
    var dfg := Dfg(lw.st);
    assert Dfg(st) <= dfg;
    Ir.EvalExtend(Dfg(st), dfg, lv);
    Ir.EvalExtend(Dfg(st), dfg, rv);
    assert dfg[lw.value] == Ir.Binary(bop, lv, rv);
  }

  /** The meaning of a lowered expression, given that of its operands: the
      binary case. */
  lemma BinaryMeaning(op: Ast.MultiOp, lhs: Ast.Expr, rhs: Ast.Expr, st: State)
    requires StateOk(st) && LowerExpr(Ast.Binary(op, lhs, rhs), st).Ok?
    requires LowerExpr(lhs, st).Ok? && LowerExpr(rhs, LowerExpr(lhs, st).value.st).Ok?
    requires Ir.Eval(Dfg(LowerExpr(lhs, st).value.st), LowerExpr(lhs, st).value.value) == Ast.Eval(lhs, map[])
    requires var l := LowerExpr(lhs, st).value;
      Ir.Eval(Dfg(LowerExpr(rhs, l.st).value.st), LowerExpr(rhs, l.st).value.value) == Ast.Eval(rhs, map[])
    ensures var res := LowerExpr(Ast.Binary(op, lhs, rhs), st).value;
      Ir.Eval(Dfg(res.st), res.value) == Ast.Eval(Ast.Binary(op, lhs, rhs), map[])
  {
    var l := LowerExpr(lhs, st).value;
    var r := LowerExpr(rhs, l.st).value;
    Ir.EvalExtend(Dfg(l.st), Dfg(r.st), l.value);
    PushBinaryMeaning(BinaryOpOf(op).value, l.value, r.value, r.st);
    var a := Ast.Eval(lhs, map[]);
    var b := Ast.Eval(rhs, map[]);
    if a.Ok? && b.Ok? {
      OperatorAgrees(op, a.value, b.value);
    }
  }

  /** The zero a unary operator lowers to denotes 0, and what was there
      keeps its meaning. */
  lemma ZeroMeaning(s: State, v: Ir.Value)
    requires StateOk(s) && s.currentFunc.Some? && v < |Dfg(s)|
    ensures var z := NewValueStep(s, Ir.Integer(0)).value;
      StateOk(z.st) && z.st.currentFunc.Some? && z.value < |Dfg(z.st)| && v < |Dfg(z.st)| &&
      Ir.Eval(Dfg(z.st), z.value) == Ok(0) && Ir.Eval(Dfg(z.st), v) == Ir.Eval(Dfg(s), v)
  {
    var z := NewValueStep(s, Ir.Integer(0)).value;
    Ir.EvalExtend(Dfg(s), Dfg(z.st), v);
  }

  /** `0 - v` and `0 == v`, pushed after a fresh zero, compute `-v` and `!v`. */
  lemma ZeroOperandMeaning(bop: Ir.BinaryOp, uop: Ast.UnaryOp, s: State, v: Ir.Value)
    requires (bop == Ir.Sub && uop == Ast.Neg) || (bop == Ir.Eq && uop == Ast.Not)
    requires StateOk(s) && s.currentFunc.Some? && v < |Dfg(s)|
    ensures var zero := NewValueStep(s, Ir.Integer(0)).value;
      var lw := PushBinaryStep(bop, zero.value, v, zero.st);
      lw.Ok? ==>
        Ir.Eval(Dfg(lw.value.st), lw.value.value) == (var a :- Ir.Eval(Dfg(s), v); Ast.FoldUnary(uop, a))
  {
    ZeroMeaning(s, v);
    var zero := NewValueStep(s, Ir.Integer(0)).value;
    if PushBinaryStep(bop, zero.value, v, zero.st).Ok? {
      PushBinaryMeaning(bop, zero.value, v, zero.st);
    }
  }

  /** Negation: `0 - x`. */
  lemma NegMeaning(x: Ast.Expr, st: State)
    requires StateOk(st) && LowerExpr(Ast.Unary(Ast.Neg, x), st).Ok? && LowerExpr(x, st).Ok?
    requires Ir.Eval(Dfg(LowerExpr(x, st).value.st), LowerExpr(x, st).value.value) == Ast.Eval(x, map[])
    ensures var res := LowerExpr(Ast.Unary(Ast.Neg, x), st).value;
      Ir.Eval(Dfg(res.st), res.value) == Ast.Eval(Ast.Unary(Ast.Neg, x), map[])
  {
    var res := LowerExpr(x, st).value;
    ZeroOperandMeaning(Ir.Sub, Ast.Neg, res.st, res.value);
  }

  /** Logical not: `0 == x`. */
  lemma NotMeaning(x: Ast.Expr, st: State)
    requires StateOk(st) && LowerExpr(Ast.Unary(Ast.Not, x), st).Ok? && LowerExpr(x, st).Ok?
    requires Ir.Eval(Dfg(LowerExpr(x, st).value.st), LowerExpr(x, st).value.value) == Ast.Eval(x, map[])
    ensures var res := LowerExpr(Ast.Unary(Ast.Not, x), st).value;
      Ir.Eval(Dfg(res.st), res.value) == Ast.Eval(Ast.Unary(Ast.Not, x), map[])
  {
    var res := LowerExpr(x, st).value;
    ZeroOperandMeaning(Ir.Eq, Ast.Not, res.st, res.value);
  }

  /** Unary plus: the operand's own value. */
  lemma PlusMeaning(x: Ast.Expr, st: State)
    requires StateOk(st) && LowerExpr(Ast.Unary(Ast.Pos, x), st).Ok? && LowerExpr(x, st).Ok?
    requires Ir.Eval(Dfg(LowerExpr(x, st).value.st), LowerExpr(x, st).value.value) == Ast.Eval(x, map[])
    ensures var res := LowerExpr(Ast.Unary(Ast.Pos, x), st).value;
      Ir.Eval(Dfg(res.st), res.value) == Ast.Eval(Ast.Unary(Ast.Pos, x), map[])
  {
    var res := LowerExpr(x, st).value;
    ZeroMeaning(res.st, res.value);
  }

  /** A lowered expression's value computes, in the IR, what the expression
      evaluates to. */
  lemma {:induction false} LowerExprMeaning(e: Ast.Expr, st: State)
    requires StateOk(st) && LowerExpr(e, st).Ok?
    ensures Ir.Eval(Dfg(LowerExpr(e, st).value.st), LowerExpr(e, st).value.value) == Ast.Eval(e, map[])
  {
    match e
    case Value(v) =>
    case Binary(op, lhs, rhs) =>
      LowerExprMeaning(lhs, st);
      LowerExprMeaning(rhs, LowerExpr(lhs, st).value.st);
      BinaryMeaning(op, lhs, rhs, st);
    case Unary(op, x) =>
      LowerExprMeaning(x, st);
      match op
      case Pos => PlusMeaning(x, st);
      case Neg => NegMeaning(x, st);
      case Not => NotMeaning(x, st);
  }

  /** Lowering a literal adds one integer value to the arena and no
      instruction to the block. */
  lemma LowerLiteral(n: i32, st: State)
    requires StateOk(st)
    ensures LowerExpr(Ast.Value(Ast.Num(n)), st).Ok? <==> st.currentFunc.Some?
    ensures st.currentFunc.Some? ==>
      LowerExpr(Ast.Value(Ast.Num(n)), st) == Ok(Lowered(AppendInteger(st, n), |Dfg(st)|))
  {
  }

  /** A lowered expression's value is a new one: whatever it uses was
      lowered before it. */
  lemma {:induction false} LoweredValueIsNew(e: Ast.Expr, st: State)
    requires StateOk(st) && LowerExpr(e, st).Ok?
    ensures LowerExpr(e, st).value.value >= |Dfg(st)|
  {
    match e
    case Value(_) =>
    case Binary(_, lhs, rhs) =>
      LoweredValueIsNew(lhs, st);
      LoweredValueIsNew(rhs, LowerExpr(lhs, st).value.st);
    case Unary(_, x) =>
      LoweredValueIsNew(x, st);
  }

  /** `lhs op rhs`: the left operand is lowered first, then the right, then
      one binary instruction over the two becomes the block's new last
      instruction; the logical and relational operators are not lowered. */
  lemma BinaryLowering(op: Ast.MultiOp, lhs: Ast.Expr, rhs: Ast.Expr, st: State)
    requires StateOk(st)
    ensures BinaryOpOf(op).None? ==> LowerExpr(Ast.Binary(op, lhs, rhs), st).Err?
    ensures LowerExpr(Ast.Binary(op, lhs, rhs), st).Ok? ==>
      BinaryOpOf(op).Some? && LowerExpr(lhs, st).Ok? && LowerExpr(rhs, LowerExpr(lhs, st).value.st).Ok? &&
      var l := LowerExpr(lhs, st).value;
      var r := LowerExpr(rhs, l.st).value;
      var res := LowerExpr(Ast.Binary(op, lhs, rhs), st).value;
      l.value < r.value && r.st.currentBb.Some? && res.st.currentBb.Some? &&
      Dfg(res.st) == Dfg(r.st) + [Ir.Binary(BinaryOpOf(op).value, l.value, r.value)] &&
      res.value == |Dfg(r.st)| &&
      Insts(res.st) == Insts(r.st) + [res.value]
  {
    if LowerExpr(Ast.Binary(op, lhs, rhs), st).Ok? {
      var l := LowerExpr(lhs, st).value;
      LoweredValueIsNew(rhs, l.st);
    }
  }

  /** A zero, then a binary value of it and `v` pushed onto the current
      block: two more values and one more instruction. */
  lemma ZeroThenBinary(bop: Ir.BinaryOp, s: State, v: Ir.Value)
    requires StateOk(s) && s.currentBb.Some? && v < |Dfg(s)|
    ensures var zero := NewValueStep(s, Ir.Integer(0)).value;
      var r := PushBinaryStep(bop, zero.value, v, zero.st);
      var d := |Dfg(s)|;
      r.Ok? && r.value.st.currentBb.Some? &&
      Dfg(r.value.st) == Dfg(s) + [Ir.Integer(0), Ir.Binary(bop, d, v)] &&
      r.value.value == d + 1 && Insts(r.value.st) == Insts(s) + [d + 1]
  {
    var d := |Dfg(s)|;
    NewValueFrame(s, Ir.Integer(0));
    var zero := NewValueStep(s, Ir.Integer(0)).value;
    NewValueFrame(zero.st, Ir.Binary(bop, d, v));
    var b := NewValueStep(zero.st, Ir.Binary(bop, d, v)).value;
    assert d + 1 !in Insts(b.st) by {
      assert Ir.BlockOk(Fd(s).bbs[s.currentBb.value], d);
    }
    PushInstFrame(b.st, b.value);
    assert Dfg(s) + [Ir.Integer(0)] + [Ir.Binary(bop, d, v)] == Dfg(s) + [Ir.Integer(0), Ir.Binary(bop, d, v)];
  }

  /** `-x` becomes `0 - x` and `!x` becomes `0 == x`: a zero and one binary
      instruction, which joins the block; `+x` is the operand's own value,
      and only the unused zero is added, to the arena and not the block. */
  lemma UnaryLowering(op: Ast.UnaryOp, x: Ast.Expr, st: State)
    requires StateOk(st)
    ensures LowerExpr(Ast.Unary(op, x), st).Ok? ==>
      LowerExpr(x, st).Ok? &&
      var v := LowerExpr(x, st).value;
      var res := LowerExpr(Ast.Unary(op, x), st).value;
      var d := |Dfg(v.st)|;
      (op == Ast.Pos ==>
        res.value == v.value && Dfg(res.st) == Dfg(v.st) + [Ir.Integer(0)] && Fd(res.st).bbs == Fd(v.st).bbs) &&
      (op != Ast.Pos ==>
        v.st.currentBb.Some? && res.st.currentBb.Some? &&
        Dfg(res.st) == Dfg(v.st) + [Ir.Integer(0), Ir.Binary(if op == Ast.Neg then Ir.Sub else Ir.Eq, d, v.value)] &&
        res.value == d + 1 && Insts(res.st) == Insts(v.st) + [d + 1])
  {
    if LowerExpr(Ast.Unary(op, x), st).Ok? {
      var v := LowerExpr(x, st).value;
      NewValueFrame(v.st, Ir.Integer(0));
      if op != Ast.Pos {
        var zero := NewValueStep(v.st, Ir.Integer(0)).value;
        var bop := if op == Ast.Neg then Ir.Sub else Ir.Eq;
        assert LowerExpr(Ast.Unary(op, x), st) == PushBinaryStep(bop, zero.value, v.value, zero.st);
        ZeroThenBinary(bop, v.st, v.value);
      }
    }
  }


  // ---------------------------------------------------------------------
  // Statements, blocks and functions
  // ---------------------------------------------------------------------

  /** `return e;` lowers exactly when there is a current block and `e` folds
      to a literal; it then adds that literal, a return of it, and the return
      as the block's new last instruction. */
  lemma StmtLowering(s: Ast.Stmt, st: State)
    requires StateOk(st)
    ensures LowerStmt(s, st).Ok? <==> st.currentBb.Some? && FoldsToLiteral(s.expr, st.constSymbols)
    ensures LowerStmt(s, st).Ok? ==>
      st.currentBb.Some? && FoldsToLiteral(s.expr, st.constSymbols) &&
      LowerStmt(s, st).value == AppendReturn(st, FoldedLiteral(s.expr, st.constSymbols))
  {
    var red := Ast.Reduce(s.expr, st.constSymbols);
    if red.Ok? {
      if !red.value.IsNum() {
        ReducedNonLiteralFails(red.value, st.constSymbols, st);
      } else if st.currentBb.Some? {
        var f, b := st.currentFunc.value, st.currentBb.value;
        var fd := st.program.funcs[f];
        var d := |fd.dfg|;
        assert Ir.BlockOk(fd.bbs[b], d);
        assert d + 1 !in fd.bbs[b].insts;
        assert fd.dfg + [Ir.Integer(red.value.val.num)] + [Ir.Return(Some(d))]
            == fd.dfg + [Ir.Integer(red.value.val.num), Ir.Return(Some(d))];
      }
    }
  }

  lemma AppendReturnExtends(st: State, n: i32)
    requires StateOk(st) && st.currentBb.Some? && StateOk(AppendReturn(st, n))
    ensures Extends(st, AppendReturn(st, n))
    ensures |Insts(AppendReturn(st, n))| == |Insts(st)| + 1
    ensures var st' := AppendReturn(st, n);
      Ir.LiteralReturn(Dfg(st'), Insts(st')[|Insts(st)|]) && Ir.ReturnedLiteral(Dfg(st'), Insts(st')[|Insts(st)|]) == n
  {
  }

  /** A block lowers exactly when each of its statements folds to a literal. */
  lemma {:induction false} BlockLowers(stmts: seq<Ast.Stmt>, st: State)
    requires StateOk(st) && st.currentBb.Some?
    ensures LowerBlock(stmts, st).Ok? <==>
      forall k :: 0 <= k < |stmts| ==> FoldsToLiteral(stmts[k].expr, st.constSymbols)
    decreases |stmts|
  {
    if stmts != [] {
      StmtLowering(stmts[0], st);
      if LowerStmt(stmts[0], st).Ok? {
        var st1 := LowerStmt(stmts[0], st).value;
        AppendReturnExtends(st, FoldedLiteral(stmts[0].expr, st.constSymbols));
        BlockLowers(stmts[1..], st1);
        assert forall k :: 1 <= k < |stmts| ==> stmts[1..][k - 1] == stmts[k];
        if LowerBlock(stmts, st).Err? {
          var k :| 0 <= k < |stmts[1..]| && !FoldsToLiteral(stmts[1..][k].expr, st.constSymbols);
          assert !FoldsToLiteral(stmts[k + 1].expr, st.constSymbols);
        }
      }
    }
  }

  /** A lowered block appends one literal return per statement, in order, to
      the current block, and changes nothing outside it and the arena. */
  lemma {:induction false} BlockLowering(stmts: seq<Ast.Stmt>, st: State)
    requires StateOk(st) && st.currentBb.Some? && LowerBlock(stmts, st).Ok?
    ensures var st' := LowerBlock(stmts, st).value;
      Extends(st, st') && |Insts(st')| == |Insts(st)| + |stmts| &&
      forall k :: 0 <= k < |stmts| ==>
        ReturnsLiteral(Dfg(st'), Insts(st')[|Insts(st)| + k], stmts[k].expr, st.constSymbols)
    decreases |stmts|
  {
    if stmts == [] {
      assert Extends(st, st);
    } else {
      StmtLowering(stmts[0], st);
      var st1 := LowerStmt(stmts[0], st).value;
      AppendReturnExtends(st, FoldedLiteral(stmts[0].expr, st.constSymbols));
      BlockLowering(stmts[1..], st1);
      ReturnsCons(stmts, st, st1, LowerBlock(stmts[1..], st1).value);
    }
  }

  /** The inductive step of `BlockLowering`: the first statement's return,
      then the rest's. */
  lemma ReturnsCons(stmts: seq<Ast.Stmt>, st: State, st1: State, st': State)
    requires |stmts| > 0 && Extends(st, st1) && Extends(st1, st')
    requires |Insts(st1)| == |Insts(st)| + 1 && |Insts(st')| == |Insts(st1)| + |stmts| - 1
    requires ReturnsLiteral(Dfg(st1), Insts(st1)[|Insts(st)|], stmts[0].expr, st.constSymbols)
    requires forall k :: 0 <= k < |stmts[1..]| ==>
      ReturnsLiteral(Dfg(st'), Insts(st')[|Insts(st1)| + k], stmts[1..][k].expr, st.constSymbols)
    ensures Extends(st, st') && |Insts(st')| == |Insts(st)| + |stmts|
    ensures forall k :: 0 <= k < |stmts| ==>
      ReturnsLiteral(Dfg(st'), Insts(st')[|Insts(st)| + k], stmts[k].expr, st.constSymbols)
  {
    ExtendsTrans(st, st1, st');
    var i0 := |Insts(st)|;
    forall k | 0 <= k < |stmts|
      ensures ReturnsLiteral(Dfg(st'), Insts(st')[i0 + k], stmts[k].expr, st.constSymbols)
    {
      if k == 0 {
        assert Insts(st1) <= Insts(st');
        assert Insts(st')[i0] == Insts(st1)[i0];
        Ir.LiteralReturnExtend(Dfg(st1), Dfg(st'), Insts(st1)[i0]);
      } else {
        assert stmts[1..][k - 1] == stmts[k];
      }
    }
  }

  /** `new_func` then `new_bb("%entry")`: the new last function, with no
      values and one empty block, both of which become the cursors. */
  lemma EntryOpened(func: Ast.Func, st: State)
    requires StateOk(st)
    ensures NewBbStep(NewFuncStep(st, func), "%entry").Ok?
    ensures var st2 := NewBbStep(NewFuncStep(st, func), "%entry").value;
      StateOk(st2) && st2.currentFunc == Some(|st.program.funcs|) && st2.currentBb == Some(0) &&
      st2.constSymbols == st.constSymbols && st2.varSymbols == st.varSymbols
    ensures NewBbStep(NewFuncStep(st, func), "%entry").value.program.funcs == st.program.funcs +
      [Ir.FunctionData("@" + func.name, ParamsOf(func.params), Ast.IrType(func.ty), [], [Ir.BasicBlockNode(Some("%entry"), [])])]
  {
    var st1 := NewFuncStep(st, func);
    var st2 := NewBbStep(st1, "%entry").value;
    var entry := Ir.BasicBlockNode(Some("%entry"), []);
    assert Fd(st1).bbs + [entry] == [entry];
    assert Fd(st2) == Ir.FunctionData("@" + func.name, ParamsOf(func.params), Ast.IrType(func.ty), [], [entry]);
    assert st2.program.funcs == st1.program.funcs[|st.program.funcs| := Fd(st2)];
  }

  /** `fn f(..) { .. }` lowers exactly when each `return` of its body folds to
      a literal. It then adds one function: named `@f`, with the converted
      parameters and type, one block `%entry` holding one literal return per
      statement in order, and that block as the cursor. */
  lemma FuncLowering(func: Ast.Func, st: State)
    requires StateOk(st)
    ensures LowerFunc(func, st).Ok? <==>
      forall k :: 0 <= k < |func.body.stmts| ==> FoldsToLiteral(func.body.stmts[k].expr, st.constSymbols)
    ensures LowerFunc(func, st).Ok? ==>
      var st' := LowerFunc(func, st).value;
      var n := |st.program.funcs|;
      |st'.program.funcs| == n + 1 && st'.program.funcs[..n] == st.program.funcs &&
      st'.currentFunc == Some(n) && st'.currentBb == Some(0) &&
      st'.constSymbols == st.constSymbols && st'.varSymbols == st.varSymbols &&
      var fd := st'.program.funcs[n];
      fd.name == "@" + func.name && fd.params == ParamsOf(func.params) && fd.ty == Ast.IrType(func.ty) &&
      |fd.bbs| == 1 && fd.bbs[0].name == Some("%entry") &&
      |fd.bbs[0].insts| == |func.body.stmts| && Ir.RetsOfLiterals(fd) &&
      forall k :: 0 <= k < |func.body.stmts| ==>
        ReturnsLiteral(fd.dfg, fd.bbs[0].insts[k], func.body.stmts[k].expr, st.constSymbols)
  {
    var st2 := NewBbStep(NewFuncStep(st, func), "%entry").value;
    EntryOpened(func, st);
    BlockLowers(func.body.stmts, st2);
    if LowerFunc(func, st).Ok? {
      BlockLowering(func.body.stmts, st2);
      EntryFilled(func, st, st2, LowerBlock(func.body.stmts, st2).value);
    }
  }

  /** The shape `FuncLowering` states, from the opened entry block and what
      the body's statements appended to it. */
  lemma EntryFilled(func: Ast.Func, st: State, st2: State, st': State)
    requires StateOk(st)
    requires st2.program.funcs == st.program.funcs +
      [Ir.FunctionData("@" + func.name, ParamsOf(func.params), Ast.IrType(func.ty), [], [Ir.BasicBlockNode(Some("%entry"), [])])]
    requires st2.currentFunc == Some(|st.program.funcs|) && st2.currentBb == Some(0)
    requires st2.constSymbols == st.constSymbols && st2.varSymbols == st.varSymbols
    requires Extends(st2, st') && |Insts(st')| == |Insts(st2)| + |func.body.stmts|
    requires forall k :: 0 <= k < |func.body.stmts| ==>
      ReturnsLiteral(Dfg(st'), Insts(st')[|Insts(st2)| + k], func.body.stmts[k].expr, st2.constSymbols)
    ensures var n := |st.program.funcs|;
      |st'.program.funcs| == n + 1 && st'.program.funcs[..n] == st.program.funcs &&
      st'.currentFunc == Some(n) && st'.currentBb == Some(0) &&
      st'.constSymbols == st.constSymbols && st'.varSymbols == st.varSymbols &&
      var fd := st'.program.funcs[n];
      fd.name == "@" + func.name && fd.params == ParamsOf(func.params) && fd.ty == Ast.IrType(func.ty) &&
      |fd.bbs| == 1 && fd.bbs[0].name == Some("%entry") &&
      |fd.bbs[0].insts| == |func.body.stmts| && Ir.RetsOfLiterals(fd) &&
      forall k :: 0 <= k < |func.body.stmts| ==>
        ReturnsLiteral(fd.dfg, fd.bbs[0].insts[k], func.body.stmts[k].expr, st.constSymbols)
  {
    var n := |st.program.funcs|;
    assert |Insts(st2)| == 0;
    assert st'.program.funcs[..n] == st.program.funcs by {
      assert forall g :: 0 <= g < n ==> st'.program.funcs[g] == st2.program.funcs[g] == st.program.funcs[g];
    }
    var fd := st'.program.funcs[n];
    forall c, k | 0 <= c < |fd.bbs| && 0 <= k < |fd.bbs[c].insts|
      ensures Ir.LiteralReturn(fd.dfg, fd.bbs[c].insts[k])
    {
      assert c == 0 && fd.bbs[c].insts[k] == Insts(st')[|Insts(st2)| + k];
      assert ReturnsLiteral(Dfg(st'), Insts(st')[|Insts(st2)| + k], func.body.stmts[k].expr, st.constSymbols);
    }
  }

  // ---------------------------------------------------------------------
  // Declarations
  // ---------------------------------------------------------------------

  /** One `const` initializer: it is required, must fold to a literal, and
      that literal is recorded under its name, so that a later reference to
      the name folds to it; nothing else changes. */
  lemma ConstDeclaration(init: Ast.Init, st: State)
    requires StateOk(st)
    ensures init.value.None? ==> DeclareConst(init, st) == Err(MissingInitializer)
    ensures DeclareConst(init, st).Ok? <==>
      init.value.Some? && FoldsToLiteral(init.value.value, st.constSymbols)
    ensures DeclareConst(init, st).Ok? ==>
      init.value.Some? && FoldsToLiteral(init.value.value, st.constSymbols) &&
      var n := FoldedLiteral(init.value.value, st.constSymbols);
      DeclareConst(init, st).value == st.(constSymbols := st.constSymbols[init.name := n]) &&
      Ast.Reduce(Ast.Value(Ast.LVal(init.name)), DeclareConst(init, st).value.constSymbols) == Ok(Ast.Value(Ast.Num(n)))
  {
  }

  /** Initializers are processed in order: the last one is declared in the
      table the earlier ones built. */
  lemma {:induction false} DeclareConstsSnoc(inits: seq<Ast.Init>, init: Ast.Init, st: State)
    requires StateOk(st)
    ensures DeclareConsts(inits + [init], st) ==
      match DeclareConsts(inits, st)
      case Ok(s) => DeclareConst(init, s)
      case Err(e) => Err(e)
    decreases |inits|
  {
    if inits == [] {
      assert [] + [init] == [init];
      assert [init][1..] == [];
    } else {
      assert (inits + [init])[0] == inits[0];
      assert (inits + [init])[1..] == inits[1..] + [init];
      match DeclareConst(inits[0], st)
      case Ok(s1) =>
        DeclareConstsSnoc(inits[1..], init, s1);
      case Err(_) =>
    }
  }

  function InitNames(inits: seq<Ast.Init>): set<string> {
    set i | 0 <= i < |inits| :: inits[i].name
  }

  /** A `const` declaration touches only the constant table, which gains
      exactly its names; one initializer without a value makes it fail. */
  lemma {:induction false} ConstDeclarations(inits: seq<Ast.Init>, st: State)
    requires StateOk(st)
    ensures DeclareConsts(inits, st).Ok? ==>
      var st' := DeclareConsts(inits, st).value;
      st' == st.(constSymbols := st'.constSymbols) &&
      st'.constSymbols.Keys == st.constSymbols.Keys + InitNames(inits)
    ensures (exists i :: 0 <= i < |inits| && inits[i].value.None?) ==> DeclareConsts(inits, st).Err?
    decreases |inits|
  {
    if inits != [] {
      assert InitNames(inits) == {inits[0].name} + InitNames(inits[1..]) by {
        assert forall i :: 1 <= i < |inits| ==> inits[1..][i - 1] == inits[i];
      }
      if (exists i :: 0 <= i < |inits| && inits[i].value.None?) && inits[0].value.Some? {
        var i :| 0 <= i < |inits| && inits[i].value.None?;
        assert inits[1..][i - 1].value.None?;
      }
      match DeclareConst(inits[0], st)
      case Ok(s1) =>
        ConstDeclarations(inits[1..], s1);
      case Err(_) =>
    }
  }

  /** One variable initializer: without a value the name is recorded as
      uninitialized; with one, it lowers exactly when there is a current
      function and the value folds to a literal, which then becomes one new
      integer value whose handle the name records. No instruction is added. */
  lemma VarDeclaration(init: Ast.Init, st: State)
    requires StateOk(st)
    ensures init.value.None? ==> DeclareVar(init, st) == Ok(st.(varSymbols := st.varSymbols[init.name := None]))
    ensures init.value.Some? ==>
      (DeclareVar(init, st).Ok? <==> st.currentFunc.Some? && FoldsToLiteral(init.value.value, st.constSymbols))
    ensures init.value.Some? && st.currentFunc.Some? && FoldsToLiteral(init.value.value, st.constSymbols) ==>
      DeclareVar(init, st) == Ok(AppendInteger(st, FoldedLiteral(init.value.value, st.constSymbols))
        .(varSymbols := st.varSymbols[init.name := Some(|Dfg(st)|)]))
  {
    if init.value.Some? {
      var red := Ast.Reduce(init.value.value, st.constSymbols);
      if red.Ok? && !red.value.IsNum() {
        ReducedNonLiteralFails(red.value, st.constSymbols, st);
      }
    }
  }

  // ---------------------------------------------------------------------
  // The invariant of the whole construction
  // ---------------------------------------------------------------------

  lemma {:induction false} VarsKeepLiteralReturns(inits: seq<Ast.Init>, st: State)
    requires StateOk(st) && Ir.AllRetsOfLiterals(st.program)
    ensures DeclareVars(inits, st).Ok? ==> Ir.AllRetsOfLiterals(DeclareVars(inits, st).value.program)
    decreases |inits|
  {
    if inits != [] && DeclareVar(inits[0], st).Ok? {
      var init := inits[0];
      var s1 := DeclareVar(init, st).value;
      VarDeclaration(init, st);
      if init.value.Some? {
        var f := st.currentFunc.value;
        forall g | 0 <= g < |s1.program.funcs|
          ensures Ir.RetsOfLiterals(s1.program.funcs[g])
        {
          if g == f {
            Ir.RetsExtend(st.program.funcs[g], s1.program.funcs[g]);
          }
        }
      }
      VarsKeepLiteralReturns(inits[1..], s1);
    }
  }

  lemma {:induction false} ConstsKeepProgram(inits: seq<Ast.Init>, st: State)
    requires StateOk(st)
    ensures DeclareConsts(inits, st).Ok? ==> DeclareConsts(inits, st).value.program == st.program
  {
    ConstDeclarations(inits, st);
  }

  lemma ObjKeepsLiteralReturns(obj: Ast.GlobalObj, st: State)
    requires StateOk(st) && Ir.AllRetsOfLiterals(st.program)
    ensures LowerGlobalObj(obj, st).Ok? ==> Ir.AllRetsOfLiterals(LowerGlobalObj(obj, st).value.program)
  {
    match obj
    case DeclObj(Var(_, inits)) =>
      VarsKeepLiteralReturns(inits, st);
    case DeclObj(Const(_, inits)) =>
      ConstsKeepProgram(inits, st);
    case FuncObj(f) =>
      FuncLowering(f, st);
      if LowerFunc(f, st).Ok? {
        var p' := LowerFunc(f, st).value.program;
        var n := |st.program.funcs|;
        forall g | 0 <= g < |p'.funcs|
          ensures Ir.RetsOfLiterals(p'.funcs[g])
        {
          if g < n {
            assert p'.funcs[g] == p'.funcs[..n][g] == st.program.funcs[g];
          }
        }
      }
  }

  lemma {:induction false} ObjsKeepLiteralReturns(objs: seq<Ast.GlobalObj>, st: State)
    requires StateOk(st) && Ir.AllRetsOfLiterals(st.program)
    ensures LowerObjs(objs, st).Ok? ==> Ir.AllRetsOfLiterals(LowerObjs(objs, st).value.program)
    decreases |objs|
  {
    if objs != [] {
      ObjKeepsLiteralReturns(objs[0], st);
      if LowerGlobalObj(objs[0], st).Ok? {
        ObjsKeepLiteralReturns(objs[1..], LowerGlobalObj(objs[0], st).value);
      }
    }
  }

  /** Every instruction of a constructed program returns an integer literal. */
  lemma ConstructedReturnsLiterals(ast: Ast.Ast)
    ensures LowerAst(ast).Ok? ==> Ir.AllRetsOfLiterals(LowerAst(ast).value)
  {
    ObjsKeepLiteralReturns(ast.obj, Initial());
  }

  /** The shape `Func::construct` gives a function: its name behind the `@`
      marker, and the single block `%entry`. */
  predicate EntryShaped(fd: Ir.FunctionData) {
    |fd.name| >= 1 && fd.name[0] == '@' && |fd.bbs| == 1 && fd.bbs[0].name == Some("%entry")
  }

  predicate AllEntryShaped(p: Ir.Program) {
    forall g :: 0 <= g < |p.funcs| ==> EntryShaped(p.funcs[g])
  }

  lemma {:induction false} VarsKeepShape(inits: seq<Ast.Init>, st: State)
    requires StateOk(st) && AllEntryShaped(st.program)
    ensures DeclareVars(inits, st).Ok? ==> AllEntryShaped(DeclareVars(inits, st).value.program)
    decreases |inits|
  {
    if inits != [] && DeclareVar(inits[0], st).Ok? {
      var init := inits[0];
      var s1 := DeclareVar(init, st).value;
      VarDeclaration(init, st);
      if init.value.Some? {
        var f := st.currentFunc.value;
        assert s1.program.funcs[f].name == st.program.funcs[f].name;
        assert s1.program.funcs[f].bbs == st.program.funcs[f].bbs;
        assert AllEntryShaped(s1.program) by {
          forall g | 0 <= g < |s1.program.funcs|
            ensures EntryShaped(s1.program.funcs[g])
          {
            assert EntryShaped(st.program.funcs[g]);
          }
        }
      }
      VarsKeepShape(inits[1..], s1);
    }
  }

  lemma ObjKeepsShape(obj: Ast.GlobalObj, st: State)
    requires StateOk(st) && AllEntryShaped(st.program)
    ensures LowerGlobalObj(obj, st).Ok? ==> AllEntryShaped(LowerGlobalObj(obj, st).value.program)
  {
    match obj
    case DeclObj(Var(_, inits)) =>
      VarsKeepShape(inits, st);
    case DeclObj(Const(_, inits)) =>
      ConstsKeepProgram(inits, st);
    case FuncObj(f) =>
      FuncLowering(f, st);
      if LowerFunc(f, st).Ok? {
        var p' := LowerFunc(f, st).value.program;
        var n := |st.program.funcs|;
        forall g | 0 <= g < |p'.funcs|
          ensures EntryShaped(p'.funcs[g])
        {
          if g < n {
            assert p'.funcs[g] == p'.funcs[..n][g] == st.program.funcs[g];
          } else {
            assert p'.funcs[g].name == "@" + f.name;
          }
        }
      }
  }

  lemma {:induction false} ObjsKeepShape(objs: seq<Ast.GlobalObj>, st: State)
    requires StateOk(st) && AllEntryShaped(st.program)
    ensures LowerObjs(objs, st).Ok? ==> AllEntryShaped(LowerObjs(objs, st).value.program)
    decreases |objs|
  {
    if objs != [] {
      ObjKeepsShape(objs[0], st);
      if LowerGlobalObj(objs[0], st).Ok? {
        ObjsKeepShape(objs[1..], LowerGlobalObj(objs[0], st).value);
      }
    }
  }

  /** Every function of a constructed program is named `@f` and has exactly
      one block, `%entry`. */
  lemma ConstructedFunctionsShaped(ast: Ast.Ast)
    ensures LowerAst(ast).Ok? ==> AllEntryShaped(LowerAst(ast).value)
  {
    ObjsKeepShape(ast.obj, Initial());
  }
}
