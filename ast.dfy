/** The syntax tree the external parser hands to the compiler, its conversions
    to IR types, and the constant folder `reduce`, which rewrites an expression
    against a table of known constants. */
module Ast {
  import opened Base
  import Ir

  datatype Type = Int | Void

  datatype Value = Num(num: i32) | LVal(name: string)

  datatype MultiOp = Add | Sub | Mul | Div | Mod | And | Or | Eq | Ne | Lt | Gt | Le | Ge

  datatype UnaryOp = Not | Neg | Pos

  datatype Expr =
    | Value(val: Value)
    | Binary(op: MultiOp, lhs: Expr, rhs: Expr)
    | Unary(uop: UnaryOp, operand: Expr)
  {
    /** `Expr::is_num`: the expression is a numeric literal. */
    predicate IsNum()
      ensures IsNum() <==> exists n: i32 :: this == Value(Num(n))
    {
      assert Value? && val.Num? ==> this == Value(Num(val.num));
      Value? && val.Num?
    }
  }

  datatype Init = Init(name: string, value: Option<Expr>)

  datatype Decl = Const(ty: Type, inits: seq<Init>) | Var(ty: Type, inits: seq<Init>)

  datatype Param = Param(name: string, ty: Type)

  datatype Stmt = Return(expr: Expr)

  datatype Block = Block(stmts: seq<Stmt>)

  datatype Func = Func(name: string, params: seq<Param>, body: Block, ty: Type)

  /** A global object: `GlobalObj::Decl` or `GlobalObj::Func`. */
  datatype GlobalObj = DeclObj(decl: Decl) | FuncObj(func: Func)

  /** A compilation unit: its global objects in source order. */
  datatype Ast = Ast(obj: seq<GlobalObj>)

  /** `From<Type> for koopa::ir::Type`. */
  function IrType(ty: Type): (r: Ir.Type)
    ensures r == Ir.I32 <==> ty == Int
    ensures r == Ir.Unit <==> ty == Void
  {
    match ty
    case Int => Ir.I32
    case Void => Ir.Unit
  }

  /** `From<Param>`: the parameter's name behind the IR's `@` marker, and its type. */
  function ParamOf(p: Param): (r: (Option<string>, Ir.Type))
    ensures r.0.Some? && |r.0.value| == |p.name| + 1
    ensures r.0.value[0] == '@' && r.0.value[1..] == p.name
    ensures r.1 == IrType(p.ty)
  {
    (Some("@" + p.name), IrType(p.ty))
  }

  /** The value a binary operator gives two literals: exact `i32` arithmetic
      that fails on overflow, truncating division and remainder that fail on a
      zero divisor, and 0/1 for the logical and relational operators, which
      read a nonzero operand as true. */
  function FoldBinary(op: MultiOp, a: i32, b: i32): (r: Result<i32>)
    ensures r.Err? ==> op in {Add, Sub, Mul, Div, Mod}
    ensures r.Err? ==> (r.error == DivideByZero <==> b == 0) && (r.error == DivideByZero || r.error == Overflow)
    ensures !(op in {Add, Sub, Mul, Div, Mod}) ==> r == Ok(0) || r == Ok(1)
  {
    match op
    case Add => Checked(a + b)
    case Sub => Checked(a - b)
    case Mul => Checked(a * b)
    case Div => CheckedDiv(a, b)
    case Mod => CheckedRem(a, b)
    case And => Ok(BoolToI32(a != 0 && b != 0))
    case Or => Ok(BoolToI32(a != 0 || b != 0))
    case Eq => Ok(BoolToI32(a == b))
    case Ne => Ok(BoolToI32(a != b))
    case Lt => Ok(BoolToI32(a < b))
    case Gt => Ok(BoolToI32(a > b))
    case Le => Ok(BoolToI32(a <= b))
    case Ge => Ok(BoolToI32(a >= b))
  }

  /** The value a unary operator gives a literal: `-x` fails for `i32::MIN`. */
  function FoldUnary(op: UnaryOp, x: i32): (r: Result<i32>)
    ensures r.Err? <==> op == Neg && x == I32_MIN
    ensures r.Err? ==> r.error == Overflow
    ensures op == Not ==> r == Ok(0) || r == Ok(1)
  {
    assert InI32(x);
    match op
    case Neg => Checked(-(x as int))
    case Not => Ok(BoolToI32(x == 0))
    case Pos => Ok(x)
  }

  /** `Expr::reduce`: children first, then a node whose children are literals
      becomes one literal; a name in the table becomes its value. */
  function Reduce(e: Expr, consts: map<string, i32>): (r: Result<Expr>)
    ensures r.Ok? ==> Reduced(r.value, consts)
    ensures r.Ok? && !r.value.IsNum() ==> SameHead(e, r.value)
  {
    match e
    case Value(Num(_)) => Ok(e)
    case Value(LVal(name)) =>
      if name in consts then Ok(Value(Num(consts[name]))) else Ok(e)
    case Binary(op, lhs, rhs) =>
      var l :- Reduce(lhs, consts);
      var r :- Reduce(rhs, consts);
      if l.IsNum() && r.IsNum() then
        var n :- FoldBinary(op, l.val.num, r.val.num);
        Ok(Value(Num(n)))
      else
        Ok(Binary(op, l, r))
    case Unary(op, x) =>
      var x' :- Reduce(x, consts);
      if x'.IsNum() then
        var n :- FoldUnary(op, x'.val.num);
        Ok(Value(Num(n)))
      else
        Ok(Unary(op, x'))
  }

  /** A tree `reduce` cannot change: no name of the table is left, and no
      operator has only literal operands. */
  predicate Reduced(e: Expr, consts: map<string, i32>) {
    match e
    case Value(Num(_)) => true
    case Value(LVal(name)) => name !in consts
    case Binary(_, l, r) => Reduced(l, consts) && Reduced(r, consts) && !(l.IsNum() && r.IsNum())
    case Unary(_, x) => Reduced(x, consts) && !x.IsNum()
  }

  /** Two trees with the same root: the same name, or the same operator. */
  predicate SameHead(e: Expr, e': Expr) {
    match e
    case Value(v) => e' == e
    case Binary(op, _, _) => e'.Binary? && e'.op == op
    case Unary(op, _) => e'.Unary? && e'.uop == op
  }

  /** The names an expression refers to. */
  function Names(e: Expr): set<string> {
    match e
    case Value(Num(_)) => {}
    case Value(LVal(name)) => {name}
    case Binary(_, l, r) => Names(l) + Names(r)
    case Unary(_, x) => Names(x)
  }

  /** Reference meaning of an expression under a table of constants: the
      operands left to right, then the operator. A name outside the table has
      no value. */
  function Eval(e: Expr, consts: map<string, i32>): Result<i32> {
    match e
    case Value(Num(n)) => Ok(n)
    case Value(LVal(name)) => if name in consts then Ok(consts[name]) else Err(Unimplemented)
    case Binary(op, l, r) =>
      var a :- Eval(l, consts);
      var b :- Eval(r, consts);
      FoldBinary(op, a, b)
    case Unary(op, x) =>
      var a :- Eval(x, consts);
      FoldUnary(op, a)
  }

  /** A name becomes the literal `v` exactly when the table maps it to `v`;
      otherwise it is left as it is. */
  lemma ReduceName(name: string, consts: map<string, i32>, v: i32)
    ensures Reduce(Value(LVal(name)), consts) == Ok(Value(Num(v))) <==> name in consts && consts[name] == v
    ensures name !in consts <==> Reduce(Value(LVal(name)), consts) == Ok(Value(LVal(name)))
  {
  }

  /** `reduce` leaves a reduced tree as it is. */
  lemma {:induction false} ReducedIsFixpoint(e: Expr, consts: map<string, i32>)
    requires Reduced(e, consts)
    ensures Reduce(e, consts) == Ok(e)
  {
    match e
    case Value(_) =>
    case Binary(_, l, r) =>
      ReducedIsFixpoint(l, consts);
      ReducedIsFixpoint(r, consts);
    case Unary(_, x) =>
      ReducedIsFixpoint(x, consts);
  }

  /** Under a fixed table, reducing twice is reducing once. */
  lemma ReduceIdempotent(e: Expr, consts: map<string, i32>)
    requires Reduce(e, consts).Ok?
    ensures Reduce(Reduce(e, consts).value, consts) == Reduce(e, consts)
  {
    ReducedIsFixpoint(Reduce(e, consts).value, consts);
  }

  /** When every name is a known constant, `reduce` evaluates the whole tree:
      it fails exactly when evaluation fails, with the same error, and otherwise
      yields the literal of the value. */
  lemma {:induction false} ReduceEvaluates(e: Expr, consts: map<string, i32>)
    requires Names(e) <= consts.Keys
    ensures Eval(e, consts).Ok? ==> Reduce(e, consts) == Ok(Value(Num(Eval(e, consts).value)))
    ensures Eval(e, consts).Err? ==> Reduce(e, consts) == Err(Eval(e, consts).error)
  {
    match e
    case Value(_) =>
    case Binary(_, l, r) =>
      ReduceEvaluates(l, consts);
      ReduceEvaluates(r, consts);
    case Unary(_, x) =>
      ReduceEvaluates(x, consts);
  }

  /** A node whose operands do not all fold to literals keeps its operator,
      with each operand replaced by its folded form. */
  lemma ReducePartial(e: Expr, consts: map<string, i32>)
    requires Reduce(e, consts).Ok? && !Reduce(e, consts).value.IsNum()
    ensures e.Binary? ==>
      Reduce(e.lhs, consts).Ok? && Reduce(e.rhs, consts).Ok? &&
      Reduce(e, consts).value == Binary(e.op, Reduce(e.lhs, consts).value, Reduce(e.rhs, consts).value)
    ensures e.Unary? ==>
      Reduce(e.operand, consts).Ok? && Reduce(e, consts).value == Unary(e.uop, Reduce(e.operand, consts).value)
  {
  }

  /** Folding keeps the meaning of a tree under every table `env` that agrees
      with `consts` on its names, even when names are left over; and a fold
      that fails is on a tree whose evaluation fails too. */
  lemma {:induction false} ReducePreservesMeaning(e: Expr, consts: map<string, i32>, env: map<string, i32>)
    requires forall name :: name in consts ==> name in env && env[name] == consts[name]
    ensures Reduce(e, consts).Ok? ==> Eval(Reduce(e, consts).value, env) == Eval(e, env)
    ensures Reduce(e, consts).Err? ==> Eval(e, env).Err?
  {
    match e
    case Value(_) =>
    case Binary(_, l, r) =>
      ReducePreservesMeaning(l, consts, env);
      ReducePreservesMeaning(r, consts, env);
    case Unary(_, x) =>
      ReducePreservesMeaning(x, consts, env);
  }

  /** Folding a tree whose names are all constants leaves either a literal or
      a failure: nothing is left for the builder to lower. */
  lemma ReduceClosedIsLiteral(e: Expr, consts: map<string, i32>)
    requires Names(e) <= consts.Keys
    ensures Reduce(e, consts).Ok? ==> Reduce(e, consts).value.IsNum()
  {
    ReduceEvaluates(e, consts);
  }

  /** Folding is sound on literals: `reduce` of one operator over two literals
      is that operator's value. */
  lemma ReduceLiterals(op: MultiOp, a: i32, b: i32, consts: map<string, i32>)
    ensures FoldBinary(op, a, b).Ok? ==>
      Reduce(Binary(op, Value(Num(a)), Value(Num(b))), consts) == Ok(Value(Num(FoldBinary(op, a, b).value)))
    ensures FoldBinary(op, a, b).Err? ==>
      Reduce(Binary(op, Value(Num(a)), Value(Num(b))), consts) == Err(FoldBinary(op, a, b).error)
  {
  }

  /** The arithmetic operators give the exact result when it fits in `i32`
      and fail otherwise; division and remainder truncate toward zero and fail
      on a zero divisor. */
  lemma FoldArithmetic(a: i32, b: i32)
    ensures FoldBinary(Add, a, b) == (if InI32(a + b) then Ok(a + b) else Err(Overflow))
    ensures FoldBinary(Sub, a, b) == (if InI32(a - b) then Ok(a - b) else Err(Overflow))
    ensures FoldBinary(Mul, a, b) == (if InI32(a * b) then Ok(a * b) else Err(Overflow))
    ensures b == 0 ==> FoldBinary(Div, a, b) == Err(DivideByZero) && FoldBinary(Mod, a, b) == Err(DivideByZero)
    ensures FoldBinary(Div, a, b).Ok? <==> b != 0 && InI32(TruncDiv(a, b))
    ensures FoldBinary(Mod, a, b).Ok? <==> FoldBinary(Div, a, b).Ok?
    ensures FoldBinary(Div, a, b).Ok? ==>
      var q, m := FoldBinary(Div, a, b).value, FoldBinary(Mod, a, b).value;
      a == b * q + m && Abs(m) < Abs(b) && (m == 0 || (m < 0 <==> a < 0))
  {
    if b != 0 {
      DivRemSpec(a, b);
      if a == I32_MIN && b == -1 {
        assert TruncDiv(a, b) == 0x8000_0000;
      }
    }
  }

  /** The logical and relational operators give 0 or 1 only; `&&` and `||`
      read each operand as true when it is nonzero. */
  lemma FoldTruth(op: MultiOp, a: i32, b: i32)
    requires op in {And, Or, Eq, Ne, Lt, Gt, Le, Ge}
    ensures FoldBinary(op, a, b) == Ok(0) || FoldBinary(op, a, b) == Ok(1)
    ensures op == And ==> (FoldBinary(op, a, b) == Ok(1) <==> a != 0 && b != 0)
    ensures op == Or ==> (FoldBinary(op, a, b) == Ok(1) <==> a != 0 || b != 0)
    ensures op == Eq ==> (FoldBinary(op, a, b) == Ok(1) <==> a == b)
    ensures op == Ne ==> (FoldBinary(op, a, b) == Ok(1) <==> a != b)
    ensures op == Lt ==> (FoldBinary(op, a, b) == Ok(1) <==> a < b)
    ensures op == Gt ==> (FoldBinary(op, a, b) == Ok(1) <==> a > b)
    ensures op == Le ==> (FoldBinary(op, a, b) == Ok(1) <==> a <= b)
    ensures op == Ge ==> (FoldBinary(op, a, b) == Ok(1) <==> a >= b)
  {
  }

  /** `-x` fails only for `i32::MIN`; `!x` is 1 exactly for 0; `+x` is `x`. */
  lemma FoldUnarySpec(x: i32)
    ensures FoldUnary(Neg, x).Err? <==> x == I32_MIN
    ensures FoldUnary(Neg, x).Ok? ==> FoldUnary(Neg, x).value == -(x as int)
    ensures FoldUnary(Neg, x).Err? ==> FoldUnary(Neg, x).error == Overflow
    ensures FoldUnary(Not, x) == (if x == 0 then Ok(1) else Ok(0))
    ensures FoldUnary(Pos, x) == Ok(x)
  {
    assert InI32(x);
  }
}
