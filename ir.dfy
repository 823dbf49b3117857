/** The intermediate representation the builder fills and the assembler reads:
    an abstract stand-in for the koopa library's `Program`. A program holds its
    functions in layout order; a function owns an arena of values (its data-flow
    graph, where a value is identified by its index) and its basic blocks in
    layout order; a block holds its instructions, as value handles, in insertion
    order. */
module Ir {
  import opened Base

  /** `koopa::ir::Type`, restricted to the two types the front end produces. */
  datatype Type = I32 | Unit

  /** Handles: indices into the program's functions, a function's values, and
      a function's blocks. Handles are never reused: arenas only grow. */
  type Function = nat
  type BasicBlock = nat
  type Value = nat

  /** The binary operators the builder emits. */
  datatype BinaryOp = Add | Sub | Mul | Div | Mod | Eq

  /** What defines a value: an integer literal, a binary instruction over two
      earlier values, or a return with an optional operand. */
  datatype ValueKind =
    | Integer(num: i32)
    | Binary(op: BinaryOp, lhs: Value, rhs: Value)
    | Return(ret: Option<Value>)

  datatype BasicBlockNode = BasicBlockNode(name: Option<string>, insts: seq<Value>)

  datatype FunctionData = FunctionData(
    name: string,
    params: seq<(Option<string>, Type)>,
    ty: Type,
    dfg: seq<ValueKind>,
    bbs: seq<BasicBlockNode>)

  datatype Program = Program(funcs: seq<FunctionData>)

  /** Operands refer to values defined earlier in the same arena. */
  predicate KindOk(k: ValueKind, v: Value) {
    match k
    case Integer(_) => true
    case Binary(_, l, r) => l < v && r < v
    case Return(x) => x.Some? ==> x.value < v
  }

  predicate DfgOk(dfg: seq<ValueKind>) {
    forall v :: 0 <= v < |dfg| ==> KindOk(dfg[v], v)
  }

  predicate BlockOk(b: BasicBlockNode, n: nat) {
    forall k :: 0 <= k < |b.insts| ==> b.insts[k] < n
  }

  /** What koopa guarantees of a function: a name with its one-character
      prefix, operands that exist, and instructions that are values of the
      function. */
  predicate FunctionOk(fd: FunctionData) {
    |fd.name| >= 1 &&
    DfgOk(fd.dfg) &&
    forall b :: 0 <= b < |fd.bbs| ==> BlockOk(fd.bbs[b], |fd.dfg|)
  }

  predicate ProgramOk(p: Program) {
    forall f :: 0 <= f < |p.funcs| ==> FunctionOk(p.funcs[f])
  }

  /** The integer a binary instruction computes, with the same checked `i32`
      arithmetic as the constant folder (no value on overflow or a zero divisor). */
  function EvalBinary(op: BinaryOp, a: i32, b: i32): Result<i32> {
    match op
    case Add => Checked(a + b)
    case Sub => Checked(a - b)
    case Mul => Checked(a * b)
    case Div => CheckedDiv(a, b)
    case Mod => CheckedRem(a, b)
    case Eq => Ok(BoolToI32(a == b))
  }

  /** The integer a value denotes, found by following its operands back through
      the arena. A return instruction has no integer value. */
  function Eval(dfg: seq<ValueKind>, v: Value): Result<i32>
    requires DfgOk(dfg) && v < |dfg|
    decreases v
  {
    match dfg[v]
    case Integer(n) => Ok(n)
    case Binary(op, l, r) =>
      var a :- Eval(dfg, l);
      var b :- Eval(dfg, r);
      EvalBinary(op, a, b)
    case Return(_) => Err(Unimplemented)
  }

  /** Appending to an arena does not change what its existing values denote. */
  lemma {:induction false} EvalExtend(dfg: seq<ValueKind>, dfg': seq<ValueKind>, v: Value)
    requires DfgOk(dfg') && dfg <= dfg' && v < |dfg|
    ensures DfgOk(dfg)
    ensures Eval(dfg', v) == Eval(dfg, v)
    decreases v
  {
    assert forall u :: 0 <= u < |dfg| ==> dfg[u] == dfg'[u];
    match dfg[v]
    case Integer(_) =>
    case Binary(_, l, r) =>
      EvalExtend(dfg, dfg', l);
      EvalExtend(dfg, dfg', r);
    case Return(_) =>
  }

  /** `v` is a return instruction whose operand is an integer literal. */
  predicate LiteralReturn(dfg: seq<ValueKind>, v: Value) {
    v < |dfg| && dfg[v].Return? && dfg[v].ret.Some? &&
    dfg[v].ret.value < |dfg| && dfg[dfg[v].ret.value].Integer?
  }

  /** The literal such a return hands back. */
  function ReturnedLiteral(dfg: seq<ValueKind>, v: Value): i32
    requires LiteralReturn(dfg, v)
  {
    dfg[dfg[v].ret.value].num
  }

  /** Every instruction of every block returns an integer literal: the only
      shape of function the assembler can emit. */
  predicate RetsOfLiterals(fd: FunctionData) {
    forall b, k :: 0 <= b < |fd.bbs| && 0 <= k < |fd.bbs[b].insts| ==> LiteralReturn(fd.dfg, fd.bbs[b].insts[k])
  }

  predicate AllRetsOfLiterals(p: Program) {
    forall f :: 0 <= f < |p.funcs| ==> RetsOfLiterals(p.funcs[f])
  }

  /** Appending to an arena keeps a literal return what it was. */
  lemma LiteralReturnExtend(dfg: seq<ValueKind>, dfg': seq<ValueKind>, v: Value)
    requires dfg <= dfg' && LiteralReturn(dfg, v)
    ensures LiteralReturn(dfg', v) && ReturnedLiteral(dfg', v) == ReturnedLiteral(dfg, v)
  {
    assert dfg'[v] == dfg[v];
    assert dfg'[dfg[v].ret.value] == dfg[dfg[v].ret.value];
  }

  /** Appending to a function's arena, with its blocks left alone, keeps
      every literal return. */
  lemma RetsExtend(fd: FunctionData, fd': FunctionData)
    requires RetsOfLiterals(fd) && fd'.bbs == fd.bbs && fd.dfg <= fd'.dfg
    ensures RetsOfLiterals(fd')
  {
    forall b, k | 0 <= b < |fd.bbs| && 0 <= k < |fd.bbs[b].insts|
      ensures LiteralReturn(fd'.dfg, fd'.bbs[b].insts[k])
    {
      LiteralReturnExtend(fd.dfg, fd'.dfg, fd.bbs[b].insts[k]);
    }
  }
}
