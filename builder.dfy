/** The IR builder: the `Constructor` state machine and the `Construct` walk
    over the syntax tree. A `State` is a snapshot of the constructor's fields;
    each step of construction is first given as a function from one snapshot
    to the next (or to the error that aborts the compilation), and each method
    of the `Constructor` class is proved to make exactly that step. */
module Builder {
  import opened Base
  import Ast
  import Ir

  /** The constructor's fields: the program built so far, the function and
      block new values and instructions go to, and the two symbol tables. */
  datatype State = State(
    program: Ir.Program,
    currentFunc: Option<Ir.Function>,
    currentBb: Option<Ir.BasicBlock>,
    constSymbols: map<string, i32>,
    varSymbols: map<string, Option<Ir.Value>>)

  /** A lowered expression: the state after it, and the value that holds it. */
  datatype Lowered = Lowered(st: State, value: Ir.Value)

  /** The program is well formed and the cursors point into it. */
  ghost predicate StateOk(st: State) {
    Ir.ProgramOk(st.program) &&
    (st.currentFunc.Some? ==> st.currentFunc.value < |st.program.funcs|) &&
    (st.currentBb.Some? ==>
      st.currentFunc.Some? && st.currentBb.value < |st.program.funcs[st.currentFunc.value].bbs|)
  }

  /** `Constructor::new`. */
  function Initial(): (st: State)
    ensures StateOk(st) && st.currentFunc.None? && st.currentBb.None?
    ensures forall name :: Ast.Reduce(Ast.Value(Ast.LVal(name)), st.constSymbols) == Ok(Ast.Value(Ast.LVal(name)))
  {
    State(Ir.Program([]), None, None, map[], map[])
  }

  function Fd(st: State): Ir.FunctionData
    requires StateOk(st) && st.currentFunc.Some?
  {
    st.program.funcs[st.currentFunc.value]
  }

  function Dfg(st: State): seq<Ir.ValueKind>
    requires StateOk(st) && st.currentFunc.Some?
  {
    Fd(st).dfg
  }

  function Insts(st: State): seq<Ir.Value>
    requires StateOk(st) && st.currentBb.Some?
  {
    Fd(st).bbs[st.currentBb.value].insts
  }

  /** The program with function `f` replaced. */
  function SetFunc(p: Ir.Program, f: Ir.Function, fd: Ir.FunctionData): (r: Ir.Program)
    requires f < |p.funcs|
    ensures |r.funcs| == |p.funcs| && r.funcs[f] == fd
    ensures forall g :: 0 <= g < |p.funcs| && g != f ==> r.funcs[g] == p.funcs[g]
    ensures Ir.ProgramOk(p) && Ir.FunctionOk(fd) ==> Ir.ProgramOk(r)
  {
    Ir.Program(p.funcs[f := fd])
  }

  /** The construction only moves forward inside the current function: the
      cursors, the symbol tables and the number of functions stay, and the
      current function's value arena is only appended to. */
  ghost predicate Grows(st: State, st': State) {
    st.currentFunc.Some? && st.currentFunc.value < |st.program.funcs| &&
    st'.currentFunc == st.currentFunc && st'.currentBb == st.currentBb &&
    st'.constSymbols == st.constSymbols && st'.varSymbols == st.varSymbols &&
    |st'.program.funcs| == |st.program.funcs| &&
    st.program.funcs[st.currentFunc.value].dfg <= st'.program.funcs[st.currentFunc.value].dfg
  }

  /** Only the current function's arena and blocks may differ: everything
      `Grows` keeps, every other function, and the current function's name,
      parameters and type. */
  ghost predicate OnlyCurrentFunc(st: State, st': State)
    requires StateOk(st) && StateOk(st') && st.currentFunc.Some?
  {
    Grows(st, st') &&
    (forall g :: 0 <= g < |st.program.funcs| && g != st.currentFunc.value ==>
      st'.program.funcs[g] == st.program.funcs[g]) &&
    Fd(st').name == Fd(st).name && Fd(st').params == Fd(st).params && Fd(st').ty == Fd(st).ty
  }

  /** The parameters of a function, converted one by one. */
  function ParamsOf(params: seq<Ast.Param>): (r: seq<(Option<string>, Ir.Type)>)
    ensures |r| == |params|
    ensures forall i :: 0 <= i < |params| ==> r[i] == Ast.ParamOf(params[i])
  {
    seq(|params|, i requires 0 <= i < |params| => Ast.ParamOf(params[i]))
  }

  // ---------------------------------------------------------------------
  // One step of construction per operation of the source
  // ---------------------------------------------------------------------

  /** `new_func`: a new last function, with no values and no blocks yet. */
  function NewFuncStep(st: State, func: Ast.Func): (st': State)
    requires StateOk(st)
    ensures StateOk(st')
  {
    var fd := Ir.FunctionData("@" + func.name, ParamsOf(func.params), Ast.IrType(func.ty), [], []);
    assert Ir.FunctionOk(fd);
    st.(program := Ir.Program(st.program.funcs + [fd]),
        currentFunc := Some(|st.program.funcs|),
        currentBb := None)
  }

  /** `new_bb`: a new, empty last block of the current function. */
  function NewBbStep(st: State, name: string): (r: Result<State>)
    requires StateOk(st)
    ensures r.Ok? ==> StateOk(r.value)
  {
    match st.currentFunc
    case None => Err(NoFunction)
    case Some(f) =>
      var fd := st.program.funcs[f];
      var fd' := fd.(bbs := fd.bbs + [Ir.BasicBlockNode(Some(name), [])]);
      assert Ir.FunctionOk(fd') by {
        assert Ir.FunctionOk(fd);
        assert forall b :: 0 <= b < |fd.bbs| ==> fd'.bbs[b] == fd.bbs[b];
      }
      Ok(st.(program := SetFunc(st.program, f, fd'), currentBb := Some(|fd.bbs|)))
  }

  /** `new_value()`: a new last value of the current function's arena. */
  function NewValueStep(st: State, kind: Ir.ValueKind): (r: Result<Lowered>)
    requires StateOk(st)
    requires st.currentFunc.Some? ==> Ir.KindOk(kind, |Dfg(st)|)
    ensures r.Ok? <==> st.currentFunc.Some?
    ensures r.Err? ==> r.error == NoFunction
    ensures r.Ok? ==> StateOk(r.value.st) && Grows(st, r.value.st) && r.value.value < |Dfg(r.value.st)|
  {
    match st.currentFunc
    case None => Err(NoFunction)
    case Some(f) =>
      var fd := st.program.funcs[f];
      var fd' := fd.(dfg := fd.dfg + [kind]);
      assert Ir.FunctionOk(fd') by {
        assert Ir.FunctionOk(fd);
        assert forall b :: 0 <= b < |fd.bbs| ==> Ir.BlockOk(fd.bbs[b], |fd.dfg|);
      }
      Ok(Lowered(st.(program := SetFunc(st.program, f, fd')), |fd.dfg|))
  }

  /** `get_bb().unwrap().insts_mut().push_key_back(v).unwrap()`: `v` becomes
      the last instruction of the current block. */
  function PushInstStep(st: State, v: Ir.Value): (r: Result<State>)
    requires StateOk(st)
    requires st.currentFunc.Some? ==> v < |Dfg(st)|
    ensures r.Ok? <==> st.currentBb.Some? && v !in Insts(st)
    ensures r.Err? ==> r.error == (if st.currentBb.None? then NoBlock else DuplicateInst)
    ensures r.Ok? ==> StateOk(r.value) && Grows(st, r.value)
  {
    if st.currentBb.None? || st.currentFunc.None? then Err(NoBlock)
    else
      var f, b := st.currentFunc.value, st.currentBb.value;
      var fd := st.program.funcs[f];
      var node := fd.bbs[b];
      if v in node.insts then Err(DuplicateInst)
      else
        var fd' := fd.(bbs := fd.bbs[b := node.(insts := node.insts + [v])]);
        assert Ir.FunctionOk(fd') by {
          assert Ir.FunctionOk(fd);
          assert Ir.BlockOk(fd'.bbs[b], |fd.dfg|);
        }
        Ok(st.(program := SetFunc(st.program, f, fd')))
  }

  /** A new value is appended at the end of the current function's arena,
      under the next free handle; its blocks, every other function and the
      rest of the state stay as they were. */
  lemma NewValueFrame(st: State, kind: Ir.ValueKind)
    requires StateOk(st) && st.currentFunc.Some? && Ir.KindOk(kind, |Dfg(st)|)
    ensures var r := NewValueStep(st, kind);
      r.Ok? &&
      StateOk(r.value.st) && OnlyCurrentFunc(st, r.value.st) &&
      r.value.value == |Dfg(st)| && Dfg(r.value.st) == Dfg(st) + [kind] && Fd(r.value.st).bbs == Fd(st).bbs
  {
  }

  /** A pushed instruction goes to the end of the current block; the arena,
      every other block, every other function and the rest of the state stay
      as they were. */
  lemma PushInstFrame(st: State, v: Ir.Value)
    requires StateOk(st) && st.currentBb.Some? && v < |Dfg(st)| && v !in Insts(st)
    ensures var r := PushInstStep(st, v);
      r.Ok? &&
      StateOk(r.value) && OnlyCurrentFunc(st, r.value) &&
      Dfg(r.value) == Dfg(st) && |Fd(r.value).bbs| == |Fd(st).bbs| &&
      Insts(r.value) == Insts(st) + [v] && Fd(r.value).bbs[st.currentBb.value].name == Fd(st).bbs[st.currentBb.value].name &&
      forall c :: 0 <= c < |Fd(st).bbs| && c != st.currentBb.value ==> Fd(r.value).bbs[c] == Fd(st).bbs[c]
  {
  }

  /** `push_binary!`: a new binary value, pushed onto the current block. */
  function PushBinaryStep(op: Ir.BinaryOp, l: Ir.Value, r: Ir.Value, st: State): (res: Result<Lowered>)
    requires StateOk(st)
    requires st.currentFunc.Some? ==> l < |Dfg(st)| && r < |Dfg(st)|
    ensures res.Ok? ==> StateOk(res.value.st) && Grows(st, res.value.st) && res.value.value < |Dfg(res.value.st)|
  {
    var b :- NewValueStep(st, Ir.Binary(op, l, r));
    var st' :- PushInstStep(b.st, b.value);
    Ok(Lowered(st', b.value))
  }

  /** The IR operator for a source operator, where the builder has one. */
  function BinaryOpOf(op: Ast.MultiOp): (r: Option<Ir.BinaryOp>)
    ensures r.Some? <==> op in {Ast.Add, Ast.Sub, Ast.Mul, Ast.Div, Ast.Mod}
  {
    match op
    case Add => Some(Ir.Add)
    case Sub => Some(Ir.Sub)
    case Mul => Some(Ir.Mul)
    case Div => Some(Ir.Div)
    case Mod => Some(Ir.Mod)
    case _ => None
  }

  /** `Value::construct`: a literal becomes an integer value; a name is not
      supported. */
  function LowerValue(v: Ast.Value, st: State): (r: Result<Lowered>)
    requires StateOk(st)
    ensures r.Ok? ==> StateOk(r.value.st) && Grows(st, r.value.st) && r.value.value < |Dfg(r.value.st)|
  {
    match v
    case Num(n) => NewValueStep(st, Ir.Integer(n))
    case LVal(_) => Err(Unimplemented)
  }

  /** `Expr::construct`: operands first (left before right), then the
      operator's instruction. */
  function LowerExpr(e: Ast.Expr, st: State): (r: Result<Lowered>)
    requires StateOk(st)
    ensures r.Ok? ==> StateOk(r.value.st) && Grows(st, r.value.st) && r.value.value < |Dfg(r.value.st)|
  {
    match e
    case Value(v) => LowerValue(v, st)
    case Binary(op, lhs, rhs) =>
      var l :- LowerExpr(lhs, st);
      var r :- LowerExpr(rhs, l.st);
      (match BinaryOpOf(op)
       case None => Err(Unimplemented)
       case Some(bop) => PushBinaryStep(bop, l.value, r.value, r.st))
    case Unary(op, x) =>
      var res :- LowerExpr(x, st);
      var zero := NewValueStep(res.st, Ir.Integer(0)).value;
      match op
      case Neg => PushBinaryStep(Ir.Sub, zero.value, res.value, zero.st)
      case Not => PushBinaryStep(Ir.Eq, zero.value, res.value, zero.st)
      case Pos => Ok(Lowered(zero.st, res.value))
  }

  /** `Stmt::construct`: fold the expression, lower it, then append a `ret`
      of its value to the current block. */
  function LowerStmt(s: Ast.Stmt, st: State): (r: Result<State>)
    requires StateOk(st)
    ensures r.Ok? ==> StateOk(r.value) && Grows(st, r.value)
  {
    var red :- Ast.Reduce(s.expr, st.constSymbols);
    var res :- LowerExpr(red, st);
    var ret := NewValueStep(res.st, Ir.Return(Some(res.value))).value;
    PushInstStep(ret.st, ret.value)
  }

  /** `Block::construct`: the statements in order; the first failure aborts. */
  function LowerBlock(stmts: seq<Ast.Stmt>, st: State): (r: Result<State>)
    requires StateOk(st)
    ensures r.Ok? ==> StateOk(r.value)
    decreases |stmts|
  {
    if stmts == [] then Ok(st)
    else
      var st' :- LowerStmt(stmts[0], st);
      LowerBlock(stmts[1..], st')
  }

  /** `Func::construct`: a new function with one `%entry` block, then its body. */
  function LowerFunc(func: Ast.Func, st: State): (r: Result<State>)
    requires StateOk(st)
    ensures r.Ok? ==> StateOk(r.value)
  {
    var st1 := NewFuncStep(st, func);
    var st2 :- NewBbStep(st1, "%entry");
    LowerBlock(func.body.stmts, st2)
  }

  /** One initializer of a `const` declaration: it must be present and fold
      to a literal, which the constant table then records under its name. */
  function DeclareConst(init: Ast.Init, st: State): (r: Result<State>)
    requires StateOk(st)
    ensures r.Ok? ==> StateOk(r.value)
  {
    match init.value
    case None => Err(MissingInitializer)
    case Some(e) =>
      var red :- Ast.Reduce(e, st.constSymbols);
      if red.IsNum() then Ok(st.(constSymbols := st.constSymbols[init.name := red.val.num]))
      else Err(NotConstant)
  }

  /** One initializer of a variable declaration: without a value the name is
      recorded as uninitialized; with one, the folded value is lowered and the
      name recorded with its handle. */
  function DeclareVar(init: Ast.Init, st: State): (r: Result<State>)
    requires StateOk(st)
    ensures r.Ok? ==> StateOk(r.value)
  {
    match init.value
    case None => Ok(st.(varSymbols := st.varSymbols[init.name := None]))
    case Some(e) =>
      var red :- Ast.Reduce(e, st.constSymbols);
      var res :- LowerExpr(red, st);
      Ok(res.st.(varSymbols := res.st.varSymbols[init.name := Some(res.value)]))
  }

  function DeclareConsts(inits: seq<Ast.Init>, st: State): (r: Result<State>)
    requires StateOk(st)
    ensures r.Ok? ==> StateOk(r.value)
    decreases |inits|
  {
    if inits == [] then Ok(st)
    else
      var st' :- DeclareConst(inits[0], st);
      DeclareConsts(inits[1..], st')
  }

  function DeclareVars(inits: seq<Ast.Init>, st: State): (r: Result<State>)
    requires StateOk(st)
    ensures r.Ok? ==> StateOk(r.value)
    decreases |inits|
  {
    if inits == [] then Ok(st)
    else
      var st' :- DeclareVar(inits[0], st);
      DeclareVars(inits[1..], st')
  }

  /** `Decl::construct`. */
  function LowerDecl(d: Ast.Decl, st: State): (r: Result<State>)
    requires StateOk(st)
    ensures r.Ok? ==> StateOk(r.value)
  {
    match d
    case Var(_, inits) => DeclareVars(inits, st)
    case Const(_, inits) => DeclareConsts(inits, st)
  }

  /** `GlobalObj::construct`. */
  function LowerGlobalObj(obj: Ast.GlobalObj, st: State): (r: Result<State>)
    requires StateOk(st)
    ensures r.Ok? ==> StateOk(r.value)
  {
    match obj
    case DeclObj(d) => LowerDecl(d, st)
    case FuncObj(f) => LowerFunc(f, st)
  }

  function LowerObjs(objs: seq<Ast.GlobalObj>, st: State): (r: Result<State>)
    requires StateOk(st)
    ensures r.Ok? ==> StateOk(r.value)
    decreases |objs|
  {
    if objs == [] then Ok(st)
    else
      var st' :- LowerGlobalObj(objs[0], st);
      LowerObjs(objs[1..], st')
  }

  /** The top-level `construct`: the program built from every global object
      in source order, starting from an empty constructor. */
  function LowerAst(ast: Ast.Ast): (r: Result<Ir.Program>)
    ensures r.Ok? ==> Ir.ProgramOk(r.value)
  {
    var st :- LowerObjs(ast.obj, Initial());
    Ok(st.program)
  }

  // ---------------------------------------------------------------------
  // The constructor as a state machine
  // ---------------------------------------------------------------------

  /** A method's outcome agrees with its step: the same error, or success in
      the state the step computes. After an error the state is left
      unconstrained, since the compilation stops there. */
  ghost predicate Agrees(r: Result<()>, st: State, step: Result<State>) {
    match step
    case Ok(s) => r == Ok(()) && st == s
    case Err(e) => r == Err(e)
  }

  ghost predicate AgreesValue(r: Result<Ir.Value>, st: State, step: Result<Lowered>) {
    match step
    case Ok(lw) => r == Ok(lw.value) && st == lw.st
    case Err(e) => r == Err(e)
  }

  class Constructor {
    var program: Ir.Program
    var currentFunc: Option<Ir.Function>
    var currentBb: Option<Ir.BasicBlock>
    var constSymbols: map<string, i32>
    var varSymbols: map<string, Option<Ir.Value>>

    function Snapshot(): State
      reads this
    {
      State(program, currentFunc, currentBb, constSymbols, varSymbols)
    }

    ghost predicate Valid()
      reads this
    {
      StateOk(Snapshot())
    }

    constructor ()
      ensures Valid() && Snapshot() == Initial()
    {
      program := Ir.Program([]);
      currentFunc := None;
      currentBb := None;
      constSymbols := map[];
      varSymbols := map[];
    }

    /** `get_const_val`: the constant recorded under `name`, if any. */
    function GetConstVal(name: string): (r: Option<i32>)
      reads this
      ensures r.Some? <==> name in constSymbols
      ensures r.Some? ==> Ast.Reduce(Ast.Value(Ast.LVal(name)), constSymbols) == Ok(Ast.Value(Ast.Num(r.value)))
    {
      if name in constSymbols then Some(constSymbols[name]) else None
    }

    /** `get_func_data`: the current function, if any. */
    function GetFuncData(): (r: Option<Ir.FunctionData>)
      requires Valid()
      reads this
      ensures r.Some? <==> currentFunc.Some?
      ensures r.Some? ==> r.value == program.funcs[currentFunc.value]
    {
      match currentFunc
      case None => None
      case Some(f) => Some(program.funcs[f])
    }

    /** `get_bb`: the current block of the current function, if both exist. */
    function GetBb(): (r: Option<Ir.BasicBlockNode>)
      requires Valid()
      reads this
      ensures r.Some? <==> currentFunc.Some? && currentBb.Some?
      ensures r.Some? ==> r.value == program.funcs[currentFunc.value].bbs[currentBb.value]
    {
      if currentBb.None? || currentFunc.None? then None
      else Some(program.funcs[currentFunc.value].bbs[currentBb.value])
    }

    method NewFunc(func: Ast.Func)
      requires Valid()
      modifies this
      ensures Valid() && Snapshot() == NewFuncStep(old(Snapshot()), func)
    {
      var f := |program.funcs|;
      program := Ir.Program(program.funcs + [Ir.FunctionData("@" + func.name, ParamsOf(func.params), Ast.IrType(func.ty), [], [])]);
      currentFunc := Some(f);
      currentBb := None;
    }

    method NewBb(name: string) returns (r: Result<()>)
      requires Valid()
      modifies this
      ensures Valid() && Agrees(r, Snapshot(), NewBbStep(old(Snapshot()), name))
    {
      var data := GetFuncData();
      if data.None? {
        return Err(NoFunction);
      }
      var f, fd := currentFunc.value, data.value;
      program := SetFunc(program, f, fd.(bbs := fd.bbs + [Ir.BasicBlockNode(Some(name), [])]));
      currentBb := Some(|fd.bbs|);
      r := Ok(());
    }

    /** `new_value()` followed by `integer`, `binary` or `ret`. */
    method NewValue(kind: Ir.ValueKind) returns (r: Result<Ir.Value>)
      requires Valid()
      requires currentFunc.Some? ==> Ir.KindOk(kind, |program.funcs[currentFunc.value].dfg|)
      modifies this
      ensures Valid() && AgreesValue(r, Snapshot(), NewValueStep(old(Snapshot()), kind))
    {
      var data := GetFuncData();
      if data.None? {
        return Err(NoFunction);
      }
      var f, fd := currentFunc.value, data.value;
      program := SetFunc(program, f, fd.(dfg := fd.dfg + [kind]));
      r := Ok(|fd.dfg|);
    }

    /** `get_bb().unwrap().insts_mut().push_key_back(v).unwrap()`. */
    method PushInst(v: Ir.Value) returns (r: Result<()>)
      requires Valid()
      requires currentFunc.Some? ==> v < |program.funcs[currentFunc.value].dfg|
      modifies this
      ensures Valid() && Agrees(r, Snapshot(), PushInstStep(old(Snapshot()), v))
    {
      var bb := GetBb();
      if bb.None? {
        return Err(NoBlock);
      }
      var f, b, node := currentFunc.value, currentBb.value, bb.value;
      var fd := program.funcs[f];
      if v in node.insts {
        return Err(DuplicateInst);
      }
      program := SetFunc(program, f, fd.(bbs := fd.bbs[b := node.(insts := node.insts + [v])]));
      r := Ok(());
    }

    /** The `push_binary!` macro. */
    method PushBinary(op: Ir.BinaryOp, l: Ir.Value, rv: Ir.Value) returns (r: Result<Ir.Value>)
      requires Valid()
      requires currentFunc.Some? ==> l < |program.funcs[currentFunc.value].dfg| && rv < |program.funcs[currentFunc.value].dfg|
      modifies this
      ensures Valid() && AgreesValue(r, Snapshot(), PushBinaryStep(op, l, rv, old(Snapshot())))
    {
      r := NewValue(Ir.Binary(op, l, rv));
      if r.Err? {
        return;
      }
      var pushed := PushInst(r.value);
      if pushed.Err? {
        return Err(pushed.error);
      }
    }

    /** `Value::construct`. */
    method ConstructValue(v: Ast.Value) returns (r: Result<Ir.Value>)
      requires Valid()
      modifies this
      ensures Valid() && AgreesValue(r, Snapshot(), LowerValue(v, old(Snapshot())))
    {
      match v
      case Num(n) =>
        r := NewValue(Ir.Integer(n));
      case LVal(_) =>
        r := Err(Unimplemented);
    }

    /** `Expr::construct`. */
    method ConstructExpr(e: Ast.Expr) returns (r: Result<Ir.Value>)
      requires Valid()
      modifies this
      ensures Valid() && AgreesValue(r, Snapshot(), LowerExpr(e, old(Snapshot())))
      decreases e
    {
      match e
      case Value(v) =>
        r := ConstructValue(v);
      case Binary(op, lhs, rhs) =>
        var l := ConstructExpr(lhs);
        if l.Err? {
          return l;
        }
        var rr := ConstructExpr(rhs);
        if rr.Err? {
          return rr;
        }
        match BinaryOpOf(op) {
          case None =>
            r := Err(Unimplemented);
          case Some(bop) =>
            r := PushBinary(bop, l.value, rr.value);
        }
      case Unary(op, x) =>
        var res := ConstructExpr(x);
        if res.Err? {
          return res;
        }
        var zero := NewValue(Ir.Integer(0));
        match op
        case Neg =>
          r := PushBinary(Ir.Sub, zero.value, res.value);
        case Not =>
          r := PushBinary(Ir.Eq, zero.value, res.value);
        case Pos =>
          r := res;
    }

    /** `Stmt::construct`. */
    method ConstructStmt(s: Ast.Stmt) returns (r: Result<()>)
      requires Valid()
      modifies this
      ensures Valid() && Agrees(r, Snapshot(), LowerStmt(s, old(Snapshot())))
    {
      var reduced := Ast.Reduce(s.expr, constSymbols);
      if reduced.Err? {
        return Err(reduced.error);
      }
      var res := ConstructExpr(reduced.value);
      if res.Err? {
        return Err(res.error);
      }
      var ret := NewValue(Ir.Return(Some(res.value)));
      r := PushInst(ret.value);
    }

    /** `Block::construct`. */
    method ConstructBlock(b: Ast.Block) returns (r: Result<()>)
      requires Valid()
      modifies this
      ensures Valid() && Agrees(r, Snapshot(), LowerBlock(b.stmts, old(Snapshot())))
    {
      ghost var st0 := Snapshot();
      assert b.stmts[0..] == b.stmts;
      for i := 0 to |b.stmts|
        invariant Valid()
        invariant LowerBlock(b.stmts[i..], Snapshot()) == LowerBlock(b.stmts, st0)
      {
        assert b.stmts[i..][1..] == b.stmts[i + 1..];
        r := ConstructStmt(b.stmts[i]);
        if r.Err? {
          return;
        }
      }
      r := Ok(());
    }

    /** `Func::construct`. */
    method ConstructFunc(func: Ast.Func) returns (r: Result<()>)
      requires Valid()
      modifies this
      ensures Valid() && Agrees(r, Snapshot(), LowerFunc(func, old(Snapshot())))
    {
      NewFunc(func);
      r := NewBb("%entry");
      if r.Err? {
        return;
      }
      r := ConstructBlock(func.body);
    }

    /** `Decl::construct`. */
    method ConstructDecl(d: Ast.Decl) returns (r: Result<()>)
      requires Valid()
      modifies this
      ensures Valid() && Agrees(r, Snapshot(), LowerDecl(d, old(Snapshot())))
    {
      ghost var st0 := Snapshot();
      match d
      case Var(_, inits) =>
        assert inits[0..] == inits;
        for i := 0 to |inits|
          invariant Valid()
          invariant DeclareVars(inits[i..], Snapshot()) == DeclareVars(inits, st0)
        {
          assert inits[i..][1..] == inits[i + 1..];
          var init := inits[i];
          match init.value {
            case Some(value) =>
              var reduced := Ast.Reduce(value, constSymbols);
              if reduced.Err? {
                return Err(reduced.error);
              }
              var res := ConstructExpr(reduced.value);
              if res.Err? {
                return Err(res.error);
              }
              varSymbols := varSymbols[init.name := Some(res.value)];
            case None =>
              varSymbols := varSymbols[init.name := None];
          }
        }
        r := Ok(());
      case Const(_, inits) =>
        assert inits[0..] == inits;
        for i := 0 to |inits|
          invariant Valid()
          invariant DeclareConsts(inits[i..], Snapshot()) == DeclareConsts(inits, st0)
        {
          assert inits[i..][1..] == inits[i + 1..];
          var init := inits[i];
          if init.value.None? {
            return Err(MissingInitializer);
          }
          var reduced := Ast.Reduce(init.value.value, constSymbols);
          if reduced.Err? {
            return Err(reduced.error);
          }
          if !reduced.value.IsNum() {
            return Err(NotConstant);
          }
          constSymbols := constSymbols[init.name := reduced.value.val.num];
        }
        r := Ok(());
    }

    /** `GlobalObj::construct`. */
    method ConstructGlobalObj(obj: Ast.GlobalObj) returns (r: Result<()>)
      requires Valid()
      modifies this
      ensures Valid() && Agrees(r, Snapshot(), LowerGlobalObj(obj, old(Snapshot())))
    {
      match obj
      case DeclObj(d) =>
        r := ConstructDecl(d);
      case FuncObj(f) =>
        r := ConstructFunc(f);
    }
  }

  /** The top-level `construct`: a fresh constructor walks the global objects
      in order and hands back its program. */
  method Construct(ast: Ast.Ast) returns (r: Result<Ir.Program>)
    ensures r == LowerAst(ast)
  {
    var c := new Constructor();
    assert ast.obj[0..] == ast.obj;
    for i := 0 to |ast.obj|
      invariant c.Valid()
      invariant LowerObjs(ast.obj[i..], c.Snapshot()) == LowerObjs(ast.obj, Initial())
    {
      assert ast.obj[i..][1..] == ast.obj[i + 1..];
      var res := c.ConstructGlobalObj(ast.obj[i]);
      if res.Err? {
        return Err(res.error);
      }
    }
    r := Ok(c.program);
  }
}
