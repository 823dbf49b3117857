/** The RISC-V back end: the `AsmBuilder`, code generation for `ret`
    instructions and functions, and `assemble`. The output file is a list of
    lines (each `writeln!` adds one) with an optional capacity after which
    every write fails. Each generator is specified by the lines it would emit
    on a file that never fails, together with the panic it ends in, if any;
    `Deliver` says what of that reaches a file with limited room. */
module Asm {
  import opened Base
  import Ir

  // ---------------------------------------------------------------------
  // Decimal text of an integer, as `{}` formats an `i32`
  // ---------------------------------------------------------------------

  predicate IsDigits(s: string) {
    forall i :: 0 <= i < |s| ==> '0' <= s[i] <= '9'
  }

  function DigitChar(d: nat): char
    requires d < 10
  {
    ('0' as int + d) as char
  }

  /** Decimal digits, most significant first, without leading zeros. */
  function NatToString(n: nat): (s: string)
    ensures |s| >= 1 && IsDigits(s)
    ensures s[0] == '0' ==> n == 0
    decreases n
  {
    if n < 10 then [DigitChar(n)] else NatToString(n / 10) + [DigitChar(n % 10)]
  }

  /** A minus sign before the digits of a negative number. */
  function IntToString(i: int): (s: string)
    ensures |s| >= 1
    ensures s[0] == '-' <==> i < 0
  {
    if i < 0 then "-" + NatToString(-i) else NatToString(i)
  }

  function DigitValue(c: char): Option<nat> {
    if '0' <= c <= '9' then Some(c as int - '0' as int) else None
  }

  /** The number a string of decimal digits denotes. */
  function ParseNat(s: string): Option<nat>
    decreases |s|
  {
    if |s| == 0 then None
    else
      match DigitValue(s[|s| - 1])
      case None => None
      case Some(d) =>
        if |s| == 1 then Some(d)
        else
          match ParseNat(s[..|s| - 1])
          case None => None
          case Some(p) => Some(10 * p + d)
  }

  /** The integer a decimal string with an optional minus sign denotes. */
  function ParseInt(s: string): Option<int> {
    if |s| >= 1 && s[0] == '-' then
      match ParseNat(s[1..])
      case None => None
      case Some(n) => Some(-(n as int))
    else
      match ParseNat(s)
      case None => None
      case Some(n) => Some(n)
  }

  lemma {:induction false} NatRoundTrip(n: nat)
    ensures ParseNat(NatToString(n)) == Some(n)
    decreases n
  {
    if n >= 10 {
      NatRoundTrip(n / 10);
      var s := NatToString(n);
      assert s[..|s| - 1] == NatToString(n / 10);
    }
  }

  /** The integer printed in `li a0, {}` can be read back from the text. */
  lemma IntRoundTrip(i: int)
    ensures ParseInt(IntToString(i)) == Some(i)
  {
    if i < 0 {
      var s := NatToString(-i);
      NatRoundTrip(-i);
      assert IntToString(i) == "-" + s;
      assert ("-" + s)[1..] == s;
      assert ("-" + s)[0] == '-';
    } else {
      NatRoundTrip(i);
    }
  }

  /** Different integers print differently. */
  lemma IntToStringInjective(i: int, j: int)
    requires IntToString(i) == IntToString(j)
    ensures i == j
  {
    IntRoundTrip(i);
    IntRoundTrip(j);
  }

  // ---------------------------------------------------------------------
  // Emitted text and a file that can fail
  // ---------------------------------------------------------------------

  /** The lines a generator writes and how it ends: `Ok`, or the error it
      stops with after those lines. */
  datatype Emitted = Emitted(lines: seq<string>, outcome: Result<()>)

  function Line(s: string): Emitted {
    Emitted([s], Ok(()))
  }

  function Nothing(): Emitted {
    Emitted([], Ok(()))
  }

  /** One generator after another; the `?` after each call stops at the
      first failure. */
  function Then(a: Emitted, b: Emitted): Emitted {
    if a.outcome.Err? then a else Emitted(a.lines + b.lines, b.outcome)
  }

  /** The room left once `k` more lines are written. */
  function Sub(room: Option<nat>, k: nat): Option<nat> {
    match room
    case None => None
    case Some(n) => Some(if k <= n then n - k else 0)
  }

  /** What of `e` reaches a file with `room` lines left (`None`: unbounded):
      once the file is full, the next write fails and ends the generator. */
  function Deliver(e: Emitted, room: Option<nat>): (d: Emitted)
    ensures d.lines <= e.lines
    ensures room.None? ==> d == e
    ensures |d.lines| < |e.lines| <==> room.Some? && room.value < |e.lines|
    ensures |d.lines| < |e.lines| ==> d.outcome == Err(WriteFailed)
    ensures |d.lines| == |e.lines| ==> d == e
  {
    if room.Some? && room.value < |e.lines| then Emitted(e.lines[..room.value], Err(WriteFailed)) else e
  }

  lemma ThenAssoc(a: Emitted, b: Emitted, c: Emitted)
    ensures Then(Then(a, b), c) == Then(a, Then(b, c))
  {
    if a.outcome.Ok? && b.outcome.Ok? {
      assert (a.lines + b.lines) + c.lines == a.lines + (b.lines + c.lines);
    }
  }

  /** Delivering two generators in a row is delivering the first, then the
      second into what room the first left. */
  lemma DeliverThen(a: Emitted, b: Emitted, room: Option<nat>)
    ensures Deliver(Then(a, b), room) == Then(Deliver(a, room), Deliver(b, Sub(room, |a.lines|)))
  {
    if room.Some? && a.outcome.Ok? {
      var n := room.value;
      if n < |a.lines| {
        assert (a.lines + b.lines)[..n] == a.lines[..n];
      } else if n - |a.lines| < |b.lines| {
        assert (a.lines + b.lines)[..n] == a.lines + b.lines[..n - |a.lines|];
      }
    }
  }

  /** The file now holds `before` followed by what of `e` a file with `room`
      lines left receives, and `r` is how `e` ends there. */
  predicate Written(now: seq<string>, before: seq<string>, room: Option<nat>, e: Emitted, r: Result<()>) {
    var d := Deliver(e, room);
    now == before + d.lines && r == d.outcome
  }

  /** A generator of `total` that has written `now` is on track and has `rest`
      to go. */
  ghost predicate Resumes(total: Emitted, limit: Option<nat>, before: seq<string>, now: seq<string>, rest: Emitted) {
    before <= now &&
    Deliver(total, Sub(limit, |before|)) == Then(Emitted(now[|before|..], Ok(())), Deliver(rest, Sub(limit, |now|)))
  }

  lemma Start(total: Emitted, limit: Option<nat>, before: seq<string>)
    ensures Resumes(total, limit, before, before, total)
  {
    assert before[|before|..] == [];
  }

  /** One more generator `a` done: on success the rest is `b`; on failure the
      whole generator has ended with that failure. */
  lemma Advance(total: Emitted, limit: Option<nat>, before: seq<string>, mid: seq<string>,
                a: Emitted, b: Emitted, now: seq<string>, r: Result<()>)
    requires Resumes(total, limit, before, mid, Then(a, b))
    requires Written(now, mid, Sub(limit, |mid|), a, r)
    ensures r.Ok? ==> Resumes(total, limit, before, now, b)
    ensures r.Err? ==> Written(now, before, Sub(limit, |before|), total, r)
  {
    var rm := Sub(limit, |mid|);
    var w := Emitted(mid[|before|..], Ok(()));
    var da := Deliver(a, rm);
    DeliverThen(a, b, rm);
    assert now[|before|..] == mid[|before|..] + da.lines;
    if r.Ok? {
      assert da == a;
      assert Sub(rm, |a.lines|) == Sub(limit, |now|);
      ThenAssoc(w, da, Deliver(b, Sub(rm, |a.lines|)));
    }
  }

  lemma Finish(total: Emitted, limit: Option<nat>, before: seq<string>, now: seq<string>)
    requires Resumes(total, limit, before, now, Nothing())
    ensures Written(now, before, Sub(limit, |before|), total, Ok(()))
  {
    assert now == before + now[|before|..];
  }

  /** The last generator done: the rest written, by success or by failure,
      is the whole generator written. */
  lemma Conclude(total: Emitted, limit: Option<nat>, before: seq<string>, mid: seq<string>,
                 rest: Emitted, now: seq<string>, r: Result<()>)
    requires Resumes(total, limit, before, mid, rest)
    requires Written(now, mid, Sub(limit, |mid|), rest, r)
    ensures Written(now, before, Sub(limit, |before|), total, r)
  {
    match rest.outcome {
      case Err(_) =>
      case Ok(u) =>
        assert u == ();
        assert rest.lines + [] == rest.lines;
    }
    assert Then(rest, Nothing()) == rest;
    Advance(total, limit, before, mid, rest, Nothing(), now, r);
    if r.Ok? {
      Finish(total, limit, before, now);
    }
  }

  /** An output file. */
  class File {
    var lines: seq<string>
    const limit: Option<nat>

    constructor (limit: Option<nat>)
      ensures lines == [] && this.limit == limit
    {
      lines := [];
      this.limit := limit;
    }

    function Room(): Option<nat>
      reads this
    {
      Sub(limit, |lines|)
    }

    /** `writeln!`: one line, or the write error once the file is full. */
    method WriteLn(line: string) returns (r: Result<()>)
      modifies this
      ensures Written(lines, old(lines), old(Room()), Line(line), r)
    {
      if limit.Some? && |lines| >= limit.value {
        return Err(WriteFailed);
      }
      lines := lines + [line];
      r := Ok(());
    }
  }

  // ---------------------------------------------------------------------
  // What each generator emits
  // ---------------------------------------------------------------------

  /** `Return::generate`: `li a0, i` when the operand is the integer `i`,
      then `ret`; an operand of any other kind is unimplemented. The operand
      is looked up in the builder's current function. */
  function ReturnAsm(cur: Option<Ir.FunctionData>, ret: Option<Ir.Value>): (e: Emitted)
    ensures e.outcome.Ok? <==>
      ret.None? || (cur.Some? && ret.value < |cur.value.dfg| && cur.value.dfg[ret.value].Integer?)
    ensures e.outcome.Ok? ==> 1 <= |e.lines| <= 2 && e.lines[|e.lines| - 1] == "    ret"
    ensures e.outcome.Err? ==> e.lines == [] && e.outcome.error != WriteFailed
  {
    match ret
    case None => Line("    ret")
    case Some(v) =>
      if cur.None? then Emitted([], Err(NoFunction))
      else if v >= |cur.value.dfg| then Emitted([], Err(NoValue))
      else
        match cur.value.dfg[v]
        case Integer(i) => Then(Line("    li a0, " + IntToString(i)), Line("    ret"))
        case _ => Emitted([], Err(Unimplemented))
  }

  /** One instruction of a block: only a return can be generated. */
  function InstAsm(dfg: seq<Ir.ValueKind>, inst: Ir.Value, cur: Option<Ir.FunctionData>): (e: Emitted)
    requires inst < |dfg|
    ensures e.outcome.Ok? ==> dfg[inst].Return?
    ensures |e.lines| <= 2
    ensures e.outcome.Err? ==> e.lines == [] && e.outcome.error != WriteFailed
  {
    match dfg[inst]
    case Return(ret) => ReturnAsm(cur, ret)
    case _ => Emitted([], Err(Unimplemented))
  }

  function InstsAsm(dfg: seq<Ir.ValueKind>, insts: seq<Ir.Value>, cur: Option<Ir.FunctionData>): (e: Emitted)
    requires forall k :: 0 <= k < |insts| ==> insts[k] < |dfg|
    ensures e.outcome.Err? ==> e.outcome.error != WriteFailed
    ensures |e.lines| <= 2 * |insts|
    decreases |insts|
  {
    if insts == [] then Nothing()
    else Then(InstAsm(dfg, insts[0], cur), InstsAsm(dfg, insts[1..], cur))
  }

  function BlocksAsm(dfg: seq<Ir.ValueKind>, bbs: seq<Ir.BasicBlockNode>, cur: Option<Ir.FunctionData>): (e: Emitted)
    requires forall b :: 0 <= b < |bbs| ==> Ir.BlockOk(bbs[b], |dfg|)
    ensures e.outcome.Err? ==> e.outcome.error != WriteFailed
    decreases |bbs|
  {
    if bbs == [] then Nothing()
    else
      assert Ir.BlockOk(bbs[0], |dfg|);
      Then(InstsAsm(dfg, bbs[0].insts, cur), BlocksAsm(dfg, bbs[1..], cur))
  }

  /** `FunctionData::generate`: the symbol (the name without its prefix
      character) declared global and defined as a label, then every
      instruction of every block in layout order. */
  function FunctionAsm(fd: Ir.FunctionData, cur: Option<Ir.FunctionData>): (e: Emitted)
    requires Ir.FunctionOk(fd)
    ensures |e.lines| >= 2 && e.lines[0] == ".globl " + fd.name[1..] && e.lines[1] == fd.name[1..] + ":"
    ensures e.outcome == BlocksAsm(fd.dfg, fd.bbs, cur).outcome
    ensures e.outcome.Err? ==> e.outcome.error != WriteFailed
  {
    var name := fd.name[1..];
    Then(Line(".globl " + name), Then(Line(name + ":"), BlocksAsm(fd.dfg, fd.bbs, cur)))
  }

  /** The functions in layout order, each generated with itself as the
      builder's current function. */
  function FunctionsAsm(funcs: seq<Ir.FunctionData>): (e: Emitted)
    requires forall f :: 0 <= f < |funcs| ==> Ir.FunctionOk(funcs[f])
    ensures e.outcome.Err? ==> e.outcome.error != WriteFailed
    decreases |funcs|
  {
    if funcs == [] then Nothing()
    else Then(FunctionAsm(funcs[0], Some(funcs[0])), FunctionsAsm(funcs[1..]))
  }

  /** `assemble`: the `.text` directive, then every function. */
  function AssembleAsm(p: Ir.Program): (e: Emitted)
    requires Ir.ProgramOk(p)
    ensures |e.lines| >= 1 && e.lines[0] == ".text"
    ensures e.outcome == FunctionsAsm(p.funcs).outcome
    ensures e.outcome.Err? ==> e.outcome.error != WriteFailed
  {
    Then(Line(".text"), FunctionsAsm(p.funcs))
  }

  // ---------------------------------------------------------------------
  // The generators
  // ---------------------------------------------------------------------

  class AsmBuilder {
    const program: Ir.Program
    var currentFunc: Option<Ir.Function>
    var currentBb: Option<Ir.BasicBlock>

    ghost predicate Valid()
      reads this
    {
      currentFunc.Some? ==> currentFunc.value < |program.funcs|
    }

    constructor (program: Ir.Program)
      ensures Valid() && this.program == program && currentFunc.None? && currentBb.None?
    {
      this.program := program;
      currentFunc := None;
      currentBb := None;
    }

    /** `current_func_data`: the data of the current function, if any. */
    function CurrentFuncData(): (r: Option<Ir.FunctionData>)
      requires Valid()
      reads this
      ensures r.Some? <==> currentFunc.Some?
      ensures r.Some? ==> r.value == program.funcs[currentFunc.value]
    {
      match currentFunc
      case None => None
      case Some(f) => Some(program.funcs[f])
    }

    /** `set_current_func`. */
    method SetCurrentFunc(f: Ir.Function)
      requires f < |program.funcs|
      modifies this
      ensures Valid() && currentFunc == Some(f) && currentBb == old(currentBb)
    {
      currentFunc := Some(f);
    }
  }

  method GenerateReturn(ret: Option<Ir.Value>, builder: AsmBuilder, file: File) returns (r: Result<()>)
    requires builder.Valid()
    modifies file
    ensures Written(file.lines, old(file.lines), old(file.Room()), ReturnAsm(builder.CurrentFuncData(), ret), r)
  {
    ghost var total := ReturnAsm(builder.CurrentFuncData(), ret);
    ghost var before := file.lines;
    Start(total, file.limit, before);
    if ret.Some? {
      var fd := builder.CurrentFuncData();
      if fd.None? {
        return Err(NoFunction);
      }
      if ret.value >= |fd.value.dfg| {
        return Err(NoValue);
      }
      match fd.value.dfg[ret.value] {
        case Integer(i) =>
          ghost var mid := file.lines;
          r := file.WriteLn("    li a0, " + IntToString(i));
          Advance(total, file.limit, before, mid, Line("    li a0, " + IntToString(i)), Line("    ret"), file.lines, r);
          if r.Err? {
            return;
          }
          ghost var mid2 := file.lines;
          r := file.WriteLn("    ret");
          assert Line("    ret") == Then(Line("    ret"), Nothing());
          Advance(total, file.limit, before, mid2, Line("    ret"), Nothing(), file.lines, r);
          if r.Ok? {
            Finish(total, file.limit, before, file.lines);
          }
          return;
        case _ =>
          return Err(Unimplemented);
      }
    }
    r := file.WriteLn("    ret");
  }

  /** The inner loop of `FunctionData::generate`: the instructions of one
      block in order. */
  method GenerateInsts(dfg: seq<Ir.ValueKind>, insts: seq<Ir.Value>, builder: AsmBuilder, file: File) returns (r: Result<()>)
    requires forall k :: 0 <= k < |insts| ==> insts[k] < |dfg|
    requires builder.Valid()
    modifies file
    ensures Written(file.lines, old(file.lines), old(file.Room()), InstsAsm(dfg, insts, builder.CurrentFuncData()), r)
  {
    ghost var cur := builder.CurrentFuncData();
    ghost var total := InstsAsm(dfg, insts, cur);
    ghost var before := file.lines;
    ghost var limit := file.limit;
    Start(total, limit, before);
    assert insts[0..] == insts;
    for k := 0 to |insts|
      invariant Resumes(total, limit, before, file.lines, InstsAsm(dfg, insts[k..], cur))
    {
      var inst := insts[k];
      ghost var mid := file.lines;
      assert insts[k..][1..] == insts[k + 1..];
      match dfg[inst] {
        case Return(v) =>
          r := GenerateReturn(v, builder, file);
        case _ =>
          r := Err(Unimplemented);
      }
      Advance(total, limit, before, mid, InstAsm(dfg, inst, cur), InstsAsm(dfg, insts[k + 1..], cur), file.lines, r);
      if r.Err? {
        return;
      }
    }
    Finish(total, limit, before, file.lines);
    r := Ok(());
  }

  /** The outer loop of `FunctionData::generate`: the blocks of a function in
      layout order, stopping at the first error. */
  method GenerateBlocks(dfg: seq<Ir.ValueKind>, bbs: seq<Ir.BasicBlockNode>, builder: AsmBuilder, file: File) returns (r: Result<()>)
    requires forall b :: 0 <= b < |bbs| ==> Ir.BlockOk(bbs[b], |dfg|)
    requires builder.Valid()
    modifies file
    ensures Written(file.lines, old(file.lines), old(file.Room()), BlocksAsm(dfg, bbs, builder.CurrentFuncData()), r)
  {
    ghost var cur := builder.CurrentFuncData();
    ghost var total := BlocksAsm(dfg, bbs, cur);
    ghost var before := file.lines;
    ghost var limit := file.limit;
    Start(total, limit, before);
    assert bbs[0..] == bbs;
    for b := 0 to |bbs|
      invariant Resumes(total, limit, before, file.lines, BlocksAsm(dfg, bbs[b..], cur))
    {
      assert bbs[b..][1..] == bbs[b + 1..];
      assert Ir.BlockOk(bbs[b], |dfg|);
      ghost var mid := file.lines;
      r := GenerateInsts(dfg, bbs[b].insts, builder, file);
      Advance(total, limit, before, mid, InstsAsm(dfg, bbs[b].insts, cur), BlocksAsm(dfg, bbs[b + 1..], cur), file.lines, r);
      if r.Err? {
        return;
      }
    }
    Finish(total, limit, before, file.lines);
    r := Ok(());
  }

  method GenerateFunction(fd: Ir.FunctionData, builder: AsmBuilder, file: File) returns (r: Result<()>)
    requires Ir.FunctionOk(fd) && builder.Valid()
    modifies file
    ensures Written(file.lines, old(file.lines), old(file.Room()), FunctionAsm(fd, builder.CurrentFuncData()), r)
  {
    ghost var cur := builder.CurrentFuncData();
    ghost var total := FunctionAsm(fd, cur);
    ghost var before := file.lines;
    ghost var limit := file.limit;
    Start(total, limit, before);
    var name := fd.name[1..];
    ghost var mid := file.lines;
    r := file.WriteLn(".globl " + name);
    Advance(total, limit, before, mid, Line(".globl " + name), Then(Line(name + ":"), BlocksAsm(fd.dfg, fd.bbs, cur)), file.lines, r);
    if r.Err? {
      return;
    }
    mid := file.lines;
    r := file.WriteLn(name + ":");
    Advance(total, limit, before, mid, Line(name + ":"), BlocksAsm(fd.dfg, fd.bbs, cur), file.lines, r);
    if r.Err? {
      return;
    }
    mid := file.lines;
    r := GenerateBlocks(fd.dfg, fd.bbs, builder, file);
    Conclude(total, limit, before, mid, BlocksAsm(fd.dfg, fd.bbs, cur), file.lines, r);
  }

  method Assemble(program: Ir.Program, file: File) returns (r: Result<()>)
    requires Ir.ProgramOk(program)
    modifies file
    ensures Written(file.lines, old(file.lines), old(file.Room()), AssembleAsm(program), r)
  {
    ghost var total := AssembleAsm(program);
    ghost var before := file.lines;
    ghost var limit := file.limit;
    Start(total, limit, before);
    r := file.WriteLn(".text");
    Advance(total, limit, before, before, Line(".text"), FunctionsAsm(program.funcs), file.lines, r);
    if r.Err? {
      return;
    }
    var builder := new AsmBuilder(program);
    assert program.funcs[0..] == program.funcs;
    for i := 0 to |program.funcs|
      invariant builder.Valid() && builder.program == program
      invariant Resumes(total, limit, before, file.lines, FunctionsAsm(program.funcs[i..]))
    {
      assert program.funcs[i..][1..] == program.funcs[i + 1..];
      builder.SetCurrentFunc(i);
      ghost var mid := file.lines;
      r := GenerateFunction(program.funcs[i], builder, file);
      Advance(total, limit, before, mid, FunctionAsm(program.funcs[i], Some(program.funcs[i])),
              FunctionsAsm(program.funcs[i + 1..]), file.lines, r);
      if r.Err? {
        return;
      }
    }
    Finish(total, limit, before, file.lines);
    r := Ok(());
  }

  // ---------------------------------------------------------------------
  // What the back end makes of literal returns
  // ---------------------------------------------------------------------

  function LoadLine(n: int): string {
    "    li a0, " + IntToString(n)
  }

  /** The three ways `Return::generate` goes, against its own function: no
      operand writes only `ret`; an integer operand `i` writes `li a0, i`
      and `ret`; any other operand writes nothing and is unimplemented.
      Without a current function the operand cannot be looked up. */
  lemma ReturnCases(fd: Ir.FunctionData, ret: Option<Ir.Value>)
    ensures ret.None? ==> ReturnAsm(Some(fd), ret) == Emitted(["    ret"], Ok(()))
    ensures ret.Some? && ret.value < |fd.dfg| && fd.dfg[ret.value].Integer? ==>
      ReturnAsm(Some(fd), ret) == Emitted([LoadLine(fd.dfg[ret.value].num), "    ret"], Ok(()))
    ensures ret.Some? && ret.value < |fd.dfg| && !fd.dfg[ret.value].Integer? ==>
      ReturnAsm(Some(fd), ret) == Emitted([], Err(Unimplemented))
    ensures ret.Some? ==> ReturnAsm(None, ret) == Emitted([], Err(NoFunction))
  {
  }

  /** An instruction, generated against its own function, succeeds exactly
      when it is a return of nothing or of an integer; a literal return
      becomes `li a0, n` and `ret`. */
  lemma InstAsmSucceeds(fd: Ir.FunctionData, inst: Ir.Value)
    requires inst < |fd.dfg|
    ensures InstAsm(fd.dfg, inst, Some(fd)).outcome.Ok? <==>
      fd.dfg[inst].Return? &&
      (fd.dfg[inst].ret.Some? ==> fd.dfg[inst].ret.value < |fd.dfg| && fd.dfg[fd.dfg[inst].ret.value].Integer?)
    ensures Ir.LiteralReturn(fd.dfg, inst) ==>
      InstAsm(fd.dfg, inst, Some(fd)) == Emitted([LoadLine(Ir.ReturnedLiteral(fd.dfg, inst)), "    ret"], Ok(()))
  {
  }

  /** A block's instructions generate without error exactly when each one
      does on its own. */
  lemma {:induction false} InstsAsmOk(dfg: seq<Ir.ValueKind>, insts: seq<Ir.Value>, cur: Option<Ir.FunctionData>)
    requires forall k :: 0 <= k < |insts| ==> insts[k] < |dfg|
    ensures InstsAsm(dfg, insts, cur).outcome.Ok? <==>
      forall k :: 0 <= k < |insts| ==> InstAsm(dfg, insts[k], cur).outcome.Ok?
    decreases |insts|
  {
    if insts != [] {
      InstsAsmOk(dfg, insts[1..], cur);
      assert forall k :: 1 <= k < |insts| ==> insts[1..][k - 1] == insts[k];
    }
  }

  /** The blocks of a function generate without error exactly when each
      block does. */
  lemma {:induction false} BlocksAsmOk(dfg: seq<Ir.ValueKind>, bbs: seq<Ir.BasicBlockNode>, cur: Option<Ir.FunctionData>)
    requires forall b :: 0 <= b < |bbs| ==> Ir.BlockOk(bbs[b], |dfg|)
    ensures BlocksAsm(dfg, bbs, cur).outcome.Ok? <==>
      forall b :: 0 <= b < |bbs| ==> Ir.BlockOk(bbs[b], |dfg|) && InstsAsm(dfg, bbs[b].insts, cur).outcome.Ok?
    decreases |bbs|
  {
    if bbs != [] {
      BlocksAsmOk(dfg, bbs[1..], cur);
      assert forall b :: 1 <= b < |bbs| ==> bbs[1..][b - 1] == bbs[b];
    }
  }

  /** The functions generate without error exactly when each one does. */
  lemma {:induction false} FunctionsAsmOk(funcs: seq<Ir.FunctionData>)
    requires forall f :: 0 <= f < |funcs| ==> Ir.FunctionOk(funcs[f])
    ensures FunctionsAsm(funcs).outcome.Ok? <==>
      forall f :: 0 <= f < |funcs| ==> Ir.FunctionOk(funcs[f]) && FunctionAsm(funcs[f], Some(funcs[f])).outcome.Ok?
    decreases |funcs|
  {
    if funcs != [] {
      FunctionsAsmOk(funcs[1..]);
      assert forall f :: 1 <= f < |funcs| ==> funcs[1..][f - 1] == funcs[f];
    }
  }

  /** Each load line followed by a `ret`. */
  function RetsLines(loads: seq<string>): seq<string>
    decreases |loads|
  {
    if loads == [] then [] else [loads[0], "    ret"] + RetsLines(loads[1..])
  }

  lemma {:induction false} RetsLinesIndex(loads: seq<string>)
    ensures |RetsLines(loads)| == 2 * |loads|
    ensures forall k :: 0 <= k < |loads| ==>
      RetsLines(loads)[2 * k] == loads[k] && RetsLines(loads)[2 * k + 1] == "    ret"
    decreases |loads|
  {
    if loads != [] {
      var rest := loads[1..];
      RetsLinesIndex(rest);
      var ls := RetsLines(loads);
      var tail := RetsLines(rest);
      assert ls == [loads[0], "    ret"] + tail;
      forall k | 1 <= k < |loads|
        ensures ls[2 * k] == loads[k] && ls[2 * k + 1] == "    ret"
      {
        var j := k - 1;
        assert rest[j] == loads[k];
        assert ls[2 * k] == tail[2 * j] && ls[2 * k + 1] == tail[2 * j + 1];
      }
    }
  }

  /** The load lines of a list of literal returns. */
  function Loads(fd: Ir.FunctionData, insts: seq<Ir.Value>): (loads: seq<string>)
    requires forall k :: 0 <= k < |insts| ==> Ir.LiteralReturn(fd.dfg, insts[k])
    ensures |loads| == |insts|
    ensures forall k :: 0 <= k < |insts| ==> loads[k] == LoadLine(Ir.ReturnedLiteral(fd.dfg, insts[k]))
  {
    seq(|insts|, k requires 0 <= k < |insts| => LoadLine(Ir.ReturnedLiteral(fd.dfg, insts[k])))
  }

  lemma {:induction false} InstsAsmRets(fd: Ir.FunctionData, insts: seq<Ir.Value>)
    requires forall k :: 0 <= k < |insts| ==> insts[k] < |fd.dfg| && Ir.LiteralReturn(fd.dfg, insts[k])
    ensures InstsAsm(fd.dfg, insts, Some(fd)) == Emitted(RetsLines(Loads(fd, insts)), Ok(()))
    decreases |insts|
  {
    if insts != [] {
      InstAsmSucceeds(fd, insts[0]);
      InstsAsmRets(fd, insts[1..]);
      assert Loads(fd, insts)[1..] == Loads(fd, insts[1..]);
    }
  }

  /** A list of literal returns becomes two lines per return, in order. */
  lemma InstsText(fd: Ir.FunctionData, insts: seq<Ir.Value>)
    requires forall k :: 0 <= k < |insts| ==> insts[k] < |fd.dfg| && Ir.LiteralReturn(fd.dfg, insts[k])
    ensures var e := InstsAsm(fd.dfg, insts, Some(fd));
      e.outcome == Ok(()) && |e.lines| == 2 * |insts| &&
      forall k :: 0 <= k < |insts| ==>
        e.lines[2 * k] == LoadLine(Ir.ReturnedLiteral(fd.dfg, insts[k])) && e.lines[2 * k + 1] == "    ret"
  {
    InstsAsmRets(fd, insts);
    RetsLinesIndex(Loads(fd, insts));
  }

  lemma {:induction false} BlocksSucceed(fd: Ir.FunctionData, bbs: seq<Ir.BasicBlockNode>)
    requires forall b :: 0 <= b < |bbs| ==> Ir.BlockOk(bbs[b], |fd.dfg|)
    requires forall b, k :: 0 <= b < |bbs| && 0 <= k < |bbs[b].insts| ==> Ir.LiteralReturn(fd.dfg, bbs[b].insts[k])
    ensures BlocksAsm(fd.dfg, bbs, Some(fd)).outcome == Ok(())
    decreases |bbs|
  {
    if bbs != [] {
      InstsText(fd, bbs[0].insts);
      assert forall b :: 1 <= b < |bbs| ==> bbs[1..][b - 1] == bbs[b];
      BlocksSucceed(fd, bbs[1..]);
    }
  }

  /** A function whose instructions all return literals is generated in
      full: its symbol declared and defined, then, for a one-block function,
      `li a0, n` and `ret` for each return in order. */
  lemma FunctionText(fd: Ir.FunctionData)
    requires Ir.FunctionOk(fd) && Ir.RetsOfLiterals(fd)
    ensures var e := FunctionAsm(fd, Some(fd));
      e.outcome == Ok(()) && |e.lines| >= 2 &&
      e.lines[0] == ".globl " + fd.name[1..] && e.lines[1] == fd.name[1..] + ":"
    ensures |fd.bbs| == 1 ==>
      var e := FunctionAsm(fd, Some(fd));
      var insts := fd.bbs[0].insts;
      |e.lines| == 2 + 2 * |insts| &&
      forall k :: 0 <= k < |insts| ==>
        e.lines[2 + 2 * k] == LoadLine(Ir.ReturnedLiteral(fd.dfg, insts[k])) && e.lines[3 + 2 * k] == "    ret"
  {
    BlocksSucceed(fd, fd.bbs);
    if |fd.bbs| == 1 {
      var insts := fd.bbs[0].insts;
      InstsText(fd, insts);
      assert fd.bbs[1..] == [];
      var body := InstsAsm(fd.dfg, insts, Some(fd));
      assert BlocksAsm(fd.dfg, fd.bbs, Some(fd)).lines == body.lines + [];
      var e := FunctionAsm(fd, Some(fd));
      assert e.lines == [".globl " + fd.name[1..], fd.name[1..] + ":"] + body.lines;
      forall k | 0 <= k < |insts|
        ensures e.lines[2 + 2 * k] == LoadLine(Ir.ReturnedLiteral(fd.dfg, insts[k])) && e.lines[3 + 2 * k] == "    ret"
      {
        assert e.lines[2 + 2 * k] == body.lines[2 * k];
      }
    }
  }

  lemma {:induction false} FunctionsSucceed(funcs: seq<Ir.FunctionData>)
    requires forall f :: 0 <= f < |funcs| ==> Ir.FunctionOk(funcs[f]) && Ir.RetsOfLiterals(funcs[f])
    ensures FunctionsAsm(funcs).outcome == Ok(())
    decreases |funcs|
  {
    if funcs != [] {
      FunctionText(funcs[0]);
      assert forall f :: 1 <= f < |funcs| ==> funcs[1..][f - 1] == funcs[f];
      FunctionsSucceed(funcs[1..]);
    }
  }

  /** A program whose instructions all return literals assembles without
      error, starting with `.text`; on a file with no limit, that is exactly
      what the file receives. */
  lemma AssembleSucceeds(p: Ir.Program)
    requires Ir.ProgramOk(p) && Ir.AllRetsOfLiterals(p)
    ensures AssembleAsm(p).outcome == Ok(()) && AssembleAsm(p).lines[0] == ".text"
    ensures Deliver(AssembleAsm(p), None) == AssembleAsm(p)
  {
    FunctionsSucceed(p.funcs);
  }

  /** `assemble` returns a write error exactly when the file runs out of room
      before the whole text is written; every other error is one of the
      program's own. */
  lemma WriteFailsOnlyWhenFull(p: Ir.Program, room: Option<nat>)
    requires Ir.ProgramOk(p)
    ensures Deliver(AssembleAsm(p), room).outcome == Err(WriteFailed) <==>
      room.Some? && room.value < |AssembleAsm(p).lines|
  {
  }

  /** Whatever comes after, `assemble` writes `.text` first: a file with any
      room at all starts with it. */
  lemma AssembleStartsWithText(p: Ir.Program, room: Option<nat>)
    requires Ir.ProgramOk(p)
    ensures |AssembleAsm(p).lines| >= 1 && AssembleAsm(p).lines[0] == ".text"
    ensures room != Some(0) ==>
      |Deliver(AssembleAsm(p), room).lines| >= 1 && Deliver(AssembleAsm(p), room).lines[0] == ".text"
  {
  }
}
