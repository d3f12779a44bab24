/** RS trigger, edge detectors and bit outputs. */
module Latches {
  import opened Options
  import opened Avr
  import opened Blocks

  function ReadOpt(s: State, x: Option<BitVar>): Option<Signal> {
    if x.Some? then Some(Read(s, x.value)) else None
  }

  function GateOpt(x: Option<BitVar>, l: Label): seq<Instr> {
    if x.Some? then Gate(x.value, l) else []
  }

  /* ---- RS trigger ---- */

  function ResetPart(r: Option<BitVar>, store: Label): seq<Instr> {
    if r.Some? then
      [Alu(Ldi(R(24), OneBit(r.value.bit))), Alu(Eor(R(24), r.value.Reg())), Bst(R(24), r.value.bit), Br(TClear, store)]
    else []
  }

  function SetPart(x: Option<BitVar>, id: nat): seq<Instr> {
    if x.Some? then [Bst(x.value.Reg(), x.value.bit), Br(TSet, Label(id, Store)), Br(Always, Label(id, WriteQ))] else []
  }

  /** Inputs without a quality bit; with two of them nothing can be bad. */
  predicate NeverBad(x: Option<BitVar>, r: Option<BitVar>) {
    x.Some? && r.Some? && !x.value.quality && !r.value.quality
  }

  function BadPart(id: nat, x: Option<BitVar>, r: Option<BitVar>, out: BitVar): seq<Instr> {
    if NeverBad(x, r) then [] else [Lab(Label(id, BadQuality)), Bld(out.Reg(), out.QBit()), Br(Always, Label(id, End))]
  }

  function StorePart(id: nat, out: BitVar): seq<Instr> {
    [Lab(Label(id, Store)), Bld(out.Reg(), out.bit)] + [Lab(Label(id, WriteQ)), Set, Bld(out.Reg(), out.QBit())]
  }

  function EndPart(id: nat, x: Option<BitVar>, r: Option<BitVar>): seq<Instr> {
    if NeverBad(x, r) then [] else [Lab(Label(id, End))]
  }

  function RsTailCode(id: nat, x: Option<BitVar>, r: Option<BitVar>, out: BitVar): seq<Instr> {
    BadPart(id, x, r, out) + StorePart(id, out) + EndPart(id, x, r)
  }

  function RsCode(id: nat, x: Option<BitVar>, r: Option<BitVar>, out: BitVar): seq<Instr> {
    GateOpt(r, Label(id, BadQuality)) + GateOpt(x, Label(id, BadQuality)) + ResetPart(r, Label(id, Store))
      + SetPart(x, id)
    + BadPart(id, x, r, out) + StorePart(id, out) + EndPart(id, x, r)
  }

  /** Reset dominates; a bad input leaves the value and clears the quality. */
  function RsResult(x: Option<Signal>, r: Option<Signal>, was: Signal): Signal {
    if (r.Some? && !r.value.q) || (x.Some? && !x.value.q) then Signal(was.v, false)
    else if r.Some? && r.value.v then Signal(false, true)
    else if x.Some? && x.value.v then Signal(true, true)
    else Signal(was.v, true)
  }

  lemma GateOptRuns(x: Option<BitVar>, l: Label, s: State)
    requires x.Some? ==> x.value.Valid()
    ensures Exec(GateOpt(x, l), Pass(Running, s)) ==
      if x.None? || !x.value.quality then Pass(Running, s)
      else if Read(s, x.value).q then Pass(Running, s.(t := true)) else Pass(Seeking(l), s.(t := false))
  {
    if x.Some? { GateRuns(x.value, l, s); }
  }

  /** The inverted reset bit is in register 24. */
  lemma {:induction false} ResetBit(x: BitVar, s: State)
    requires x.Valid()
    ensures var s2 := s.Compute(Ldi(R(24), OneBit(x.bit))).Compute(Eor(R(24), x.Reg()));
      s2.GetBit(R(24), x.bit) == !Read(s, x).v && OnlyChanged(s, s2, {})
  {
    hide ToNat, FromNat;
    var s1 := s.Put(R(24), OneBit(x.bit));
    assert s1.GetBit(R(24), x.bit) && s1.Get(x.Reg()) == s.Get(x.Reg());
  }

  lemma {:induction false} ResetPartRuns(r: Option<BitVar>, store: Label, s: State)
    requires r.Some? ==> r.value.Valid()
    ensures var p := Exec(ResetPart(r, store), Pass(Running, s));
      && OnlyChanged(s, p.s, {})
      && p.mode == (if r.Some? && Read(s, r.value).v then Seeking(store) else Running)
      && p.s.t == if r.Some? then !Read(s, r.value).v else s.t
  {
    hide Exec, Do, ToNat, FromNat, OneBit;
    if r.Some? {
      var x := r.value;
      var ldi, eor := Ldi(R(24), OneBit(x.bit)), Eor(R(24), x.Reg());
      Exec4(Alu(ldi), Alu(eor), Bst(R(24), x.bit), Br(TClear, store), Pass(Running, s));
      var s1 := s.Compute(ldi);
      var s2 := s1.Compute(eor);
      ResetBit(x, s);
      RunAlu(ldi, s);
      RunAlu(eor, s1);
      RunBst(R(24), x.bit, s2);
      RunBranch(TClear, store, s2.(t := s2.GetBit(R(24), x.bit)));
    } else {
      ExecNil(Pass(Running, s));
    }
  }

  lemma SetPartRuns(x: Option<BitVar>, id: nat, s: State)
    requires x.Some? ==> x.value.Valid()
    ensures Exec(SetPart(x, id), Pass(Running, s)) ==
      if x.None? then Pass(Running, s)
      else Pass(Seeking(Label(id, if Read(s, x.value).v then Store else WriteQ)), s.(t := Read(s, x.value).v))
  {
    if x.Some? {
      Exec3(Bst(x.value.Reg(), x.value.bit), Br(TSet, Label(id, Store)), Br(Always, Label(id, WriteQ)),
        Pass(Running, s));
    }
  }

  lemma StorePartRuns(id: nat, out: BitVar, p: Pass)
    ensures p.mode == Seeking(Label(id, Store)) ==>
      Exec(StorePart(id, out), p) == Pass(Running, Write(p.s, out, Signal(p.s.t, true)).(t := true))
    ensures p.mode == Seeking(Label(id, WriteQ)) ==>
      Exec(StorePart(id, out), p) == Pass(Running, p.s.(t := true).PutBit(out.Reg(), out.QBit(), true))
    ensures p.mode == Seeking(Label(id, End)) ==> Exec(StorePart(id, out), p) == p
  {
    var head, tail := [Lab(Label(id, Store)), Bld(out.Reg(), out.bit)],
      [Lab(Label(id, WriteQ)), Set, Bld(out.Reg(), out.QBit())];
    ExecAppend(head, tail, p);
    Exec2(head[0], head[1], p);
    Exec3(tail[0], tail[1], tail[2], Exec(head, p));
  }

  /** The last three parts, entered on the way to one of their labels, or by falling through when
      there is no set input. */
  lemma RsTail(id: nat, x: Option<BitVar>, r: Option<BitVar>, out: BitVar, p: Pass)
    requires p.mode == Running ==> x.None?
    requires p.mode == Running || p.mode == Seeking(Label(id, Store)) || p.mode == Seeking(Label(id, WriteQ))
      || (p.mode == Seeking(Label(id, BadQuality)) && !NeverBad(x, r))
    ensures var p' := Exec(RsTailCode(id, x, r, out), p);
      && p'.mode == Running
      && (p.mode == Seeking(Label(id, Store)) ==> p'.s == Write(p.s, out, Signal(p.s.t, true)).(t := true))
      && (p.mode == Seeking(Label(id, WriteQ)) ==> p'.s == p.s.(t := true).PutBit(out.Reg(), out.QBit(), true))
      && (p.mode == Running || p.mode == Seeking(Label(id, BadQuality)) ==>
           p'.s == p.s.PutBit(out.Reg(), out.QBit(), p.s.t))
  {
    var bad, store, end := BadPart(id, x, r, out), StorePart(id, out), EndPart(id, x, r);
    ExecAppend(bad + store, end, p);
    ExecAppend(bad, store, p);
    if bad != [] { Exec3(bad[0], bad[1], bad[2], p); }
    var p1 := Exec(bad, p);
    StorePartRuns(id, out, p1);
    if end != [] { Exec1(end[0], Exec(store, p1)); }
  }

  function RsHead(id: nat, x: Option<BitVar>, r: Option<BitVar>): seq<Instr> {
    GateOpt(r, Label(id, BadQuality)) + GateOpt(x, Label(id, BadQuality)) + ResetPart(r, Label(id, Store))
      + SetPart(x, id)
  }

  predicate IsBad(x: Option<Signal>) { x.Some? && !x.value.q }

  lemma RsGates(id: nat, x: Option<BitVar>, r: Option<BitVar>, s: State)
    requires (x.Some? ==> x.value.Valid()) && (r.Some? ==> r.value.Valid())
    ensures var p := Exec(GateOpt(r, Label(id, BadQuality)) + GateOpt(x, Label(id, BadQuality)), Pass(Running, s));
      if IsBad(ReadOpt(s, r)) || IsBad(ReadOpt(s, x)) then p == Pass(Seeking(Label(id, BadQuality)), s.(t := false))
        && !NeverBad(x, r)
      else p.mode == Running && p.s == s.(t := p.s.t)
  {
    var bad := Label(id, BadQuality);
    ExecAppend(GateOpt(r, bad), GateOpt(x, bad), Pass(Running, s));
    GateOptRuns(r, bad, s);
    GateOptRuns(x, bad, s);
    GateOptRuns(x, bad, s.(t := true));
    if IsBad(ReadOpt(s, r)) { ExecSeeking(GateOpt(x, bad), bad, s.(t := false)); }
  }

  lemma {:induction false} RsPartsRun(id: nat, x: Option<BitVar>, r: Option<BitVar>, s: State)
    requires (x.Some? ==> x.value.Valid()) && (r.Some? ==> r.value.Valid()) && (x.Some? || r.Some?)
    ensures var p := Exec(ResetPart(r, Label(id, Store)) + SetPart(x, id), Pass(Running, s));
      && OnlyChanged(s, p.s, {})
      && if r.Some? && Read(s, r.value).v then p.mode == Seeking(Label(id, Store)) && !p.s.t
         else if x.Some? then p.mode == Seeking(Label(id, if Read(s, x.value).v then Store else WriteQ))
           && p.s.t == Read(s, x.value).v
         else p.mode == Running && p.s.t
  {
    hide Exec, Do;
    var a, b, p := ResetPart(r, Label(id, Store)), SetPart(x, id), Pass(Running, s);
    ExecAppend(a, b, p);
    ResetPartRuns(r, Label(id, Store), s);
    var p1 := Exec(a, p);
    if p1.mode == Running { SetPartRuns(x, id, p1.s); } else { ExecSeeking(b, Label(id, Store), p1.s); }
  }

  lemma {:induction false} RsHeadRuns(id: nat, x: Option<BitVar>, r: Option<BitVar>, s: State)
    requires (x.Some? ==> x.value.Valid()) && (r.Some? ==> r.value.Valid()) && (x.Some? || r.Some?)
    ensures var p, xs, rs := Exec(RsHead(id, x, r), Pass(Running, s)), ReadOpt(s, x), ReadOpt(s, r);
      && OnlyChanged(s, p.s, {})
      && if IsBad(rs) || IsBad(xs) then p.mode == Seeking(Label(id, BadQuality)) && !p.s.t && !NeverBad(x, r)
         else if rs.Some? && rs.value.v then p.mode == Seeking(Label(id, Store)) && !p.s.t
         else if xs.Some? then p.mode == Seeking(Label(id, if xs.value.v then Store else WriteQ)) && p.s.t == xs.value.v
         else p.mode == Running && p.s.t
  {
    hide Exec, Do, GateOpt;
    var bad := Label(id, BadQuality);
    var g, a := GateOpt(r, bad) + GateOpt(x, bad), ResetPart(r, Label(id, Store)) + SetPart(x, id);
    assert RsHead(id, x, r) == g + a;
    ExecAppend(g, a, Pass(Running, s));
    RsGates(id, x, r, s);
    var p1 := Exec(g, Pass(Running, s));
    if p1.mode == Running { RsPartsRun(id, x, r, p1.s); } else { ExecSeeking(a, bad, p1.s); }
  }

  lemma RsYields(id: nat, x: Option<BitVar>, r: Option<BitVar>, out: BitVar, s: State)
    requires x.Some? || r.Some?
    requires (x.Some? ==> x.value.Valid()) && (r.Some? ==> r.value.Valid()) && out.Valid() && out.quality
    ensures Yields(RsCode(id, x, r, out), s, out, RsResult(ReadOpt(s, x), ReadOpt(s, r), Read(s, out)), out.Foot())
  {
    var code, tail := RsCode(id, x, r, out), RsTailCode(id, x, r, out);
    assert code == RsHead(id, x, r) + tail;
    ExecAppend(RsHead(id, x, r), tail, Pass(Running, s));
    RsHeadRuns(id, x, r, s);
    var p := Exec(RsHead(id, x, r), Pass(Running, s));
    RsTail(id, x, r, out, p);
    if p.mode == Seeking(Label(id, Store)) {
      WriteYields(code, s, p.s, out, Signal(p.s.t, true), out.Foot(), true);
    } else if p.mode == Seeking(Label(id, WriteQ)) {
      WriteQualityYields(code, s, p.s.(t := true), out, true, out.Foot());
    } else {
      WriteQualityYields(code, s, p.s, out, p.s.t, out.Foot());
    }
  }

  /* ---- edge detectors ---- */

  datatype Edge = Rising | Falling | Both

  predicate Detects(kind: Edge, prev: bool, now: bool) {
    match kind
    case Rising => !prev && now
    case Falling => prev && !now
    case Both => prev != now
  }

  /** Keeps the previous input in r24, and stores the present one, which is also left in T. */
  function Sample(x: BitVar, prev: BitVar): seq<Instr> {
    [Bst(prev.Reg(), prev.bit), Bld(R(24), x.bit), Bst(x.Reg(), x.bit), Bld(prev.Reg(), prev.bit)]
  }

  lemma {:induction false} SampleRuns(x: BitVar, prev: BitVar, s: State)
    requires x.Valid() && prev.Valid()
    ensures var p := Exec(Sample(x, prev), Pass(Running, s));
      && p.mode == Running && p.s.t == Read(s, x).v
      && p.s.GetBit(R(24), x.bit) == s.GetBit(prev.Reg(), prev.bit)
      && p.s.GetBit(prev.Reg(), prev.bit) == Read(s, x).v && p.s.GetBit(x.Reg(), x.bit) == Read(s, x).v
      && OnlyChanged(s, p.s, {(prev.addr, prev.bit)})
  {
    hide Exec, Do, State.Get;
    Exec4(Bst(prev.Reg(), prev.bit), Bld(R(24), x.bit), Bst(x.Reg(), x.bit), Bld(prev.Reg(), prev.bit),
      Pass(Running, s));
    SampleFirst(x, prev, s);
    SampleSecond(x, prev, Do(Bld(R(24), x.bit), Do(Bst(prev.Reg(), prev.bit), Pass(Running, s))).s);
  }

  lemma {:induction false} SampleFirst(x: BitVar, prev: BitVar, s: State)
    requires x.Valid() && prev.Valid()
    ensures var p := Do(Bld(R(24), x.bit), Do(Bst(prev.Reg(), prev.bit), Pass(Running, s)));
      && p.mode == Running && OnlyChanged(s, p.s, {})
      && p.s.GetBit(R(24), x.bit) == s.GetBit(prev.Reg(), prev.bit) && Read(p.s, x).v == Read(s, x).v
  {
    hide Do;
    RunBst(prev.Reg(), prev.bit, s);
    RunBld(R(24), x.bit, s.(t := s.GetBit(prev.Reg(), prev.bit)));
  }

  lemma SampleSecond(x: BitVar, prev: BitVar, s: State)
    requires x.Valid() && prev.Valid()
    ensures var p := Do(Bld(prev.Reg(), prev.bit), Do(Bst(x.Reg(), x.bit), Pass(Running, s)));
      && p.mode == Running && p.s.t == Read(s, x).v
      && p.s.Get(R(24)) == s.Get(R(24))
      && p.s.GetBit(prev.Reg(), prev.bit) == Read(s, x).v && p.s.GetBit(x.Reg(), x.bit) == Read(s, x).v
      && OnlyChanged(s, p.s, {(prev.addr, prev.bit)})
  {
    BldSets(s.(t := Read(s, x).v), prev.addr, prev.bit);
  }

  function Diff(x: BitVar, out: BitVar): seq<Instr> {
    [Alu(Eor(R(24), x.Reg())), Bst(R(24), x.bit), Bld(out.Reg(), out.bit)]
  }

  lemma {:induction false} DiffRuns(x: BitVar, out: BitVar, s: State)
    requires x.Valid() && out.Valid()
    ensures var p := Exec(Diff(x, out), Pass(Running, s));
      p.mode == Running && Sets(s, p.s, out.addr, out.bit, s.GetBit(R(24), x.bit) != Read(s, x).v)
  {
    hide Exec, Do, Xor;
    Exec3(Alu(Eor(R(24), x.Reg())), Bst(R(24), x.bit), Bld(out.Reg(), out.bit), Pass(Running, s));
    var s1 := s.Compute(Eor(R(24), x.Reg()));
    var s2 := s1.(t := s1.GetBit(R(24), x.bit));
    RunAlu(Eor(R(24), x.Reg()), s);
    RunBst(R(24), x.bit, s1);
    EorIs(R(24), x.Reg(), x.bit, s);
    hide State.Compute;
    ChangedTrans(s, s1, s2, {}, {});
    BldSets(s2, out.addr, out.bit);
  }

  lemma {:induction false} EorIs(r: Reg, x: Reg, k: nat, s: State)
    requires r.R? && k < 8
    ensures var s1 := s.Compute(Eor(r, x));
      s1.GetBit(r, k) == (s.GetBit(r, k) != s.GetBit(x, k)) && OnlyChanged(s, s1, {})
  {
  }

  function EdgeTest(id: nat, kind: Edge): seq<Instr> {
    match kind
    case Rising => [Br(TClear, Label(id, SetZero))]
    case Falling => [Br(TSet, Label(id, SetZero))]
    case Both => []
  }

  function EdgeNone(id: nat, kind: Edge, out: BitVar): seq<Instr> {
    if kind == Both then []
    else
      [Br(Always, Label(id, SetGood)), Lab(Label(id, SetZero)), Clt]
      + [Bld(out.Reg(), out.bit), Lab(Label(id, SetGood))]
  }

  lemma EdgeTestRuns(id: nat, kind: Edge, s: State)
    ensures Exec(EdgeTest(id, kind), Pass(Running, s)) ==
      Pass(if (kind == Rising && !s.t) || (kind == Falling && s.t) then Seeking(Label(id, SetZero)) else Running, s)
  {
    if kind != Both { Exec1(EdgeTest(id, kind)[0], Pass(Running, s)); }
  }

  lemma EdgeNoneRuns(id: nat, kind: Edge, out: BitVar, s: State)
    requires out.Valid()
    ensures Exec(EdgeNone(id, kind, out), Pass(Running, s)) == Pass(Running, s)
    ensures kind != Both ==> var p := Exec(EdgeNone(id, kind, out), Pass(Seeking(Label(id, SetZero)), s));
      p.mode == Running && Sets(s, p.s, out.addr, out.bit, false)
  {
    if kind != Both {
      var zero, good := Label(id, SetZero), Label(id, SetGood);
      var mid, end := [Br(Always, good), Lab(zero), Clt], [Bld(out.Reg(), out.bit), Lab(good)];
      var p, p' := Pass(Running, s), Pass(Seeking(zero), s);
      ExecAppend(mid, end, p);
      ExecAppend(mid, end, p');
      Exec3(mid[0], mid[1], mid[2], p);
      Exec3(mid[0], mid[1], mid[2], p');
      Exec2(end[0], end[1], Exec(mid, p));
      Exec2(end[0], end[1], Exec(mid, p'));
      BldSets(s.(t := false), out.addr, out.bit);
    }
  }

  function EdgeBody(id: nat, kind: Edge, x: BitVar, out: BitVar): seq<Instr> {
    EdgeTest(id, kind) + Diff(x, out) + EdgeNone(id, kind, out)
  }

  /** After the sampling, the body stores whether there was an edge. */
  lemma EdgeBodyRuns(id: nat, kind: Edge, x: BitVar, out: BitVar, s: State)
    requires x.Valid() && out.Valid() && s.t == Read(s, x).v
    ensures var p := Exec(EdgeBody(id, kind, x, out), Pass(Running, s));
      p.mode == Running && Sets(s, p.s, out.addr, out.bit, Detects(kind, s.GetBit(R(24), x.bit), Read(s, x).v))
  {
    var a, b, c := EdgeTest(id, kind), Diff(x, out), EdgeNone(id, kind, out);
    var p := Pass(Running, s);
    ExecAppend(a + b, c, p);
    ExecAppend(a, b, p);
    EdgeTestRuns(id, kind, s);
    var p1 := Exec(a, p);
    if p1.mode == Running {
      DiffRuns(x, out, s);
      EdgeNoneRuns(id, kind, out, Exec(b, p1).s);
    } else {
      ExecSeeking(b, Label(id, SetZero), s);
      EdgeNoneRuns(id, kind, out, s);
    }
  }

  function EdgeCode(id: nat, kind: Edge, x: BitVar, prev: BitVar, out: BitVar): seq<Instr> {
    EdgeFront(id, kind, x, prev, out) + [Set, Lab(Label(id, BadQuality)), Bld(out.Reg(), out.QBit())]
  }

  function EdgeFront(id: nat, kind: Edge, x: BitVar, prev: BitVar, out: BitVar): seq<Instr> {
    Gate(x, Label(id, BadQuality)) + Sample(x, prev) + EdgeBody(id, kind, x, out)
  }

  function EdgeResult(kind: Edge, x: Signal, prev: bool, was: Signal): Signal {
    Signal(if x.q then Detects(kind, prev, x.v) else was.v, x.q)
  }

  lemma {:induction false} EdgeYields(id: nat, kind: Edge, x: BitVar, prev: BitVar, out: BitVar, s: State)
    requires x.Valid() && prev.Valid() && out.Valid() && out.quality && (prev.addr, prev.bit) !in out.Foot()
    ensures Yields(EdgeCode(id, kind, x, prev, out), s, out,
      EdgeResult(kind, Read(s, x), s.GetBit(prev.Reg(), prev.bit), Read(s, out)),
      out.Foot() + {(prev.addr, prev.bit)})
    ensures Exec(EdgeCode(id, kind, x, prev, out), Pass(Running, s)).s.GetBit(prev.Reg(), prev.bit) ==
      if Read(s, x).q then Read(s, x).v else s.GetBit(prev.Reg(), prev.bit)
  {
    hide Exec;
    var bad, own := Label(id, BadQuality), out.Foot() + {(prev.addr, prev.bit)};
    var code, front, end := EdgeCode(id, kind, x, prev, out), EdgeFront(id, kind, x, prev, out),
      [Set, Lab(bad), Bld(out.Reg(), out.QBit())];
    var p := Exec(front, Pass(Running, s));
    ExecAppend(front, end, Pass(Running, s));
    EdgeFrontRuns(id, kind, x, prev, out, s);
    Exec3(end[0], end[1], end[2], p);
    WriteQualityYields(code, s, p.s.(t := Read(s, x).q), out, Read(s, x).q, own);
  }

  lemma {:induction false} EdgeFrontRuns(id: nat, kind: Edge, x: BitVar, prev: BitVar, out: BitVar, s: State)
    requires x.Valid() && prev.Valid() && out.Valid() && out.quality && (prev.addr, prev.bit) !in out.Foot()
    ensures var p := Exec(EdgeFront(id, kind, x, prev, out), Pass(Running, s));
      && OnlyChanged(s, p.s, out.Foot() + {(prev.addr, prev.bit)})
      && (!Read(s, x).q ==> p == Pass(Seeking(Label(id, BadQuality)), s.(t := false)))
      && (Read(s, x).q ==> p.mode == Running && p.s.GetBit(prev.Reg(), prev.bit) == Read(s, x).v)
      && (Read(s, x).q ==>
           p.s.GetBit(out.Reg(), out.bit) == Detects(kind, s.GetBit(prev.Reg(), prev.bit), Read(s, x).v))
  {
    hide Exec, Do;
    var bad := Label(id, BadQuality);
    var g, a, b := Gate(x, bad), Sample(x, prev), EdgeBody(id, kind, x, out);
    var p0 := Pass(Running, s);
    ExecAppend(g + a, b, p0);
    ExecAppend(g, a, p0);
    GateRuns(x, bad, s);
    var p1 := Exec(g, p0); var p2 := Exec(a, p1);
    if p1.mode != Running {
      ExecSeeking(a, bad, p1.s);
      ExecSeeking(b, bad, p1.s);
    } else {
      SampleRuns(x, prev, p1.s);
      EdgeBodyRuns(id, kind, x, out, p2.s);
      ChangedTrans(s, p2.s, Exec(b, p2).s, {(prev.addr, prev.bit)}, {(out.addr, out.bit)});
    }
  }

  /* ---- bit outputs ---- */

  function OutQuality(x: BitVar, out: BitVar): seq<Instr> {
    if !out.quality then [] else if x.quality then [Bld(out.Reg(), out.QBit())] else [Set, Bld(out.Reg(), out.QBit())]
  }

  function OutValue(x: BitVar, inverted: bool, out: BitVar): seq<Instr> {
    (if inverted then Inverted(x) else [Bst(x.Reg(), x.bit)]) + [Bld(out.Reg(), out.bit)]
  }

  function OutBad(id: nat, x: BitVar, inverted: bool, out: BitVar): seq<Instr> {
    var safe := if out.quality then [Bld(out.Reg(), out.QBit())] else if inverted then [Set, Bld(out.Reg(), out.bit)]
      else [Bld(out.Reg(), out.bit)];
    if !x.quality then [] else [Br(Always, Label(id, End)), Lab(Label(id, BadQuality))] + safe + [Lab(Label(id, End))]
  }

  function OutCode(id: nat, x: BitVar, inverted: bool, out: BitVar): seq<Instr> {
    Gate(x, Label(id, BadQuality)) + OutQuality(x, out) + OutValue(x, inverted, out) + OutBad(id, x, inverted, out)
  }

  /** A bad input holds an output that has a quality bit, and switches off one that has none. */
  function OutResult(x: Signal, inverted: bool, outQuality: bool, was: Signal): Signal {
    if x.q then Signal(x.v != inverted, true)
    else if outQuality then Signal(was.v, false)
    else Signal(inverted, true)
  }

  lemma OutQualityRuns(x: BitVar, out: BitVar, s: State)
    requires x.Valid() && out.Valid() && (x.quality ==> s.t)
    ensures var p := Exec(OutQuality(x, out), Pass(Running, s));
      && p.mode == Running
      && (if out.quality then Sets(s, p.s, out.addr, out.QBit(), true) else OnlyChanged(s, p.s, {}))
  {
    if out.quality {
      if x.quality { Exec1(Bld(out.Reg(), out.QBit()), Pass(Running, s)); }
      else { Exec2(Set, Bld(out.Reg(), out.QBit()), Pass(Running, s)); }
      BldSets(s.(t := true), out.addr, out.QBit());
      assert s.t ==> s == s.(t := true);
    }
  }

  lemma OutValueRuns(x: BitVar, inverted: bool, out: BitVar, s: State)
    requires x.Valid() && out.Valid()
    ensures var p := Exec(OutValue(x, inverted, out), Pass(Running, s));
      p.mode == Running && Sets(s, p.s, out.addr, out.bit, Read(s, x).v != inverted)
  {
    var read := if inverted then Inverted(x) else [Bst(x.Reg(), x.bit)];
    ExecAppend(read, [Bld(out.Reg(), out.bit)], Pass(Running, s));
    if inverted { InvertedRuns(x, s); } else { Exec1(Bst(x.Reg(), x.bit), Pass(Running, s)); }
    Exec1(Bld(out.Reg(), out.bit), Exec(read, Pass(Running, s)));
    BldSets(s.(t := Read(s, x).v != inverted), out.addr, out.bit);
  }

  lemma OutBadRuns(id: nat, x: BitVar, inverted: bool, out: BitVar, s: State)
    requires out.Valid()
    ensures Exec(OutBad(id, x, inverted, out), Pass(Running, s)) == Pass(Running, s)
    ensures x.quality && !s.t ==> var p := Exec(OutBad(id, x, inverted, out), Pass(Seeking(Label(id, BadQuality)), s));
      p.mode == Running && if out.quality then Sets(s, p.s, out.addr, out.QBit(), false)
        else Sets(s, p.s, out.addr, out.bit, inverted)
  {
    if x.quality {
      var bad, end := Label(id, BadQuality), Label(id, End);
      var head := [Br(Always, end), Lab(bad)];
      var mid := if out.quality then [Bld(out.Reg(), out.QBit())] else if inverted then [Set, Bld(out.Reg(), out.bit)]
        else [Bld(out.Reg(), out.bit)];
      OutBadUnrolled(head, mid, [Lab(end)], Pass(Running, s));
      OutBadUnrolled(head, mid, [Lab(end)], Pass(Seeking(bad), s));
      ExecSeeking(mid, end, s);
      Exec2(head[0], head[1], Pass(Running, s));
      Exec2(head[0], head[1], Pass(Seeking(bad), s));
      var p := Exec(mid, Pass(Running, s));
      Exec1(Lab(end), p);
      Exec1(Lab(end), Pass(Seeking(end), s));
      if out.quality || !inverted {
        Exec1(mid[0], Pass(Running, s));
      } else {
        Exec2(mid[0], mid[1], Pass(Running, s));
      }
      BldSets(s.(t := !out.quality && inverted), out.addr, if out.quality then out.QBit() else out.bit);
      assert !s.t ==> s == s.(t := false);
    }
  }

  lemma OutBadUnrolled(a: seq<Instr>, b: seq<Instr>, c: seq<Instr>, p: Pass)
    ensures Exec(a + b + c, p) == Exec(c, Exec(b, Exec(a, p)))
  {
    ExecAppend(a + b, c, p);
    ExecAppend(a, b, p);
  }

  lemma {:induction false} OutYields(id: nat, x: BitVar, inverted: bool, out: BitVar, s: State)
    requires x.Valid() && out.Valid() && x.Foot() !! out.Foot()
    ensures Yields(OutCode(id, x, inverted, out), s, out, OutResult(Read(s, x), inverted, out.quality, Read(s, out)),
      out.Foot())
  {
    hide Exec, Do, Gate, OutBad;
    var g, q, v, b := Gate(x, Label(id, BadQuality)), OutQuality(x, out), OutValue(x, inverted, out),
      OutBad(id, x, inverted, out);
    var p0 := Pass(Running, s);
    ExecAppend(g + q + v, b, p0);
    ExecAppend(g + q, v, p0);
    ExecAppend(g, q, p0);
    GateRuns(x, Label(id, BadQuality), s);
    var p1 := Exec(g, p0);
    if Read(s, x).q {
      var p2 := Exec(q, p1); var p3 := Exec(v, p2);
      OutQualityRuns(x, out, p1.s);
      assert (x.addr, x.bit) in x.Foot();
      OutValueRuns(x, inverted, out, p2.s);
      OutBadRuns(id, x, inverted, out, p3.s);
    } else {
      ExecSeeking(q, Label(id, BadQuality), p1.s);
      ExecSeeking(v, Label(id, BadQuality), p1.s);
      OutBadRuns(id, x, inverted, out, p1.s);
    }
  }
}
