/** The pulse block: an edge switches the output on for a fixed time. */
module Pulses {
  import opened Avr
  import opened Blocks
  import opened Latches
  import opened Timers

  /** The state of a pulse: two bytes that hold the clock at the last edge, the last good input,
      and the output itself. */
  datatype Pulse = Pulse(start: nat, prev: bool, on: bool)

  function ReadPulse(s: State, tmr: nat, prev: BitVar, out: BitVar): Pulse {
    Pulse(Word(s, tmr), s.GetBit(prev.Reg(), prev.bit), s.GetBit(out.Reg(), out.bit))
  }

  function Kind(fall: bool): Edge { if fall then Falling else Rising }

  /** One scan with the time in 16 bits: a bad input changes nothing; an edge starts the pulse, also
      while one is running; a running pulse ends when its width has passed. */
  function PulseStep(p: Pulse, fall: bool, x: Signal, now: nat, width: nat): Pulse {
    if !x.q then p
    else if Detects(Kind(fall), p.prev, x.v) then Pulse(now, x.v, true)
    else Pulse(p.start, x.v, p.on && (now - p.start) % 0x1_0000 < width)
  }

  function Clock16(s: State, clock: nat): nat {
    ToNat(s.mem(clock)) + 256 * ToNat(s.mem(clock + 1))
  }

  /* ---- the code ---- */

  function TakeInput(x: BitVar, prev: BitVar): seq<Instr> {
    [Alu(Mov(R(16), prev.Reg())), Bst(x.Reg(), x.bit), Bld(prev.Reg(), prev.bit)]
  }

  function FindEdge(id: nat, fall: bool, prev: BitVar): seq<Instr> {
    if !fall then
      [Br(TClear, Label(id, EdgeOut)), Alu(Com(R(16))), Bst(R(16), prev.bit), Br(TClear, Label(id, EdgeOut))]
        + [Set, Lab(Label(id, EdgeOut))]
    else
      [Br(TSet, Label(id, EdgeOutZero)), Bst(R(16), prev.bit), Br(TClear, Label(id, EdgeOut)),
        Br(Always, Label(id, EdgeOut))]
      + [Lab(Label(id, EdgeOutZero)), Clt, Lab(Label(id, EdgeOut))]
  }

  function LoadClock16(clock: nat): seq<Instr> {
    [Alu(Cli), Alu(Lds(R(16), clock)), Alu(Lds(R(17), clock + 1)), Alu(Sei)]
  }

  function PulseTest(id: nat, out: BitVar): seq<Instr> {
    [Br(TSet, Label(id, ResetCounter)), Bst(out.Reg(), out.bit), Br(TClear, Label(id, SkipSetOut))]
  }

  function Elapsed16Code(tmr: nat, d0: Byte, d1: Byte): seq<Instr> {
    [Alu(Sub(R(16), Cell(tmr))), Alu(Sbc(R(17), Cell(tmr + 1))), Alu(Cpi(R(16), d0)), Alu(Sbci(R(17), d1))]
  }

  function PulseVerdict(id: nat): seq<Instr> {
    [Br(CSet, Label(id, SkipSetOut)), Clt, Br(Always, Label(id, SetOut))]
  }

  function PulseStart(id: nat, tmr: nat): seq<Instr> {
    [Lab(Label(id, ResetCounter)), Alu(Mov(Cell(tmr), R(16))), Alu(Mov(Cell(tmr + 1), R(17))), Set]
  }

  function PulseStore(id: nat, out: BitVar): seq<Instr> {
    [Lab(Label(id, SetOut)), Bld(out.Reg(), out.bit), Lab(Label(id, SkipSetOut))]
  }

  function PulseQuality(id: nat, x: BitVar, out: BitVar): seq<Instr> {
    if x.quality then [Set, Lab(Label(id, SetQuality)), Bld(out.Reg(), out.QBit())] else []
  }

  function PulseFront(id: nat, x: BitVar, prev: BitVar, clock: nat, fall: bool): seq<Instr> {
    TakeInput(x, prev) + FindEdge(id, fall, prev) + LoadClock16(clock)
  }

  function PulseBack(id: nat, out: BitVar, tmr: nat, d0: Byte, d1: Byte): seq<Instr> {
    PulseTest(id, out) + Elapsed16Code(tmr, d0, d1) + PulseVerdict(id) + PulseStart(id, tmr) + PulseStore(id, out)
  }

  function PulseCore(id: nat, x: BitVar, out: BitVar, prev: BitVar, tmr: nat, clock: nat, fall: bool, d0: Byte,
      d1: Byte): seq<Instr> {
    PulseFront(id, x, prev, clock, fall) + PulseBack(id, out, tmr, d0, d1)
  }

  function PulseCode(id: nat, x: BitVar, out: BitVar, prev: BitVar, tmr: nat, clock: nat, fall: bool, d0: Byte,
      d1: Byte): seq<Instr> {
    Gate(x, Label(id, SetQuality)) + PulseCore(id, x, out, prev, tmr, clock, fall, d0, d1) + PulseQuality(id, x, out)
  }

  /* ---- what it computes ---- */

  lemma {:induction false} TakeInputRuns(x: BitVar, prev: BitVar, s: State)
    requires x.Valid() && prev.Valid()
    ensures var p := Exec(TakeInput(x, prev), Pass(Running, s));
      && p.mode == Running && p.s.t == Read(s, x).v
      && Sets(s, p.s, prev.addr, prev.bit, Read(s, x).v)
      && p.s.GetBit(R(16), prev.bit) == s.GetBit(prev.Reg(), prev.bit)
  {
    hide Exec, Do;
    Exec3(Alu(Mov(R(16), prev.Reg())), Bst(x.Reg(), x.bit), Bld(prev.Reg(), prev.bit), Pass(Running, s));
    RunAlu(Mov(R(16), prev.Reg()), s);
    var s1 := s.Compute(Mov(R(16), prev.Reg()));
    RunBst(x.Reg(), x.bit, s1);
    RunBld(prev.Reg(), prev.bit, s1.(t := s1.GetBit(x.Reg(), x.bit)));
  }

  lemma {:induction false} FindEdgeRuns(id: nat, fall: bool, prev: BitVar, s: State)
    requires prev.Valid()
    ensures var p := Exec(FindEdge(id, fall, prev), Pass(Running, s));
      p.mode == Running && OnlyChanged(s, p.s, {}) && p.s.t == Detects(Kind(fall), s.GetBit(R(16), prev.bit), s.t)
  {
    hide Exec;
    var out, zero := Label(id, EdgeOut), Label(id, EdgeOutZero);
    var p := Pass(Running, s);
    if !fall {
      var a := [Br(TClear, out), Alu(Com(R(16))), Bst(R(16), prev.bit), Br(TClear, out)];
      ExecAppend(a, [Set, Lab(out)], p);
      Exec4(a[0], a[1], a[2], a[3], p);
      Exec2(Set, Lab(out), Exec(a, p));
    } else {
      var a := [Br(TSet, zero), Bst(R(16), prev.bit), Br(TClear, out), Br(Always, out)];
      ExecAppend(a, [Lab(zero), Clt, Lab(out)], p);
      Exec4(a[0], a[1], a[2], a[3], p);
      Exec3(Lab(zero), Clt, Lab(out), Exec(a, p));
    }
  }

  lemma {:induction false} LoadClock16Runs(clock: nat, s: State)
    ensures var p := Exec(LoadClock16(clock), Pass(Running, s));
      && p.mode == Running && OnlyChanged(s, p.s, {}) && p.s.t == s.t
      && ToNat(p.s.Get(R(16))) + 256 * ToNat(p.s.Get(R(17))) == Clock16(s, clock)
  {
    hide Exec, Do, ToNat, FromNat, State.Compute, State.Get, OnlyChanged, Puts;
    var s1 := s.Compute(Lds(R(16), clock)); var s2 := s1.Compute(Lds(R(17), clock + 1));
    Exec4(Alu(Cli), Alu(Lds(R(16), clock)), Alu(Lds(R(17), clock + 1)), Alu(Sei), Pass(Running, s));
    Interrupts(s);
    Loads(16, clock, s);
    Loads(17, clock + 1, s1);
    Interrupts(s2);
    TwoLoaded(s, s1, s2, s.mem(clock), s1.mem(clock + 1));
  }

  lemma {:induction false} TwoLoaded(s: State, s1: State, s2: State, a: Byte, b: Byte)
    requires Puts(s, s1, 16, a) && Puts(s1, s2, 17, b)
    ensures OnlyChanged(s, s2, {}) && s2.t == s.t && s1.mem == s.mem && s2.Get(R(16)) == a && s2.Get(R(17)) == b
  {
    hide State.Get;
  }

  /** The input is sampled, T tells an edge, and r17:r16 holds the time. */
  lemma {:induction false} PulseFrontRuns(id: nat, x: BitVar, prev: BitVar, clock: nat, fall: bool, s: State)
    requires x.Valid() && prev.Valid()
    ensures var p := Exec(PulseFront(id, x, prev, clock, fall), Pass(Running, s));
      && p.mode == Running && Sets(s, p.s, prev.addr, prev.bit, Read(s, x).v)
      && p.s.t == Detects(Kind(fall), s.GetBit(prev.Reg(), prev.bit), Read(s, x).v)
      && ToNat(p.s.Get(R(16))) + 256 * ToNat(p.s.Get(R(17))) == Clock16(s, clock)
  {
    hide Exec, Do, ToNat, FromNat, Detects;
    var a, b, c := TakeInput(x, prev), FindEdge(id, fall, prev), LoadClock16(clock);
    var p0 := Pass(Running, s);
    ExecAppend(a + b, c, p0);
    ExecAppend(a, b, p0);
    TakeInputRuns(x, prev, s);
    var p1 := Exec(a, p0); var p2 := Exec(b, p1);
    FindEdgeRuns(id, fall, prev, p1.s);
    LoadClock16Runs(clock, p2.s);
  }

  lemma Sub2(a0: nat, a1: nat, m0: nat, m1: nat)
    requires a0 < 256 && a1 < 256 && m0 < 256 && m1 < 256
    ensures var c0 := if a0 < m0 then 1 else 0;
      (a0 - m0) % 256 + 256 * ((a1 - m1 - c0) % 256) == (a0 + 256 * a1 - m0 - 256 * m1) % 0x1_0000
  {
    var c0 := if a0 < m0 then 1 else 0; var c1 := if a1 - m1 - c0 < 0 then 1 else 0;
    assert (a0 - m0) % 256 == a0 - m0 + 256 * c0;
    assert (a1 - m1 - c0) % 256 == a1 - m1 - c0 + 256 * c1;
  }

  lemma {:induction false} Elapsed16Runs(tmr: nat, d0: Byte, d1: Byte, s: State)
    ensures var p := Exec(Elapsed16Code(tmr, d0, d1), Pass(Running, s));
      && p.mode == Running && OnlyChanged(s, p.s, {}) && p.s.t == s.t
      && p.s.c ==
        ((ToNat(s.Get(R(16))) + 256 * ToNat(s.Get(R(17))) - Word(s, tmr)) % 0x1_0000 < ToNat(d0) + 256 * ToNat(d1))
  {
    hide Exec, Do, ToNat, FromNat;
    var c := Elapsed16Code(tmr, d0, d1);
    Exec4(c[0], c[1], c[2], c[3], Pass(Running, s));
    var s1 := Do(c[0], Pass(Running, s)).s; SubRuns(R(16), Cell(tmr), s);
    var s2 := Do(c[1], Pass(Running, s1)).s; SbcRuns(R(17), Cell(tmr + 1), s1);
    var s3 := Do(c[2], Pass(Running, s2)).s; CpiRuns(R(16), d0, s2);
    SbciRuns(R(17), d1, s3);
    Sub2(ToNat(s.Get(R(16))), ToNat(s.Get(R(17))), ToNat(s.Get(Cell(tmr))), ToNat(s.Get(Cell(tmr + 1))));
  }

  lemma {:induction false} PulseTestRuns(id: nat, out: BitVar, s: State)
    ensures Exec(PulseTest(id, out), Pass(Running, s)) ==
      if s.t then Pass(Seeking(Label(id, ResetCounter)), s)
      else if s.GetBit(out.Reg(), out.bit) then Pass(Running, s.(t := true))
        else Pass(Seeking(Label(id, SkipSetOut)), s)
  {
    hide Exec;
    Exec3(Br(TSet, Label(id, ResetCounter)), Bst(out.Reg(), out.bit), Br(TClear, Label(id, SkipSetOut)),
      Pass(Running, s));
    assert !s.t ==> s.(t := false) == s;
  }

  lemma {:induction false} PulseVerdictRuns(id: nat, s: State)
    ensures Exec(PulseVerdict(id), Pass(Running, s)) == if s.c then Pass(Seeking(Label(id, SkipSetOut)), s)
      else Pass(Seeking(Label(id, SetOut)), s.(t := false))
  {
    hide Exec;
    Exec3(Br(CSet, Label(id, SkipSetOut)), Clt, Br(Always, Label(id, SetOut)), Pass(Running, s));
  }

  lemma {:induction false} PulseStartRuns(id: nat, tmr: nat, s: State)
    ensures var p := Exec(PulseStart(id, tmr), Pass(Seeking(Label(id, ResetCounter)), s));
      && p.mode == Running && OnlyChanged(s, p.s, Cells(tmr, 2)) && p.s.t
      && Word(p.s, tmr) == ToNat(s.Get(R(16))) + 256 * ToNat(s.Get(R(17)))
  {
    hide Exec, ToNat, FromNat;
    Exec4(Lab(Label(id, ResetCounter)), Alu(Mov(Cell(tmr), R(16))), Alu(Mov(Cell(tmr + 1), R(17))), Set,
      Pass(Seeking(Label(id, ResetCounter)), s));
  }

  lemma {:induction false} PulseStoreRuns(id: nat, out: BitVar, p: Pass)
    requires out.Valid()
    requires p.mode == Running || p.mode == Seeking(Label(id, SetOut)) || p.mode == Seeking(Label(id, SkipSetOut))
    ensures var p' := Exec(PulseStore(id, out), p);
      p'.mode == Running && if p.mode == Seeking(Label(id, SkipSetOut)) then p'.s == p.s
        else Sets(p.s, p'.s, out.addr, out.bit, p.s.t)
  {
    hide Exec;
    Exec3(Lab(Label(id, SetOut)), Bld(out.Reg(), out.bit), Lab(Label(id, SkipSetOut)), p);
  }

  function PulseMiddle(id: nat, out: BitVar, tmr: nat, d0: Byte, d1: Byte): seq<Instr> {
    PulseTest(id, out) + Elapsed16Code(tmr, d0, d1) + PulseVerdict(id)
  }

  /** Without an edge: leave the output, or switch it off. */
  lemma {:induction false} PulseMiddleRuns(id: nat, out: BitVar, tmr: nat, d0: Byte, d1: Byte, s: State)
    ensures var p := Exec(PulseMiddle(id, out, tmr, d0, d1), Pass(Running, s));
      var over :=
        (ToNat(s.Get(R(16))) + 256 * ToNat(s.Get(R(17))) - Word(s, tmr)) % 0x1_0000 >= ToNat(d0) + 256 * ToNat(d1);
      if s.t then p == Pass(Seeking(Label(id, ResetCounter)), s)
      else if s.GetBit(out.Reg(), out.bit) && over then p.mode == Seeking(Label(id, SetOut)) && OnlyChanged(s, p.s, {})
        && !p.s.t
      else p.mode == Seeking(Label(id, SkipSetOut)) && OnlyChanged(s, p.s, {})
  {
    hide Exec, Do, ToNat, FromNat;
    var a, b, c := PulseTest(id, out), Elapsed16Code(tmr, d0, d1), PulseVerdict(id);
    var p0 := Pass(Running, s);
    ExecAppend(a + b, c, p0);
    ExecAppend(a, b, p0);
    PulseTestRuns(id, out, s);
    var p1 := Exec(a, p0); var p2 := Exec(b, p1);
    if p1.mode == Running {
      Elapsed16Runs(tmr, d0, d1, p1.s);
      PulseVerdictRuns(id, p2.s);
    } else {
      ExecSeeking(b, p1.mode.l, p1.s);
      ExecSeeking(c, p1.mode.l, p1.s);
    }
  }

  lemma {:induction false} PulseBackRuns(id: nat, out: BitVar, tmr: nat, d0: Byte, d1: Byte, s: State)
    requires out.Valid() && (out.addr < tmr || tmr + 2 <= out.addr)
    ensures var p := Exec(PulseBack(id, out, tmr, d0, d1), Pass(Running, s));
      var now := ToNat(s.Get(R(16))) + 256 * ToNat(s.Get(R(17)));
      && p.mode == Running && OnlyChanged(s, p.s, {(out.addr, out.bit)} + Cells(tmr, 2))
      && Word(p.s, tmr) == (if s.t then now else Word(s, tmr))
      && p.s.GetBit(out.Reg(), out.bit) ==
        (s.t || (s.GetBit(out.Reg(), out.bit) && (now - Word(s, tmr)) % 0x1_0000 < ToNat(d0) + 256 * ToNat(d1)))
  {
    hide Exec, Do, ToNat, FromNat;
    var a, b, c := PulseMiddle(id, out, tmr, d0, d1), PulseStart(id, tmr), PulseStore(id, out);
    var p0 := Pass(Running, s);
    ExecAppend(a + b, c, p0);
    ExecAppend(a, b, p0);
    PulseMiddleRuns(id, out, tmr, d0, d1, s);
    var p1 := Exec(a, p0); var p2 := Exec(b, p1);
    if s.t { PulseStartRuns(id, tmr, p1.s); } else { ExecSeeking(b, p1.mode.l, p1.s); }
    PulseStoreRuns(id, out, p2);
    KeepsWord(p2.s, Exec(c, p2).s, out, tmr);
    if !s.t { KeepsWord(s, p1.s, out, tmr); }
  }

  lemma KeepsWord(s: State, s': State, out: BitVar, tmr: nat)
    requires OnlyChanged(s, s', {(out.addr, out.bit)}) && (out.addr < tmr || tmr + 2 <= out.addr)
    ensures Word(s', tmr) == Word(s, tmr)
  {
    SameCell(s, s', {(out.addr, out.bit)}, tmr);
    SameCell(s, s', {(out.addr, out.bit)}, tmr + 1);
  }

  ghost predicate Apart(out: BitVar, prev: BitVar, tmr: nat) {
    && (prev.addr, prev.bit) !in out.Foot()
    && (out.addr < tmr || tmr + 2 <= out.addr) && (prev.addr < tmr || tmr + 2 <= prev.addr)
  }

  lemma {:induction false} PulseCoreRuns(id: nat, x: BitVar, out: BitVar, prev: BitVar, tmr: nat, clock: nat,
      fall: bool, d0: Byte, d1: Byte, s: State)
    requires x.Valid() && out.Valid() && prev.Valid() && out.quality && Apart(out, prev, tmr)
    ensures var p := Exec(PulseCore(id, x, out, prev, tmr, clock, fall, d0, d1), Pass(Running, s));
      && p.mode == Running && OnlyChanged(s, p.s, {(prev.addr, prev.bit)} + ({(out.addr, out.bit)} + Cells(tmr, 2)))
      && ReadPulse(p.s, tmr, prev, out) ==
        PulseStep(ReadPulse(s, tmr, prev, out), fall, Signal(Read(s, x).v, true), Clock16(s, clock),
          ToNat(d0) + 256 * ToNat(d1))
  {
    hide Exec, Do, ToNat, FromNat, Detects;
    var a, b := PulseFront(id, x, prev, clock, fall), PulseBack(id, out, tmr, d0, d1);
    ExecAppend(a, b, Pass(Running, s));
    PulseFrontRuns(id, x, prev, clock, fall, s);
    var p1 := Exec(a, Pass(Running, s)); var p2 := Exec(b, p1);
    PulseBackRuns(id, out, tmr, d0, d1, p1.s);
    KeepsWord(s, p1.s, prev, tmr);
    ChangedTrans(s, p1.s, p2.s, {(prev.addr, prev.bit)}, {(out.addr, out.bit)} + Cells(tmr, 2));
    assert (out.addr, out.bit) in out.Foot();
    assert (out.addr, out.bit) !in {(prev.addr, prev.bit)};
    assert p1.s.GetBit(out.Reg(), out.bit) == s.GetBit(out.Reg(), out.bit);
    assert (prev.addr, prev.bit) !in {(out.addr, out.bit)} + Cells(tmr, 2);
  }

  lemma {:induction false} PulseQualityRuns(id: nat, x: BitVar, out: BitVar, p: Pass)
    requires out.Valid() && out.quality
    requires p.mode == Running || (p.mode == Seeking(Label(id, SetQuality)) && x.quality && !p.s.t)
    ensures var p' := Exec(PulseQuality(id, x, out), p);
      p'.mode == Running && if x.quality then Sets(p.s, p'.s, out.addr, out.QBit(), p.mode == Running) else p'.s == p.s
  {
    hide Exec;
    if x.quality { Exec3(Set, Lab(Label(id, SetQuality)), Bld(out.Reg(), out.QBit()), p); } else { ExecNil(p); }
  }

  lemma {:induction false} PulseCoreSkips(id: nat, x: BitVar, out: BitVar, prev: BitVar, tmr: nat, clock: nat,
      fall: bool, d0: Byte, d1: Byte, s: State)
    ensures var p := Pass(Seeking(Label(id, SetQuality)), s);
      Exec(PulseCore(id, x, out, prev, tmr, clock, fall, d0, d1), p) == p
  {
    hide Exec;
    ExecSeeking(PulseCore(id, x, out, prev, tmr, clock, fall, d0, d1), Label(id, SetQuality), s);
  }

  /** Up to the quality: a bad input comes out looking for the last part. */
  lemma {:induction false} SameChanged(s: State, b: bool, own: set<(nat, nat)>)
    ensures OnlyChanged(s, s.(t := b), own)
  {
  }

  /** The flag T is no part of what the block holds. */
  lemma {:induction false} TApart(s: State, b: bool, x: BitVar, out: BitVar, prev: BitVar, tmr: nat, clock: nat)
    ensures var s1 := s.(t := b);
      && Read(s1, x) == Read(s, x) && ReadPulse(s1, tmr, prev, out) == ReadPulse(s, tmr, prev, out)
      && Clock16(s1, clock) == Clock16(s, clock)
    ensures forall s', own :: OnlyChanged(s.(t := b), s', own) ==> OnlyChanged(s, s', own)
  {
    hide ToNat;
  }

  lemma {:induction false} PulseGatedRuns(id: nat, x: BitVar, out: BitVar, prev: BitVar, tmr: nat, clock: nat,
      fall: bool, d0: Byte, d1: Byte, s: State)
    requires x.Valid() && out.Valid() && prev.Valid() && out.quality && Apart(out, prev, tmr)
    ensures var p := Exec(Gate(x, Label(id, SetQuality)) + PulseCore(id, x, out, prev, tmr, clock, fall, d0, d1),
      Pass(Running, s));
      && p.mode == (if Read(s, x).q then Running else Seeking(Label(id, SetQuality))) && (!Read(s, x).q ==> !p.s.t)
      && OnlyChanged(s, p.s, {(prev.addr, prev.bit)} + ({(out.addr, out.bit)} + Cells(tmr, 2)))
      && ReadPulse(p.s, tmr, prev, out) ==
        PulseStep(ReadPulse(s, tmr, prev, out), fall, Read(s, x), Clock16(s, clock), ToNat(d0) + 256 * ToNat(d1))
  {
    hide Exec, Do, ToNat, FromNat, Detects, PulseCore, Gate, Apart;
    var g, a := Gate(x, Label(id, SetQuality)), PulseCore(id, x, out, prev, tmr, clock, fall, d0, d1);
    ExecAppend(g, a, Pass(Running, s));
    GateRuns(x, Label(id, SetQuality), s);
    var p1 := Exec(g, Pass(Running, s));
    assert p1.s == s.(t := p1.s.t);
    TApart(s, p1.s.t, x, out, prev, tmr, clock);
    SameChanged(s, p1.s.t, {(prev.addr, prev.bit)} + ({(out.addr, out.bit)} + Cells(tmr, 2)));
    hide ReadPulse, Clock16, Read, OnlyChanged, Cells;
    if p1.mode == Running {
      PulseCoreRuns(id, x, out, prev, tmr, clock, fall, d0, d1, p1.s);
    } else {
      PulseCoreSkips(id, x, out, prev, tmr, clock, fall, d0, d1, p1.s);
    }
  }

  /** Writing the quality bit of the output leaves the pulse alone. */
  lemma {:induction false} QualityKeeps(x: BitVar, out: BitVar, prev: BitVar, tmr: nat, s: State, s2: State, s3: State,
      good: bool)
    requires out.Valid() && prev.Valid() && out.quality && Apart(out, prev, tmr)
    requires OnlyChanged(s, s2, {(prev.addr, prev.bit)} + ({(out.addr, out.bit)} + Cells(tmr, 2)))
    requires if x.quality then Sets(s2, s3, out.addr, out.QBit(), good) else s3 == s2
    ensures ReadPulse(s3, tmr, prev, out) == ReadPulse(s2, tmr, prev, out)
    ensures OnlyChanged(s, s3, out.Foot() + {(prev.addr, prev.bit)} + Cells(tmr, 2))
    ensures s3.GetBit(out.Reg(), out.QBit()) == if x.quality then good else s.GetBit(out.Reg(), out.QBit())
  {
    hide State.Get;
    assert OnlyChanged(s2, s3, {(out.addr, out.QBit())});
    KeepsWord(s2, s3, BitVar(out.addr, out.QBit(), false), tmr);
    assert (prev.addr, prev.bit) !in {(out.addr, out.QBit())};
    assert (out.addr, out.bit) !in {(out.addr, out.QBit())};
    assert (out.addr, out.QBit()) !in {(prev.addr, prev.bit)} + ({(out.addr, out.bit)} + Cells(tmr, 2));
  }

  lemma {:induction false} PulseYields(id: nat, x: BitVar, out: BitVar, prev: BitVar, tmr: nat, clock: nat, fall: bool,
      d0: Byte, d1: Byte, s: State)
    requires x.Valid() && out.Valid() && prev.Valid() && out.quality && Apart(out, prev, tmr)
    ensures var xs, p := Read(s, x), PulseStep(ReadPulse(s, tmr, prev, out), fall, Read(s, x), Clock16(s, clock),
      ToNat(d0) + 256 * ToNat(d1));
      && Yields(PulseCode(id, x, out, prev, tmr, clock, fall, d0, d1), s, out,
           Signal(p.on, if x.quality then xs.q else Read(s, out).q),
          out.Foot() + {(prev.addr, prev.bit)} + Cells(tmr, 2))
      && ReadPulse(Exec(PulseCode(id, x, out, prev, tmr, clock, fall, d0, d1), Pass(Running, s)).s, tmr, prev, out) == p
  {
    hide Exec, Do, ToNat, FromNat, Detects, PulseCore, PulseStep, Gate, Word, State.Get, OnlyChanged, PulseQuality;
    var ga, b := Gate(x, Label(id, SetQuality)) + PulseCore(id, x, out, prev, tmr, clock, fall, d0, d1),
      PulseQuality(id, x, out);
    ExecAppend(ga, b, Pass(Running, s));
    PulseGatedRuns(id, x, out, prev, tmr, clock, fall, d0, d1, s);
    var p2 := Exec(ga, Pass(Running, s)); var p3 := Exec(b, p2);
    PulseQualityRuns(id, x, out, p2);
    QualityKeeps(x, out, prev, tmr, s, p2.s, p3.s, p2.mode == Running);
  }
}
