/** The schedule block: its code loops over a table of times, so it is run on the machine itself. */
module Timetable {
  import opened Options
  import opened Avr
  import opened Blocks
  import opened Latches
  import opened Programs

  /** The block's variables: hour and its quality byte, minute and second are bytes; the table lies at `origin`. */
  datatype Timer = Timer(hour: nat, hourQ: nat, min: nat, sec: nat, active: Byte, origin: nat, size: nat) {
    /** The loop counter is a byte, and the table lies in the 16-bit address space. */
    predicate Valid() {
      0 < size < 256 && origin + 2 * size < 0x1_0000
    }
  }

  function FrontCode(id: nat, en: Option<BitVar>, t: Timer): seq<Instr> {
    [Clt, Alu(Tst(Cell(t.hourQ))), Br(ZSet, Label(id, BadQuality))] + EnabledCode(id, en)
    + [Alu(Cpi(Cell(t.sec), t.active)), Br(CClear, Label(id, CopyT)), Br(Always, Label(id, LoopSetup))]
  }

  function EnabledCode(id: nat, en: Option<BitVar>): seq<Instr> {
    if en.None? then []
    else Gate(en.value, Label(id, BadQuality)) + [Bst(en.value.Reg(), en.value.bit), Br(TClear, Label(id, CopyT)), Clt]
  }

  function BadCode(id: nat, out: BitVar): seq<Instr> {
    [Lab(Label(id, BadQuality)), Bld(out.Reg(), out.QBit()), Br(Always, Label(id, BlockExit))]
  }

  function SetupCode(id: nat, t: Timer): seq<Instr> {
    [Lab(Label(id, LoopSetup)), Alu(Ldi(R(18), FromNat(t.size))), Alu(Ldi(R(30), FromNat(t.origin))),
      Alu(Ldi(R(31), FromNat(t.origin / 256)))]
  }

  function LookCode(id: nat, off: nat, with: nat): seq<Instr> {
    [Alu(Ldd(R(19), off)), Cpse(R(19), Cell(with)), Br(Always, Label(id, LoopContinue))]
  }

  function LoopBody(id: nat, t: Timer): seq<Instr> {
    [Lab(Label(id, Loop))] + LookCode(id, 0, t.hour) + LookCode(id, 1, t.min) + [Set, Br(Always, Label(id, CopyT))]
    + [Lab(Label(id, LoopContinue)), Alu(AdiwZ(2)), Alu(Dec(R(18)))]
  }

  function CopyCode(id: nat, out: BitVar): seq<Instr> {
    [Lab(Label(id, CopyT)), Bld(out.Reg(), out.bit)] + [Set, Bld(out.Reg(), out.QBit()), Lab(Label(id, BlockExit))]
  }

  function HeadCode(id: nat, en: Option<BitVar>, out: BitVar, t: Timer): seq<Instr> {
    FrontCode(id, en, t) + BadCode(id, out) + SetupCode(id, t)
  }

  function ScheduleCode(id: nat, en: Option<BitVar>, out: BitVar, t: Timer): seq<Instr> {
    HeadCode(id, en, out, t) + LoopBody(id, t) + [Br(ZClear, Label(id, Loop))] + CopyCode(id, out)
  }

  /** Entry `i` of the table is the present hour and minute. */
  predicate Matches(s: State, t: Timer, i: nat) {
    s.mem(t.origin + 2 * i) == s.Get(Cell(t.hour)) && s.mem(t.origin + 2 * i + 1) == s.Get(Cell(t.min))
  }

  ghost predicate Due(s: State, t: Timer, from: nat) {
    exists i: nat :: from <= i < t.size && Matches(s, t, i)
  }

  /** Bad time or a bad enable input clears the quality only; otherwise the output tells whether the
      block is enabled, within the active seconds, and in a minute of the table. */
  ghost function ScheduleResult(s: State, en: Option<Signal>, out: Signal, t: Timer): Signal {
    if s.Get(Cell(t.hourQ)) == ZERO || IsBad(en) then Signal(out.v, false)
    else Signal((en.Some? ==> en.value.v) && ToNat(s.Get(Cell(t.sec))) < ToNat(t.active) && Due(s, t, 0), true)
  }

  /* ---- the parts ---- */

  lemma {:induction false} EnabledRuns(id: nat, en: Option<BitVar>, s: State)
    requires (en.Some? ==> en.value.Valid()) && !s.t
    ensures var p, e := Exec(EnabledCode(id, en), Pass(Running, s)), ReadOpt(s, en);
      p == Pass(if IsBad(e) then Seeking(Label(id, BadQuality))
        else if e.Some? && !e.value.v then Seeking(Label(id, CopyT)) else Running, s)
  {
    hide Exec;
    if en.Some? {
      var g, b := Gate(en.value, Label(id, BadQuality)),
        [Bst(en.value.Reg(), en.value.bit), Br(TClear, Label(id, CopyT)), Clt];
      ExecAppend(g, b, Pass(Running, s));
      GateRuns(en.value, Label(id, BadQuality), s);
      var p := Exec(g, Pass(Running, s));
      if p.mode == Running { Exec3(b[0], b[1], b[2], p); } else { ExecSeeking(b, Label(id, BadQuality), p.s); }
      assert s.(t := false) == s;
    } else {
      ExecNil(Pass(Running, s));
    }
  }

  lemma {:induction false} SecondRuns(id: nat, t: Timer, s: State)
    ensures var p := Exec([Alu(Cpi(Cell(t.sec), t.active)), Br(CClear, Label(id, CopyT)),
      Br(Always, Label(id, LoopSetup))], Pass(Running, s));
      && p.mode == Seeking(Label(id, if ToNat(s.Get(Cell(t.sec))) < ToNat(t.active) then LoopSetup else CopyT))
      && p.s.regs == s.regs && p.s.mem == s.mem && p.s.t == s.t
  {
    hide Exec, ToNat, FromNat;
    Exec3(Alu(Cpi(Cell(t.sec), t.active)), Br(CClear, Label(id, CopyT)), Br(Always, Label(id, LoopSetup)),
      Pass(Running, s));
  }

  lemma {:induction false} QualityRuns(id: nat, t: Timer, s: State)
    ensures var p := Exec([Clt, Alu(Tst(Cell(t.hourQ))), Br(ZSet, Label(id, BadQuality))], Pass(Running, s));
      && p.mode == (if s.Get(Cell(t.hourQ)) == ZERO then Seeking(Label(id, BadQuality)) else Running)
      && p.s.regs == s.regs && p.s.mem == s.mem && !p.s.t
  {
    hide Exec;
    Exec3(Clt, Alu(Tst(Cell(t.hourQ))), Br(ZSet, Label(id, BadQuality)), Pass(Running, s));
  }

  /** Where the front of the code jumps to; T is 0 then. */
  function FrontExit(s: State, en: Option<Signal>, t: Timer): Name {
    if s.Get(Cell(t.hourQ)) == ZERO || IsBad(en) then BadQuality
    else if (en.Some? && !en.value.v) || ToNat(s.Get(Cell(t.sec))) >= ToNat(t.active) then CopyT
    else LoopSetup
  }

  lemma {:induction false} FrontRuns(id: nat, en: Option<BitVar>, t: Timer, s: State)
    requires en.Some? ==> en.value.Valid()
    ensures var p := Exec(FrontCode(id, en, t), Pass(Running, s));
      p.mode == Seeking(Label(id, FrontExit(s, ReadOpt(s, en), t))) && p.s.regs == s.regs && p.s.mem == s.mem && !p.s.t
  {
    hide Exec, ToNat, FromNat;
    var a, b, c := [Clt, Alu(Tst(Cell(t.hourQ))), Br(ZSet, Label(id, BadQuality))], EnabledCode(id, en),
      [Alu(Cpi(Cell(t.sec), t.active)), Br(CClear, Label(id, CopyT)), Br(Always, Label(id, LoopSetup))];
    var p0 := Pass(Running, s);
    ExecAppend(a + b, c, p0);
    ExecAppend(a, b, p0);
    QualityRuns(id, t, s);
    var p1 := Exec(a, p0); var p2 := Exec(b, p1);
    if p1.mode == Running { EnabledRuns(id, en, p1.s); } else { ExecSeeking(b, Label(id, BadQuality), p1.s); }
    if p2.mode == Running { SecondRuns(id, t, p2.s); } else { ExecSeeking(c, p2.mode.l, p2.s); }
  }

  lemma {:induction false} BadRuns(id: nat, out: BitVar, s: State, name: Name)
    requires out.Valid() && out.quality && !s.t && name != BadQuality
    ensures var p := Exec(BadCode(id, out), Pass(Seeking(Label(id, BadQuality)), s));
      p.mode == Seeking(Label(id, BlockExit)) && Sets(s, p.s, out.addr, out.QBit(), false)
    ensures Exec(BadCode(id, out), Pass(Seeking(Label(id, name)), s)) == Pass(Seeking(Label(id, name)), s)
  {
    hide Exec;
    Exec3(Lab(Label(id, BadQuality)), Bld(out.Reg(), out.QBit()), Br(Always, Label(id, BlockExit)),
      Pass(Seeking(Label(id, BadQuality)), s));
    ExecSeeking(BadCode(id, out), Label(id, name), s);
  }

  /** At the head of the loop with `left` entries to look at. */
  ghost predicate AtEntry(s: State, s': State, t: Timer, left: nat) {
    && OnlyChanged(s, s', {}) && !s'.t && left <= t.size
    && ToNat(s'.Get(R(18))) == left && s'.ZAddress() == t.origin + 2 * (t.size - left)
  }

  lemma {:induction false} SetupRuns(id: nat, t: Timer, s: State, name: Name)
    requires t.Valid() && !s.t && name != LoopSetup
    ensures var p := Exec(SetupCode(id, t), Pass(Seeking(Label(id, LoopSetup)), s));
      p.mode == Running && AtEntry(s, p.s, t, t.size)
    ensures Exec(SetupCode(id, t), Pass(Seeking(Label(id, name)), s)) == Pass(Seeking(Label(id, name)), s)
  {
    hide Exec, ToNat, FromNat;
    var c := SetupCode(id, t);
    Exec4(c[0], c[1], c[2], c[3], Pass(Seeking(Label(id, LoopSetup)), s));
    ExecSeeking(c, Label(id, name), s);
  }

  lemma {:induction false} HeadRuns(id: nat, en: Option<BitVar>, out: BitVar, t: Timer, s: State)
    requires (en.Some? ==> en.value.Valid()) && out.Valid() && out.quality && t.Valid()
    ensures var p := Exec(HeadCode(id, en, out, t), Pass(Running, s));
      match FrontExit(s, ReadOpt(s, en), t)
      case BadQuality => p.mode == Seeking(Label(id, BlockExit)) && Sets(s, p.s, out.addr, out.QBit(), false)
      case CopyT => p.mode == Seeking(Label(id, CopyT)) && OnlyChanged(s, p.s, {}) && !p.s.t
      case _ => p.mode == Running && AtEntry(s, p.s, t, t.size)
  {
    hide Exec, Do, ToNat, FromNat;
    var a, b, c := FrontCode(id, en, t), BadCode(id, out), SetupCode(id, t);
    var p0 := Pass(Running, s);
    ExecAppend(a + b, c, p0);
    ExecAppend(a, b, p0);
    FrontRuns(id, en, t, s);
    var p1 := Exec(a, p0); var p2 := Exec(b, p1);
    if p1.mode.l.name == BadQuality {
      BadRuns(id, out, p1.s, CopyT);
      ExecSeeking(c, Label(id, BlockExit), p2.s);
    } else {
      BadRuns(id, out, p1.s, p1.mode.l.name);
      SetupRuns(id, t, p1.s, CopyT);
    }
  }

  /* ---- the loop ---- */

  lemma {:induction false} LookRuns(id: nat, off: nat, with: nat, s: State)
    ensures var p := Exec(LookCode(id, off, with), Pass(Running, s));
      && p.mode == (if s.mem(s.ZAddress() + off) == s.Get(Cell(with)) then Running
           else Seeking(Label(id, LoopContinue)))
      && p.s == s.Put(R(19), s.mem(s.ZAddress() + off))
    ensures Exec(LookCode(id, off, with), Pass(Seeking(Label(id, LoopContinue)), s)) ==
      Pass(Seeking(Label(id, LoopContinue)), s)
  {
    hide Exec, ToNat, FromNat;
    Exec3(Alu(Ldd(R(19), off)), Cpse(R(19), Cell(with)), Br(Always, Label(id, LoopContinue)), Pass(Running, s));
    ExecSeeking(LookCode(id, off, with), Label(id, LoopContinue), s);
  }

  /** Register 19 is scratch: what else there is stays. */
  ghost predicate SameBut19(s: State, s': State) {
    s'.mem == s.mem && s'.t == s.t && forall r :: r != R(19) ==> s'.Get(r) == s.Get(r)
  }

  lemma {:induction false} LooksRun(id: nat, t: Timer, s: State)
    ensures var p := Exec([Lab(Label(id, Loop))] + LookCode(id, 0, t.hour) + LookCode(id, 1, t.min), Pass(Running, s));
      && p.mode == (if s.mem(s.ZAddress()) == s.Get(Cell(t.hour))
           && s.mem(s.ZAddress() + 1) == s.Get(Cell(t.min)) then Running
                    else Seeking(Label(id, LoopContinue)))
      && SameBut19(s, p.s)
  {
    hide Exec, ToNat, FromNat;
    var a, b, c := [Lab(Label(id, Loop))], LookCode(id, 0, t.hour), LookCode(id, 1, t.min);
    ExecAppend(a + b, c, Pass(Running, s));
    ExecAppend(a, b, Pass(Running, s));
    Exec1(Lab(Label(id, Loop)), Pass(Running, s));
    LookRuns(id, 0, t.hour, s);
    LookRuns(id, 1, t.min, Exec(b, Pass(Running, s)).s);
  }

  lemma {:induction false} AdvanceRuns(id: nat, s: State)
    requires ToNat(s.Get(R(18))) > 0 && s.ZAddress() + 2 < 0x1_0000
    ensures var p := Exec([Lab(Label(id, LoopContinue)), Alu(AdiwZ(2)), Alu(Dec(R(18)))],
      Pass(Seeking(Label(id, LoopContinue)), s));
      && p.mode == Running && OnlyChanged(s, p.s, {}) && p.s.t == s.t && p.s.ZAddress() == s.ZAddress() + 2
      && ToNat(p.s.Get(R(18))) == ToNat(s.Get(R(18))) - 1 && p.s.z == (ToNat(s.Get(R(18))) == 1)
  {
    hide *;
    var s1 := s.Compute(AdiwZ(2));
    Exec3(Lab(Label(id, LoopContinue)), Alu(AdiwZ(2)), Alu(Dec(R(18))), Pass(Seeking(Label(id, LoopContinue)), s));
    RunFound(Label(id, LoopContinue), s);
    RunAlu(AdiwZ(2), s);
    RunAlu(Dec(R(18)), s1);
    PointsOn(s);
    CountsDown(s1);
    ChangedTrans(s, s1, s1.Compute(Dec(R(18))), {}, {});
    var none: set<(nat, nat)> := {};
    assert none + none == none;
  }

  lemma {:induction false} PointsOn(s: State)
    requires s.ZAddress() + 2 < 0x1_0000
    ensures var s1 := s.Compute(AdiwZ(2));
      OnlyChanged(s, s1, {}) && s1.t == s.t && s1.ZAddress() == s.ZAddress() + 2 && s1.Get(R(18)) == s.Get(R(18))
  {
    hide FromNat, ToNat;
  }

  lemma {:induction false} CountsDown(s: State)
    requires ToNat(s.Get(R(18))) > 0
    ensures var s1 := s.Compute(Dec(R(18)));
      && OnlyChanged(s, s1, {}) && s1.t == s.t && s1.ZAddress() == s.ZAddress()
      && ToNat(s1.Get(R(18))) == ToNat(s.Get(R(18))) - 1 && s1.z == (ToNat(s.Get(R(18))) == 1)
  {
    hide FromNat, ToNat;
    ZeroIs(s.Compute(Dec(R(18))).Get(R(18)));
  }

  lemma ZeroIs(b: Byte)
    ensures b == ZERO <==> ToNat(b) == 0
  {
    ZeroValue();
    if ToNat(b) == 0 { ValInjective(b, ZERO); }
  }

  /** One round: a matching entry sets T and leaves the loop, another one is passed over. */
  lemma {:induction false} BodyRuns(id: nat, t: Timer, s0: State, s: State, left: nat)
    requires t.Valid() && 0 < left && AtEntry(s0, s, t, left)
    ensures var p := Exec(LoopBody(id, t), Pass(Running, s));
      if Matches(s0, t, t.size - left) then p.mode == Seeking(Label(id, CopyT)) && OnlyChanged(s0, p.s, {}) && p.s.t
      else p.mode == Running && AtEntry(s0, p.s, t, left - 1) && p.s.z == (left == 1)
  {
    hide Exec, ToNat, FromNat;
    var a, b, c := [Lab(Label(id, Loop))] + LookCode(id, 0, t.hour) + LookCode(id, 1, t.min),
      [Set, Br(Always, Label(id, CopyT))],
      [Lab(Label(id, LoopContinue)), Alu(AdiwZ(2)), Alu(Dec(R(18)))];
    var p0 := Pass(Running, s);
    ExecAppend(a + b, c, p0);
    ExecAppend(a, b, p0);
    LooksRun(id, t, s);
    SameCell(s0, s, {}, t.hour);
    SameCell(s0, s, {}, t.min);
    var p1 := Exec(a, p0);
    if p1.mode == Running {
      Exec2(Set, Br(Always, Label(id, CopyT)), p1);
      ExecSeeking(c, Label(id, CopyT), p1.s.(t := true));
    } else {
      ExecSeeking(b, Label(id, LoopContinue), p1.s);
      assert p1.s.ZAddress() == s.ZAddress();
      AdvanceRuns(id, p1.s);
    }
  }

  lemma {:induction false} CopyRuns(id: nat, out: BitVar, s: State)
    requires out.Valid() && out.quality
    ensures var p := Exec(CopyCode(id, out), Pass(Running, s));
      p.mode == Running && Read(p.s, out) == Signal(s.t, true) && OnlyChanged(s, p.s, out.Foot())
  {
    hide Exec;
    var a, b := [Lab(Label(id, CopyT)), Bld(out.Reg(), out.bit)],
      [Set, Bld(out.Reg(), out.QBit()), Lab(Label(id, BlockExit))];
    ExecAppend(a, b, Pass(Running, s));
    Exec2(a[0], a[1], Pass(Running, s));
    Exec3(b[0], b[1], b[2], Exec(a, Pass(Running, s)));
  }

  /* ---- on the machine ---- */

  lemma {:induction false} FrontJumpsOut(id: nat, en: Option<BitVar>, t: Timer)
    ensures Marks(FrontCode(id, en, t)) == {}
    ensures Jumps(FrontCode(id, en, t), {Label(id, BadQuality), Label(id, CopyT), Label(id, LoopSetup)})
  {
    hide Find, FromNat, ToNat, Jumps, Marks, Gate;
    var a, b, c := [Clt, Alu(Tst(Cell(t.hourQ))), Br(ZSet, Label(id, BadQuality))], EnabledCode(id, en),
      [Alu(Cpi(Cell(t.sec), t.active)), Br(CClear, Label(id, CopyT)), Br(Always, Label(id, LoopSetup))];
    Straight(a, {Label(id, BadQuality)});
    Straight(c, {Label(id, CopyT), Label(id, LoopSetup)});
    EnabledJumpsOut(id, en);
    MarksAppend(a, b);
    MarksAppend(a + b, c);
    JumpsAppend(a, b, {Label(id, BadQuality)}, {Label(id, BadQuality), Label(id, CopyT)});
    var outs := {Label(id, BadQuality), Label(id, CopyT)};
    assert {Label(id, BadQuality)} - Marks(b) + outs == outs;
    JumpsAppend(a + b, c, outs, {Label(id, CopyT), Label(id, LoopSetup)});
    assert outs - Marks(c) + {Label(id, CopyT), Label(id, LoopSetup)} ==
      {Label(id, BadQuality), Label(id, CopyT), Label(id, LoopSetup)};
  }

  lemma {:induction false} EnabledJumpsOut(id: nat, en: Option<BitVar>)
    ensures Marks(EnabledCode(id, en)) == {} && Jumps(EnabledCode(id, en), {Label(id, BadQuality), Label(id, CopyT)})
  {
    hide Find, Jumps, Marks;
    Straight(EnabledCode(id, en), {Label(id, BadQuality), Label(id, CopyT)});
  }

  lemma {:induction false} BadSetupJumpsOut(id: nat, out: BitVar, t: Timer)
    ensures Marks(BadCode(id, out)) == {Label(id, BadQuality)} && Marks(SetupCode(id, t)) == {Label(id, LoopSetup)}
    ensures Jumps(BadCode(id, out), {Label(id, BlockExit)}) && Jumps(SetupCode(id, t), {})
  {
    hide Find, FromNat, ToNat;
    assert BadCode(id, out)[0] == Lab(Label(id, BadQuality)) && SetupCode(id, t)[0] == Lab(Label(id, LoopSetup));
  }

  lemma {:induction false} HeadJumpsOut(id: nat, en: Option<BitVar>, out: BitVar, t: Timer)
    ensures Marks(HeadCode(id, en, out, t)) == {Label(id, BadQuality), Label(id, LoopSetup)}
    ensures Jumps(HeadCode(id, en, out, t), {Label(id, CopyT), Label(id, BlockExit)})
  {
    hide Jumps, Marks, FrontCode, BadCode, SetupCode, Find, FromNat, ToNat;
    var a, b, c := FrontCode(id, en, t), BadCode(id, out), SetupCode(id, t);
    FrontJumpsOut(id, en, t);
    BadSetupJumpsOut(id, out, t);
    MarksAppend(a, b);
    MarksAppend(a + b, c);
    var outs := {Label(id, BadQuality), Label(id, CopyT), Label(id, LoopSetup)};
    JumpsAppend(a, b, outs, {Label(id, BlockExit)});
    JumpsAppend(a + b, c, outs - Marks(b) + {Label(id, BlockExit)}, {});
    assert outs - Marks(b) + {Label(id, BlockExit)} - Marks(c) + {} == {Label(id, CopyT), Label(id, BlockExit)};
  }

  lemma {:induction false} BodyJumpsOut(id: nat, t: Timer)
    ensures Marks(LoopBody(id, t)) == {Label(id, Loop), Label(id, LoopContinue)}
    ensures Jumps(LoopBody(id, t), {Label(id, CopyT)})
  {
    hide Find, FromNat, ToNat;
    var a, b := [Lab(Label(id, Loop))] + LookCode(id, 0, t.hour) + LookCode(id, 1, t.min)
      + [Set, Br(Always, Label(id, CopyT))],
      [Lab(Label(id, LoopContinue)), Alu(AdiwZ(2)), Alu(Dec(R(18)))];
    assert a[0] == Lab(Label(id, Loop)) && b[0] == Lab(Label(id, LoopContinue));
    assert Marks(a) == {Label(id, Loop)} && Marks(b) == {Label(id, LoopContinue)};
    assert Jumps(a, {Label(id, LoopContinue), Label(id, CopyT)}) && Jumps(b, {});
    MarksAppend(a, b);
    JumpsAppend(a, b, {Label(id, LoopContinue), Label(id, CopyT)}, {});
  }

  function LoopBranch(id: nat): Instr { Br(ZClear, Label(id, Loop)) }

  function TailCode(id: nat, out: BitVar): seq<Instr> {
    [LoopBranch(id)] + CopyCode(id, out)
  }

  lemma {:induction false} CodeParts(id: nat, en: Option<BitVar>, out: BitVar, t: Timer)
    ensures var prog, h := ScheduleCode(id, en, out, t), |HeadCode(id, en, out, t)|;
      && |prog| == h + 18 && prog[..h][0..] == HeadCode(id, en, out, t) && prog[..h + 12][h..] == LoopBody(id, t)
      && prog[h + 12] == LoopBranch(id) && prog[..h + 18][h + 13..] == CopyCode(id, out)
      && prog[..h + 18][h + 17..] == [Lab(Label(id, BlockExit))]
      && prog == HeadCode(id, en, out, t) + (LoopBody(id, t) + TailCode(id, out))
      && prog == HeadCode(id, en, out, t) + LoopBody(id, t) + TailCode(id, out)
      && |LoopBody(id, t)| == 12
  {
    hide HeadCode, FromNat, ToNat;
  }

  lemma TailMarks(id: nat, out: BitVar)
    ensures Marks(TailCode(id, out)) == {Label(id, CopyT), Label(id, BlockExit)}
    ensures Find(TailCode(id, out), Label(id, CopyT)) == 1 && Find(TailCode(id, out), Label(id, BlockExit)) == 5
  {
    var c := TailCode(id, out);
    assert c[1] == Lab(Label(id, CopyT)) && c[5] == Lab(Label(id, BlockExit));
  }

  lemma {:induction false} LoopFirst(id: nat, t: Timer, tail: seq<Instr>)
    ensures Find(LoopBody(id, t) + tail, Label(id, Loop)) == 0
  {
    hide LookCode, FromNat, ToNat;
    assert (LoopBody(id, t) + tail)[0] == Lab(Label(id, Loop));
  }

  lemma {:induction false} Labels(id: nat, en: Option<BitVar>, out: BitVar, t: Timer)
    ensures var prog, h := ScheduleCode(id, en, out, t), |HeadCode(id, en, out, t)|;
      Find(prog, Label(id, Loop)) == h && Find(prog, Label(id, CopyT)) == h + 13
        && Find(prog, Label(id, BlockExit)) == h + 17
  {
    hide *;
    var head, body, tail := HeadCode(id, en, out, t), LoopBody(id, t), TailCode(id, out);
    LoopFirst(id, t, tail);
    CodeParts(id, en, out, t);
    HeadJumpsOut(id, en, out, t);
    BodyJumpsOut(id, t);
    TailMarks(id, out);
    MarksAppend(head, body);
    FindAppend(head, body + tail, Label(id, Loop));
    FindAppend(head + body, tail, Label(id, CopyT));
    FindAppend(head + body, tail, Label(id, BlockExit));
  }

  lemma TailForward(prog: seq<Instr>, k: nat)
    requires k < |prog| && !prog[k].Br? && !IsSkip(prog[k])
    ensures ForwardAt(prog, k)
  {
  }

  /** All jumps but the one that closes the loop go forward. */
  lemma {:induction false} HeadAndBody(id: nat, en: Option<BitVar>, out: BitVar, t: Timer)
    ensures var code, outs := HeadCode(id, en, out, t) + LoopBody(id, t), {Label(id, CopyT), Label(id, BlockExit)};
      Jumps(code, outs) && Marks(code) !! outs
  {
    hide *;
    var head, body, outs := HeadCode(id, en, out, t), LoopBody(id, t), {Label(id, CopyT), Label(id, BlockExit)};
    HeadJumpsOut(id, en, out, t);
    BodyJumpsOut(id, t);
    MarksAppend(head, body);
    JumpsAppend(head, body, outs, {Label(id, CopyT)});
    assert outs - Marks(body) + {Label(id, CopyT)} == outs;
  }

  lemma {:induction false} ForwardButLoop(id: nat, en: Option<BitVar>, out: BitVar, t: Timer)
    ensures var prog, h := ScheduleCode(id, en, out, t), |HeadCode(id, en, out, t)|;
      |prog| == h + 18 && forall k :: 0 <= k < h + 18 && k != h + 12 ==> ForwardAt(prog, k)
  {
    hide HeadCode, LoopBody, ScheduleCode, ForwardAt, Find, Marks, Jumps, FromNat, ToNat;
    var head, body, tail := HeadCode(id, en, out, t), LoopBody(id, t), TailCode(id, out);
    var outs := {Label(id, CopyT), Label(id, BlockExit)};
    CodeParts(id, en, out, t);
    HeadAndBody(id, en, out, t);
    TailMarks(id, out);
    forall k: nat | k < |head + body + tail| && k != |head| + 12 ensures ForwardAt(head + body + tail, k) {
      if k < |head| + 12 {
        FrontForward(head + body, tail, outs, k);
      } else {
        assert (head + body + tail)[k] == tail[k - |head| - 12];
        TailForward(head + body + tail, k);
      }
    }
  }

  /** Where the parts and the labels of the code are. */
  lemma {:induction false} Layout(id: nat, en: Option<BitVar>, out: BitVar, t: Timer)
    ensures var prog, h := ScheduleCode(id, en, out, t), |HeadCode(id, en, out, t)|;
      && |prog| == h + 18 && prog[..h][0..] == HeadCode(id, en, out, t) && prog[..h + 12][h..] == LoopBody(id, t)
      && prog[h + 12] == LoopBranch(id) && prog[..h + 18][h + 13..] == CopyCode(id, out)
      && prog[..h + 18][h + 17..] == [Lab(Label(id, BlockExit))]
      && Find(prog, Label(id, Loop)) == h && Find(prog, Label(id, CopyT)) == h + 13
      && Find(prog, Label(id, BlockExit)) == h + 17
      && forall k :: 0 <= k < h + 18 && k != h + 12 ==> ForwardAt(prog, k)
  {
    hide *;
    CodeParts(id, en, out, t);
    Labels(id, en, out, t);
    ForwardButLoop(id, en, out, t);
  }

  /** From the head of the loop the machine comes to the copying of T, which tells whether one of the
      entries that were left matches. */
  lemma {:induction false} LoopRuns(id: nat, en: Option<BitVar>, out: BitVar, t: Timer, s0: State, s: State, left: nat)
    returns (n: nat, s': State)
    requires t.Valid() && 0 < left && AtEntry(s0, s, t, left)
    ensures var prog, h := ScheduleCode(id, en, out, t), |HeadCode(id, en, out, t)|;
      Leads(prog, h, s, n, h + 13, s') && OnlyChanged(s0, s', {}) && s'.t == Due(s0, t, t.size - left)
    decreases left
  {
    hide Exec, Leads, Do, HeadCode, LoopBody, CopyCode, ScheduleCode, Matches, FromNat, ToNat;
    var prog, h := ScheduleCode(id, en, out, t), |HeadCode(id, en, out, t)|;
    Layout(id, en, out, t);
    BodyRuns(id, t, s0, s, left);
    n := MachineRunsTo(prog, h, h + 12, s);
    var p := Exec(LoopBody(id, t), Pass(Running, s));
    if Matches(s0, t, t.size - left) {
      s' := p.s;
    } else if left == 1 {
      s' := p.s;
      LeadsOne(prog, h + 12, p.s, h + 13);
      LeadsTrans(prog, h, s, n, h + 12, p.s, 1, h + 13, p.s);
      n := n + 1;
    } else {
      LeadsOne(prog, h + 12, p.s, h);
      LeadsTrans(prog, h, s, n, h + 12, p.s, 1, h, p.s);
      var m;
      m, s' := LoopRuns(id, en, out, t, s0, p.s, left - 1);
      LeadsTrans(prog, h, s, n + 1, h, p.s, m, h + 13, s');
      n := n + 1 + m;
    }
  }

  lemma LeadsOne(prog: seq<Instr>, pc: nat, s: State, pc': nat)
    requires pc < |prog| && Step(prog, pc, s) == (pc', s)
    ensures Leads(prog, pc, s, 1, pc', s)
  {
    assert Leads(prog, pc', s, 0, pc', s);
  }

  lemma {:induction false} TailRuns(id: nat, en: Option<BitVar>, out: BitVar, t: Timer, k: nat, s: State)
    returns (n: nat, s': State)
    requires out.Valid() && out.quality
    requires var h := |HeadCode(id, en, out, t)|; k == h + 13 || k == h + 17
    ensures var h := |HeadCode(id, en, out, t)|;
      && Leads(ScheduleCode(id, en, out, t), k, s, n, h + 18, s')
      && (if k == h + 17 then s' == s else Read(s', out) == Signal(s.t, true) && OnlyChanged(s, s', out.Foot()))
  {
    hide Exec, HeadCode, LoopBody, CopyCode, ScheduleCode, FromNat, ToNat;
    var prog, h := ScheduleCode(id, en, out, t), |HeadCode(id, en, out, t)|;
    Layout(id, en, out, t);
    n := MachineRunsTo(prog, k, h + 18, s);
    s' := Exec(prog[..h + 18][k..], Pass(Running, s)).s;
    if k == h + 17 { Exec1(Lab(Label(id, BlockExit)), Pass(Running, s)); } else { CopyRuns(id, out, s); }
  }

  /** The machine ends behind the block's code, with the output as `ScheduleResult` says, and no other
      RAM bit changed, however long the table is. */
  lemma {:induction false} ScheduleRuns(id: nat, en: Option<BitVar>, out: BitVar, t: Timer, s: State)
    returns (n: nat, s': State)
    requires (en.Some? ==> en.value.Valid()) && out.Valid() && out.quality && t.Valid()
    ensures Leads(ScheduleCode(id, en, out, t), 0, s, n, |ScheduleCode(id, en, out, t)|, s')
    ensures Read(s', out) == ScheduleResult(s, ReadOpt(s, en), Read(s, out), t) && OnlyChanged(s, s', out.Foot())
  {
    hide Exec, Leads, HeadCode, LoopBody, CopyCode, ScheduleCode, Matches, FromNat, ToNat, State.Get;
    var prog, h := ScheduleCode(id, en, out, t), |HeadCode(id, en, out, t)|;
    ScheduleSize(id, en, out, t);
    HeadRuns(id, en, out, t, s);
    var p := Exec(HeadCode(id, en, out, t), Pass(Running, s));
    var k, m, s1 := HeadExit(h, FrontExit(s, ReadOpt(s, en), t)), 0, p.s;
    n := HeadLeads(id, en, out, t, s);
    if k == h {
      m, s1 := LoopRuns(id, en, out, t, s, p.s, t.size);
      LeadsTrans(prog, 0, s, n, h, p.s, m, h + 13, s1);
      n, k := n + m, h + 13;
    }
    m, s' := TailRuns(id, en, out, t, k, s1);
    LeadsTrans(prog, 0, s, n, k, s1, m, h + 18, s');
    n := n + m;
  }

  /** Where the head of the code is left for. */
  function HeadExit(h: nat, exit: Name): nat {
    if exit == BadQuality then h + 17 else if exit == CopyT then h + 13 else h
  }

  lemma {:induction false} ScheduleSize(id: nat, en: Option<BitVar>, out: BitVar, t: Timer)
    ensures |ScheduleCode(id, en, out, t)| == |HeadCode(id, en, out, t)| + 18
  {
    hide *;
    CodeParts(id, en, out, t);
  }

  lemma {:induction false} HeadLeads(id: nat, en: Option<BitVar>, out: BitVar, t: Timer, s: State) returns (n: nat)
    requires (en.Some? ==> en.value.Valid()) && out.Valid() && out.quality && t.Valid()
    ensures var h, p := |HeadCode(id, en, out, t)|, Exec(HeadCode(id, en, out, t), Pass(Running, s));
      Leads(ScheduleCode(id, en, out, t), 0, s, n, HeadExit(h, FrontExit(s, ReadOpt(s, en), t)), p.s)
  {
    hide Exec, Leads, HeadCode, LoopBody, CopyCode, ScheduleCode, FromNat, ToNat, State.Get, OnlyChanged, FrontExit;
    Layout(id, en, out, t);
    HeadRuns(id, en, out, t, s);
    n := MachineRunsTo(ScheduleCode(id, en, out, t), 0, |HeadCode(id, en, out, t)|, s);
  }

  /** The code has its own labels, and jumps only to them. */
  lemma {:induction false} ScheduleWhole(id: nat, en: Option<BitVar>, out: BitVar, t: Timer)
    ensures Whole(ScheduleCode(id, en, out, t), id)
  {
    hide ScheduleCode, HeadCode, LoopBody, TailCode, CopyCode, Find, FromNat, ToNat;
    var prog, head, body, tail := ScheduleCode(id, en, out, t), HeadCode(id, en, out, t), LoopBody(id, t),
      TailCode(id, out);
    Layout(id, en, out, t);
    CodeParts(id, en, out, t);
    HeadJumpsOut(id, en, out, t);
    BodyJumpsOut(id, t);
    TailMarks(id, out);
    MarksAppend(head, body);
    MarksAppend(head + body, tail);
    hide Marks;
    forall k | 0 <= k < |prog| && prog[k].Br? ensures prog[k].l in Marks(prog) {
      if k != |head| + 12 { assert ForwardAt(prog, k); }
      FoundIsMarked(prog, prog[k].l);
    }
  }

  lemma {:induction false} FoundIsMarked(prog: seq<Instr>, l: Label)
    requires Find(prog, l) < |prog|
    ensures l in Marks(prog)
  {
    FindAppend([], prog, l);
    assert [] + prog == prog;
  }

  /** What the time says: whether an entry is due, good when the hour is. */
  ghost function TimeSignal(s: State, t: Timer): Signal {
    Signal(ToNat(s.Get(Cell(t.sec))) < ToNat(t.active) && Due(s, t, 0), s.Get(Cell(t.hourQ)) != ZERO)
  }

  function ScheduleStep(time: Signal, en: Option<Signal>, was: Signal): Signal {
    if !time.q || IsBad(en) then Signal(was.v, false) else Signal((en.Some? ==> en.value.v) && time.v, true)
  }

  lemma {:induction false} ScheduleResultIs(s: State, en: Option<Signal>, was: Signal, t: Timer)
    ensures ScheduleResult(s, en, was, t) == ScheduleStep(TimeSignal(s, t), en, was)
  {
    hide ToNat, Due;
  }
}
