/** Delay, pulse and counter: multi-byte state next to the bits. */
module Timers {
  import opened Options
  import opened Avr
  import opened Blocks
  import opened Latches

  /** All bits of `n` cells from `addr` on. */
  ghost function Cells(addr: nat, n: nat): set<(nat, nat)> {
    set a: nat, k: nat | addr <= a < addr + n && k < 8 :: (a, k)
  }

  function Word(s: State, addr: nat): nat {
    ToNat(s.Get(Cell(addr))) + 256 * ToNat(s.Get(Cell(addr + 1)))
  }

  /** Three bytes, least significant first. */
  function Num3(a: Byte, b: Byte, c: Byte): nat {
    ToNat(a) + 256 * ToNat(b) + 65536 * ToNat(c)
  }

  lemma Sub3(a0: nat, a1: nat, a2: nat, m0: nat, m1: nat, m2: nat)
    requires a0 < 256 && a1 < 256 && a2 < 256 && m0 < 256 && m1 < 256 && m2 < 256
    ensures var c0 := if a0 < m0 then 1 else 0; var c1 := if a1 - m1 - c0 < 0 then 1 else 0;
      (a0 - m0) % 256 + 256 * ((a1 - m1 - c0) % 256) + 65536 * ((a2 - m2 - c1) % 256)
      == (a0 + 256 * a1 + 65536 * a2 - m0 - 256 * m1 - 65536 * m2) % 0x100_0000
  {
    var c0 := if a0 < m0 then 1 else 0; var c1 := if a1 - m1 - c0 < 0 then 1 else 0;
    var c2 := if a2 - m2 - c1 < 0 then 1 else 0;
    assert (a0 - m0) % 256 == a0 - m0 + 256 * c0;
    assert (a1 - m1 - c0) % 256 == a1 - m1 - c0 + 256 * c1;
    assert (a2 - m2 - c1) % 256 == a2 - m2 - c1 + 256 * c2;
  }

  lemma Less3(r0: nat, r1: nat, r2: nat, d0: nat, d1: nat, d2: nat)
    requires r0 < 256 && r1 < 256 && r2 < 256 && d0 < 256 && d1 < 256 && d2 < 256
    ensures var c0 := if r0 < d0 then 1 else 0; var c1 := if r1 - d1 - c0 < 0 then 1 else 0;
      r2 - d2 - c1 < 0 <==> r0 + 256 * r1 + 65536 * r2 < d0 + 256 * d1 + 65536 * d2
  {
  }

  /** r18:r17:r16 minus the three timer bytes, compared with a constant: carry tells less. */
  function ElapsedCode(tmr: nat, d0: Byte, d1: Byte, d2: Byte): seq<Instr> {
    [Alu(Sub(R(16), Cell(tmr))), Alu(Sbc(R(17), Cell(tmr + 1))), Alu(Sbc(R(18), Cell(tmr + 2)))]
    + [Alu(Cpi(R(16), d0)), Alu(Sbci(R(17), d1)), Alu(Sbci(R(18), d2))]
  }

  /** A subtraction step: the register holds the difference mod 256, carry tells a borrow. */
  ghost predicate Subtracts(s: State, s': State, r: Reg, m: nat) {
    && (forall x :: x != r ==> s'.Get(x) == s.Get(x)) && s'.t == s.t && s'.mem == s.mem
    && ToNat(s'.Get(r)) == (ToNat(s.Get(r)) - m) % 256
    && s'.c == (ToNat(s.Get(r)) < m)
  }

  lemma {:induction false} SubRuns(r: Reg, m: Reg, s: State)
    requires r != Zero
    ensures Do(Alu(Sub(r, m)), Pass(Running, s)).mode == Running
    ensures Subtracts(s, Do(Alu(Sub(r, m)), Pass(Running, s)).s, r, ToNat(s.Get(m)))
  {
    hide ToNat, FromNat;
  }

  lemma {:induction false} SbcRuns(r: Reg, m: Reg, s: State)
    requires r != Zero
    ensures Do(Alu(Sbc(r, m)), Pass(Running, s)).mode == Running
    ensures Subtracts(s, Do(Alu(Sbc(r, m)), Pass(Running, s)).s, r, ToNat(s.Get(m)) + s.Carry())
  {
    hide ToNat, FromNat;
  }

  lemma {:induction false} SbciRuns(r: Reg, k: Byte, s: State)
    requires r != Zero
    ensures Do(Alu(Sbci(r, k)), Pass(Running, s)).mode == Running
    ensures Subtracts(s, Do(Alu(Sbci(r, k)), Pass(Running, s)).s, r, ToNat(k) + s.Carry())
  {
    hide ToNat, FromNat;
  }

  lemma {:induction false} CpiRuns(r: Reg, k: Byte, s: State)
    ensures var p := Do(Alu(Cpi(r, k)), Pass(Running, s));
      p.mode == Running && p.s.regs == s.regs && p.s.t == s.t && p.s.mem == s.mem
        && p.s.c == (ToNat(s.Get(r)) < ToNat(k))
  {
    hide ToNat, FromNat;
  }

  /** Three subtraction steps, the later ones with the borrow. */
  lemma {:induction false} Difference(a0: Byte, a1: Byte, a2: Byte, m0: Byte, m1: Byte, m2: Byte, r0: Byte, r1: Byte,
      r2: Byte, c0: nat, c1: nat)
    requires c0 == if ToNat(a0) < ToNat(m0) then 1 else 0
    requires c1 == if ToNat(a1) < ToNat(m1) + c0 then 1 else 0
    requires ToNat(r0) == (ToNat(a0) - ToNat(m0)) % 256
    requires ToNat(r1) == (ToNat(a1) - (ToNat(m1) + c0)) % 256
    requires ToNat(r2) == (ToNat(a2) - (ToNat(m2) + c1)) % 256
    ensures Num3(r0, r1, r2) == (Num3(a0, a1, a2) - Num3(m0, m1, m2)) % 0x100_0000
  {
    hide ToNat;
    Sub3(ToNat(a0), ToNat(a1), ToNat(a2), ToNat(m0), ToNat(m1), ToNat(m2));
  }

  lemma {:induction false} DifferenceRuns(tmr: nat, s: State)
    ensures var p := Exec([Alu(Sub(R(16), Cell(tmr))), Alu(Sbc(R(17), Cell(tmr + 1))), Alu(Sbc(R(18), Cell(tmr + 2)))],
      Pass(Running, s));
      && p.mode == Running && OnlyChanged(s, p.s, {}) && p.s.t == s.t
      && Num3(p.s.Get(R(16)), p.s.Get(R(17)), p.s.Get(R(18)))
        == (Num3(s.Get(R(16)), s.Get(R(17)), s.Get(R(18)))
            - Num3(s.Get(Cell(tmr)), s.Get(Cell(tmr + 1)), s.Get(Cell(tmr + 2)))) % 0x100_0000
  {
    hide Exec, Do, ToNat, FromNat, Num3;
    var i0, i1, i2 := Alu(Sub(R(16), Cell(tmr))), Alu(Sbc(R(17), Cell(tmr + 1))), Alu(Sbc(R(18), Cell(tmr + 2)));
    Exec3(i0, i1, i2, Pass(Running, s));
    var s1 := Do(i0, Pass(Running, s)).s; SubRuns(R(16), Cell(tmr), s);
    var s2 := Do(i1, Pass(Running, s1)).s; SbcRuns(R(17), Cell(tmr + 1), s1);
    SbcRuns(R(18), Cell(tmr + 2), s2);
    var s3 := Do(i2, Pass(Running, s2)).s;
    Difference(s.Get(R(16)), s.Get(R(17)), s.Get(R(18)), s.Get(Cell(tmr)), s.Get(Cell(tmr + 1)), s.Get(Cell(tmr + 2)),
      s3.Get(R(16)), s3.Get(R(17)), s3.Get(R(18)), s1.Carry(), s2.Carry());
  }

  lemma {:induction false} CompareRuns(d0: Byte, d1: Byte, d2: Byte, s: State)
    ensures var p := Exec([Alu(Cpi(R(16), d0)), Alu(Sbci(R(17), d1)), Alu(Sbci(R(18), d2))], Pass(Running, s));
      && p.mode == Running && OnlyChanged(s, p.s, {}) && p.s.t == s.t
      && p.s.c == (Num3(s.Get(R(16)), s.Get(R(17)), s.Get(R(18))) < Num3(d0, d1, d2))
  {
    hide ToNat, FromNat;
    var i0, i1, i2 := Alu(Cpi(R(16), d0)), Alu(Sbci(R(17), d1)), Alu(Sbci(R(18), d2));
    Exec3(i0, i1, i2, Pass(Running, s));
    var s1 := Do(i0, Pass(Running, s)).s; CpiRuns(R(16), d0, s);
    var s2 := Do(i1, Pass(Running, s1)).s; SbciRuns(R(17), d1, s1);
    SbciRuns(R(18), d2, s2);
    Less3(ToNat(s.Get(R(16))), ToNat(s.Get(R(17))), ToNat(s.Get(R(18))), ToNat(d0), ToNat(d1), ToNat(d2));
  }

  /** The clock in r18:r17:r16 minus the timer's start, mod 2^24. */
  function Elapsed(tmr: nat, s: State): nat {
    (Num3(s.Get(R(16)), s.Get(R(17)), s.Get(R(18)))
      - Num3(s.Get(Cell(tmr)), s.Get(Cell(tmr + 1)), s.Get(Cell(tmr + 2)))) % 0x100_0000
  }

  lemma {:induction false} ElapsedRuns(tmr: nat, d0: Byte, d1: Byte, d2: Byte, s: State)
    ensures var p := Exec(ElapsedCode(tmr, d0, d1, d2), Pass(Running, s));
      p.mode == Running && OnlyChanged(s, p.s, {}) && p.s.t == s.t && p.s.c == (Elapsed(tmr, s) < Num3(d0, d1, d2))
  {
    hide Exec, ToNat, FromNat;
    var sub, cmp := [Alu(Sub(R(16), Cell(tmr))), Alu(Sbc(R(17), Cell(tmr + 1))), Alu(Sbc(R(18), Cell(tmr + 2)))],
      [Alu(Cpi(R(16), d0)), Alu(Sbci(R(17), d1)), Alu(Sbci(R(18), d2))];
    ExecAppend(sub, cmp, Pass(Running, s));
    DifferenceRuns(tmr, s);
    CompareRuns(d0, d1, d2, Exec(sub, Pass(Running, s)).s);
  }

  /* ---- counter ---- */

  function ResetCode(id: nat, r: Option<BitVar>, out: nat): seq<Instr> {
    if r.None? then [] else Gate(r.value, Label(id, End)) + ResetTest(id, r.value) + ClearCode(id, out)
  }

  function ResetTest(id: nat, r: BitVar): seq<Instr> {
    [Bst(r.Reg(), r.bit), Br(TClear, Label(id, RstNotSet))]
  }

  function ClearCode(id: nat, out: nat): seq<Instr> {
    [Alu(Clr(Cell(out))), Alu(Clr(Cell(out + 1))), Br(Always, Label(id, End)), Lab(Label(id, RstNotSet))]
  }

  function CountCode(id: nat, x: BitVar, out: nat): seq<Instr> {
    RiseTest(id, x) + [Alu(Sec), Alu(Adc(Cell(out), Zero)), Alu(Adc(Cell(out + 1), Zero))]
  }

  function RiseTest(id: nat, x: BitVar): seq<Instr> {
    [Br(TClear, Label(id, End)), Alu(Eor(R(24), x.Reg())), Alu(Andi(R(24), OneBit(x.bit))), Br(ZSet, Label(id, End))]
  }

  function CounterCode(id: nat, x: BitVar, r: Option<BitVar>, prev: BitVar, out: nat): seq<Instr> {
    ResetCode(id, r, out) + Gate(x, Label(id, End)) + Sample(x, prev) + CountCode(id, x, out) + [Lab(Label(id, End))]
  }

  datatype Count = Count(n: nat, prev: bool)

  /** One scan of the counter: a bad reset or a bad input changes nothing, a reset clears the count
      and leaves the sampled input, and a rise from the last sampled input counts mod 2^16. */
  function CounterStep(c: Count, x: Signal, r: Option<Signal>): Count {
    if r.Some? && !r.value.q then c
    else if r.Some? && r.value.v then c.(n := 0)
    else if !x.q then c
    else Count(if x.v && !c.prev then (c.n + 1) % 0x1_0000 else c.n, x.v)
  }

  ghost predicate CountsTo(s: State, s': State, prev: BitVar, out: nat, c: Count) {
    && Word(s', out) == c.n && s'.GetBit(prev.Reg(), prev.bit) == c.prev
    && OnlyChanged(s, s', Cells(out, 2) + {(prev.addr, prev.bit)})
  }

  /** Adding the carry to both bytes. */
  function Incremented(out: nat, s: State): State {
    s.Compute(Sec).Compute(Adc(Cell(out), Zero)).Compute(Adc(Cell(out + 1), Zero))
  }

  lemma {:induction false} IncrementedWord(out: nat, s: State)
    ensures Word(Incremented(out, s), out) == (Word(s, out) + 1) % 0x1_0000
  {
    hide ToNat, FromNat;
    ZeroValue();
    var s2 := s.Compute(Sec).Compute(Adc(Cell(out), Zero));
    var s3 := s2.Compute(Adc(Cell(out + 1), Zero));
    var lo, hi := ToNat(s.Get(Cell(out))), ToNat(s.Get(Cell(out + 1)));
    assert ToNat(s2.Get(Cell(out))) == (lo + 1) % 256 && s2.c == (lo + 1 > 255);
    assert ToNat(s3.Get(Cell(out + 1))) == (hi + s2.Carry()) % 256;
  }

  lemma {:induction false} IncrementedCells(out: nat, s: State)
    ensures OnlyChanged(s, Incremented(out, s), Cells(out, 2))
  {
    hide ToNat, FromNat;
  }

  lemma {:induction false} IncrementRuns(out: nat, s: State)
    ensures var p := Exec([Alu(Sec), Alu(Adc(Cell(out), Zero)), Alu(Adc(Cell(out + 1), Zero))], Pass(Running, s));
      p.mode == Running && Word(p.s, out) == (Word(s, out) + 1) % 0x1_0000 && OnlyChanged(s, p.s, Cells(out, 2))
  {
    hide ToNat, FromNat, Exec, Do, Word, OnlyChanged, Cells;
    Exec3(Alu(Sec), Alu(Adc(Cell(out), Zero)), Alu(Adc(Cell(out + 1), Zero)), Pass(Running, s));
    var s1 := s.Compute(Sec);
    var s2 := s1.Compute(Adc(Cell(out), Zero));
    RunAlu(Sec, s);
    RunAlu(Adc(Cell(out), Zero), s1);
    RunAlu(Adc(Cell(out + 1), Zero), s2);
    IncrementedWord(out, s);
    IncrementedCells(out, s);
  }

  lemma SingleBit(v: Byte, b: nat)
    requires b < 8
    ensures And(v, OneBit(b)) == ZERO <==> !v[b]
  {
    assert And(v, OneBit(b))[b] == v[b];
  }

  /** Exclusive or and mask leave Z clear exactly when the bit differs. */
  lemma {:induction false} RiseMask(x: BitVar, s: State)
    requires x.Valid()
    ensures var s' := s.Compute(Eor(R(24), x.Reg())).Compute(Andi(R(24), OneBit(x.bit)));
      && OnlyChanged(s, s', {}) && (forall a :: s'.Get(Cell(a)) == s.Get(Cell(a)))
      && s'.z == (s.GetBit(R(24), x.bit) == Read(s, x).v)
  {
    hide ToNat, FromNat;
    var s1 := s.Compute(Eor(R(24), x.Reg()));
    SingleBit(s1.Get(R(24)), x.bit);
    assert s1.GetBit(R(24), x.bit) == (s.GetBit(R(24), x.bit) != Read(s, x).v);
  }

  lemma {:induction false} RiseTestRuns(id: nat, x: BitVar, s: State)
    requires x.Valid() && s.t == Read(s, x).v
    ensures var p := Exec(RiseTest(id, x), Pass(Running, s));
      && OnlyChanged(s, p.s, {}) && (forall a :: p.s.Get(Cell(a)) == s.Get(Cell(a)))
      && p.mode == if Read(s, x).v && !s.GetBit(R(24), x.bit) then Running else Seeking(Label(id, End))
  {
    hide Exec, Do;
    var end, xor, mask := Label(id, End), Eor(R(24), x.Reg()), Andi(R(24), OneBit(x.bit));
    Exec4(Br(TClear, end), Alu(xor), Alu(mask), Br(ZSet, end), Pass(Running, s));
    RunBranch(TClear, end, s);
    if s.t {
      RunAlu(xor, s);
      RunAlu(mask, s.Compute(xor));
      RunBranch(ZSet, end, s.Compute(xor).Compute(mask));
      RiseMask(x, s);
    } else {
      RunPast(Alu(xor), end, s);
      RunPast(Alu(mask), end, s);
      RunPast(Br(ZSet, end), end, s);
    }
  }

  lemma {:induction false} CountRuns(id: nat, x: BitVar, out: nat, s: State)
    requires x.Valid() && s.t == Read(s, x).v
    ensures var p := Exec(CountCode(id, x, out), Pass(Running, s));
      && (p.mode == Running || p.mode == Seeking(Label(id, End)))
      && Word(p.s, out) ==
           (if Read(s, x).v && !s.GetBit(R(24), x.bit) then (Word(s, out) + 1) % 0x1_0000 else Word(s, out))
      && OnlyChanged(s, p.s, Cells(out, 2))
  {
    hide ToNat, FromNat, Exec;
    var inc := [Alu(Sec), Alu(Adc(Cell(out), Zero)), Alu(Adc(Cell(out + 1), Zero))];
    ExecAppend(RiseTest(id, x), inc, Pass(Running, s));
    RiseTestRuns(id, x, s);
    var p := Exec(RiseTest(id, x), Pass(Running, s));
    if p.mode == Running {
      IncrementRuns(out, p.s);
    } else {
      ExecSeeking(inc, Label(id, End), p.s);
    }
  }

  lemma {:induction false} ClearRuns(id: nat, out: nat, s: State)
    ensures var p := Exec(ClearCode(id, out), Pass(Running, s));
      p.mode == Seeking(Label(id, End)) && Word(p.s, out) == 0 && OnlyChanged(s, p.s, Cells(out, 2))
    ensures Exec(ClearCode(id, out), Pass(Seeking(Label(id, RstNotSet)), s)) == Pass(Running, s)
    ensures Exec(ClearCode(id, out), Pass(Seeking(Label(id, End)), s)) == Pass(Seeking(Label(id, End)), s)
  {
    hide ToNat, FromNat, Exec;
    var c := ClearCode(id, out);
    Exec4(c[0], c[1], c[2], c[3], Pass(Running, s));
    Exec4(c[0], c[1], c[2], c[3], Pass(Seeking(Label(id, RstNotSet)), s));
    ExecSeeking(c, Label(id, End), s);
    ZeroValue();
  }

  lemma {:induction false} ResetTestRuns(id: nat, r: BitVar, s: State)
    requires r.Valid()
    ensures Exec(ResetTest(id, r), Pass(Running, s)) ==
      Pass(if Read(s, r).v then Running else Seeking(Label(id, RstNotSet)), s.(t := Read(s, r).v))
    ensures Exec(ResetTest(id, r), Pass(Seeking(Label(id, End)), s)) == Pass(Seeking(Label(id, End)), s)
  {
    hide Exec;
    Exec2(Bst(r.Reg(), r.bit), Br(TClear, Label(id, RstNotSet)), Pass(Running, s));
    ExecSeeking(ResetTest(id, r), Label(id, End), s);
  }

  lemma {:induction false} ResetRuns(id: nat, r: Option<BitVar>, out: nat, s: State)
    requires r.Some? ==> r.value.Valid()
    ensures var p, rs := Exec(ResetCode(id, r, out), Pass(Running, s)), ReadOpt(s, r);
      && OnlyChanged(s, p.s, Cells(out, 2))
      && p.mode == (if rs.Some? && (!rs.value.q || rs.value.v) then Seeking(Label(id, End)) else Running)
      && (rs.Some? && rs.value.q && rs.value.v ==> Word(p.s, out) == 0)
      && ((rs.Some? && rs.value.q && rs.value.v) || p.s == s.(t := p.s.t))
  {
    hide ToNat, FromNat, Exec, Do, Gate, ResetTest, ClearCode;
    if r.None? {
      ExecNil(Pass(Running, s));
    } else {
      var g, test, clear := Gate(r.value, Label(id, End)), ResetTest(id, r.value), ClearCode(id, out);
      ExecAppend(g + test, clear, Pass(Running, s));
      ExecAppend(g, test, Pass(Running, s));
      GateRuns(r.value, Label(id, End), s);
      var p1 := Exec(g, Pass(Running, s));
      ResetTestRuns(id, r.value, p1.s);
      ClearRuns(id, out, Exec(test, p1).s);
    }
  }

  function CounterFront(id: nat, x: BitVar, r: Option<BitVar>, prev: BitVar, out: nat): seq<Instr> {
    ResetCode(id, r, out) + Gate(x, Label(id, End)) + Sample(x, prev)
  }

  /** Whether the scan comes as far as sampling the input. */
  predicate Samples(x: Signal, r: Option<Signal>) {
    x.q && (r.Some? ==> r.value.q && !r.value.v)
  }

  /** After the reset part: the input is tested and sampled. */
  lemma {:induction false} InputFrontRuns(id: nat, x: BitVar, prev: BitVar, s: State)
    requires x.Valid() && prev.Valid()
    ensures var p := Exec(Gate(x, Label(id, End)) + Sample(x, prev), Pass(Running, s));
      if Read(s, x).q then
        && p.mode == Running && p.s.t == Read(s, x).v && Read(p.s, x).v == Read(s, x).v
        && p.s.GetBit(R(24), x.bit) == s.GetBit(prev.Reg(), prev.bit)
        && p.s.GetBit(prev.Reg(), prev.bit) == Read(s, x).v
        && OnlyChanged(s, p.s, {(prev.addr, prev.bit)})
      else p == Pass(Seeking(Label(id, End)), s.(t := false))
    ensures Exec(Gate(x, Label(id, End)) + Sample(x, prev), Pass(Seeking(Label(id, End)), s)) ==
      Pass(Seeking(Label(id, End)), s)
  {
    hide Exec, Do, ToNat, FromNat;
    var g, b := Gate(x, Label(id, End)), Sample(x, prev);
    ExecAppend(g, b, Pass(Running, s));
    GateRuns(x, Label(id, End), s);
    var p := Exec(g, Pass(Running, s));
    if p.mode == Running { SampleRuns(x, prev, p.s); } else { ExecSeeking(b, Label(id, End), p.s); }
    ExecSeeking(g + b, Label(id, End), s);
  }

  lemma {:induction false} CounterFrontRuns(id: nat, x: BitVar, r: Option<BitVar>, prev: BitVar, out: nat, s: State)
    requires x.Valid() && prev.Valid() && (r.Some? ==> r.value.Valid())
    ensures var p, rs := Exec(CounterFront(id, x, r, prev, out), Pass(Running, s)), ReadOpt(s, r);
      if Samples(Read(s, x), rs) then
        && p.mode == Running && p.s.t == Read(s, x).v && Read(p.s, x).v == Read(s, x).v
        && p.s.GetBit(R(24), x.bit) == s.GetBit(prev.Reg(), prev.bit)
        && p.s.GetBit(prev.Reg(), prev.bit) == Read(s, x).v
        && OnlyChanged(s, p.s, {(prev.addr, prev.bit)})
      else
        && p.mode == Seeking(Label(id, End)) && OnlyChanged(s, p.s, Cells(out, 2))
        && Word(p.s, out) == if rs.Some? && rs.value.q && rs.value.v then 0 else Word(s, out)
  {
    hide Exec, Do, ToNat, FromNat, ResetCode, Gate, Sample;
    var a, gb := ResetCode(id, r, out), Gate(x, Label(id, End)) + Sample(x, prev);
    assert CounterFront(id, x, r, prev, out) == a + gb;
    ExecAppend(a, gb, Pass(Running, s));
    ResetRuns(id, r, out, s);
    InputFrontRuns(id, x, prev, Exec(a, Pass(Running, s)).s);
  }

  lemma {:induction false} CounterYields(id: nat, x: BitVar, r: Option<BitVar>, prev: BitVar, out: nat, s: State)
    requires x.Valid() && prev.Valid() && (r.Some? ==> r.value.Valid())
    requires prev.addr != out && prev.addr != out + 1
    ensures var p := Exec(CounterCode(id, x, r, prev, out), Pass(Running, s));
      && p.mode == Running
      && CountsTo(s, p.s, prev, out,
           CounterStep(Count(Word(s, out), s.GetBit(prev.Reg(), prev.bit)), Read(s, x), ReadOpt(s, r)))
  {
    hide Exec, Do, ToNat, FromNat, Gate, ResetCode, Sample;
    var f, c, end := CounterFront(id, x, r, prev, out), CountCode(id, x, out), [Lab(Label(id, End))];
    var p0 := Pass(Running, s);
    ExecAppend(f + c, end, p0);
    ExecAppend(f, c, p0);
    CounterFrontRuns(id, x, r, prev, out, s);
    var p1 := Exec(f, p0); var p2 := Exec(c, p1);
    Exec1(Lab(Label(id, End)), p2);
    if p1.mode != Running {
      ExecSeeking(c, Label(id, End), p1.s);
    } else {
      SameCell(s, p1.s, {(prev.addr, prev.bit)}, out);
      SameCell(s, p1.s, {(prev.addr, prev.bit)}, out + 1);
      CountRuns(id, x, out, p1.s);
      ChangedTrans(s, p1.s, p2.s, {(prev.addr, prev.bit)}, Cells(out, 2));
    }
    RunLabel(Label(id, End), p2);
  }

  /* ---- delay ---- */

  /** The state of a delay: three bytes that hold the clock at the last rise, and a byte that is zero
      while the input is off and whose bit 1 tells that the delay has passed. */
  datatype Delay = Delay(start: nat, running: bool, passed: bool)

  function ReadDelay(s: State, tmr: nat): Delay {
    Delay(Num3(s.Get(Cell(tmr)), s.Get(Cell(tmr + 1)), s.Get(Cell(tmr + 2))), s.Get(Cell(tmr + 3)) != ZERO,
      s.Get(Cell(tmr + 3))[1])
  }

  /** The low 24 bits of the controller's time. */
  function Clock(s: State, clock: nat): nat {
    Num3(s.mem(clock), s.mem(clock + 1), s.mem(clock + 2))
  }

  function DelayGate(id: nat, x: BitVar, out: BitVar): seq<Instr> {
    if x.quality then [Bst(x.Reg(), x.QBit()), Bld(out.Reg(), out.QBit()), Br(TClear, Label(id, End))] else []
  }

  function DelayInput(id: nat, x: BitVar, tmr: nat): seq<Instr> {
    [Bst(x.Reg(), x.bit), Br(TSet, Label(id, DoStuff)), Alu(Mov(Cell(tmr + 3), Zero)), Br(Always, Label(id, SetValue))]
  }

  function LoadClock(id: nat, clock: nat): seq<Instr> {
    [Lab(Label(id, DoStuff)), Alu(Cli), Alu(Lds(R(16), clock))]
      + [Alu(Lds(R(17), clock + 1)), Alu(Lds(R(18), clock + 2)), Alu(Sei)]
  }

  function DelayTest(id: nat, tmr: nat): seq<Instr> {
    [Alu(Tst(Cell(tmr + 3))), Br(ZSet, Label(id, LoadValue))]
      + [Bst(Cell(tmr + 3), 1), Br(TSet, Label(id, SetValue)), Set]
  }

  function DelayVerdict(id: nat): seq<Instr> {
    [Br(CClear, Label(id, SetValue)), Clt, Br(Always, Label(id, SetValue))]
  }

  function DelayStart(id: nat, tmr: nat): seq<Instr> {
    [Lab(Label(id, LoadValue)), Alu(Mov(Cell(tmr), R(16))), Alu(Mov(Cell(tmr + 1), R(17)))]
    + [Alu(Mov(Cell(tmr + 2), R(18))), Bld(Cell(tmr + 3), 0), Clt]
  }

  function DelayStore(id: nat, out: BitVar, tmr: nat): seq<Instr> {
    [Lab(Label(id, SetValue)), Bld(out.Reg(), out.bit), Bld(Cell(tmr + 3), 1)]
  }

  function DelayEnd(id: nat, x: BitVar): seq<Instr> {
    if x.quality then [Lab(Label(id, End))] else []
  }

  function DelayRunning(id: nat, tmr: nat, d0: Byte, d1: Byte, d2: Byte): seq<Instr> {
    DelayTest(id, tmr) + ElapsedCode(tmr, d0, d1, d2) + DelayVerdict(id)
  }

  function DelayBody(id: nat, tmr: nat, clock: nat, d0: Byte, d1: Byte, d2: Byte): seq<Instr> {
    LoadClock(id, clock) + DelayRunning(id, tmr, d0, d1, d2) + DelayStart(id, tmr)
  }

  function DelayCode(id: nat, x: BitVar, out: BitVar, tmr: nat, clock: nat, d0: Byte, d1: Byte, d2: Byte): seq<Instr> {
    DelayGate(id, x, out) + DelayInput(id, x, tmr) + DelayBody(id, tmr, clock, d0, d1, d2) + DelayStore(id, out, tmr)
      + DelayEnd(id, x)
  }

  /** One scan: a bad input changes nothing but the output's quality; the first good 1 starts the timer. */
  function DelayStep(d: Delay, x: Signal, now: nat, width: nat): Delay {
    if !x.q then d
    else if !x.v then Delay(d.start, false, false)
    else if !d.running then Delay(now, true, false)
    else d.(passed := d.passed || (now - d.start) % 0x100_0000 >= width)
  }

  function DelayResult(d: Delay, x: Signal, now: nat, width: nat, was: Signal, quality: bool): Signal {
    Signal(if x.q then DelayStep(d, x, now, width).passed else was.v, if quality then x.q else was.q)
  }

  lemma {:induction false} LoadClockRuns(id: nat, clock: nat, s: State)
    ensures var p := Exec(LoadClock(id, clock), Pass(Seeking(Label(id, DoStuff)), s));
      && p.mode == Running && OnlyChanged(s, p.s, {}) && (forall a :: p.s.Get(Cell(a)) == s.Get(Cell(a)))
      && p.s.t == s.t
      && Num3(p.s.Get(R(16)), p.s.Get(R(17)), p.s.Get(R(18))) == Clock(s, clock)
  {
    hide Exec, Do, ToNat, FromNat, Num3, State.Compute, State.Get, OnlyChanged, Puts;
    var a, b := [Lab(Label(id, DoStuff)), Alu(Cli), Alu(Lds(R(16), clock))],
      [Alu(Lds(R(17), clock + 1)), Alu(Lds(R(18), clock + 2)), Alu(Sei)];
    var p := Pass(Seeking(Label(id, DoStuff)), s);
    var s1 := s.Compute(Lds(R(16), clock));
    var s2 := s1.Compute(Lds(R(17), clock + 1)); var s3 := s2.Compute(Lds(R(18), clock + 2));
    ExecAppend(a, b, p);
    Exec3(a[0], a[1], a[2], p);
    Exec3(b[0], b[1], b[2], Pass(Running, s1));
    RunFound(Label(id, DoStuff), s);
    Interrupts(s);
    Loads(16, clock, s);
    Loads(17, clock + 1, s1);
    Loads(18, clock + 2, s2);
    Interrupts(s3);
    ThreeLoaded(s, s1, s2, s3, s.mem(clock), s1.mem(clock + 1), s2.mem(clock + 2));
  }

  lemma {:induction false} ThreeLoaded(s: State, s1: State, s2: State, s3: State, a: Byte, b: Byte, c: Byte)
    requires Puts(s, s1, 16, a) && Puts(s1, s2, 17, b) && Puts(s2, s3, 18, c)
    ensures OnlyChanged(s, s3, {}) && s3.t == s.t && s1.mem == s2.mem == s.mem
    ensures (forall x :: s3.Get(Cell(x)) == s.Get(Cell(x)))
    ensures s3.Get(R(16)) == a && s3.Get(R(17)) == b && s3.Get(R(18)) == c
  {
    hide State.Get;
  }

  lemma {:induction false} DelayTestRuns(id: nat, tmr: nat, s: State)
    requires s.t
    ensures var p, d := Exec(DelayTest(id, tmr), Pass(Running, s)), ReadDelay(s, tmr);
      && p.mode == (if !d.running then Seeking(Label(id, LoadValue)) else if d.passed then Seeking(Label(id, SetValue))
           else Running)
      && OnlyChanged(s, p.s, {}) && p.s.regs == s.regs && p.s.t
  {
    hide Exec, ToNat, FromNat;
    var a, b := [Alu(Tst(Cell(tmr + 3))), Br(ZSet, Label(id, LoadValue))],
      [Bst(Cell(tmr + 3), 1), Br(TSet, Label(id, SetValue)), Set];
    ExecAppend(a, b, Pass(Running, s));
    Exec2(a[0], a[1], Pass(Running, s));
    var p := Exec(a, Pass(Running, s));
    if p.mode == Running { Exec3(b[0], b[1], b[2], p); } else { ExecSeeking(b, Label(id, LoadValue), p.s); }
  }

  /** While the input is on and the timer runs, T is left to tell whether the delay has passed. */
  lemma {:induction false} DelayRunningRuns(id: nat, tmr: nat, d0: Byte, d1: Byte, d2: Byte, s: State)
    requires s.t
    ensures var p, d := Exec(DelayRunning(id, tmr, d0, d1, d2), Pass(Running, s)), ReadDelay(s, tmr);
      && p.mode == Seeking(Label(id, if d.running then SetValue else LoadValue)) && OnlyChanged(s, p.s, {})
      && (!d.running ==> p.s.regs == s.regs && p.s.t)
      && (d.running ==> p.s.t == (d.passed || Elapsed(tmr, s) >= Num3(d0, d1, d2)))
  {
    hide Exec, Do, ToNat, FromNat;
    var a, b, c := DelayTest(id, tmr), ElapsedCode(tmr, d0, d1, d2), DelayVerdict(id);
    var p0 := Pass(Running, s);
    ExecAppend(a + b, c, p0);
    ExecAppend(a, b, p0);
    DelayTestRuns(id, tmr, s);
    var p1 := Exec(a, p0); var p2 := Exec(b, p1);
    if p1.mode == Running {
      ElapsedRuns(tmr, d0, d1, d2, p1.s);
      DelayVerdictRuns(id, p2.s);
    } else {
      ExecSeeking(b, p1.mode.l, p1.s);
      ExecSeeking(c, p1.mode.l, p1.s);
    }
  }

  lemma DelayVerdictRuns(id: nat, s: State)
    requires s.t
    ensures Exec(DelayVerdict(id), Pass(Running, s)) == Pass(Seeking(Label(id, SetValue)), s.(t := !s.c))
  {
    Exec3(Br(CClear, Label(id, SetValue)), Clt, Br(Always, Label(id, SetValue)), Pass(Running, s));
    assert s.(t := true) == s;
  }

  /** The clock goes into the timer's first three cells. */
  function ClockStored(tmr: nat, s: State): State {
    s.Compute(Mov(Cell(tmr), R(16))).Compute(Mov(Cell(tmr + 1), R(17))).Compute(Mov(Cell(tmr + 2), R(18)))
  }

  lemma {:induction false} ClockStoredIs(tmr: nat, s: State)
    ensures var s3 := ClockStored(tmr, s);
      && s3.Get(Cell(tmr)) == s.Get(R(16)) && s3.Get(Cell(tmr + 1)) == s.Get(R(17))
      && s3.Get(Cell(tmr + 2)) == s.Get(R(18))
      && s3.Get(Cell(tmr + 3)) == s.Get(Cell(tmr + 3)) && s3.t == s.t && OnlyChanged(s, s3, Cells(tmr, 4))
  {
    hide ToNat, FromNat;
  }

  lemma {:induction false} FlagStored(tmr: nat, s: State)
    ensures var s', d := s.PutBit(Cell(tmr + 3), 0, s.t).(t := false), s.Get(Cell(tmr + 3));
      && s'.Get(Cell(tmr)) == s.Get(Cell(tmr)) && s'.Get(Cell(tmr + 1)) == s.Get(Cell(tmr + 1))
      && s'.Get(Cell(tmr + 2)) == s.Get(Cell(tmr + 2))
      && s'.Get(Cell(tmr + 3)) == d[0 := s.t] && OnlyChanged(s, s', Cells(tmr, 4))
  {
    hide ToNat, FromNat;
  }

  lemma {:induction false} DelayStartRuns(id: nat, tmr: nat, s: State)
    ensures var p, d := Exec(DelayStart(id, tmr), Pass(Seeking(Label(id, LoadValue)), s)), s.Get(Cell(tmr + 3));
      && p.mode == Running && OnlyChanged(s, p.s, Cells(tmr, 4)) && !p.s.t
      && Num3(p.s.Get(Cell(tmr)), p.s.Get(Cell(tmr + 1)), p.s.Get(Cell(tmr + 2))) ==
           Num3(s.Get(R(16)), s.Get(R(17)), s.Get(R(18)))
      && p.s.Get(Cell(tmr + 3)) == d[0 := s.t]
  {
    hide Exec, Do, ToNat, FromNat, Num3, OnlyChanged, Cells;
    var a, b := [Lab(Label(id, LoadValue)), Alu(Mov(Cell(tmr), R(16))), Alu(Mov(Cell(tmr + 1), R(17)))],
      [Alu(Mov(Cell(tmr + 2), R(18))), Bld(Cell(tmr + 3), 0), Clt];
    var p := Pass(Seeking(Label(id, LoadValue)), s);
    ExecAppend(a, b, p);
    Exec3(a[0], a[1], a[2], p);
    RunFound(Label(id, LoadValue), s);
    RunAlu(Mov(Cell(tmr), R(16)), s);
    var s1 := s.Compute(Mov(Cell(tmr), R(16)));
    RunAlu(Mov(Cell(tmr + 1), R(17)), s1);
    var s2 := s1.Compute(Mov(Cell(tmr + 1), R(17)));
    Exec3(b[0], b[1], b[2], Pass(Running, s2));
    RunAlu(Mov(Cell(tmr + 2), R(18)), s2);
    var s3 := s2.Compute(Mov(Cell(tmr + 2), R(18)));
    RunBld(Cell(tmr + 3), 0, s3);
    var s4 := s3.PutBit(Cell(tmr + 3), 0, s3.t);
    RunClt(s4);
    ClockStoredIs(tmr, s);
    FlagStored(tmr, s3);
    ChangedTrans(s, s3, s4.(t := false), Cells(tmr, 4), Cells(tmr, 4));
    assert Cells(tmr, 4) + Cells(tmr, 4) == Cells(tmr, 4);
  }

  lemma {:induction false} DelayStartSkips(id: nat, tmr: nat, s: State)
    ensures Exec(DelayStart(id, tmr), Pass(Seeking(Label(id, SetValue)), s)) == Pass(Seeking(Label(id, SetValue)), s)
  {
    hide Exec;
    ExecSeeking(DelayStart(id, tmr), Label(id, SetValue), s);
  }

  /** The timer after the body, before T is stored in it. */
  ghost predicate Started(s: State, s': State, tmr: nat, now: nat) {
    && OnlyChanged(s, s', Cells(tmr, 4)) && !s'.t && s'.Get(Cell(tmr + 3)) == ZERO[0 := true]
    && Num3(s'.Get(Cell(tmr)), s'.Get(Cell(tmr + 1)), s'.Get(Cell(tmr + 2))) == now
  }

  lemma {:induction false} DelayBodyRuns(id: nat, tmr: nat, clock: nat, d0: Byte, d1: Byte, d2: Byte, s: State)
    requires s.t
    ensures var p, d, now := Exec(DelayBody(id, tmr, clock, d0, d1, d2),
      Pass(Seeking(Label(id, DoStuff)), s)), ReadDelay(s, tmr), Clock(s, clock);
      if d.running then
        p.mode == Seeking(Label(id, SetValue)) && OnlyChanged(s, p.s, {})
        && p.s.t == (d.passed || (now - d.start) % 0x100_0000 >= Num3(d0, d1, d2))
      else p.mode == Running && Started(s, p.s, tmr, now)
  {
    hide Exec, Do, ToNat, FromNat;
    var a, b, c := LoadClock(id, clock), DelayRunning(id, tmr, d0, d1, d2), DelayStart(id, tmr);
    var p0 := Pass(Seeking(Label(id, DoStuff)), s);
    ExecAppend(a + b, c, p0);
    ExecAppend(a, b, p0);
    LoadClockRuns(id, clock, s);
    var p1 := Exec(a, p0); var p2 := Exec(b, p1);
    DelayRunningRuns(id, tmr, d0, d1, d2, p1.s);
    DelayStartRuns(id, tmr, p2.s);
    DelayStartSkips(id, tmr, p2.s);
  }

  /** T becomes the output, and bit 1 of the timer. */
  ghost predicate Stored(s: State, s': State, out: BitVar, tmr: nat) {
    && s'.GetBit(out.Reg(), out.bit) == s.t && OnlyChanged(s, s', {(out.addr, out.bit)} + Cells(tmr, 4))
    && s'.Get(Cell(tmr)) == s.Get(Cell(tmr)) && s'.Get(Cell(tmr + 1)) == s.Get(Cell(tmr + 1))
    && s'.Get(Cell(tmr + 2)) == s.Get(Cell(tmr + 2))
    && s'.Get(Cell(tmr + 3)) == s.Get(Cell(tmr + 3))[1 := s.t]
  }

  lemma {:induction false} StoredReads(s: State, s': State, out: BitVar, tmr: nat)
    requires Stored(s, s', out, tmr)
    ensures ReadDelay(s', tmr) == Delay(ReadDelay(s, tmr).start, s.t || s.Get(Cell(tmr + 3))[1 := false] != ZERO, s.t)
  {
    hide Exec, Do, ToNat, FromNat;
  }

  /** The timer as it is going to be when T is stored in it. */
  ghost predicate Prepared(s: State, s': State, tmr: nat, d: Delay) {
    && OnlyChanged(s, s', Cells(tmr, 4)) && s'.t == d.passed
    && ReadDelay(s', tmr).start == d.start
    && d.running == (s'.t || s'.Get(Cell(tmr + 3))[1 := false] != ZERO)
  }

  lemma {:induction false} PreparedOff(s: State, tmr: nat)
    ensures Prepared(s, s.(t := false).Put(Cell(tmr + 3), ZERO), tmr, Delay(ReadDelay(s, tmr).start, false, false))
  {
    hide Num3;
    assert ZERO[1 := false] == ZERO;
  }

  lemma {:induction false} PreparedStart(s: State, s': State, tmr: nat, now: nat)
    requires Started(s, s', tmr, now)
    ensures Prepared(s, s', tmr, Delay(now, true, false))
  {
    hide Num3;
    assert s'.Get(Cell(tmr + 3))[1 := false][0] != ZERO[0];
  }

  lemma {:induction false} PreparedOn(s: State, s': State, tmr: nat)
    requires OnlyChanged(s, s', {}) && ReadDelay(s, tmr).running && (ReadDelay(s, tmr).passed ==> s'.t)
    ensures Prepared(s, s', tmr, ReadDelay(s, tmr).(passed := s'.t))
  {
    hide Num3;
    forall a: nat ensures s'.Get(Cell(a)) == s.Get(Cell(a)) { SameCell(s, s', {}, a); }
    var d := s.Get(Cell(tmr + 3));
    if !d[1] { assert d[1 := false] == d; }
  }

  lemma {:induction false} DelayStoreRuns(id: nat, out: BitVar, tmr: nat, p: Pass)
    requires out.Valid() && (out.addr < tmr || tmr + 4 <= out.addr)
    requires p.mode == Running || p.mode == Seeking(Label(id, SetValue))
    ensures var p' := Exec(DelayStore(id, out, tmr), p); p'.mode == Running && Stored(p.s, p'.s, out, tmr)
    ensures Exec(DelayStore(id, out, tmr), Pass(Seeking(Label(id, End)), p.s)) == Pass(Seeking(Label(id, End)), p.s)
  {
    hide Exec;
    Exec3(Lab(Label(id, SetValue)), Bld(out.Reg(), out.bit), Bld(Cell(tmr + 3), 1), p);
    ExecSeeking(DelayStore(id, out, tmr), Label(id, End), p.s);
  }

  lemma {:induction false} DelayGateRuns(id: nat, x: BitVar, out: BitVar, s: State)
    requires x.Valid() && out.Valid() && out.quality && x.Foot() !! out.Foot()
    ensures var p, xs := Exec(DelayGate(id, x, out), Pass(Running, s)), Read(s, x);
      && p.mode == (if xs.q then Running else Seeking(Label(id, End)))
      && OnlyChanged(s, p.s, {(out.addr, out.QBit())}) && Read(p.s, x).v == xs.v
      && p.s.GetBit(out.Reg(), out.QBit()) == if x.quality then xs.q else Read(s, out).q
  {
    hide Exec;
    assert (x.addr, x.bit) in x.Foot();
    if x.quality {
      Exec3(Bst(x.Reg(), x.QBit()), Bld(out.Reg(), out.QBit()), Br(TClear, Label(id, End)), Pass(Running, s));
    } else {
      ExecNil(Pass(Running, s));
    }
  }

  lemma {:induction false} DelayInputRuns(id: nat, x: BitVar, tmr: nat, s: State)
    requires x.Valid()
    ensures var p := Exec(DelayInput(id, x, tmr), Pass(Running, s));
      if Read(s, x).v then p == Pass(Seeking(Label(id, DoStuff)), s.(t := true))
      else p == Pass(Seeking(Label(id, SetValue)), s.(t := false).Put(Cell(tmr + 3), ZERO))
    ensures Exec(DelayInput(id, x, tmr), Pass(Seeking(Label(id, End)), s)) == Pass(Seeking(Label(id, End)), s)
  {
    hide Exec;
    var c := DelayInput(id, x, tmr);
    Exec4(c[0], c[1], c[2], c[3], Pass(Running, s));
    ExecSeeking(c, Label(id, End), s);
  }

  lemma {:induction false} DelayInputBodyRuns(id: nat, x: BitVar, tmr: nat, clock: nat, d0: Byte, d1: Byte, d2: Byte,
      s: State)
    requires x.Valid()
    ensures var p := Exec(DelayInput(id, x, tmr) + DelayBody(id, tmr, clock, d0, d1, d2), Pass(Running, s));
      && (p.mode == Running || p.mode == Seeking(Label(id, SetValue)))
      && Prepared(s, p.s, tmr,
           DelayStep(ReadDelay(s, tmr), Signal(Read(s, x).v, true), Clock(s, clock), Num3(d0, d1, d2)))
  {
    hide Exec, Do, ToNat, FromNat, Num3, Prepared;
    var a, b := DelayInput(id, x, tmr), DelayBody(id, tmr, clock, d0, d1, d2);
    var p0 := Pass(Running, s);
    ExecAppend(a, b, p0);
    DelayInputRuns(id, x, tmr, s);
    var p1 := Exec(a, p0); var p2 := Exec(b, p1);
    if !Read(s, x).v {
      ExecSeeking(b, Label(id, SetValue), p1.s);
      PreparedOff(s, tmr);
    } else {
      DelayBodyRuns(id, tmr, clock, d0, d1, d2, p1.s);
      if ReadDelay(s, tmr).running {
        PreparedOn(s, p2.s, tmr);
      } else {
        PreparedStart(s, p2.s, tmr, Clock(s, clock));
      }
    }
  }

  /** A good input: what the timer becomes, and what is left in T for the output. */
  lemma {:induction false} DelayCoreRuns(id: nat, x: BitVar, out: BitVar, tmr: nat, clock: nat, d0: Byte, d1: Byte,
      d2: Byte, s: State)
    requires x.Valid() && out.Valid() && (out.addr < tmr || tmr + 4 <= out.addr)
    ensures var code := DelayInput(id, x, tmr) + DelayBody(id, tmr, clock, d0, d1, d2) + DelayStore(id, out, tmr);
      var p, d := Exec(code, Pass(Running, s)),
        DelayStep(ReadDelay(s, tmr), Signal(Read(s, x).v, true), Clock(s, clock), Num3(d0, d1, d2));
      && p.mode == Running && ReadDelay(p.s, tmr) == d && p.s.GetBit(out.Reg(), out.bit) == d.passed
      && OnlyChanged(s, p.s, {(out.addr, out.bit)} + Cells(tmr, 4))
  {
    hide Exec, Do, ToNat, FromNat, Num3;
    var ab, c := DelayInput(id, x, tmr) + DelayBody(id, tmr, clock, d0, d1, d2), DelayStore(id, out, tmr);
    ExecAppend(ab, c, Pass(Running, s));
    DelayInputBodyRuns(id, x, tmr, clock, d0, d1, d2, s);
    var p := Exec(ab, Pass(Running, s));
    DelayStoreRuns(id, out, tmr, p);
    StoredReads(p.s, Exec(c, p).s, out, tmr);
  }

  lemma {:induction false} DelaySkips(id: nat, x: BitVar, out: BitVar, tmr: nat, clock: nat, d0: Byte, d1: Byte,
      d2: Byte, s: State)
    ensures var p := Pass(Seeking(Label(id, End)), s);
      Exec(DelayInput(id, x, tmr) + DelayBody(id, tmr, clock, d0, d1, d2) + DelayStore(id, out, tmr), p) == p
  {
    hide Exec;
    ExecSeeking(DelayInput(id, x, tmr) + DelayBody(id, tmr, clock, d0, d1, d2) + DelayStore(id, out, tmr),
      Label(id, End), s);
  }

  lemma {:induction false} DelayYields(id: nat, x: BitVar, out: BitVar, tmr: nat, clock: nat, d0: Byte, d1: Byte,
      d2: Byte, s: State)
    requires x.Valid() && out.Valid() && out.quality
    requires x.Foot() !! out.Foot() && (out.addr < tmr || tmr + 4 <= out.addr)
    ensures var d, xs, now, width := ReadDelay(s, tmr), Read(s, x), Clock(s, clock), Num3(d0, d1, d2);
      && Yields(DelayCode(id, x, out, tmr, clock, d0, d1, d2), s, out,
           DelayResult(d, xs, now, width, Read(s, out), x.quality), out.Foot() + Cells(tmr, 4))
      && ReadDelay(Exec(DelayCode(id, x, out, tmr, clock, d0, d1, d2), Pass(Running, s)).s, tmr) ==
           DelayStep(d, xs, now, width)
  {
    hide Exec, Do, ToNat, FromNat, Num3, DelayInput, DelayBody, DelayStore;
    var g, a, b, c, end := DelayGate(id, x, out), DelayInput(id, x, tmr), DelayBody(id, tmr, clock, d0, d1, d2),
      DelayStore(id, out, tmr), DelayEnd(id, x);
    var p0 := Pass(Running, s);
    ExecAppend(g + a + b + c, end, p0);
    assert g + a + b + c == g + (a + b + c);
    ExecAppend(g, a + b + c, p0);
    DelayGateRuns(id, x, out, s);
    var p1 := Exec(g, p0); var p2 := Exec(a + b + c, p1);
    forall a: nat | tmr <= a < tmr + 4 ensures p1.s.Get(Cell(a)) == s.Get(Cell(a)) {
      SameCell(s, p1.s, {(out.addr, out.QBit())}, a);
    }
    assert ReadDelay(p1.s, tmr) == ReadDelay(s, tmr);
    if p1.mode == Running {
      DelayCoreRuns(id, x, out, tmr, clock, d0, d1, d2, p1.s);
      ChangedTrans(s, p1.s, p2.s, {(out.addr, out.QBit())}, {(out.addr, out.bit)} + Cells(tmr, 4));
    } else {
      DelaySkips(id, x, out, tmr, clock, d0, d1, d2, p1.s);
    }
    DelayEndRuns(id, x, p2);
  }

  lemma DelayEndRuns(id: nat, x: BitVar, p: Pass)
    requires p.mode == Running || (p.mode == Seeking(Label(id, End)) && x.quality)
    ensures Exec(DelayEnd(id, x), p) == Pass(Running, p.s)
  {
    if x.quality { Exec1(Lab(Label(id, End)), p); } else { ExecNil(p); }
  }
}
