/** The code of every block is a fragment: all its jumps go forward to its own labels. */
module Fragments {
  import opened Options
  import opened Avr
  import opened Programs
  import opened Blocks
  import opened Gates
  import opened Latches
  import opened Timers
  import opened Pulses
  import opened Encoders

  /** A part is followed by one that takes up some of its jumps. */
  lemma Then(a: seq<Instr>, b: seq<Instr>, id: nat, outsA: set<Label>, marksB: set<Label>, outsB: set<Label>,
      outs: set<Label>)
    requires Jumps(a, outsA) && Jumps(b, outsB) && Owned(a, id) && Owned(b, id) && Marks(b) == marksB
    requires Marks(a) !! marksB && Marks(a) !! outsB && outsA - marksB + outsB == outs
    ensures Jumps(a + b, outs) && Owned(a + b, id) && Marks(a + b) == Marks(a) + marksB
  {
    MarksAppend(a, b);
    JumpsAppend(a, b, outsA, outsB);
  }

  lemma GatePart(x: BitVar, l: Label)
    ensures Marks(Gate(x, l)) == {} && Jumps(Gate(x, l), {l})
  {
    Straight(Gate(x, l), {l});
  }

  lemma InvertedPart(x: BitVar)
    ensures Marks(Inverted(x)) == {} && Jumps(Inverted(x), {})
  {
  }

  lemma {:induction false} NotFragment(id: nat, x: BitVar, out: BitVar)
    ensures Fragment(NotCode(id, x, out), id)
  {
    hide Find, Gate, Inverted;
    var bad := Label(id, BadQuality);
    var a, b, c := Gate(x, bad), Inverted(x), StoreGood(out, bad);
    GatePart(x, bad);
    InvertedPart(x);
    assert c[2] == Lab(bad);
    assert Marks(c) == {bad} && Jumps(c, {});
    Then(a, b, id, {bad}, {}, {}, {bad});
    Then(a + b, c, id, {bad}, {bad}, {}, {});
  }

  /* ---- OR and AND ---- */

  lemma {:induction false} InputPart(or: bool, x: BitVar, store: Label)
    ensures Marks(InputCode(or, x, store)) == {} && Jumps(InputCode(or, x, store), {store})
  {
    hide Find;
  }

  lemma {:induction false} InputsPart(or: bool, slots: seq<Slot>, store: Label)
    ensures Marks(InputsCode(or, slots, store)) == {} && Jumps(InputsCode(or, slots, store), {store})
  {
    if slots != [] {
      var n := |slots| - 1;
      var a := InputsCode(or, slots[..n], store);
      InputsPart(or, slots[..n], store);
      if slots[n].BitIn? {
        InputPart(or, slots[n].x, store);
        Then(a, InputCode(or, slots[n].x, store), store.block, {store}, {}, {store}, {store});
      } else {
        assert InputsCode(or, slots, store) == a;
      }
    }
  }

  lemma {:induction false} GateEndPart(id: nat, or: bool, out: BitVar)
    ensures Marks(GateEnd(id, or, out)) == {StoreLabel(id, or), Label(id, End)} && Jumps(GateEnd(id, or, out), {})
  {
    hide Find;
    var a, b, end := NormalEnd(id, out), DominatedEnd(id, or, out), Label(id, End);
    Straight(a, {end});
    assert b[0] == Lab(StoreLabel(id, or)) && b[|b| - 1] == Lab(end);
    assert Marks(b) == {StoreLabel(id, or), end} && Jumps(b, {});
    Then(a, b, id, {end}, {StoreLabel(id, or), end}, {}, {});
  }

  lemma {:induction false} GateFragment(id: nat, or: bool, slots: seq<Slot>, out: BitVar)
    ensures Fragment(GateCode(id, or, slots, out), id)
  {
    hide Find, InputsCode, GateEnd, Marks, Jumps;
    var store := StoreLabel(id, or);
    var a, b, c := GateStart(), InputsCode(or, slots, store), GateEnd(id, or, out);
    Straight(a, {});
    InputsPart(or, slots, store);
    GateEndPart(id, or, out);
    Then(a, b, id, {}, {}, {store}, {store});
    Then(a + b, c, id, {store}, {store, Label(id, End)}, {}, {});
  }

  /* ---- RS trigger, edges, outputs ---- */

  lemma RsTestPart(id: nat, x: Option<BitVar>, r: Option<BitVar>)
    ensures Marks(ResetPart(r, Label(id, Store)) + SetPart(x, id)) == {}
    ensures Jumps(ResetPart(r, Label(id, Store)) + SetPart(x, id), {Label(id, Store), Label(id, WriteQ)})
  {
    Straight(ResetPart(r, Label(id, Store)) + SetPart(x, id), {Label(id, Store), Label(id, WriteQ)});
  }

  lemma RsGatesPart(id: nat, x: Option<BitVar>, r: Option<BitVar>)
    ensures var bad := Label(id, BadQuality); var g := GateOpt(r, bad) + GateOpt(x, bad);
      Marks(g) == {} && Jumps(g, if NeverBad(x, r) then {} else {bad})
  {
    var bad := Label(id, BadQuality);
    Straight(GateOpt(r, bad) + GateOpt(x, bad), if NeverBad(x, r) then {} else {bad});
  }

  lemma {:induction false} RsTailPart(id: nat, x: Option<BitVar>, r: Option<BitVar>, out: BitVar)
    ensures var marks := if NeverBad(x, r) then {Label(id, Store), Label(id, WriteQ)}
        else {Label(id, BadQuality), Label(id, Store), Label(id, WriteQ), Label(id, End)};
      Marks(RsTailCode(id, x, r, out)) == marks && Jumps(RsTailCode(id, x, r, out), {})
  {
    hide Find;
    var bad, store, writeQ, end := Label(id, BadQuality), Label(id, Store), Label(id, WriteQ), Label(id, End);
    var a, b := BadPart(id, x, r, out), StorePart(id, out) + EndPart(id, x, r);
    assert RsTailCode(id, x, r, out) == a + b;
    assert b[0] == Lab(store) && b[2] == Lab(writeQ);
    if NeverBad(x, r) {
      assert a + b == b;
      assert Marks(b) == {store, writeQ} && Jumps(b, {});
    } else {
      assert a[0] == Lab(bad) && b[5] == Lab(end);
      assert Marks(a) == {bad} && Jumps(a, {end});
      assert Marks(b) == {store, writeQ, end} && Jumps(b, {});
      Then(a, b, id, {end}, {store, writeQ, end}, {}, {});
    }
  }

  lemma {:induction false} RsFragment(id: nat, x: Option<BitVar>, r: Option<BitVar>, out: BitVar)
    ensures Fragment(RsCode(id, x, r, out), id)
  {
    hide *;
    var bad := Label(id, BadQuality);
    var a, b, c := GateOpt(r, bad) + GateOpt(x, bad), ResetPart(r, Label(id, Store)) + SetPart(x, id),
      RsTailCode(id, x, r, out);
    RsGatesPart(id, x, r);
    RsTestPart(id, x, r);
    RsTailPart(id, x, r, out);
    RsCompose(id, x, r, out, a, b, c);
    RsCodeIs(id, x, r, out);
  }

  lemma RsCodeIs(id: nat, x: Option<BitVar>, r: Option<BitVar>, out: BitVar)
    ensures RsCode(id, x, r, out) == GateOpt(r, Label(id, BadQuality)) + GateOpt(x, Label(id, BadQuality))
      + (ResetPart(r, Label(id, Store)) + SetPart(x, id)) + RsTailCode(id, x, r, out)
  {
  }

  lemma {:induction false} RsCompose(id: nat, x: Option<BitVar>, r: Option<BitVar>, out: BitVar, a: seq<Instr>,
      b: seq<Instr>, c: seq<Instr>)
    requires Marks(a) == {} && Jumps(a, if NeverBad(x, r) then {} else {Label(id, BadQuality)})
    requires Marks(b) == {} && Jumps(b, {Label(id, Store), Label(id, WriteQ)})
    requires Jumps(c, {})
    requires Marks(c) == if NeverBad(x, r) then {Label(id, Store), Label(id, WriteQ)}
      else {Label(id, BadQuality), Label(id, Store), Label(id, WriteQ), Label(id, End)}
    ensures Fragment(a + b + c, id)
  {
    hide Marks, Jumps;
    var outs := if NeverBad(x, r) then {} else {Label(id, BadQuality)};
    Then(a, b, id, outs, {}, {Label(id, Store), Label(id, WriteQ)}, outs + {Label(id, Store), Label(id, WriteQ)});
    Then(a + b, c, id, outs + {Label(id, Store), Label(id, WriteQ)}, Marks(c), {}, {});
  }

  lemma {:induction false} EdgeNonePart(id: nat, kind: Edge, out: BitVar)
    ensures var c := EdgeNone(id, kind, out);
      Marks(c) == (if kind == Both then {} else {Label(id, SetZero), Label(id, SetGood)}) && Jumps(c, {})
  {
    hide Find;
    var c := EdgeNone(id, kind, out);
    if kind != Both { assert c[1] == Lab(Label(id, SetZero)) && c[4] == Lab(Label(id, SetGood)); }
  }

  lemma {:induction false} EdgeFragment(id: nat, kind: Edge, x: BitVar, prev: BitVar, out: BitVar)
    ensures Fragment(EdgeCode(id, kind, x, prev, out), id)
  {
    hide Find, Gate;
    var bad, zero, good := Label(id, BadQuality), Label(id, SetZero), Label(id, SetGood);
    var a, b, c, d := Gate(x, bad), Sample(x, prev) + (EdgeTest(id, kind) + Diff(x, out)), EdgeNone(id, kind, out),
      [Set, Lab(bad), Bld(out.Reg(), out.QBit())];
    var jumps := if kind == Both then {} else {zero};
    GatePart(x, bad);
    Straight(b, jumps);
    EdgeNonePart(id, kind, out);
    assert d[1] == Lab(bad) && Marks(d) == {bad} && Jumps(d, {});
    Then(a, b, id, {bad}, {}, jumps, {bad} + jumps);
    Then(a + b, c, id, {bad} + jumps, Marks(c), {}, {bad});
    Then(a + b + c, d, id, {bad}, {bad}, {}, {});
    assert EdgeCode(id, kind, x, prev, out) == a + b + c + d;
  }

  lemma {:induction false} OutBadPart(id: nat, x: BitVar, inverted: bool, out: BitVar)
    ensures Marks(OutBad(id, x, inverted, out)) == (if x.quality then {Label(id, BadQuality), Label(id, End)} else {})
    ensures Jumps(OutBad(id, x, inverted, out), {})
  {
    hide Find;
    var c := OutBad(id, x, inverted, out);
    if x.quality { assert c[1] == Lab(Label(id, BadQuality)) && c[|c| - 1] == Lab(Label(id, End)); }
  }

  lemma {:induction false} OutFragment(id: nat, x: BitVar, inverted: bool, out: BitVar)
    ensures Fragment(OutCode(id, x, inverted, out), id)
  {
    hide Find, OutBad, OutQuality, OutValue, OutCode;
    var bad := Label(id, BadQuality);
    var a, b, c := Gate(x, bad), OutQuality(x, out) + OutValue(x, inverted, out), OutBad(id, x, inverted, out);
    var jumps := if x.quality then {bad} else {};
    Straight(a, jumps);
    OutMiddlePart(x, inverted, out);
    OutBadPart(id, x, inverted, out);
    Then(a, b, id, jumps, {}, {}, jumps);
    Then(a + b, c, id, jumps, Marks(c), {}, {});
    OutParts(id, x, inverted, out);
  }

  lemma {:induction false} OutMiddlePart(x: BitVar, inverted: bool, out: BitVar)
    ensures var b := OutQuality(x, out) + OutValue(x, inverted, out); Marks(b) == {} && Jumps(b, {})
  {
    hide Find;
  }

  lemma {:induction false} OutParts(id: nat, x: BitVar, inverted: bool, out: BitVar)
    ensures OutCode(id, x, inverted, out) ==
      Gate(x, Label(id, BadQuality)) + (OutQuality(x, out) + OutValue(x, inverted, out)) + OutBad(id, x, inverted, out)
  {
    hide Gate, OutQuality, OutValue, OutBad;
  }

  /* ---- counter, delay, pulse ---- */

  lemma {:induction false} ResetPartOf(id: nat, r: Option<BitVar>, out: nat)
    ensures Marks(ResetCode(id, r, out)) == (if r.Some? then {Label(id, RstNotSet)} else {})
    ensures Jumps(ResetCode(id, r, out), {Label(id, End)})
  {
    hide Find;
    if r.Some? {
      var not, end := Label(id, RstNotSet), Label(id, End);
      var a, b := Gate(r.value, end) + ResetTest(id, r.value), ClearCode(id, out);
      Straight(a, {end, not});
      assert b[3] == Lab(not) && Marks(b) == {not} && Jumps(b, {end});
      Then(a, b, id, {end, not}, {not}, {end}, {end});
    }
  }

  lemma {:induction false} CounterFragment(id: nat, x: BitVar, r: Option<BitVar>, prev: BitVar, out: nat)
    ensures Fragment(CounterCode(id, x, r, prev, out), id)
  {
    hide Find, ResetCode;
    var end := Label(id, End);
    var a, b, c := ResetCode(id, r, out), Gate(x, end) + Sample(x, prev) + CountCode(id, x, out), [Lab(end)];
    ResetPartOf(id, r, out);
    Straight(b, {end});
    assert c[0] == Lab(end) && Marks(c) == {end} && Jumps(c, {});
    Then(a, b, id, {end}, {}, {end}, {end});
    Then(a + b, c, id, {end}, {end}, {}, {});
    assert CounterCode(id, x, r, prev, out) == a + b + c;
  }

  lemma {:induction false} DelayBodyPart(id: nat, tmr: nat, clock: nat, d0: Byte, d1: Byte, d2: Byte)
    ensures Marks(DelayBody(id, tmr, clock, d0, d1, d2)) == {Label(id, DoStuff), Label(id, LoadValue)}
    ensures Jumps(DelayBody(id, tmr, clock, d0, d1, d2), {Label(id, SetValue)})
  {
    hide Find;
    var stuff, load, value := Label(id, DoStuff), Label(id, LoadValue), Label(id, SetValue);
    var a, b, c := LoadClock(id, clock), DelayRunning(id, tmr, d0, d1, d2), DelayStart(id, tmr);
    assert a[0] == Lab(stuff) && Marks(a) == {stuff} && Jumps(a, {});
    Straight(b, {load, value});
    assert c[0] == Lab(load) && Marks(c) == {load} && Jumps(c, {});
    Then(a, b, id, {}, {}, {load, value}, {load, value});
    Then(a + b, c, id, {load, value}, {load}, {}, {value});
  }

  lemma {:induction false} DelayFragment(id: nat, x: BitVar, out: BitVar, tmr: nat, clock: nat, d0: Byte, d1: Byte,
      d2: Byte)
    ensures Fragment(DelayCode(id, x, out, tmr, clock, d0, d1, d2), id)
  {
    hide Find, DelayBody;
    var stuff, value, end := Label(id, DoStuff), Label(id, SetValue), Label(id, End);
    var a, b, c := DelayGate(id, x, out) + DelayInput(id, x, tmr), DelayBody(id, tmr, clock, d0, d1, d2),
      DelayStore(id, out, tmr) + DelayEnd(id, x);
    var ends := if x.quality then {end} else {};
    Straight(a, {stuff, value} + ends);
    DelayBodyPart(id, tmr, clock, d0, d1, d2);
    assert c[0] == Lab(value);
    if x.quality { assert c[3] == Lab(end); }
    assert Marks(c) == {value} + ends && Jumps(c, {});
    Then(a, b, id, {stuff, value} + ends, Marks(b), {value}, {value} + ends);
    Then(a + b, c, id, {value} + ends, {value} + ends, {}, {});
    assert DelayCode(id, x, out, tmr, clock, d0, d1, d2) == a + b + c;
  }

  lemma {:induction false} FindEdgePart(id: nat, fall: bool, prev: BitVar)
    ensures Marks(FindEdge(id, fall, prev)) ==
      (if fall then {Label(id, EdgeOut), Label(id, EdgeOutZero)} else {Label(id, EdgeOut)})
    ensures Jumps(FindEdge(id, fall, prev), {})
  {
    hide Find;
    var c := FindEdge(id, fall, prev);
    if fall {
      assert c[4] == Lab(Label(id, EdgeOutZero)) && c[6] == Lab(Label(id, EdgeOut));
    } else {
      assert c[5] == Lab(Label(id, EdgeOut));
    }
  }

  lemma {:induction false} PulseBackPart(id: nat, out: BitVar, tmr: nat, d0: Byte, d1: Byte)
    ensures Marks(PulseBack(id, out, tmr, d0, d1)) ==
      {Label(id, ResetCounter), Label(id, SetOut), Label(id, SkipSetOut)}
    ensures Jumps(PulseBack(id, out, tmr, d0, d1), {})
  {
    hide Find;
    var reset, set_, skip := Label(id, ResetCounter), Label(id, SetOut), Label(id, SkipSetOut);
    var a, b := PulseMiddle(id, out, tmr, d0, d1), PulseStart(id, tmr) + PulseStore(id, out);
    Straight(a, {reset, set_, skip});
    assert b[0] == Lab(reset) && b[4] == Lab(set_) && b[6] == Lab(skip);
    assert Marks(b) == {reset, set_, skip} && Jumps(b, {});
    Then(a, b, id, {reset, set_, skip}, Marks(b), {}, {});
    assert PulseBack(id, out, tmr, d0, d1) == a + b;
  }

  lemma {:induction false} PulseFragment(id: nat, x: BitVar, out: BitVar, prev: BitVar, tmr: nat, clock: nat,
      fall: bool, d0: Byte, d1: Byte)
    ensures Fragment(PulseCode(id, x, out, prev, tmr, clock, fall, d0, d1), id)
  {
    hide Find, FindEdge, PulseBack, PulseCode;
    var quality := Label(id, SetQuality);
    var a, b, c, d, e := Gate(x, quality) + TakeInput(x, prev), FindEdge(id, fall, prev), LoadClock16(clock),
      PulseBack(id, out, tmr, d0, d1), PulseQuality(id, x, out);
    var jumps := if x.quality then {quality} else {};
    Straight(a, jumps);
    FindEdgePart(id, fall, prev);
    Straight(c, {});
    PulseBackPart(id, out, tmr, d0, d1);
    if x.quality { assert e[1] == Lab(quality); }
    assert Marks(e) == jumps && Jumps(e, {});
    Then(a, b, id, jumps, Marks(b), {}, jumps);
    Then(a + b, c, id, jumps, {}, {}, jumps);
    Then(a + b + c, d, id, jumps, Marks(d), {}, jumps);
    Then(a + b + c + d, e, id, jumps, jumps, {}, {});
    PulseParts(id, x, out, prev, tmr, clock, fall, d0, d1);
  }

  lemma {:induction false} PulseParts(id: nat, x: BitVar, out: BitVar, prev: BitVar, tmr: nat, clock: nat, fall: bool,
      d0: Byte, d1: Byte)
    ensures PulseCode(id, x, out, prev, tmr, clock, fall, d0, d1) == Gate(x, Label(id, SetQuality)) + TakeInput(x, prev)
      + FindEdge(id, fall, prev) + LoadClock16(clock) + PulseBack(id, out, tmr, d0, d1) + PulseQuality(id, x, out)
  {
    hide Gate, TakeInput, FindEdge, LoadClock16, PulseBack, PulseQuality;
  }

  /* ---- encoder and decoder ---- */

  lemma {:induction false} WiresPart(id: nat, wires: seq<Slot>, addr: nat, size: nat)
    ensures var c := WiresCode(id, wires, addr, size); Marks(c) == {} && Jumps(c, {Label(id, BadQuality)})
  {
    hide Find, WireCode;
    if wires != [] {
      var n, bad := |wires| - 1, Label(id, BadQuality);
      var a := WiresCode(id, wires[..n], addr, size);
      WiresPart(id, wires[..n], addr, size);
      if wires[n].BitIn? {
        WirePart(id, wires[n].x, n, addr, size);
        Then(a, WireCode(id, wires[n].x, n, addr, size), id, {bad}, {}, {bad}, {bad});
      } else {
        assert WiresCode(id, wires, addr, size) == a;
      }
    }
  }

  lemma {:induction false} WirePart(id: nat, x: BitVar, ix: nat, addr: nat, size: nat)
    ensures var c := WireCode(id, x, ix, addr, size); Marks(c) == {} && Jumps(c, {Label(id, BadQuality)})
  {
    hide Find;
    Straight(WireCode(id, x, ix, addr, size), {Label(id, BadQuality)});
  }

  lemma {:induction false} EncoderFragment(id: nat, wires: seq<Slot>, addr: nat, size: nat)
    ensures Fragment(EncoderCode(id, wires, addr, size), id)
  {
    hide Find, WiresCode;
    var bad, end := Label(id, BadQuality), Label(id, End);
    var a, b := WiresCode(id, wires, addr, size), EncoderEnd(id, addr + size);
    WiresPart(id, wires, addr, size);
    assert b[2] == Lab(bad) && b[4] == Lab(end);
    assert Marks(b) == {bad, end} && Jumps(b, {});
    Then(a, b, id, {bad}, {bad, end}, {}, {});
  }

  lemma {:induction false} DecoderStepsPart(addr: nat, outs: seq<BitVar>)
    ensures Marks(DecoderSteps(addr, outs)) == {} && Jumps(DecoderSteps(addr, outs), {})
  {
    hide Find;
    if outs != [] {
      var n := |outs| - 1;
      var a, b := DecoderSteps(addr, outs[..n]), DecoderStep(addr, n, outs[n]);
      DecoderStepsPart(addr, outs[..n]);
      Straight(b, {});
      Then(a, b, 0, {}, {}, {}, {});
    }
  }

  lemma {:induction false} DecoderFragment(id: nat, addr: nat, size: nat, outs: seq<BitVar>)
    ensures Fragment(DecoderCode(addr, size, outs), id)
  {
    hide Find, DecoderSteps;
    var load := [Alu(Mov(R(16), Cell(addr + size)))];
    Straight(load, {});
    DecoderStepsPart(addr, Decoded(size, outs));
    Then(load, DecoderSteps(addr, Decoded(size, outs)), id, {}, {}, {}, {});
  }

  lemma {:induction false} TextFragment(id: nat, f: State -> State)
    ensures Fragment([Text(f)], id)
  {
    hide Find;
    Straight([Text(f)], {});
  }
}
