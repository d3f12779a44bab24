/** The generators: each appends the code of one block to the program. */
module Codegen {
  import opened Options
  import opened Avr
  import opened Blocks
  import opened Gates
  import opened Latches
  import opened Timers
  import opened Pulses
  import opened Timetable
  import opened Encoders

  /** The text of one block. */
  class AsmBlock {
    const id: nat
    var body: seq<Instr>

    constructor (id: nat)
      ensures this.id == id && body == []
    {
      this.id := id;
      body := [];
    }

    method AddCmd(i: Instr)
      modifies this
      ensures body == old(body) + [i]
    {
      body := body + [i];
    }

    method AddLabel(name: Name)
      modifies this
      ensures body == old(body) + [Lab(Label(id, name))]
    {
      AddCmd(Lab(Label(id, name)));
    }

    method AddBranch(cond: Cond, name: Name)
      modifies this
      ensures body == old(body) + [Br(cond, Label(id, name))]
    {
      AddCmd(Br(cond, Label(id, name)));
    }
  }

  /** Branches away when the input's quality is bad. */
  method AddQualityTest(bl: AsmBlock, x: BitVar, name: Name)
    modifies bl
    ensures bl.body == old(bl.body) + Gate(x, Label(bl.id, name))
  {
    if x.quality {
      bl.AddCmd(Bst(x.Reg(), x.QBit()));
      bl.AddBranch(TClear, name);
    }
  }

  /** The slots with something connected. */
  function Connected(slots: seq<Slot>): nat {
    if slots == [] then 0 else Connected(slots[..|slots| - 1]) + if slots[|slots| - 1].Open? then 0 else 1
  }

  lemma NoSteps(addr: nat, outs: seq<BitVar>)
    ensures DecoderSteps(addr, outs[..0]) == []
  {
  }

  lemma NextStep(addr: nat, outs: seq<BitVar>, ix: nat)
    requires ix < |outs|
    ensures DecoderSteps(addr, outs[..ix + 1]) ==
      DecoderSteps(addr, outs[..ix]) + CopyTo(addr + ix / 8, ix % 8, outs[ix])
  {
    assert outs[..ix + 1][..ix] == outs[..ix];
  }

  lemma LetterIs(ix: nat, letter: int)
    requires 8 * letter < ix <= 8 * letter + 8
    ensures ix / 8 == if ix % 8 == 0 then letter + 1 else letter
  {
  }

  class CodeGenerator {
    var code: seq<Instr>

    constructor ()
      ensures code == []
    {
      code := [];
    }

    method InputHasValidVariable(slots: seq<Slot>) returns (n: nat)
      ensures n == Connected(slots)
    {
      n := 0;
      for ix := 0 to |slots|
        invariant n == Connected(slots[..ix])
      {
        assert slots[..ix + 1][..ix] == slots[..ix];
        if !slots[ix].Open? { n := n + 1; }
      }
      assert slots[..|slots|] == slots;
    }

    /** A bad input clears the quality, the dominating value ends the search. */
    method AddInput(bl: AsmBlock, or: bool, x: BitVar, store: Name)
      modifies bl
      ensures bl.body == old(bl.body) + InputCode(or, x, Label(bl.id, store))
    {
      if x.quality {
        bl.AddCmd(Bst(x.Reg(), x.QBit()));
        bl.AddCmd(Over(TSet, 2));
        bl.AddCmd(Bld(Tmp, 0));
        bl.AddCmd(Over(Always, 2));
      }
      bl.AddCmd(Bst(x.Reg(), x.bit));
      bl.AddBranch(if or then TSet else TClear, store);
    }

    method GenerateOr(id: nat, slots: seq<Slot>, out: BitVar)
      modifies this
      ensures code == old(code) + if Connected(slots) == 0 then [] else GateCode(id, true, slots, out)
    {
      var connected := InputHasValidVariable(slots);
      if connected == 0 { return; }
      var bl := new AsmBlock(id);
      bl.AddCmd(Alu(Clr(Tmp)));
      bl.AddCmd(Alu(Inc(Tmp)));
      for ix := 0 to |slots|
        invariant bl.id == id && code == old(code) && fresh(bl)
        invariant bl.body == GateStart() + InputsCode(true, slots[..ix], Label(id, StoreOne))
      {
        assert slots[..ix + 1][..ix] == slots[..ix];
        if slots[ix].BitIn? { AddInput(bl, true, slots[ix].x, StoreOne); }
      }
      assert slots[..|slots|] == slots;
      OrEnd(bl, out);
      code := code + bl.body;
    }

    method GenerateAnd(id: nat, slots: seq<Slot>, out: BitVar)
      modifies this
      ensures code == old(code) + if Connected(slots) == 0 then [] else GateCode(id, false, slots, out)
    {
      var connected := InputHasValidVariable(slots);
      if connected == 0 { return; }
      var bl := new AsmBlock(id);
      bl.AddCmd(Alu(Clr(Tmp)));
      bl.AddCmd(Alu(Inc(Tmp)));
      for ix := 0 to |slots|
        invariant bl.id == id && code == old(code) && fresh(bl)
        invariant bl.body == GateStart() + InputsCode(false, slots[..ix], Label(id, StoreZero))
      {
        assert slots[..ix + 1][..ix] == slots[..ix];
        if slots[ix].BitIn? { AddInput(bl, false, slots[ix].x, StoreZero); }
      }
      assert slots[..|slots|] == slots;
      AndEnd(bl, out);
      code := code + bl.body;
    }

    method OrEnd(bl: AsmBlock, out: BitVar)
      modifies bl
      ensures bl.body == old(bl.body) + GateEnd(bl.id, true, out)
    {
      bl.AddCmd(Bld(out.Reg(), out.bit));
      bl.AddCmd(Bst(Tmp, 0));
      bl.AddCmd(Bld(out.Reg(), out.QBit()));
      bl.AddBranch(Always, End);
      bl.AddLabel(StoreOne);
      bl.AddCmd(Bld(out.Reg(), out.bit));
      bl.AddCmd(Bld(out.Reg(), out.QBit()));
      bl.AddLabel(End);
    }

    method AndEnd(bl: AsmBlock, out: BitVar)
      modifies bl
      ensures bl.body == old(bl.body) + GateEnd(bl.id, false, out)
    {
      bl.AddCmd(Bld(out.Reg(), out.bit));
      bl.AddCmd(Bst(Tmp, 0));
      bl.AddCmd(Bld(out.Reg(), out.QBit()));
      bl.AddBranch(Always, End);
      bl.AddLabel(StoreZero);
      bl.AddCmd(Bld(out.Reg(), out.bit));
      bl.AddCmd(Set);
      bl.AddCmd(Bld(out.Reg(), out.QBit()));
      bl.AddLabel(End);
    }

    method GenerateNot(id: nat, x: Slot, out: BitVar)
      modifies this
      ensures code == old(code) + if x.BitIn? then NotCode(id, x.x, out) else []
    {
      if x.Open? { return; }
      if x.BitIn? {
        var bl := new AsmBlock(id);
        AddQualityTest(bl, x.x, BadQuality);
        bl.AddCmd(Bst(x.x.Reg(), x.x.bit));
        bl.AddCmd(Over(TSet, 2));
        bl.AddCmd(Set);
        bl.AddCmd(Over(Always, 1));
        bl.AddCmd(Clt);
        assert bl.body == Gate(x.x, Label(id, BadQuality)) + Inverted(x.x);
        bl.AddCmd(Bld(out.Reg(), out.bit));
        bl.AddCmd(Set);
        bl.AddLabel(BadQuality);
        bl.AddCmd(Bld(out.Reg(), out.QBit()));
        assert bl.body == NotCode(id, x.x, out);
        code := code + bl.body;
      }
    }

    method GenerateRsTrigger(id: nat, x: Option<BitVar>, r: Option<BitVar>, out: BitVar)
      modifies this
      ensures code == old(code) + if x.None? && r.None? then [] else RsCode(id, x, r, out)
    {
      hide Gate, ResetPart, SetPart, BadPart, StorePart, EndPart;
      if x.None? && r.None? { return; }
      var bl := new AsmBlock(id);
      var ioCount := 0;
      if r.Some? {
        AddQualityTest(bl, r.value, BadQuality);
        if !r.value.quality { ioCount := ioCount + 1; }
      }
      if x.Some? {
        AddQualityTest(bl, x.value, BadQuality);
        if !x.value.quality { ioCount := ioCount + 1; }
      }
      assert bl.body == GateOpt(r, Label(id, BadQuality)) + GateOpt(x, Label(id, BadQuality));
      RsTests(bl, x, r);
      RsStores(bl, x, r, out, ioCount);
      code := code + bl.body;
    }

    method RsTests(bl: AsmBlock, x: Option<BitVar>, r: Option<BitVar>)
      modifies bl
      ensures bl.body == old(bl.body) + ResetPart(r, Label(bl.id, Store)) + SetPart(x, bl.id)
    {
      if r.Some? {
        bl.AddCmd(Alu(Ldi(R(24), OneBit(r.value.bit))));
        bl.AddCmd(Alu(Eor(R(24), r.value.Reg())));
        bl.AddCmd(Bst(R(24), r.value.bit));
        bl.AddBranch(TClear, Store);
      }
      if x.Some? {
        bl.AddCmd(Bst(x.value.Reg(), x.value.bit));
        bl.AddBranch(TSet, Store);
        bl.AddBranch(Always, WriteQ);
      }
    }

    method RsStores(bl: AsmBlock, x: Option<BitVar>, r: Option<BitVar>, out: BitVar, ioCount: nat)
      requires ioCount == 2 <==> NeverBad(x, r)
      modifies bl
      ensures bl.body == old(bl.body) + BadPart(bl.id, x, r, out) + StorePart(bl.id, out) + EndPart(bl.id, x, r)
    {
      if ioCount != 2 {
        bl.AddLabel(BadQuality);
        bl.AddCmd(Bld(out.Reg(), out.QBit()));
        bl.AddBranch(Always, End);
      }
      bl.AddLabel(Store);
      bl.AddCmd(Bld(out.Reg(), out.bit));
      bl.AddLabel(WriteQ);
      bl.AddCmd(Set);
      bl.AddCmd(Bld(out.Reg(), out.QBit()));
      if ioCount != 2 {
        bl.AddLabel(End);
      }
    }

    method GeneratePositiveEdge(id: nat, input: Option<BitVar>, prev: BitVar, out: BitVar)
      modifies this
      ensures code == old(code) + if input.None? then [] else EdgeCode(id, Rising, input.value, prev, out)
    {
      hide Gate, Sample, Diff, EdgeNone;
      if input.None? { return; }
      var x := input.value;
      var bl := new AsmBlock(id);
      AddQualityTest(bl, x, BadQuality);
      AddSample(bl, x, prev);
      bl.AddBranch(TClear, SetZero);
      AddDiff(bl, x, out);
      AddNoEdge(bl, Rising, out);
      AddGoodQuality(bl, out);
      assert bl.body == EdgeCode(id, Rising, x, prev, out);
      code := code + bl.body;
    }

    method GenerateNegativeEdge(id: nat, input: Option<BitVar>, prev: BitVar, out: BitVar)
      modifies this
      ensures code == old(code) + if input.None? then [] else EdgeCode(id, Falling, input.value, prev, out)
    {
      hide Gate, Sample, Diff, EdgeNone;
      if input.None? { return; }
      var x := input.value;
      var bl := new AsmBlock(id);
      AddQualityTest(bl, x, BadQuality);
      AddSample(bl, x, prev);
      bl.AddBranch(TSet, SetZero);
      AddDiff(bl, x, out);
      AddNoEdge(bl, Falling, out);
      AddGoodQuality(bl, out);
      assert bl.body == EdgeCode(id, Falling, x, prev, out);
      code := code + bl.body;
    }

    method GenerateAnyEdge(id: nat, input: Option<BitVar>, prev: BitVar, out: BitVar)
      modifies this
      ensures code == old(code) + if input.None? then [] else EdgeCode(id, Both, input.value, prev, out)
    {
      hide Gate, Sample, Diff;
      if input.None? { return; }
      var x := input.value;
      var bl := new AsmBlock(id);
      AddQualityTest(bl, x, BadQuality);
      AddSample(bl, x, prev);
      AddDiff(bl, x, out);
      AddGoodQuality(bl, out);
      assert bl.body == EdgeCode(id, Both, x, prev, out);
      code := code + bl.body;
    }

    method AddSample(bl: AsmBlock, x: BitVar, prev: BitVar)
      modifies bl
      ensures bl.body == old(bl.body) + Sample(x, prev)
    {
      bl.AddCmd(Bst(prev.Reg(), prev.bit));
      bl.AddCmd(Bld(R(24), x.bit));
      bl.AddCmd(Bst(x.Reg(), x.bit));
      bl.AddCmd(Bld(prev.Reg(), prev.bit));
    }

    method AddDiff(bl: AsmBlock, x: BitVar, out: BitVar)
      modifies bl
      ensures bl.body == old(bl.body) + Diff(x, out)
    {
      bl.AddCmd(Alu(Eor(R(24), x.Reg())));
      bl.AddCmd(Bst(R(24), x.bit));
      bl.AddCmd(Bld(out.Reg(), out.bit));
    }

    /** The input has the level that cannot be an edge of this kind. */
    method AddNoEdge(bl: AsmBlock, ghost kind: Edge, out: BitVar)
      requires kind != Both
      modifies bl
      ensures bl.body == old(bl.body) + EdgeNone(bl.id, kind, out)
    {
      bl.AddBranch(Always, SetGood);
      bl.AddLabel(SetZero);
      bl.AddCmd(Clt);
      bl.AddCmd(Bld(out.Reg(), out.bit));
      bl.AddLabel(SetGood);
    }

    method AddGoodQuality(bl: AsmBlock, out: BitVar)
      modifies bl
      ensures bl.body == old(bl.body) + [Set, Lab(Label(bl.id, BadQuality)), Bld(out.Reg(), out.QBit())]
    {
      bl.AddCmd(Set);
      bl.AddLabel(BadQuality);
      bl.AddCmd(Bld(out.Reg(), out.QBit()));
    }

    /** The bit case of an output. */
    method GenerateOutput(id: nat, input: Option<BitVar>, inverted: bool, out: BitVar)
      modifies this
      ensures code == old(code) + if input.None? then [] else OutCode(id, input.value, inverted, out)
    {
      hide Gate, OutQuality, OutValue, OutBad;
      if input.None? { return; }
      var x := input.value;
      var bl := new AsmBlock(id);
      AddQualityTest(bl, x, BadQuality);
      OutputQuality(bl, x, out);
      OutputValue(bl, x, inverted, out);
      OutputEnd(bl, x, inverted, out);
      code := code + bl.body;
    }

    method OutputQuality(bl: AsmBlock, x: BitVar, out: BitVar)
      modifies bl
      ensures bl.body == old(bl.body) + OutQuality(x, out)
    {
      if out.quality {
        if !x.quality { bl.AddCmd(Set); }
        bl.AddCmd(Bld(out.Reg(), out.QBit()));
      }
    }

    method OutputValue(bl: AsmBlock, x: BitVar, inverted: bool, out: BitVar)
      modifies bl
      ensures bl.body == old(bl.body) + OutValue(x, inverted, out)
    {
      bl.AddCmd(Bst(x.Reg(), x.bit));
      if inverted {
        bl.AddCmd(Over(TSet, 2));
        bl.AddCmd(Set);
        bl.AddCmd(Over(Always, 1));
        bl.AddCmd(Clt);
      }
      bl.AddCmd(Bld(out.Reg(), out.bit));
    }

    method OutputEnd(bl: AsmBlock, x: BitVar, inverted: bool, out: BitVar)
      modifies bl
      ensures bl.body == old(bl.body) + OutBad(bl.id, x, inverted, out)
    {
      if x.quality {
        bl.AddBranch(Always, End);
        bl.AddLabel(BadQuality);
        if out.quality {
          bl.AddCmd(Bld(out.Reg(), out.QBit()));
        } else {
          if inverted { bl.AddCmd(Set); }
          bl.AddCmd(Bld(out.Reg(), out.bit));
        }
        bl.AddLabel(End);
      }
    }

    method GenerateCounter(id: nat, input: Option<BitVar>, r: Option<BitVar>, prev: BitVar, out: nat)
      modifies this
      ensures code == old(code) + if input.None? then [] else CounterCode(id, input.value, r, prev, out)
    {
      hide Gate, Sample, CountCode;
      if input.None? { return; }
      var x := input.value;
      var bl := new AsmBlock(id);
      if r.Some? {
        AddQualityTest(bl, r.value, End);
        bl.AddCmd(Bst(r.value.Reg(), r.value.bit));
        bl.AddBranch(TClear, RstNotSet);
        bl.AddCmd(Alu(Clr(Cell(out))));
        bl.AddCmd(Alu(Clr(Cell(out + 1))));
        bl.AddBranch(Always, End);
        bl.AddLabel(RstNotSet);
      }
      assert bl.body == ResetCode(id, r, out);
      AddQualityTest(bl, x, End);
      AddSample(bl, x, prev);
      AddCount(bl, x, out);
      bl.AddLabel(End);
      code := code + bl.body;
    }

    method AddCount(bl: AsmBlock, x: BitVar, out: nat)
      modifies bl
      ensures bl.body == old(bl.body) + CountCode(bl.id, x, out)
    {
      bl.AddBranch(TClear, End);
      bl.AddCmd(Alu(Eor(R(24), x.Reg())));
      bl.AddCmd(Alu(Andi(R(24), OneBit(x.bit))));
      bl.AddBranch(ZSet, End);
      bl.AddCmd(Alu(Sec));
      bl.AddCmd(Alu(Adc(Cell(out), Zero)));
      bl.AddCmd(Alu(Adc(Cell(out + 1), Zero)));
    }

    /** `ticks` is the delay in clock ticks; the code compares its low three bytes. */
    method GenerateDelay(id: nat, input: Option<BitVar>, out: BitVar, tmr: nat, clock: nat, ticks: nat)
      modifies this
      ensures code == old(code) + if input.None? then []
        else
          DelayCode(id, input.value, out, tmr, clock, FromNat(ticks), FromNat(ticks / 0x100), FromNat(ticks / 0x1_0000))
    {
      hide FromNat, DelayGate, DelayInput, DelayBody;
      if input.None? { return; }
      var x := input.value;
      var bl := new AsmBlock(id);
      DelayAbsent(bl, x, out, tmr);
      DelayPresent(bl, tmr, clock, ticks);
      bl.AddLabel(SetValue);
      bl.AddCmd(Bld(out.Reg(), out.bit));
      bl.AddCmd(Bld(Cell(tmr + 3), 1));
      if x.quality { bl.AddLabel(End); }
      code := code + bl.body;
    }

    method DelayAbsent(bl: AsmBlock, x: BitVar, out: BitVar, tmr: nat)
      modifies bl
      ensures bl.body == old(bl.body) + DelayGate(bl.id, x, out) + DelayInput(bl.id, x, tmr)
    {
      if x.quality {
        bl.AddCmd(Bst(x.Reg(), x.QBit()));
        bl.AddCmd(Bld(out.Reg(), out.QBit()));
        bl.AddBranch(TClear, End);
      }
      bl.AddCmd(Bst(x.Reg(), x.bit));
      bl.AddBranch(TSet, DoStuff);
      bl.AddCmd(Alu(Mov(Cell(tmr + 3), Zero)));
      bl.AddBranch(Always, SetValue);
    }

    /** There is an input signal. */
    method DelayPresent(bl: AsmBlock, tmr: nat, clock: nat, ticks: nat)
      modifies bl
      ensures bl.body ==
        old(bl.body) + DelayBody(bl.id, tmr, clock, FromNat(ticks), FromNat(ticks / 0x100), FromNat(ticks / 0x1_0000))
    {
      hide FromNat, LoadClock, DelayRunning, DelayStart;
      AddLoadClock(bl, clock);
      DelayCheck(bl, tmr, ticks);
      AddDelayStart(bl, tmr);
    }

    method AddLoadClock(bl: AsmBlock, clock: nat)
      modifies bl
      ensures bl.body == old(bl.body) + LoadClock(bl.id, clock)
    {
      bl.AddLabel(DoStuff);
      bl.AddCmd(Alu(Cli));
      bl.AddCmd(Alu(Lds(R(16), clock)));
      bl.AddCmd(Alu(Lds(R(17), clock + 1)));
      bl.AddCmd(Alu(Lds(R(18), clock + 2)));
      bl.AddCmd(Alu(Sei));
    }

    /** The timer runs: has the delay passed? */
    method DelayCheck(bl: AsmBlock, tmr: nat, ticks: nat)
      modifies bl
      ensures bl.body ==
        old(bl.body) + DelayRunning(bl.id, tmr, FromNat(ticks), FromNat(ticks / 0x100), FromNat(ticks / 0x1_0000))
    {
      hide FromNat, ElapsedCode;
      bl.AddCmd(Alu(Tst(Cell(tmr + 3))));
      bl.AddBranch(ZSet, LoadValue);
      bl.AddCmd(Bst(Cell(tmr + 3), 1));
      bl.AddBranch(TSet, SetValue);
      bl.AddCmd(Set);
      assert bl.body == old(bl.body) + DelayTest(bl.id, tmr);
      AddElapsed(bl, tmr, ticks);
      bl.AddBranch(CClear, SetValue);
      bl.AddCmd(Clt);
      bl.AddBranch(Always, SetValue);
    }

    /** The previous input was inactive. */
    method AddDelayStart(bl: AsmBlock, tmr: nat)
      modifies bl
      ensures bl.body == old(bl.body) + DelayStart(bl.id, tmr)
    {
      bl.AddLabel(LoadValue);
      bl.AddCmd(Alu(Mov(Cell(tmr), R(16))));
      bl.AddCmd(Alu(Mov(Cell(tmr + 1), R(17))));
      bl.AddCmd(Alu(Mov(Cell(tmr + 2), R(18))));
      bl.AddCmd(Bld(Cell(tmr + 3), 0));
      bl.AddCmd(Clt);
    }

    method AddElapsed(bl: AsmBlock, tmr: nat, ticks: nat)
      modifies bl
      ensures bl.body ==
        old(bl.body) + ElapsedCode(tmr, FromNat(ticks), FromNat(ticks / 0x100), FromNat(ticks / 0x1_0000))
    {
      hide FromNat;
      bl.AddCmd(Alu(Sub(R(16), Cell(tmr))));
      bl.AddCmd(Alu(Sbc(R(17), Cell(tmr + 1))));
      bl.AddCmd(Alu(Sbc(R(18), Cell(tmr + 2))));
      bl.AddCmd(Alu(Cpi(R(16), FromNat(ticks))));
      bl.AddCmd(Alu(Sbci(R(17), FromNat(ticks / 0x100))));
      bl.AddCmd(Alu(Sbci(R(18), FromNat(ticks / 0x1_0000))));
    }

    method PulseGood(bl: AsmBlock, x: BitVar, out: BitVar)
      modifies bl
      ensures bl.body == old(bl.body) + PulseQuality(bl.id, x, out)
    {
      if x.quality {
        bl.AddCmd(Set);
        bl.AddLabel(SetQuality);
        bl.AddCmd(Bld(out.Reg(), out.QBit()));
      }
    }

    method GeneratePulse(id: nat, input: Option<BitVar>, out: BitVar, prev: BitVar, tmr: nat, clock: nat, fall: bool,
        width: nat)
      modifies this
      ensures code == old(code) + if input.None? then []
        else PulseCode(id, input.value, out, prev, tmr, clock, fall, FromNat(width), FromNat(width / 0x100))
    {
      hide FromNat, Gate, PulseFront, PulseBack, PulseTest;
      if input.None? { return; }
      var x := input.value;
      var bl := new AsmBlock(id);
      AddQualityTest(bl, x, SetQuality);
      PulseInput(bl, x, prev, clock, fall);
      PulseTimer(bl, out, tmr, width);
      PulseGood(bl, x, out);
      code := code + bl.body;
    }

    /** Leaves the edge in T and the time in r17:r16. */
    method PulseInput(bl: AsmBlock, x: BitVar, prev: BitVar, clock: nat, fall: bool)
      modifies bl
      ensures bl.body == old(bl.body) + PulseFront(bl.id, x, prev, clock, fall)
    {
      hide FindEdge;
      bl.AddCmd(Alu(Mov(R(16), prev.Reg())));
      bl.AddCmd(Bst(x.Reg(), x.bit));
      bl.AddCmd(Bld(prev.Reg(), prev.bit));
      assert bl.body == old(bl.body) + TakeInput(x, prev);
      AddFindEdge(bl, fall, prev);
      bl.AddCmd(Alu(Cli));
      bl.AddCmd(Alu(Lds(R(16), clock)));
      bl.AddCmd(Alu(Lds(R(17), clock + 1)));
      bl.AddCmd(Alu(Sei));
    }

    method AddFindEdge(bl: AsmBlock, fall: bool, prev: BitVar)
      modifies bl
      ensures bl.body == old(bl.body) + FindEdge(bl.id, fall, prev)
    {
      if !fall {
        bl.AddBranch(TClear, EdgeOut);
        bl.AddCmd(Alu(Com(R(16))));
        bl.AddCmd(Bst(R(16), prev.bit));
        bl.AddBranch(TClear, EdgeOut);
        bl.AddCmd(Set);
        bl.AddLabel(EdgeOut);
      } else {
        bl.AddBranch(TSet, EdgeOutZero);
        bl.AddCmd(Bst(R(16), prev.bit));
        bl.AddBranch(TClear, EdgeOut);
        bl.AddBranch(Always, EdgeOut);
        bl.AddLabel(EdgeOutZero);
        bl.AddCmd(Clt);
        bl.AddLabel(EdgeOut);
      }
    }

    method PulseTimer(bl: AsmBlock, out: BitVar, tmr: nat, width: nat)
      modifies bl
      ensures bl.body == old(bl.body) + PulseBack(bl.id, out, tmr, FromNat(width), FromNat(width / 0x100))
    {
      hide FromNat, PulseStart, PulseStore;
      bl.AddBranch(TSet, ResetCounter);
      bl.AddCmd(Bst(out.Reg(), out.bit));
      bl.AddBranch(TClear, SkipSetOut);
      assert bl.body == old(bl.body) + PulseTest(bl.id, out);
      bl.AddCmd(Alu(Sub(R(16), Cell(tmr))));
      bl.AddCmd(Alu(Sbc(R(17), Cell(tmr + 1))));
      bl.AddCmd(Alu(Cpi(R(16), FromNat(width))));
      bl.AddCmd(Alu(Sbci(R(17), FromNat(width / 0x100))));
      assert bl.body ==
        old(bl.body) + (PulseTest(bl.id, out) + Elapsed16Code(tmr, FromNat(width), FromNat(width / 0x100)));
      bl.AddBranch(CSet, SkipSetOut);
      bl.AddCmd(Clt);
      bl.AddBranch(Always, SetOut);
      assert bl.body == old(bl.body) + PulseMiddle(bl.id, out, tmr, FromNat(width), FromNat(width / 0x100));
      PulseRestart(bl, out, tmr);
    }

    method PulseRestart(bl: AsmBlock, out: BitVar, tmr: nat)
      modifies bl
      ensures bl.body == old(bl.body) + PulseStart(bl.id, tmr) + PulseStore(bl.id, out)
    {
      bl.AddLabel(ResetCounter);
      bl.AddCmd(Alu(Mov(Cell(tmr), R(16))));
      bl.AddCmd(Alu(Mov(Cell(tmr + 1), R(17))));
      bl.AddCmd(Set);
      bl.AddLabel(SetOut);
      bl.AddCmd(Bld(out.Reg(), out.bit));
      bl.AddLabel(SkipSetOut);
    }

    /** A table without entries gets no code. */
    method GenerateBlockSchedule(id: nat, en: Option<BitVar>, out: BitVar, t: Timer)
      modifies this
      ensures code == old(code) + if t.size == 0 then [] else ScheduleCode(id, en, out, t)
    {
      hide FromNat, FrontCode, BadCode, SetupCode, LoopBody;
      if t.size == 0 { return; }
      var bl := new AsmBlock(id);
      ScheduleFront(bl, en, t);
      ScheduleLoop(bl, out, t);
      bl.AddLabel(CopyT);
      bl.AddCmd(Bld(out.Reg(), out.bit));
      bl.AddCmd(Set);
      bl.AddCmd(Bld(out.Reg(), out.QBit()));
      bl.AddLabel(BlockExit);
      code := code + bl.body;
    }

    method ScheduleFront(bl: AsmBlock, en: Option<BitVar>, t: Timer)
      modifies bl
      ensures bl.body == old(bl.body) + FrontCode(bl.id, en, t)
    {
      hide Gate;
      bl.AddCmd(Clt);
      bl.AddCmd(Alu(Tst(Cell(t.hourQ))));
      bl.AddBranch(ZSet, BadQuality);
      if en.Some? {
        AddQualityTest(bl, en.value, BadQuality);
        bl.AddCmd(Bst(en.value.Reg(), en.value.bit));
        bl.AddBranch(TClear, CopyT);
        bl.AddCmd(Clt);
      }
      bl.AddCmd(Alu(Cpi(Cell(t.sec), t.active)));
      bl.AddBranch(CClear, CopyT);
      bl.AddBranch(Always, LoopSetup);
    }

    method ScheduleLoop(bl: AsmBlock, out: BitVar, t: Timer)
      modifies bl
      ensures bl.body ==
        old(bl.body) + BadCode(bl.id, out) + SetupCode(bl.id, t) + LoopBody(bl.id, t) + [LoopBranch(bl.id)]
    {
      hide BadCode, SetupCode, LoopBody;
      ScheduleSetup(bl, out, t);
      ScheduleSearch(bl, t);
      bl.AddBranch(ZClear, Loop);
    }

    method ScheduleSetup(bl: AsmBlock, out: BitVar, t: Timer)
      modifies bl
      ensures bl.body == old(bl.body) + BadCode(bl.id, out) + SetupCode(bl.id, t)
    {
      hide FromNat;
      bl.AddLabel(BadQuality);
      bl.AddCmd(Bld(out.Reg(), out.QBit()));
      bl.AddBranch(Always, BlockExit);
      bl.AddLabel(LoopSetup);
      bl.AddCmd(Alu(Ldi(R(18), FromNat(t.size))));
      bl.AddCmd(Alu(Ldi(R(30), FromNat(t.origin))));
      bl.AddCmd(Alu(Ldi(R(31), FromNat(t.origin / 256))));
    }

    /** Looks for the present hour and minute in the table. */
    method ScheduleSearch(bl: AsmBlock, t: Timer)
      modifies bl
      ensures bl.body == old(bl.body) + LoopBody(bl.id, t)
    {
      bl.AddLabel(Loop);
      AddLook(bl, 0, t.hour);
      AddLook(bl, 1, t.min);
      bl.AddCmd(Set);
      bl.AddBranch(Always, CopyT);
      bl.AddLabel(LoopContinue);
      bl.AddCmd(Alu(AdiwZ(2)));
      bl.AddCmd(Alu(Dec(R(18))));
    }

    method AddLook(bl: AsmBlock, off: nat, with: nat)
      modifies bl
      ensures bl.body == old(bl.body) + LookCode(bl.id, off, with)
    {
      bl.AddCmd(Alu(Ldd(R(19), off)));
      bl.AddCmd(Cpse(R(19), Cell(with)));
      bl.AddBranch(Always, LoopContinue);
    }

    /** Every input goes to its own bit of the output. Asking a byte variable for its bit is an error. */
    method GenerateBinaryEncoder(id: nat, slots: seq<Slot>, addr: nat, size: nat)
      requires forall ix :: 0 <= ix < |slots| ==> !slots[ix].ByteIn?
      modifies this
      ensures code == old(code) + if Connected(slots) == 0 then [] else EncoderCode(id, slots, addr, size)
    {
      hide Gate, BytePlace, WireCode;
      var connected := InputHasValidVariable(slots);
      if connected == 0 { return; }
      var bl := new AsmBlock(id);
      for ix := 0 to |slots|
        invariant bl.id == id && code == old(code) && fresh(bl)
        invariant bl.body == WiresCode(id, slots[..ix], addr, size)
      {
        assert slots[..ix + 1][..ix] == slots[..ix];
        if slots[ix].Open? { continue; }
        EncodeInput(bl, slots[ix].x, ix, addr, size);
      }
      assert slots[..|slots|] == slots;
      var q := addr + size;
      bl.AddCmd(Alu(Ldi(Cell(q), OneBit(0))));
      bl.AddBranch(Always, End);
      bl.AddLabel(BadQuality);
      bl.AddCmd(Alu(Eor(Cell(q), Cell(q))));
      bl.AddLabel(End);
      assert bl.body == WiresCode(id, slots, addr, size) + EncoderEnd(id, q);
      code := code + bl.body;
    }

    method EncodeInput(bl: AsmBlock, x: BitVar, ix: nat, addr: nat, size: nat)
      modifies bl
      ensures bl.body == old(bl.body) + WireCode(bl.id, x, ix, addr, size)
    {
      hide Gate;
      var bit := ix % 8;
      AddQualityTest(bl, x, BadQuality);
      bl.AddCmd(Bst(x.Reg(), x.bit));
      if size == 1 {
        bl.AddCmd(Bld(Cell(addr), bit));
      } else if size == 2 {
        if ix < 8 { bl.AddCmd(Bld(Cell(addr), bit)); } else { bl.AddCmd(Bld(Cell(addr + 1), bit)); }
      } else {
        if ix < 8 {
          bl.AddCmd(Bld(Cell(addr), bit));
        } else if ix >= 8 && ix < 16 {
          bl.AddCmd(Bld(Cell(addr + 1), bit));
        } else if ix >= 16 && ix < 24 {
          bl.AddCmd(Bld(Cell(addr + 2), bit));
        } else {
          bl.AddCmd(Bld(Cell(addr + 3), bit));
        }
      }
    }

    /** Every output takes over one bit of the input, as long as the input has bits. */
    method GenerateBinaryDecoder(id: nat, input: Option<nat>, size: nat, outs: seq<BitVar>)
      modifies this
      ensures code == old(code) + if input.None? then [] else DecoderCode(input.value, size, outs)
    {
      if input.None? { return; }
      var bl := new AsmBlock(id);
      bl.AddCmd(Alu(Mov(R(16), Cell(input.value + size))));
      DecodeOutputs(bl, input.value, size, outs);
      code := code + bl.body;
    }

    method DecodeOutputs(bl: AsmBlock, addr: nat, size: nat, outs: seq<BitVar>)
      modifies bl
      ensures bl.body == old(bl.body) + DecoderSteps(addr, Decoded(size, outs))
    {
      hide CopyTo, DecoderSteps;
      var ix, letter := 0, -1;
      NoSteps(addr, outs);
      while ix < |outs|
        invariant 0 <= ix <= |outs| && ix <= 8 * size && 8 * letter < ix <= 8 * letter + 8
        invariant bl.body == old(bl.body) + DecoderSteps(addr, outs[..ix])
        decreases |outs| - ix
      {
        if ix >= 8 * size { break; }
        LetterIs(ix, letter);
        if ix % 8 == 0 { letter := letter + 1; }
        DecodeOutput(bl, addr + letter, ix % 8, outs[ix]);
        NextStep(addr, outs, ix);
        ix := ix + 1;
      }
      assert outs[..ix] == Decoded(size, outs);
    }

    method DecodeOutput(bl: AsmBlock, addr: nat, bit: nat, out: BitVar)
      modifies bl
      ensures bl.body == old(bl.body) + CopyTo(addr, bit, out)
    {
      bl.AddCmd(Bst(R(16), 0));
      bl.AddCmd(Bld(out.Reg(), out.QBit()));
      bl.AddCmd(Bst(Cell(addr), bit));
      bl.AddCmd(Bld(out.Reg(), out.bit));
    }

    /** Statements that the C compiler translates. */
    method GenerateText(f: State -> State)
      modifies this
      ensures code == old(code) + [Text(f)]
    {
      code := code + [Text(f)];
    }
  }
}
