/** One scan of the controller: the blocks' code, one after the other in an order in which producers
    come first, makes every block's state and output satisfy its equation. */
module Scans {
  import opened Options
  import opened Diagrams
  import Numbering
  import opened Division
  import opened Avr
  import opened Programs
  import opened Blocks
  import opened Gates
  import opened Latches
  import opened Timers
  import opened Pulses
  import opened Timetable
  import opened Encoders
  import opened Fragments

  /** A block and the variables on its slots. */
  datatype Block =
    | Logic(or: bool, slots: seq<Slot>, out: BitVar)
    | Inverter(x: BitVar, out: BitVar)
    | Rs(set_: Option<BitVar>, reset: Option<BitVar>, out: BitVar)
    | EdgeDetector(kind: Edge, x: BitVar, prev: BitVar, out: BitVar)
    | OutputBit(x: BitVar, inverted: bool, out: BitVar)
    | RiseCounter(x: BitVar, reset: Option<BitVar>, prev: BitVar, count: nat)
    | OnDelay(x: BitVar, out: BitVar, tmr: nat, clock: nat, ticks: nat)
    | PulseOutput(x: BitVar, out: BitVar, prev: BitVar, tmr: nat, clock: nat, fall: bool, width: nat)
    | Timetabled(enable: Option<BitVar>, out: BitVar, times: Timer)
    | Encoder(slots: seq<Slot>, addr: nat, size: nat)
    | Decoder(addr: nat, size: nat, outs: seq<BitVar>)
    | Foreign(ins: seq<(nat, nat)>, own: seq<(nat, nat)>, f: State -> State, g: (seq<bool>, seq<bool>) -> seq<bool>)
    | Silent(own: seq<(nat, nat)>)
  {
    /** Its variables lie in the bits of cells, its own ones apart from each other. A gate has an input that
        counts. Foreign statements compute their own bits by `g` and change nothing else. A silent block has
        no code. */
    ghost predicate Valid() {
      match this
      case Logic(or, slots, out) => ValidSlots(slots) && HasBitInput(slots) && out.Valid() && out.quality
      case Inverter(x, out) => x.Valid() && out.Valid() && out.quality
      case Rs(x, r, out) => (x.Some? || r.Some?) && (x.Some? ==> x.value.Valid()) && (r.Some? ==> r.value.Valid())
        && out.Valid() && out.quality
      case EdgeDetector(_, x, prev, out) =>
        x.Valid() && prev.Valid() && out.Valid() && out.quality && (prev.addr, prev.bit) !in out.Foot()
      case OutputBit(x, _, out) => x.Valid() && out.Valid()
      case RiseCounter(x, r, prev, count) =>
        x.Valid() && prev.Valid() && (r.Some? ==> r.value.Valid()) && prev.addr != count && prev.addr != count + 1
      case OnDelay(x, out, tmr, _, _) =>
        x.Valid() && out.Valid() && out.quality && (out.addr < tmr || tmr + 4 <= out.addr)
      case PulseOutput(x, out, prev, tmr, _, _, _) =>
        x.Valid() && out.Valid() && prev.Valid() && out.quality && Apart(out, prev, tmr)
      case Timetabled(en, out, t) => (en.Some? ==> en.value.Valid()) && out.Valid() && out.quality && t.Valid()
      case Encoder(slots, _, size) =>
        ValidSlots(slots) && IsSize(size) && forall i :: 0 <= i < |slots| ==> !slots[i].ByteIn?
      case Decoder(_, _, outs) => ValidOuts(outs)
      case Foreign(ins, own, f, g) =>
        forall s :: Computes(s, f(s), ins, own, g)
      case Silent(_) => true
    }

    function Code(id: nat): seq<Instr> {
      match this
      case Logic(or, slots, out) => GateCode(id, or, slots, out)
      case Inverter(x, out) => NotCode(id, x, out)
      case Rs(x, r, out) => RsCode(id, x, r, out)
      case EdgeDetector(kind, x, prev, out) => EdgeCode(id, kind, x, prev, out)
      case OutputBit(x, inverted, out) => OutCode(id, x, inverted, out)
      case RiseCounter(x, r, prev, count) => CounterCode(id, x, r, prev, count)
      case OnDelay(x, out, tmr, clock, t) =>
        DelayCode(id, x, out, tmr, clock, FromNat(t), FromNat(t / 0x100), FromNat(t / 0x1_0000))
      case PulseOutput(x, out, prev, tmr, clock, fall, w) =>
        PulseCode(id, x, out, prev, tmr, clock, fall, FromNat(w), FromNat(w / 0x100))
      case Timetabled(en, out, t) => ScheduleCode(id, en, out, t)
      case Encoder(slots, addr, size) => EncoderCode(id, slots, addr, size)
      case Decoder(addr, size, outs) => DecoderCode(addr, size, outs)
      case Foreign(_, _, f, _) => [Text(f)]
      case Silent(_) => []
    }

    /** The bits it reads as inputs. */
    ghost function Reads(): set<(nat, nat)> {
      match this
      case Logic(_, slots, _) => SlotBits(slots)
      case Inverter(x, _) => x.Foot()
      case Rs(x, r, _) => OptFoot(x) + OptFoot(r)
      case EdgeDetector(_, x, _, _) => x.Foot()
      case OutputBit(x, _, _) => x.Foot()
      case RiseCounter(x, r, _, _) => x.Foot() + OptFoot(r)
      case OnDelay(x, _, _, _, _) => x.Foot()
      case PulseOutput(x, _, _, _, _, _, _) => x.Foot()
      case Timetabled(en, _, t) =>
        OptFoot(en) + Cells(t.hour, 1) + Cells(t.hourQ, 1) + Cells(t.min, 1) + Cells(t.sec, 1)
      case Encoder(slots, _, _) => SlotBits(slots)
      case Decoder(addr, size, _) => Cells(addr, size + 1)
      case Foreign(ins, _, _, _) => Elements(ins)
      case Silent(_) => {}
    }

    /** The bits it may change: its output and its state. */
    ghost function Owns(): set<(nat, nat)> {
      match this
      case Logic(_, _, out) => out.Foot()
      case Inverter(_, out) => out.Foot()
      case Rs(_, _, out) => out.Foot()
      case EdgeDetector(_, _, prev, out) => out.Foot() + {(prev.addr, prev.bit)}
      case OutputBit(_, _, out) => out.Foot()
      case RiseCounter(_, _, prev, count) => Cells(count, 2) + {(prev.addr, prev.bit)}
      case OnDelay(_, out, tmr, _, _) => out.Foot() + Cells(tmr, 4)
      case PulseOutput(_, out, prev, tmr, _, _, _) => out.Foot() + {(prev.addr, prev.bit)} + Cells(tmr, 2)
      case Timetabled(_, out, _) => out.Foot()
      case Encoder(_, addr, size) => Cells(addr, size + 1)
      case Decoder(_, _, outs) => OutBits(outs)
      case Foreign(_, own, _, _) => Elements(own)
      case Silent(own) => Elements(own)
    }
  }

  function Elements(places: seq<(nat, nat)>): set<(nat, nat)> {
    set i | 0 <= i < |places| :: places[i]
  }

  /** From `s` to `s'` the bits in `own` become what `g` makes of those in `ins` and of themselves. */
  ghost predicate Computes(s: State, s': State, ins: seq<(nat, nat)>, own: seq<(nat, nat)>,
      g: (seq<bool>, seq<bool>) -> seq<bool>)
  {
    OnlyChanged(s, s', Elements(own)) && BitsAt(s', own) == g(BitsAt(s, ins), BitsAt(s, own))
  }

  function OptFoot(x: Option<BitVar>): set<(nat, nat)> {
    if x.Some? then x.value.Foot() else {}
  }

  /** What a block sees in a scan. */
  datatype View = View(sigs: seq<Signal>, x: Option<Signal>, r: Option<Signal>, now: nat)

  /** What a block holds from scan to scan: its output and its internal state. */
  datatype Held =
    | Out(out: Signal) | Sampled(out: Signal, prev: bool) | Counted(count: Count)
    | Delayed(out: Signal, delay: Delay) | Pulsed(pulse: Pulse, q: bool)
    | Bits(bits: seq<bool>) | Outs(outs: seq<Signal>)

  function Signs(bits: seq<bool>): seq<Signal> {
    seq(|bits|, i requires 0 <= i < |bits| => Signal(bits[i], true))
  }

  function Values(sigs: seq<Signal>): seq<bool> {
    seq(|sigs|, i requires 0 <= i < |sigs| => sigs[i].v)
  }

  ghost function ViewOf(b: Block, s: State): View {
    match b
    case Logic(_, slots, _) => View(Signals(s, slots), None, None, 0)
    case Inverter(x, _) => View([], Some(Read(s, x)), None, 0)
    case Rs(x, r, _) => View([], ReadOpt(s, x), ReadOpt(s, r), 0)
    case EdgeDetector(_, x, _, _) => View([], Some(Read(s, x)), None, 0)
    case OutputBit(x, _, _) => View([], Some(Read(s, x)), None, 0)
    case RiseCounter(x, r, _, _) => View([], Some(Read(s, x)), ReadOpt(s, r), 0)
    case OnDelay(x, _, _, clock, _) => View([], Some(Read(s, x)), None, Clock(s, clock))
    case PulseOutput(x, _, _, _, clock, _, _) => View([], Some(Read(s, x)), None, Clock16(s, clock))
    case Timetabled(en, _, t) => View([TimeSignal(s, t)], ReadOpt(s, en), None, 0)
    case Encoder(slots, _, _) => View(WireSignals(s, slots), None, None, 0)
    case Decoder(addr, size, _) => View(DecoderSignals(s, addr, size), None, None, 0)
    case Foreign(ins, _, _, _) => View(Signs(BitsAt(s, ins)), None, None, 0)
    case Silent(_) => View([], None, None, 0)
  }

  function HeldIn(b: Block, s: State): Held {
    match b
    case EdgeDetector(_, _, prev, out) => Sampled(Read(s, out), s.GetBit(prev.Reg(), prev.bit))
    case RiseCounter(_, _, prev, count) => Counted(Count(Word(s, count), s.GetBit(prev.Reg(), prev.bit)))
    case OnDelay(_, out, tmr, _, _) => Delayed(Read(s, out), ReadDelay(s, tmr))
    case PulseOutput(_, out, prev, tmr, _, _, _) => Pulsed(ReadPulse(s, tmr, prev, out), Read(s, out).q)
    case Encoder(_, addr, size) => Bits(BitsAt(s, CellBits(addr, size + 1)))
    case Decoder(_, _, outs) => Outs(ReadOuts(s, outs))
    case Foreign(_, own, _, _) => Bits(BitsAt(s, own))
    case Silent(own) => Bits(BitsAt(s, own))
    case _ => Out(Read(s, b.out))
  }

  /** The block's equation: what it holds after a scan, from what it sees and what it held. */
  function Next(b: Block, v: View, h: Held): Held {
    match (b, h)
    case (Logic(or, _, _), Out(was)) => Out(GateResult(or, v.sigs, false))
    case (Inverter(_, _), Out(was)) =>
      if v.x.Some? then Out(Signal(if v.x.value.q then !v.x.value.v else was.v, v.x.value.q)) else h
    case (Rs(_, _, _), Out(was)) => Out(RsResult(v.x, v.r, was))
    case (EdgeDetector(kind, _, _, _), Sampled(was, prev)) =>
      if v.x.Some? then Sampled(EdgeResult(kind, v.x.value, prev, was), if v.x.value.q then v.x.value.v else prev)
        else h
    case (OutputBit(_, inverted, out), Out(was)) =>
      if v.x.Some? then Out(OutResult(v.x.value, inverted, out.quality, was)) else h
    case (RiseCounter(_, _, _, _), Counted(c)) => if v.x.Some? then Counted(CounterStep(c, v.x.value, v.r)) else h
    case (OnDelay(x, _, _, _, ticks), Delayed(was, d)) =>
      var width := ticks % 0x100_0000;
      if v.x.None? then h
      else Delayed(DelayResult(d, v.x.value, v.now, width, was, x.quality), DelayStep(d, v.x.value, v.now, width))
    case (PulseOutput(x, _, _, _, _, fall, width), Pulsed(p, q)) =>
      if v.x.None? then h
      else Pulsed(PulseStep(p, fall, v.x.value, v.now, width % 0x1_0000), if x.quality then v.x.value.q else q)
    case (Encoder(slots, _, size), Bits(bits)) =>
      if |v.sigs| == |slots| && |bits| == 8 * (size + 1) then Bits(Encode(slots, v.sigs, size, bits)) else h
    case (Decoder(_, _, _), Outs(was)) => Outs(Spread(v.sigs, was))
    case (Foreign(_, _, _, g), Bits(bits)) => Bits(g(Values(v.sigs), bits))
    case (Timetabled(_, _, _), Out(was)) => if |v.sigs| == 1 then Out(ScheduleStep(v.sigs[0], v.x, was)) else h
    case _ => h
  }

  /** The code of one block establishes its equation and changes only the block's own bits. */
  ghost predicate Establishes(b: Block, id: nat, s: State) {
    var p := Exec(b.Code(id), Pass(Running, s));
    p.mode == Running && HeldIn(b, p.s) == Next(b, ViewOf(b, s), HeldIn(b, s)) && OnlyChanged(s, p.s, b.Owns())
  }

  lemma {:induction false} BlockRuns(b: Block, id: nat, s: State)
    requires b.Valid() && b.Reads() !! b.Owns() && !b.Timetabled?
    ensures Establishes(b, id, s)
  {
    hide *;
    match b
    case Logic(or, slots, out) => LogicBlockRuns(b, id, s);
    case Inverter(x, out) => BitBlockRuns(b, id, s);
    case Rs(x, r, out) => BitBlockRuns(b, id, s);
    case EdgeDetector(kind, x, prev, out) => BitBlockRuns(b, id, s);
    case OutputBit(x, inverted, out) => BitBlockRuns(b, id, s);
    case RiseCounter(x, r, prev, count) => CounterBlockRuns(b, id, s);
    case OnDelay(x, out, tmr, clock, t) => DelayBlockRuns(b, id, s);
    case PulseOutput(x, out, prev, tmr, clock, fall, w) => PulseBlockRuns(b, id, s);
    case Encoder(slots, addr, size) => CodingBlockRuns(b, id, s);
    case Decoder(addr, size, outs) => CodingBlockRuns(b, id, s);
    case Foreign(ins, own, f, g) => ForeignBlockRuns(b, id, s);
    case Silent(own) => SilentBlockRuns(own, id, s);
  }

  lemma {:induction false} CodingBlockRuns(b: Block, id: nat, s: State)
    requires b.Valid() && b.Reads() !! b.Owns() && (b.Encoder? || b.Decoder?)
    ensures Establishes(b, id, s)
  {
    hide Exec, EncoderCode, DecoderCode, Encode, Spread, WireSignals, DecoderSignals, OnlyChanged, State.Get;
    if b.Encoder? {
      EncoderYields(id, b.slots, b.addr, b.size, s);
    } else {
      DecoderYields(b.addr, b.size, b.outs, s);
    }
  }

  lemma {:induction false} ForeignBlockRuns(b: Block, id: nat, s: State)
    requires b.Valid() && b.Reads() !! b.Owns() && b.Foreign?
    ensures Establishes(b, id, s)
  {
    hide Exec, OnlyChanged, State.Get;
    Exec1(Text(b.f), Pass(Running, s));
    assert Computes(s, b.f(s), b.ins, b.own, b.g);
    assert Values(Signs(BitsAt(s, b.ins))) == BitsAt(s, b.ins);
  }

  lemma {:induction false} SilentBlockRuns(own: seq<(nat, nat)>, id: nat, s: State)
    ensures Establishes(Silent(own), id, s)
  {
    ExecNil(Pass(Running, s));
  }

  lemma {:induction false} LogicBlockRuns(b: Block, id: nat, s: State)
    requires b.Valid() && b.Reads() !! b.Owns() && b.Logic?
    ensures Establishes(b, id, s)
  {
    hide Exec, ToNat, FromNat, GateCode;
    GateYields(id, b.or, b.slots, b.out, s);
    SignalsEmptyIff(s, b.slots);
  }

  lemma {:induction false} BitBlockRuns(b: Block, id: nat, s: State)
    requires b.Valid() && b.Reads() !! b.Owns() && (b.Inverter? || b.Rs? || b.EdgeDetector? || b.OutputBit?)
    ensures Establishes(b, id, s)
  {
    hide Exec, ToNat, FromNat;
    match b
    case Inverter(x, out) => NotYields(id, x, out, s);
    case Rs(x, r, out) => RsYields(id, x, r, out, s);
    case EdgeDetector(kind, x, prev, out) => EdgeYields(id, kind, x, prev, out, s);
    case OutputBit(x, inverted, out) => OutYields(id, x, inverted, out, s);
  }

  lemma {:induction false} CounterBlockRuns(b: Block, id: nat, s: State)
    requires b.Valid() && b.Reads() !! b.Owns() && b.RiseCounter?
    ensures Establishes(b, id, s)
  {
    hide Exec, ToNat, FromNat, CounterStep, CounterCode;
    CounterYields(id, b.x, b.reset, b.prev, b.count, s);
  }

  lemma {:induction false} DelayBlockRuns(b: Block, id: nat, s: State)
    requires b.Valid() && b.Reads() !! b.Owns() && b.OnDelay?
    ensures Establishes(b, id, s)
  {
    hide Exec, ToNat, FromNat, DelayStep, DelayCode;
    Ticks24(b.ticks);
    DelayYields(id, b.x, b.out, b.tmr, b.clock, FromNat(b.ticks), FromNat(b.ticks / 0x100), FromNat(b.ticks / 0x1_0000),
      s);
  }

  lemma {:induction false} PulseBlockRuns(b: Block, id: nat, s: State)
    requires b.Valid() && b.Reads() !! b.Owns() && b.PulseOutput?
    ensures Establishes(b, id, s)
  {
    hide Exec, ToNat, FromNat, PulseStep, PulseCode;
    Ticks16(b.width);
    PulseYields(id, b.x, b.out, b.prev, b.tmr, b.clock, b.fall, FromNat(b.width), FromNat(b.width / 0x100), s);
  }

  /** Of the ticks only the low three bytes are compared, of a pulse width the low two. */
  lemma {:induction false} Ticks24(t: nat)
    ensures Num3(FromNat(t), FromNat(t / 0x100), FromNat(t / 0x1_0000)) == t % 0x100_0000
  {
    hide FromNat, ToNat;
    var a, b, c, q := t % 0x100, t / 0x100 % 0x100, t / 0x100 / 0x100 % 0x100, t / 0x100 / 0x100 / 0x100;
    DivMod(t, 0x1_0000, a + 0x100 * b, c + 0x100 * q);
    DivMod(t, 0x100_0000, a + 0x100 * b + 0x1_0000 * c, q);
  }

  lemma {:induction false} Ticks16(t: nat)
    ensures ToNat(FromNat(t)) + 256 * ToNat(FromNat(t / 0x100)) == t % 0x1_0000
  {
    hide FromNat, ToNat;
    DivMod(t, 0x1_0000, t % 0x100 + 0x100 * (t / 0x100 % 0x100), t / 0x100 / 0x100);
  }

  lemma BlockFragment(b: Block, id: nat)
    requires !b.Timetabled?
    ensures Fragment(b.Code(id), id)
  {
    match b
    case Logic(or, slots, out) => GateFragment(id, or, slots, out);
    case Inverter(x, out) => NotFragment(id, x, out);
    case Rs(x, r, out) => RsFragment(id, x, r, out);
    case EdgeDetector(kind, x, prev, out) => EdgeFragment(id, kind, x, prev, out);
    case OutputBit(x, inverted, out) => OutFragment(id, x, inverted, out);
    case RiseCounter(x, r, prev, count) => CounterFragment(id, x, r, prev, count);
    case OnDelay(x, out, tmr, clock, t) =>
      DelayFragment(id, x, out, tmr, clock, FromNat(t), FromNat(t / 0x100), FromNat(t / 0x1_0000));
    case PulseOutput(x, out, prev, tmr, clock, fall, w) =>
      PulseFragment(id, x, out, prev, tmr, clock, fall, FromNat(w), FromNat(w / 0x100));
    case Encoder(slots, addr, size) => EncoderFragment(id, slots, addr, size);
    case Decoder(addr, size, outs) => DecoderFragment(id, addr, size, outs);
    case Foreign(ins, own, f, g) => TextFragment(id, f);
    case Silent(_) => Straight([], {});
  }

  lemma {:induction false} BlockWhole(b: Block, id: nat)
    ensures Whole(b.Code(id), id)
  {
    hide Whole, Fragment, FromNat;
    if b.Timetabled? {
      ScheduleWhole(id, b.enable, b.out, b.times);
    } else {
      BlockFragment(b, id);
      FragmentIsWhole(b.Code(id), id);
    }
  }

  /** The machine runs the code of any block to its end, and the block holds what its equation says. */
  lemma {:induction false} BlockRunsAlone(b: Block, id: nat, s: State)
    returns (n: nat, s': State)
    requires b.Valid() && b.Reads() !! b.Owns()
    ensures Leads(b.Code(id), 0, s, n, |b.Code(id)|, s')
    ensures HeldIn(b, s') == Next(b, ViewOf(b, s), HeldIn(b, s)) && OnlyChanged(s, s', b.Owns())
  {
    hide Exec, Leads, Fragment, Forward, OnlyChanged, ToNat, FromNat, TimeSignal, ScheduleCode, Read;
    if b.Timetabled? {
      n, s' := ScheduleRuns(id, b.enable, b.out, b.times, s);
      ScheduleResultIs(s, ReadOpt(s, b.enable), Read(s, b.out), b.times);
    } else {
      BlockRuns(b, id, s);
      BlockFragment(b, id);
      FragmentIsWhole(b.Code(id), id);
      n := MachineRunsPass(b.Code(id), s);
      s' := Exec(b.Code(id), Pass(Running, s)).s;
    }
  }

  /* ---- what other blocks leave alone ---- */

  lemma {:induction false} SignalsSame(slots: seq<Slot>, s: State, s': State, own: set<(nat, nat)>)
    requires ValidSlots(slots) && OnlyChanged(s, s', own) && SlotBits(slots) !! own
    ensures Signals(s', slots) == Signals(s, slots)
  {
    if slots != [] {
      var n := |slots| - 1;
      SignalsSame(slots[..n], s, s', own);
      if slots[n].BitIn? { ReadSame(slots[n].x, s, s', own); }
    }
  }

  lemma {:induction false} ViewSame(b: Block, s: State, s': State, own: set<(nat, nat)>)
    requires b.Valid() && OnlyChanged(s, s', own) && b.Reads() !! own
    ensures ViewOf(b, s') == ViewOf(b, s)
  {
    hide Read, OnlyChanged, ToNat;
    assert s'.mem == s.mem by { MemSame(s, s', own); }
    match b
    case Logic(_, slots, _) => SignalsSame(slots, s, s', own);
    case Rs(x, r, _) =>
      if x.Some? { ReadSame(x.value, s, s', own); }
      if r.Some? { ReadSame(r.value, s, s', own); }
    case RiseCounter(x, r, _, _) =>
      ReadSame(x, s, s', own);
      if r.Some? { ReadSame(r.value, s, s', own); }
    case Timetabled(en, _, t) =>
      if en.Some? { ReadSame(en.value, s, s', own); }
      TimeSame(t, s, s', own);
    case Encoder(slots, _, _) => WireSame(slots, s, s', own);
    case Decoder(addr, size, _) => CellsSame(addr, size + 1, s, s', own);
    case Foreign(ins, _, _, _) => BitsSame(ins, s, s', own);
    case Silent(_) =>
    case _ => ReadSame(b.x, s, s', own);
  }

  lemma {:induction false} WireSame(slots: seq<Slot>, s: State, s': State, own: set<(nat, nat)>)
    requires ValidSlots(slots) && OnlyChanged(s, s', own) && SlotBits(slots) !! own
    ensures WireSignals(s', slots) == WireSignals(s, slots)
  {
    hide Read, OnlyChanged;
    forall i | 0 <= i < |slots| && slots[i].BitIn? ensures Read(s', slots[i].x) == Read(s, slots[i].x) {
      SlotBitsOf(slots, i);
      ReadSame(slots[i].x, s, s', own);
    }
  }

  lemma {:induction false} SlotBitsOf(slots: seq<Slot>, i: nat)
    requires i < |slots| && slots[i].BitIn?
    ensures slots[i].x.Foot() <= SlotBits(slots)
  {
    if i < |slots| - 1 { SlotBitsOf(slots[..|slots| - 1], i); }
  }

  lemma BitsSame(places: seq<(nat, nat)>, s: State, s': State, own: set<(nat, nat)>)
    requires OnlyChanged(s, s', own) && Elements(places) !! own
    ensures BitsAt(s', places) == BitsAt(s, places)
  {
    forall i | 0 <= i < |places| ensures BitsAt(s', places)[i] == BitsAt(s, places)[i] {
      assert places[i] in Elements(places) && (places[i].0, places[i].1) == places[i];
    }
  }

  lemma {:induction false} OutsSame(outs: seq<BitVar>, s: State, s': State, own: set<(nat, nat)>)
    requires ValidOuts(outs) && OnlyChanged(s, s', own) && OutBits(outs) !! own
    ensures ReadOuts(s', outs) == ReadOuts(s, outs)
  {
    hide Read, OnlyChanged;
    forall i | 0 <= i < |outs| ensures Read(s', outs[i]) == Read(s, outs[i]) {
      OutBitsOf(outs, i);
      ReadSame(outs[i], s, s', own);
    }
  }

  lemma {:induction false} OutBitsOf(outs: seq<BitVar>, i: nat)
    requires i < |outs|
    ensures outs[i].Foot() <= OutBits(outs)
  {
    if i < |outs| - 1 { OutBitsOf(outs[..|outs| - 1], i); }
  }

  lemma {:induction false} TimeSame(t: Timer, s: State, s': State, own: set<(nat, nat)>)
    requires OnlyChanged(s, s', own)
    requires Cells(t.hour, 1) + Cells(t.hourQ, 1) + Cells(t.min, 1) + Cells(t.sec, 1) !! own
    ensures TimeSignal(s', t) == TimeSignal(s, t)
  {
    hide OnlyChanged, ToNat, Cells;
    MemSame(s, s', own);
    CellsSame(t.hour, 1, s, s', own);
    CellsSame(t.hourQ, 1, s, s', own);
    CellsSame(t.min, 1, s, s', own);
    CellsSame(t.sec, 1, s, s', own);
    forall i: nat ensures Matches(s', t, i) == Matches(s, t, i) {
    }
  }

  lemma MemSame(s: State, s': State, own: set<(nat, nat)>)
    requires OnlyChanged(s, s', own)
    ensures s'.mem == s.mem
  {
  }

  lemma CellsSame(addr: nat, n: nat, s: State, s': State, own: set<(nat, nat)>)
    requires OnlyChanged(s, s', own) && Cells(addr, n) !! own
    ensures forall a :: addr <= a < addr + n ==> s'.Get(Cell(a)) == s.Get(Cell(a))
  {
    forall a | addr <= a < addr + n ensures s'.Get(Cell(a)) == s.Get(Cell(a)) {
      forall k: nat | k < 8 ensures (a, k) !in own { assert (a, k) in Cells(addr, n); }
      SameCell(s, s', own, a);
    }
  }

  lemma BitSame(x: BitVar, s: State, s': State, own: set<(nat, nat)>)
    requires x.Valid() && OnlyChanged(s, s', own) && (x.addr, x.bit) !in own
    ensures s'.GetBit(x.Reg(), x.bit) == s.GetBit(x.Reg(), x.bit)
  {
  }

  lemma {:induction false} HeldSame(b: Block, s: State, s': State, own: set<(nat, nat)>)
    requires b.Valid() && OnlyChanged(s, s', own) && b.Owns() !! own
    ensures HeldIn(b, s') == HeldIn(b, s)
  {
    hide Read, OnlyChanged, ToNat, Cells;
    match b
    case EdgeDetector(_, _, prev, out) =>
      assert (prev.addr, prev.bit) in b.Owns();
      ReadSame(out, s, s', own);
      BitSame(prev, s, s', own);
    case RiseCounter(_, _, prev, count) =>
      assert (prev.addr, prev.bit) in b.Owns();
      CellsSame(count, 2, s, s', own);
      BitSame(prev, s, s', own);
    case OnDelay(_, out, tmr, _, _) =>
      ReadSame(out, s, s', own);
      CellsSame(tmr, 4, s, s', own);
    case PulseOutput(_, out, prev, tmr, _, _, _) =>
      assert (prev.addr, prev.bit) in b.Owns() && (out.addr, out.bit) in b.Owns();
      ReadSame(out, s, s', own);
      BitSame(out, s, s', own);
      BitSame(prev, s, s', own);
      CellsSame(tmr, 2, s, s', own);
    case Encoder(_, addr, size) => CellsSame(addr, size + 1, s, s', own);
    case Decoder(_, _, outs) => OutsSame(outs, s, s', own);
    case Foreign(_, places, _, _) => BitsSame(places, s, s', own);
    case Silent(places) => BitsSame(places, s, s', own);
    case _ => ReadSame(b.out, s, s', own);
  }

  /* ---- a scan ---- */

  /** The code of the blocks in the given order; a block's number in the diagram is the id of its labels. */
  function Parts(blocks: seq<Block>, order: seq<nat>): (parts: seq<seq<Instr>>)
    requires forall i :: 0 <= i < |order| ==> order[i] < |blocks|
    ensures |parts| == |order|
  {
    seq(|order|, i requires 0 <= i < |order| => blocks[order[i]].Code(order[i]))
  }

  /** The own bits of the blocks are disjoint, and a block reads its own bits or those of another one
      only along a line of the diagram. */
  ghost predicate Placed(d: Diagram, blocks: seq<Block>) {
    && |blocks| == d.Blocks()
    && (forall b :: 0 <= b < |blocks| ==> blocks[b].Valid())
    && (forall b, c :: 0 <= b < c < |blocks| ==> blocks[b].Owns() !! blocks[c].Owns())
    && (forall p, b :: 0 <= p < |blocks| && 0 <= b < |blocks| && !(blocks[b].Reads() !! blocks[p].Owns()) ==>
         d.Feeds(p, b))
  }

  /** In the state `s'` after a scan from `s`, the block holds what it computes from its inputs in `s'`. */
  ghost predicate Holds(b: Block, s: State, s': State) {
    HeldIn(b, s') == Next(b, ViewOf(b, s'), HeldIn(b, s))
  }

  ghost function OwnedBy(blocks: seq<Block>, order: seq<nat>): set<(nat, nat)>
    requires forall i :: 0 <= i < |order| ==> order[i] < |blocks|
  {
    if order == [] then {} else OwnedBy(blocks, order[..|order| - 1]) + blocks[order[|order| - 1]].Owns()
  }

  lemma {:induction false} OwnedApart(d: Diagram, blocks: seq<Block>, order: seq<nat>, b: nat)
    requires Placed(d, blocks) && b < |blocks| && b !in order && forall i :: 0 <= i < |order| ==> order[i] < |blocks|
    ensures blocks[b].Owns() !! OwnedBy(blocks, order)
  {
    if order != [] { OwnedApart(d, blocks, order[..|order| - 1], b); }
  }

  ghost predicate InOrder(d: Diagram, order: seq<nat>) {
    && (forall i :: 0 <= i < |order| ==> order[i] < d.Blocks())
    && (forall i, j :: 0 <= i < j < |order| ==> order[i] != order[j])
    && d.Sequenced(order)
  }

  lemma {:induction false} InOrderPrefix(d: Diagram, order: seq<nat>, n: nat)
    requires InOrder(d, order) && n <= |order|
    ensures InOrder(d, order[..n])
  {
    forall i, j | 0 <= i < n && 0 <= j < n && d.Feeds(order[..n][i], order[..n][j]) ensures i < j {
      assert d.Feeds(order[i], order[j]);
    }
  }

  /** The blocks listed hold what their equations say, and nothing else has changed. */
  ghost predicate ScanDone(blocks: seq<Block>, order: seq<nat>, s: State, s': State)
    requires forall i :: 0 <= i < |order| ==> order[i] < |blocks|
  {
    OnlyChanged(s, s', OwnedBy(blocks, order)) && forall i :: 0 <= i < |order| ==> Holds(blocks[order[i]], s, s')
  }

  /** One more block: its own equation holds, and those of the blocks before it still do. */
  lemma {:induction false} ScanStep(d: Diagram, blocks: seq<Block>, order: seq<nat>, b: nat, s: State, s1: State,
      s2: State)
    requires Placed(d, blocks) && InOrder(d, order + [b]) && InOrder(d, order)
    requires ScanDone(blocks, order, s, s1) && b < |blocks|
    requires HeldIn(blocks[b], s2) == Next(blocks[b], ViewOf(blocks[b], s1), HeldIn(blocks[b], s1))
    requires OnlyChanged(s1, s2, blocks[b].Owns())
    ensures ScanDone(blocks, order + [b], s, s2)
  {
    hide Next, HeldIn, ViewOf, OnlyChanged;
    var all := order + [b];
    assert all[|order|] == b;
    assert forall i :: 0 <= i < |order| ==> all[i] == order[i];
    assert !d.Feeds(b, b);
    var block := blocks[b];
    OwnedApart(d, blocks, order, b);
    HeldSame(block, s, s1, OwnedBy(blocks, order));
    ViewSame(block, s1, s2, block.Owns());
    forall i | 0 <= i < |order| ensures Holds(blocks[all[i]], s, s2) {
      assert !d.Feeds(b, order[i]);
      HeldSame(blocks[order[i]], s1, s2, block.Owns());
      ViewSame(blocks[order[i]], s1, s2, block.Owns());
      assert Holds(blocks[order[i]], s, s1);
    }
    ChangedTrans(s, s1, s2, OwnedBy(blocks, order), block.Owns());
    assert all[..|order|] == order;
  }

  /** The machine has come through the code of the blocks listed, and they hold their equations. */
  ghost predicate ScanEnds(blocks: seq<Block>, order: seq<nat>, s: State, n: nat, s': State)
    requires forall i :: 0 <= i < |order| ==> order[i] < |blocks|
  {
    var prog := Concat(Parts(blocks, order));
    Leads(prog, 0, s, n, |prog|, s') && ScanDone(blocks, order, s, s')
  }

  lemma {:induction false} ScanRuns(d: Diagram, blocks: seq<Block>, order: seq<nat>, s: State)
    returns (n: nat, s': State)
    requires |blocks| == d.Blocks() && Placed(d, blocks) && InOrder(d, order)
    ensures ScanEnds(blocks, order, s, n, s')
  {
    hide *;
    if order == [] {
      n, s' := 0, s;
      NothingScanned(blocks, s);
    } else {
      var k := |order| - 1;
      InOrderPrefix(d, order, k);
      var s1;
      n, s1 := ScanRuns(d, blocks, order[..k], s);
      var m;
      m, s' := ScanMore(d, blocks, order, s, n, s1);
      n := n + m;
    }
  }

  lemma {:induction false} NothingScanned(blocks: seq<Block>, s: State)
    ensures ScanEnds(blocks, [], s, 0, s)
  {
    hide Leads, Holds;
    Stays([], s);
  }

  /** The machine goes on from the end of the blocks before the last one. */
  lemma {:induction false} ScanMore(d: Diagram, blocks: seq<Block>, order: seq<nat>, s: State, n: nat, s1: State)
    returns (m: nat, s': State)
    requires order != [] && |blocks| == d.Blocks() && Placed(d, blocks) && InOrder(d, order)
    requires ScanEnds(blocks, order[..|order| - 1], s, n, s1)
    ensures ScanEnds(blocks, order, s, n + m, s')
  {
    hide Leads, Marks, Closed, OnlyChanged, Holds, Placed, ScanDone, HeldIn, Next, ViewOf;
    var k, parts := |order| - 1, Parts(blocks, order);
    var front, b := order[..k], order[k];
    assert order == front + [b] && parts[..k] == Parts(blocks, front);
    InOrderPrefix(d, order, k);
    PlacedAlone(d, blocks, order, b);
    m, s' := BlockRunsAlone(blocks[b], b, s1);
    ScanStep(d, blocks, front, b, s, s1, s');
    PartsApart(blocks, order);
    LeadsAppend(Concat(parts[..k]), parts[k], s, n, s1, m, s');
  }

  /** A block does not read what it owns. */
  lemma PlacedAlone(d: Diagram, blocks: seq<Block>, order: seq<nat>, b: nat)
    requires Placed(d, blocks) && InOrder(d, order) && b in order
    ensures b < |blocks| && |blocks| == d.Blocks() && blocks[b].Valid() && blocks[b].Reads() !! blocks[b].Owns()
  {
    var i :| 0 <= i < |order| && order[i] == b;
    assert !d.Feeds(b, b);
  }

  lemma Stays(prog: seq<Instr>, s: State)
    ensures Leads(prog, 0, s, 0, 0, s)
  {
  }

  /** The last part has labels that the parts before it do not have. */
  lemma {:induction false} PartsApart(blocks: seq<Block>, order: seq<nat>)
    requires order != [] && (forall i :: 0 <= i < |order| ==> order[i] < |blocks|)
    requires forall i, j :: 0 <= i < j < |order| ==> order[i] != order[j]
    ensures var parts, k := Parts(blocks, order), |order| - 1;
      Closed(Concat(parts[..k])) && Closed(parts[k]) && Marks(Concat(parts[..k])) !! Marks(parts[k])
  {
    var parts, k := Parts(blocks, order), |order| - 1;
    forall i | 0 <= i < |order| ensures Whole(parts[i], order[i]) { BlockWhole(blocks[order[i]], order[i]); }
    ConcatMarks(parts[..k], order[..k]);
  }

  /** The machine runs the whole scan: it ends behind the last block, every block of the diagram holds
      what its equation says for the values the scan ends with, and no foreign bit has changed. */
  lemma {:induction false} MachineScans(d: Diagram, blocks: seq<Block>, order: seq<nat>, s: State)
    returns (n: nat, s': State)
    requires d.Valid() && Placed(d, blocks) && Numbering.Lists(order, d.All()) && d.Sequenced(order)
    ensures InOrder(d, order)
    ensures var prog := Concat(Parts(blocks, order)); Leads(prog, 0, s, n, |prog|, s')
    ensures forall b :: 0 <= b < d.Blocks() ==> Holds(blocks[b], s, s')
    ensures OnlyChanged(s, s', OwnedBy(blocks, order))
  {
    hide Leads, OnlyChanged, Holds;
    forall i | 0 <= i < |order| ensures order[i] < d.Blocks() { assert order[i] in order; }
    n, s' := ScanRuns(d, blocks, order, s);
    forall b | 0 <= b < d.Blocks() ensures Holds(blocks[b], s, s') {
      assert b in d.All();
      var i :| 0 <= i < |order| && order[i] == b;
      assert Holds(blocks[order[i]], s, s');
    }
  }
}
