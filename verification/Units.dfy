/** The blocks of a diagram, and what one scan makes of each of them. */
module Units {
  import opened Options
  import opened Avr
  import opened Blocks
  import opened Gates
  import opened Latches
  import opened Timers
  import opened Pulses
  import opened Timetable
  import opened Encoders
  import opened Codegen
  import opened Scans

  /** A block of a diagram and the variables on its slots; what is not connected is missing. Input blocks
      compute nothing. The blocks that are generated as statements in C are `Statements`. */
  datatype FbdBlock =
    | Input
    | Output(input: Option<BitVar>, inverted: bool, output: Option<BitVar>)
    | Or(slots: seq<Slot>, out: BitVar)
    | And(slots: seq<Slot>, out: BitVar)
    | Not(x: Slot, out: BitVar)
    | RsTrigger(set_: Option<BitVar>, reset: Option<BitVar>, out: BitVar)
    | EdgeBlock(kind: Edge, input: Option<BitVar>, prev: BitVar, out: BitVar)
    | CounterBlock(input: Option<BitVar>, reset: Option<BitVar>, prev: BitVar, count: nat)
    | DelayBlock(input: Option<BitVar>, out: BitVar, tmr: nat, clock: nat, ticks: nat)
    | PulseBlock(input: Option<BitVar>, out: BitVar, prev: BitVar, tmr: nat, clock: nat, fall: bool, width: nat)
    | ScheduleBlock(enable: Option<BitVar>, out: BitVar, times: Timer)
    | BinaryEncoder(slots: seq<Slot>, addr: nat, size: nat)
    | BinaryDecoder(bytes: Option<nat>, size: nat, outs: seq<BitVar>)
    | Statements(ins: seq<(nat, nat)>, own: seq<(nat, nat)>, f: State -> State, g: (seq<bool>, seq<bool>) -> seq<bool>)

  function FootPlaces(x: BitVar): seq<(nat, nat)> {
    if x.quality then [(x.addr, x.bit), (x.addr, x.bit + 1)] else [(x.addr, x.bit)]
  }

  function OutPlaces(outs: seq<BitVar>): seq<(nat, nat)> {
    if outs == [] then [] else OutPlaces(outs[..|outs| - 1]) + FootPlaces(outs[|outs| - 1])
  }

  /** The bits that belong to the block: its output and its state. */
  function OwnPlaces(u: FbdBlock): seq<(nat, nat)> {
    match u
    case Input => []
    case Output(_, _, out) => if out.Some? then FootPlaces(out.value) else []
    case EdgeBlock(_, _, prev, out) => FootPlaces(out) + [(prev.addr, prev.bit)]
    case CounterBlock(_, _, prev, count) => CellBits(count, 2) + [(prev.addr, prev.bit)]
    case DelayBlock(_, out, tmr, _, _) => FootPlaces(out) + CellBits(tmr, 4)
    case PulseBlock(_, out, prev, tmr, _, _, _) => FootPlaces(out) + [(prev.addr, prev.bit)] + CellBits(tmr, 2)
    case BinaryEncoder(_, addr, size) => CellBits(addr, size + 1)
    case BinaryDecoder(_, _, outs) => OutPlaces(outs)
    case Statements(_, own, _, _) => own
    case _ => FootPlaces(u.out)
  }

  /** What is left of a block: without the inputs it needs there is nothing to compute. */
  function Wired(u: FbdBlock): Block {
    match u
    case Input => Silent([])
    case Output(x, inverted, out) =>
      if x.Some? && out.Some? then OutputBit(x.value, inverted, out.value) else Silent(OwnPlaces(u))
    case Or(slots, out) => if Connected(slots) == 0 then Silent(OwnPlaces(u)) else Logic(true, slots, out)
    case And(slots, out) => if Connected(slots) == 0 then Silent(OwnPlaces(u)) else Logic(false, slots, out)
    case Not(x, out) => if x.BitIn? then Inverter(x.x, out) else Silent(OwnPlaces(u))
    case RsTrigger(x, r, out) => if x.None? && r.None? then Silent(OwnPlaces(u)) else Rs(x, r, out)
    case EdgeBlock(kind, x, prev, out) =>
      if x.Some? then EdgeDetector(kind, x.value, prev, out) else Silent(OwnPlaces(u))
    case CounterBlock(x, r, prev, count) =>
      if x.Some? then RiseCounter(x.value, r, prev, count) else Silent(OwnPlaces(u))
    case DelayBlock(x, out, tmr, clock, ticks) =>
      if x.Some? then OnDelay(x.value, out, tmr, clock, ticks) else Silent(OwnPlaces(u))
    case PulseBlock(x, out, prev, tmr, clock, fall, width) =>
      if x.Some? then PulseOutput(x.value, out, prev, tmr, clock, fall, width) else Silent(OwnPlaces(u))
    case ScheduleBlock(en, out, t) => if t.size == 0 then Silent(OwnPlaces(u)) else Timetabled(en, out, t)
    case BinaryEncoder(slots, addr, size) =>
      if Connected(slots) == 0 then Silent(OwnPlaces(u)) else Encoder(slots, addr, size)
    case BinaryDecoder(x, size, outs) => if x.Some? then Decoder(x.value, size, outs) else Silent(OwnPlaces(u))
    case Statements(ins, own, f, g) => Foreign(ins, own, f, g)
  }

  function WiredAll(units: seq<FbdBlock>): (blocks: seq<Block>)
    ensures |blocks| == |units|
  {
    seq(|units|, i requires 0 <= i < |units| => Wired(units[i]))
  }

  /* ---- what a scan makes of a block ---- */

  ghost predicate SameCells(s: State, s': State, addr: nat, n: nat) {
    forall a :: addr <= a < addr + n ==> s'.Get(Cell(a)) == s.Get(Cell(a))
  }

  ghost predicate SameBit(s: State, s': State, x: BitVar) {
    s'.GetBit(x.Reg(), x.bit) == s.GetBit(x.Reg(), x.bit)
  }

  /** The block's output and its state are as they were. */
  ghost predicate Untouched(u: FbdBlock, s: State, s': State) {
    match u
    case Input => true
    case Output(_, _, out) => out.Some? ==> Read(s', out.value) == Read(s, out.value)
    case EdgeBlock(_, _, prev, out) => Read(s', out) == Read(s, out) && SameBit(s, s', prev)
    case CounterBlock(_, _, prev, count) => SameCells(s, s', count, 2) && SameBit(s, s', prev)
    case DelayBlock(_, out, tmr, _, _) => Read(s', out) == Read(s, out) && SameCells(s, s', tmr, 4)
    case PulseBlock(_, out, prev, tmr, _, _, _) =>
      Read(s', out) == Read(s, out) && SameBit(s, s', prev) && SameCells(s, s', tmr, 2)
    case BinaryEncoder(_, addr, size) => SameCells(s, s', addr, size + 1)
    case BinaryDecoder(_, _, outs) => forall i :: 0 <= i < |outs| ==> Read(s', outs[i]) == Read(s, outs[i])
    case Statements(_, own, _, _) => BitsAt(s', own) == BitsAt(s, own)
    case _ => Read(s', u.out) == Read(s, u.out)
  }

  ghost predicate AllOpen(slots: seq<Slot>) {
    forall i :: 0 <= i < |slots| ==> slots[i].Open?
  }

  /** What the block's output and state are after a scan from `s` to `s'`, in terms of its inputs in `s'`. */
  ghost predicate Means(u: FbdBlock, s: State, s': State) {
    match u
    case Input => true
    case Output(x, inverted, out) =>
      if x.None? || out.None? then Untouched(u, s, s') else OutputMeans(x.value, inverted, out.value, s, s')
    case Or(slots, out) =>
      if AllOpen(slots) then Untouched(u, s, s') else HasBitInput(slots) ==> OrMeans(slots, out, s')
    case And(slots, out) =>
      if AllOpen(slots) then Untouched(u, s, s') else HasBitInput(slots) ==> AndMeans(slots, out, s')
    case Not(x, out) => if !x.BitIn? then Untouched(u, s, s') else NotMeans(x.x, out, s, s')
    case RsTrigger(x, r, out) => if x.None? && r.None? then Untouched(u, s, s') else RsMeans(x, r, out, s, s')
    case EdgeBlock(kind, x, prev, out) =>
      if x.None? then Untouched(u, s, s') else EdgeMeans(kind, x.value, prev, out, s, s')
    case CounterBlock(x, r, prev, count) =>
      if x.None? then Untouched(u, s, s') else CounterMeans(x.value, r, prev, count, s, s')
    case DelayBlock(x, out, tmr, clock, ticks) =>
      if x.None? then Untouched(u, s, s') else DelayMeans(x.value, out, tmr, clock, ticks, s, s')
    case PulseBlock(x, out, prev, tmr, clock, fall, width) =>
      if x.None? then Untouched(u, s, s') else PulseMeans(x.value, out, prev, tmr, clock, fall, width, s, s')
    case ScheduleBlock(en, out, t) => if t.size == 0 then Untouched(u, s, s') else ScheduleMeans(en, out, t, s, s')
    case BinaryEncoder(slots, addr, size) =>
      if AllOpen(slots) then Untouched(u, s, s') else EncoderMeans(slots, addr, size, s, s')
    case BinaryDecoder(x, size, outs) =>
      if x.None? then Untouched(u, s, s') else DecoderMeans(x.value, size, outs, s, s')
    case Statements(ins, own, _, g) => BitsAt(s', own) == g(BitsAt(s', ins), BitsAt(s, own))
  }

  /** Some bit input is good and has this value. */
  ghost predicate Finds(s: State, slots: seq<Slot>, v: bool) {
    exists i :: 0 <= i < |slots| && slots[i].BitIn? && Read(s, slots[i].x) == Signal(v, true)
  }

  ghost predicate NoneBad(s: State, slots: seq<Slot>) {
    forall i :: 0 <= i < |slots| && slots[i].BitIn? ==> Read(s, slots[i].x).q
  }

  /** A good 1 decides; without one, all inputs must be good for the 0 to be known. */
  ghost predicate OrMeans(slots: seq<Slot>, out: BitVar, s: State) {
    TruthOf(Read(s, out)) ==
      if Finds(s, slots, true) then Known(true) else if NoneBad(s, slots) then Known(false) else Unknown
  }

  /** A good 0 decides; without one, all inputs must be good for the 1 to be known. */
  ghost predicate AndMeans(slots: seq<Slot>, out: BitVar, s: State) {
    TruthOf(Read(s, out)) ==
      if Finds(s, slots, false) then Known(false) else if NoneBad(s, slots) then Known(true) else Unknown
  }

  ghost predicate NotMeans(x: BitVar, out: BitVar, s: State, s': State) {
    Read(s', out) == if Read(s', x).q then Signal(!Read(s', x).v, true) else Signal(Read(s, out).v, false)
  }

  /** A bad input holds an output that has a quality bit, and switches off one that has none. */
  ghost predicate OutputMeans(x: BitVar, inverted: bool, out: BitVar, s: State, s': State) {
    var sig := Read(s', x);
    Read(s', out) ==
      if sig.q then Signal(if inverted then !sig.v else sig.v, true)
      else if out.quality then Signal(Read(s, out).v, false) else Signal(inverted, true)
  }

  /** A bad input holds the value; reset comes before set; otherwise the value holds, too, and is good. */
  ghost predicate RsMeans(x: Option<BitVar>, r: Option<BitVar>, out: BitVar, s: State, s': State) {
    Read(s', out) ==
      if (x.Some? && !Read(s', x.value).q) || (r.Some? && !Read(s', r.value).q) then Signal(Read(s, out).v, false)
      else if r.Some? && Read(s', r.value).v then Signal(false, true)
      else if x.Some? && Read(s', x.value).v then Signal(true, true)
      else Signal(Read(s, out).v, true)
  }

  /** A good input is compared with the last good one, and sampled; a bad one clears the quality only. */
  ghost predicate EdgeMeans(kind: Edge, x: BitVar, prev: BitVar, out: BitVar, s: State, s': State) {
    var sig, was, now := Read(s', x), s.GetBit(prev.Reg(), prev.bit), s'.GetBit(prev.Reg(), prev.bit);
    if !sig.q then Read(s', out) == Signal(Read(s, out).v, false) && now == was
    else
      && now == sig.v
      && (kind == Rising ==> Read(s', out) == Signal(sig.v && !was, true))
      && (kind == Falling ==> Read(s', out) == Signal(!sig.v && was, true))
      && (kind == Both ==> Read(s', out) == Signal(sig.v != was, true))
  }

  /** A bad reset holds the count, a good one that is 1 clears it; then a rise from the sampled input counts. */
  ghost predicate CounterMeans(x: BitVar, r: Option<BitVar>, prev: BitVar, count: nat, s: State, s': State) {
    var sig, n, n' := Read(s', x), Word(s, count), Word(s', count);
    var was, now := s.GetBit(prev.Reg(), prev.bit), s'.GetBit(prev.Reg(), prev.bit);
    if r.Some? && !Read(s', r.value).q then n' == n && now == was
    else if r.Some? && Read(s', r.value).v then n' == 0 && now == was
    else if !sig.q then n' == n && now == was
    else now == sig.v && n' == if sig.v && !was then (n + 1) % 0x1_0000 else n
  }

  /** The first good 1 starts the delay; while the input stays 1, the output comes on as soon as it has
      lasted as many ticks of the 24-bit clock; a good 0 ends it; a bad input holds it. */
  ghost predicate DelayMeans(x: BitVar, out: BitVar, tmr: nat, clock: nat, ticks: nat, s: State, s': State) {
    var sig, was, now, d, d' := Read(s', x), Read(s, out), Read(s', out), ReadDelay(s, tmr), ReadDelay(s', tmr);
    && now.q == (if x.quality then sig.q else was.q)
    && if !sig.q then now.v == was.v && d' == d
       else if !sig.v then !now.v && !d'.running && !d'.passed
       else if !d.running then !now.v && d'.running && !d'.passed && d'.start == Clock(s', clock)
       else
         && d'.running && d'.start == d.start && now.v == d'.passed
         && d'.passed == (d.passed || (Clock(s', clock) - d.start) % 0x100_0000 >= ticks % 0x100_0000)
  }

  /** The edge of the given kind starts the pulse, which ends when its width has passed by the 16-bit clock. */
  ghost predicate PulseMeans(x: BitVar, out: BitVar, prev: BitVar, tmr: nat, clock: nat, fall: bool, width: nat,
      s: State, s': State)
  {
    var sig, before, after, time := Read(s', x), Read(s, out), Read(s', out), Clock16(s', clock);
    var was, now, start, start' := s.GetBit(prev.Reg(), prev.bit), s'.GetBit(prev.Reg(), prev.bit), Word(s, tmr),
      Word(s', tmr);
    && after.q == (if x.quality then sig.q else before.q)
    && (!sig.q ==> after.v == before.v && now == was && start' == start)
    && (sig.q ==> now == sig.v)
    && (sig.q && sig.v == !fall && was == fall ==> after.v && start' == time)
    && (sig.q && !(sig.v == !fall && was == fall) ==>
         start' == start && after.v == (before.v && (time - start) % 0x1_0000 < width % 0x1_0000))
  }

  /** Some entry of the table is the present hour and minute, and its active seconds are not over. */
  ghost predicate IsDue(t: Timer, s: State) {
    && ToNat(s.Get(Cell(t.sec))) < ToNat(t.active)
    && exists i: nat :: i < t.size
         && s.mem(t.origin + 2 * i) == s.Get(Cell(t.hour)) && s.mem(t.origin + 2 * i + 1) == s.Get(Cell(t.min))
  }

  ghost predicate ScheduleMeans(en: Option<BitVar>, out: BitVar, t: Timer, s: State, s': State) {
    Read(s', out) ==
      if s'.Get(Cell(t.hourQ)) == ZERO || (en.Some? && !Read(s', en.value).q) then Signal(Read(s, out).v, false)
      else Signal((en.Some? ==> Read(s', en.value).v) && IsDue(t, s'), true)
  }

  /** The input is connected, and neither it nor an earlier one is bad. */
  ghost predicate Accepted(s: State, slots: seq<Slot>, i: nat)
    requires i < |slots|
  {
    slots[i].BitIn? && forall k :: 0 <= k <= i && slots[k].BitIn? ==> Read(s, slots[k].x).q
  }

  /** Of the accepted inputs that have their place at the same bit it is the last one. */
  ghost predicate LastAccepted(s: State, slots: seq<Slot>, size: nat, i: nat)
    requires i < |slots|
  {
    && Accepted(s, slots, i)
    && forall k: nat :: i < k < |slots| && Accepted(s, slots, k) ==> BitPlace(k, size) != BitPlace(i, size)
  }

  ghost predicate NoneAccepted(s: State, slots: seq<Slot>, size: nat, j: nat) {
    forall k: nat :: k < |slots| && Accepted(s, slots, k) ==> BitPlace(k, size) != j
  }

  function BitOf(s: State, addr: nat, j: nat): bool {
    s.GetBit(Cell(addr + j / 8), j % 8)
  }

  /** Each bit holds the last accepted input that has its place there, and is kept when there is none; the
      quality, which is a byte, tells whether no input was bad. */
  ghost predicate EncoderMeans(slots: seq<Slot>, addr: nat, size: nat, s: State, s': State) {
    && (forall i: nat :: i < |slots| && LastAccepted(s', slots, size, i) ==>
         BitOf(s', addr, BitPlace(i, size)) == Read(s', slots[i].x).v)
    && (forall j: nat :: j < 8 * size && NoneAccepted(s', slots, size, j) ==> BitOf(s', addr, j) == BitOf(s, addr, j))
    && (forall j: nat :: 8 * size <= j < 8 * (size + 1) ==>
         BitOf(s', addr, j) == (j == 8 * size && NoneBad(s', slots)))
  }

  /** Each output shows its bit of the input with the quality of the whole, as far as the input has bits. */
  ghost predicate DecoderMeans(addr: nat, size: nat, outs: seq<BitVar>, s: State, s': State) {
    forall i :: 0 <= i < |outs| ==>
      Read(s', outs[i]) ==
        if i < 8 * size then Signal(BitOf(s', addr, i), BitOf(s', addr, 8 * size)) else Read(s, outs[i])
  }

  /* ---- the equation of a block says what it means ---- */

  ghost predicate SamePlace(s: State, s': State, p: (nat, nat)) {
    s'.GetBit(Cell(p.0), p.1) == s.GetBit(Cell(p.0), p.1)
  }

  lemma BitsKept(s: State, s': State, own: seq<(nat, nat)>, p: (nat, nat))
    requires BitsAt(s', own) == BitsAt(s, own) && p in own
    ensures SamePlace(s, s', p)
  {
    var i :| 0 <= i < |own| && own[i] == p;
    assert BitsAt(s', own)[i] == BitsAt(s, own)[i];
  }

  lemma ReadKept(s: State, s': State, own: seq<(nat, nat)>, x: BitVar)
    requires BitsAt(s', own) == BitsAt(s, own) && forall p :: p in FootPlaces(x) ==> p in own
    ensures Read(s', x) == Read(s, x)
  {
    assert (x.addr, x.bit) in FootPlaces(x);
    BitsKept(s, s', own, (x.addr, x.bit));
    if x.quality {
      assert (x.addr, x.bit + 1) in FootPlaces(x);
      BitsKept(s, s', own, (x.addr, x.bit + 1));
    }
  }

  lemma {:induction false} CellsKept(s: State, s': State, own: seq<(nat, nat)>, addr: nat, n: nat)
    requires BitsAt(s', own) == BitsAt(s, own) && forall p :: p in CellBits(addr, n) ==> p in own
    ensures SameCells(s, s', addr, n)
  {
    forall a | addr <= a < addr + n ensures s'.Get(Cell(a)) == s.Get(Cell(a)) {
      forall k: nat | k < 8 ensures s'.Get(Cell(a))[k] == s.Get(Cell(a))[k] {
        assert CellBits(addr, n)[8 * (a - addr) + k] == (a, k);
        BitsKept(s, s', own, (a, k));
        assert SamePlace(s, s', (a, k));
      }
    }
  }

  lemma {:induction false} OutsKept(s: State, s': State, own: seq<(nat, nat)>, outs: seq<BitVar>)
    requires BitsAt(s', own) == BitsAt(s, own) && forall p :: p in OutPlaces(outs) ==> p in own
    ensures forall i :: 0 <= i < |outs| ==> Read(s', outs[i]) == Read(s, outs[i])
  {
    if outs != [] {
      var n := |outs| - 1;
      OutsKept(s, s', own, outs[..n]);
      ReadKept(s, s', own, outs[n]);
    }
  }

  /** A block without what it needs keeps all bits that belong to it. */
  lemma {:induction false} SilentUntouched(u: FbdBlock, s: State, s': State)
    requires BitsAt(s', OwnPlaces(u)) == BitsAt(s, OwnPlaces(u))
    ensures Untouched(u, s, s')
  {
    hide Read, BitsAt, CellBits, SameCells;
    var own := OwnPlaces(u);
    match u
    case Input =>
    case Output(_, _, out) => if out.Some? { ReadKept(s, s', own, out.value); }
    case EdgeBlock(_, _, prev, out) =>
      ReadKept(s, s', own, out);
      BitsKept(s, s', own, (prev.addr, prev.bit));
    case CounterBlock(_, _, prev, count) =>
      CellsKept(s, s', own, count, 2);
      BitsKept(s, s', own, (prev.addr, prev.bit));
    case DelayBlock(_, out, tmr, _, _) =>
      ReadKept(s, s', own, out);
      CellsKept(s, s', own, tmr, 4);
    case PulseBlock(_, out, prev, tmr, _, _, _) =>
      ReadKept(s, s', own, out);
      BitsKept(s, s', own, (prev.addr, prev.bit));
      CellsKept(s, s', own, tmr, 2);
    case BinaryEncoder(_, addr, size) => CellsKept(s, s', own, addr, size + 1);
    case BinaryDecoder(_, _, outs) => OutsKept(s, s', own, outs);
    case Statements(_, _, _, _) =>
    case _ => ReadKept(s, s', own, u.out);
  }

  lemma {:induction false} OpenIff(slots: seq<Slot>)
    ensures Connected(slots) == 0 <==> AllOpen(slots)
  {
    if slots != [] {
      var n := |slots| - 1;
      OpenIff(slots[..n]);
      assert AllOpen(slots) <==> AllOpen(slots[..n]) && slots[n].Open? by {
        forall i | 0 <= i < n ensures slots[..n][i] == slots[i] {
        }
      }
    }
  }

  /** The dominating and the bad inputs among the signals are those among the slots. */
  lemma {:induction false} SignalsAre(s: State, slots: seq<Slot>, or: bool)
    ensures Dominated(or, Signals(s, slots)) <==> Finds(s, slots, or)
    ensures AllGood(Signals(s, slots)) <==> NoneBad(s, slots)
  {
    if slots != [] {
      hide Read, Dominated, AllGood;
      var n := |slots| - 1;
      SignalsAre(s, slots[..n], or);
      SlotsAppend(s, slots[..n], slots[n], or);
      assert slots == slots[..n] + [slots[n]];
      if slots[n].BitIn? {
        DominatedAppend(or, Signals(s, slots[..n]), Read(s, slots[n].x));
      } else {
        assert Signals(s, slots) == Signals(s, slots[..n]);
      }
    } else {
      assert Signals(s, slots) == [];
    }
  }

  lemma {:induction false} SlotsAppend(s: State, slots: seq<Slot>, x: Slot, v: bool)
    ensures Finds(s, slots + [x], v) <==> Finds(s, slots, v) || (x.BitIn? && Read(s, x.x) == Signal(v, true))
    ensures NoneBad(s, slots + [x]) <==> NoneBad(s, slots) && (x.BitIn? ==> Read(s, x.x).q)
  {
    hide Read;
    var all := slots + [x];
    assert all[|slots|] == x;
    forall i | 0 <= i < |slots| ensures all[i] == slots[i] {
    }
    if Finds(s, slots, v) {
      var i :| 0 <= i < |slots| && slots[i].BitIn? && Read(s, slots[i].x) == Signal(v, true);
      assert all[i].BitIn? && Read(s, all[i].x) == Signal(v, true);
    }
    if NoneBad(s, all) {
      forall i | 0 <= i < |slots| && slots[i].BitIn? ensures Read(s, slots[i].x).q { assert all[i] == slots[i]; }
    }
  }

  /** The stored signal of a gate in terms of its slots. */
  lemma {:induction false} GateMeans(slots: seq<Slot>, out: BitVar, or: bool, s': State)
    requires HasBitInput(slots) && Read(s', out) == GateResult(or, Signals(s', slots), false)
    ensures TruthOf(Read(s', out)) ==
      if Finds(s', slots, or) then Known(or) else if NoneBad(s', slots) then Known(!or) else Unknown
  {
    hide Read;
    SignalsEmptyIff(s', slots);
    SignalsAre(s', slots, or);
    GateIsKleene(or, Signals(s', slots), false);
    KleeneAllIs(or, Signals(s', slots));
  }

  lemma SilentHolds(u: FbdBlock, s: State, s': State)
    requires Wired(u) == Silent(OwnPlaces(u)) && Holds(Wired(u), s, s')
    ensures Untouched(u, s, s')
  {
    SilentUntouched(u, s, s');
  }

  lemma {:induction false} GateHolds(u: FbdBlock, s: State, s': State)
    requires (u.Or? || u.And?) && Wired(u).Valid() && Holds(Wired(u), s, s')
    ensures Means(u, s, s')
  {
    hide Read, Untouched, GateResult, Signals;
    OpenIff(u.slots);
    if AllOpen(u.slots) { SilentHolds(u, s, s'); } else { GateMeans(u.slots, u.out, u.Or?, s'); }
  }

  lemma {:induction false} LatchHolds(u: FbdBlock, s: State, s': State)
    requires u.Not? || u.Output? || u.RsTrigger? || u.EdgeBlock?
    requires Wired(u).Valid() && Holds(Wired(u), s, s')
    ensures Means(u, s, s')
  {
    hide Read, Untouched;
    if Wired(u).Silent? { SilentHolds(u, s, s'); }
  }

  lemma {:induction false} CounterHolds(u: FbdBlock, s: State, s': State)
    requires u.CounterBlock? && Wired(u).Valid() && Holds(Wired(u), s, s')
    ensures Means(u, s, s')
  {
    hide Read, Untouched, Word;
    if u.input.None? { SilentHolds(u, s, s'); }
  }

  lemma {:induction false} DelayHolds(u: FbdBlock, s: State, s': State)
    requires u.DelayBlock? && Wired(u).Valid() && Holds(Wired(u), s, s')
    ensures Means(u, s, s')
  {
    hide Read, Untouched, ReadDelay, Clock;
    if u.input.None? { SilentHolds(u, s, s'); }
  }

  lemma ReadValue(s: State, x: BitVar)
    ensures Read(s, x).v == s.GetBit(x.Reg(), x.bit)
  {
  }

  lemma {:induction false} PulseHolds(u: FbdBlock, s: State, s': State)
    requires u.PulseBlock? && Wired(u).Valid() && Holds(Wired(u), s, s')
    ensures Means(u, s, s')
  {
    hide Read, Untouched, Word, Clock16;
    if u.input.None? {
      SilentHolds(u, s, s');
    } else {
      ReadValue(s, u.out);
      ReadValue(s', u.out);
    }
  }

  lemma {:induction false} ScheduleHolds(u: FbdBlock, s: State, s': State)
    requires u.ScheduleBlock? && Wired(u).Valid() && Holds(Wired(u), s, s')
    ensures Means(u, s, s')
  {
    hide Read, Untouched, ToNat;
    if u.times.size == 0 {
      SilentHolds(u, s, s');
    } else {
      assert IsDue(u.times, s') == TimeSignal(s', u.times).v by { DueIs(u.times, s'); }
    }
  }

  lemma {:induction false} DueIs(t: Timer, s: State)
    ensures IsDue(t, s) <==> ToNat(s.Get(Cell(t.sec))) < ToNat(t.active) && Due(s, t, 0)
  {
    hide ToNat, State.Get;
    if Due(s, t, 0) {
      var i: nat :| 0 <= i < t.size && Matches(s, t, i);
      assert s.mem(t.origin + 2 * i) == s.Get(Cell(t.hour));
    }
    if IsDue(t, s) {
      var i: nat :| i < t.size && s.mem(t.origin + 2 * i) == s.Get(Cell(t.hour))
        && s.mem(t.origin + 2 * i + 1) == s.Get(Cell(t.min));
      assert Matches(s, t, i);
    }
  }

  lemma {:induction false} DecoderHolds(u: FbdBlock, s: State, s': State)
    requires u.BinaryDecoder? && Wired(u).Valid() && Holds(Wired(u), s, s')
    ensures Means(u, s, s')
  {
    hide Read, Untouched, State.Get;
    if u.bytes.None? {
      SilentHolds(u, s, s');
    } else {
      var sigs, was, now := DecoderSignals(s', u.bytes.value, u.size), ReadOuts(s, u.outs), ReadOuts(s', u.outs);
      assert now == Spread(sigs, was);
      forall i | 0 <= i < |u.outs|
        ensures Read(s', u.outs[i]) == if i < 8 * u.size then sigs[i] else Read(s, u.outs[i])
      {
        assert now[i] == Spread(sigs, was)[i];
      }
    }
  }

  /* ---- the encoder ---- */

  lemma {:induction false} FirstBadIs(s: State, slots: seq<Slot>)
    ensures var sigs := WireSignals(s, slots);
      && (forall i: nat :: i < |slots| ==> (Accepted(s, slots, i) <==> slots[i].BitIn? && i < FirstBad(sigs)))
      && (NoneBad(s, slots) <==> FirstBad(sigs) == |sigs|)
  {
    hide Read;
    var sigs := WireSignals(s, slots);
    forall i: nat | i < |slots| ensures Accepted(s, slots, i) <==> slots[i].BitIn? && i < FirstBad(sigs) {
      if i < FirstBad(sigs) {
        forall k | 0 <= k <= i && slots[k].BitIn? ensures Read(s, slots[k].x).q { assert sigs[k].q; }
      } else {
        assert !sigs[FirstBad(sigs)].q;
      }
    }
    if NoneBad(s, slots) {
      assert forall i :: 0 <= i < |sigs| ==> sigs[i].q;
    } else {
      var i :| 0 <= i < |slots| && slots[i].BitIn? && !Read(s, slots[i].x).q;
      assert !sigs[i].q;
    }
  }

  /** Of the first `n` inputs, `i` is the last one with its place at bit `j`. */
  ghost predicate LastTo(slots: seq<Slot>, n: nat, size: nat, j: nat, i: nat)
    requires i < n <= |slots|
  {
    && slots[i].BitIn? && BitPlace(i, size) == j
    && forall k: nat :: i < k < n && slots[k].BitIn? ==> BitPlace(k, size) != j
  }

  /** The bit after the first `n` inputs is that of the last one with its place there. */
  lemma {:induction false} BitAfterIs(slots: seq<Slot>, sigs: seq<Signal>, n: nat, size: nat, j: nat, was: bool)
    requires n <= |slots| == |sigs|
    ensures (forall k: nat :: k < n && slots[k].BitIn? ==> BitPlace(k, size) != j) ==>
      BitAfter(slots, sigs, n, size, j, was) == was
    ensures forall i: nat :: i < n && LastTo(slots, n, size, j, i) ==>
      BitAfter(slots, sigs, n, size, j, was) == sigs[i].v
  {
    if n > 0 { BitAfterIs(slots, sigs, n - 1, size, j, was); }
  }

  /** What the equation says, bit by bit. */
  lemma {:induction false} EncodedBits(u: FbdBlock, s: State, s': State, j: nat)
    requires u.BinaryEncoder? && Connected(u.slots) != 0 && Holds(Wired(u), s, s') && j < 8 * (u.size + 1)
    ensures var sigs := WireSignals(s', u.slots);
      BitOf(s', u.addr, j) ==
        if j < 8 * u.size then BitAfter(u.slots, sigs, FirstBad(sigs), u.size, j, BitOf(s, u.addr, j))
        else j == 8 * u.size && FirstBad(sigs) == |sigs|
  {
    hide State.Get, Connected, BitAfter, FirstBad;
    var places, sigs := CellBits(u.addr, u.size + 1), WireSignals(s', u.slots);
    assert BitsAt(s', places) == Encode(u.slots, sigs, u.size, BitsAt(s, places));
    assert BitsAt(s', places)[j] == BitOf(s', u.addr, j) && BitsAt(s, places)[j] == BitOf(s, u.addr, j);
  }

  lemma {:induction false} EncoderHolds(u: FbdBlock, s: State, s': State)
    requires u.BinaryEncoder? && Wired(u).Valid() && Holds(Wired(u), s, s')
    ensures Means(u, s, s')
  {
    hide Read, Untouched, Holds, Connected, BitOf, BitAfter, FirstBad, WireSignals, Accepted, BitPlace, NoneBad;
    OpenIff(u.slots);
    if AllOpen(u.slots) {
      SilentHolds(u, s, s');
    } else {
      var slots, size, sigs := u.slots, u.size, WireSignals(s', u.slots);
      var f := FirstBad(sigs);
      FirstBadIs(s', slots);
      forall i: nat | i < |slots| && LastAccepted(s', slots, size, i)
        ensures BitOf(s', u.addr, BitPlace(i, size)) == Read(s', slots[i].x).v
      {
        var j := BitPlace(i, size);
        EncodedBits(u, s, s', j);
        BitAfterIs(slots, sigs, f, size, j, BitOf(s, u.addr, j));
        assert LastTo(slots, f, size, j, i);
        WireIs(s', slots, i);
      }
      forall j: nat | j < 8 * size && NoneAccepted(s', slots, size, j)
        ensures BitOf(s', u.addr, j) == BitOf(s, u.addr, j) {
        EncodedBits(u, s, s', j);
        BitAfterIs(slots, sigs, f, size, j, BitOf(s, u.addr, j));
      }
      forall j: nat | 8 * size <= j < 8 * (size + 1)
        ensures BitOf(s', u.addr, j) == (j == 8 * size && NoneBad(s', slots))
      {
        EncodedBits(u, s, s', j);
      }
    }
  }

  lemma WireIs(s: State, slots: seq<Slot>, i: nat)
    requires i < |slots| && slots[i].BitIn?
    ensures WireSignals(s, slots)[i] == Read(s, slots[i].x)
  {
  }

  lemma InputMeans(s: State, s': State)
    ensures Means(Input, s, s')
  {
  }

  /** A block whose equation holds in a scan does in it what it means. */
  lemma {:induction false} HoldsMeans(u: FbdBlock, s: State, s': State)
    requires Wired(u).Valid() && Holds(Wired(u), s, s')
    ensures Means(u, s, s')
  {
    hide *;
    match u
    case Input => InputMeans(s, s');
    case Output(_, _, _) => LatchHolds(u, s, s');
    case Or(_, _) => GateHolds(u, s, s');
    case And(_, _) => GateHolds(u, s, s');
    case Not(_, _) => LatchHolds(u, s, s');
    case RsTrigger(_, _, _) => LatchHolds(u, s, s');
    case EdgeBlock(_, _, _, _) => LatchHolds(u, s, s');
    case CounterBlock(_, _, _, _) => CounterHolds(u, s, s');
    case DelayBlock(_, _, _, _, _) => DelayHolds(u, s, s');
    case PulseBlock(_, _, _, _, _, _, _) => PulseHolds(u, s, s');
    case ScheduleBlock(_, _, _) => ScheduleHolds(u, s, s');
    case BinaryEncoder(_, _, _) => EncoderHolds(u, s, s');
    case BinaryDecoder(_, _, _) => DecoderHolds(u, s, s');
    case Statements(ins, own, _, g) => StatementsHold(u, s, s');
  }

  lemma {:induction false} StatementsHold(u: FbdBlock, s: State, s': State)
    requires u.Statements? && Holds(Wired(u), s, s')
    ensures Means(u, s, s')
  {
    hide State.Get;
    assert Values(Signs(BitsAt(s', u.ins))) == BitsAt(s', u.ins);
  }
}
