/** The binary encoder, which gathers bit inputs into a byte variable, and the decoder, which spreads one. */
module Encoders {
  import opened Avr
  import opened Blocks
  import opened Gates
  import opened Timers

  /** The values of some bits of RAM. */
  function BitsAt(s: State, places: seq<(nat, nat)>): (bits: seq<bool>)
    ensures |bits| == |places|
  {
    seq(|places|, j requires 0 <= j < |places| => s.GetBit(Cell(places[j].0), places[j].1))
  }

  /** The bits of the cells from `addr` on. */
  function CellBits(addr: nat, n: nat): (places: seq<(nat, nat)>)
    ensures |places| == 8 * n
  {
    seq(8 * n, j requires 0 <= j < 8 * n => (addr + j / 8, j % 8))
  }

  /* ---- the encoder ---- */

  /** What is on the bit inputs; an open one is taken to be good. */
  function WireSignals(s: State, wires: seq<Slot>): (sigs: seq<Signal>)
    ensures |sigs| == |wires|
  {
    seq(|wires|, i requires 0 <= i < |wires| =>
      if wires[i].BitIn? then Read(s, wires[i].x) else Signal(false, true))
  }

  predicate IsSize(size: nat) { size == 1 || size == 2 || size == 4 }

  /** The byte of an output of `size` bytes that an input goes to. */
  function BytePlace(ix: nat, size: nat): (b: nat)
    ensures IsSize(size) ==> b < size
  {
    if size == 1 then 0
    else if size == 2 then if ix < 8 then 0 else 1
    else if ix < 8 then 0 else if ix < 16 then 1 else if ix < 24 then 2 else 3
  }

  function BitPlace(ix: nat, size: nat): (j: nat)
    ensures (IsSize(size) ==> j < 8 * size) && j / 8 == BytePlace(ix, size) && j % 8 == ix % 8
  {
    8 * BytePlace(ix, size) + ix % 8
  }

  function WireCode(id: nat, x: BitVar, ix: nat, addr: nat, size: nat): seq<Instr> {
    Gate(x, Label(id, BadQuality)) + [Bst(x.Reg(), x.bit), Bld(Cell(addr + BytePlace(ix, size)), ix % 8)]
  }

  function WiresCode(id: nat, wires: seq<Slot>, addr: nat, size: nat): seq<Instr> {
    if wires == [] then []
    else
      var n := |wires| - 1;
      WiresCode(id, wires[..n], addr, size)
      + if wires[n].BitIn? then WireCode(id, wires[n].x, n, addr, size) else []
  }

  function EncoderEnd(id: nat, q: nat): seq<Instr> {
    [Alu(Ldi(Cell(q), OneBit(0))), Br(Always, Label(id, End))]
    + [Lab(Label(id, BadQuality)), Alu(Eor(Cell(q), Cell(q))), Lab(Label(id, End))]
  }

  function EncoderCode(id: nat, wires: seq<Slot>, addr: nat, size: nat): seq<Instr> {
    WiresCode(id, wires, addr, size) + EncoderEnd(id, addr + size)
  }

  /** The first bad input, or the number of inputs. */
  function FirstBad(sigs: seq<Signal>): (f: nat)
    ensures f <= |sigs| && (forall i :: 0 <= i < f ==> sigs[i].q) && (f < |sigs| ==> !sigs[f].q)
  {
    if sigs == [] then 0
    else
      var n := |sigs| - 1;
      var f := FirstBad(sigs[..n]);
      if f < n || !sigs[n].q then f else n + 1
  }

  /** Bit `j` of the output after the first `n` inputs: the last of them that goes there, or the bit before. */
  function BitAfter(wires: seq<Slot>, sigs: seq<Signal>, n: nat, size: nat, j: nat, was: bool): bool
    requires n <= |wires| == |sigs|
  {
    if n == 0 then was
    else if wires[n - 1].BitIn? && BitPlace(n - 1, size) == j then sigs[n - 1].v
    else BitAfter(wires, sigs, n - 1, size, j, was)
  }

  /** The bits of the output and of its quality byte after a scan, from those before. */
  function Encode(wires: seq<Slot>, sigs: seq<Signal>, size: nat, was: seq<bool>): (bits: seq<bool>)
    requires |wires| == |sigs| && |was| == 8 * (size + 1)
    ensures |bits| == |was|
  {
    seq(8 * (size + 1), j requires 0 <= j < 8 * (size + 1) =>
      if j < 8 * size then BitAfter(wires, sigs, FirstBad(sigs), size, j, was[j])
      else j == 8 * size && FirstBad(sigs) == |sigs|)
  }

  lemma {:induction false} WireRuns(id: nat, x: BitVar, ix: nat, addr: nat, size: nat, s: State)
    requires x.Valid() && IsSize(size) && x.Foot() !! Cells(addr, size)
    ensures var p := Exec(WireCode(id, x, ix, addr, size), Pass(Running, s));
      if Read(s, x).q then p.mode == Running && Sets(s, p.s, addr + BytePlace(ix, size), ix % 8, Read(s, x).v)
      else p.mode == Seeking(Label(id, BadQuality)) && OnlyChanged(s, p.s, {})
  {
    hide Exec, Do;
    var g, b := Gate(x, Label(id, BadQuality)), Bld(Cell(addr + BytePlace(ix, size)), ix % 8);
    ExecAppend(g, [Bst(x.Reg(), x.bit), b], Pass(Running, s));
    GateRuns(x, Label(id, BadQuality), s);
    var p1 := Exec(g, Pass(Running, s));
    if Read(s, x).q {
      Exec2(Bst(x.Reg(), x.bit), b, p1);
      RunBst(x.Reg(), x.bit, p1.s);
      BldSets(p1.s.(t := p1.s.GetBit(x.Reg(), x.bit)), addr + BytePlace(ix, size), ix % 8);
    } else {
      ExecSeeking([Bst(x.Reg(), x.bit), b], Label(id, BadQuality), p1.s);
    }
  }

  /** The bits of the output hold what the inputs up to the first bad one put there. */
  ghost predicate Taken(wires: seq<Slot>, addr: nat, size: nat, s: State, s': State) {
    var sigs := WireSignals(s, wires);
    && OnlyChanged(s, s', Cells(addr, size))
    && forall j: nat :: j < 8 * size ==>
         s'.GetBit(Cell(addr + j / 8), j % 8) ==
           BitAfter(wires, sigs, FirstBad(sigs), size, j, s.GetBit(Cell(addr + j / 8), j % 8))
  }

  lemma {:induction false} BitAfterPrefix(wires: seq<Slot>, sigs: seq<Signal>, k: nat, n: nat, size: nat,
      j: nat, was: bool)
    requires n <= k <= |wires| == |sigs| && IsSize(size)
    ensures BitAfter(wires[..k], sigs[..k], n, size, j, was) == BitAfter(wires, sigs, n, size, j, was)
  {
    if n > 0 { BitAfterPrefix(wires, sigs, k, n - 1, size, j, was); }
  }

  lemma PlaceOf(addr: nat, size: nat, ix: nat, j: nat)
    requires IsSize(size) && j < 8 * size
    ensures (addr + j / 8, j % 8) == (addr + BytePlace(ix, size), ix % 8) <==> j == BitPlace(ix, size)
    ensures (addr + BytePlace(ix, size), ix % 8) in Cells(addr, size)
  {
  }

  /** One more input. */
  lemma {:induction false} TakeOne(wires: seq<Slot>, addr: nat, size: nat, s: State, s1: State, s2: State)
    requires IsSize(size) && wires != [] && Taken(wires[..|wires| - 1], addr, size, s, s1)
    requires var n := |wires| - 1; var sigs := WireSignals(s, wires);
      if FirstBad(sigs[..n]) < n || !wires[n].BitIn? || !sigs[n].q then OnlyChanged(s1, s2, {})
      else Sets(s1, s2, addr + BytePlace(n, size), n % 8, sigs[n].v)
    ensures Taken(wires, addr, size, s, s2)
  {
    hide State.Get, OnlyChanged, BytePlace, BitPlace, Cells, FirstBad, BitAfter;
    var n, sigs := |wires| - 1, WireSignals(s, wires);
    assert WireSignals(s, wires[..n]) == sigs[..n];
    var f1, skipped := FirstBad(sigs[..n]), FirstBad(sigs[..n]) < n || !wires[n].BitIn? || !sigs[n].q;
    var place := if skipped then {} else {(addr + BytePlace(n, size), n % 8)};
    PlaceOf(addr, size, n, 0);
    ChangedTrans(s, s1, s2, Cells(addr, size), place);
    assert Cells(addr, size) + place == Cells(addr, size);
    forall j: nat | j < 8 * size
      ensures s2.GetBit(Cell(addr + j / 8), j % 8) ==
        BitAfter(wires, sigs, FirstBad(sigs), size, j, s.GetBit(Cell(addr + j / 8), j % 8))
    {
      PlaceOf(addr, size, n, j);
      if skipped || j != BitPlace(n, size) { OtherBit(s1, s2, place, addr + j / 8, j % 8); }
      BitNext(wires, sigs, size, j, s.GetBit(Cell(addr + j / 8), j % 8));
    }
  }

  lemma OtherBit(s: State, s': State, own: set<(nat, nat)>, a: nat, k: nat)
    requires OnlyChanged(s, s', own) && k < 8 && (a, k) !in own
    ensures s'.GetBit(Cell(a), k) == s.GetBit(Cell(a), k)
  {
  }

  /** What the last input does to a bit. */
  lemma {:induction false} BitNext(wires: seq<Slot>, sigs: seq<Signal>, size: nat, j: nat, was: bool)
    requires wires != [] && |wires| == |sigs| && IsSize(size)
    ensures var n := |wires| - 1;
      BitAfter(wires, sigs, FirstBad(sigs), size, j, was) ==
        if FirstBad(sigs[..n]) == n && wires[n].BitIn? && sigs[n].q && BitPlace(n, size) == j then sigs[n].v
        else BitAfter(wires[..n], sigs[..n], FirstBad(sigs[..n]), size, j, was)
  {
    hide BitPlace;
    BitAfterPrefix(wires, sigs, |wires| - 1, FirstBad(sigs[..|wires| - 1]), size, j, was);
  }

  lemma {:induction false} WiresRun(id: nat, wires: seq<Slot>, addr: nat, size: nat, s: State)
    requires ValidSlots(wires) && IsSize(size) && SlotBits(wires) !! Cells(addr, size)
    ensures var p := Exec(WiresCode(id, wires, addr, size), Pass(Running, s));
      && p.mode == (if FirstBad(WireSignals(s, wires)) == |wires| then Running else Seeking(Label(id, BadQuality)))
      && Taken(wires, addr, size, s, p.s)
  {
    hide Exec, Read, OnlyChanged, WireCode, State.Get, Cells;
    if wires == [] {
      ExecNil(Pass(Running, s));
      NothingTaken(addr, size, s);
    } else {
      var n, sigs := |wires| - 1, WireSignals(s, wires);
      var front := WiresCode(id, wires[..n], addr, size);
      assert WireSignals(s, wires[..n]) == sigs[..n];
      WiresRun(id, wires[..n], addr, size, s);
      var p1 := Exec(front, Pass(Running, s));
      if !wires[n].BitIn? {
        assert front + [] == front;
        SameState(s, p1.s);
        TakeOne(wires, addr, size, s, p1.s, p1.s);
      } else {
        var x := wires[n].x;
        var c := WireCode(id, x, n, addr, size);
        ExecAppend(front, c, Pass(Running, s));
        if FirstBad(sigs[..n]) == n {
          ReadSame(x, s, p1.s, Cells(addr, size));
          WireRuns(id, x, n, addr, size, p1.s);
        } else {
          WireLabels(id, x, n, addr, size);
          ExecSeeking(c, Label(id, BadQuality), p1.s);
          SameState(s, p1.s);
        }
        TakeOne(wires, addr, size, s, p1.s, Exec(c, p1).s);
      }
    }
  }

  lemma NothingTaken(addr: nat, size: nat, s: State)
    ensures Taken([], addr, size, s, s)
  {
  }

  lemma SameState(s: State, s1: State)
    ensures OnlyChanged(s1, s1, {})
  {
  }

  lemma WireLabels(id: nat, x: BitVar, ix: nat, addr: nat, size: nat)
    ensures Lab(Label(id, BadQuality)) !in WireCode(id, x, ix, addr, size)
  {
  }

  ghost predicate QualityIs(s: State, q: nat, good: bool) {
    forall k :: 0 <= k < 8 ==> (s.GetBit(Cell(q), k) <==> k == 0 && good)
  }

  /** The end sets the quality byte: good when no input was bad. */
  lemma {:induction false} EncoderEndRuns(id: nat, q: nat, p: Pass)
    requires p.mode == Running || p.mode == Seeking(Label(id, BadQuality))
    ensures var p' := Exec(EncoderEnd(id, q), p);
      && p'.mode == Running && OnlyChanged(p.s, p'.s, Cells(q, 1))
      && QualityIs(p'.s, q, p.mode == Running)
  {
    hide Exec, Do, State.Compute;
    var a, b := [Alu(Ldi(Cell(q), OneBit(0))), Br(Always, Label(id, End))],
      [Lab(Label(id, BadQuality)), Alu(Eor(Cell(q), Cell(q))), Lab(Label(id, End))];
    var one, zero := p.s.Compute(Ldi(Cell(q), OneBit(0))), p.s.Compute(Eor(Cell(q), Cell(q)));
    ExecAppend(a, b, p);
    if p.mode == Running {
      Exec2(a[0], a[1], p);
      RunAlu(Ldi(Cell(q), OneBit(0)), p.s);
      RunBranch(Always, Label(id, End), one);
      Exec3(b[0], b[1], b[2], Pass(Seeking(Label(id, End)), one));
      RunPast(b[0], Label(id, End), one);
      RunPast(b[1], Label(id, End), one);
      RunFound(Label(id, End), one);
      OneIs(q, p.s);
    } else {
      ExecSeeking(a, Label(id, BadQuality), p.s);
      Exec3(b[0], b[1], b[2], p);
      RunFound(Label(id, BadQuality), p.s);
      RunAlu(Eor(Cell(q), Cell(q)), p.s);
      RunLabel(Label(id, End), Pass(Running, zero));
      ZeroIs(q, p.s);
    }
  }

  lemma OneIs(q: nat, s: State)
    ensures var s1 := s.Compute(Ldi(Cell(q), OneBit(0)));
      OnlyChanged(s, s1, Cells(q, 1)) && forall k :: 0 <= k < 8 ==> (s1.GetBit(Cell(q), k) <==> k == 0)
  {
  }

  lemma ZeroIs(q: nat, s: State)
    ensures var s1 := s.Compute(Eor(Cell(q), Cell(q)));
      OnlyChanged(s, s1, Cells(q, 1)) && forall k :: 0 <= k < 8 ==> !s1.GetBit(Cell(q), k)
  {
  }

  /** The encoder takes over its inputs up to the first bad one, and is good when none is bad. */
  lemma {:induction false} EncoderYields(id: nat, wires: seq<Slot>, addr: nat, size: nat, s: State)
    requires ValidSlots(wires) && IsSize(size) && SlotBits(wires) !! Cells(addr, size + 1)
    ensures var p, places := Exec(EncoderCode(id, wires, addr, size), Pass(Running, s)), CellBits(addr, size + 1);
      && p.mode == Running && OnlyChanged(s, p.s, Cells(addr, size + 1))
      && BitsAt(p.s, places) == Encode(wires, WireSignals(s, wires), size, BitsAt(s, places))
  {
    hide Exec, WiresCode, EncoderEnd, State.Get, OnlyChanged, Taken, Encode, BitsAt, CellBits, FirstBad;
    var a, b := WiresCode(id, wires, addr, size), EncoderEnd(id, addr + size);
    ExecAppend(a, b, Pass(Running, s));
    WiresRun(id, wires, addr, size, s);
    var p1 := Exec(a, Pass(Running, s));
    EncoderEndRuns(id, addr + size, p1);
    Encoded(wires, addr, size, s, p1.s, Exec(b, p1).s);
  }

  /** The bits taken over and the quality byte behind them are what `Encode` says. */
  lemma {:induction false} Encoded(wires: seq<Slot>, addr: nat, size: nat, s: State, s1: State, s2: State)
    requires IsSize(size) && Taken(wires, addr, size, s, s1) && OnlyChanged(s1, s2, Cells(addr + size, 1))
    requires QualityIs(s2, addr + size, FirstBad(WireSignals(s, wires)) == |wires|)
    ensures OnlyChanged(s, s2, Cells(addr, size + 1))
    ensures var places := CellBits(addr, size + 1);
      BitsAt(s2, places) == Encode(wires, WireSignals(s, wires), size, BitsAt(s, places))
  {
    hide State.Get, OnlyChanged, BitAfter, FirstBad;
    ChangedTrans(s, s1, s2, Cells(addr, size), Cells(addr + size, 1));
    assert Cells(addr, size) + Cells(addr + size, 1) == Cells(addr, size + 1);
    var places, sigs := CellBits(addr, size + 1), WireSignals(s, wires);
    forall j: nat | j < 8 * (size + 1)
      ensures BitsAt(s2, places)[j] == Encode(wires, sigs, size, BitsAt(s, places))[j] {
      if j < 8 * size { OtherBit(s1, s2, Cells(addr + size, 1), addr + j / 8, j % 8); }
    }
  }

  /** With at most as many inputs as bits, every connected input before the first bad one has its own bit of
      the output; all other bits stay, and the quality is good exactly when no input is bad. */
  lemma {:induction false} EncodeIs(wires: seq<Slot>, sigs: seq<Signal>, size: nat, was: seq<bool>)
    requires |wires| == |sigs| <= 8 * size && IsSize(size) && |was| == 8 * (size + 1)
    ensures var bits, f := Encode(wires, sigs, size, was), FirstBad(sigs);
      && (forall j :: 0 <= j < 8 * size ==>
           bits[j] == if j < f && wires[j].BitIn? then sigs[j].v else was[j])
      && (bits[8 * size] <==> forall i :: 0 <= i < |sigs| ==> sigs[i].q)
  {
    var f := FirstBad(sigs);
    forall j | 0 <= j < 8 * size
      ensures Encode(wires, sigs, size, was)[j] == if j < f && wires[j].BitIn? then sigs[j].v else was[j]
    {
      BitIs(wires, sigs, f, size, j, was[j]);
    }
  }

  lemma {:induction false} BitIs(wires: seq<Slot>, sigs: seq<Signal>, n: nat, size: nat, j: nat, was: bool)
    requires n <= |wires| == |sigs| <= 8 * size && IsSize(size) && j < 8 * size
    ensures BitAfter(wires, sigs, n, size, j, was) == if j < n && wires[j].BitIn? then sigs[j].v else was
  {
    if n > 0 {
      BitIs(wires, sigs, n - 1, size, j, was);
      PlaceIs(n - 1, size);
    }
  }

  /** The size the output gets from the number of inputs. */
  function OutputSize(inputs: nat): (size: nat)
    ensures IsSize(size)
  {
    if inputs <= 8 then 1 else if inputs <= 16 then 2 else 4
  }

  /** Every input has a bit of its own exactly when there are at most 32: more inputs share those of the
      last byte. */
  lemma {:induction false} OwnPlacesIff(inputs: nat)
    ensures OwnPlaces(inputs, OutputSize(inputs)) <==> inputs <= 32
  {
    var size := OutputSize(inputs);
    if inputs <= 32 {
      forall i: nat | i < inputs ensures BitPlace(i, size) == i { PlaceIs(i, size); }
    } else {
      assert size == 4 && BitPlace(24, 4) == BitPlace(32, 4);
    }
  }

  ghost predicate OwnPlaces(inputs: nat, size: nat) {
    forall i: nat, j: nat :: i < j < inputs ==> BitPlace(i, size) != BitPlace(j, size)
  }

  lemma PlaceIs(i: nat, size: nat)
    requires IsSize(size) && i < 8 * size
    ensures BitPlace(i, size) == i
  {
  }

  /* ---- the decoder ---- */

  /** Copies a bit with the quality in register 16. */
  function CopyTo(addr: nat, bit: nat, out: BitVar): seq<Instr> {
    [Bst(R(16), 0), Bld(out.Reg(), out.QBit()), Bst(Cell(addr), bit), Bld(out.Reg(), out.bit)]
  }

  function DecoderStep(addr: nat, ix: nat, out: BitVar): seq<Instr> {
    CopyTo(addr + ix / 8, ix % 8, out)
  }

  function DecoderSteps(addr: nat, outs: seq<BitVar>): seq<Instr> {
    if outs == [] then []
    else
      var n := |outs| - 1;
      DecoderSteps(addr, outs[..n]) + DecoderStep(addr, n, outs[n])
  }

  /** The outputs that are written: not more than the input has bits. */
  function Decoded(size: nat, outs: seq<BitVar>): seq<BitVar> {
    if |outs| <= 8 * size then outs else outs[..8 * size]
  }

  /** The quality byte is loaded from the cell behind the value. */
  function DecoderCode(addr: nat, size: nat, outs: seq<BitVar>): seq<Instr> {
    [Alu(Mov(R(16), Cell(addr + size)))] + DecoderSteps(addr, Decoded(size, outs))
  }

  function OutBits(outs: seq<BitVar>): set<(nat, nat)> {
    if outs == [] then {} else OutBits(outs[..|outs| - 1]) + outs[|outs| - 1].Foot()
  }

  /** The outputs have quality and are apart from each other. */
  ghost predicate ValidOuts(outs: seq<BitVar>) {
    && (forall i :: 0 <= i < |outs| ==> outs[i].Valid() && outs[i].quality)
    && (forall i, j :: 0 <= i < j < |outs| ==> outs[i].Foot() !! outs[j].Foot())
  }

  /** The bits of the input, each with the quality of the whole. */
  function DecoderSignals(s: State, addr: nat, size: nat): (sigs: seq<Signal>)
    ensures |sigs| == 8 * size
  {
    seq(8 * size, ix requires 0 <= ix < 8 * size =>
      Signal(s.GetBit(Cell(addr + ix / 8), ix % 8), s.GetBit(Cell(addr + size), 0)))
  }

  function ReadOuts(s: State, outs: seq<BitVar>): (sigs: seq<Signal>)
    ensures |sigs| == |outs|
  {
    seq(|outs|, i requires 0 <= i < |outs| => Read(s, outs[i]))
  }

  function Spread(sigs: seq<Signal>, was: seq<Signal>): (now: seq<Signal>)
    ensures |now| == |was|
  {
    seq(|was|, i requires 0 <= i < |was| => if i < |sigs| then sigs[i] else was[i])
  }

  lemma {:induction false} CopyRuns(r: Reg, k: nat, addr: nat, bit: nat, s: State)
    requires bit < 8
    ensures var p := Exec([Bst(r, k), Bld(Cell(addr), bit)], Pass(Running, s));
      && p.mode == Running && Sets(s, p.s, addr, bit, s.GetBit(r, k)) && p.s.Get(R(16)) == s.Get(R(16))
  {
    hide Exec, Do;
    Exec2(Bst(r, k), Bld(Cell(addr), bit), Pass(Running, s));
    RunBst(r, k, s);
    var s1 := s.(t := s.GetBit(r, k));
    BldSets(s1, addr, bit);
    RunBld(Cell(addr), bit, s1);
  }

  lemma {:induction false} DecoderStepRuns(addr: nat, ix: nat, out: BitVar, s: State)
    requires out.Valid() && out.quality && (addr + ix / 8, ix % 8) !in out.Foot()
    ensures var p := Exec(DecoderStep(addr, ix, out), Pass(Running, s));
      && p.mode == Running && OnlyChanged(s, p.s, out.Foot()) && p.s.Get(R(16)) == s.Get(R(16))
      && Read(p.s, out) == Signal(s.GetBit(Cell(addr + ix / 8), ix % 8), s.GetBit(R(16), 0))
  {
    hide Exec, State.Get;
    var a, b := [Bst(R(16), 0), Bld(out.Reg(), out.QBit())],
      [Bst(Cell(addr + ix / 8), ix % 8), Bld(out.Reg(), out.bit)];
    ExecAppend(a, b, Pass(Running, s));
    assert DecoderStep(addr, ix, out) == a + b;
    CopyRuns(R(16), 0, out.addr, out.QBit(), s);
    var s1 := Exec(a, Pass(Running, s)).s;
    CopyRuns(Cell(addr + ix / 8), ix % 8, out.addr, out.bit, s1);
    assert (addr + ix / 8, ix % 8) != (out.addr, out.QBit());
    ChangedTrans(s, s1, Exec(b, Pass(Running, s1)).s, {(out.addr, out.QBit())}, {(out.addr, out.bit)});
    assert {(out.addr, out.QBit())} + {(out.addr, out.bit)} == out.Foot();
  }

  lemma {:induction false} FeetApart(outs: seq<BitVar>, x: BitVar)
    requires forall i :: 0 <= i < |outs| ==> outs[i].Foot() !! x.Foot()
    ensures OutBits(outs) !! x.Foot()
  {
    if outs != [] { FeetApart(outs[..|outs| - 1], x); }
  }

  lemma {:induction false} DecoderStepsRun(addr: nat, size: nat, outs: seq<BitVar>, s: State)
    requires ValidOuts(outs) && |outs| <= 8 * size && OutBits(outs) !! Cells(addr, size + 1)
    requires s.Get(R(16)) == s.Get(Cell(addr + size))
    ensures var p := Exec(DecoderSteps(addr, outs), Pass(Running, s));
      p.mode == Running && Spreads(addr, size, outs, s, p.s)
  {
    hide Exec, Read, DecoderStep, State.Get, Spreads;
    if outs == [] {
      ExecNil(Pass(Running, s));
      NothingSpread(addr, size, s);
    } else {
      var n := |outs| - 1;
      var front, x := outs[..n], outs[n];
      ExecAppend(DecoderSteps(addr, front), DecoderStep(addr, n, x), Pass(Running, s));
      DecoderStepsRun(addr, size, front, s);
      SpreadOne(addr, size, outs, s, Exec(DecoderSteps(addr, front), Pass(Running, s)).s);
    }
  }

  /** The outputs show the bits of the input, and nothing else has changed but scratch registers. */
  ghost predicate Spreads(addr: nat, size: nat, outs: seq<BitVar>, s: State, s': State)
    requires |outs| <= 8 * size
  {
    && OnlyChanged(s, s', OutBits(outs)) && s'.Get(R(16)) == s.Get(R(16))
    && forall i :: 0 <= i < |outs| ==> Read(s', outs[i]) == DecoderSignals(s, addr, size)[i]
  }

  lemma NothingSpread(addr: nat, size: nat, s: State)
    ensures Spreads(addr, size, [], s, s)
  {
  }

  lemma {:induction false} SpreadOne(addr: nat, size: nat, outs: seq<BitVar>, s: State, s1: State)
    requires outs != [] && ValidOuts(outs) && |outs| <= 8 * size && OutBits(outs) !! Cells(addr, size + 1)
    requires s.Get(R(16)) == s.Get(Cell(addr + size)) && Spreads(addr, size, outs[..|outs| - 1], s, s1)
    ensures var n := |outs| - 1; var p := Exec(DecoderStep(addr, n, outs[n]), Pass(Running, s1));
      p.mode == Running && Spreads(addr, size, outs, s, p.s)
  {
    hide Exec, Read, DecoderStep, State.Get, OnlyChanged, Cells, BitVar.Foot, BitVar.Valid;
    var n := |outs| - 1;
    var front, x := outs[..n], outs[n];
    FeetApart(front, x);
    InCells(addr, size, n);
    OtherBit(s, s1, OutBits(front), addr + n / 8, n % 8);
    DecoderStepRuns(addr, n, x, s1);
    var s2 := Exec(DecoderStep(addr, n, x), Pass(Running, s1)).s;
    forall i | 0 <= i < n ensures Read(s2, outs[i]) == Read(s1, outs[i]) { ReadSame(outs[i], s1, s2, x.Foot()); }
    ChangedTrans(s, s1, s2, OutBits(front), x.Foot());
  }

  lemma InCells(addr: nat, size: nat, n: nat)
    requires n < 8 * size
    ensures (addr + n / 8, n % 8) in Cells(addr, size + 1)
  {
  }

  lemma {:induction false} SomeOuts(outs: seq<BitVar>, n: nat)
    requires n <= |outs|
    ensures OutBits(outs[..n]) <= OutBits(outs)
  {
    if n < |outs| {
      SomeOuts(outs[..|outs| - 1], n);
      assert outs[..|outs| - 1][..n] == outs[..n];
    } else {
      assert outs[..n] == outs;
    }
  }

  lemma {:induction false} LaterApart(outs: seq<BitVar>, n: nat, i: nat)
    requires ValidOuts(outs) && n <= i < |outs|
    ensures OutBits(outs[..n]) !! outs[i].Foot()
  {
    FeetApart(outs[..n], outs[i]);
  }

  /** Every output that the input has a bit for takes over this bit and the quality of the input; the others stay. */
  lemma {:induction false} DecoderYields(addr: nat, size: nat, outs: seq<BitVar>, s: State)
    requires ValidOuts(outs) && OutBits(outs) !! Cells(addr, size + 1)
    ensures var p := Exec(DecoderCode(addr, size, outs), Pass(Running, s));
      && p.mode == Running && OnlyChanged(s, p.s, OutBits(outs))
      && ReadOuts(p.s, outs) == Spread(DecoderSignals(s, addr, size), ReadOuts(s, outs))
  {
    hide Exec, DecoderSteps, Read, ValidOuts, OnlyChanged, State.Get, OutBits;
    var some, load := Decoded(size, outs), Alu(Mov(R(16), Cell(addr + size)));
    ExecAppend([load], DecoderSteps(addr, some), Pass(Running, s));
    LoadRuns(addr, size, s);
    var s1 := s.Compute(Mov(R(16), Cell(addr + size)));
    SomeOuts(outs, |some|);
    assert outs[..|some|] == some;
    ValidSome(outs, |some|);
    hide State.Compute, DecoderSignals, Cells;
    DecoderStepsRun(addr, size, some, s1);
    var s2 := Exec(DecoderSteps(addr, some), Pass(Running, s1)).s;
    OthersStay(outs, |some|, s, s1, s2);
  }

  lemma LoadRuns(addr: nat, size: nat, s: State)
    ensures var load := Alu(Mov(R(16), Cell(addr + size))); var s1 := s.Compute(load.op);
      && Exec([load], Pass(Running, s)) == Pass(Running, s1) && OnlyChanged(s, s1, {})
      && s1.Get(R(16)) == s1.Get(Cell(addr + size)) && DecoderSignals(s1, addr, size) == DecoderSignals(s, addr, size)
  {
    Exec1(Alu(Mov(R(16), Cell(addr + size))), Pass(Running, s));
  }

  lemma ValidSome(outs: seq<BitVar>, n: nat)
    requires ValidOuts(outs) && n <= |outs|
    ensures ValidOuts(outs[..n])
  {
  }

  lemma {:induction false} OthersStay(outs: seq<BitVar>, n: nat, s: State, s1: State, s2: State)
    requires ValidOuts(outs) && n <= |outs| && OnlyChanged(s, s1, {}) && OnlyChanged(s1, s2, OutBits(outs[..n]))
    ensures OnlyChanged(s, s2, OutBits(outs)) && forall i :: n <= i < |outs| ==> Read(s2, outs[i]) == Read(s, outs[i])
  {
    hide Read, OutBits, State.Get;
    SomeOuts(outs, n);
    forall i | n <= i < |outs| ensures Read(s2, outs[i]) == Read(s, outs[i]) {
      LaterApart(outs, n, i);
      ReadSame(outs[i], s, s2, OutBits(outs[..n]));
    }
  }
}
