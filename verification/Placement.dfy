/** What the allocator guarantees is what the code of a diagram needs. */
module Placement {
  import opened Diagrams
  import opened Ram
  import Blocks
  import Encoders
  import Timers
  import Scans

  /** The bits of a placed variable. */
  ghost function Bits(p: Place): set<(nat, nat)> {
    set a: nat, k: nat | p.addr <= a <= p.addr + p.v.Bytes() && k < 8 && p.Covers(a, k) :: (a, k)
  }

  /** The operand of a placed bit variable. */
  function Operand(p: Place): Blocks.BitVar {
    Blocks.BitVar(p.addr, p.bit, p.v.quality)
  }

  /** An operand with quality is exactly the pair of bits that its variable takes. */
  lemma OperandIsPlaced(p: Place, begin: nat, end: nat)
    requires p.v.isBit && p.In(begin, end)
    ensures Operand(p).Valid() && Operand(p).Foot() <= Bits(p) && (p.v.quality ==> Operand(p).Foot() == Bits(p))
  {
  }

  /** The cells of a timer or a count are exactly those of a byte variable of that size. */
  lemma BytesArePlaced(p: Place, n: nat)
    requires !p.v.isBit && n <= p.v.Bytes()
    ensures Timers.Cells(p.addr, n) <= Bits(p) && (n == p.v.Bytes() ==> Timers.Cells(p.addr, n) == Bits(p))
  {
  }

  lemma ApartBits(p: Place, q: Place)
    requires Apart(p, q)
    ensures Bits(p) !! Bits(q)
  {
  }

  /** The bits of the placed variables with the given numbers. */
  ghost function BitsOf(live: seq<Place>, vars: set<nat>): set<(nat, nat)>
    requires forall i :: i in vars ==> i < |live|
  {
    set i, b | i in vars && b in Bits(live[i]) :: b
  }

  ghost predicate OwnBit(x: Blocks.BitVar, live: seq<Place>, vs: set<nat>) {
    exists i :: i in vs && i < |live| && live[i].v.isBit && Operand(live[i]) == x
  }

  ghost predicate OwnBytes(addr: nat, n: nat, live: seq<Place>, vs: set<nat>) {
    exists i :: i in vs && i < |live| && !live[i].v.isBit && live[i].addr == addr && n <= live[i].v.Bytes()
  }

  /** The block's output and state are among the given variables. */
  ghost predicate OwnVariables(b: Scans.Block, live: seq<Place>, vs: set<nat>) {
    match b
    case Logic(_, _, out) => OwnBit(out, live, vs)
    case Inverter(_, out) => OwnBit(out, live, vs)
    case Rs(_, _, out) => OwnBit(out, live, vs)
    case EdgeDetector(_, _, prev, out) => OwnBit(out, live, vs) && OwnBit(prev, live, vs)
    case OutputBit(_, _, out) => OwnBit(out, live, vs)
    case RiseCounter(_, _, prev, count) => OwnBit(prev, live, vs) && OwnBytes(count, 2, live, vs)
    case OnDelay(_, out, tmr, _, _) => OwnBit(out, live, vs) && OwnBytes(tmr, 4, live, vs)
    case PulseOutput(_, out, prev, tmr, _, _, _) =>
      OwnBit(out, live, vs) && OwnBit(prev, live, vs) && OwnBytes(tmr, 2, live, vs)
    case Timetabled(_, out, _) => OwnBit(out, live, vs)
    case Encoder(_, addr, size) => OwnBytes(addr, size + 1, live, vs)
    case Decoder(_, _, outs) => forall i :: 0 <= i < |outs| ==> OwnBit(outs[i], live, vs)
    case Foreign(_, own, _, _) =>
      (forall i :: i in vs ==> i < |live|) && forall x :: x in own ==> x in BitsOf(live, vs)
    case Silent(own) =>
      (forall i :: i in vs ==> i < |live|) && forall x :: x in own ==> x in BitsOf(live, vs)
  }

  lemma OwnBitIsPlaced(x: Blocks.BitVar, live: seq<Place>, vs: set<nat>, begin: nat, end: nat)
    requires Sound(live, begin, end) && (forall i :: i in vs ==> i < |live|) && OwnBit(x, live, vs)
    ensures x.Foot() <= BitsOf(live, vs) && (x.addr, x.bit) in BitsOf(live, vs)
  {
    var i :| i in vs && live[i].v.isBit && Operand(live[i]) == x;
    OperandIsPlaced(live[i], begin, end);
    assert (x.addr, x.bit) in x.Foot();
  }

  lemma OwnBytesArePlaced(addr: nat, n: nat, live: seq<Place>, vs: set<nat>)
    requires (forall i :: i in vs ==> i < |live|) && OwnBytes(addr, n, live, vs)
    ensures Timers.Cells(addr, n) <= BitsOf(live, vs)
  {
    var i :| i in vs && !live[i].v.isBit && live[i].addr == addr && n <= live[i].v.Bytes();
    BytesArePlaced(live[i], n);
  }

  /** What a block may change lies in its variables. */
  lemma {:induction false} OwnsItsVariables(b: Scans.Block, live: seq<Place>, vs: set<nat>, begin: nat, end: nat)
    requires Sound(live, begin, end) && (forall i :: i in vs ==> i < |live|) && OwnVariables(b, live, vs)
    ensures b.Owns() <= BitsOf(live, vs)
  {
    hide Sound, BitsOf, OwnBit, OwnBytes;
    match b
    case EdgeDetector(_, _, prev, out) =>
      OwnBitIsPlaced(out, live, vs, begin, end); OwnBitIsPlaced(prev, live, vs, begin, end);
    case RiseCounter(_, _, prev, count) =>
      OwnBitIsPlaced(prev, live, vs, begin, end); OwnBytesArePlaced(count, 2, live, vs);
    case OnDelay(_, out, tmr, _, _) => OwnBitIsPlaced(out, live, vs, begin, end); OwnBytesArePlaced(tmr, 4, live, vs);
    case PulseOutput(_, out, prev, tmr, _, _, _) =>
      OwnBitIsPlaced(out, live, vs, begin, end);
      OwnBitIsPlaced(prev, live, vs, begin, end);
      OwnBytesArePlaced(tmr, 2, live, vs);
    case Encoder(_, addr, size) => OwnBytesArePlaced(addr, size + 1, live, vs);
    case Decoder(_, _, outs) => OutsArePlaced(outs, live, vs, begin, end);
    case Foreign(_, own, _, _) =>
    case Silent(own) =>
    case _ => OwnBitIsPlaced(b.out, live, vs, begin, end);
  }

  lemma {:induction false} OutsArePlaced(outs: seq<Blocks.BitVar>, live: seq<Place>, vs: set<nat>, begin: nat, end: nat)
    requires Sound(live, begin, end) && (forall i :: i in vs ==> i < |live|)
    requires forall i :: 0 <= i < |outs| ==> OwnBit(outs[i], live, vs)
    ensures Encoders.OutBits(outs) <= BitsOf(live, vs)
  {
    hide Sound, BitsOf, OwnBit;
    if outs != [] {
      var n := |outs| - 1;
      OutsArePlaced(outs[..n], live, vs, begin, end);
      OwnBitIsPlaced(outs[n], live, vs, begin, end);
    }
  }

  /** Every block's output and state are live variables that belong to it alone. */
  ghost predicate Assigned(blocks: seq<Scans.Block>, live: seq<Place>, vars: seq<set<nat>>) {
    && |vars| == |blocks|
    && (forall b :: 0 <= b < |vars| ==> forall i :: i in vars[b] ==> i < |live|)
    && (forall b, c :: 0 <= b < c < |vars| ==> vars[b] !! vars[c])
    && (forall b :: 0 <= b < |blocks| ==> OwnVariables(blocks[b], live, vars[b]))
  }

  lemma VarsApart(live: seq<Place>, v: set<nat>, w: set<nat>, begin: nat, end: nat)
    requires Sound(live, begin, end) && v !! w && (forall i :: i in v ==> i < |live|)
    requires (forall i :: i in w ==> i < |live|)
    ensures BitsOf(live, v) !! BitsOf(live, w)
  {
    forall i, j | i in v && j in w ensures Bits(live[i]) !! Bits(live[j]) {
      if i < j {
        ApartBits(live[i], live[j]);
      } else {
        assert j < i;
        ApartBits(live[j], live[i]);
      }
    }
  }

  /** With variables from the allocator the blocks are placed as a scan needs it, as soon as every input
      is an output of a block it is connected to, or belongs to no block. */
  lemma AllocationPlaces(d: Diagram, blocks: seq<Scans.Block>, live: seq<Place>, vars: seq<set<nat>>, begin: nat,
      end: nat)
    requires d.Valid() && |blocks| == d.Blocks() && (forall b :: 0 <= b < |blocks| ==> blocks[b].Valid())
    requires Sound(live, begin, end) && Assigned(blocks, live, vars)
    requires forall p, b :: 0 <= p < |blocks| && 0 <= b < |blocks| && !(blocks[b].Reads() !! BitsOf(live, vars[p])) ==>
      d.Feeds(p, b)
    ensures Scans.Placed(d, blocks)
  {
    forall b | 0 <= b < |blocks| ensures blocks[b].Owns() <= BitsOf(live, vars[b]) {
      OwnsItsVariables(blocks[b], live, vars[b], begin, end);
    }
    forall b, c | 0 <= b < c < |blocks| ensures blocks[b].Owns() !! blocks[c].Owns() {
      VarsApart(live, vars[b], vars[c], begin, end);
    }
    forall p, b | 0 <= p < |blocks| && 0 <= b < |blocks| && !(blocks[b].Reads() !! blocks[p].Owns())
      ensures d.Feeds(p, b) {
      assert blocks[p].Owns() <= BitsOf(live, vars[p]);
    }
  }
}
