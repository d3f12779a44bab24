/** The order that is chosen for the blocks does not show: there is one result of a scan. */
module Orders {
  import opened Options
  import opened Diagrams
  import Numbering
  import opened Avr
  import opened Programs
  import opened Blocks
  import opened Encoders
  import opened Timers
  import opened Scans

  /** The bits of the output, which other blocks may read. */
  ghost function OutputBits(b: Block): set<(nat, nat)> {
    match b
    case RiseCounter(_, _, _, count) => Cells(count, 2)
    case Encoder(_, addr, size) => Cells(addr, size + 1)
    case Decoder(_, _, outs) => OutBits(outs)
    case Foreign(_, own, _, _) => Elements(own)
    case Silent(own) => Elements(own)
    case _ => b.out.Foot()
  }

  /** What one block reads of another one is its output, not its timer or its sampled input. */
  ghost predicate ReadsOutputs(blocks: seq<Block>) {
    forall b, p :: 0 <= b < |blocks| && 0 <= p < |blocks| ==>
      blocks[b].Reads() * blocks[p].Owns() <= OutputBits(blocks[p])
  }

  /** A state that solves the equations of all blocks for a scan from `s`, and is like `s` elsewhere. */
  ghost predicate Solution(blocks: seq<Block>, order: seq<nat>, s: State, s': State)
    requires forall i :: 0 <= i < |order| ==> order[i] < |blocks|
  {
    OnlyChanged(s, s', OwnedBy(blocks, order)) && forall b :: 0 <= b < |blocks| ==> Holds(blocks[b], s, s')
  }

  lemma {:induction false} OutputSame(b: Block, s: State, s': State, addr: nat, k: nat)
    requires b.Valid() && HeldIn(b, s) == HeldIn(b, s') && (addr, k) in OutputBits(b)
    ensures s.GetBit(Cell(addr), k) == s'.GetBit(Cell(addr), k)
  {
    hide State.Get, ToNat;
    match b
    case RiseCounter(_, _, _, count) => WordBits(s, s', count, addr, k);
    case Encoder(_, a, size) => assert (addr, k) == CellBits(a, size + 1)[8 * (addr - a) + k];
      SameBits(s, s', CellBits(a, size + 1), 8 * (addr - a) + k);
    case Decoder(_, _, outs) => var i := OutOf(outs, (addr, k));
      assert ReadOuts(s, outs)[i] == ReadOuts(s', outs)[i];
    case Foreign(_, own, _, _) => var i :| 0 <= i < |own| && own[i] == (addr, k);
      SameBits(s, s', own, i);
    case Silent(own) => var i :| 0 <= i < |own| && own[i] == (addr, k);
      SameBits(s, s', own, i);
    case _ => assert Read(s, b.out) == Read(s', b.out);
  }

  lemma SameBits(s: State, s': State, places: seq<(nat, nat)>, i: nat)
    requires BitsAt(s, places) == BitsAt(s', places) && i < |places|
    ensures s.GetBit(Cell(places[i].0), places[i].1) == s'.GetBit(Cell(places[i].0), places[i].1)
  {
    assert BitsAt(s, places)[i] == BitsAt(s', places)[i];
  }

  lemma {:induction false} OutOf(outs: seq<BitVar>, x: (nat, nat)) returns (i: nat)
    requires x in OutBits(outs)
    ensures i < |outs| && x in outs[i].Foot()
  {
    i := |outs| - 1;
    if x !in outs[i].Foot() { i := OutOf(outs[..i], x); }
  }

  /** A word determines its bytes. */
  lemma {:induction false} WordBits(s: State, s': State, count: nat, addr: nat, k: nat)
    requires Word(s, count) == Word(s', count) && count <= addr < count + 2
    ensures s.GetBit(Cell(addr), k) == s'.GetBit(Cell(addr), k)
  {
    hide ToNat, State.Get;
    var a, b, a', b' := s.Get(Cell(count)), s.Get(Cell(count + 1)), s'.Get(Cell(count)), s'.Get(Cell(count + 1));
    assert ToNat(a) < 256 && ToNat(a') < 256;
    assert ToNat(a) == ToNat(a') && ToNat(b) == ToNat(b');
    SameByte(a, a');
    SameByte(b, b');
  }

  lemma SameByte(a: Byte, b: Byte)
    requires ToNat(a) == ToNat(b)
    ensures a == b
  {
    ValInjective(a, b);
  }

  lemma {:induction false} Owner(blocks: seq<Block>, order: seq<nat>, x: (nat, nat)) returns (i: nat)
    requires (forall i :: 0 <= i < |order| ==> order[i] < |blocks|) && x in OwnedBy(blocks, order)
    ensures i < |order| && x in blocks[order[i]].Owns()
  {
    i := |order| - 1;
    if x !in blocks[order[i]].Owns() { i := Owner(blocks, order[..i], x); }
  }

  lemma {:induction false} OwnedOf(blocks: seq<Block>, order: seq<nat>, i: nat)
    requires (forall i :: 0 <= i < |order| ==> order[i] < |blocks|) && i < |order|
    ensures blocks[order[i]].Owns() <= OwnedBy(blocks, order)
  {
    if i < |order| - 1 { OwnedOf(blocks, order[..|order| - 1], i); }
  }

  /** If its producers hold the same in two solutions, a block sees the same. */
  lemma {:induction false} ViewsAgree(d: Diagram, blocks: seq<Block>, order: seq<nat>, b: nat, s: State, s1: State,
      s2: State)
    requires Placed(d, blocks) && ReadsOutputs(blocks) && b < |blocks|
    requires forall i :: 0 <= i < |order| ==> order[i] < |blocks|
    requires Solution(blocks, order, s, s1) && Solution(blocks, order, s, s2)
    requires forall p :: 0 <= p < |blocks| && d.Feeds(p, b) ==> HeldIn(blocks[p], s1) == HeldIn(blocks[p], s2)
    ensures ViewOf(blocks[b], s1) == ViewOf(blocks[b], s2)
  {
    hide HeldIn, ViewOf, OwnedBy, State.Get;
    var own := OwnedBy(blocks, order);
    var rest := own - blocks[b].Reads();
    forall a: nat, k: nat | k < 8 && (a, k) !in rest ensures s2.GetBit(Cell(a), k) == s1.GetBit(Cell(a), k) {
      if (a, k) in own {
        var i := Owner(blocks, order, (a, k));
        var p := order[i];
        assert (a, k) in blocks[b].Reads() * blocks[p].Owns();
        OutputSame(blocks[p], s1, s2, a, k);
      }
    }
    ViewSame(blocks[b], s1, s2, rest);
  }

  lemma SolutionHolds(blocks: seq<Block>, order: seq<nat>, s: State, s': State, b: nat)
    requires (forall i :: 0 <= i < |order| ==> order[i] < |blocks|) && Solution(blocks, order, s, s') && b < |blocks|
    ensures HeldIn(blocks[b], s') == Next(blocks[b], ViewOf(blocks[b], s'), HeldIn(blocks[b], s))
  {
    assert Holds(blocks[b], s, s');
  }

  /** Along an order with producers first, two solutions hold the same. */
  lemma {:induction false} HeldAgree(d: Diagram, blocks: seq<Block>, order: seq<nat>, k: nat, s: State, s1: State,
      s2: State)
    requires d.Valid() && Placed(d, blocks) && ReadsOutputs(blocks) && |blocks| == d.Blocks()
    requires Numbering.Lists(order, d.All()) && InOrder(d, order) && k <= |order|
    requires Solution(blocks, order, s, s1) && Solution(blocks, order, s, s2)
    ensures forall i :: 0 <= i < k ==> HeldIn(blocks[order[i]], s1) == HeldIn(blocks[order[i]], s2)
  {
    if k > 0 {
      hide HeldIn, ViewOf, Solution, Next, Placed, ReadsOutputs;
      HeldAgree(d, blocks, order, k - 1, s, s1, s2);
      var b := order[k - 1];
      forall p | 0 <= p < |blocks| && d.Feeds(p, b) ensures HeldIn(blocks[p], s1) == HeldIn(blocks[p], s2) {
        assert p in d.All() && p in order;
        var i :| 0 <= i < |order| && order[i] == p;
      }
      ViewsAgree(d, blocks, order, b, s, s1, s2);
      SolutionHolds(blocks, order, s, s1, b);
      SolutionHolds(blocks, order, s, s2, b);
    }
  }

  /** There is one solution for a scan: whatever solves the equations holds the same outputs and states. */
  lemma {:induction false} OneSolution(d: Diagram, blocks: seq<Block>, order: seq<nat>, s: State, s1: State, s2: State)
    requires d.Valid() && Placed(d, blocks) && ReadsOutputs(blocks)
    requires Numbering.Lists(order, d.All()) && InOrder(d, order) && |blocks| == d.Blocks()
    requires Solution(blocks, order, s, s1) && Solution(blocks, order, s, s2)
    ensures SameHeld(blocks, s1, s2)
  {
    hide HeldIn, Solution, Placed, ReadsOutputs;
    HeldAgree(d, blocks, order, |order|, s, s1, s2);
    forall b | 0 <= b < |blocks| ensures HeldIn(blocks[b], s1) == HeldIn(blocks[b], s2) {
      assert b in d.All();
      var i :| 0 <= i < |order| && order[i] == b;
    }
  }

  /** All outputs and all states of blocks are the same. */
  ghost predicate SameHeld(blocks: seq<Block>, s: State, s': State) {
    forall b :: 0 <= b < |blocks| ==> HeldIn(blocks[b], s) == HeldIn(blocks[b], s')
  }

  lemma {:induction false} SameOwned(blocks: seq<Block>, order: seq<nat>, order': seq<nat>)
    requires forall i :: 0 <= i < |order| ==> order[i] < |blocks|
    requires forall i :: 0 <= i < |order'| ==> order'[i] < |blocks| && order'[i] in order
    ensures OwnedBy(blocks, order') <= OwnedBy(blocks, order)
  {
    forall x | x in OwnedBy(blocks, order') ensures x in OwnedBy(blocks, order) {
      var i := Owner(blocks, order', x);
      var j :| 0 <= j < |order| && order[j] == order'[i];
      OwnedOf(blocks, order, j);
    }
  }

  /** Which bits may change does not depend on the order. */
  lemma {:induction false} SolutionReordered(d: Diagram, blocks: seq<Block>, order: seq<nat>, order': seq<nat>,
      s: State, s': State)
    requires |blocks| == d.Blocks() && InOrder(d, order) && InOrder(d, order')
    requires Numbering.Lists(order, d.All()) && Numbering.Lists(order', d.All()) && Solution(blocks, order', s, s')
    ensures Solution(blocks, order, s, s')
  {
    hide Holds;
    forall i | 0 <= i < |order'| ensures order'[i] in order { assert order'[i] in order'; }
    SameOwned(blocks, order, order');
  }

  /** The compiled code of an order with producers first ends in the one solution. */
  lemma {:induction false} EndsInSolution(d: Diagram, blocks: seq<Block>, order: seq<nat>, s: State)
    returns (n: nat, s': State)
    requires d.Valid() && Placed(d, blocks) && ReadsOutputs(blocks)
    requires Numbering.Lists(order, d.All()) && d.Sequenced(order)
    ensures InOrder(d, order) && |blocks| == d.Blocks()
    ensures var prog := Concat(Parts(blocks, order)); Leads(prog, 0, s, n, |prog|, s')
    ensures Solution(blocks, order, s, s')
    ensures forall t :: Solution(blocks, order, s, t) ==> SameHeld(blocks, s', t)
  {
    hide Leads, Holds, OwnedBy;
    n, s' := MachineScans(d, blocks, order, s);
    hide OnlyChanged, ReadsOutputs, SameHeld;
    forall t | Solution(blocks, order, s, t) ensures SameHeld(blocks, s', t) {
      OneSolution(d, blocks, order, s, s', t);
    }
  }

  /** In whichever order with producers first the blocks are emitted, the code leaves the same outputs
      and the same states. */
  lemma {:induction false} OrderIsIrrelevant(d: Diagram, blocks: seq<Block>, order: seq<nat>, order': seq<nat>,
      s: State)
    returns (n: nat, s1: State, m: nat, s2: State)
    requires d.Valid() && Placed(d, blocks) && ReadsOutputs(blocks)
    requires Numbering.Lists(order, d.All()) && d.Sequenced(order)
    requires Numbering.Lists(order', d.All()) && d.Sequenced(order')
    ensures InOrder(d, order) && InOrder(d, order') && |blocks| == d.Blocks()
    ensures var prog := Concat(Parts(blocks, order)); Leads(prog, 0, s, n, |prog|, s1)
    ensures var prog := Concat(Parts(blocks, order')); Leads(prog, 0, s, m, |prog|, s2)
    ensures SameHeld(blocks, s1, s2)
  {
    hide *;
    n, s1 := EndsInSolution(d, blocks, order, s);
    m, s2 := EndsInSolution(d, blocks, order', s);
    SolutionReordered(d, blocks, order, order', s, s2);
  }
}
