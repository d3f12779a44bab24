/** Numbering the blocks of a diagram in execution order. */
module Schedule {
  import opened Diagrams
  import opened Numbering

  class FbdUnit {
    const d: Diagram
    const executeOrder: array<int>

    constructor (d: Diagram)
      requires d.Valid()
      ensures this.d == d && fresh(executeOrder) && Valid()
    {
      this.d := d;
      executeOrder := new int[d.Blocks()];
    }

    ghost predicate Valid() {
      d.Valid() && executeOrder.Length == d.Blocks()
    }

    /** `color` holds one mark for each block and each line. */
    ghost predicate IsColorTable(color: array<bool>) {
      color.Length == 500
    }

    ghost function Now(color: array<bool>): (s: State)
      requires Valid() && IsColorTable(color)
      reads color, executeOrder
      ensures s.Fits(d)
    {
      State(color[..], executeOrder[..])
    }

    /** Appends everything connected to `block` that is not marked yet. */
    method Separate(chain: seq<nat>, block: nat, color: array<bool>, ghost start: set<nat>) returns (chain': seq<nat>)
      requires Valid() && IsColorTable(color)
      requires block < d.Blocks() && !color[block]
      requires LinesFollowed(d, Now(color), {block})
      requires start <= Now(color).Marked(d) && Lists(chain, Now(color).Marked(d) - start)
      modifies color
      ensures LinesFollowed(d, Now(color), {})
      ensures old(Now(color).Marked(d)) + {block} <= Now(color).Marked(d)
      ensures start <= Now(color).Marked(d) && Lists(chain', Now(color).Marked(d) - start)
      ensures d.Explored(Now(color).Marked(d) - old(Now(color).Marked(d)), block, Now(color).Marked(d))
      decreases Now(color).Unmarked(d)
    {
      ghost var was, s, found: set<nat> := Now(color), Now(color).Mark(block), {};
      StartSeparating(d, block, was, chain, start);
      chain' := chain + [block];
      color[block] := true;
      assert s == Now(color);
      var ports := d.ports[block];
      for k := 0 to |ports|
        invariant s == Now(color) && s.Fits(d)
        invariant Separating(d, block, k, was, s, found, chain', start)
      {
        SeparateLine(d, block, k, was, s, found, chain', start);
        var line := ports[k].line;
        if color[d.LineId(line)] { continue; }
        color[d.LineId(line)] := true;
        ghost var before := s;
        s := s.MarkLine(d, line);
        assert s == Now(color);
        var next := d.Other(ports[k]);
        if !color[next] {
          ghost var listed := chain';
          chain' := Separate(chain', next, color, start);
          s := Now(color);
          SeparateNext(d, block, k, was, before, s, found, listed, chain', start);
          found := found + (s.Marked(d) - before.Marked(d));
        }
      }
      d.ComponentClosed(block);
      d.PortsCoverNeighbours(block, s.Marked(d));
      assert s.Marked(d) - was.Marked(d) == found + {block};
    }

    /** The first half of TryExecuteNext: whether every producer is numbered, and the consumers. */
    method CheckProducers(block: nat, color: array<bool>) returns (ready: bool, nextblocks: seq<nat>)
      requires Valid() && IsColorTable(color) && block < d.Blocks()
      ensures ready <==> forall l <- d.Into({block}) :: color[d.lines[l].producer]
      ensures ready ==> d.OutOf(block) <= d.Into(Elems(nextblocks))
      ensures forall c <- nextblocks :: d.Feeds(block, c)
    {
      nextblocks := [];
      var ports := d.ports[block];
      for k := 0 to |ports|
        invariant forall i :: 0 <= i < k && ports[i].input ==> color[d.Other(ports[i])]
        invariant forall i :: 0 <= i < k && !ports[i].input ==> d.Other(ports[i]) in nextblocks
        invariant forall c <- nextblocks :: d.Feeds(block, c)
      {
        assert d.PortOk(block, ports[k]);
        var next := d.Other(ports[k]);
        if ports[k].input {
          if color[next] { continue; }
          assert ports[k].line in d.Into({block});
          return false, nextblocks;
        } else {
          assert d.lines[ports[k].line] == Line(block, next);
          nextblocks := nextblocks + [next];
        }
      }
      ready := true;
      forall l | 0 <= l < |d.lines|
        ensures d.lines[l].producer == block ==> d.lines[l].consumer in nextblocks
        ensures d.lines[l].consumer == block ==> color[d.lines[l].producer]
      {
        assert Port(l, false) in d.ports[d.lines[l].producer] && Port(l, true) in d.ports[d.lines[l].consumer];
      }
    }

    /** Numbers `block` after everything numbered so far, and then its consumers, unless a producer is missing. */
    method TryExecuteNext(block: nat, order: int, color: array<bool>, ghost chain: set<nat>, ghost rank: seq<nat>)
      returns (r: int)
      requires Valid() && IsColorTable(color) && d.Ranked(rank) && d.Closed(chain)
      requires block in chain && Numbered(d, chain, Now(color), order)
      modifies color, executeOrder
      ensures if r == -1 then !color[block] && Numbered(d, chain, Now(color), order)
              else color[block] && r > order && Numbered(d, chain, Now(color), r)
      ensures Kept(d, chain, old(Now(color)), Now(color)) && Now(color).MarkedLines(d) == old(Now(color).MarkedLines(d))
      ensures Broken(d, chain, Now(color)) <= old(Broken(d, chain, Now(color))) - d.Into({block})
      decreases SeqMax(rank) - rank[block], 1
    {
      ghost var s := Now(color);
      var ready, nextblocks := CheckProducers(block, color);
      if !ready {
        NotReady(d, chain, s, order, block);
        return -1;
      }
      Stamp(d, chain, s, block, order, order + 1);
      color[block] := true;
      executeOrder[block] := order + 1;
      assert Now(color) == s.Stamp(block, order + 1);
      r := ExecuteAll(nextblocks, block, order + 1, color, chain, rank);
    }

    /** The closing loop of both calculations: tries the collected consumers of `block`, last one first. */
    method ExecuteAll(next: seq<nat>, ghost block: nat, order: int, color: array<bool>, ghost chain: set<nat>,
        ghost rank: seq<nat>) returns (r: int)
      requires Valid() && IsColorTable(color) && d.Ranked(rank) && d.Closed(chain)
      requires block in chain && Numbered(d, chain, Now(color), order)
      requires forall c <- next :: d.Feeds(block, c)
      modifies color, executeOrder
      ensures r >= order && Numbered(d, chain, Now(color), r)
      ensures Kept(d, chain, old(Now(color)), Now(color)) && Now(color).MarkedLines(d) == old(Now(color).MarkedLines(d))
      ensures Broken(d, chain, Now(color)) <= old(Broken(d, chain, Now(color))) - d.Into(Elems(next))
      decreases SeqMax(rank) - rank[block], 0
    {
      r := order;
      var nextblocks := next;
      ghost var tried: set<nat> := {};
      ghost var was, s := Now(color), Now(color);
      hide Numbered, Kept, Tried, Broken;
      TriedNone(d, chain, s);
      while nextblocks != []
        invariant nextblocks <= next && Elems(next) <= Elems(nextblocks) + tried
        invariant r >= order && s == Now(color) && Numbered(d, chain, s, r) && Tried(d, chain, was, s, tried)
        decreases |nextblocks|
      {
        var top := nextblocks[|nextblocks| - 1];
        assert d.Feeds(block, top);
        RankBounded(rank, top);
        var neworder := TryExecuteNext(top, r, color, chain, rank);
        if neworder != -1 { r := neworder; }
        nextblocks := nextblocks[..|nextblocks| - 1];
        TriedMore(d, chain, was, s, Now(color), tried, top);
        tried, s := tried + {top}, Now(color);
      }
      TriedAll(d, chain, was, s, tried, Elems(next));
    }

    /** Numbers `block` after everything upstream of it, and then what became ready downstream. */
    method CalcOrder(block: nat, order: int, color: array<bool>,
        ghost chain: set<nat>, ghost rank: seq<nat>, ghost open: set<nat>, ghost done: set<nat>)
      returns (r: int, ghost done': set<nat>)
      requires Valid() && IsColorTable(color) && d.Ranked(rank) && d.Closed(chain)
      requires CanStart(d, chain, rank, block, Now(color), order, open, done)
      modifies color, executeOrder
      ensures r > order && block in done'
      ensures Progress(d, chain, old(Now(color)), Now(color), r, open, {}, done, done')
      ensures done' - done <= UpTo(chain, rank, block)
      decreases rank[block], 1
    {
      ghost var was := Now(color);
      var nextblocks;
      r, nextblocks, done' := CalcProducers(block, order, color, chain, rank, open, done);
      ghost var s, n := Now(color), r;
      AllKnown(d, rank, block, s, open, nextblocks);
      Stamp(d, chain, s, block, r - 1, r);
      color[block] := true;
      executeOrder[block] := r;
      ghost var stamped := s.Stamp(block, r);
      assert stamped == Now(color);
      r := ExecuteAll(nextblocks, block, r, color, chain, rank);
      ghost var s' := Now(color);
      r := r + 1;
      Finish(d, chain, rank, was, s, s', block, n, r, open, done, done', nextblocks);
      done' := done' + {block};
    }

    /** The first half of CalcOrder: follows the lines of `block` not followed yet, upstream at
        once, and collects its consumers. */
    method CalcProducers(block: nat, order: int, color: array<bool>,
        ghost chain: set<nat>, ghost rank: seq<nat>, ghost open: set<nat>, ghost done: set<nat>)
      returns (r: int, nextblocks: seq<nat>, ghost done': set<nat>)
      requires Valid() && IsColorTable(color) && d.Ranked(rank) && d.Closed(chain)
      requires CanStart(d, chain, rank, block, Now(color), order, open, done)
      modifies color, executeOrder
      ensures r >= order && block !in done
      ensures Following(d, chain, rank, block, |d.ports[block]|, old(Now(color)), Now(color), r, open, done, done',
        nextblocks)
      decreases rank[block], 0
    {
      r := order;
      done' := done;
      nextblocks := [];
      var ports := d.ports[block];
      ghost var was, s := Now(color), Now(color);
      AtStart(d, chain, rank, block, was, r, open, done);
      for k := 0 to |ports|
        invariant r >= order && s == Now(color)
        invariant Following(d, chain, rank, block, k, was, s, r, open, done, done', nextblocks)
      {
        assert d.PortOk(block, ports[k]);
        var line, next := ports[k].line, d.Other(ports[k]);
        if color[d.LineId(line)] {
          FollowAgain(d, chain, rank, block, k, was, s, r, open, done, done', nextblocks);
          continue;
        }
        ghost var n, ended, before := r, done', s;
        color[d.LineId(line)] := true;
        s := before.MarkLine(d, line);
        assert s == Now(color);
        if ports[k].input {
          if color[next] {
            FollowLine(d, chain, rank, block, k, was, before, r, open, done, done', nextblocks, nextblocks);
            continue;
          }
          EnterProducer(d, chain, rank, block, k, was, before, order, r, open, done, done', nextblocks);
          r, done' := CalcOrder(next, r, color, chain, rank, open + {block}, done');
          s := Now(color);
          LeaveProducer(d, chain, rank, block, k, was, before, s, n, r, open, done, ended, done', nextblocks);
        } else {
          FollowLine(d, chain, rank, block, k, was, before, r, open, done, done', nextblocks, nextblocks + [next]);
          nextblocks := nextblocks + [next];
        }
      }
    }

    /** Splits the diagram into its connected components, numbers each of them, and lists the
        blocks component by component in execution order. */
    method Translate() returns (emitted: seq<nat>)
      requires Valid() && d.Acyclic()
      modifies executeOrder
      ensures Lists(emitted, d.All()) && d.Sequenced(emitted)
      ensures forall l :: 0 <= l < |d.lines| ==> executeOrder[d.lines[l].producer] < executeOrder[d.lines[l].consumer]
      ensures forall b, x, y :: b in d.All() && x in d.Component(b) && y in d.Component(b) && x != y ==>
        executeOrder[x] != executeOrder[y]
    {
      ghost var rank := d.AcyclicIsRanked();
      var chains := FindChains();
      var color := new bool[500](_ => false);
      var count := |chains|;
      assert Now(color).MarkedLines(d) == {} && Now(color).Marked(d) == {};
      for i := 0 to count
        invariant color.Length == 500 && fresh(color) && count == |chains|
        invariant Partition(d, chains, d.All())
        invariant forall j :: 0 <= j < i ==>
          NumberedChain(d, Elems(chains[j]), executeOrder[..]) && d.Sequenced(chains[j])
        invariant forall j :: i <= j < |chains| ==> Pending(d, Elems(chains[j]), Now(color))
      {
        ghost var was, before := Now(color), chains;
        ChainClosed(d, chains[i]);
        var chain := CalcChain(chains[i], color, rank);
        PartitionUpdate(d, chains, d.All(), i, chain);
        chains := chains[i := chain];
        forall j | 0 <= j < count && j != i
          ensures j < i ==> NumberedChain(d, Elems(chains[j]), executeOrder[..])
          ensures i < j ==> Pending(d, Elems(chains[j]), Now(color))
        {
          ChainClosed(d, before[j]);
          OtherChain(d, Elems(before[i]), Elems(before[j]), was, Now(color));
        }
      }
      emitted := EmitChains(chains);
      FinalOrder(d, chains, executeOrder[..]);
    }

    /** Lists the sorted chains one behind the other. */
    method EmitChains(chains: seq<seq<nat>>) returns (emitted: seq<nat>)
      requires Valid() && Partition(d, chains, d.All()) && forall c <- chains :: d.Sequenced(c)
      ensures Lists(emitted, d.All()) && d.Sequenced(emitted)
    {
      hide Partition, Emitted;
      emitted := [];
      ghost var s: set<nat> := {};
      NoneEmitted(d, chains);
      for i := 0 to |chains|
        invariant Lists(emitted, s) && d.Sequenced(emitted) && Emitted(d, chains, i, s)
      {
        EmittedNext(d, chains, i, s);
        ChainClosed(d, chains[i]);
        assert Elems(emitted) == s;
        AppendChain(d, emitted, chains[i]);
        emitted := emitted + chains[i];
        s := s + Elems(chains[i]);
      }
      EmittedAll(d, chains, s);
    }

    /** The chains of the diagram: its connected components, each with its blocks in no particular order. */
    method FindChains() returns (chains: seq<seq<nat>>)
      requires Valid()
      ensures Partition(d, chains, d.All())
    {
      var color := new bool[500](_ => false);
      chains := [];
      ghost var s := Now(color);
      NothingFound(d, s);
      for i := 0 to d.Blocks()
        invariant color.Length == 500 && fresh(color)
        invariant s == Now(color) && Found(d, chains, s)
        invariant forall b :: 0 <= b < i ==> b in s.Marked(d)
      {
        if !color[i] {
          ghost var before := s;
          var chain := Separate([], i, color, s.Marked(d));
          s := Now(color);
          FindNext(d, chains, before, s, chain, i);
          chains := chains + [chain];
        }
      }
      EverythingFound(d, chains, s);
    }

    /** Numbers one chain, and sorts it by the numbers. */
    method CalcChain(chain: seq<nat>, color: array<bool>, ghost rank: seq<nat>) returns (sorted: seq<nat>)
      requires Valid() && IsColorTable(color) && d.Ranked(rank) && d.Closed(Elems(chain)) && Lists(chain, Elems(chain))
      requires (forall i :: 0 <= i < |chain| ==> chain[i] < d.Blocks()) && Pending(d, Elems(chain), Now(color))
      modifies color, executeOrder
      ensures Kept(d, Elems(chain), old(Now(color)), Now(color))
      ensures Now(color).MarkedLines(d) <= old(Now(color).MarkedLines(d)) + d.Touching(Elems(chain))
      ensures NumberedChain(d, Elems(chain), executeOrder[..])
      ensures Lists(sorted, Elems(chain)) && d.Sequenced(sorted)
    {
      NumberChain(chain, color, rank);
      sorted := SortChain(chain);
      SortedIsSequenced(d, sorted, executeOrder[..]);
    }

    /** Starts a calculation at every block of the chain that no earlier one has reached. */
    method NumberChain(chain: seq<nat>, color: array<bool>, ghost rank: seq<nat>)
      requires Valid() && IsColorTable(color) && d.Ranked(rank) && d.Closed(Elems(chain))
      requires (forall i :: 0 <= i < |chain| ==> chain[i] < d.Blocks()) && Pending(d, Elems(chain), Now(color))
      modifies color, executeOrder
      ensures Kept(d, Elems(chain), old(Now(color)), Now(color))
      ensures Now(color).MarkedLines(d) <= old(Now(color).MarkedLines(d)) + d.Touching(Elems(chain))
      ensures NumberedChain(d, Elems(chain), executeOrder[..])
    {
      var order := 0;
      ghost var c, was, s, done: set<nat> := Elems(chain), Now(color), Now(color), {};
      PendingCanStart(d, c, s);
      for j := 0 to |chain|
        invariant order >= 0 && s == Now(color)
        invariant Progress(d, c, was, s, order, {}, {}, {}, done) && done <= c
        invariant Elems(chain[..j]) <= s.Marked(d)
      {
        NextElem(chain, j);
        if !color[chain[j]] {
          ghost var before, ended, r := s, done, order;
          NextCanStart(d, c, rank, chain[j], was, s, order, done);
          order, done := CalcOrder(chain[j], order, color, c, rank, {}, done);
          s := Now(color);
          ProgressTrans(d, c, rank, chain[j], was, before, s, r, order, ended, done);
        }
      }
      assert chain[..|chain|] == chain;
      AllMarked(d, c, was, s, order, done);
    }

    /** Sorts a chain of distinctly numbered blocks by their execute order. */
    method SortChain(chain: seq<nat>) returns (sorted: seq<nat>)
      requires Valid() && Lists(chain, Elems(chain)) && forall i :: 0 <= i < |chain| ==> chain[i] < d.Blocks()
      requires forall i, j :: 0 <= i < |chain| && 0 <= j < |chain| && i != j ==>
        executeOrder[chain[i]] != executeOrder[chain[j]]
      ensures Lists(sorted, Elems(chain))
      ensures SortedBy(sorted, executeOrder[..])
    {
      sorted := [];
      for n := 0 to |chain|
        invariant Elems(sorted) == Elems(chain[..n])
        invariant SortedBy(sorted, executeOrder[..]) && forall i :: 0 <= i < |sorted| ==> sorted[i] < d.Blocks()
      {
        var k := 0;
        while k < |sorted| && executeOrder[sorted[k]] < executeOrder[chain[n]]
          invariant 0 <= k <= |sorted|
          invariant forall i :: 0 <= i < k ==> executeOrder[sorted[i]] < executeOrder[chain[n]]
        {
          k := k + 1;
        }
        assert chain[n] !in chain[..n];
        forall i | k <= i < |sorted| ensures executeOrder[chain[n]] < executeOrder[sorted[i]] {
          assert sorted[i] in Elems(chain[..n]) && sorted[k] in Elems(chain[..n]);
        }
        InsertKeepsSorted(sorted, k, chain[n], executeOrder[..]);
        sorted := sorted[..k] + [chain[n]] + sorted[k..];
        assert chain[..n + 1] == chain[..n] + [chain[n]];
      }
      assert chain[..|chain|] == chain;
    }
  }
}
