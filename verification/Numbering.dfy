/** What a separation or a numbering in progress looks like, as predicates over the marks and
    the execute orders, with the steps that keep them. */
module Numbering {
  import opened Diagrams

  ghost function Elems(s: seq<nat>): set<nat> {
    set x | x in s
  }

  /** The chain lists the blocks of `s`, each once. */
  ghost predicate Lists(chain: seq<nat>, s: set<nat>) {
    && (forall b :: b in chain <==> b in s)
    && (forall i, j :: 0 <= i < j < |chain| ==> chain[i] != chain[j])
  }

  /** The colour table and the execute order of every block. */
  datatype State = State(color: seq<bool>, order: seq<int>) {

    ghost predicate Fits(d: Diagram) {
      d.Valid() && |color| == 500 && |order| == d.Blocks()
    }

    ghost function Marked(d: Diagram): set<nat>
      requires Fits(d)
    {
      set b: nat | b < d.Blocks() && color[b]
    }

    ghost function Unmarked(d: Diagram): set<nat>
      requires Fits(d)
    {
      set b: nat | b < d.Blocks() && !color[b]
    }

    ghost function MarkedLines(d: Diagram): set<nat>
      requires Fits(d)
    {
      set l | 0 <= l < |d.lines| && color[d.LineId(l)]
    }

    function Mark(b: nat): State
      requires b < |color|
    {
      this.(color := color[b := true])
    }

    function MarkLine(d: Diagram, l: nat): State
      requires d.LineId(l) < |color|
    {
      this.(color := color[d.LineId(l) := true])
    }

    function Stamp(b: nat, n: int): State
      requires b < |color| && b < |order|
    {
      State(color[b := true], order[b := n])
    }
  }

  /* ---- separation ---- */

  /** A marked line has been followed: its ends are marked, or are just being entered. */
  ghost predicate LinesFollowed(d: Diagram, s: State, entering: set<nat>)
    requires s.Fits(d)
  {
    forall l <- s.MarkedLines(d) :: {d.lines[l].producer, d.lines[l].consumer} <= s.Marked(d) + entering
  }

  lemma MarkBlock(d: Diagram, s: State, block: nat)
    requires s.Fits(d) && block < d.Blocks() && !s.color[block]
    ensures s.Mark(block).Marked(d) == s.Marked(d) + {block}
    ensures s.Mark(block).MarkedLines(d) == s.MarkedLines(d)
    ensures s.Mark(block).Unmarked(d) == s.Unmarked(d) - {block} < s.Unmarked(d)
  {
    assert block in s.Unmarked(d);
  }

  lemma MarkLine(d: Diagram, s: State, line: nat)
    requires s.Fits(d) && line < |d.lines|
    ensures s.MarkLine(d, line).Marked(d) == s.Marked(d)
    ensures s.MarkLine(d, line).Unmarked(d) == s.Unmarked(d)
    ensures s.MarkLine(d, line).MarkedLines(d) == s.MarkedLines(d) + {line}
  {
  }

  lemma MarkedGrows(d: Diagram, was: State, s: State, block: nat)
    requires was.Fits(d) && s.Fits(d) && block < d.Blocks() && !was.color[block]
    requires was.Marked(d) + {block} <= s.Marked(d)
    ensures s.Unmarked(d) < was.Unmarked(d)
  {
    assert forall b <- s.Unmarked(d) :: b !in s.Marked(d);
    assert block in was.Unmarked(d) && block in s.Marked(d);
  }

  /** The separation that started at `block` after its first `k` ports: it has added the blocks of
      `found`, and `chain` lists everything marked since `start`. */
  ghost predicate Separating(d: Diagram, block: nat, k: nat, was: State, s: State, found: set<nat>, chain: seq<nat>,
      start: set<nat>)
    requires was.Fits(d) && s.Fits(d) && block < d.Blocks() && k <= |d.ports[block]|
  {
    && LinesFollowed(d, s, {})
    && s.Marked(d) == was.Marked(d) + {block} + found && found !! was.Marked(d) + {block}
    && Lists(chain, s.Marked(d) - start)
    && d.LeadInto(block, k, s.Marked(d))
    && d.Explored(found, block, s.Marked(d))
  }

  lemma StartSeparating(d: Diagram, block: nat, s: State, chain: seq<nat>, start: set<nat>)
    requires s.Fits(d) && block < d.Blocks() && !s.color[block]
    requires LinesFollowed(d, s, {block}) && start <= s.Marked(d) && Lists(chain, s.Marked(d) - start)
    ensures Separating(d, block, 0, s, s.Mark(block), {}, chain + [block], start)
    ensures s.Mark(block).Unmarked(d) < s.Unmarked(d)
  {
    MarkBlock(d, s, block);
    assert block !in chain;
  }

  lemma SeparateLine(d: Diagram, block: nat, k: nat, was: State, s: State, found: set<nat>, chain: seq<nat>,
      start: set<nat>)
    requires was.Fits(d) && s.Fits(d) && block < d.Blocks() && k < |d.ports[block]| && !was.color[block]
    requires Separating(d, block, k, was, s, found, chain, start)
    ensures d.PortOk(block, d.ports[block][k])
    ensures var p := d.ports[block][k]; var s' := s.MarkLine(d, p.line);
      && (s.color[d.LineId(p.line)] ==> Separating(d, block, k + 1, was, s, found, chain, start))
      && (s.color[d.Other(p)] ==> Separating(d, block, k + 1, was, s', found, chain, start))
      && LinesFollowed(d, s', {d.Other(p)}) && s'.Marked(d) == s.Marked(d) && s'.Unmarked(d) < was.Unmarked(d)
  {
    var p := d.ports[block][k];
    assert d.PortOk(block, p);
    MarkLine(d, s, p.line);
    MarkedGrows(d, was, s.MarkLine(d, p.line), block);
  }

  lemma SeparateNext(d: Diagram, block: nat, k: nat, was: State, s: State, s': State, found: set<nat>, chain: seq<nat>,
      chain': seq<nat>, start: set<nat>)
    requires was.Fits(d) && s.Fits(d) && s'.Fits(d) && block < d.Blocks() && k < |d.ports[block]|
    requires Separating(d, block, k, was, s, found, chain, start) && d.PortOk(block, d.ports[block][k])
    requires LinesFollowed(d, s', {}) && Lists(chain', s'.Marked(d) - start)
    requires s.Marked(d) + {d.Other(d.ports[block][k])} <= s'.Marked(d)
    requires d.Explored(s'.Marked(d) - s.Marked(d), d.Other(d.ports[block][k]), s'.Marked(d))
    ensures Separating(d, block, k + 1, was, s', found + (s'.Marked(d) - s.Marked(d)), chain', start)
  {
    d.ExploredJoin(found, s.Marked(d), block, s'.Marked(d) - s.Marked(d), d.Other(d.ports[block][k]), s'.Marked(d));
  }

  /* ---- numbering ---- */

  /** Where both ends of a line are numbered, the producer comes first. */
  ghost predicate InOrder(d: Diagram, s: State, l: nat)
    requires s.Fits(d) && l < |d.lines|
  {
    var p, c := d.lines[l].producer, d.lines[l].consumer;
    s.color[p] && s.color[c] ==> s.order[p] < s.order[c]
  }

  /** The lines of the chain that are out of order for the moment. */
  ghost function Broken(d: Diagram, chain: set<nat>, s: State): set<nat>
    requires s.Fits(d)
  {
    set l | 0 <= l < |d.lines| && d.lines[l].consumer in chain && !InOrder(d, s, l)
  }

  /** The marked blocks of the chain carry distinct numbers up to `top`, and producers are marked before consumers. */
  ghost predicate Numbered(d: Diagram, chain: set<nat>, s: State, top: int)
    requires s.Fits(d)
  {
    && top >= -1
    && (forall x <- chain :: x < d.Blocks() && (s.color[x] ==> 0 <= s.order[x] <= top))
    && (forall x, y :: x in chain && y in chain && x != y && s.color[x] && s.color[y] ==> s.order[x] != s.order[y])
    && (forall l :: 0 <= l < |d.lines| && d.lines[l].consumer in chain && s.color[d.lines[l].consumer] ==>
         s.color[d.lines[l].producer])
  }

  /** No mark was taken back, and the blocks outside the chain are as they were. */
  ghost predicate Kept(d: Diagram, chain: set<nat>, was: State, s: State)
    requires was.Fits(d) && s.Fits(d)
  {
    && (forall i :: 0 <= i < 500 && was.color[i] ==> s.color[i])
    && (forall i :: 0 <= i < d.Blocks() && i !in chain ==> s.color[i] == was.color[i] && s.order[i] == was.order[i])
  }

  /** What trying some consumers has done. */
  ghost predicate Tried(d: Diagram, chain: set<nat>, was: State, s: State, tried: set<nat>)
    requires was.Fits(d) && s.Fits(d)
  {
    && Kept(d, chain, was, s) && s.MarkedLines(d) == was.MarkedLines(d)
    && Broken(d, chain, s) <= Broken(d, chain, was) - d.Into(tried)
  }

  lemma {:induction false} TriedNone(d: Diagram, chain: set<nat>, s: State)
    requires s.Fits(d)
    ensures Tried(d, chain, s, s, {})
  {
  }

  lemma {:induction false} TriedMore(d: Diagram, chain: set<nat>, was: State, s: State, s': State, tried: set<nat>,
      block: nat)
    requires was.Fits(d) && s.Fits(d) && s'.Fits(d) && Tried(d, chain, was, s, tried)
    requires Kept(d, chain, s, s') && s'.MarkedLines(d) == s.MarkedLines(d)
    requires Broken(d, chain, s') <= Broken(d, chain, s) - d.Into({block})
    ensures Tried(d, chain, was, s', tried + {block})
  {
    hide Broken;
  }

  lemma {:induction false} TriedAll(d: Diagram, chain: set<nat>, was: State, s: State, tried: set<nat>, all: set<nat>)
    requires was.Fits(d) && s.Fits(d) && Tried(d, chain, was, s, tried) && all <= tried
    ensures Kept(d, chain, was, s) && s.MarkedLines(d) == was.MarkedLines(d)
    ensures Broken(d, chain, s) <= Broken(d, chain, was) - d.Into(all)
  {
    hide Broken;
  }

  lemma NotReady(d: Diagram, chain: set<nat>, s: State, top: int, block: nat)
    requires s.Fits(d) && Numbered(d, chain, s, top)
    requires block in chain && exists l <- d.Into({block}) :: !s.color[d.lines[l].producer]
    ensures !s.color[block]
    ensures Broken(d, chain, s) * d.Into({block}) == {}
  {
  }

  /** Numbering a block above all others breaks at most its own outgoing lines. */
  lemma Stamp(d: Diagram, chain: set<nat>, s: State, block: nat, top: int, n: int)
    requires s.Fits(d) && Numbered(d, chain, s, top) && n > top && d.Closed(chain)
    requires block in chain
    requires (forall l <- d.Into({block}) :: s.color[d.lines[l].producer] && d.lines[l].producer != block)
    ensures Numbered(d, chain, s.Stamp(block, n), n)
    ensures Kept(d, chain, s, s.Stamp(block, n))
    ensures s.Stamp(block, n).MarkedLines(d) == s.MarkedLines(d)
    ensures Broken(d, chain, s.Stamp(block, n)) <= (Broken(d, chain, s) - d.Into({block})) + d.OutOf(block)
  {
  }

  /** Blocks that can only be computed after `block`. */
  ghost function Downstream(rank: seq<nat>, block: nat): set<nat>
    requires block < |rank|
  {
    set x: nat | x < |rank| && rank[block] < rank[x]
  }

  /** Blocks of the chain that are not computed after `block`. */
  ghost function UpTo(chain: set<nat>, rank: seq<nat>, block: nat): set<nat>
    requires block < |rank|
  {
    chain - Downstream(rank, block)
  }

  /** When the calculation of `block` may start with number `r`: `open` are the consumers whose own
      calculation is under way, `done` the blocks whose calculation has ended. */
  ghost predicate CanStart(d: Diagram, chain: set<nat>, rank: seq<nat>, block: nat, s: State, r: int, open: set<nat>,
      done: set<nat>)
    requires s.Fits(d) && d.Ranked(rank)
  {
    && block in chain && Numbered(d, chain, s, r - 1) && !s.color[block]
    && open <= Downstream(rank, block)
    && done <= s.Marked(d)
    && s.MarkedLines(d) * d.Into(chain) <= d.Touching(open + done)
    && Broken(d, chain, s) <= d.Into(open)
  }

  /** What a calculation has done since `was`: everything up to `r - 1` is numbered, lines are
      out of order only where they enter `open` blocks, and the lines it marked belong to `own` blocks
      or to blocks whose calculation has ended meanwhile. */
  ghost predicate Progress(d: Diagram, chain: set<nat>, was: State, s: State, r: int, open: set<nat>, own: set<nat>,
      done: set<nat>, done': set<nat>)
    requires was.Fits(d) && s.Fits(d)
  {
    && Numbered(d, chain, s, r - 1) && Kept(d, chain, was, s)
    && done <= done' <= s.Marked(d)
    && s.MarkedLines(d) <= was.MarkedLines(d) + d.Touching(own + (done' - done))
    && Broken(d, chain, s) <= d.Into(open)
  }

  /** The marked lines of `block`: upstream, their producers are numbered; downstream, their
      consumers are still open or waiting in `next`. The first `k` ports have been followed. */
  ghost predicate Known(d: Diagram, block: nat, k: nat, s: State, open: set<nat>, next: seq<nat>)
    requires s.Fits(d) && block < d.Blocks() && k <= |d.ports[block]|
  {
    && (forall l <- s.MarkedLines(d) * d.Into({block}) :: s.color[d.lines[l].producer])
    && s.MarkedLines(d) * d.OutOf(block) <= d.Into(open + Elems(next))
    && (forall i :: 0 <= i < k ==> d.PortOk(block, d.ports[block][i]) && d.ports[block][i].line in s.MarkedLines(d))
    && (forall c <- next :: d.Feeds(block, c))
  }

  /** The calculation of `block` after its first `k` ports. */
  ghost predicate Following(d: Diagram, chain: set<nat>, rank: seq<nat>, block: nat, k: nat, was: State, s: State,
      r: int,
      open: set<nat>, done: set<nat>, done': set<nat>, next: seq<nat>)
    requires was.Fits(d) && s.Fits(d) && d.Ranked(rank) && block < d.Blocks() && k <= |d.ports[block]|
  {
    && Progress(d, chain, was, s, r, open + {block}, {block}, done, done')
    && done' - done <= UpTo(chain, rank, block) - {block}
    && Known(d, block, k, s, open, next)
  }

  /** When a calculation starts, no marked line joins the block to something unfinished upstream
      or to something finished downstream. */
  lemma AtStart(d: Diagram, chain: set<nat>, rank: seq<nat>, block: nat, s: State, r: int, open: set<nat>,
      done: set<nat>)
    requires s.Fits(d) && d.Ranked(rank) && d.Closed(chain)
    requires CanStart(d, chain, rank, block, s, r, open, done)
    ensures Following(d, chain, rank, block, 0, s, s, r, open, done, done, []) && block !in done
  {
    forall l | l in s.MarkedLines(d) * d.Into({block}) ensures s.color[d.lines[l].producer] {
      assert l in d.Touching(open + done);
    }
    forall l | l in s.MarkedLines(d) * d.OutOf(block) ensures l in d.Into(open) {
      assert l in d.Into(chain) && l in d.Touching(open + done);
    }
  }

  lemma FollowAgain(d: Diagram, chain: set<nat>, rank: seq<nat>, block: nat, k: nat, was: State, s: State, r: int,
      open: set<nat>, done: set<nat>, done': set<nat>, next: seq<nat>)
    requires was.Fits(d) && s.Fits(d) && d.Ranked(rank) && block < d.Blocks() && k < |d.ports[block]|
    requires Following(d, chain, rank, block, k, was, s, r, open, done, done', next)
    requires d.ports[block][k].line in s.MarkedLines(d)
    ensures Following(d, chain, rank, block, k + 1, was, s, r, open, done, done', next)
  {
    assert d.PortOk(block, d.ports[block][k]);
  }

  /** What is known of the block's lines survives marks that do not touch its own lines, except for
      one line that leads to a numbered producer or to a queued consumer. */
  lemma StillKnown(d: Diagram, block: nat, k: nat, s: State, s': State, open: set<nat>, next: seq<nat>, next': seq<nat>)
    requires s.Fits(d) && s'.Fits(d) && block < d.Blocks() && k < |d.ports[block]|
    requires Known(d, block, k, s, open, next) && next <= next'
    requires forall i :: 0 <= i < 500 && s.color[i] ==> s'.color[i]
    requires d.PortOk(block, d.ports[block][k]) && d.ports[block][k].line in s'.MarkedLines(d)
    requires forall l <- s'.MarkedLines(d) * d.Into({block}) :: l in s.MarkedLines(d) || s'.color[d.lines[l].producer]
    requires forall l <- s'.MarkedLines(d) * d.OutOf(block) :: l in s.MarkedLines(d) || d.lines[l].consumer in next'
    requires forall c <- next' :: d.Feeds(block, c)
    ensures Known(d, block, k + 1, s', open, next')
  {
    forall l | l in s'.MarkedLines(d) * d.OutOf(block) ensures d.lines[l].consumer in open + Elems(next') {
      if l in s.MarkedLines(d) {
        assert l in d.Into(open + Elems(next));
      }
    }
  }

  lemma MarkOwnLine(d: Diagram, chain: set<nat>, block: nat, line: nat, was: State, s: State, r: int, open: set<nat>,
      done: set<nat>, done': set<nat>)
    requires was.Fits(d) && s.Fits(d) && line in d.Touching({block})
    requires Progress(d, chain, was, s, r, open, {block}, done, done')
    ensures Progress(d, chain, was, s.MarkLine(d, line), r, open, {block}, done, done')
  {
    MarkLine(d, s, line);
    var s' := s.MarkLine(d, line);
    assert forall b :: 0 <= b < d.Blocks() ==> s'.color[b] == s.color[b];
    assert line in d.Touching({block} + (done' - done));
  }

  /** Marking a line of the block that leads to a numbered producer or to a queued consumer. */
  lemma FollowLine(d: Diagram, chain: set<nat>, rank: seq<nat>, block: nat, k: nat, was: State, s: State, r: int,
      open: set<nat>, done: set<nat>, done': set<nat>, next: seq<nat>, next': seq<nat>)
    requires was.Fits(d) && s.Fits(d) && d.Ranked(rank) && block < d.Blocks() && k < |d.ports[block]|
    requires Following(d, chain, rank, block, k, was, s, r, open, done, done', next)
    requires var p := d.ports[block][k];
      && d.PortOk(block, p)
      && if p.input then next' == next && s.color[d.Other(p)] else next' == next + [d.Other(p)]
    ensures Following(d, chain, rank, block, k + 1, was, s.MarkLine(d, d.ports[block][k].line), r, open, done, done',
      next')
  {
    var p := d.ports[block][k];
    var s' := s.MarkLine(d, p.line);
    MarkLine(d, s, p.line);
    MarkOwnLine(d, chain, block, p.line, was, s, r, open + {block}, done, done');
    assert d.lines[p.line].producer != d.lines[p.line].consumer;
    assert !p.input ==> d.lines[p.line] == Line(block, d.Other(p));
    StillKnown(d, block, k, s, s', open, next, next');
  }

  /** A line of the block leads to a producer whose calculation can start. */
  lemma {:induction false} EnterProducer(d: Diagram, chain: set<nat>, rank: seq<nat>, block: nat, k: nat, was: State,
      s: State, r0: int, r: int,
      open: set<nat>, done: set<nat>, done': set<nat>, next: seq<nat>)
    requires was.Fits(d) && s.Fits(d) && d.Ranked(rank) && d.Closed(chain) && block < d.Blocks() && k < |d.ports[block]|
    requires CanStart(d, chain, rank, block, was, r0, open, done)
    requires Following(d, chain, rank, block, k, was, s, r, open, done, done', next)
    requires d.ports[block][k].input && d.PortOk(block, d.ports[block][k]) && !s.color[d.Other(d.ports[block][k])]
    ensures CanStart(d, chain, rank, d.Other(d.ports[block][k]), s.MarkLine(d, d.ports[block][k].line), r,
      open + {block}, done')
  {
    hide Kept;
    var line := d.ports[block][k].line;
    MarkLine(d, s, line);
    var s' := s.MarkLine(d, line);
    forall l | l in s'.MarkedLines(d) * d.Into(chain) ensures l in d.Touching(open + {block} + done') {
      assert l == line || l in d.Touching(open + done) || l in d.Touching({block} + (done' - done));
    }
  }

  lemma ProgressJoin(d: Diagram, chain: set<nat>, block: nat, line: nat, was: State, s: State, s': State, r: int,
      r': int,
      open: set<nat>, done: set<nat>, ended: set<nat>, done': set<nat>)
    requires was.Fits(d) && s.Fits(d) && s'.Fits(d) && line in d.Touching({block})
    requires Progress(d, chain, was, s, r, open, {block}, done, ended)
    requires Progress(d, chain, s.MarkLine(d, line), s', r', open, {}, ended, done')
    ensures Progress(d, chain, was, s', r', open, {block}, done, done')
  {
    MarkOwnLine(d, chain, block, line, was, s, r, open, done, ended);
    var own := {block} + (done' - done);
    assert done' - ended <= own && {block} + (ended - done) <= own;
    assert d.Touching({} + (done' - ended)) <= d.Touching(own);
    assert d.Touching({block} + (ended - done)) <= d.Touching(own);
  }

  /** The calculation of a producer ends below the block, and marks only lines of its own blocks. */
  lemma {:induction false} LeaveProducer(d: Diagram, chain: set<nat>, rank: seq<nat>, block: nat, k: nat, was: State,
      s: State, s': State,
      r: int, r': int, open: set<nat>, done: set<nat>, ended: set<nat>, done': set<nat>, next: seq<nat>)
    requires was.Fits(d) && s.Fits(d) && s'.Fits(d) && d.Ranked(rank) && block < d.Blocks() && k < |d.ports[block]|
    requires Following(d, chain, rank, block, k, was, s, r, open, done, ended, next)
    requires d.ports[block][k].input && d.PortOk(block, d.ports[block][k])
    requires Progress(d, chain, s.MarkLine(d, d.ports[block][k].line), s', r', open + {block}, {}, ended, done')
    requires d.Other(d.ports[block][k]) in done' && done' - ended <= UpTo(chain, rank, d.Other(d.ports[block][k]))
    ensures Following(d, chain, rank, block, k + 1, was, s', r', open, done, done', next)
  {
    hide Progress, Known, Broken;
    LeaveKnown(d, chain, rank, block, k, s, s', r', open, ended, done', next);
    ProgressJoin(d, chain, block, d.ports[block][k].line, was, s, s', r, r', open + {block}, done, ended, done');
    assert done' - done <= (done' - ended) + (ended - done);
  }

  lemma {:induction false} LeaveKnown(d: Diagram, chain: set<nat>, rank: seq<nat>, block: nat, k: nat, s: State,
      s': State, r': int,
      open: set<nat>, ended: set<nat>, done': set<nat>, next: seq<nat>)
    requires s.Fits(d) && s'.Fits(d) && d.Ranked(rank) && block < d.Blocks() && k < |d.ports[block]|
    requires Known(d, block, k, s, open, next) && d.ports[block][k].input && d.PortOk(block, d.ports[block][k])
    requires Progress(d, chain, s.MarkLine(d, d.ports[block][k].line), s', r', open + {block}, {}, ended, done')
    requires d.Other(d.ports[block][k]) in done' && done' - ended <= UpTo(chain, rank, d.Other(d.ports[block][k]))
    ensures Known(d, block, k + 1, s', open, next) && block !in done' - ended
    ensures (done' - ended) * Downstream(rank, block) == {}
  {
    hide Broken;
    var p, now := d.ports[block][k], done' - ended;
    MarkLine(d, s, p.line);
    ProducerLines(d, chain, rank, block, now, d.Other(p));
    assert d.Touching({} + now) == d.Touching(now);
    hide Progress;
    StillKnown(d, block, k, s, s', open, next, next);
  }

  /** A line of `block` that touches blocks computed no later than one of its producers comes from one of them. */
  lemma ProducerLines(d: Diagram, chain: set<nat>, rank: seq<nat>, block: nat, now: set<nat>, producer: nat)
    requires d.Valid() && d.Ranked(rank) && block < d.Blocks() && producer < d.Blocks() && rank[producer] < rank[block]
    requires now <= UpTo(chain, rank, producer)
    ensures block !in now
    ensures now * Downstream(rank, block) == {}
    ensures forall l <- d.Into({block}) * d.Touching(now) :: d.lines[l].producer in now
    ensures d.OutOf(block) * d.Touching(now) == {}
  {
    assert block in Downstream(rank, producer);
    assert Downstream(rank, block) <= Downstream(rank, producer);
    assert forall l <- d.OutOf(block) :: d.lines[l].consumer in Downstream(rank, block);
  }

  /** When every line of the block is marked, what is known covers all of them. */
  lemma AllKnown(d: Diagram, rank: seq<nat>, block: nat, s: State, open: set<nat>, next: seq<nat>)
    requires s.Fits(d) && block < d.Blocks() && d.Ranked(rank)
    requires Known(d, block, |d.ports[block]|, s, open, next)
    ensures forall l <- d.Into({block}) :: s.color[d.lines[l].producer] && d.lines[l].producer != block
    ensures d.OutOf(block) <= d.Into(open + Elems(next))
  {
    forall l | 0 <= l < |d.lines| && (d.lines[l].consumer == block || d.lines[l].producer == block)
      ensures l in s.MarkedLines(d)
    {
      assert Port(l, d.lines[l].consumer == block) in d.ports[block];
    }
  }

  /** The block is numbered, and its consumers have been tried. */
  lemma Finish(d: Diagram, chain: set<nat>, rank: seq<nat>, was: State, s: State, s': State, block: nat, r: int,
      r': int,
      open: set<nat>, done: set<nat>, done': set<nat>, next: seq<nat>)
    requires was.Fits(d) && s.Fits(d) && s'.Fits(d) && d.Ranked(rank)
    requires block < d.Blocks() && block !in done && block in chain
    requires Progress(d, chain, was, s, r, open + {block}, {block}, done, done')
    requires done' - done <= UpTo(chain, rank, block) - {block}
    requires Numbered(d, chain, s', r' - 1)
    requires Kept(d, chain, s, s.Stamp(block, r)) && Kept(d, chain, s.Stamp(block, r), s')
    requires s'.MarkedLines(d) == s.MarkedLines(d)
    requires Broken(d, chain, s') <= ((Broken(d, chain, s) - d.Into({block})) + d.OutOf(block)) - d.Into(Elems(next))
    requires d.OutOf(block) <= d.Into(open + Elems(next))
    ensures Progress(d, chain, was, s', r', open, {}, done, done' + {block})
    ensures done' + {block} - done <= UpTo(chain, rank, block)
  {
    assert {block} + (done' - done) == {} + (done' + {block} - done);
  }

  /* ---- chains ---- */

  ghost predicate IsChain(d: Diagram, chain: seq<nat>) {
    exists b :: 0 <= b < d.Blocks() && Lists(chain, d.Component(b))
  }

  /** The chains are disjoint connected components that make up `s`. */
  ghost predicate Partition(d: Diagram, chains: seq<seq<nat>>, s: set<nat>) {
    && (forall i :: 0 <= i < |chains| ==> IsChain(d, chains[i]) && Elems(chains[i]) <= s)
    && (forall i, j :: 0 <= i < j < |chains| ==> Elems(chains[i]) !! Elems(chains[j]))
    && (forall b <- s :: exists i :: 0 <= i < |chains| && b in chains[i])
  }

  /** No block and no line of the chain is marked yet. */
  ghost predicate Pending(d: Diagram, chain: set<nat>, s: State)
    requires s.Fits(d)
  {
    chain !! s.Marked(d) && s.MarkedLines(d) !! d.Into(chain)
  }

  lemma PartitionAppend(d: Diagram, chains: seq<seq<nat>>, s: set<nat>, chain: seq<nat>, b: nat)
    requires Partition(d, chains, s) && b < d.Blocks() && Lists(chain, d.Component(b)) && d.Component(b) !! s
    ensures Partition(d, chains + [chain], s + d.Component(b))
  {
    var all := chains + [chain];
    assert IsChain(d, chain);
    forall x | x in s + d.Component(b) ensures exists i :: 0 <= i < |all| && x in all[i] {
      if x in s {
        var i :| 0 <= i < |chains| && x in chains[i];
        assert x in all[i];
      } else {
        assert x in all[|chains|];
      }
    }
  }

  lemma PartitionUpdate(d: Diagram, chains: seq<seq<nat>>, s: set<nat>, i: nat, chain: seq<nat>)
    requires Partition(d, chains, s) && i < |chains| && Lists(chain, Elems(chains[i]))
    ensures Partition(d, chains[i := chain], s)
    ensures Elems(chain) == Elems(chains[i])
  {
    var all := chains[i := chain];
    var b :| 0 <= b < d.Blocks() && Lists(chains[i], d.Component(b));
    assert Elems(chain) == Elems(chains[i]) == d.Component(b);
    forall x | x in s ensures exists j :: 0 <= j < |all| && x in all[j] {
      var j :| 0 <= j < |chains| && x in chains[j];
      assert x in Elems(chains[j]) && x in all[j];
    }
  }

  /** The chains found so far: exactly the marked blocks. */
  ghost predicate Found(d: Diagram, chains: seq<seq<nat>>, s: State)
    requires s.Fits(d)
  {
    LinesFollowed(d, s, {}) && d.Closed(s.Marked(d)) && Partition(d, chains, s.Marked(d))
  }

  lemma NothingFound(d: Diagram, s: State)
    requires s.Fits(d) && forall i :: 0 <= i < 500 ==> !s.color[i]
    ensures Found(d, [], s)
  {
    assert s.Marked(d) == {};
  }

  lemma FindNext(d: Diagram, chains: seq<seq<nat>>, s: State, s': State, chain: seq<nat>, b: nat)
    requires s.Fits(d) && s'.Fits(d) && Found(d, chains, s) && b < d.Blocks() && !s.color[b]
    requires LinesFollowed(d, s', {}) && s.Marked(d) + {b} <= s'.Marked(d)
    requires Lists(chain, s'.Marked(d) - s.Marked(d)) && d.Explored(s'.Marked(d) - s.Marked(d), b, s'.Marked(d))
    ensures Found(d, chains + [chain], s')
  {
    d.ExploredIsComponent(b, s.Marked(d), s'.Marked(d));
    PartitionAppend(d, chains, s.Marked(d), chain, b);
    assert s'.Marked(d) == s.Marked(d) + d.Component(b);
  }

  lemma EverythingFound(d: Diagram, chains: seq<seq<nat>>, s: State)
    requires s.Fits(d) && Found(d, chains, s) && forall b :: 0 <= b < d.Blocks() ==> b in s.Marked(d)
    ensures Partition(d, chains, d.All())
  {
    forall b | 0 <= b < d.Blocks() { d.ComponentClosed(b); }
    assert s.Marked(d) == d.All();
  }

  /** What is done to one chain leaves the others alone. */
  lemma OtherChain(d: Diagram, chain: set<nat>, other: set<nat>, was: State, s: State)
    requires was.Fits(d) && s.Fits(d) && d.Closed(chain) && chain !! other
    requires Kept(d, chain, was, s) && s.MarkedLines(d) <= was.MarkedLines(d) + d.Touching(chain)
    ensures Pending(d, other, was) ==> Pending(d, other, s)
    ensures NumberedChain(d, other, was.order) && d.Closed(other) ==> NumberedChain(d, other, s.order)
  {
  }

  /** The final numbers of a chain: distinct, and growing along every line. */
  ghost predicate NumberedChain(d: Diagram, chain: set<nat>, order: seq<int>)
    requires d.Valid() && |order| == d.Blocks()
  {
    && (forall x <- chain :: x < d.Blocks())
    && (forall x, y :: x in chain && y in chain && x != y ==> order[x] != order[y])
    && (forall l <- d.Into(chain) :: order[d.lines[l].producer] < order[d.lines[l].consumer])
  }

  ghost predicate SortedBy(s: seq<nat>, key: seq<int>) {
    && (forall i :: 0 <= i < |s| ==> s[i] < |key|)
    && (forall i, j :: 0 <= i < j < |s| ==> key[s[i]] < key[s[j]])
  }

  lemma {:induction false} InsertKeepsSorted(s: seq<nat>, k: nat, x: nat, key: seq<int>)
    requires SortedBy(s, key) && k <= |s| && x < |key|
    requires forall i :: 0 <= i < k ==> s[i] < |key| && key[s[i]] < key[x]
    requires forall i :: k <= i < |s| ==> s[i] < |key| && key[x] < key[s[i]]
    ensures SortedBy(s[..k] + [x] + s[k..], key)
    ensures Elems(s[..k] + [x] + s[k..]) == Elems(s) + {x}
  {
    var r := s[..k] + [x] + s[k..];
    InsertElems(s, k, x);
    forall j | 0 <= j < |r| ensures r[j] == if j < k then s[j] else if j == k then x else s[j - 1] {
    }
    forall i, j | 0 <= i < j < |r| ensures key[r[i]] < key[r[j]] {
      var i', j' := if i <= k then i else i - 1, if j <= k then j else j - 1;
      assert i < k ==> r[i] == s[i'];
      assert j > k ==> r[j] == s[j'];
    }
  }

  lemma InsertElems(s: seq<nat>, k: nat, x: nat)
    requires k <= |s|
    ensures Elems(s[..k] + [x] + s[k..]) == Elems(s) + {x}
  {
    assert s == s[..k] + s[k..];
  }

  lemma ChainClosed(d: Diagram, chain: seq<nat>)
    requires d.Valid() && IsChain(d, chain)
    ensures d.Closed(Elems(chain)) && Lists(chain, Elems(chain))
    ensures forall i :: 0 <= i < |chain| ==> chain[i] < d.Blocks()
  {
    var b :| 0 <= b < d.Blocks() && Lists(chain, d.Component(b));
    d.ComponentClosed(b);
    assert Elems(chain) == d.Component(b);
    forall i | 0 <= i < |chain| ensures chain[i] < d.Blocks() {
      assert chain[i] in Elems(chain);
    }
  }

  lemma PendingCanStart(d: Diagram, chain: set<nat>, s: State)
    requires s.Fits(d) && d.Closed(chain) && Pending(d, chain, s) && forall x <- chain :: x < d.Blocks()
    ensures Progress(d, chain, s, s, 0, {}, {}, {}, {})
  {
    assert forall x <- chain :: x in s.Marked(d) <==> s.color[x];
  }

  lemma NextCanStart(d: Diagram, chain: set<nat>, rank: seq<nat>, block: nat, was: State, s: State, r: int,
      done: set<nat>)
    requires was.Fits(d) && s.Fits(d) && d.Ranked(rank) && Pending(d, chain, was)
    requires Progress(d, chain, was, s, r, {}, {}, {}, done) && block in chain && !s.color[block]
    ensures CanStart(d, chain, rank, block, s, r, {}, done)
  {
    assert {} + done == {} + (done - {}) == done;
  }

  lemma NextElem(s: seq<nat>, j: nat)
    requires j < |s|
    ensures Elems(s[..j + 1]) == Elems(s[..j]) + {s[j]}
  {
    assert s[..j + 1] == s[..j] + [s[j]];
  }

  lemma ProgressTrans(d: Diagram, chain: set<nat>, rank: seq<nat>, block: nat, was: State, s: State, s': State, r: int,
      r': int, done: set<nat>, done': set<nat>)
    requires was.Fits(d) && s.Fits(d) && s'.Fits(d)
    requires Progress(d, chain, was, s, r, {}, {}, {}, done) && Progress(d, chain, s, s', r', {}, {}, done, done')
    requires d.Ranked(rank) && block < d.Blocks() && done <= chain && done' - done <= UpTo(chain, rank, block)
    ensures Progress(d, chain, was, s', r', {}, {}, {}, done') && done' <= chain
    ensures s.Marked(d) + done' <= s'.Marked(d)
  {
    assert d.Touching({} + (done - {})) <= d.Touching({} + (done' - {}));
    assert d.Touching({} + (done' - done)) <= d.Touching({} + (done' - {}));
  }

  lemma AllMarked(d: Diagram, chain: set<nat>, was: State, s: State, r: int, done: set<nat>)
    requires was.Fits(d) && s.Fits(d) && d.Closed(chain)
    requires Progress(d, chain, was, s, r, {}, {}, {}, done) && chain <= s.Marked(d)
    ensures NumberedChain(d, chain, s.order)
  {
    forall l | l in d.Into(chain) ensures s.order[d.lines[l].producer] < s.order[d.lines[l].consumer] {
      assert l !in Broken(d, chain, s);
    }
  }

  lemma FinalOrder(d: Diagram, chains: seq<seq<nat>>, order: seq<int>)
    requires d.Valid() && |order| == d.Blocks() && Partition(d, chains, d.All())
    requires forall i :: 0 <= i < |chains| ==> NumberedChain(d, Elems(chains[i]), order)
    ensures forall l :: 0 <= l < |d.lines| ==> order[d.lines[l].producer] < order[d.lines[l].consumer]
    ensures forall b, x, y :: b in d.All() && x in d.Component(b) && y in d.Component(b) && x != y ==>
      order[x] != order[y]
  {
    forall b, x, y | b in d.All() && x in d.Component(b) && y in d.Component(b) && x != y
      ensures order[x] != order[y]
    {
      var i :| 0 <= i < |chains| && b in chains[i];
      ChainClosed(d, chains[i]);
      assert d.Connected(b, x) && d.Connected(b, y);
      assert x in Elems(chains[i]) && y in Elems(chains[i]);
    }
    forall l | 0 <= l < |d.lines|
      ensures order[d.lines[l].producer] < order[d.lines[l].consumer]
    {
      d.ComponentClosed(d.lines[l].consumer);
      assert d.lines[l].consumer in d.All();
      var i :| 0 <= i < |chains| && d.lines[l].consumer in chains[i];
      assert l in d.Into(Elems(chains[i]));
    }
  }

  /** A chain sorted by its numbers lists every block behind the blocks that feed it. */
  lemma SortedIsSequenced(d: Diagram, sorted: seq<nat>, order: seq<int>)
    requires d.Valid() && |order| == d.Blocks() && NumberedChain(d, Elems(sorted), order)
    requires SortedBy(sorted, order)
    ensures d.Sequenced(sorted)
  {
    forall i, j | 0 <= i < |sorted| && 0 <= j < |sorted| && d.Feeds(sorted[i], sorted[j]) ensures i < j {
      var l :| 0 <= l < |d.lines| && d.lines[l] == Line(sorted[i], sorted[j]);
      assert l in d.Into(Elems(sorted));
    }
  }

  /** Closed chains can be emitted one behind the other. */
  lemma AppendChain(d: Diagram, emitted: seq<nat>, chain: seq<nat>)
    requires d.Sequenced(emitted) && d.Sequenced(chain) && Elems(emitted) !! Elems(chain)
    requires d.Closed(Elems(chain)) && Lists(emitted, Elems(emitted)) && Lists(chain, Elems(chain))
    ensures d.Sequenced(emitted + chain) && Lists(emitted + chain, Elems(emitted) + Elems(chain))
  {
    var s := emitted + chain;
    forall i, j | 0 <= i < j < |s| ensures s[i] != s[j] {
      if i < |emitted| <= j {
        assert s[i] in Elems(emitted) && s[j] in Elems(chain);
      }
    }
    forall i, j | 0 <= i < |s| && 0 <= j < |s| && d.Feeds(s[i], s[j]) ensures i < j {
      assert s[i] in Elems(chain) <==> s[j] in Elems(chain);
      if i >= |emitted| {
        assert s[i] in Elems(chain) && s[j] in Elems(chain);
        assert j >= |emitted|;
      }
    }
  }

  /** The first `i` chains are in `s`, the others are not. */
  ghost predicate Emitted(d: Diagram, chains: seq<seq<nat>>, i: nat, s: set<nat>) {
    && s <= d.All()
    && (forall j :: 0 <= j < i && j < |chains| ==> Elems(chains[j]) <= s)
    && (forall j :: i <= j < |chains| ==> Elems(chains[j]) !! s)
  }

  lemma NoneEmitted(d: Diagram, chains: seq<seq<nat>>)
    ensures Emitted(d, chains, 0, {})
  {
  }

  lemma EmittedNext(d: Diagram, chains: seq<seq<nat>>, i: nat, s: set<nat>)
    requires Partition(d, chains, d.All()) && Emitted(d, chains, i, s) && i < |chains|
    ensures Emitted(d, chains, i + 1, s + Elems(chains[i])) && IsChain(d, chains[i]) && s !! Elems(chains[i])
  {
  }

  lemma EmittedAll(d: Diagram, chains: seq<seq<nat>>, s: set<nat>)
    requires Partition(d, chains, d.All()) && Emitted(d, chains, |chains|, s)
    ensures s == d.All()
  {
    forall b | b in d.All() ensures b in s {
      var i :| 0 <= i < |chains| && b in chains[i];
      assert b in Elems(chains[i]);
    }
  }

  ghost function SeqMax(s: seq<nat>): (m: nat)
  {
    if s == [] then 0 else var r := SeqMax(s[1..]); if s[0] > r then s[0] else r
  }

  lemma RankBounded(rank: seq<nat>, b: nat)
    requires b < |rank|
    ensures rank[b] <= SeqMax(rank)
  {
    if b > 0 { RankBounded(rank[1..], b - 1); }
  }
}
