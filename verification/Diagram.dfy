/** Function block diagrams as the order calculation sees them: blocks, the lines between
    their slots, and the ports of each block in the order its slots are traversed. */
module Diagrams {

  /** A line joins an output slot of its producer to an input slot of its consumer. */
  datatype Line = Line(producer: nat, consumer: nat)

  /** One line of one slot. `input` tells whether the slot is the line's input slot, that is,
      whether looking along the line leads upstream, to the producer. */
  datatype Port = Port(line: nat, input: bool)

  datatype Diagram = Diagram(lines: seq<Line>, ports: seq<seq<Port>>) {

    function Blocks(): nat { |ports| }

    /** The temporary id of a line: lines are numbered after the blocks. */
    function LineId(l: nat): nat { |ports| + l }

    /** The ports list exactly the line ends, and everything fits the 500 entries of the colour table. */
    ghost predicate Valid() {
      && |ports| + |lines| <= 500
      && (forall l :: 0 <= l < |lines| ==> lines[l].producer < |ports| && lines[l].consumer < |ports|)
      && (forall b, k :: 0 <= b < |ports| && 0 <= k < |ports[b]| ==> PortOk(b, ports[b][k]))
      && (forall l :: 0 <= l < |lines| ==> Port(l, true) in ports[lines[l].consumer])
      && (forall l :: 0 <= l < |lines| ==> Port(l, false) in ports[lines[l].producer])
    }

    ghost predicate PortOk(b: nat, p: Port) {
      && p.line < |lines|
      && b == if p.input then lines[p.line].consumer else lines[p.line].producer
    }

    /** The block at the other end of a port's line. */
    function Other(p: Port): nat
      requires p.line < |lines|
    {
      if p.input then lines[p.line].producer else lines[p.line].consumer
    }

    ghost predicate Feeds(p: nat, c: nat) {
      exists l :: 0 <= l < |lines| && lines[l] == Line(p, c)
    }

    ghost predicate IsPath(path: seq<nat>) {
      forall i :: 0 <= i < |path| - 1 ==> Feeds(path[i], path[i + 1])
    }

    /** Signals flow from `p` to `c` along one or more lines. */
    ghost predicate Reaches(p: nat, c: nat) {
      exists path: seq<nat> :: |path| >= 2 && path[0] == p && path[|path| - 1] == c && IsPath(path)
    }

    ghost predicate Acyclic() {
      forall b :: 0 <= b < |ports| ==> !Reaches(b, b)
    }

    ghost function Upstream(b: nat): set<nat> {
      set x | 0 <= x < |ports| && Reaches(x, b)
    }

    /** A numbering that grows along every line. */
    ghost predicate Ranked(rank: seq<nat>) {
      && |rank| == |ports|
      && (forall l :: 0 <= l < |lines| ==>
            && lines[l].producer < |ports| && lines[l].consumer < |ports|
            && rank[lines[l].producer] < rank[lines[l].consumer])
    }

    lemma ReachesExtend(x: nat, p: nat, c: nat)
      requires Feeds(p, c)
      ensures Reaches(p, c)
      ensures Reaches(x, p) ==> Reaches(x, c)
    {
      assert IsPath([p, c]);
      if Reaches(x, p) {
        var path: seq<nat> :| |path| >= 2 && path[0] == x && path[|path| - 1] == p && IsPath(path);
        var longer := path + [c];
        assert IsPath(longer);
      }
    }

    /** On an acyclic diagram the number of upstream blocks is such a numbering. */
    lemma AcyclicIsRanked() returns (rank: seq<nat>)
      requires Valid() && Acyclic()
      ensures Ranked(rank)
    {
      rank := seq(|ports|, b requires 0 <= b => |Upstream(b)|);
      forall l | 0 <= l < |lines|
        ensures rank[lines[l].producer] < rank[lines[l].consumer]
      {
        var p, c := lines[l].producer, lines[l].consumer;
        assert Feeds(p, c);
        forall x | x in Upstream(p) + {p} ensures x in Upstream(c) {
          ReachesExtend(x, p, c);
        }
        SubsetSize(Upstream(p) + {p}, Upstream(c));
      }
    }

    lemma {:induction false} RankGrowsAlongPath(rank: seq<nat>, path: seq<nat>)
      requires Ranked(rank) && IsPath(path) && |path| >= 2
      ensures path[0] < |ports| && path[|path| - 1] < |ports| && rank[path[0]] < rank[path[|path| - 1]]
    {
      assert Feeds(path[0], path[1]);
      if |path| > 2 {
        assert IsPath(path[1..]) by {
          forall i | 0 <= i < |path[1..]| - 1 ensures Feeds(path[1..][i], path[1..][i + 1]) {
            assert Feeds(path[i + 1], path[i + 2]);
          }
        }
        RankGrowsAlongPath(rank, path[1..]);
      }
    }

    /** The two ways to say that a diagram has no feedback agree. */
    lemma AcyclicIffRanked()
      requires Valid()
      ensures Acyclic() <==> exists rank :: Ranked(rank)
    {
      if Acyclic() {
        var rank := AcyclicIsRanked();
      }
      if rank :| Ranked(rank) {
        forall b | 0 <= b < |ports| ensures !Reaches(b, b) {
          if Reaches(b, b) {
            var path: seq<nat> :| |path| >= 2 && path[0] == b && path[|path| - 1] == b && IsPath(path);
            RankGrowsAlongPath(rank, path);
          }
        }
      }
    }

    ghost function Into(s: set<nat>): set<nat> {
      set l | 0 <= l < |lines| && lines[l].consumer in s
    }

    ghost function OutOf(b: nat): set<nat> {
      set l | 0 <= l < |lines| && lines[l].producer == b
    }

    ghost function Touching(s: set<nat>): set<nat> {
      set l | 0 <= l < |lines| && (lines[l].producer in s || lines[l].consumer in s)
    }

    /** A set of blocks no line leaves. */
    ghost predicate Closed(s: set<nat>) {
      forall l :: 0 <= l < |lines| ==> (lines[l].producer in s <==> lines[l].consumer in s)
    }

    ghost function Neighbours(b: nat): set<nat>
      requires Valid()
    {
      (set l | 0 <= l < |lines| && lines[l].consumer == b :: lines[l].producer)
      + (set l | 0 <= l < |lines| && lines[l].producer == b :: lines[l].consumer)
    }

    /** `x` is in every closed set that holds `b`. */
    ghost predicate Connected(b: nat, x: nat) {
      forall s: set<nat> :: Closed(s) && b in s ==> x in s
    }

    ghost function Component(b: nat): set<nat> {
      set x | 0 <= x < |ports| && Connected(b, x)
    }

    lemma NeighbourComponent(b: nat, n: nat)
      requires Valid() && n in Neighbours(b)
      ensures Component(n) <= Component(b)
    {
      forall s: set<nat> | Closed(s) && b in s ensures n in s {}
    }

    /** The first `k` ports of `b` lead to blocks of `s`. */
    ghost predicate LeadInto(b: nat, k: nat, s: set<nat>)
      requires Valid() && b < |ports| && k <= |ports[b]|
    {
      forall i :: 0 <= i < k ==> PortOk(b, ports[b][i]) && Other(ports[b][i]) in s
    }

    lemma PortsCoverNeighbours(b: nat, s: set<nat>)
      requires Valid() && b < |ports| && LeadInto(b, |ports[b]|, s)
      ensures Neighbours(b) <= s
    {
      forall l | 0 <= l < |lines| && lines[l].producer == b ensures lines[l].consumer in s {
        assert Port(l, false) in ports[b];
      }
      forall l | 0 <= l < |lines| && lines[l].consumer == b ensures lines[l].producer in s {
        assert Port(l, true) in ports[b];
      }
    }

    /** The blocks of `s` are connected to `b`, and their neighbours are in `reached`. */
    ghost predicate Explored(s: set<nat>, b: nat, reached: set<nat>)
      requires Valid()
    {
      s <= Component(b) && forall x <- s :: Neighbours(x) <= reached
    }

    lemma ExploredJoin(s: set<nat>, reached: set<nat>, b: nat, s': set<nat>, n: nat, reached': set<nat>)
      requires Valid() && n in Neighbours(b) && reached <= reached'
      requires Explored(s, b, reached) && Explored(s', n, reached')
      ensures Explored(s + s', b, reached')
    {
      NeighbourComponent(b, n);
    }

    /** Each block of the sequence stands behind the blocks that feed it. */
    ghost predicate Sequenced(s: seq<nat>) {
      forall i, j :: 0 <= i < |s| && 0 <= j < |s| && Feeds(s[i], s[j]) ==> i < j
    }

    predicate IsBlock(b: nat) { b < |ports| }

    ghost function All(): set<nat> {
      set b | 0 <= b < |ports| && IsBlock(b)
    }

    /** What a search from `b` adds to a closed set, and leaves closed, is the component of `b`. */
    lemma ExploredIsComponent(b: nat, was: set<nat>, s: set<nat>)
      requires Valid() && b < |ports| && b in s - was && was <= s && Closed(was)
      requires Explored(s - was, b, s)
      ensures s - was == Component(b) && Closed(s)
    {
      forall l | 0 <= l < |lines| ensures lines[l].producer in s <==> lines[l].consumer in s {
        assert lines[l].producer in Neighbours(lines[l].consumer) && lines[l].consumer in Neighbours(lines[l].producer);
      }
      assert Closed(s - was);
      ComponentClosed(b);
    }

    /** A component is closed, so it is the smallest closed set around `b`. */
    lemma ComponentClosed(b: nat)
      requires Valid() && b < |ports|
      ensures Closed(Component(b)) && b in Component(b)
    {
      forall l | 0 <= l < |lines|
        ensures Connected(b, lines[l].producer) <==> Connected(b, lines[l].consumer)
      {
      }
    }
  }

  lemma SubsetSize<T>(a: set<T>, b: set<T>)
    requires a <= b
    ensures |a| <= |b|
  {
    assert b == a + (b - a);
  }
}
