/** Running the blocks once in the emitted sequence solves the dataflow equations of the diagram. */
module Dataflow {
  import opened Diagrams
  import opened Numbering

  /** What a block computes from the values on its connected input slots, in slot order. Its
      internal state and its unconnected inputs are part of the function. */
  type Eval<!V> = (nat, seq<V>) -> V

  function InputPorts(ports: seq<Port>): (r: seq<Port>)
    ensures forall p :: p in r <==> p in ports && p.input
  {
    if ports == [] then [] else (if ports[0].input then [ports[0]] else []) + InputPorts(ports[1..])
  }

  /** The values on the input slots of a block. */
  function Inputs<V>(d: Diagram, b: nat, env: seq<V>): seq<V>
    requires d.Valid() && b < d.Blocks() && |env| == d.Blocks()
  {
    var ins := InputPorts(d.ports[b]);
    seq(|ins|, i requires 0 <= i < |ins| => (assert d.PortOk(b, ins[i]); env[d.Other(ins[i])]))
  }

  /** One scan: the blocks of `order` are executed one after the other. */
  function Run<V>(d: Diagram, eval: Eval<V>, order: seq<nat>, env: seq<V>): (r: seq<V>)
    requires d.Valid() && |env| == d.Blocks() && forall i :: 0 <= i < |order| ==> order[i] < d.Blocks()
    ensures |r| == d.Blocks()
  {
    if order == [] then env
    else
      var n := |order| - 1;
      var e := Run(d, eval, order[..n], env);
      e[order[n] := eval(order[n], Inputs(d, order[n], e))]
  }

  ghost predicate Holds<V(!new)>(d: Diagram, eval: Eval<V>, b: nat, env: seq<V>)
    requires d.Valid() && |env| == d.Blocks() && b < d.Blocks()
  {
    env[b] == eval(b, Inputs(d, b, env))
  }

  /** The dataflow equations: every block's value is what it computes from its producers' values. */
  ghost predicate Solves<V(!new)>(d: Diagram, eval: Eval<V>, env: seq<V>)
    requires d.Valid()
  {
    |env| == d.Blocks() && forall b :: 0 <= b < d.Blocks() ==> Holds(d, eval, b, env)
  }

  /** A block's inputs depend only on the blocks that feed it. */
  lemma SameInputs<V>(d: Diagram, b: nat, e: seq<V>, e': seq<V>)
    requires d.Valid() && b < d.Blocks() && |e| == |e'| == d.Blocks()
    requires forall p :: 0 <= p < d.Blocks() && d.Feeds(p, b) ==> e[p] == e'[p]
    ensures Inputs(d, b, e) == Inputs(d, b, e')
  {
    var ins := InputPorts(d.ports[b]);
    forall i | 0 <= i < |ins| ensures e[d.Other(ins[i])] == e'[d.Other(ins[i])] {
      assert ins[i] in d.ports[b] && d.PortOk(b, ins[i]);
      assert d.lines[ins[i].line] == Line(d.Other(ins[i]), b);
    }
  }

  lemma {:induction false} RunPrefix<V(!new)>(d: Diagram, eval: Eval<V>, order: seq<nat>, k: nat, env: seq<V>)
    requires d.Valid() && |env| == d.Blocks() && Lists(order, d.All()) && d.Sequenced(order) && k <= |order|
    requires forall i :: 0 <= i < |order| ==> order[i] < d.Blocks()
    ensures forall i :: 0 <= i < k ==> Holds(d, eval, order[i], Run(d, eval, order[..k], env))
  {
    if k > 0 {
      RunPrefix(d, eval, order, k - 1, env);
      var e, e' := Run(d, eval, order[..k - 1], env), Run(d, eval, order[..k], env);
      assert order[..k][..k - 1] == order[..k - 1];
      var b := order[k - 1];
      forall i | 0 <= i < k ensures Holds(d, eval, order[i], e') {
        assert !d.Feeds(b, order[i]);
        SameInputs(d, order[i], e, e');
        assert i < k - 1 ==> Holds(d, eval, order[i], e);
      }
    }
  }

  lemma {:induction false} SolutionsAgree<V(!new)>(d: Diagram, eval: Eval<V>, order: seq<nat>, k: nat, e: seq<V>,
      e': seq<V>)
    requires d.Valid() && Lists(order, d.All()) && d.Sequenced(order) && k <= |order|
    requires forall i :: 0 <= i < |order| ==> order[i] < d.Blocks()
    requires Solves(d, eval, e) && Solves(d, eval, e')
    ensures forall i :: 0 <= i < k ==> e[order[i]] == e'[order[i]]
  {
    if k > 0 {
      SolutionsAgree(d, eval, order, k - 1, e, e');
      var b := order[k - 1];
      forall p | 0 <= p < d.Blocks() && d.Feeds(p, b) ensures e[p] == e'[p] {
        assert p in d.All() && p in order;
        var i :| 0 <= i < |order| && order[i] == p;
      }
      SameInputs(d, b, e, e');
      assert Holds(d, eval, b, e) && Holds(d, eval, b, e');
    }
  }

  lemma EveryBlockListed(d: Diagram, order: seq<nat>)
    requires d.Valid() && Lists(order, d.All())
    ensures forall i :: 0 <= i < |order| ==> order[i] < d.Blocks()
    ensures forall b :: 0 <= b < d.Blocks() ==> b in order
  {
    forall i | 0 <= i < |order| ensures order[i] < d.Blocks() { assert order[i] in d.All(); }
    forall b | 0 <= b < d.Blocks() ensures b in order {
      assert b in d.All();
    }
  }

  /** Two solutions of the dataflow equations of a diagram without feedback are the same. */
  lemma SolutionUnique<V(!new)>(d: Diagram, eval: Eval<V>, order: seq<nat>, e: seq<V>, e': seq<V>)
    requires d.Valid() && Lists(order, d.All()) && d.Sequenced(order)
    requires Solves(d, eval, e) && Solves(d, eval, e')
    ensures e == e'
  {
    EveryBlockListed(d, order);
    SolutionsAgree(d, eval, order, |order|, e, e');
    forall b | 0 <= b < d.Blocks() ensures e[b] == e'[b] {
      assert b in order;
      var i :| 0 <= i < |order| && order[i] == b;
    }
  }

  lemma RunSolves<V(!new)>(d: Diagram, eval: Eval<V>, order: seq<nat>, env: seq<V>)
    requires d.Valid() && |env| == d.Blocks() && Lists(order, d.All()) && d.Sequenced(order)
    requires forall i :: 0 <= i < |order| ==> order[i] < d.Blocks()
    ensures Solves(d, eval, Run(d, eval, order, env))
  {
    EveryBlockListed(d, order);
    RunPrefix(d, eval, order, |order|, env);
    assert order[..|order|] == order;
    var r := Run(d, eval, order, env);
    forall b | 0 <= b < d.Blocks() ensures Holds(d, eval, b, r) {
      assert b in order;
      var i :| 0 <= i < |order| && order[i] == b;
    }
  }

  /** One scan in any order that lists producers first ends in the one solution of the dataflow
      equations, whatever the values before the scan were. */
  lemma ScanSolves<V(!new)>(d: Diagram, eval: Eval<V>, order: seq<nat>, env: seq<V>)
    requires d.Valid() && |env| == d.Blocks() && Lists(order, d.All()) && d.Sequenced(order)
    ensures forall i :: 0 <= i < |order| ==> order[i] < d.Blocks()
    ensures forall e :: Solves(d, eval, e) <==> e == Run(d, eval, order, env)
  {
    EveryBlockListed(d, order);
    RunSolves(d, eval, order, env);
    var r := Run(d, eval, order, env);
    forall e | Solves(d, eval, e) ensures e == r {
      SolutionUnique(d, eval, order, e, r);
    }
  }
}
