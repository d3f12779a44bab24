/** Groups of commands that are executed, undone and executed again. */
module Groups {
  import opened Editing

  /** Nothing of the command was executed before. */
  ghost predicate Fresh(c: Cmd)
    decreases c
  {
    match c
    case One(_, executed) => !executed
    case Group(cs, executed) => !executed && forall i :: 0 <= i < |cs| ==> Fresh(cs[i])
  }

  predicate InsertsLine(c: Cmd) { c.One? && c.op.InsertLine? }

  /** The commands without the insertions of lines. */
  function Kept(ops: seq<Op>): seq<Op> {
    if ops == [] then [] else Kept(ops[..|ops| - 1]) + if ops[|ops| - 1].InsertLine? then [] else [ops[|ops| - 1]]
  }

  lemma {:induction false} KeptAppend(a: seq<Op>, b: seq<Op>)
    ensures Kept(a + b) == Kept(a) + Kept(b)
  {
    if b == [] {
      assert a + b == a;
    } else {
      var n := |b| - 1;
      KeptAppend(a, b[..n]);
      assert (a + b)[..|a + b| - 1] == a + b[..n];
      var last := if b[n].InsertLine? then [] else [b[n]];
      assert (Kept(a) + Kept(b[..n])) + last == Kept(a) + (Kept(b[..n]) + last);
    }
  }

  /** The second time a group is executed it skips exactly the insertions of lines, in all its subgroups. */
  lemma {:induction false} RedoRuns(c: Cmd)
    requires Fresh(c)
    ensures Runs(c) == Ops(c) && Undone(Executed(c)).executed == InsertsLine(c)
    ensures c.Group? ==> Runs(Undone(Executed(c))) == Kept(Ops(c))
    ensures c.One? ==> Runs(Undone(Executed(c))) == [c.op]
    decreases c
  {
    if c.Group? { RedoRunsAll(c.members); }
  }

  lemma {:induction false} RedoRunsAll(cs: seq<Cmd>)
    requires forall i :: 0 <= i < |cs| ==> Fresh(cs[i])
    ensures RunsAll(cs) == OpsAll(cs) && RunsAll(UndoneAll(ExecutedAll(cs))) == Kept(OpsAll(cs))
    ensures forall i :: 0 <= i < |cs| ==> (UndoneAll(ExecutedAll(cs))[i].executed <==> InsertsLine(cs[i]))
    decreases cs
  {
    if cs != [] {
      var n := |cs| - 1;
      RedoRunsAll(cs[..n]);
      RedoRuns(cs[n]);
      var es, us := ExecutedAll(cs), UndoneAll(ExecutedAll(cs));
      assert es[..n] == ExecutedAll(cs[..n]) && us[..n] == UndoneAll(es[..n]) && us[n] == Undone(Executed(cs[n]));
      KeptAppend(OpsAll(cs[..n]), Ops(cs[n]));
      if cs[n].One? {
        assert [cs[n].op][..0] == [] && Kept([cs[n].op]) == if InsertsLine(cs[n]) then [] else [cs[n].op];
      }
    }
  }

  /* ---- what the skipped insertions change ---- */

  function Inserted(ops: seq<Op>): set<nat> {
    set i | 0 <= i < |ops| && ops[i].InsertLine? :: ops[i].l
  }

  function LeftAfter(op: Op, left: set<nat>): set<nat> {
    if op.InsertLine? then left + {op.l} else if op.DeleteLine? then left - {op.l} else left
  }

  /** The lines that are inserted and not deleted again. */
  function Left(ops: seq<Op>): set<nat> {
    if ops == [] then {}
    else
      LeftAfter(ops[|ops| - 1], Left(ops[..|ops| - 1]))
  }

  /** The elements a command is about that is not about a line. */
  function Mentions(op: Op): set<nat> {
    match op
    case DeleteBlock(b) => {b}
    case InsertBlock(b) => {b}
    case Paste(es) => set i | 0 <= i < |es| :: es[i]
    case DeleteElement(e) => {e}
    case InsertElement(e) => {e}
    case _ => {}
  }

  ghost predicate OnlyLines(ops: seq<Op>, ls: set<nat>) {
    forall i :: 0 <= i < |ops| ==> Mentions(ops[i]) !! ls
  }

  /** A line is an element, once, exactly while it is connected. */
  ghost predicate LinesOnce(d: Doc, ls: set<nat>) {
    forall l :: l in ls ==> multiset(d.elements)[l] == if l in d.links then 1 else 0
  }

  /** The second document lacks the lines. */
  ghost predicate Lacks(d: Doc, e: Doc, ls: set<nat>) {
    && d.links == e.links + ls && e.links !! ls && d.at == e.at
    && multiset(d.elements) == multiset(e.elements) + multiset(ls)
  }

  lemma TakeBoth(m: multiset<nat>, n: multiset<nat>, left: set<nat>, x: nat)
    requires m == n + multiset(left) && x in m && x !in left
    ensures m - multiset{x} == n - multiset{x} + multiset(left) && x in n
  {
    assert m[x] == n[x] + multiset(left)[x];
  }

  lemma TakeLeft(m: multiset<nat>, n: multiset<nat>, left: set<nat>, x: nat)
    requires m == n + multiset(left) && x in left && n[x] == 0
    ensures m - multiset{x} == n - multiset{x} + multiset(left - {x})
  {
    assert multiset(left) == multiset(left - {x}) + multiset{x};
  }

  lemma PutLeft(m: multiset<nat>, n: multiset<nat>, left: set<nat>, x: nat)
    requires m == n + multiset(left) && x !in left
    ensures m + multiset{x} == n + multiset(left + {x})
  {
    assert multiset(left + {x}) == multiset(left) + multiset{x};
  }

  lemma PutBoth(m: multiset<nat>, n: multiset<nat>, left: set<nat>, s: seq<nat>)
    requires m == n + multiset(left)
    ensures m + multiset(s) == n + multiset(s) + multiset(left)
  {
  }

  function DoKept(op: Op, e: Doc): Doc { if op.InsertLine? then e else Do(op, e) }

  lemma InsertionLacks(op: Op, d: Doc, e: Doc, left: set<nat>)
    requires Lacks(d, e, left) && Applies(op, d) && op.InsertLine?
    ensures Lacks(Do(op, d), e, LeftAfter(op, left))
  {
    PutLeft(multiset(d.elements), multiset(e.elements), left, op.l);
  }

  lemma {:induction false} DeletionLacks(op: Op, d: Doc, e: Doc, left: set<nat>)
    requires Lacks(d, e, left) && Applies(op, d) && Deletes(op)
    requires if op.DeleteLine? then op.l in left ==> multiset(e.elements)[op.l] == 0 else Target(op) !in left
    ensures Lacks(Do(op, d), Do(op, e), LeftAfter(op, left))
  {
    hide FastErase, Lines;
    var x := Target(op);
    EraseIs(d.elements, x);
    EraseIs(e.elements, x);
    if x in left {
      TakeLeft(multiset(d.elements), multiset(e.elements), left, x);
    } else {
      TakeBoth(multiset(d.elements), multiset(e.elements), left, x);
    }
  }

  lemma OtherLacks(op: Op, d: Doc, e: Doc, left: set<nat>)
    requires Lacks(d, e, left) && !Deletes(op) && !op.InsertLine?
    ensures Lacks(Do(op, d), Do(op, e), LeftAfter(op, left))
  {
    var s := match op case InsertBlock(b) => [b] case Paste(es) => es case InsertElement(x) => [x] case _ => [];
    PutBoth(multiset(d.elements), multiset(e.elements), left, s);
  }

  /** A command about another element keeps a line as it is; the deletion of a line takes it out everywhere. */
  lemma {:induction false} LineKept(op: Op, e: Doc, ls: set<nat>, l: nat)
    requires l in ls && LinesOnce(e, ls) && Mentions(op) !! ls && !op.InsertLine?
    ensures multiset(Do(op, e).elements)[l] == if l in Do(op, e).links then 1 else 0
  {
    hide FastErase;
    if Deletes(op) {
      EraseIs(e.elements, Target(op));
      assert op.DeleteLine? || Target(op) in Mentions(op);
    } else if op.Paste? {
      assert forall x :: x in op.es ==> x in Mentions(op);
    }
  }

  lemma {:induction false} StepLacks(op: Op, d: Doc, e: Doc, left: set<nat>, ls: set<nat>)
    requires Lacks(d, e, left) && Applies(op, d) && left <= ls && LinesOnce(e, ls) && Mentions(op) !! ls
    requires op.InsertLine? ==> op.l in ls
    ensures Lacks(Do(op, d), DoKept(op, e), LeftAfter(op, left))
    ensures LinesOnce(DoKept(op, e), ls) && LeftAfter(op, left) <= ls
  {
    hide Do, Applies;
    if op.InsertLine? {
      InsertionLacks(op, d, e, left);
    } else {
      if Deletes(op) {
        assert op.DeleteLine? || Target(op) in Mentions(op);
        DeletionLacks(op, d, e, left);
      } else {
        OtherLacks(op, d, e, left);
      }
      forall l | l in ls ensures multiset(Do(op, e).elements)[l] == if l in Do(op, e).links then 1 else 0 {
        LineKept(op, e, ls, l);
      }
    }
  }

  lemma {:induction false} KeptLacks(ops: seq<Op>, d: Doc, ls: set<nat>)
    requires AllApply(ops, d) && Inserted(ops) <= ls && OnlyLines(ops, ls) && LinesOnce(d, ls)
    ensures Lacks(DoAll(ops, d), DoAll(Kept(ops), d), Left(ops))
    ensures LinesOnce(DoAll(Kept(ops), d), ls) && Left(ops) <= ls
  {
    if ops != [] {
      hide Do, Applies, Lacks, LinesOnce, Mentions;
      var n := |ops| - 1;
      var front, op := ops[..n], ops[n];
      assert forall i :: 0 <= i < n ==> front[i] == ops[i];
      assert op.InsertLine? ==> op.l in Inserted(ops);
      KeptLacks(front, d, ls);
      StepLacks(op, DoAll(front, d), DoAll(Kept(front), d), Left(front), ls);
      DoAllAppend(Kept(front), [op], d);
      assert [op][..0] == [] && Kept(front) + [] == Kept(front);
    } else {
      NothingLacks(d);
    }
  }

  lemma NothingLacks(d: Doc)
    ensures Lacks(d, d, {})
  {
  }

  /** Without the insertions of lines the result is the same exactly when every inserted line is deleted again. */
  lemma {:induction false} KeptIff(ops: seq<Op>, d: Doc)
    requires AllApply(ops, d) && OnlyLines(ops, Inserted(ops)) && LinesOnce(d, Inserted(ops))
    ensures Eq(DoAll(Kept(ops), d), DoAll(ops, d)) <==> Left(ops) == {}
  {
    hide Do, Applies, LinesOnce;
    KeptLacks(ops, d, Inserted(ops));
  }

  /** A group that is executed, undone and executed again makes the same document as the first time
      exactly when it leaves no line that it inserted. */
  method RedoGroup(b: BlockComposition, c: Cmd) returns (ghost once: Doc)
    requires c.Group? && Fresh(c) && AllApply(Ops(c), b.doc) && Undoable(Ops(c), DoAll(Ops(c), b.doc))
    requires OnlyLines(Ops(c), Inserted(Ops(c))) && LinesOnce(b.doc, Inserted(Ops(c)))
    modifies b`doc
    ensures once == DoAll(Ops(c), old(b.doc)) && b.commands == old(b.commands)
    ensures Eq(b.doc, once) <==> Left(Ops(c)) == {}
  {
    hide Ops, Runs, Executed, Undone, DoAll, RevertAll, AllApply, Undoable, OnlyLines, LinesOnce, Kept, Left, Fresh;
    ghost var start := b.doc;
    RedoRuns(c);
    ExecutedOps(c);
    var c1 := b.Execute(c);
    once := b.doc;
    UndoDoAll(Ops(c), start, once);
    var c2 := b.UnExecute(c1);
    DoAllEq(Kept(Ops(c)), b.doc, start);
    KeptIff(Ops(c), start);
    var c3 := b.Execute(c2);
  }

  /** A group with only the insertion of a line does nothing when it is executed again. */
  lemma LineIsLost(l: nat, d: Doc)
    requires l !in d.links
    ensures var c := Group([One(InsertLine(l), false)], false);
      l in DoAll(Runs(c), d).links && Runs(Undone(Executed(c))) == []
  {
    var c := Group([One(InsertLine(l), false)], false);
    var op := InsertLine(l);
    assert c.members[..0] == [] && [op][..0] == [];
    RedoRuns(c);
    assert Ops(c.members[0]) == [op] && OpsAll(c.members) == [] + [op];
    assert [] + [op] == [op] && Kept([op]) == [];
    assert DoAll([op], d) == Do(op, d);
  }
}
