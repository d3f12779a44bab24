/** Everything an editor does to a document: commands are added, undone and redone in any order. */
module Histories {
  import opened Editing

  datatype Edit = Add(c: Cmd) | Undo | Redo

  /* ---- which commands are in effect ---- */

  /** The commands that are in effect, and those that were undone and can be redone, the next one first. */
  datatype Plan = Plan(made: seq<seq<Op>>, unmade: seq<seq<Op>>) {
    function After(e: Edit): Plan {
      match e
      case Add(c) => Plan(made + [Ops(c)], [])
      case Undo => if made == [] then this else Plan(made[..|made| - 1], [made[|made| - 1]] + unmade)
      case Redo => if unmade == [] then this else Plan(made + [unmade[0]], unmade[1..])
    }
  }

  function PlanAfter(p: Plan, edits: seq<Edit>): Plan {
    if edits == [] then p else PlanAfter(p, edits[..|edits| - 1]).After(edits[|edits| - 1])
  }

  function Flat(made: seq<seq<Op>>): seq<Op> {
    if made == [] then [] else Flat(made[..|made| - 1]) + made[|made| - 1]
  }

  function PlanOf(h: History): Plan
    requires h.InRange()
  {
    var k := h.cc + 1;
    Plan(seq(k, i requires 0 <= i < k => Ops(h.commands[i])),
         seq(|h.commands| - k, i requires 0 <= i < |h.commands| - k => Ops(h.commands[k + i])))
  }

  /* ---- what the editor does ---- */

  function After(h: History, e: Edit): (now: History)
    requires h.InRange()
    ensures now.InRange()
  {
    match e
    case Add(c) => h.Added(c, true)
    case Undo => h.Unmade()
    case Redo => h.Remade()
  }

  function AfterAll(h: History, edits: seq<Edit>): (now: History)
    requires h.InRange()
    ensures now.InRange()
  {
    if edits == [] then h else After(AfterAll(h, edits[..|edits| - 1]), edits[|edits| - 1])
  }

  /** Executing and undoing a command changes its flags, not what it does. */
  lemma {:induction false} PlanStep(h: History, e: Edit)
    requires h.InRange()
    ensures PlanOf(After(h, e)) == PlanOf(h).After(e)
    ensures After(h, e).start == h.start
  {
    hide Ops, Executed, Undone, DoAll, RevertAll, Runs;
    match e
    case Add(c) => ExecutedOps(c);
    case Undo => if h.cc != -1 { UndoneIs(h.commands[h.cc]); }
    case Redo => if h.cc < |h.commands| - 1 { ExecutedOps(h.commands[h.cc + 1]); }
  }

  /** However commands are added, undone and redone, those in effect are the ones of the plan. */
  lemma {:induction false} PlanHolds(h: History, edits: seq<Edit>)
    requires h.InRange()
    ensures PlanOf(AfterAll(h, edits)) == PlanAfter(PlanOf(h), edits) && AfterAll(h, edits).start == h.start
  {
    hide PlanOf, After;
    if edits != [] {
      var n := |edits| - 1;
      PlanHolds(h, edits[..n]);
      PlanStep(AfterAll(h, edits[..n]), edits[n]);
    }
  }

  lemma {:induction false} FlatIs(h: History)
    requires h.InRange()
    ensures Flat(PlanOf(h).made) == OpsAll(h.commands[..h.cc + 1])
  {
    FlatCommands(h.commands[..h.cc + 1], PlanOf(h).made);
  }

  lemma {:induction false} FlatCommands(cs: seq<Cmd>, made: seq<seq<Op>>)
    requires |made| == |cs| && forall i :: 0 <= i < |cs| ==> made[i] == Ops(cs[i])
    ensures Flat(made) == OpsAll(cs)
  {
    if cs != [] { FlatCommands(cs[..|cs| - 1], made[..|made| - 1]); }
  }

  /* ---- when the document is what the commands make of the start ---- */

  /** A new command that can be applied to the document as it is. */
  ghost predicate Allowed(h: History, e: Edit) {
    e.Add? ==> (Clean(e.c) || OneInsertLine(e.c)) && AllApply(Ops(e.c), h.doc)
  }

  /** What is popped by undoing is what was inserted. */
  ghost predicate PopsInserted(h: History, e: Edit)
    requires h.InRange()
  {
    e.Undo? ==> h.CanPop()
  }

  /** Undoing the last command goes back through all the documents of the replay. */
  ghost predicate Retraces(h: History, e: Edit)
    requires h.InRange()
  {
    e.Undo? && h.cc != -1 ==> GoesBack(Ops(h.commands[h.cc]), DoAll(OpsAll(h.commands[..h.cc]), h.start), h.doc)
  }

  ghost predicate AllAllowed(h: History, edits: seq<Edit>)
    requires h.InRange()
  {
    forall i :: 0 <= i < |edits| ==> Allowed(AfterAll(h, edits[..i]), edits[i])
  }

  ghost predicate AllPop(h: History, edits: seq<Edit>)
    requires h.InRange()
  {
    forall i :: 0 <= i < |edits| ==> PopsInserted(AfterAll(h, edits[..i]), edits[i])
  }

  ghost predicate AllRetrace(h: History, edits: seq<Edit>)
    requires h.InRange()
  {
    forall i :: 0 <= i < |edits| ==> Retraces(AfterAll(h, edits[..i]), edits[i])
  }

  /** The three conditions for a run are those for the run without its last step, and for that step. */
  lemma {:induction false} Front(h: History, edits: seq<Edit>)
    requires h.InRange() && edits != []
    ensures var n := |edits| - 1; var front := edits[..n]; var before := AfterAll(h, front);
      && (AllAllowed(h, edits) <==> AllAllowed(h, front) && Allowed(before, edits[n]))
      && (AllPop(h, edits) <==> AllPop(h, front) && PopsInserted(before, edits[n]))
      && (AllRetrace(h, edits) <==> AllRetrace(h, front) && Retraces(before, edits[n]))
  {
    hide Allowed, PopsInserted, Retraces, AfterAll;
    var n := |edits| - 1;
    var front := edits[..n];
    assert forall i :: 0 <= i < n ==> front[..i] == edits[..i] && front[i] == edits[i];
  }

  /** On a consistent history, undoing retraces the replay exactly when it pops what was inserted. */
  lemma {:induction false} RetracesIff(h: History, e: Edit)
    requires h.Consistent([])
    ensures Retraces(h, e) <==> PopsInserted(h, e)
  {
    hide Ops, OpsAll, DoAll, AllApply, Eq, Undoable, GoesBack, Done, Clean;
    if e.Undo? && h.cc != -1 {
      CommandAt(h.commands, h.cc, h.start);
      DoNothing(h.Replayed());
      UndoStepsIff(Ops(h.commands[h.cc]), DoAll(OpsAll(h.commands[..h.cc]), h.start), h.doc);
    }
  }

  lemma {:induction false} StepKeeps(h: History, e: Edit)
    requires h.Consistent([]) && Allowed(h, e) && PopsInserted(h, e)
    ensures After(h, e).Consistent([])
  {
    hide Ops, OpsAll, DoAll, AllApply, Eq, Undoable, Done, Clean, Ready, Part;
    match e
    case Add(c) =>
      AllOfClean(c);
      NothingEarly(c);
      DoNothing(h.Replayed());
      DoAllEq(Ops(c), h.doc, h.Replayed());
      AddKeeps(h, c, true);
    case Undo => UndoKeeps(h);
    case Redo => RedoKeeps(h);
  }

  lemma NothingEarly(c: Cmd)
    requires Clean(c) || OneInsertLine(c)
    ensures c.One? || Part(c, true) == []
  {
    if Clean(c) { CleanReady(c); }
  }

  /** The document stays what the commands in effect make of the start, as long as undoing pops what was
      inserted; and only so long does every undoing retrace the replay. */
  lemma {:induction false} RunIff(h: History, edits: seq<Edit>)
    requires h.Consistent([]) && AllAllowed(h, edits)
    ensures AllRetrace(h, edits) <==> AllPop(h, edits)
    ensures AllPop(h, edits) ==> AfterAll(h, edits).Consistent([])
  {
    hide AllAllowed, AllPop, AllRetrace, Allowed, PopsInserted, Retraces, After;
    if edits == [] {
      EmptyRun(h);
    } else {
      var n := |edits| - 1;
      Front(h, edits);
      RunIff(h, edits[..n]);
      if AllPop(h, edits[..n]) {
        var before := AfterAll(h, edits[..n]);
        RetracesIff(before, edits[n]);
        if PopsInserted(before, edits[n]) { StepKeeps(before, edits[n]); }
      }
    }
  }

  lemma EmptyRun(h: History)
    requires h.InRange()
    ensures AllPop(h, []) && AllRetrace(h, [])
  {
  }

  /** Does the edits one after the other. In the end the document is what the commands in effect make of
      the document at the start, if every undoing pops what was inserted. */
  method Work(doc: Doc, edits: seq<Edit>) returns (b: BlockComposition)
    ensures fresh(b) && b.InRange() && b.H() == AfterAll(History(doc, doc, [], -1), edits)
    ensures PlanOf(b.H()) == PlanAfter(Plan([], []), edits)
    ensures var h := History(doc, doc, [], -1);
      AllAllowed(h, edits) && AllPop(h, edits) ==> Eq(b.doc, DoAll(Flat(PlanAfter(Plan([], []), edits).made), doc))
  {
    hide After, AllAllowed, AllPop, AllRetrace, PlanOf, DoAll, Eq;
    b := new BlockComposition(doc);
    ghost var h := b.H();
    for i := 0 to |edits|
      invariant fresh(b) && b.InRange() && b.H() == AfterAll(h, edits[..i])
    {
      assert edits[..i + 1][..i] == edits[..i];
      Step(b, edits[i]);
    }
    assert edits[..|edits|] == edits;
    PlanHolds(h, edits);
    NoPlan(h);
    FlatIs(b.H());
    if AllAllowed(h, edits) && AllPop(h, edits) {
      RunIff(h, edits);
      DoNothing(b.Replayed());
    }
  }

  method Step(b: BlockComposition, e: Edit)
    requires b.InRange()
    modifies b
    ensures b.InRange() && b.H() == After(old(b.H()), e)
  {
    if e.Add? {
      b.AddCommand(e.c, true);
    } else if e.Undo? {
      var _ := b.Undo();
    } else {
      b.Redo();
    }
  }

  lemma NoPlan(h: History)
    requires h.commands == [] && h.cc == -1
    ensures PlanOf(h) == Plan([], [])
  {
  }
}
