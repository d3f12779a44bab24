/** Commands of the editor: executing, undoing and redoing them. */
module Editing {

  /** The document: the list of elements, the lines that are connected, and the positions. */
  datatype Doc = Doc(elements: seq<nat>, links: set<nat>, at: map<nat, (real, real)>)

  /** The same document up to the order of its elements. */
  ghost predicate Eq(d: Doc, e: Doc) {
    multiset(d.elements) == multiset(e.elements) && d.links == e.links && d.at == e.at
  }

  /* ---- the list of elements ---- */

  /** The last place of an element, or -1. */
  function LastIndex(s: seq<nat>, e: nat): (i: int)
    ensures -1 <= i < |s|
    ensures i >= 0 ==> s[i] == e
    ensures i == -1 <==> e !in s
  {
    if s == [] then -1 else if s[|s| - 1] == e then |s| - 1 else LastIndex(s[..|s| - 1], e)
  }

  /** Erasing fills the gap with the last element. */
  function FastErase(s: seq<nat>, e: nat): seq<nat> {
    var i := LastIndex(s, e);
    if i == -1 then s else if i == |s| - 1 then s[..i] else s[i := s[|s| - 1]][..|s| - 1]
  }

  lemma {:induction false} EraseIs(s: seq<nat>, e: nat)
    ensures multiset(FastErase(s, e)) == multiset(s) - multiset{e}
  {
    hide LastIndex;
    var i, n := LastIndex(s, e), |s| - 1;
    if i != -1 {
      LastOff(s);
      if i < n { SwappedOut(s, i); }
    }
  }

  lemma LastOff(s: seq<nat>)
    requires s != []
    ensures multiset(s) == multiset(s[..|s| - 1]) + multiset{s[|s| - 1]}
  {
    assert s == s[..|s| - 1] + [s[|s| - 1]];
  }

  lemma SwappedOut(s: seq<nat>, i: nat)
    requires i < |s| - 1
    ensures var n := |s| - 1; multiset(s[i := s[n]][..n]) == multiset(s) - multiset{s[i]}
  {
    var n := |s| - 1;
    var t := s[i := s[n]];
    LastOff(t);
    assert multiset(t) == multiset(s) - multiset{s[i]} + multiset{s[n]};
    Cancel(multiset(t[..n]), multiset{s[n]}, multiset(s) - multiset{s[i]}, multiset{s[n]});
  }

  /** The elements without the last `n`. */
  function Pop(s: seq<nat>, n: nat): seq<nat> {
    if n <= |s| then s[..|s| - n] else []
  }

  /* ---- single commands ---- */

  datatype Op =
    | DeleteLine(l: nat) | InsertLine(l: nat)
    | DeleteBlock(b: nat) | InsertBlock(b: nat) | Paste(es: seq<nat>)
    | DeleteElement(e: nat) | InsertElement(e: nat)
    | Move(e: nat, dx: real, dy: real)

  function Shifted(at: map<nat, (real, real)>, e: nat, dx: real, dy: real): map<nat, (real, real)> {
    if e in at then at[e := (at[e].0 + dx, at[e].1 + dy)] else at
  }

  function Do(op: Op, d: Doc): Doc {
    match op
    case DeleteLine(l) => Doc(FastErase(d.elements, l), d.links - {l}, d.at)
    case InsertLine(l) => Doc(d.elements + [l], d.links + {l}, d.at)
    case DeleteBlock(b) => d.(elements := FastErase(d.elements, b))
    case InsertBlock(b) => d.(elements := d.elements + [b])
    case Paste(es) => d.(elements := d.elements + es)
    case DeleteElement(e) => d.(elements := FastErase(d.elements, e))
    case InsertElement(e) => d.(elements := d.elements + [e])
    case Move(e, dx, dy) => d.(at := Shifted(d.at, e, dx, dy))
  }

  /** Undoing an inserted block or a paste pops as many elements as were pushed, whatever they are. */
  function Revert(op: Op, d: Doc): Doc {
    match op
    case DeleteLine(l) => Doc(d.elements + [l], d.links + {l}, d.at)
    case InsertLine(l) => Doc(FastErase(d.elements, l), d.links - {l}, d.at)
    case DeleteBlock(b) => d.(elements := d.elements + [b])
    case InsertBlock(b) => d.(elements := Pop(d.elements, 1))
    case Paste(es) => d.(elements := Pop(d.elements, |es|))
    case DeleteElement(e) => d.(elements := d.elements + [e])
    case InsertElement(e) => d.(elements := FastErase(d.elements, e))
    case Move(e, dx, dy) => d.(at := Shifted(d.at, e, -dx, -dy))
  }

  /** Whether executing sets the command's flag, and undoing clears it. */
  predicate SetsFlag(op: Op) {
    op.DeleteLine? || op.DeleteBlock? || op.InsertBlock? || op.Paste?
  }

  /** The flag after executing and after undoing; the insertion of a line inherits both the wrong way round. */
  function FlagAfterDo(op: Op, executed: bool): bool {
    if SetsFlag(op) then true else if op.InsertLine? then false else executed
  }

  function FlagAfterRevert(op: Op, executed: bool): bool {
    if SetsFlag(op) then false else if op.InsertLine? then true else executed
  }

  predicate Pops(op: Op) { op.InsertBlock? || op.Paste? }

  function Pushed(op: Op): seq<nat>
    requires Pops(op)
  {
    if op.InsertBlock? then [op.b] else op.es
  }

  /** What the command is about is there, or is not there yet. */
  ghost predicate Applies(op: Op, d: Doc) {
    match op
    case DeleteLine(l) => l in multiset(d.elements) && l in d.links
    case InsertLine(l) => l !in d.links
    case DeleteBlock(b) => b in multiset(d.elements)
    case DeleteElement(e) => e in multiset(d.elements)
    case _ => true
  }

  lemma DoEq(op: Op, d: Doc, e: Doc)
    requires Eq(d, e)
    ensures Eq(Do(op, d), Do(op, e)) && (Applies(op, d) <==> Applies(op, e))
  {
    match op
    case DeleteLine(l) => EraseIs(d.elements, l); EraseIs(e.elements, l);
    case DeleteBlock(b) => EraseIs(d.elements, b); EraseIs(e.elements, b);
    case DeleteElement(x) => EraseIs(d.elements, x); EraseIs(e.elements, x);
    case _ =>
  }

  /** What executing a command does to the elements, the connected lines and the positions. */
  lemma DoIs(op: Op, d: Doc)
    ensures var e, was := Do(op, d), multiset(d.elements);
      && (op.DeleteLine? ==>
           multiset(e.elements) == was - multiset{op.l} && e.links == d.links - {op.l} && e.at == d.at)
      && (op.InsertLine? ==> e.elements == d.elements + [op.l] && e.links == d.links + {op.l} && e.at == d.at)
      && (op.DeleteBlock? ==> multiset(e.elements) == was - multiset{op.b} && e.links == d.links && e.at == d.at)
      && (op.DeleteElement? ==> multiset(e.elements) == was - multiset{op.e} && e.links == d.links && e.at == d.at)
      && (op.InsertBlock? ==> e.elements == d.elements + [op.b] && e.links == d.links && e.at == d.at)
      && (op.InsertElement? ==> e.elements == d.elements + [op.e] && e.links == d.links && e.at == d.at)
      && (op.Paste? ==> e.elements == d.elements + op.es && e.links == d.links && e.at == d.at)
      && (op.Move? ==> e.elements == d.elements && e.links == d.links && e.at.Keys == d.at.Keys)
      && (op.Move? ==> forall x :: x in d.at ==>
           e.at[x] == if x == op.e then (d.at[x].0 + op.dx, d.at[x].1 + op.dy) else d.at[x])
  {
    if op.DeleteLine? { EraseIs(d.elements, op.l); }
    if op.DeleteBlock? { EraseIs(d.elements, op.b); }
    if op.DeleteElement? { EraseIs(d.elements, op.e); }
  }

  lemma ShiftBack(at: map<nat, (real, real)>, e: nat, dx: real, dy: real)
    ensures Shifted(Shifted(at, e, dx, dy), e, -dx, -dy) == at
  {
    if e in at {
      assert at[e].0 + dx + -dx == at[e].0 && at[e].1 + dy + -dy == at[e].1;
    }
  }

  /** Pushing what was erased, and erasing what was pushed, gives back the same elements in some order. */
  lemma PushErased(s: seq<nat>, t: seq<nat>, e: nat)
    requires multiset(t) == multiset(FastErase(s, e)) && e in multiset(s)
    ensures multiset(t + [e]) == multiset(s)
  {
    EraseIs(s, e);
    assert multiset(s) - multiset{e} + multiset{e} == multiset(s);
  }

  lemma ErasePushed(s: seq<nat>, t: seq<nat>, e: nat)
    requires multiset(t) == multiset(s + [e])
    ensures multiset(FastErase(t, e)) == multiset(s)
  {
    EraseIs(t, e);
    assert multiset(s) + multiset{e} - multiset{e} == multiset(s);
  }

  /** A command that does not pop undoes what it did, also when the elements have changed their order since. */
  lemma {:induction false} UndoDo(op: Op, d: Doc, e: Doc)
    requires Applies(op, d) && Eq(e, Do(op, d)) && !Pops(op)
    ensures Eq(Revert(op, e), d)
  {
    hide FastErase, Shifted;
    match op
    case DeleteLine(l) => PushErased(d.elements, e.elements, l);
    case InsertLine(l) => ErasePushed(d.elements, e.elements, l);
    case DeleteBlock(b) => PushErased(d.elements, e.elements, b);
    case DeleteElement(x) => PushErased(d.elements, e.elements, x);
    case InsertElement(x) => ErasePushed(d.elements, e.elements, x);
    case Move(x, dx, dy) => ShiftBack(d.at, x, dx, dy);
  }

  /** The last elements are those the command pushed. */
  ghost predicate OnTop(op: Op, e: Doc)
    requires Pops(op)
  {
    var es := Pushed(op);
    |es| <= |e.elements| && multiset(e.elements[|e.elements| - |es|..]) == multiset(es)
  }

  /** Popping undoes an insertion exactly when what was inserted is still at the end of the list. */
  lemma UndoPopIff(op: Op, d: Doc, e: Doc)
    requires Pops(op) && Eq(e, Do(op, d))
    ensures Eq(Revert(op, e), d) <==> OnTop(op, e)
  {
    var es, s := Pushed(op), e.elements;
    assert multiset(s) == multiset(d.elements) + multiset(es);
    SameSize(s, d.elements + es);
    var front, top := s[..|s| - |es|], s[|s| - |es|..];
    assert s == front + top;
    Cancel(multiset(front), multiset(top), multiset(d.elements), multiset(es));
  }

  lemma Cancel(a: multiset<nat>, b: multiset<nat>, c: multiset<nat>, d: multiset<nat>)
    requires a + b == c + d
    ensures a == c <==> b == d
  {
    assert b == (a + b) - a && d == (c + d) - c;
    assert a == (a + b) - b && c == (c + d) - d;
  }

  lemma SameSize(s: seq<nat>, t: seq<nat>)
    requires multiset(s) == multiset(t)
    ensures |s| == |t|
  {
    assert |multiset(s)| == |s| && |multiset(t)| == |t|;
  }

  /** Insert a block, delete another element, undo both: the block stays, and the other element is lost. */
  lemma WrongPop(x: nat, y: nat, a: nat)
    requires x != a && x != y
    ensures var d := Doc([x, y], {}, map[]);
      var e := Revert(DeleteBlock(x), Do(DeleteBlock(x), Do(InsertBlock(a), d)));
      Eq(e, Do(InsertBlock(a), d)) && Revert(InsertBlock(a), e).elements == [a, y]
  {
    var d := Doc([x, y], {}, map[]);
    var e := Do(InsertBlock(a), d);
    assert e.elements == [x, y, a];
    assert [x, y, a][..2] == [x, y] && [x, y][..1] == [x];
    assert FastErase([x, y, a], x) == [a, y];
    UndoDo(DeleteBlock(x), e, Do(DeleteBlock(x), e));
  }

  /* ---- sequences of commands ---- */

  function DoAll(ops: seq<Op>, d: Doc): Doc {
    if ops == [] then d else Do(ops[|ops| - 1], DoAll(ops[..|ops| - 1], d))
  }

  /** Undoes the last one first. */
  function RevertAll(ops: seq<Op>, d: Doc): Doc
    decreases |ops|
  {
    if ops == [] then d else RevertAll(ops[..|ops| - 1], Revert(ops[|ops| - 1], d))
  }

  ghost predicate AllApply(ops: seq<Op>, d: Doc) {
    ops == [] || (AllApply(ops[..|ops| - 1], d) && Applies(ops[|ops| - 1], DoAll(ops[..|ops| - 1], d)))
  }

  predicate NoPops(ops: seq<Op>) {
    forall i :: 0 <= i < |ops| ==> !Pops(ops[i])
  }

  lemma {:induction false} DoAllAppend(a: seq<Op>, b: seq<Op>, d: Doc)
    ensures DoAll(a + b, d) == DoAll(b, DoAll(a, d))
    ensures AllApply(a + b, d) <==> AllApply(a, d) && AllApply(b, DoAll(a, d))
  {
    if b == [] {
      assert a + b == a;
    } else {
      var n := |b| - 1;
      DoAllAppend(a, b[..n], d);
      assert (a + b)[..|a + b| - 1] == a + b[..n];
    }
  }

  lemma {:induction false} RevertAllAppend(a: seq<Op>, b: seq<Op>, d: Doc)
    ensures RevertAll(a + b, d) == RevertAll(a, RevertAll(b, d))
    decreases |b|
  {
    if b == [] {
      assert a + b == a;
    } else {
      var n := |b| - 1;
      RevertAllAppend(a, b[..n], Revert(b[n], d));
      assert (a + b)[..|a + b| - 1] == a + b[..n];
    }
  }

  lemma {:induction false} DoAllEq(ops: seq<Op>, d: Doc, e: Doc)
    requires Eq(d, e)
    ensures Eq(DoAll(ops, d), DoAll(ops, e)) && (AllApply(ops, d) <==> AllApply(ops, e))
  {
    if ops != [] {
      var n := |ops| - 1;
      DoAllEq(ops[..n], d, e);
      DoEq(ops[n], DoAll(ops[..n], d), DoAll(ops[..n], e));
    }
  }

  /** Undoing the sequence, the last command first: whatever a command pops is still at the end of the
      list when its turn comes. */
  ghost predicate Undoable(ops: seq<Op>, e: Doc)
    decreases |ops|
  {
    ops == [] || (
      var n := |ops| - 1;
      (Pops(ops[n]) ==> OnTop(ops[n], e)) && Undoable(ops[..n], Revert(ops[n], e)))
  }

  lemma {:induction false} NoPopsUndoable(ops: seq<Op>, e: Doc)
    requires NoPops(ops)
    ensures Undoable(ops, e)
    decreases |ops|
  {
    if ops != [] { NoPopsUndoable(ops[..|ops| - 1], Revert(ops[|ops| - 1], e)); }
  }

  /** A single command undoes what it did exactly when it does not pop something else. */
  lemma UndoStepIff(op: Op, d: Doc, e: Doc)
    requires Applies(op, d) && Eq(e, Do(op, d))
    ensures Eq(Revert(op, e), d) <==> (Pops(op) ==> OnTop(op, e))
  {
    if Pops(op) { UndoPopIff(op, d, e); } else { UndoDo(op, d, e); }
  }

  lemma {:induction false} UndoDoAll(ops: seq<Op>, d: Doc, e: Doc)
    requires AllApply(ops, d) && Eq(e, DoAll(ops, d)) && Undoable(ops, e)
    ensures Eq(RevertAll(ops, e), d)
    decreases |ops|
  {
    if ops != [] {
      hide Do, Revert, Applies, Eq, OnTop;
      var n := |ops| - 1;
      UndoStepIff(ops[n], DoAll(ops[..n], d), e);
      UndoDoAll(ops[..n], d, Revert(ops[n], e));
    }
  }

  /** Undoing command by command goes back through all the documents of the replay. */
  ghost predicate GoesBack(ops: seq<Op>, d: Doc, e: Doc) {
    forall k :: 0 <= k <= |ops| ==> Eq(RevertAll(ops[k..], e), DoAll(ops[..k], d))
  }

  lemma {:induction false} GoesBackNext(ops: seq<Op>, d: Doc, e: Doc)
    requires ops != [] && Eq(e, DoAll(ops, d))
    ensures var n := |ops| - 1; GoesBack(ops, d, e) <==> GoesBack(ops[..n], d, Revert(ops[n], e))
  {
    hide Do, Revert, Eq;
    var n := |ops| - 1;
    var front, e1 := ops[..n], Revert(ops[n], e);
    assert ops[..|ops|] == ops && ops[|ops|..] == [];
    forall k | 0 <= k <= n
      ensures RevertAll(ops[k..], e) == RevertAll(front[k..], e1) && DoAll(ops[..k], d) == DoAll(front[..k], d)
    {
      assert ops[k..][..n - k] == front[k..] && ops[k..][n - k] == ops[n] && front[..k] == ops[..k];
    }
  }

  /** This is so exactly when the sequence is undoable. */
  lemma {:induction false} UndoStepsIff(ops: seq<Op>, d: Doc, e: Doc)
    requires AllApply(ops, d) && Eq(e, DoAll(ops, d))
    ensures Undoable(ops, e) <==> GoesBack(ops, d, e)
    decreases |ops|
  {
    hide Do, Revert, Applies, Eq, OnTop;
    if ops != [] {
      var n := |ops| - 1;
      var front, e1 := ops[..n], Revert(ops[n], e);
      UndoStepIff(ops[n], DoAll(front, d), e);
      GoesBackNext(ops, d, e);
      if Eq(e1, DoAll(front, d)) {
        UndoStepsIff(front, d, e1);
      } else if GoesBack(front, d, e1) {
        GoesBackFirst(front, d, e1);
      }
    } else {
      assert ops[..0] == ops == ops[0..];
    }
  }

  lemma GoesBackFirst(ops: seq<Op>, d: Doc, e: Doc)
    requires GoesBack(ops, d, e)
    ensures Eq(e, DoAll(ops, d))
  {
    assert ops[..|ops|] == ops && ops[|ops|..] == [];
  }

  /* ---- deletions in any order ---- */

  predicate Deletes(op: Op) { op.DeleteLine? || op.DeleteBlock? || op.DeleteElement? }

  ghost predicate AllDelete(ops: seq<Op>) {
    forall i :: 0 <= i < |ops| ==> Deletes(ops[i])
  }

  function Target(op: Op): nat
    requires Deletes(op)
  {
    match op
    case DeleteLine(l) => l
    case DeleteBlock(b) => b
    case DeleteElement(e) => e
  }

  ghost function Targets(ops: seq<Op>): multiset<nat>
    requires AllDelete(ops)
  {
    if ops == [] then multiset{} else Targets(ops[..|ops| - 1]) + multiset{Target(ops[|ops| - 1])}
  }

  ghost function Lines(ops: seq<Op>): set<nat> {
    set i | 0 <= i < |ops| && ops[i].DeleteLine? :: ops[i].l
  }

  lemma DeleteIs(op: Op, d: Doc)
    requires Deletes(op)
    ensures var e := Do(op, d);
      multiset(e.elements) == multiset(d.elements) - multiset{Target(op)} && e.links == d.links - Lines([op])
        && e.at == d.at
  {
    EraseIs(d.elements, Target(op));
    assert [op][0] == op;
  }

  lemma MinusTwice(m: multiset<nat>, a: multiset<nat>, b: multiset<nat>)
    ensures m - a - b == m - (a + b)
  {
  }

  lemma {:induction false} LastDelete(ops: seq<Op>, d: Doc)
    requires ops != [] && AllDelete(ops)
    ensures var n := |ops| - 1; var e, e' := DoAll(ops[..n], d), DoAll(ops, d);
      && multiset(e'.elements) == multiset(e.elements) - multiset{Target(ops[n])} && e'.at == e.at
      && e'.links == e.links - Lines([ops[n]]) && Lines(ops) == Lines(ops[..n]) + Lines([ops[n]])
      && Targets(ops) == Targets(ops[..n]) + multiset{Target(ops[n])}
  {
    hide Do, Lines;
    var n := |ops| - 1;
    DeleteIs(ops[n], DoAll(ops[..n], d));
    assert ops[..n] + [ops[n]] == ops;
    LinesAppend(ops[..n], [ops[n]]);
  }

  lemma {:induction false} DeletesAre(ops: seq<Op>, d: Doc)
    requires AllDelete(ops)
    ensures var e := DoAll(ops, d);
      multiset(e.elements) == multiset(d.elements) - Targets(ops) && e.links == d.links - Lines(ops) && e.at == d.at
  {
    if ops != [] {
      hide Do, Lines, Targets, DoAll;
      var n := |ops| - 1;
      DeletesAre(ops[..n], d);
      LastDelete(ops, d);
      MinusTwice(multiset(d.elements), Targets(ops[..n]), multiset{Target(ops[n])});
    } else {
      assert Lines(ops) == {};
    }
  }

  lemma LinesAppend(a: seq<Op>, b: seq<Op>)
    ensures Lines(a + b) == Lines(a) + Lines(b)
  {
    var ab := a + b;
    assert forall i :: 0 <= i < |a| ==> ab[i] == a[i];
    assert forall i :: 0 <= i < |b| ==> ab[|a| + i] == b[i];
  }

  lemma BothDelete(a: seq<Op>, b: seq<Op>)
    ensures AllDelete(a + b) <==> AllDelete(a) && AllDelete(b)
  {
    var ab := a + b;
    assert forall i :: 0 <= i < |a| ==> ab[i] == a[i];
    assert forall i :: 0 <= i < |b| ==> ab[|a| + i] == b[i];
  }

  lemma {:induction false} TargetsAppend(a: seq<Op>, b: seq<Op>)
    requires AllDelete(a) && AllDelete(b)
    ensures AllDelete(a + b) && Targets(a + b) == Targets(a) + Targets(b)
  {
    BothDelete(a, b);
    if b == [] {
      assert a + b == a;
    } else {
      var n := |b| - 1;
      TargetsAppend(a, b[..n]);
      assert (a + b)[..|a + b| - 1] == a + b[..n] && (a + b)[|a + b| - 1] == b[n];
    }
  }

  /* ---- commands and groups ---- */

  datatype Cmd = One(op: Op, executed: bool) | Group(members: seq<Cmd>, executed: bool)

  function Ops(c: Cmd): seq<Op>
    decreases c
  {
    match c
    case One(op, _) => [op]
    case Group(cs, _) => OpsAll(cs)
  }

  function OpsAll(cs: seq<Cmd>): seq<Op>
    decreases cs
  {
    if cs == [] then [] else OpsAll(cs[..|cs| - 1]) + Ops(cs[|cs| - 1])
  }

  /** What of a command that is not executed as a whole has been executed, or is still to be executed. */
  function Part(c: Cmd, done: bool): seq<Op>
    decreases c
  {
    match c
    case One(op, executed) => if executed == done then [op] else []
    case Group(cs, _) => PartAll(cs, done)
  }

  function PartAll(cs: seq<Cmd>, done: bool): seq<Op>
    decreases cs
  {
    if cs == [] then [] else PartAll(cs[..|cs| - 1], done) + Part(cs[|cs| - 1], done)
  }

  /** A command that is about to be executed: members that were executed before have marked themselves.
      The insertion of a line marks itself the other way round, so it is no member of a group. */
  ghost predicate Ready(c: Cmd)
    decreases c
  {
    match c
    case One(op, executed) => !op.InsertLine? && (executed ==> SetsFlag(op))
    case Group(cs, executed) => !executed && forall i :: 0 <= i < |cs| ==> Ready(cs[i])
  }

  /** What executing a command does: the members of a group that are marked as executed are skipped. */
  function Runs(c: Cmd): seq<Op>
    decreases c
  {
    match c
    case One(op, _) => [op]
    case Group(cs, _) => RunsAll(cs)
  }

  function RunsAll(cs: seq<Cmd>): seq<Op>
    decreases cs
  {
    if cs == [] then []
    else RunsAll(cs[..|cs| - 1]) + if cs[|cs| - 1].executed then [] else Runs(cs[|cs| - 1])
  }

  /** The command with its flags after it was executed. */
  function Executed(c: Cmd): Cmd
    decreases c
  {
    match c
    case One(op, executed) => One(op, FlagAfterDo(op, executed))
    case Group(cs, _) => Group(ExecutedAll(cs), true)
  }

  function ExecutedAll(cs: seq<Cmd>): (rs: seq<Cmd>)
    ensures |rs| == |cs|
    decreases cs
  {
    if cs == [] then []
    else ExecutedAll(cs[..|cs| - 1]) + [if cs[|cs| - 1].executed then cs[|cs| - 1] else Executed(cs[|cs| - 1])]
  }

  /** The command with its flags after it was undone. */
  function Undone(c: Cmd): Cmd
    decreases c
  {
    match c
    case One(op, executed) => One(op, FlagAfterRevert(op, executed))
    case Group(cs, _) => Group(UndoneAll(cs), false)
  }

  function UndoneAll(cs: seq<Cmd>): (rs: seq<Cmd>)
    ensures |rs| == |cs|
    decreases cs
  {
    if cs == [] then [] else UndoneAll(cs[..|cs| - 1]) + [Undone(cs[|cs| - 1])]
  }

  ghost predicate Clean(c: Cmd)
    decreases c
  {
    match c
    case One(op, executed) => !op.InsertLine? && !executed
    case Group(cs, executed) => !executed && forall i :: 0 <= i < |cs| ==> Clean(cs[i])
  }

  ghost predicate Done(c: Cmd)
    decreases c
  {
    match c
    case One(op, executed) => !op.InsertLine? && (executed ==> SetsFlag(op))
    case Group(cs, _) => forall i :: 0 <= i < |cs| ==> Done(cs[i])
  }

  lemma {:induction false} CleanReady(c: Cmd)
    requires Clean(c)
    ensures Ready(c) && Part(c, true) == [] && Part(c, false) == Ops(c)
    decreases c
  {
    if c.Group? {
      forall i | 0 <= i < |c.members| ensures Ready(c.members[i]) { CleanReady(c.members[i]); }
      CleanAll(c.members);
    }
  }

  lemma {:induction false} CleanAll(cs: seq<Cmd>)
    requires forall i :: 0 <= i < |cs| ==> Clean(cs[i])
    ensures PartAll(cs, true) == [] && PartAll(cs, false) == OpsAll(cs)
    decreases cs
  {
    if cs != [] {
      CleanAll(cs[..|cs| - 1]);
      CleanReady(cs[|cs| - 1]);
    }
  }

  /** What was executed before and what is executed now make up the whole, when all of it deletes. */
  lemma {:induction false} PartsMakeWhole(c: Cmd)
    requires AllDelete(Ops(c))
    ensures AllDelete(Part(c, true) + Part(c, false))
    ensures Targets(Part(c, true) + Part(c, false)) == Targets(Ops(c))
    ensures Lines(Part(c, true) + Part(c, false)) == Lines(Ops(c))
    decreases c
  {
    match c
    case One(op, executed) => assert Part(c, true) + Part(c, false) == [op];
    case Group(cs, _) => PartsMakeAll(cs);
  }

  lemma {:induction false} PartsMakeAll(cs: seq<Cmd>)
    requires AllDelete(OpsAll(cs))
    ensures AllDelete(PartAll(cs, true) + PartAll(cs, false))
    ensures Targets(PartAll(cs, true) + PartAll(cs, false)) == Targets(OpsAll(cs))
    ensures Lines(PartAll(cs, true) + PartAll(cs, false)) == Lines(OpsAll(cs))
    decreases cs
  {
    if cs != [] {
      var n := |cs| - 1;
      BothDelete(OpsAll(cs[..n]), Ops(cs[n]));
      PartsMakeAll(cs[..n]);
      PartsMakeWhole(cs[n]);
      TargetsAppend(OpsAll(cs[..n]), Ops(cs[n]));
      LinesAppend(OpsAll(cs[..n]), Ops(cs[n]));
      Regroup(PartAll(cs[..n], true), PartAll(cs[..n], false), Part(cs[n], true), Part(cs[n], false));
    }
  }

  lemma {:induction false} Regroup(a: seq<Op>, b: seq<Op>, c: seq<Op>, d: seq<Op>)
    requires AllDelete(a + b) && AllDelete(c + d)
    ensures AllDelete((a + c) + (b + d)) && Targets((a + c) + (b + d)) == Targets(a + b) + Targets(c + d)
    ensures Lines((a + c) + (b + d)) == Lines(a + b) + Lines(c + d)
  {
    hide AllDelete, Targets, Lines;
    BothDelete(a, b); BothDelete(c, d);
    TargetsAppend(a, b); TargetsAppend(c, d); TargetsAppend(a, c); TargetsAppend(b, d); TargetsAppend(a + c, b + d);
    LinesAppend(a, b); LinesAppend(c, d); LinesAppend(a, c); LinesAppend(b, d); LinesAppend(a + c, b + d);
  }

  /** Executing the rest of a command after some of it leads where executing all of it leads. */
  lemma RestDone(c: Cmd, d: Doc)
    requires AllDelete(Ops(c))
    ensures Eq(DoAll(Part(c, false), DoAll(Part(c, true), d)), DoAll(Ops(c), d))
  {
    PartsMakeWhole(c);
    DoAllAppend(Part(c, true), Part(c, false), d);
    DeletesAre(Part(c, true) + Part(c, false), d);
    DeletesAre(Ops(c), d);
  }

  /* ---- the editor ---- */

  /** The insertion of a line keeps its flag the wrong way round, which does not matter by itself. */
  ghost predicate OneInsertLine(c: Cmd) { c.One? && c.op.InsertLine? }

  /** The document, the commands with the last one that is in effect, and the document before the first one. */
  datatype History = History(start: Doc, doc: Doc, commands: seq<Cmd>, cc: int) {
    predicate InRange() { -1 <= cc < |commands| }

    ghost predicate Valid() {
      && InRange()
      && (forall i :: 0 <= i <= cc ==> Done(commands[i]) || OneInsertLine(commands[i]))
      && (forall i :: cc < i < |commands| ==> Clean(commands[i]) || OneInsertLine(commands[i]))
      && AllApply(OpsAll(commands), start)
    }

    /** The document after the first `cc + 1` commands, replayed from the start. */
    ghost function Replayed(): Doc
      requires InRange()
    {
      DoAll(OpsAll(commands[..cc + 1]), start)
    }

    /** The document is what the commands make of it, and what `ahead` has already done to it. */
    ghost predicate Consistent(ahead: seq<Op>) {
      Valid() && Eq(doc, DoAll(ahead, Replayed()))
    }

    /** The command fits: it can be applied, and what of it was executed before are deletions, or it was
        executed as a whole and is only noted down. */
    ghost predicate CanAdd(c: Cmd, execute: bool) {
      && Valid() && AllApply(Ops(c), Replayed())
      && if execute then
           && (Ready(c) || OneInsertLine(c)) && (c.One? ==> !c.executed || c.op.InsertLine?)
           && Consistent(if c.One? then [] else Part(c, true))
           && (c.One? || Part(c, true) == [] || AllDelete(Ops(c)))
         else Done(c) && Consistent(Ops(c))
    }

    /** What the last command pops when it is undone is what it inserted. */
    ghost predicate CanPop()
      requires InRange()
    {
      cc == -1 || Undoable(Ops(commands[cc]), doc)
    }

    function Added(c: Cmd, execute: bool): (h: History)
      requires InRange()
      ensures h.InRange()
    {
      History(start, if execute then DoAll(Runs(c), doc) else doc,
              commands[..cc + 1] + [if execute then Executed(c) else c], cc + 1)
    }

    function Unmade(): (h: History)
      requires InRange()
      ensures h.InRange() && |h.commands| == |commands|
    {
      if cc == -1 then this
      else History(start, RevertAll(Ops(commands[cc]), doc), commands[cc := Undone(commands[cc])], cc - 1)
    }

    function Remade(): (h: History)
      requires InRange()
      ensures h.InRange() && |h.commands| == |commands|
    {
      if cc == |commands| - 1 then this
      else History(start, DoAll(Runs(commands[cc + 1]), doc), commands[cc + 1 := Executed(commands[cc + 1])], cc + 1)
    }
  }

  /** A command that fits leaves the history consistent: in the end all of it has been done exactly once. */
  lemma {:induction false} AddKeeps(h: History, c: Cmd, execute: bool)
    requires h.CanAdd(c, execute)
    ensures var now := h.Added(c, execute);
      now.Consistent([]) && Ops(now.commands[now.cc]) == Ops(c) && Eq(now.doc, DoAll(Ops(c), h.Replayed()))
  {
    hide OpsAll, DoAll, Eq, AllApply, Ops, Done, Clean, Ready, Part;
    var before, olds, r := h.Replayed(), h.commands[..h.cc + 1], if execute then Executed(c) else c;
    OpsAllPrefix(h.commands, h.cc + 1, h.start);
    if execute {
      RestOf(c, before, h.doc);
      ExecutedIs(c);
    }
    var now := h.Added(c, execute);
    LastOf(olds, r, h.start);
    assert now.commands[..now.cc] == olds && now.commands[..now.cc + 1] == now.commands;
    DoNothing(now.Replayed());
  }

  /** Undoing leaves a consistent history consistent if the last command pops what it inserted; for a single
      command only then. */
  lemma {:induction false} UndoKeeps(h: History)
    requires h.Valid()
    ensures h.Unmade().Valid() && (h.Consistent([]) && h.CanPop() ==> h.Unmade().Consistent([]))
    ensures h.cc != -1 && h.commands[h.cc].One? && h.Consistent([]) && !h.CanPop() ==> !h.Unmade().Consistent([])
  {
    hide OpsAll, DoAll, Eq, AllApply, Ops, Done, Clean, RevertAll, Undoable;
    if h.cc != -1 {
      var olds, k, u := h.commands, h.cc, Undone(h.commands[h.cc]);
      CommandAt(olds, k, h.start);
      DoNothing(DoAll(OpsAll(olds[..k]), h.start));
      DoNothing(DoAll(OpsAll(olds[..k + 1]), h.start));
      if h.Consistent([]) { RevertOne(olds[k], DoAll(OpsAll(olds[..k]), h.start), h.doc); }
      UndoneIs(olds[k]);
      Replaced(olds, k, u, k);
      Replaced(olds, k, u, |olds|);
      assert olds[k := u][..|olds|] == olds[k := u] && olds[..|olds|] == olds;
    }
  }

  lemma {:induction false} RedoKeeps(h: History)
    requires h.Consistent([])
    ensures h.Remade().Consistent([])
  {
    hide OpsAll, DoAll, Eq, AllApply, Ops, Done, Clean, Ready, Part;
    if h.cc < |h.commands| - 1 {
      var olds, k, x := h.commands, h.cc + 1, Executed(h.commands[h.cc + 1]);
      CommandAt(olds, k, h.start);
      DoNothing(DoAll(OpsAll(olds[..k]), h.start));
      AllOfClean(olds[k]);
      DoAllEq(Ops(olds[k]), h.doc, DoAll(OpsAll(olds[..k]), h.start));
      ExecutedIs(olds[k]);
      Replaced(olds, k, x, k + 1);
      Replaced(olds, k, x, |olds|);
      assert olds[k := x][..|olds|] == olds[k := x] && olds[..|olds|] == olds;
      DoNothing(DoAll(OpsAll(olds[k := x][..k + 1]), h.start));
    }
  }

  /** Undoing all commands of a consistent history leads back to its start, if it can be undone. */
  lemma {:induction false} BackToStart(h: History)
    requires h.Consistent([]) && Undoable(OpsAll(h.commands[..h.cc + 1]), h.doc)
    ensures Eq(RevertAll(OpsAll(h.commands[..h.cc + 1]), h.doc), h.start)
  {
    hide DoAll, Eq, AllApply, Ops, OpsAll, Done, Clean, RevertAll, Undoable;
    DoNothing(h.Replayed());
    OpsAllPrefix(h.commands, h.cc + 1, h.start);
    UndoDoAll(OpsAll(h.commands[..h.cc + 1]), h.start, h.doc);
  }

  class BlockComposition {
    var doc: Doc
    var commands: seq<Cmd>
    /** The last command that is in effect. */
    var cc: int
    /** The document before the first command. */
    ghost var start: Doc

    constructor (doc: Doc)
      ensures Valid() && Consistent([]) && this.doc == doc && start == doc && commands == [] && cc == -1
    {
      this.doc, start, commands, cc := doc, doc, [], -1;
    }

    ghost function H(): History
      reads this
    {
      History(start, doc, commands, cc)
    }

    predicate InRange()
      reads this`cc, this`commands
    {
      -1 <= cc < |commands|
    }

    ghost predicate Valid()
      reads this
    {
      H().Valid()
    }

    ghost function Replayed(): Doc
      requires InRange()
      reads this
    {
      H().Replayed()
    }

    ghost predicate Consistent(ahead: seq<Op>)
      reads this
    {
      H().Consistent(ahead)
    }

    method Execute(c: Cmd) returns (r: Cmd)
      modifies this`doc
      ensures doc == DoAll(Runs(c), old(doc)) && r == Executed(c)
      decreases c
    {
      if c.One? {
        assert [c.op][..0] == [];
        doc := Do(c.op, doc);
        r := One(c.op, FlagAfterDo(c.op, c.executed));
      } else {
        var rs := [];
        for i := 0 to |c.members|
          invariant rs == ExecutedAll(c.members[..i])
          invariant doc == DoAll(RunsAll(c.members[..i]), old(doc))
        {
          var m := c.members[i];
          assert c.members[..i + 1][..i] == c.members[..i];
          if m.executed {
            assert RunsAll(c.members[..i]) + [] == RunsAll(c.members[..i]);
            rs := rs + [m];
          } else {
            var r' := Execute(m);
            DoAllAppend(RunsAll(c.members[..i]), Runs(m), old(doc));
            rs := rs + [r'];
          }
        }
        assert c.members[..|c.members|] == c.members;
        r := Group(rs, true);
      }
    }

    method UnExecute(c: Cmd) returns (r: Cmd)
      modifies this`doc
      ensures doc == RevertAll(Ops(c), old(doc)) && r == Undone(c)
      decreases c
    {
      if c.One? {
        assert [c.op][..0] == [];
        doc := Revert(c.op, doc);
        r := One(c.op, FlagAfterRevert(c.op, c.executed));
      } else {
        var rs := UnExecuteMembers(c.members);
        r := Group(rs, false);
      }
    }

    /** The last member first. */
    method UnExecuteMembers(cs: seq<Cmd>) returns (rs: seq<Cmd>)
      modifies this`doc
      ensures doc == RevertAll(OpsAll(cs), old(doc)) && rs == UndoneAll(cs)
      decreases cs
    {
      hide RevertAll, Revert, OpsAll, Ops;
      rs := [];
      var i := |cs|;
      assert cs[..i] == cs;
      RevertNothing(doc);
      while i > 0
        invariant 0 <= i <= |cs|
        invariant UndoneAll(cs) == UndoneAll(cs[..i]) + rs
        invariant RevertAll(OpsAll(cs[..i]), doc) == RevertAll(OpsAll(cs), old(doc))
      {
        i := i - 1;
        MemberBehind(cs, i);
        RevertAllAppend(OpsAll(cs[..i]), Ops(cs[i]), doc);
        var r := UnExecute(cs[i]);
        assert cs[..i + 1][..i] == cs[..i];
        assert UndoneAll(cs) == UndoneAll(cs[..i]) + ([r] + rs);
        rs := [r] + rs;
      }
      RevertNothing(doc);
    }

    /** Adds a command behind those in effect; later ones are forgotten. Members of it that were executed
        before count as executed. */
    method AddCommand(c: Cmd, execute: bool)
      requires InRange()
      modifies this
      ensures H() == old(H()).Added(c, execute)
      ensures old(H()).CanAdd(c, execute) ==>
        Consistent([]) && Ops(commands[cc]) == Ops(c) && Eq(doc, DoAll(Ops(c), old(Replayed())))
    {
      hide DoAll, Runs, Executed;
      ghost var h := H();
      if h.CanAdd(c, execute) { AddKeeps(h, c, execute); }
      if cc != |commands| - 1 {
        commands := commands[..cc + 1];
      }
      assert commands == h.commands[..cc + 1];
      var r := c;
      if execute {
        r := Execute(c);
      }
      commands := commands + [r];
      cc := |commands| - 1;
    }

    predicate IsUndoCommands()
      reads this
    {
      cc != -1
    }

    /** Undoes the last command. The document is again what the others make of the start, unless the
        command pops something else than it inserted. */
    method Undo() returns (r: int)
      requires InRange()
      modifies this
      ensures r == cc && H() == old(H()).Unmade()
      ensures old(Valid()) ==> Valid() && (old(Consistent([]) && H().CanPop()) ==> Consistent([]))
      ensures old(cc != -1 && commands[cc].One? && Consistent([]) && !H().CanPop()) ==> !Consistent([])
    {
      hide RevertAll, Undone, Ops;
      ghost var h := H();
      if h.Valid() { UndoKeeps(h); }
      if IsUndoCommands() {
        var u := UnExecute(commands[cc]);
        commands := commands[cc := u];
        cc := cc - 1;
      }
      r := cc;
    }

    /** Executes the next command again. */
    method Redo()
      requires InRange()
      modifies this
      ensures H() == old(H()).Remade()
      ensures old(Consistent([])) ==> Consistent([])
    {
      hide DoAll, Executed, Runs;
      ghost var h := H();
      if h.Consistent([]) { RedoKeeps(h); }
      if cc < |commands| - 1 && |commands| != 0 {
        cc := cc + 1;
        var x := Execute(commands[cc]);
        commands := commands[cc := x];
      }
    }

    /** Nothing can be undone any more. */
    method PermanentExecuteCommands()
      requires Consistent([])
      modifies this
      ensures Consistent([]) && doc == old(doc) && commands == [] && !IsUndoCommands()
    {
      commands := [];
      cc := -1;
      start := doc;
    }

    /** Undoing everything restores the document from the start, when whatever is popped on the way is
        still at the end of the list. */
    method UndoEverything()
      requires InRange()
      modifies this
      ensures cc == -1 && start == old(start) && doc == RevertAll(OpsAll(old(commands)[..old(cc) + 1]), old(doc))
      ensures old(Consistent([]) && Undoable(OpsAll(commands[..cc + 1]), doc)) ==> Eq(doc, start)
    {
      hide DoAll, Eq, AllApply, Ops, OpsAll, Done, Clean, RevertAll, Undoable, Undone, History.Valid,
        History.Consistent;
      ghost var cs, all := commands, OpsAll(commands[..cc + 1]);
      if Consistent([]) && Undoable(all, doc) { BackToStart(H()); }
      assert cs[..cc + 1] == commands[..cc + 1];
      while IsUndoCommands()
        invariant InRange() && start == old(start) && cc < |cs| == |commands|
        invariant forall i :: 0 <= i < |cs| ==> Ops(commands[i]) == Ops(cs[i])
        invariant RevertAll(OpsAll(cs[..cc + 1]), doc) == RevertAll(all, old(doc))
        decreases cc
      {
        MemberBehind(cs, cc);
        RevertAllAppend(OpsAll(cs[..cc]), Ops(cs[cc]), doc);
        UndoneIs(commands[cc]);
        var _ := Undo();
      }
      assert cs[..0] == [];
      RevertNothing(doc);
    }

    /** Executes the deletion of a line at once, and returns the command, which has marked itself. */
    method DeleteNow(l: nat) returns (r: Cmd)
      modifies this`doc
      ensures doc == Do(DeleteLine(l), old(doc)) && r == One(DeleteLine(l), true)
    {
      doc := Do(DeleteLine(l), doc);
      r := One(DeleteLine(l), true);
    }

    /** Deletes the lines that are connected to a block, one by one; the block itself is left for later. */
    method DeleteBlockLines(b: nat, ends: nat -> set<nat>, ghost g: Gathering)
      returns (inner: seq<Cmd>, ghost g': Gathering)
      requires g.Valid() && doc == g.now
      modifies this`doc
      ensures g'.Valid() && doc == g'.now && (forall i :: 0 <= i < |inner| ==> Ready(inner[i]))
      ensures g' == g.(ms := g.ms + inner, lines := g.lines + (set l | l in g.old_.links && b in ends(l)), now := doc)
    {
      hide Gathered, WellFormed, Do, DoAll, Eq, OpsAll, Ops, AllApply, AllDelete, Gathering.Valid, Ready;
      inner, g' := [], g;
      assert g.ms + inner == g.ms;
      var attached := set l | l in doc.links && b in ends(l);
      g.LinksLeft();
      while attached != {}
        invariant g'.Valid() && doc == g'.now && (forall i :: 0 <= i < |inner| ==> Ready(inner[i]))
        invariant g' == g.(ms := g.ms + inner, lines := g'.lines, now := doc) && doc.links == g.old_.links - g'.lines
        invariant attached == (set l | l in doc.links && b in ends(l))
        invariant g.lines <= g'.lines <= g.lines + set l | l in g.old_.links && b in ends(l)
        decreases attached
      {
        var l :| l in attached;
        var c;
        c, g' := DeleteGathered(l, g');
        assert g.ms + (inner + [c]) == g.ms + inner + [c];
        inner := inner + [c];
        assert (set x | x in doc.links && b in ends(x)) == attached - {l};
        attached := set x | x in doc.links && b in ends(x);
      }
      assert forall l :: l in doc.links && b in ends(l) ==> l in attached;
      NoneAttached(doc.links, g.old_.links, g.lines, g'.lines, set l | l in g.old_.links && b in ends(l));
    }

    method DeleteGathered(l: nat, ghost g: Gathering) returns (c: Cmd, ghost g': Gathering)
      requires g.Valid() && doc == g.now && l in doc.links
      modifies this`doc
      ensures Ready(c) && g'.Valid() && doc == g'.now && doc.links == old(doc).links - {l}
      ensures g' == g.(ms := g.ms + [c], lines := g.lines + {l}, now := doc) && doc.links == g.old_.links - g'.lines
    {
      hide Gathered, WellFormed, DoAll, Eq, OpsAll, Ops, AllApply, AllDelete, Gathering.Valid;
      c := DeleteNow(l);
      g.LinksLeft();
      g.Line(l);
      g' := g.(ms := g.ms + [c], lines := g.lines + {l}, now := doc);
      g'.LinksLeft();
    }

    /** Deletes the selected lines, then the selected blocks with all lines connected to them, as one
        command: lines go at once, blocks when the command is added. */
    method DeleteSelectedElements(lines: seq<nat>, blocks: seq<nat>, ends: nat -> set<nat>)
      requires Consistent([]) && WellFormed(doc, blocks)
      requires (forall i :: 0 <= i < |lines| ==> lines[i] in doc.links)
      requires forall i, j :: 0 <= i < j < |lines| ==> lines[i] != lines[j]
      modifies this
      ensures Consistent([]) && start == old(start)
      ensures lines == [] && blocks == [] ==> doc == old(doc) && commands == old(commands) && cc == old(cc)
      ensures lines != [] || blocks != [] ==>
        cc == old(cc) + 1 == |commands| - 1 && commands[..cc] == old(commands[..cc + 1]) && AllDelete(Ops(commands[cc]))
      ensures doc.links == set l | l in old(doc).links && l !in lines && !Selected(l, blocks, ends)
      ensures multiset(doc.elements) ==
        multiset(old(doc).elements) - (multiset(old(doc).links - doc.links) + multiset(blocks)) && doc.at == old(doc).at
    {
      if lines == [] && blocks == [] {
        EmptySelection(doc);
        return;
      }
      hide Gathered, WellFormed, Do, DoAll, Eq, AllApply, AllDelete, Selected, OpsAll, Ops, Part, PartAll, Ready;
      ghost var g := DeleteSelection(lines, blocks, ends);
      g.Finish(doc);
      g.LinksKept(doc, lines, ends);
    }

    method DeleteSelection(lines: seq<nat>, blocks: seq<nat>, ends: nat -> set<nat>) returns (ghost g: Gathering)
      requires Consistent([]) && WellFormed(doc, blocks)
      requires (forall i :: 0 <= i < |lines| ==> lines[i] in doc.links)
      requires forall i, j :: 0 <= i < j < |lines| ==> lines[i] != lines[j]
      modifies this
      ensures Consistent([]) && start == old(start)
      ensures cc == old(cc) + 1 == |commands| - 1
      ensures commands[..cc] == old(commands[..cc + 1]) && AllDelete(Ops(commands[cc]))
      ensures g.Valid() && g.n == |blocks| && g.blocks == blocks && g.old_ == old(doc)
      ensures Eq(doc, DoAll(Ops(Group(g.ms, false)), g.replayed))
      ensures g.lines == set l | l in g.old_.links && (l in lines || Selected(l, blocks, ends))
    {
      hide Gathered, WellFormed, Do, DoAll, Eq, AllApply, OpsAll, Ops, Part, PartAll, Ready, AllDelete, Selected;
      var ms;
      ms, g := DeleteLines(lines, blocks);
      ms, g := DeleteBlocks(ms, lines, blocks, ends, g);
      g.Complete();
      AddCommand(Group(ms, false), true);
    }

    /** Lines must be deleted first. */
    method DeleteLines(lines: seq<nat>, ghost blocks: seq<nat>) returns (ms: seq<Cmd>, ghost g: Gathering)
      requires Consistent([]) && WellFormed(doc, blocks)
      requires (forall i :: 0 <= i < |lines| ==> lines[i] in doc.links)
      requires forall i, j :: 0 <= i < j < |lines| ==> lines[i] != lines[j]
      modifies this`doc
      ensures Valid() && g == Gathering(Replayed(), old(doc), doc, ms, set j | 0 <= j < |lines| :: lines[j], blocks, 0)
      ensures g.Valid()
    {
      hide Gathered, WellFormed, Do, DoAll, Eq, AllApply, OpsAll;
      ms := [];
      DoNothing(Replayed());
      g := Gathering(Replayed(), doc, doc, [], {}, blocks, 0);
      g.Starts();
      for i := 0 to |lines|
        invariant Valid()
        invariant g == Gathering(Replayed(), old(doc), doc, ms, set j | 0 <= j < i :: lines[j], blocks, 0) && g.Valid()
      {
        g.LinksLeft();
        var c := DeleteNow(lines[i]);
        g.Line(lines[i]);
        ms := ms + [c];
        assert (set j | 0 <= j < i + 1 :: lines[j]) == (set j | 0 <= j < i :: lines[j]) + {lines[i]};
        g := g.(ms := ms, lines := set j | 0 <= j < i + 1 :: lines[j], now := doc);
      }
    }

    method DeleteBlocks(ms0: seq<Cmd>, ghost lines: seq<nat>, blocks: seq<nat>, ends: nat -> set<nat>,
        ghost g0: Gathering)
      returns (ms: seq<Cmd>, ghost g: Gathering)
      requires Valid() && g0.Valid()
      requires g0 == Gathering(Replayed(), g0.old_, doc, ms0, set j | 0 <= j < |lines| :: lines[j], blocks, 0)
      modifies this`doc
      ensures Valid() && g.Valid() && g == Gathering(Replayed(), g0.old_, doc, ms, g.lines, blocks, |blocks|)
      ensures g.lines == set l | l in g0.old_.links && (l in lines || Selected(l, blocks, ends))
    {
      hide Gathered, WellFormed, Do, DoAll, Eq, AllApply, OpsAll, Selected;
      ms, g := ms0, g0;
      SelectedNone(blocks, ends);
      for n := 0 to |blocks|
        invariant Valid() && g.Valid() && g == Gathering(Replayed(), g0.old_, doc, ms, g.lines, blocks, n)
        invariant g.lines == set l | l in g0.old_.links && (l in lines || Selected(l, blocks[..n], ends))
      {
        var inner;
        inner, g := DeleteBlockLines(blocks[n], ends, g);
        g.Block(ms, inner);
        ms := ms + [Group(inner + [One(DeleteBlock(blocks[n]), false)], false)];
        g := g.(ms := ms, n := n + 1);
        SelectedNext(blocks, n, ends);
      }
      assert blocks[..|blocks|] == blocks;
    }
  }

  /** A line that is connected to one of the blocks. */
  predicate Selected(l: nat, blocks: seq<nat>, ends: nat -> set<nat>) {
    exists i :: 0 <= i < |blocks| && blocks[i] in ends(l)
  }

  lemma SelectedNone(blocks: seq<nat>, ends: nat -> set<nat>)
    ensures forall l :: !Selected(l, blocks[..0], ends)
  {
  }

  lemma SelectedNext(blocks: seq<nat>, n: nat, ends: nat -> set<nat>)
    requires n < |blocks|
    ensures forall l :: Selected(l, blocks[..n + 1], ends) <==> Selected(l, blocks[..n], ends) || blocks[n] in ends(l)
  {
    forall l ensures Selected(l, blocks[..n + 1], ends) <==> Selected(l, blocks[..n], ends) || blocks[n] in ends(l) {
      if Selected(l, blocks[..n], ends) {
        var i :| 0 <= i < n && blocks[..n][i] in ends(l);
        assert blocks[..n + 1][i] in ends(l);
      }
      if blocks[n] in ends(l) { assert blocks[..n + 1][n] in ends(l); }
      if Selected(l, blocks[..n + 1], ends) {
        var i :| 0 <= i < n + 1 && blocks[..n + 1][i] in ends(l);
        if i < n { assert blocks[..n][i] in ends(l); }
      }
    }
  }

  lemma NoneAttached(now: set<nat>, all: set<nat>, was: set<nat>, lines: set<nat>, attached: set<nat>)
    requires now == all - lines && now !! attached && was <= lines <= was + attached && attached <= all
    ensures lines == was + attached
  {
    forall x | x in attached ensures x in lines {
      assert x in lines || x in now;
    }
  }

  /** A deletion in progress: the replayed document, the old and the present one, the group so far, the
      lines that are deleted, the blocks and how many of them are in the group. */
  datatype Gathering = Gathering(
    replayed: Doc, old_: Doc, now: Doc, ms: seq<Cmd>, lines: set<nat>, blocks: seq<nat>, n: nat
  ) {
    ghost predicate Valid() {
      && n <= |blocks| && WellFormed(replayed, blocks) && Eq(old_, replayed) && lines <= old_.links
      && Gathered(ms, replayed, lines, blocks, n) && now == DoAll(PartAll(ms, true), old_)
    }

    lemma LinksLeft()
      requires Valid()
      ensures now.links == old_.links - lines
    {
      DeletesAre(PartAll(ms, true), old_);
    }

    lemma Starts()
      requires ms == [] && lines == {} && n == 0 && now == old_ && Eq(old_, replayed) && WellFormed(old_, blocks)
      ensures Valid()
    {
      forall x ensures x in old_.elements <==> x in replayed.elements {
        assert x in old_.elements <==> x in multiset(old_.elements);
        assert x in replayed.elements <==> x in multiset(replayed.elements);
      }
      assert blocks[..0] == [];
    }

    lemma Line(l: nat)
      requires Valid() && l in now.links
      ensures this.(ms := ms + [One(DeleteLine(l), true)], lines := lines + {l}, now := Do(DeleteLine(l), now)).Valid()
    {
      LinksLeft();
      GatherLine(ms, replayed, lines, blocks, n, l);
      assert (PartAll(ms, true) + [DeleteLine(l)])[..|PartAll(ms, true)|] == PartAll(ms, true);
    }

    lemma Block(ms0: seq<Cmd>, inner: seq<Cmd>)
      requires Valid() && ms == ms0 + inner && n < |blocks| && forall i :: 0 <= i < |inner| ==> Ready(inner[i])
      ensures this.(ms := ms0 + [Group(inner + [One(DeleteBlock(blocks[n]), false)], false)], n := n + 1).Valid()
    {
      GatherBlock(ms0, inner, replayed, lines, blocks, n);
    }

    /** The group is ready to be added. */
    lemma Complete()
      requires Valid() && n == |blocks|
      ensures var c := Group(ms, false);
        Ready(c) && AllApply(Ops(c), replayed) && AllDelete(Ops(c)) && Eq(now, DoAll(Part(c, true), replayed))
    {
      DoAllEq(PartAll(ms, true), old_, replayed);
    }

    /** Then the lines and the blocks are gone, and nothing else. */
    lemma Finish(e: Doc)
      requires Valid() && n == |blocks| && Eq(e, DoAll(Ops(Group(ms, false)), replayed))
      ensures e.links == old_.links - lines && old_.links - e.links == lines && e.at == old_.at
      ensures multiset(e.elements) == multiset(old_.elements) - (multiset(lines) + multiset(blocks))
    {
      DeletesAre(OpsAll(ms), replayed);
      assert blocks[..n] == blocks;
    }

    /** What is left of the lines are those that were neither chosen nor at a deleted block. */
    lemma {:induction false} LinksKept(e: Doc, ls: seq<nat>, ends: nat -> set<nat>)
      requires e.links == old_.links - lines
      requires lines == set l | l in old_.links && (l in ls || Selected(l, blocks, ends))
      ensures e.links == set l | l in old_.links && l !in ls && !Selected(l, blocks, ends)
    {
      hide Selected;
    }
  }

  lemma EmptySelection(d: Doc)
    ensures multiset(d.elements) == multiset(d.elements) - (multiset(d.links - d.links) + multiset([]))
  {
  }

  lemma {:induction false} OpsAllPrefix(cs: seq<Cmd>, n: nat, d: Doc)
    requires n <= |cs| && AllApply(OpsAll(cs), d)
    ensures AllApply(OpsAll(cs[..n]), d)
    decreases |cs|
  {
    if n < |cs| {
      DoAllAppend(OpsAll(cs[..|cs| - 1]), Ops(cs[|cs| - 1]), d);
      OpsAllPrefix(cs[..|cs| - 1], n, d);
      assert cs[..|cs| - 1][..n] == cs[..n];
    } else {
      assert cs[..n] == cs;
    }
  }

  lemma {:induction false} SameOps(cs: seq<Cmd>, ds: seq<Cmd>)
    requires |cs| == |ds| && forall i :: 0 <= i < |cs| ==> Ops(cs[i]) == Ops(ds[i])
    ensures OpsAll(cs) == OpsAll(ds)
  {
    if cs != [] { SameOps(cs[..|cs| - 1], ds[..|ds| - 1]); }
  }

  lemma DoNothing(d: Doc)
    ensures DoAll([], d) == d
  {
  }

  lemma LastOf(cs: seq<Cmd>, c: Cmd, d: Doc)
    ensures OpsAll(cs + [c]) == OpsAll(cs) + Ops(c)
    ensures DoAll(OpsAll(cs + [c]), d) == DoAll(Ops(c), DoAll(OpsAll(cs), d))
    ensures AllApply(OpsAll(cs + [c]), d) <==> AllApply(OpsAll(cs), d) && AllApply(Ops(c), DoAll(OpsAll(cs), d))
  {
    assert (cs + [c])[..|cs|] == cs;
    DoAllAppend(OpsAll(cs), Ops(c), d);
  }

  /** The document before and after command `k`. */
  lemma CommandAt(cs: seq<Cmd>, k: nat, d: Doc)
    requires k < |cs| && AllApply(OpsAll(cs), d)
    ensures DoAll(OpsAll(cs[..k + 1]), d) == DoAll(Ops(cs[k]), DoAll(OpsAll(cs[..k]), d))
    ensures AllApply(Ops(cs[k]), DoAll(OpsAll(cs[..k]), d))
  {
    OpsAllPrefix(cs, k + 1, d);
    assert cs[..k + 1] == cs[..k] + [cs[k]];
    LastOf(cs[..k], cs[k], d);
  }

  lemma Replaced(cs: seq<Cmd>, k: nat, c: Cmd, m: nat)
    requires k < |cs| && m <= |cs| && Ops(c) == Ops(cs[k])
    ensures OpsAll(cs[k := c][..m]) == OpsAll(cs[..m])
  {
    SameOps(cs[k := c][..m], cs[..m]);
  }

  lemma AllOfClean(c: Cmd)
    requires Clean(c) || OneInsertLine(c)
    ensures (Ready(c) || OneInsertLine(c)) && (c.One? ==> !c.executed || c.op.InsertLine?)
    ensures (if c.One? then Ops(c) else Part(c, false)) == Ops(c)
  {
    if Clean(c) { CleanReady(c); }
  }

  lemma RevertOne(c: Cmd, d: Doc, e: Doc)
    requires AllApply(Ops(c), d) && Eq(e, DoAll(Ops(c), d))
    ensures Undoable(Ops(c), e) ==> Eq(RevertAll(Ops(c), e), d)
    ensures c.One? ==> (Undoable(Ops(c), e) <==> Eq(RevertAll(Ops(c), e), d))
  {
    if Undoable(Ops(c), e) { UndoDoAll(Ops(c), d, e); }
    if c.One? {
      assert [c.op][..0] == [];
      assert DoAll([c.op], d) == Do(c.op, d);
      UndoStepIff(c.op, d, e);
    }
  }

  /** Executing what is left of a command completes it. */
  lemma RestOf(c: Cmd, before: Doc, now: Doc)
    requires Ready(c) || OneInsertLine(c)
    requires c.One? || Part(c, true) == [] || AllDelete(Ops(c))
    requires Eq(now, DoAll(if c.One? then [] else Part(c, true), before))
    ensures Eq(DoAll(if c.One? then Ops(c) else Part(c, false), now), DoAll(Ops(c), before))
  {
    if c.One? {
      DoAllEq(Ops(c), now, before);
    } else {
      DoAllEq(Part(c, false), now, DoAll(Part(c, true), before));
      if AllDelete(Ops(c)) { RestDone(c, before); } else { NothingDone(c); }
    }
  }

  lemma {:induction false} NothingDone(c: Cmd)
    requires Part(c, true) == []
    ensures Part(c, false) == Ops(c)
    decreases c
  {
    if c.Group? { NothingDoneAll(c.members); }
  }

  lemma {:induction false} NothingDoneAll(cs: seq<Cmd>)
    requires PartAll(cs, true) == []
    ensures PartAll(cs, false) == OpsAll(cs)
    decreases cs
  {
    if cs != [] {
      NothingDoneAll(cs[..|cs| - 1]);
      NothingDone(cs[|cs| - 1]);
    }
  }

  lemma RevertNothing(d: Doc)
    ensures OpsAll([]) == [] && RevertAll([], d) == d
  {
  }

  lemma MemberBehind(cs: seq<Cmd>, i: nat)
    requires i < |cs|
    ensures OpsAll(cs[..i + 1]) == OpsAll(cs[..i]) + Ops(cs[i])
  {
    assert cs[..i + 1][..i] == cs[..i];
  }

  /** A command that is about to be executed as the editor does executes what is left of it. */
  lemma {:induction false} ExecutedIs(c: Cmd)
    requires Ready(c) || OneInsertLine(c)
    ensures Runs(c) == (if c.One? then Ops(c) else Part(c, false)) && Ops(Executed(c)) == Ops(c)
    ensures (Ready(c) ==> Done(Executed(c))) && (OneInsertLine(c) ==> OneInsertLine(Executed(c)))
    decreases c
  {
    if c.Group? { ExecutedAllIs(c.members); }
  }

  lemma {:induction false} ExecutedAllIs(cs: seq<Cmd>)
    requires forall i :: 0 <= i < |cs| ==> Ready(cs[i])
    ensures RunsAll(cs) == PartAll(cs, false) && OpsAll(ExecutedAll(cs)) == OpsAll(cs)
    ensures forall i :: 0 <= i < |cs| ==> Done(ExecutedAll(cs)[i])
    decreases cs
  {
    if cs != [] {
      var n := |cs| - 1;
      ExecutedAllIs(cs[..n]);
      ExecutedIs(cs[n]);
      assert ExecutedAll(cs)[..n] == ExecutedAll(cs[..n]);
    }
  }

  /** Executing changes the flags of a command, not what it does. */
  lemma {:induction false} ExecutedOps(c: Cmd)
    ensures Ops(Executed(c)) == Ops(c)
    decreases c
  {
    if c.Group? { ExecutedAllOps(c.members); }
  }

  lemma {:induction false} ExecutedAllOps(cs: seq<Cmd>)
    ensures OpsAll(ExecutedAll(cs)) == OpsAll(cs)
    decreases cs
  {
    if cs != [] {
      var n := |cs| - 1;
      ExecutedAllOps(cs[..n]);
      ExecutedOps(cs[n]);
      assert ExecutedAll(cs)[..n] == ExecutedAll(cs[..n]);
    }
  }

  lemma {:induction false} UndoneIs(c: Cmd)
    ensures Ops(Undone(c)) == Ops(c)
    ensures (Done(c) ==> Clean(Undone(c))) && (OneInsertLine(c) ==> OneInsertLine(Undone(c)))
    decreases c
  {
    if c.Group? { UndoneAllIs(c.members); }
  }

  lemma {:induction false} UndoneAllIs(cs: seq<Cmd>)
    ensures OpsAll(UndoneAll(cs)) == OpsAll(cs)
    ensures (forall i :: 0 <= i < |cs| ==> Done(cs[i])) ==> forall i :: 0 <= i < |cs| ==> Clean(UndoneAll(cs)[i])
    decreases cs
  {
    if cs != [] {
      var n := |cs| - 1;
      UndoneAllIs(cs[..n]);
      UndoneIs(cs[n]);
      assert UndoneAll(cs)[..n] == UndoneAll(cs[..n]);
    }
  }

  /* ---- deleting what is selected ---- */

  /** Every element once; lines are elements, and the blocks are no lines. */
  ghost predicate WellFormed(d: Doc, blocks: seq<nat>) {
    && (forall x :: multiset(d.elements)[x] <= 1)
    && (forall l :: l in d.links ==> l in d.elements)
    && (forall i :: 0 <= i < |blocks| ==> blocks[i] in d.elements && blocks[i] !in d.links)
    && (forall i, j :: 0 <= i < j < |blocks| ==> blocks[i] != blocks[j])
  }

  /** How far the group has come: `lines` are deleted, and the first `n` blocks are in the group. */
  ghost predicate Gathered(ms: seq<Cmd>, r: Doc, lines: set<nat>, blocks: seq<nat>, n: nat)
    requires n <= |blocks|
  {
    && (forall i :: 0 <= i < |ms| ==> Ready(ms[i]))
    && AllDelete(OpsAll(ms)) && AllDelete(PartAll(ms, true)) && AllApply(OpsAll(ms), r)
    && Targets(OpsAll(ms)) == multiset(lines) + multiset(blocks[..n]) && Lines(OpsAll(ms)) == lines
    && Targets(PartAll(ms, true)) == multiset(lines) && Lines(PartAll(ms, true)) == lines
  }

  lemma MemberAdded(ms: seq<Cmd>, m: Cmd)
    ensures OpsAll(ms + [m]) == OpsAll(ms) + Ops(m) && PartAll(ms + [m], true) == PartAll(ms, true) + Part(m, true)
  {
    assert (ms + [m])[..|ms|] == ms;
  }

  /** An element that is there, and that no command before deletes, can be deleted. */
  lemma StillThere(ops: seq<Op>, op: Op, r: Doc, x: nat)
    requires AllDelete(ops) && Deletes(op) && x == Target(op) && x in r.elements && x !in Targets(ops)
    requires op.DeleteLine? ==> x in r.links && x !in Lines(ops)
    ensures Applies(op, DoAll(ops, r))
  {
    DeletesAre(ops, r);
    assert x in multiset(r.elements);
  }

  /** One more line is deleted at once, as a member of the group. */
  lemma {:induction false} GatherLine(ms: seq<Cmd>, r: Doc, lines: set<nat>, blocks: seq<nat>, n: nat, l: nat)
    requires n <= |blocks| && WellFormed(r, blocks) && Gathered(ms, r, lines, blocks, n) && l in r.links && l !in lines
    ensures Gathered(ms + [One(DeleteLine(l), true)], r, lines + {l}, blocks, n)
    ensures PartAll(ms + [One(DeleteLine(l), true)], true) == PartAll(ms, true) + [DeleteLine(l)]
  {
    var op := DeleteLine(l);
    MemberAdded(ms, One(op, true));
    NextLine(lines, blocks, r, n, l);
    hide AllApply, Applies, DoAll, Targets, Lines, OpsAll, PartAll, AllDelete, WellFormed;
    StillThere(OpsAll(ms), op, r, l);
    GatherOps(OpsAll(ms), op, r);
    GatherOps(PartAll(ms, true), op, r);
  }

  lemma GatherOps(ops: seq<Op>, op: Op, r: Doc)
    requires AllDelete(ops) && Deletes(op)
    ensures AllDelete(ops + [op]) && Targets(ops + [op]) == Targets(ops) + multiset{Target(op)}
    ensures Lines(ops + [op]) == Lines(ops) + if op.DeleteLine? then {op.l} else {}
    ensures AllApply(ops + [op], r) <==> AllApply(ops, r) && Applies(op, DoAll(ops, r))
  {
    assert (ops + [op])[..|ops|] == ops && (ops + [op])[|ops|] == op;
    LinesAppend(ops, [op]);
    assert [op][0] == op;
  }

  /** The next block joins the group, with the lines that were deleted on its behalf. */
  lemma {:induction false} GatherBlock(ms: seq<Cmd>, inner: seq<Cmd>, r: Doc, lines: set<nat>, blocks: seq<nat>, n: nat)
    requires n < |blocks| && WellFormed(r, blocks) && Gathered(ms + inner, r, lines, blocks, n) && lines <= r.links
    requires forall i :: 0 <= i < |inner| ==> Ready(inner[i])
    ensures var g := Group(inner + [One(DeleteBlock(blocks[n]), false)], false);
      Gathered(ms + [g], r, lines, blocks, n + 1) && PartAll(ms + [g], true) == PartAll(ms + inner, true)
  {
    var op := DeleteBlock(blocks[n]);
    GroupAdded(ms, inner, op);
    NextBlock(lines, blocks, r, n);
    hide AllApply, Applies, DoAll, Targets, Lines, OpsAll, PartAll, AllDelete, Ready, WellFormed;
    StillThere(OpsAll(ms + inner), op, r, blocks[n]);
    GatherOps(OpsAll(ms + inner), op, r);
  }

  lemma NextLine(lines: set<nat>, blocks: seq<nat>, r: Doc, n: nat, l: nat)
    requires n <= |blocks| && WellFormed(r, blocks) && l in r.links && l !in lines
    ensures multiset(lines + {l}) == multiset(lines) + multiset{l}
    ensures l in r.elements && l !in multiset(lines) + multiset(blocks[..n])
  {
  }

  lemma NextBlock(lines: set<nat>, blocks: seq<nat>, r: Doc, n: nat)
    requires n < |blocks| && WellFormed(r, blocks) && lines <= r.links
    ensures multiset(blocks[..n + 1]) == multiset(blocks[..n]) + multiset{blocks[n]}
    ensures blocks[n] !in multiset(lines) + multiset(blocks[..n]) && blocks[n] in r.elements
  {
    assert blocks[..n + 1] == blocks[..n] + [blocks[n]];
    assert blocks[n] !in blocks[..n];
  }

  lemma GroupAdded(ms: seq<Cmd>, inner: seq<Cmd>, op: Op)
    ensures var g := Group(inner + [One(op, false)], false);
      OpsAll(ms + [g]) == OpsAll(ms + inner) + [op] && PartAll(ms + [g], true) == PartAll(ms + inner, true)
    ensures !op.InsertLine? && (forall i :: 0 <= i < |ms + inner| ==> Ready((ms + inner)[i])) ==>
      var g := Group(inner + [One(op, false)], false); forall i :: 0 <= i < |ms + [g]| ==> Ready((ms + [g])[i])
  {
    assert forall i :: 0 <= i < |ms| ==> ms[i] == (ms + inner)[i];
    assert forall i :: 0 <= i < |inner| ==> inner[i] == (ms + inner)[|ms| + i];
    var g := Group(inner + [One(op, false)], false);
    MemberAdded(inner, One(op, false));
    MemberAdded(ms, g);
    OpsAllConcat(ms, inner);
  }

  lemma {:induction false} OpsAllConcat(a: seq<Cmd>, b: seq<Cmd>)
    ensures OpsAll(a + b) == OpsAll(a) + OpsAll(b) && PartAll(a + b, true) == PartAll(a, true) + PartAll(b, true)
  {
    if b == [] {
      assert a + b == a;
    } else {
      OpsAllConcat(a, b[..|b| - 1]);
      assert (a + b)[..|a + b| - 1] == a + b[..|b| - 1];
    }
  }
}
