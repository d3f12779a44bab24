/** Putting code together: a program built from parts that only jump forward only jumps forward. */
module Programs {
  import opened Avr

  /** The labels placed in the code. */
  ghost function Marks(code: seq<Instr>): set<Label> {
    set k | 0 <= k < |code| && code[k].Lab? :: code[k].l
  }

  /** Every jump goes to a later label of the code, or to one of `outs`, which are not in it; skips stay within. */
  ghost predicate Jumps(code: seq<Instr>, outs: set<Label>) {
    forall k {:trigger JumpsAt(code, k, outs)} :: 0 <= k < |code| ==> JumpsAt(code, k, outs)
  }

  ghost predicate JumpsAt(code: seq<Instr>, k: nat, outs: set<Label>)
    requires k < |code|
  {
    && (code[k].Br? ==> if code[k].l in Marks(code) then k < Find(code, code[k].l) else code[k].l in outs)
    && (IsSkip(code[k]) ==> k + SkipCount(code[k]) < |code| && forall j :: k < j <= k + SkipCount(code[k]) ==>
         OneWord(code[j]))
  }

  /** Code without labels jumps out to `outs`. */
  lemma Straight(code: seq<Instr>, outs: set<Label>)
    requires forall k :: 0 <= k < |code| ==> !code[k].Lab? && (code[k].Br? ==> code[k].l in outs) && !IsSkip(code[k])
    ensures Marks(code) == {} && Jumps(code, outs)
  {
  }

  lemma MarksAppend(a: seq<Instr>, b: seq<Instr>)
    ensures Marks(a + b) == Marks(a) + Marks(b)
  {
    var ab := a + b;
    forall l | l in Marks(a) ensures l in Marks(ab) {
      var k :| 0 <= k < |a| && a[k] == Lab(l);
      assert ab[k] == Lab(l);
    }
    forall l | l in Marks(b) ensures l in Marks(ab) {
      var k :| 0 <= k < |b| && b[k] == Lab(l);
      assert ab[|a| + k] == Lab(l);
    }
  }

  lemma {:induction false} FindAppend(a: seq<Instr>, b: seq<Instr>, l: Label)
    ensures l in Marks(a) ==> Find(a + b, l) == Find(a, l)
    ensures l !in Marks(a) ==> Find(a + b, l) == |a| + Find(b, l)
    ensures Find(b, l) < |b| <==> l in Marks(b)
  {
    var k, ab := Find(a + b, l), a + b;
    if l in Marks(b) {
      var j :| 0 <= j < |b| && b[j] == Lab(l);
    }
    if l in Marks(a) {
      var j :| 0 <= j < |a| && a[j] == Lab(l);
      assert ab[j] == Lab(l);
      assert ab[Find(a, l)] == Lab(l);
      assert a[k] == Lab(l);
    } else {
      assert forall j :: 0 <= j < |a| ==> ab[j] == a[j];
      if Find(b, l) < |b| { assert ab[|a| + Find(b, l)] == Lab(l); }
      if k < |ab| { assert b[k - |a|] == Lab(l); }
    }
  }

  /** Code that jumps out only to labels behind it jumps forward in the whole. */
  lemma FrontForward(a: seq<Instr>, b: seq<Instr>, outs: set<Label>, k: nat)
    requires Jumps(a, outs) && outs <= Marks(b) && k < |a|
    ensures ForwardAt(a + b, k)
  {
    var ab := a + b;
    assert JumpsAt(a, k, outs) && ab[k] == a[k];
    if a[k].Br? { FindAppend(a, b, a[k].l); FindAppend([], a, a[k].l); assert [] + a == a; }
    if IsSkip(a[k]) { assert forall j :: k < j <= k + SkipCount(a[k]) ==> ab[j] == a[j]; }
  }

  lemma JumpsAppend(a: seq<Instr>, b: seq<Instr>, outsA: set<Label>, outsB: set<Label>)
    requires Jumps(a, outsA) && Jumps(b, outsB) && Marks(a) !! Marks(b) && Marks(a) !! outsB
    ensures Jumps(a + b, (outsA - Marks(b)) + outsB)
  {
    var outs := (outsA - Marks(b)) + outsB;
    forall k | 0 <= k < |a + b| ensures JumpsAt(a + b, k, outs) {
      if k < |a| { FrontJumps(a, b, outsA, outsB, k); } else { BackJumps(a, b, outsA, outsB, k); }
    }
  }

  lemma FrontJumps(a: seq<Instr>, b: seq<Instr>, outsA: set<Label>, outsB: set<Label>, k: nat)
    requires Jumps(a, outsA) && k < |a|
    ensures JumpsAt(a + b, k, (outsA - Marks(b)) + outsB)
  {
    var ab := a + b;
    MarksAppend(a, b);
    assert JumpsAt(a, k, outsA) && ab[k] == a[k];
    if a[k].Br? {
      FindAppend(a, b, ab[k].l);
      FindAppend([], a, a[k].l);
      assert [] + a == a;
    }
    if IsSkip(a[k]) { assert forall j :: k < j <= k + SkipCount(a[k]) ==> ab[j] == a[j]; }
  }

  lemma BackJumps(a: seq<Instr>, b: seq<Instr>, outsA: set<Label>, outsB: set<Label>, k: nat)
    requires Jumps(b, outsB) && Marks(a) !! Marks(b) && Marks(a) !! outsB && |a| <= k < |a + b|
    ensures JumpsAt(a + b, k, (outsA - Marks(b)) + outsB)
  {
    var ab := a + b;
    MarksAppend(a, b);
    assert JumpsAt(b, k - |a|, outsB) && ab[k] == b[k - |a|];
    if ab[k].Br? { FindAppend(a, b, ab[k].l); }
    if IsSkip(ab[k]) { assert forall j :: k < j <= k + SkipCount(ab[k]) ==> ab[j] == b[j - |a|]; }
  }

  lemma JumpsForward(code: seq<Instr>)
    requires Jumps(code, {})
    ensures Forward(code)
  {
    forall k | 0 <= k < |code| ensures ForwardAt(code, k) {
      FrontForward(code, [], {}, k);
      assert code + [] == code;
    }
  }

  /** All labels belong to one block. */
  ghost predicate Owned(code: seq<Instr>, id: nat) {
    forall l :: l in Marks(code) ==> l.block == id
  }

  /** A finished fragment: it only jumps within itself, and its labels are its own. */
  ghost predicate Fragment(code: seq<Instr>, id: nat) {
    Jumps(code, {}) && Owned(code, id)
  }

  /** Every branch of the code goes to one of its labels. */
  ghost predicate Closed(code: seq<Instr>) {
    forall k :: 0 <= k < |code| && code[k].Br? ==> code[k].l in Marks(code)
  }

  /** The code of one block, which may also jump back. */
  ghost predicate Whole(code: seq<Instr>, id: nat) {
    Closed(code) && Owned(code, id)
  }

  lemma FragmentIsWhole(code: seq<Instr>, id: nat)
    requires Fragment(code, id)
    ensures Whole(code, id) && Forward(code)
  {
    JumpsForward(code);
    forall k | 0 <= k < |code| && code[k].Br? ensures code[k].l in Marks(code) { assert JumpsAt(code, k, {}); }
  }

  /** The parts of a program one after the other. */
  function Concat(parts: seq<seq<Instr>>): seq<Instr> {
    if parts == [] then [] else Concat(parts[..|parts| - 1]) + parts[|parts| - 1]
  }

  lemma {:induction false} ConcatMarks(parts: seq<seq<Instr>>, ids: seq<nat>)
    requires |ids| == |parts| && forall i :: 0 <= i < |parts| ==> Whole(parts[i], ids[i])
    ensures Closed(Concat(parts)) && forall l :: l in Marks(Concat(parts)) ==> l.block in ids
  {
    if parts != [] {
      var n := |parts| - 1;
      ConcatMarks(parts[..n], ids[..n]);
      MarksAppend(Concat(parts[..n]), parts[n]);
    }
  }

  lemma EmbedStep(pre: seq<Instr>, code: seq<Instr>, post: seq<Instr>, pc: nat, s: State)
    requires Closed(code) && Marks(pre) !! Marks(code) && pc < |code|
    ensures var (pc', s') := Step(code, pc, s); Step(pre + code + post, |pre| + pc, s) == (|pre| + pc', s')
  {
    var prog := pre + code + post;
    assert prog[|pre| + pc] == code[pc];
    if code[pc].Br? {
      var l := code[pc].l;
      MarksAppend(pre, code);
      FindAppend(pre, code, l);
      FindAppend(pre + code, post, l);
    }
  }

  /** Within a larger program the machine runs the code of a block as it runs it alone. */
  lemma {:induction false} LeadsWithin(pre: seq<Instr>, code: seq<Instr>, post: seq<Instr>, pc: nat, s: State, n: nat,
      pc': nat, s': State)
    requires Closed(code) && Marks(pre) !! Marks(code) && Leads(code, pc, s, n, pc', s')
    ensures Leads(pre + code + post, |pre| + pc, s, n, |pre| + pc', s')
    decreases n
  {
    if n > 0 {
      EmbedStep(pre, code, post, pc, s);
      var (pc1, s1) := Step(code, pc, s);
      LeadsWithin(pre, code, post, pc1, s1, n - 1, pc', s');
    }
  }

  /** One piece of code after the other. */
  lemma {:induction false} LeadsAppend(pre: seq<Instr>, code: seq<Instr>, s: State, n: nat, s1: State, m: nat,
      s2: State)
    requires Closed(pre) && Closed(code) && Marks(pre) !! Marks(code)
    requires Leads(pre, 0, s, n, |pre|, s1) && Leads(code, 0, s1, m, |code|, s2)
    ensures Leads(pre + code, 0, s, n + m, |pre + code|, s2)
  {
    hide Leads, Closed;
    assert Marks([]) == {};
    LeadsWithin([], pre, code, 0, s, n, |pre|, s1);
    LeadsWithin(pre, code, [], 0, s1, m, |code|, s2);
    assert [] + pre + code == pre + code && pre + code + [] == pre + code;
    LeadsTrans(pre + code, 0, s, n, |pre|, s1, m, |pre| + |code|, s2);
  }
}
