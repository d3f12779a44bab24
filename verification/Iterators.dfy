/** Traversing an element tree with an explicit stack of cursors. */
module Iterators {

  datatype Tree = Node(id: nat, children: seq<Tree>)

  /* ---- the recursive orders ---- */

  function Pre(t: Tree): (s: seq<Tree>)
    ensures |s| > 0 && s[0] == t
    decreases t
  {
    [t] + PreAll(t.children)
  }

  function PreAll(ts: seq<Tree>): seq<Tree>
    decreases ts
  {
    if ts == [] then [] else PreAll(ts[..|ts| - 1]) + Pre(ts[|ts| - 1])
  }

  function Post(t: Tree): (s: seq<Tree>)
    ensures |s| > 0 && s[|s| - 1] == t
    decreases t
  {
    PostAll(t.children) + [t]
  }

  function PostAll(ts: seq<Tree>): seq<Tree>
    decreases ts
  {
    if ts == [] then [] else PostAll(ts[..|ts| - 1]) + Post(ts[|ts| - 1])
  }

  lemma Regroup(a: seq<Tree>, b: seq<Tree>, c: seq<Tree>)
    ensures (a + b) + c == a + (b + c)
  {
  }

  lemma {:induction false} PreAllAppend(a: seq<Tree>, b: seq<Tree>)
    ensures PreAll(a + b) == PreAll(a) + PreAll(b)
  {
    hide Pre;
    if b == [] {
      assert a + b == a;
    } else {
      var n := |b| - 1;
      PreAllAppend(a, b[..n]);
      assert (a + b)[..|a + b| - 1] == a + b[..n] && (a + b)[|a + b| - 1] == b[n];
      Regroup(PreAll(a), PreAll(b[..n]), Pre(b[n]));
    }
  }

  lemma {:induction false} PreAllFirst(ts: seq<Tree>)
    requires ts != []
    ensures PreAll(ts) == Pre(ts[0]) + PreAll(ts[1..])
  {
    hide Pre;
    var first := [ts[0]];
    assert ts == first + ts[1..];
    PreAllAppend(first, ts[1..]);
    assert first[..0] == [] && PreAll([]) == [];
  }

  lemma {:induction false} PostAllAppend(a: seq<Tree>, b: seq<Tree>)
    ensures PostAll(a + b) == PostAll(a) + PostAll(b)
  {
    hide Post;
    if b == [] {
      assert a + b == a;
    } else {
      var n := |b| - 1;
      PostAllAppend(a, b[..n]);
      assert (a + b)[..|a + b| - 1] == a + b[..n] && (a + b)[|a + b| - 1] == b[n];
      Regroup(PostAll(a), PostAll(b[..n]), Post(b[n]));
    }
  }

  lemma {:induction false} PostAllFirst(ts: seq<Tree>)
    requires ts != []
    ensures PostAll(ts) == Post(ts[0]) + PostAll(ts[1..])
  {
    hide Post;
    var first := [ts[0]];
    assert ts == first + ts[1..];
    PostAllAppend(first, ts[1..]);
    assert first[..0] == [] && PostAll([]) == [];
  }

  /* ---- cursors ---- */

  /** An iterator over the children of one element. */
  datatype Cursor = Cursor(items: seq<Tree>, pos: nat) {
    predicate IsDone() { pos >= |items| }

    function CurrentItem(): Tree
      requires !IsDone()
    {
      items[pos]
    }

    function Next(): Cursor { this.(pos := pos + 1) }
  }

  predicate Active(stack: seq<Cursor>) {
    forall i :: 0 <= i < |stack| ==> !stack[i].IsDone()
  }

  /* ---- preorder ---- */

  /** What is behind the current items of the cursors, the topmost first. */
  function Behind(stack: seq<Cursor>): seq<Tree>
    requires Active(stack)
  {
    if stack == [] then []
    else
      var c := stack[|stack| - 1];
      PreAll(c.items[c.pos + 1..]) + Behind(stack[..|stack| - 1])
  }

  /** What is still to be visited, the current item first. */
  function PreRest(stack: seq<Cursor>): seq<Tree>
    requires Active(stack)
  {
    if stack == [] then []
    else
      var c := stack[|stack| - 1];
      PreAll(c.items[c.pos..]) + Behind(stack[..|stack| - 1])
  }

  lemma {:induction false} PreRestIs(stack: seq<Cursor>)
    requires Active(stack) && stack != []
    ensures var c := stack[|stack| - 1];
      PreRest(stack) == [c.CurrentItem()] + PreAll(c.CurrentItem().children) + Behind(stack)
      && Behind(stack) == PreAll(c.items[c.pos + 1..]) + Behind(stack[..|stack| - 1])
  {
    hide Pre, PreAll;
    var c := stack[|stack| - 1];
    PreIs(c.CurrentItem());
    PreAllFirst(c.items[c.pos..]);
    assert c.items[c.pos..][1..] == c.items[c.pos + 1..];
  }

  /** Going on in the topmost cursor: either it is done, or what was behind it comes next. */
  lemma {:induction false} Advance(stack: seq<Cursor>)
    requires Active(stack) && stack != []
    ensures var n := |stack| - 1; var c := stack[n].Next();
      if c.IsDone() then Behind(stack) == Behind(stack[..n])
      else Active(stack[n := c]) && PreRest(stack[n := c]) == Behind(stack)
  {
    hide Pre;
    var n := |stack| - 1;
    var c := stack[n].Next();
    assert stack[n := c][..n] == stack[..n];
    if c.IsDone() { assert stack[n].items[stack[n].pos + 1..] == []; }
  }

  lemma PreIs(t: Tree)
    ensures Pre(t) == [t] + PreAll(t.children)
  {
  }

  lemma NothingBehind()
    ensures Behind([]) == PreRest([]) == []
  {
  }

  /** The children of the current item come first. */
  lemma {:induction false} PushChildren(stack: seq<Cursor>, c: Cursor)
    requires Active(stack) && c.pos == 0
    ensures if c.IsDone() then PreAll(c.items) + Behind(stack) == Behind(stack)
      else Active(stack + [c]) && PreRest(stack + [c]) == PreAll(c.items) + Behind(stack)
  {
    hide Pre, Behind;
    assert (stack + [c])[..|stack|] == stack && c.items[0..] == c.items;
  }

  class PreorderIterator {
    var iterators: seq<Cursor>

    ghost predicate Valid()
      reads this
    {
      Active(iterators)
    }

    /** What is still to be visited. */
    ghost function Rest(): seq<Tree>
      requires Valid()
      reads this
    {
      PreRest(iterators)
    }

    constructor (root: Tree)
      ensures Valid() && Rest() == PreAll(root.children)
    {
      var c := Cursor(root.children, 0);
      iterators := if c.IsDone() then [] else [c];
    }

    predicate IsDone()
      reads this
    {
      iterators == []
    }

    function CurrentItem(): Tree
      requires Valid() && !IsDone()
      reads this
    {
      iterators[|iterators| - 1].CurrentItem()
    }

    lemma IsDoneIff()
      requires Valid()
      ensures IsDone() <==> Rest() == []
      ensures !IsDone() ==> Rest()[0] == CurrentItem()
    {
      if iterators != [] { PreRestIs(iterators); }
    }

    /** Goes on to the next element in preorder. */
    method Next()
      requires Valid() && !IsDone()
      modifies this
      ensures Valid() && old(Rest()) == [old(CurrentItem())] + Rest()
    {
      hide Pre, PreAll, Behind, PreRest;
      PreRestIs(iterators);
      var c := Cursor(CurrentItem().children, 0);
      ghost var goal := PreAll(c.items) + Behind(iterators);
      PushChildren(iterators, c);
      iterators := iterators + [c];
      assert iterators[..|iterators| - 1] == old(iterators);
      while iterators != [] && iterators[|iterators| - 1].IsDone()
        invariant iterators != [] ==> Active(iterators[..|iterators| - 1])
        invariant iterators != [] && iterators[|iterators| - 1].IsDone() ==>
          goal == Behind(iterators[..|iterators| - 1])
        invariant (iterators == [] || !iterators[|iterators| - 1].IsDone()) ==>
          Active(iterators) && goal == PreRest(iterators)
        decreases |iterators|
      {
        iterators := iterators[..|iterators| - 1];
        if iterators != [] && !iterators[|iterators| - 1].IsDone() {
          var n := |iterators| - 1;
          Advance(iterators);
          assert iterators[n := iterators[n].Next()][..n] == iterators[..n];
          iterators := iterators[n := iterators[n].Next()];
        } else {
          NothingBehind();
        }
      }
    }

    /** Leaves out what is below the current element. */
    method NextSkipBranch()
      requires Valid() && !IsDone()
      modifies this
      ensures Valid() && old(Rest()) == Pre(old(CurrentItem())) + Rest()
    {
      PreRestIs(iterators);
      PreIs(CurrentItem());
      hide Pre, PreAll;
      ghost var goal := Behind(iterators);
      while iterators != []
        invariant Active(iterators) && goal == Behind(iterators)
        decreases |iterators|
      {
        var n := |iterators| - 1;
        var c := iterators[n].Next();
        iterators := iterators[n := c];
        if c.IsDone() {
          iterators := iterators[..n];
        } else {
          break;
        }
      }
    }
  }

  /** All descendants of the root are visited, in preorder and each once. */
  method TraversePreorder(root: Tree) returns (visited: seq<Tree>)
    ensures visited == PreAll(root.children)
  {
    visited := [];
    var it := new PreorderIterator(root);
    it.IsDoneIff();
    while !it.IsDone()
      invariant it.Valid() && visited + it.Rest() == PreAll(root.children)
      decreases |it.Rest()|
    {
      it.IsDoneIff();
      visited := visited + [it.CurrentItem()];
      it.Next();
    }
    it.IsDoneIff();
  }

  /* ---- postorder ---- */

  /** What is still to be visited: the descendants of the current items have been. */
  function PostRest(stack: seq<Cursor>): seq<Tree>
    requires Active(stack)
  {
    if stack == [] then []
    else
      var c := stack[|stack| - 1];
      [c.CurrentItem()] + PostAll(c.items[c.pos + 1..]) + PostRest(stack[..|stack| - 1])
  }

  lemma PostIs(t: Tree)
    ensures Post(t) == PostAll(t.children) + [t]
  {
  }

  /** Going down one level below the current item of a cursor. */
  lemma {:induction false} Descend(stack: seq<Cursor>, c: Cursor)
    requires Active(stack) && !c.IsDone()
    ensures Active(stack + [c])
    ensures PostAll(c.items[c.pos..]) + PostRest(stack) == PostAll(c.CurrentItem().children) + PostRest(stack + [c])
  {
    hide Post, PostAll;
    var rest := c.items[c.pos..];
    PostAllFirst(rest);
    PostIs(c.CurrentItem());
    assert rest[0] == c.CurrentItem() && rest[1..] == c.items[c.pos + 1..];
    assert (stack + [c])[..|stack|] == stack;
  }

  class PostorderIterator {
    var iterators: seq<Cursor>

    ghost predicate Valid()
      reads this
    {
      Active(iterators)
    }

    /** What is still to be visited. */
    ghost function Rest(): seq<Tree>
      requires Valid()
      reads this
    {
      PostRest(iterators)
    }

    constructor (root: Tree)
      ensures Valid() && Rest() == PostAll(root.children)
    {
      iterators := [];
      new;
      var c := Cursor(root.children, 0);
      assert c.items[0..] == c.items;
      GoDown(c);
    }

    /** Goes down to the first element without children. */
    method GoDown(first: Cursor)
      requires Valid() && first.pos <= |first.items|
      modifies this
      ensures Valid() && Rest() == PostAll(first.items[first.pos..]) + old(Rest())
    {
      hide Post, PostRest;
      var i := first;
      ghost var goal := PostAll(first.items[first.pos..]) + Rest();
      while !i.IsDone()
        invariant Valid() && i.pos <= |i.items| && goal == PostAll(i.items[i.pos..]) + Rest()
        decreases i.items
      {
        Descend(iterators, i);
        iterators := iterators + [i];
        i := Cursor(i.CurrentItem().children, 0);
        assert i.items[0..] == i.items;
      }
      assert i.items[i.pos..] == [];
    }

    predicate IsDone()
      reads this
    {
      iterators == []
    }

    function CurrentItem(): Tree
      requires Valid() && !IsDone()
      reads this
    {
      iterators[|iterators| - 1].CurrentItem()
    }

    /** Goes on to the next element in postorder. */
    method Next()
      requires Valid() && !IsDone()
      modifies this
      ensures Valid() && old(Rest()) == [old(CurrentItem())] + Rest()
    {
      hide Post;
      var n := |iterators| - 1;
      var c := iterators[n].Next();
      if c.IsDone() {
        assert c.items[c.pos..] == [];
        iterators := iterators[..n];
        return;
      }
      // what is below the new current item comes before it
      ghost var below := iterators[..n];
      Descend(below, c);
      iterators := iterators[n := c];
      assert iterators == below + [c];
      GoDown(Cursor(c.CurrentItem().children, 0));
      assert c.CurrentItem().children[0..] == c.CurrentItem().children;
    }
  }

  /** All descendants of the root are visited, in postorder and each once. */
  method TraversePostorder(root: Tree) returns (visited: seq<Tree>)
    ensures visited == PostAll(root.children)
  {
    visited := [];
    var it := new PostorderIterator(root);
    while !it.IsDone()
      invariant it.Valid() && visited + it.Rest() == PostAll(root.children)
      decreases |it.Rest()|
    {
      hide Post, PostRest;
      var e := it.CurrentItem();
      it.Next();
      assert visited + ([e] + it.Rest()) == (visited + [e]) + it.Rest();
      visited := visited + [e];
    }
  }
}
