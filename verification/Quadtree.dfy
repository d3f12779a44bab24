/** The quadtree that indexes the elements on the canvas. */
module Quadtree {

  datatype Rect = Rect(left: real, top: real, right: real, bottom: real) {
    ghost predicate Has(x: real, y: real) { left <= x <= right && top <= y <= bottom }

    predicate Misses(r: Rect) { left > r.right || right < r.left || top > r.bottom || bottom < r.top }

    predicate WellFormed() { left <= right && top <= bottom }

    function MidX(): real { left + (right - left) / 2.0 }
    function MidY(): real { top + (bottom - top) / 2.0 }
  }

  const MAX: nat := 60

  /** What the tree asks of an element; `frame` is the last frame it was drawn in. */
  class Element {
    const bounds: Rect
    const z: int
    const hitAccess: bool
    const hitTest: (real, real) -> bool
    var frame: int

    constructor (bounds: Rect, z: int, hitAccess: bool, hitTest: (real, real) -> bool)
      ensures this.bounds == bounds && this.z == z && this.hitAccess == hitAccess
      ensures this.hitTest == hitTest && frame == 0
    {
      this.bounds, this.z, this.hitAccess, this.hitTest, frame := bounds, z, hitAccess, hitTest, 0;
    }

    predicate HitBy(x: real, y: real) { hitAccess && hitTest(x, y) }
  }

  /** What elements are drawn on. */
  class Canvas {
    var drawn: seq<Element>

    constructor ()
      ensures drawn == []
    {
      drawn := [];
    }

    method Draw(e: Element)
      modifies this
      ensures drawn == old(drawn) + [e]
    {
      drawn := drawn + [e];
    }
  }

  /* ---- the quarters ---- */

  const NE: nat := 0
  const NW: nat := 1
  const SE: nat := 2
  const SW: nat := 3

  function Quarter(a: Rect, q: nat): Rect {
    if q == NE then Rect(a.MidX(), a.top, a.right, a.MidY())
    else if q == NW then Rect(a.left, a.top, a.MidX(), a.MidY())
    else if q == SE then Rect(a.MidX(), a.MidY(), a.right, a.bottom)
    else Rect(a.left, a.MidY(), a.MidX(), a.bottom)
  }

  /** Whether an element goes into a quarter: one that touches the middle from the north or west does not cross it. */
  predicate Goes(e: Element, a: Rect, q: nat) {
    var b := e.bounds;
    var south, east := b.top > a.MidY() || b.bottom > a.MidY(), b.left > a.MidX() || b.right > a.MidX();
    if q == NE then b.top <= a.MidY() && east
    else if q == NW then b.top <= a.MidY() && b.left <= a.MidX()
    else if q == SE then south && east
    else south && b.left <= a.MidX()
  }

  /** The quarter in which a point is looked for. */
  function SearchedQuarter(a: Rect, x: real, y: real): nat {
    if y < a.MidY() then if x > a.MidX() then NE else NW else if x > a.MidX() then SE else SW
  }

  /** The quarter that is searched for a point of an element holds the element, unless the point is on
      the element's lower edge and on the middle line. */
  lemma SearchFinds(e: Element, a: Rect, x: real, y: real)
    requires e.bounds.Has(x, y)
    ensures Goes(e, a, SearchedQuarter(a, x, y)) <==> !(y == e.bounds.bottom && y == a.MidY())
  {
  }

  function Part(s: set<Element>, a: Rect, q: nat): set<Element> {
    set e | e in s && Goes(e, a, q)
  }

  /** Dividing the area at most `d` times leaves at most `MAX` elements in every cell. */
  ghost predicate Splittable(s: set<Element>, a: Rect, d: nat)
    decreases d
  {
    |s| <= MAX || (d > 0 && forall q :: 0 <= q < 4 ==> Splittable(Part(s, a, q), Quarter(a, q), d - 1))
  }

  lemma {:induction false} SplittableSubset(s: set<Element>, t: set<Element>, a: Rect, d: nat)
    requires s <= t && Splittable(t, a, d)
    ensures Splittable(s, a, d)
    decreases d
  {
    Smaller(s, t);
    if |s| > MAX {
      forall q | 0 <= q < 4 ensures Splittable(Part(s, a, q), Quarter(a, q), d - 1) {
        SplittableSubset(Part(s, a, q), Part(t, a, q), Quarter(a, q), d - 1);
      }
    }
  }

  lemma {:induction false} Smaller(s: set<Element>, t: set<Element>)
    requires s <= t
    ensures |s| <= |t|
  {
    if s != {} {
      var e :| e in s;
      Smaller(s - {e}, t - {e});
    }
  }

  /** The elements of an array without repetition. */
  ghost predicate Distinct(s: seq<Element>) {
    forall i, j :: 0 <= i < j < |s| ==> s[i] != s[j]
  }

  ghost function ToSet(s: seq<Element>): set<Element> {
    set i | 0 <= i < |s| :: s[i]
  }

  lemma {:induction false} DistinctSize(s: seq<Element>)
    requires Distinct(s)
    ensures |ToSet(s)| == |s|
  {
    if s != [] {
      var n := |s| - 1;
      DistinctSize(s[..n]);
      assert ToSet(s) == ToSet(s[..n]) + {s[n]};
    }
  }

  ghost predicate Sorted(s: seq<Element>) {
    forall i, j :: 0 <= i < j < |s| ==> s[i].z <= s[j].z
  }

  /** The items of a leaf: every element once, in ascending z-order. */
  ghost predicate Lists(s: seq<Element>, elems: set<Element>) {
    ToSet(s) == elems && Distinct(s) && Sorted(s)
  }

  /** What was painted is in the order of the items. */
  ghost predicate InOrderOf(s: seq<Element>, items: seq<Element>) {
    && (forall i :: 0 <= i < |s| ==> s[i] in items)
    && forall i, j, p, q | 0 <= i < j < |s| && 0 <= p < |items| && 0 <= q < |items| ::
         items[p] == s[i] && items[q] == s[j] ==> p < q
  }

  lemma InOrderSorted(s: seq<Element>, items: seq<Element>)
    requires InOrderOf(s, items) && Sorted(items)
    ensures Sorted(s)
  {
    forall i, j | 0 <= i < j < |s| ensures s[i].z <= s[j].z {
      var p :| 0 <= p < |items| && items[p] == s[i];
      var q :| 0 <= q < |items| && items[q] == s[j];
    }
  }

  /** One more item is painted after earlier ones. */
  lemma InOrderMore(s: seq<Element>, items: seq<Element>, n: nat)
    requires n < |items| && Distinct(items) && InOrderOf(s, items[..n])
    ensures InOrderOf(s, items[..n + 1]) && InOrderOf(s + [items[n]], items[..n + 1])
  {
    var more, front, now := s + [items[n]], items[..n], items[..n + 1];
    forall i | 0 <= i < |s| ensures s[i] in now {
      var p :| 0 <= p < n && front[p] == s[i];
      assert now[p] == s[i];
    }
    assert now[n] == items[n];
    forall i, j, p, q | 0 <= i < j < |more| && 0 <= p <= n && 0 <= q <= n && now[p] == more[i] && now[q] == more[j]
      ensures p < q
    {
      var k :| 0 <= k < n && front[k] == more[i];
      if j < |s| {
        var m :| 0 <= m < n && front[m] == more[j];
        assert front[p] == s[i] && front[q] == s[j];
      }
    }
    forall i, j, p, q | 0 <= i < j < |s| && 0 <= p <= n && 0 <= q <= n && now[p] == s[i] && now[q] == s[j]
      ensures p < q
    {
      assert more[i] == s[i] && more[j] == s[j];
    }
  }

  /** The element is put behind those that are not above it, and all others keep their order. */
  ghost predicate Inserted(s: seq<Element>, t: seq<Element>, e: Element) {
    exists i :: 0 <= i <= |s| && t == s[..i] + [e] + s[i..]
      && (forall j :: 0 <= j < i ==> s[j].z <= e.z) && (i < |s| ==> e.z < s[i].z)
  }

  /** The element is taken out, if it is there, and all others keep their order. */
  ghost predicate TakenOut(s: seq<Element>, t: seq<Element>, e: Element) {
    if e in s then exists i :: 0 <= i < |s| && s[i] == e && t == s[..i] + s[i + 1..] else t == s
  }

  /** The objects of a tree are no elements and no canvas. */
  ghost predicate OnlyNodes(s: set<object>) {
    forall o :: o in s ==> !(o is Element) && !(o is Canvas)
  }

  /* ---- the tree ---- */

  class QuadrantNode {
    const area: Rect
    /** The number of items of a leaf, -1 when the node is split. */
    var nextIx: int
    var items: array?<Element>
    var childs: seq<QuadrantNode>
    /** The elements stored, how often the area may still be divided, and the objects of the tree. */
    ghost var elems: set<Element>
    ghost const depth: nat
    ghost var Repr: set<object>

    ghost predicate Valid()
      reads this, Repr
      decreases Repr, depth
    {
      && this in Repr && OnlyNodes(Repr)
      && if nextIx == -1 then
           && |childs| == 4 && depth > 0 && items == null
           && (forall q :: 0 <= q < 4 ==> childs[q] in Repr && childs[q].Repr <= Repr && this !in childs[q].Repr)
           && (forall q, r :: 0 <= q < r < 4 ==> childs[q].Repr !! childs[r].Repr)
           && (forall q :: 0 <= q < 4 ==> childs[q].depth == depth - 1 && childs[q].Valid())
           && (forall q :: 0 <= q < 4 ==> childs[q].area == Quarter(area, q) && childs[q].elems == Part(elems, area, q))
         else
           && 0 <= nextIx <= MAX && (nextIx > 0 ==> items != null)
           && (items != null ==> items in Repr && items.Length == MAX)
           && Lists(if items == null then [] else items[..nextIx], elems)
    }

    constructor (area: Rect, ghost depth: nat)
      ensures Valid() && this.area == area && this.depth == depth
      ensures elems == {} && fresh(Repr) && Repr == {this} && nextIx == 0
    {
      this.area, this.depth, nextIx, items, childs, elems := area, depth, 0, null, [], {};
      Repr := {this};
    }

    /** The items of a cell, from the lowest to the topmost. */
    ghost function Cell(): seq<Element>
      requires Valid() && nextIx != -1
      reads this, Repr
    {
      if items == null then [] else items[..nextIx]
    }

    /** The quarters an element goes into. */
    method Locate(e: Element) returns (goes: seq<bool>)
      ensures |goes| == 4 && forall q :: 0 <= q < 4 ==> goes[q] == Goes(e, area, q)
    {
      var rc, x, y := e.bounds, area.MidX(), area.MidY();
      goes := [false, false, false, false];
      if rc.top > y {
        if rc.left > x {
          goes := goes[SE := true];
        } else {
          goes := goes[SW := true];
          if rc.right > x { goes := goes[SE := true]; }
        }
      } else {
        if rc.left > x {
          goes := goes[NE := true];
          if rc.bottom > y { goes := goes[SE := true]; }
        } else {
          goes := goes[NW := true];
          if rc.bottom > y { goes := goes[SW := true]; }
          if rc.right > x {
            goes := goes[NE := true];
            if rc.bottom > y { goes := goes[SE := true]; }
          }
        }
      }
    }

    /** The search for the point goes down into a quarter in which the element is not stored. */
    ghost predicate Loses(e: Element, x: real, y: real)
      requires Valid()
      reads this, Repr
      decreases depth
    {
      nextIx == -1 &&
      (!Goes(e, area, SearchedQuarter(area, x, y)) || childs[SearchedQuarter(area, x, y)].Loses(e, x, y))
    }

    /** A point within the bounds of an element can be lost only on its lower edge, and when the middle line
        of a node on the way down is there too. */
    lemma LosesLowerEdge(e: Element, x: real, y: real)
      requires Valid() && e.bounds.Has(x, y)
      ensures Loses(e, x, y) <==> y == e.bounds.bottom && MeetsMiddle(x, y)
      decreases depth
    {
      if nextIx == -1 {
        SearchFinds(e, area, x, y);
        childs[SearchedQuarter(area, x, y)].LosesLowerEdge(e, x, y);
      }
    }

    /** The middle line of a node on the way down to the point goes through the point. */
    ghost predicate MeetsMiddle(x: real, y: real)
      requires Valid()
      reads this, Repr
      decreases depth
    {
      nextIx == -1 && (y == area.MidY() || childs[SearchedQuarter(area, x, y)].MeetsMiddle(x, y))
    }

    /** In the cell in which the point is looked for, the element is the last item that is hit. */
    ghost predicate OnTop(e: Element, x: real, y: real)
      requires Valid()
      reads this, Repr
      decreases depth
    {
      if nextIx == -1 then childs[SearchedQuarter(area, x, y)].OnTop(e, x, y)
      else
        exists i :: 0 <= i < nextIx && items[i] == e && e.HitBy(x, y)
          && forall j :: i < j < nextIx ==> !items[j].HitBy(x, y)
    }

    /** The stored element on top of the point, among those that are not lost. */
    method FindElement(x: real, y: real) returns (r: Element?)
      requires Valid()
      ensures r == null <==> forall e :: e in elems && e.HitBy(x, y) ==> Loses(e, x, y)
      ensures r != null ==> r in elems && r.HitBy(x, y) && !Loses(r, x, y)
      ensures r != null ==> forall e :: e in elems && e.HitBy(x, y) && !Loses(e, x, y) ==> e.z <= r.z
      ensures r != null ==> OnTop(r, x, y)
      decreases depth
    {
      if nextIx == -1 {
        var q := if y < area.MidY() then if x > area.MidX() then NE else NW else if x > area.MidX() then SE else SW;
        hide Goes, Quarter, Lists;
        r := childs[q].FindElement(x, y);
        assert forall e :: e in elems && e.HitBy(x, y) && !Loses(e, x, y) ==> e in childs[q].elems;
      } else {
        var i := nextIx - 1;
        while i >= 0
          invariant -1 <= i < nextIx
          invariant forall j :: i < j < nextIx ==> !items[j].HitBy(x, y)
        {
          if items[i].hitAccess && items[i].hitTest(x, y) {
            assert items[i] in ToSet(items[..nextIx]);
            return items[i];
          }
          i := i - 1;
        }
        r := null;
      }
    }

    /** Puts the element behind the items that are not above it. */
    method InsertSorted(e: Element)
      requires Valid() && 0 <= nextIx < MAX && items != null && e !in elems
      modifies this, items
      ensures Valid() && elems == old(elems) + {e} && nextIx == old(nextIx) + 1
      ensures items == old(items) && Repr == old(Repr) && Inserted(old(Cell()), Cell(), e)
    {
      hide Lists;
      ghost var was := items[..nextIx];
      var it := InsertSortAsc(items, nextIx, e);
      nextIx := nextIx + 1;
      elems := elems + {e};
      InsertedIn(was, old(elems), it, e);
    }

    /** Adds an element that is not stored yet. */
    method AddElement(e: Element)
      requires Valid() && e !in elems && Splittable(elems + {e}, area, depth)
      modifies Repr
      ensures Valid() && fresh(Repr - old(Repr)) && elems == old(elems) + {e}
      ensures 0 <= old(nextIx) < MAX ==> nextIx == old(nextIx) + 1 && Inserted(old(Cell()), Cell(), e)
      ensures old(nextIx) == -1 || old(nextIx) == MAX ==> nextIx == -1
      decreases depth, 1
    {
      if nextIx == -1 {
        AddBelow(e);
      } else if nextIx < MAX {
        if items == null {
          items := new Element[MAX](_ => e);
          Repr := Repr + {items};
        }
        InsertSorted(e);
      } else {
        Split(e);
      }
    }

    /** The quarters are trees of their own. */
    ghost predicate Quarters()
      reads this, set q | 0 <= q < |childs| :: childs[q], set q, o | 0 <= q < |childs| && o in childs[q].Repr :: o
    {
      && |childs| == 4
      && (forall q :: 0 <= q < 4 ==> childs[q] in childs[q].Repr && this !in childs[q].Repr && childs[q].Valid())
      && (forall q, r :: 0 <= q < r < 4 ==> childs[q].Repr !! childs[r].Repr)
      && (forall q :: 0 <= q < 4 ==> childs[q].depth == depth - 1 && childs[q].area == Quarter(area, q))
    }

    /** Adds an element below this node. */
    method AddBelow(e: Element)
      requires Valid() && nextIx == -1 && e !in elems && Splittable(elems + {e}, area, depth)
      modifies Repr
      ensures Valid() && nextIx == -1 && fresh(Repr - old(Repr)) && elems == old(elems) + {e}
      decreases depth, 0
    {
      hide Part, Goes, Splittable, Quarter, Lists, OnlyNodes;
      PassOn(e);
      Join(elems + {e});
    }

    /** Passes an element on to the quarters it goes into. */
    method PassOn(e: Element)
      requires nextIx == -1 && depth > 0 && Quarters() && e !in elems && Splittable(elems + {e}, area, depth)
      requires forall r :: 0 <= r < 4 ==> childs[r].elems == Part(elems, area, r)
      modifies childs[0].Repr, childs[1].Repr, childs[2].Repr, childs[3].Repr
      ensures Quarters() && forall r :: 0 <= r < 4 ==> childs[r].elems == Part(elems + {e}, area, r)
      ensures forall r :: 0 <= r < 4 ==> fresh(childs[r].Repr - old(childs[r].Repr))
      decreases depth - 1, 3
    {
      hide Part, Goes, Splittable, Quarter, Lists, OnlyNodes, Valid;
      var goes := Locate(e);
      for q := 0 to 4
        invariant Quarters()
        invariant forall r :: 0 <= r < 4 ==> childs[r].elems == Part(if r < q then elems + {e} else elems, area, r)
        invariant forall r :: 0 <= r < 4 ==> fresh(childs[r].Repr - old(childs[r].Repr))
      {
        PartPlus(elems, e, area, q);
        if goes[q] {
          BelowSplittable(elems, e, area, depth, q);
          AddTo(q, e);
        }
      }
    }

    method AddTo(q: nat, e: Element)
      requires q < 4 && depth > 0 && Quarters() && e !in childs[q].elems
      requires Splittable(childs[q].elems + {e}, childs[q].area, childs[q].depth)
      modifies childs[q].Repr
      ensures Quarters() && childs[q].elems == old(childs[q].elems) + {e} && fresh(childs[q].Repr - old(childs[q].Repr))
      ensures forall r :: 0 <= r < 4 && r != q ==>
        childs[r].elems == old(childs[r].elems) && childs[r].Repr == old(childs[r].Repr)
      decreases depth - 1, 2
    {
      hide Splittable, Quarter, Lists;
      childs[q].AddElement(e);
    }

    /** Takes note of what the quarters have become. */
    method Join(ghost all: set<Element>)
      requires nextIx == -1 && depth > 0 && items == null && Quarters() && this in Repr && OnlyNodes(Repr)
      requires forall q :: 0 <= q < 4 ==> childs[q].elems == Part(all, area, q)
      modifies this`elems, this`Repr
      ensures Valid() && elems == all
      ensures Repr == old(Repr) + childs[0].Repr + childs[1].Repr + childs[2].Repr + childs[3].Repr
    {
      hide Part, Quarter, Lists;
      elems := all;
      Repr := Repr + childs[0].Repr + childs[1].Repr + childs[2].Repr + childs[3].Repr;
    }

    /** A full leaf becomes a node with four leaves. */
    method Split(e: Element)
      requires Valid() && nextIx == MAX && e !in elems && Splittable(elems + {e}, area, depth)
      modifies Repr
      ensures Valid() && nextIx == -1 && fresh(Repr - old(Repr)) && elems == old(elems) + {e}
      decreases depth, 1, 0
    {
      hide Part, Goes, Splittable, Quarter, Lists;
      var stored := items;
      ghost var all := elems;
      ghost var s := items[..MAX];
      FullSplits(s, all, e, area, depth);
      Divide();
      for i := 0 to MAX
        invariant Valid() && nextIx == -1 && elems == ToSet(s[..i]) && fresh(Repr - {this}) && stored[..] == s
      {
        NextItem(s, all, i);
        SplittableSubset(ToSet(s[..i]) + {s[i]}, all + {e}, area, depth);
        AddBelow(stored[i]);
      }
      assert s[..MAX] == s;
      AddBelow(e);
    }

    /** Four empty leaves below this node. */
    method Divide()
      requires depth > 0
      modifies this
      ensures Valid() && nextIx == -1 && elems == {} && fresh(Repr - {this})
    {
      hide Part, Quarter, Lists, OnlyNodes;
      nextIx, items, childs, Repr := -1, null, [], {this};
      childs := Leaves();
      NothingIn(area);
      OnlyThis(this);
      Join({});
    }

    /** A new leaf for each quarter. */
    method Leaves() returns (leaves: seq<QuadrantNode>)
      requires depth > 0
      ensures |leaves| == 4 && forall r, t :: 0 <= r < t < 4 ==> leaves[r] != leaves[t]
      ensures forall r :: 0 <= r < 4 ==>
        fresh(leaves[r]) && leaves[r].Repr == {leaves[r]} && leaves[r].Valid() && leaves[r].elems == {}
      ensures forall r :: 0 <= r < 4 ==> leaves[r].depth == depth - 1 && leaves[r].area == Quarter(area, r)
    {
      hide Quarter, Goes, Lists, Splittable;
      leaves := [];
      for q := 0 to 4
        invariant |leaves| == q && forall r, t :: 0 <= r < t < q ==> leaves[r] != leaves[t]
        invariant forall r :: 0 <= r < q ==>
          fresh(leaves[r]) && leaves[r].Repr == {leaves[r]} && leaves[r].Valid() && leaves[r].elems == {}
        invariant forall r :: 0 <= r < q ==> leaves[r].depth == depth - 1 && leaves[r].area == Quarter(area, r)
      {
        var leaf := new QuadrantNode(Quarter(area, q), depth - 1);
        leaves := leaves + [leaf];
      }
    }

    /** Removes an element, wherever it is stored. */
    method DeleteElement(e: Element)
      requires Valid()
      modifies Repr
      ensures Valid() && Repr == old(Repr) && elems == old(elems) - {e}
      ensures old(nextIx) != -1 ==> nextIx != -1 && TakenOut(old(Cell()), Cell(), e)
      decreases depth, 1
    {
      if nextIx == -1 {
        var goes := Locate(e);
        for q := 0 to 4
          invariant nextIx == -1 && depth > 0 && items == null && childs == old(childs)
          invariant elems == old(elems) && Repr == old(Repr) && Quarters()
          invariant forall r :: 0 <= r < 4 ==> childs[r].Repr == old(childs[r].Repr)
          invariant forall r :: 0 <= r < q ==> childs[r].elems == Part(elems - {e}, area, r)
          invariant forall r :: q <= r < 4 ==> childs[r].elems == Part(elems, area, r)
        {
          hide Quarter, Lists, Goes;
          PartMinus(elems, e, area, q);
          if goes[q] { DeleteFrom(q, e); }
        }
        hide Part, Quarter, Lists, Goes;
        Join(elems - {e});
      } else if items != null {
        DeleteItem(e);
      }
    }

    method DeleteFrom(q: nat, e: Element)
      requires q < 4 && depth > 0 && Quarters()
      modifies childs[q].Repr
      ensures Quarters() && childs[q].elems == old(childs[q].elems) - {e}
      ensures forall r :: 0 <= r < 4 ==> childs[r].Repr == old(childs[r].Repr)
      ensures forall r :: 0 <= r < 4 && r != q ==> childs[r].elems == old(childs[r].elems)
      decreases depth - 1, 2
    {
      hide Quarter, Lists;
      childs[q].DeleteElement(e);
    }

    method DeleteItem(e: Element)
      requires Valid() && nextIx != -1 && items != null
      modifies this, items
      ensures Valid() && Repr == old(Repr) && elems == old(elems) - {e}
      ensures nextIx != -1 && TakenOut(old(Cell()), Cell(), e)
    {
      hide Lists;
      ghost var was := items[..nextIx];
      var i := 0;
      while i < nextIx && items[i] != e
        invariant 0 <= i <= nextIx && items[..nextIx] == was && forall j :: 0 <= j < i ==> was[j] != e
      {
        i := i + 1;
      }
      DeletedFrom(was, elems, i, e);
      if i < nextIx {
        ShiftDown(items, nextIx, i);
        nextIx := nextIx - 1;
      }
      elems := elems - {e};
    }
  
    /** The order of painting: in a cell that of the items, which puts what is below first; in a divided node
        the north-west comes first, then the north-east, the south-west and the south-east. */
    ghost predicate Layered(s: seq<Element>)
      requires Valid()
      reads this, Repr
      decreases depth, 1
    {
      if nextIx == -1 then
        exists i, j, k :: 0 <= i <= j <= k <= |s| && LayeredAt(s, i, j, k)
      else
        InOrderOf(s, if items == null then [] else items[..nextIx]) && Sorted(s)
    }

    /** The parts that are painted in the four quarters. */
    ghost predicate LayeredAt(s: seq<Element>, i: nat, j: nat, k: nat)
      requires Valid() && nextIx == -1 && i <= j <= k <= |s|
      reads this, Repr
      decreases depth, 0
    {
      && childs[NW].Layered(s[..i]) && childs[NE].Layered(s[i..j])
      && childs[SW].Layered(s[j..k]) && childs[SE].Layered(s[k..])
    }

    lemma {:induction false} NothingLayered()
      requires Valid()
      ensures Layered([])
      decreases depth
    {
      if nextIx == -1 {
        hide Quarter, Goes, Lists;
        childs[NW].NothingLayered();
        childs[NE].NothingLayered();
        childs[SW].NothingLayered();
        childs[SE].NothingLayered();
        var none: seq<Element> := [];
        assert none[..0] == none && none[0..0] == none && none[0..] == none;
        assert LayeredAt(none, 0, 0, 0);
      }
    }

    /** Draws what is stored here, meets the visible area, and is not drawn in this frame yet. */
    method Draw(c: Canvas, v: Rect, frame: int)
      requires Valid()
      modifies c, elems
      ensures Valid() && elems == old(elems)
      ensures Drew(elems, old(Marked(elems, frame)), Marked(elems, frame), old(c.drawn), c.drawn, v)
      ensures forall e :: e in elems ==> e.frame == frame || e.frame == old(e.frame)
      ensures forall e, x, y :: e in elems && e.bounds.Has(x, y) && v.Has(x, y) && area.Has(x, y) ==> e.frame == frame
      ensures old(c.drawn) <= c.drawn && Layered(c.drawn[|old(c.drawn)|..])
      decreases depth, 2
    {
      ghost var was, done := c.drawn, Marked(elems, frame);
      NothingLayered();
      if area.left > v.right || area.right < v.left || area.top > v.bottom || area.bottom < v.top {
        return;
      }
      if nextIx == -1 {
        DrawBelow(c, v, frame);
      } else {
        DrawItems(c, v, frame);
      }
    }

    method DrawItems(c: Canvas, v: Rect, frame: int)
      requires Valid() && nextIx != -1
      modifies c, elems
      ensures Valid() && elems == old(elems)
      ensures Drew(elems, old(Marked(elems, frame)), Marked(elems, frame), old(c.drawn), c.drawn, v)
      ensures forall e :: e in elems ==> e.frame == frame || e.frame == old(e.frame)
      ensures forall e :: e in elems && !e.bounds.Misses(v) ==> e.frame == frame
      ensures old(c.drawn) <= c.drawn && Layered(c.drawn[|old(c.drawn)|..])
    {
      hide Drew, InOrderOf, Layered;
      ghost var was, done, more: seq<Element> := c.drawn, Marked(elems, frame), [];
      ghost var list := if items == null then [] else items[..nextIx];
      DrewNothing(elems, done, was, v);
      NothingInOrder();
      for i := 0 to nextIx
        invariant Valid() && elems == old(elems) && nextIx == old(nextIx) && items == old(items)
        invariant Drew(elems, done, Marked(elems, frame), was, c.drawn, v)
        invariant forall e :: e in elems ==> e.frame == frame || e.frame == old(e.frame)
        invariant forall j :: 0 <= j < i ==> items[j].frame == frame || items[j].bounds.Misses(v)
        invariant items != null ==> items[..nextIx] == list
        invariant c.drawn == was + more && InOrderOf(more, list[..i])
      {
        assert items[i] in elems by { assert items[i] in ToSet(items[..nextIx]); }
        ghost var drawn := c.drawn;
        DrawItem(c, items[i], v, frame, elems, done, was);
        InOrderMore(more, list, i);
        if c.drawn != drawn { more := more + [list[i]]; }
      }
      assert list[..|list|] == list;
      ItemsLayered(more);
      assert c.drawn[|was|..] == more;
      forall e | e in elems && !e.bounds.Misses(v) ensures e.frame == frame {
        if items != null { assert e in ToSet(items[..nextIx]); }
      }
    }

    lemma ItemsLayered(s: seq<Element>)
      requires Valid() && nextIx != -1 && InOrderOf(s, if items == null then [] else items[..nextIx])
      ensures Layered(s)
    {
      InOrderSorted(s, if items == null then [] else items[..nextIx]);
    }

    method DrawBelow(c: Canvas, v: Rect, frame: int)
      requires Valid() && nextIx == -1
      modifies c, elems
      ensures Valid() && elems == old(elems)
      ensures Drew(elems, old(Marked(elems, frame)), Marked(elems, frame), old(c.drawn), c.drawn, v)
      ensures forall e :: e in elems ==> e.frame == frame || e.frame == old(e.frame)
      ensures forall e, x, y :: e in elems && e.bounds.Has(x, y) && v.Has(x, y) && area.Has(x, y) ==> e.frame == frame
      ensures old(c.drawn) <= c.drawn && Layered(c.drawn[|old(c.drawn)|..])
      decreases depth, 1
    {
      hide Drew, Quarter, Goes, Lists, Shown, Layered, Painted;
      ghost var was, done, parts: seq<seq<Element>> := c.drawn, Marked(elems, frame), [];
      DrewNothing(elems, done, was, v);
      var order := [NW, NE, SW, SE];
      NothingPainted();
      for i := 0 to 4
        invariant Valid() && elems == old(elems) && nextIx == -1
        invariant Drew(elems, done, Marked(elems, frame), was, c.drawn, v)
        invariant forall e :: e in elems ==> e.frame == frame || e.frame == old(e.frame)
        invariant forall k :: 0 <= k < i ==> Shown(order[k], v, frame)
        invariant |parts| == i && order == [NW, NE, SW, SE] && c.drawn == was + Flat(parts)
        invariant Painted(order[..i], parts)
      {
        ghost var drawn := c.drawn;
        DrawQuarter(order[i], c, v, frame, done, was, order[..i], parts);
        parts := parts + [c.drawn[|drawn|..]];
        assert parts[..i] == parts[..|parts| - 1] && order[..i] + [order[i]] == order[..i + 1];
      }
      assert order[0] == NW && order[1] == NE && order[2] == SW && order[3] == SE;
      QuartersShown(v, frame);
      FlatFour(parts);
      assert order[..4] == [NW, NE, SW, SE];
      QuartersLayered(parts);
      assert c.drawn[|was|..] == Flat(parts);
    }

    lemma QuartersLayered(parts: seq<seq<Element>>)
      requires Valid() && nextIx == -1 && |parts| == 4 && Flat(parts) == parts[0] + parts[1] + parts[2] + parts[3]
      requires Painted([NW, NE, SW, SE], parts)
      ensures Layered(Flat(parts))
    {
      var s, i, j := Flat(parts), |parts[0]|, |parts[0]| + |parts[1]|;
      var k := j + |parts[2]|;
      ghost var order := [NW, NE, SW, SE];
      assert order[0] == NW && order[1] == NE && order[2] == SW && order[3] == SE;
      assert s[..i] == parts[0] && s[i..j] == parts[1] && s[j..k] == parts[2] && s[k..] == parts[3];
      assert LayeredAt(s, i, j, k);
    }

    lemma NothingPainted()
      requires Valid() && nextIx == -1
      ensures Painted([], [])
    {
    }

    /** The parts are painted in the order of their quarters. */
    ghost predicate Painted(quarters: seq<nat>, parts: seq<seq<Element>>)
      requires Valid() && nextIx == -1 && |parts| == |quarters|
      reads this, Repr
    {
      forall k :: 0 <= k < |quarters| ==> quarters[k] < 4 && childs[quarters[k]].Layered(parts[k])
    }

    method DrawQuarter(q: nat, c: Canvas, v: Rect, frame: int, ghost done: set<Element>, ghost was: seq<Element>,
        ghost shown: seq<nat>, ghost parts: seq<seq<Element>>)
      requires Valid() && nextIx == -1 && q < 4 && Drew(elems, done, Marked(elems, frame), was, c.drawn, v)
      requires forall k :: 0 <= k < |shown| ==> shown[k] < 4 && Shown(shown[k], v, frame)
      requires |parts| == |shown| && Painted(shown, parts)
      modifies c, elems
      ensures Valid() && elems == old(elems) && nextIx == -1
      ensures Drew(elems, done, Marked(elems, frame), was, c.drawn, v)
      ensures forall e :: e in elems ==> e.frame == frame || e.frame == old(e.frame)
      ensures Shown(q, v, frame) && forall k :: 0 <= k < |shown| ==> Shown(shown[k], v, frame)
      ensures old(c.drawn) <= c.drawn && Painted(shown + [q], parts + [c.drawn[|old(c.drawn)|..]])
      decreases depth, 0
    {
      hide Drew, Quarter, Goes, Lists, Layered;
      ghost var marked, drawn := Marked(elems, frame), c.drawn;
      ghost var inner := Marked(childs[q].elems, frame);
      childs[q].Draw(c, v, frame);
      DrewMore(elems, childs[q].elems, done, marked, Marked(elems, frame), inner, Marked(childs[q].elems, frame), was,
        drawn, c.drawn, v);
    }

    lemma {:induction false} QuartersShown(v: Rect, frame: int)
      requires Valid() && nextIx == -1 && Shown(NW, v, frame)
      requires Shown(NE, v, frame) && Shown(SW, v, frame) && Shown(SE, v, frame)
      ensures forall e, x, y :: e in elems && e.bounds.Has(x, y) && v.Has(x, y) && area.Has(x, y) ==> e.frame == frame
    {
      hide Quarter, Goes, Lists;
      forall e, x, y | e in elems && e.bounds.Has(x, y) && v.Has(x, y) && area.Has(x, y) ensures e.frame == frame {
        var q := QuarterAt(e, area, x, y);
        assert q == NE || q == NW || q == SW || q == SE;
      }
    }

    /** In quarter `q` everything visible is drawn. */
    ghost predicate Shown(q: nat, v: Rect, frame: int)
      requires Valid() && nextIx == -1 && q < 4
      reads this, Repr, elems
    {
      forall e, x, y :: e in childs[q].elems && e.bounds.Has(x, y) && v.Has(x, y) && childs[q].area.Has(x, y) ==>
        e.frame == frame
    }
  }

  ghost function Flat(parts: seq<seq<Element>>): seq<Element> {
    if parts == [] then [] else Flat(parts[..|parts| - 1]) + parts[|parts| - 1]
  }

  lemma FlatFour(parts: seq<seq<Element>>)
    requires |parts| == 4
    ensures Flat(parts) == parts[0] + parts[1] + parts[2] + parts[3]
  {
    var p3, p2, p1 := parts[..3], parts[..2], parts[..1];
    assert p3[..2] == p2 && p2[..1] == p1 && p1[..0] == [];
    assert Flat(p1) == parts[0] && Flat(p2) == Flat(p1) + parts[1] && Flat(p3) == Flat(p2) + parts[2];
  }

  lemma NothingInOrder()
    ensures InOrderOf([], [])
  {
  }

  lemma NothingIn(a: Rect)
    ensures forall q :: Part({}, a, q) == {}
  {
  }

  lemma OnlyThis(n: QuadrantNode)
    ensures OnlyNodes({n})
  {
  }

  /** The quarter of a point of an element is one the element goes into. */
  lemma QuarterAt(e: Element, a: Rect, x: real, y: real) returns (q: nat)
    requires e.bounds.Has(x, y) && a.Has(x, y)
    ensures q < 4 && Goes(e, a, q) && Quarter(a, q).Has(x, y)
  {
    q := if y <= a.MidY() then if x <= a.MidX() then NW else NE else if x <= a.MidX() then SW else SE;
  }

  lemma DrewMore(all: set<Element>, part: set<Element>, m0: set<Element>, m1: set<Element>, m2: set<Element>,
      p1: set<Element>, p2: set<Element>,
      d0: seq<Element>, d1: seq<Element>, d2: seq<Element>, v: Rect)
    requires part <= all && Drew(all, m0, m1, d0, d1, v) && Drew(part, p1, p2, d1, d2, v)
    requires p1 == m1 * part && p2 == m2 * part && m1 <= m2 <= all && m2 - part == m1 - part
    ensures Drew(all, m0, m2, d0, d2, v)
  {
    var a, b := d1[|d0|..], d2[|d1|..];
    assert p2 - p1 == m2 - m1 by {
      forall e ensures e in p2 - p1 <==> e in m2 - m1 { assert e in m2 - part <==> e in m1 - part; }
    }
    assert d1 == d0 + a && d2 == d1 + b && d2[|d0|..] == a + b;
    BothDistinct(a, b);
    assert (m1 - m0) + (m2 - m1) == m2 - m0;
  }

  lemma BothDistinct(a: seq<Element>, b: seq<Element>)
    requires Distinct(a) && Distinct(b) && ToSet(a) !! ToSet(b)
    ensures Distinct(a + b) && ToSet(a + b) == ToSet(a) + ToSet(b)
  {
    var ab := a + b;
    forall e ensures e in ToSet(ab) <==> e in ToSet(a) + ToSet(b) {
      if e in ToSet(b) {
        var i :| 0 <= i < |b| && b[i] == e;
        assert ab[|a| + i] == e;
      }
      if e in ToSet(a) {
        var i :| 0 <= i < |a| && a[i] == e;
        assert ab[i] == e;
      }
    }
    forall i, j | 0 <= i < j < |ab| ensures ab[i] != ab[j] {
      if i < |a| { assert ab[i] in ToSet(a); }
      if j >= |a| { assert ab[j] in ToSet(b); }
    }
  }

  /** Draws a visible element that does not have the frame's mark yet, and marks it. */
  method DrawItem(c: Canvas, e: Element, v: Rect, frame: int, ghost all: set<Element>, ghost done: set<Element>,
      ghost was: seq<Element>)
    requires e in all && Drew(all, done, Marked(all, frame), was, c.drawn, v)
    modifies c, e
    ensures Drew(all, done, Marked(all, frame), was, c.drawn, v)
    ensures (e.frame == frame || e.frame == old(e.frame)) && (e.frame == frame || e.bounds.Misses(v))
    ensures c.drawn == old(c.drawn) || c.drawn == old(c.drawn) + [e]
  {
    hide Drew;
    if e.frame != frame && !e.bounds.Misses(v) {
      ghost var marked, drawn := Marked(all, frame), c.drawn;
      c.Draw(e);
      e.frame := frame;
      assert Marked(all, frame) == marked + {e};
      DrewOne(all, done, marked, was, drawn, v, e);
    }
  }

  lemma DrewNothing(elems: set<Element>, m: set<Element>, d: seq<Element>, v: Rect)
    requires m <= elems
    ensures Drew(elems, m, m, d, d, v)
  {
  }

  lemma DrewOne(elems: set<Element>, m0: set<Element>, m1: set<Element>, d0: seq<Element>, d1: seq<Element>, v: Rect,
      e: Element)
    requires Drew(elems, m0, m1, d0, d1, v) && e in elems && e !in m1 && !e.bounds.Misses(v)
    ensures Drew(elems, m0, m1 + {e}, d0, d1 + [e], v)
  {
    var a := d1[|d0|..];
    assert (d1 + [e])[|d0|..] == a + [e];
    assert [e][0] == e && ToSet([e]) == {e};
    BothDistinct(a, [e]);
  }

  ghost function Marked(s: set<Element>, frame: int): set<Element>
    reads s
  {
    set e | e in s && e.frame == frame
  }

  /** What was drawn is what is marked now and was not marked before: each element once, and only such
      that meet the visible area. */
  ghost predicate Drew(elems: set<Element>, marked: set<Element>, marked': set<Element>, drawn: seq<Element>,
      drawn': seq<Element>, v: Rect) {
    && marked <= marked' <= elems
    && drawn <= drawn' && Distinct(drawn'[|drawn|..]) && ToSet(drawn'[|drawn|..]) == marked' - marked
    && (forall e :: e in marked' - marked ==> !e.bounds.Misses(v))
  }

  lemma PartMinus(s: set<Element>, e: Element, a: Rect, q: nat)
    ensures Part(s - {e}, a, q) == if Goes(e, a, q) then Part(s, a, q) - {e} else Part(s, a, q)
  {
  }

  /** Closes the gap at `i`. */
  method ShiftDown(a: array<Element>, n: nat, i: nat)
    requires i < n <= a.Length
    modifies a
    ensures a[..n - 1] == old(a[..n])[..i] + old(a[..n])[i + 1..]
  {
    var j := i;
    while j < n - 1
      invariant i <= j <= n - 1
      invariant forall k :: 0 <= k < a.Length ==> a[k] == if i <= k < j then old(a[k + 1]) else old(a[k])
    {
      a[j] := a[j + 1];
      j := j + 1;
    }
  }

  lemma DeletedFrom(s: seq<Element>, elems: set<Element>, i: nat, e: Element)
    requires Lists(s, elems) && i <= |s| && (forall j :: 0 <= j < i ==> s[j] != e) && (i < |s| ==> s[i] == e)
    ensures i < |s| ==> Lists(s[..i] + s[i + 1..], elems - {e})
    ensures i == |s| ==> elems - {e} == elems
  {
    if i < |s| {
      var t := s[..i] + s[i + 1..];
      forall x ensures x in ToSet(t) <==> x in elems - {e} {
        if x in ToSet(t) {
          var j :| 0 <= j < |t| && t[j] == x;
          assert s[if j < i then j else j + 1] == x;
        }
        if x in elems - {e} {
          var j :| 0 <= j < |s| && s[j] == x;
          assert t[if j < i then j else j - 1] == x;
        }
      }
    } else {
      assert e !in ToSet(s);
    }
  }

  /** A full leaf has to be divided, and can be. */
  lemma FullSplits(s: seq<Element>, all: set<Element>, e: Element, a: Rect, d: nat)
    requires |s| == MAX && Lists(s, all) && e !in all && Splittable(all + {e}, a, d)
    ensures d > 0 && ToSet(s) == all
  {
    DistinctSize(s);
    assert |all + {e}| == MAX + 1;
  }

  lemma NextItem(s: seq<Element>, all: set<Element>, i: nat)
    requires i < |s| && Lists(s, all)
    ensures ToSet(s[..i + 1]) == ToSet(s[..i]) + {s[i]} && ToSet(s[..i]) + {s[i]} <= all && s[i] !in ToSet(s[..i])
  {
  }

  lemma PartPlus(s: set<Element>, e: Element, a: Rect, q: nat)
    ensures Part(s + {e}, a, q) == if Goes(e, a, q) then Part(s, a, q) + {e} else Part(s, a, q)
    ensures e !in s ==> e !in Part(s, a, q)
  {
  }

  lemma BelowSplittable(s: set<Element>, e: Element, a: Rect, d: nat, q: nat)
    requires d > 0 && q < 4 && Goes(e, a, q) && Splittable(s + {e}, a, d)
    ensures Splittable(Part(s, a, q) + {e}, Quarter(a, q), d - 1)
  {
    PartPlus(s, e, a, q);
    if |s + {e}| <= MAX { Smaller(Part(s, a, q) + {e}, s + {e}); }
  }

  /** Shifts the items above the new one, and puts it there; returns its place. */
  method InsertSortAsc(a: array<Element>, n: nat, e: Element) returns (it: nat)
    requires n < a.Length
    modifies a
    ensures var s := old(a[..n]);
      it <= n && (forall j :: 0 <= j < it ==> s[j].z <= e.z) && (it < n ==> e.z < s[it].z)
        && a[..n + 1] == s[..it] + [e] + s[it..]
  {
    it := 0;
    while it < n && a[it].z <= e.z
      invariant it <= n && a[..] == old(a[..]) && forall j :: 0 <= j < it ==> a[j].z <= e.z
    {
      it := it + 1;
    }
    var k := n;
    while k > it
      invariant it <= k <= n
      invariant forall j :: 0 <= j < a.Length ==> a[j] == if k < j <= n then old(a[j - 1]) else old(a[j])
    {
      a[k] := a[k - 1];
      k := k - 1;
    }
    a[it] := e;
    PutIn(old(a[..]), a[..], n, it, e);
  }

  lemma PutIn(was: seq<Element>, now: seq<Element>, n: nat, it: nat, e: Element)
    requires it <= n < |was| == |now| && now[it] == e
    requires (forall j :: 0 <= j < it ==> now[j] == was[j]) && forall j :: it <= j < n ==> now[j + 1] == was[j]
    ensures now[..n + 1] == was[..n][..it] + [e] + was[..n][it..]
  {
    var s := was[..n][..it] + [e] + was[..n][it..];
    forall j | 0 <= j <= n ensures now[j] == s[j] {
      if j > it { assert s[j] == was[j - 1]; }
    }
    assert now[..n + 1] == s;
  }

  lemma InsertedAt(s: seq<Element>, i: nat, e: Element, j: nat)
    requires i <= |s| && j <= |s|
    ensures (s[..i] + [e] + s[i..])[j] == if j < i then s[j] else if j == i then e else s[j - 1]
  {
  }

  lemma InsertedIn(s: seq<Element>, elems: set<Element>, i: nat, e: Element)
    requires i <= |s| && Lists(s, elems) && e !in elems
    requires (forall j :: 0 <= j < i ==> s[j].z <= e.z) && (i < |s| ==> e.z < s[i].z)
    ensures Lists(s[..i] + [e] + s[i..], elems + {e})
  {
    var t := s[..i] + [e] + s[i..];
    forall j, k | 0 <= j < k < |t| ensures t[j] != t[k] && t[j].z <= t[k].z {
      InsertedAt(s, i, e, j);
      InsertedAt(s, i, e, k);
      assert forall m :: 0 <= m < |s| ==> s[m] in elems;
    }
    forall x ensures x in ToSet(t) <==> x in elems + {e} {
      if x in ToSet(t) {
        var j :| 0 <= j < |t| && t[j] == x;
        InsertedAt(s, i, e, j);
      }
      if x in elems {
        var j :| 0 <= j < |s| && s[j] == x;
        InsertedAt(s, i, e, if j < i then j else j + 1);
      }
      InsertedAt(s, i, e, i);
    }
  }

  /* ---- the whole index ---- */

  datatype Op = Add(e: Element) | Delete(e: Element)

  /** The plain set the tree stands for. */
  function Stored(ops: seq<Op>): set<Element> {
    if ops == [] then {}
    else
      var op := ops[|ops| - 1];
      if op.Add? then Stored(ops[..|ops| - 1]) + {op.e} else Stored(ops[..|ops| - 1]) - {op.e}
  }

  function Ever(ops: seq<Op>): set<Element> {
    set i | 0 <= i < |ops| :: ops[i].e
  }

  lemma {:induction false} StoredWasAdded(ops: seq<Op>)
    ensures Stored(ops) <= Ever(ops)
  {
    if ops != [] {
      var n := |ops| - 1;
      StoredWasAdded(ops[..n]);
      assert forall e :: e in Ever(ops[..n]) ==> e in Ever(ops);
      assert ops[n].e in Ever(ops);
    }
  }

  /** After any history of additions and deletions the tree stores what the plain set holds. */
  method Replay(area: Rect, ghost depth: nat, ops: seq<Op>) returns (root: QuadrantNode)
    requires Splittable(Ever(ops), area, depth)
    requires forall i :: 0 <= i < |ops| && ops[i].Add? ==> ops[i].e !in Stored(ops[..i])
    ensures root.Valid() && root.elems == Stored(ops) && root.area == area
  {
    root := new QuadrantNode(area, depth);
    for i := 0 to |ops|
      invariant root.Valid() && fresh(root.Repr) && root.area == area
      invariant root.depth == depth && root.elems == Stored(ops[..i])
    {
      assert ops[..i + 1][..i] == ops[..i];
      if ops[i].Add? {
        StoredWasAdded(ops[..i + 1]);
        SplittableSubset(Stored(ops[..i + 1]), Ever(ops), area, depth);
        root.AddElement(ops[i].e);
      } else {
        root.DeleteElement(ops[i].e);
      }
    }
    assert ops[..|ops|] == ops;
  }

  lemma Overlap(r: Rect, v: Rect) returns (x: real, y: real)
    requires r.WellFormed() && v.WellFormed() && !r.Misses(v)
    ensures r.Has(x, y) && v.Has(x, y)
  {
    x := if r.left >= v.left then r.left else v.left;
    y := if r.top >= v.top then r.top else v.top;
  }

  lemma LayeredCell(root: QuadrantNode, s: seq<Element>)
    requires root.Valid() && root.Layered(s)
    ensures root.nextIx != -1 ==> Sorted(s)
  {
  }

  /** Drawing with a fresh frame number draws exactly the elements that meet the visible area, each once,
      and those of a cell from the lowest to the topmost. */
  method Render(root: QuadrantNode, c: Canvas, v: Rect, frame: int) returns (ghost more: seq<Element>)
    requires root.Valid() && v.WellFormed()
    requires forall e :: e in root.elems ==> e.frame != frame && e.bounds.WellFormed()
    requires forall e, x, y :: e in root.elems && e.bounds.Has(x, y) ==> root.area.Has(x, y)
    modifies c, root.elems
    ensures root.Valid() && root.elems == old(root.elems)
    ensures c.drawn == old(c.drawn) + more && Distinct(more)
    ensures forall e :: e in ToSet(more) <==> e in root.elems && !e.bounds.Misses(v)
    ensures root.Layered(more) && (root.nextIx != -1 ==> Sorted(more))
  {
    hide QuadrantNode.Layered, Sorted;
    root.Draw(c, v, frame);
    more := c.drawn[|old(c.drawn)|..];
    LayeredCell(root, more);
    forall e | e in root.elems && !e.bounds.Misses(v) ensures e.frame == frame {
      var x, y := Overlap(e.bounds, v);
    }
  }

  /* ---- a hit that is not found ---- */

  /** An element that no point hits. */
  method Unhit(bounds: Rect) returns (e: Element)
    ensures fresh(e) && e.bounds == bounds && forall x, y :: !e.hitTest(x, y)
  {
    e := new Element(bounds, 0, true, (x, y) => false);
  }

  /** A tree over an area of 16 by 16 that is divided, because most of its elements are in the south-east. */
  method Crowded(e: Element) returns (root: QuadrantNode)
    requires e.bounds.right <= 8.0 && e.bounds.bottom <= 8.0 && e.bounds.left <= 8.0 && e.bounds.top <= 8.0
    ensures root.Valid() && root.area == Rect(0.0, 0.0, 16.0, 16.0) && root.nextIx == -1
    ensures e in root.elems && forall f, x, y :: f in root.elems && f != e ==> !f.hitTest(x, y)
  {
    hide Goes, Quarter, Lists, Splittable, Part;
    var area, corner := Rect(0.0, 0.0, 16.0, 16.0), Rect(12.0, 12.0, 13.0, 13.0);
    root := new QuadrantNode(area, 1);
    OnlyCorner({e}, e, area);
    root.AddElement(e);
    for i := 0 to MAX
      invariant root.Valid() && fresh(root.Repr) && root.area == area && root.depth == 1
      invariant e in root.elems && |root.elems| == i + 1
      invariant forall f :: f in root.elems && f != e ==> f.bounds == corner && forall x, y :: !f.hitTest(x, y)
      invariant forall f :: f in root.elems ==> allocated(f)
    {
      var f := Unhit(corner);
      OnlyCorner(root.elems + {f}, e, area);
      root.AddElement(f);
    }
    NotALeaf(root);
  }

  /** A point of an element whose lower edge is on the middle line is looked for in the south-west, and the
      element is not found. */
  method LostHit() returns (root: QuadrantNode, e: Element, r: Element?)
    ensures root.Valid() && e in root.elems && e.HitBy(1.0, 8.0) && e.bounds.Has(1.0, 8.0)
    ensures r == null
  {
    hide Lists, Splittable, Part;
    e := new Element(Rect(1.0, 1.0, 2.0, 8.0), 0, true, (x, y) => 1.0 <= x <= 2.0 && 1.0 <= y <= 8.0);
    root := Crowded(e);
    assert root.Loses(e, 1.0, 8.0);
    r := root.FindElement(1.0, 8.0);
  }

  /** A line is hit up to 3 units beside it, but its bounds are those of its ends: a point below the middle
      line hits a line above it, which is not found. */
  method LostLine() returns (root: QuadrantNode, e: Element, r: Element?)
    ensures root.Valid() && e in root.elems && e.HitBy(3.0, 9.0) && e.bounds == Rect(1.0, 7.0, 6.0, 7.0)
    ensures r == null
  {
    hide Lists, Splittable, Part;
    e := new Element(Rect(1.0, 7.0, 6.0, 7.0), 0, true, (x, y) => 1.0 <= x <= 6.0 && 4.0 <= y <= 10.0);
    root := Crowded(e);
    assert root.Loses(e, 3.0, 9.0);
    r := root.FindElement(3.0, 9.0);
  }

  /** All but one of the elements lie in the south-east, and that one in the north-west. */
  lemma OnlyCorner(s: set<Element>, e: Element, a: Rect)
    requires a == Rect(0.0, 0.0, 16.0, 16.0) && e in s && |s| <= MAX + 1
    requires e.bounds.right <= 8.0 && e.bounds.bottom <= 8.0 && e.bounds.left <= 8.0 && e.bounds.top <= 8.0
    requires forall f :: f in s && f != e ==> f.bounds == Rect(12.0, 12.0, 13.0, 13.0)
    ensures Splittable(s, a, 1)
  {
    forall q | 0 <= q < 4 ensures |Part(s, a, q)| <= MAX {
      if q == SE {
        assert Part(s, a, q) == s - {e};
      } else {
        assert Part(s, a, q) <= {e};
        Smaller(Part(s, a, q), {e});
      }
    }
  }

  lemma NotALeaf(n: QuadrantNode)
    requires n.Valid() && |n.elems| > MAX
    ensures n.nextIx == -1
  {
    if n.nextIx != -1 { DistinctSize(if n.items == null then [] else n.items[..n.nextIx]); }
  }
}
