/** Collecting the library objects an algorithm needs. */
module Linking {

  type Table = map<string, seq<string>>

  /** The dependency tables of the libraries, by name. */
  type Libraries = map<string, Table>

  datatype Obj = Obj(lib: string, name: string)

  /* ---- dependencies ---- */

  function IndexOf(s: string, c: char): (i: nat)
    ensures i <= |s| && (i < |s| ==> s[i] == c) && forall k :: 0 <= k < i ==> s[k] != c
  {
    if s == "" || s[0] == c then 0 else 1 + IndexOf(s[1..], c)
  }

  /** An entry of a dependency table names an object of the same library, or `<library>object`. */
  predicate EntryOk(j: string) {
    j != "" && (j[0] == '<' ==> '>' in j)
  }

  function Parse(lib: string, j: string): Obj
    requires EntryOk(j)
  {
    if j[0] == '<' then (var k := IndexOf(j, '>'); Obj(j[1..k], j[k + 1..])) else Obj(lib, j)
  }

  lemma {:induction false} IndexIs(s: string, c: char, i: nat)
    requires i <= |s| && (forall k :: 0 <= k < i ==> s[k] != c) && (i < |s| ==> s[i] == c)
    ensures IndexOf(s, c) == i
  {
    if s != "" && s[0] != c { IndexIs(s[1..], c, i - 1); }
  }

  /** An entry names an object `n` of the library `l` exactly when it is `n` itself, in a table of `l`, or
      it is `n` behind `l` in angle brackets. */
  lemma {:induction false} ParseIff(lib: string, j: string, o: Obj)
    requires EntryOk(j)
    ensures Parse(lib, j) == o <==>
      if j[0] == '<' then '>' !in o.lib && j == "<" + o.lib + ">" + o.name else o == Obj(lib, j)
  {
    if j[0] == '<' {
      var k := IndexOf(j, '>');
      assert k < |j|;
      assert j == "<" + j[1..k] + ">" + j[k + 1..];
      if '>' !in o.lib && j == "<" + o.lib + ">" + o.name {
        var i := 1 + |o.lib|;
        forall m | 0 <= m < i ensures j[m] != '>' { if m > 0 { assert j[m] == o.lib[m - 1]; } }
        assert j[i] == '>';
        IndexIs(j, '>', i);
        assert j[1..i] == o.lib && j[i + 1..] == o.name;
      }
    }
  }

  ghost predicate TablesOk(libs: Libraries) {
    forall l, o, i :: l in libs && o in libs[l] && 0 <= i < |libs[l][o]| ==> EntryOk(libs[l][o][i])
  }

  /** The entries of an object; an object that is in no table has none. */
  function EntriesOf(libs: Libraries, n: Obj): seq<string> {
    if n.lib in libs && n.name in libs[n.lib] then libs[n.lib][n.name] else []
  }

  function Deps(libs: Libraries, n: Obj): set<Obj>
    requires TablesOk(libs)
  {
    var es := EntriesOf(libs, n);
    set i | 0 <= i < |es| :: Parse(n.lib, es[i])
  }

  ghost predicate IsPath(libs: Libraries, path: seq<Obj>)
    requires TablesOk(libs)
  {
    forall i :: 0 <= i < |path| - 1 ==> path[i + 1] in Deps(libs, path[i])
  }

  /** The first object depends on the second one, directly or through others. */
  ghost predicate Needs(libs: Libraries, n: Obj, x: Obj)
    requires TablesOk(libs)
  {
    exists path: seq<Obj> :: |path| >= 2 && path[0] == n && path[|path| - 1] == x && IsPath(libs, path)
  }

  ghost predicate Acyclic(libs: Libraries)
    requires TablesOk(libs)
  {
    forall n :: !Needs(libs, n, n)
  }

  lemma NeedsFirst(libs: Libraries, n: Obj, d: Obj, x: Obj)
    requires TablesOk(libs) && d in Deps(libs, n)
    ensures Needs(libs, n, d) && (Needs(libs, d, x) ==> Needs(libs, n, x))
  {
    assert IsPath(libs, [n, d]);
    if Needs(libs, d, x) {
      var path: seq<Obj> :| |path| >= 2 && path[0] == d && path[|path| - 1] == x && IsPath(libs, path);
      var longer := [n] + path;
      assert IsPath(libs, longer);
    }
  }

  /** The objects that the tables mention as dependencies. */
  ghost function Mentioned(libs: Libraries): set<Obj>
    requires TablesOk(libs)
  {
    set l, o, d | l in libs && o in libs[l] && d in Deps(libs, Obj(l, o)) :: d
  }

  lemma NeedsMentioned(libs: Libraries, n: Obj, x: Obj)
    requires TablesOk(libs) && Needs(libs, n, x)
    ensures x in Mentioned(libs)
  {
    var path: seq<Obj> :| |path| >= 2 && path[0] == n && path[|path| - 1] == x && IsPath(libs, path);
    var p := path[|path| - 2];
    assert x in Deps(libs, p) && p.lib in libs && p.name in libs[p.lib];
    assert Obj(p.lib, p.name) == p;
  }

  ghost function Needed(libs: Libraries, n: Obj): set<Obj>
    requires TablesOk(libs)
  {
    set x | x in Mentioned(libs) && Needs(libs, n, x)
  }

  lemma {:induction false} SubsetSize(a: set<Obj>, b: set<Obj>)
    requires a <= b
    ensures |a| <= |b|
  {
    if a != {} {
      var x :| x in a;
      SubsetSize(a - {x}, b - {x});
    }
  }

  /** When no object needs itself, the number of objects that are needed ranks the objects. */
  lemma AcyclicIsRanked(libs: Libraries) returns (rank: Obj -> nat)
    requires TablesOk(libs) && Acyclic(libs)
    ensures Ranked(libs, rank)
  {
    rank := n => |Needed(libs, n)|;
    forall n, d | d in Deps(libs, n) ensures rank(d) < rank(n) {
      forall x | x in Needed(libs, d) + {d} ensures x in Needed(libs, n) {
        NeedsFirst(libs, n, d, x);
        NeedsMentioned(libs, n, x);
      }
      SubsetSize(Needed(libs, d) + {d}, Needed(libs, n));
    }
  }

  lemma {:induction false} RankFalls(libs: Libraries, rank: Obj -> nat, path: seq<Obj>)
    requires TablesOk(libs) && Ranked(libs, rank) && IsPath(libs, path) && |path| >= 2
    ensures rank(path[|path| - 1]) < rank(path[0])
  {
    assert path[1] in Deps(libs, path[0]);
    if |path| > 2 {
      var rest := path[1..];
      assert IsPath(libs, rest) by {
        forall i | 0 <= i < |rest| - 1 ensures rest[i + 1] in Deps(libs, rest[i]) {
          assert path[i + 2] in Deps(libs, path[i + 1]);
        }
      }
      RankFalls(libs, rank, rest);
    }
  }

  /** Dependency tables are acyclic exactly when their objects can be ranked. */
  lemma AcyclicIffRanked(libs: Libraries)
    requires TablesOk(libs)
    ensures Acyclic(libs) <==> exists rank :: Ranked(libs, rank)
  {
    if Acyclic(libs) {
      var rank := AcyclicIsRanked(libs);
    }
    if rank :| Ranked(libs, rank) {
      forall n ensures !Needs(libs, n, n) {
        if Needs(libs, n, n) {
          var path: seq<Obj> :| |path| >= 2 && path[0] == n && path[|path| - 1] == n && IsPath(libs, path);
          RankFalls(libs, rank, path);
        }
      }
    }
  }

  /** Every object ranks above those it depends on. */
  ghost predicate Ranked(libs: Libraries, rank: Obj -> nat)
    requires TablesOk(libs)
  {
    forall n, d :: d in Deps(libs, n) ==> rank(d) < rank(n)
  }

  ghost predicate Closed(libs: Libraries, s: set<Obj>)
    requires TablesOk(libs)
  {
    forall n :: n in s ==> Deps(libs, n) <= s
  }

  /** The object and everything it depends on, across libraries. */
  ghost function Reach(libs: Libraries, rank: Obj -> nat, n: Obj): (s: set<Obj>)
    requires TablesOk(libs) && Ranked(libs, rank)
    ensures n in s
    decreases rank(n)
  {
    {n} + set d, x | d in Deps(libs, n) && x in Reach(libs, rank, d) :: x
  }

  /** It is closed, and the least closed set the object is in. */
  lemma {:induction false} ReachIsLeastClosed(libs: Libraries, rank: Obj -> nat, n: Obj, t: set<Obj>)
    requires TablesOk(libs) && Ranked(libs, rank)
    ensures Closed(libs, Reach(libs, rank, n))
    ensures n in t && Closed(libs, t) ==> Reach(libs, rank, n) <= t
    decreases rank(n)
  {
    forall d | d in Deps(libs, n)
      ensures Closed(libs, Reach(libs, rank, d)) && (n in t && Closed(libs, t) ==> Reach(libs, rank, d) <= t)
    {
      ReachIsLeastClosed(libs, rank, d, t);
    }
    var s := Reach(libs, rank, n);
    forall x | x in s ensures Deps(libs, x) <= s {
      if x != n {
        var d :| d in Deps(libs, n) && x in Reach(libs, rank, d);
        assert Deps(libs, x) <= Reach(libs, rank, d);
      }
    }
  }

  /** What is reached is the object and what it needs along any path. */
  lemma {:induction false} ReachIsNeeded(libs: Libraries, rank: Obj -> nat, n: Obj)
    requires TablesOk(libs) && Ranked(libs, rank)
    ensures Reach(libs, rank, n) == {n} + Needed(libs, n)
    decreases rank(n)
  {
    forall x | x in Reach(libs, rank, n) && x != n ensures x in Needed(libs, n) {
      var d :| d in Deps(libs, n) && x in Reach(libs, rank, d);
      ReachIsNeeded(libs, rank, d);
      NeedsFirst(libs, n, d, x);
      NeedsMentioned(libs, n, x);
    }
    forall x | x in Needed(libs, n) ensures x in Reach(libs, rank, n) {
      var path: seq<Obj> :| |path| >= 2 && path[0] == n && path[|path| - 1] == x && IsPath(libs, path);
      PathReaches(libs, rank, path);
    }
  }

  lemma {:induction false} PathReaches(libs: Libraries, rank: Obj -> nat, path: seq<Obj>)
    requires TablesOk(libs) && Ranked(libs, rank) && IsPath(libs, path) && path != []
    ensures path[|path| - 1] in Reach(libs, rank, path[0])
  {
    if |path| > 1 {
      var rest := path[1..];
      assert path[1] in Deps(libs, path[0]);
      assert IsPath(libs, rest) by {
        forall i | 0 <= i < |rest| - 1 ensures rest[i + 1] in Deps(libs, rest[i]) {
          assert path[i + 2] in Deps(libs, path[i + 1]);
        }
      }
      PathReaches(libs, rank, rest);
    }
  }

  /** Every needed object belongs to a library that exists. */
  ghost predicate Linked(libs: Libraries, s: set<Obj>) {
    forall x :: x in s ==> x.lib in libs
  }

  class Collector {
    const libs: Libraries
    var obj: set<Obj>

    constructor (libs: Libraries)
      ensures this.libs == libs && obj == {}
    {
      this.libs, obj := libs, {};
    }

    /** Adds an object of a library and everything it depends on; a dependency in another library is
        skipped when it is there already. Fails when a needed library does not exist. */
    method Collect(n: Obj, ghost rank: Obj -> nat) returns (ok: bool)
      requires TablesOk(libs) && Ranked(libs, rank) && n.lib in libs && Closed(libs, obj)
      modifies this
      ensures ok ==> obj == old(obj) + Reach(libs, rank, n) && Closed(libs, obj)
      ensures !ok ==> !Linked(libs, Reach(libs, rank, n))
      decreases rank(n), 1
    {
      hide Reach, Deps, Parse, Linked, Closed;
      ghost var start := obj;
      if n.name !in libs[n.lib] {
        obj := obj + {n};
        LeafReach(libs, rank, n, start);
        return true;
      }
      var dep := libs[n.lib][n.name];
      ghost var below: set<Obj> := {};
      for i := 0 to |dep|
        invariant Closed(libs, obj) && obj == start + below && below <= Reach(libs, rank, n)
        invariant forall k :: 0 <= k < i ==> (assert EntryOk(dep[k]); Reach(libs, rank, Parse(n.lib, dep[k])) <= obj)
      {
        assert EntryOk(dep[i]);
        EntryReach(libs, rank, n, i);
        ok := CollectEntry(n, i, rank);
        if !ok { return; }
        below := below + Reach(libs, rank, Parse(n.lib, dep[i]));
      }
      AllReached(libs, rank, n, start, below);
      obj := obj + {n};
      ok := true;
    }

    /** On acyclic tables: adds the object and everything it needs, or finds a library missing. */
    method CollectNeeded(n: Obj) returns (ok: bool)
      requires TablesOk(libs) && Acyclic(libs) && n.lib in libs && Closed(libs, obj)
      modifies this
      ensures ok ==> obj == old(obj) + {n} + Needed(libs, n) && Closed(libs, obj)
      ensures !ok ==> !Linked(libs, Needed(libs, n))
    {
      hide Needed, Closed;
      ghost var rank := AcyclicIsRanked(libs);
      ReachIsNeeded(libs, rank, n);
      ok := Collect(n, rank);
      assert old(obj) + ({n} + Needed(libs, n)) == old(obj) + {n} + Needed(libs, n);
    }

    /** Adds what one entry of the table of an object asks for. */
    method CollectEntry(n: Obj, i: nat, ghost rank: Obj -> nat) returns (ok: bool)
      requires TablesOk(libs) && Ranked(libs, rank) && n.lib in libs && Closed(libs, obj)
      requires n.name in libs[n.lib] && i < |libs[n.lib][n.name]|
      modifies this
      ensures var d := Parse(n.lib, libs[n.lib][n.name][i]);
        && (ok ==> obj == old(obj) + Reach(libs, rank, d) && Closed(libs, obj))
        && (!ok ==> !Linked(libs, Reach(libs, rank, n)))
      decreases rank(n), 0
    {
      hide Reach, Deps, Linked, Closed;
      var j := libs[n.lib][n.name][i];
      assert EntryOk(j);
      var d := Parse(n.lib, j);
      EntryReach(libs, rank, n, i);
      if j[0] == '<' {
        if d in obj {
          ReachIsLeastClosed(libs, rank, d, obj);
          ok := true;
        } else if d.lib !in libs {
          MissingLibrary(libs, rank, d);
          ok := false;
        } else {
          ok := Collect(d, rank);
        }
      } else if d.name in libs[n.lib] {
        ok := Collect(d, rank);
      } else {
        LeafReach(libs, rank, d, obj);
        obj := obj + {d};
        ok := true;
      }
    }
  }

  /** An object without entries. */
  lemma {:induction false} LeafReach(libs: Libraries, rank: Obj -> nat, n: Obj, s: set<Obj>)
    requires TablesOk(libs) && Ranked(libs, rank) && EntriesOf(libs, n) == [] && Closed(libs, s)
    ensures Reach(libs, rank, n) == {n} && Closed(libs, s + {n})
  {
    assert Deps(libs, n) == {};
  }

  /** An entry is a dependency, and what it reaches is reached; a missing library below is missing above. */
  lemma {:induction false} EntryReach(libs: Libraries, rank: Obj -> nat, n: Obj, i: nat)
    requires TablesOk(libs) && Ranked(libs, rank) && i < |EntriesOf(libs, n)|
    ensures var d := Parse(n.lib, EntriesOf(libs, n)[i]);
      rank(d) < rank(n) && Reach(libs, rank, d) <= Reach(libs, rank, n)
      && (!Linked(libs, Reach(libs, rank, d)) ==> !Linked(libs, Reach(libs, rank, n)))
  {
    var d := Parse(n.lib, EntriesOf(libs, n)[i]);
    assert d in Deps(libs, n);
  }

  lemma {:induction false} MissingLibrary(libs: Libraries, rank: Obj -> nat, d: Obj)
    requires TablesOk(libs) && Ranked(libs, rank) && d.lib !in libs
    ensures !Linked(libs, Reach(libs, rank, d))
  {
  }

  /** When everything below is there, the object completes the set. */
  lemma {:induction false} AllReached(libs: Libraries, rank: Obj -> nat, n: Obj, start: set<Obj>, below: set<Obj>)
    requires TablesOk(libs) && Ranked(libs, rank) && below <= Reach(libs, rank, n) && Closed(libs, start + below)
    requires forall k :: 0 <= k < |EntriesOf(libs, n)| ==>
      Reach(libs, rank, Parse(n.lib, EntriesOf(libs, n)[k])) <= start + below
    ensures start + below + {n} == start + Reach(libs, rank, n) && Closed(libs, start + below + {n})
  {
    forall d | d in Deps(libs, n) ensures Reach(libs, rank, d) <= start + below {
      var k :| 0 <= k < |EntriesOf(libs, n)| && d == Parse(n.lib, EntriesOf(libs, n)[k]);
    }
  }
}
