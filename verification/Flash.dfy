/** Flash pages of a controller: first-fit allocation, the recorded ranges, and the life of what is loaded. */
module Flash {
  import opened Options
  import opened Division

  function PageCount(size: nat, pageSize: nat): (n: nat)
    requires pageSize > 0
  {
    if size % pageSize != 0 then size / pageSize + 1 else size / pageSize
  }

  function PageOf(byte: nat, pageSize: nat): nat
    requires pageSize > 0
  {
    byte / pageSize
  }

  /** The pages that hold `size` bytes from `begin` on. */
  ghost function Pages(begin: nat, size: nat, pageSize: nat): set<nat>
    requires pageSize > 0
  {
    set b: nat | begin <= b < begin + size :: PageOf(b, pageSize)
  }

  /** An object that starts with a page is in the pages it is counted as. */
  lemma PagesAreCounted(page: nat, size: nat, pageSize: nat)
    requires pageSize > 0
    ensures forall p: nat :: p in Pages(page * pageSize, size, pageSize) <==>
      page <= p < page + PageCount(size, pageSize)
  {
    forall p: nat
      ensures p in Pages(page * pageSize, size, pageSize) <==> page <= p < page + PageCount(size, pageSize) {
      OnePage(page, size, pageSize, p);
    }
  }

  lemma CountBounds(size: nat, d: nat)
    requires d > 0
    ensures var n := PageCount(size, d); size <= n * d && (size > 0 ==> n > 0 && (n - 1) * d < size)
  {
    var q, r := size / d, size % d;
    assert size == q * d + r;
    assert (q + 1) * d == q * d + d;
    if r == 0 && size > 0 { assert q > 0 && (q - 1) * d == q * d - d; }
  }

  lemma OnePage(page: nat, size: nat, d: nat, p: nat)
    requires d > 0
    ensures p in Pages(page * d, size, d) <==> page <= p < page + PageCount(size, d)
  {
    var n := PageCount(size, d);
    CountBounds(size, d);
    DivExact(page, d);
    if p in Pages(page * d, size, d) {
      var b: nat :| page * d <= b < page * d + size && p == PageOf(b, d);
      DivMonotone(page * d, b, d);
      assert page * d + n * d == (page + n) * d;
      DivBelow(b, page + n, d);
    }
    if page <= p < page + n {
      MulMonotone(page, p, d);
      MulMonotone(p, page + n - 1, d);
      assert (page + n - 1) * d == page * d + (n - 1) * d;
      DivExact(p, d);
      assert p == PageOf(p * d, d);
    }
  }

  /** The recorded range takes in all pages of the object. */
  lemma RangeCovers(begin: nat, size: nat, d: nat)
    requires d > 0
    ensures begin / d <= (begin + size) / d
    ensures forall p :: p in Pages(begin, size, d) ==> begin / d <= p <= (begin + size) / d
  {
    DivMonotone(begin, begin + size, d);
    forall p | p in Pages(begin, size, d) ensures begin / d <= p <= (begin + size) / d {
      var b: nat :| begin <= b < begin + size && p == PageOf(b, d);
      DivMonotone(begin, b, d);
      DivMonotone(b, begin + size, d);
    }
  }

  /** For an object that starts with a page the recorded range has one page too many exactly when the
      object fills its last page. */
  lemma RangeCount(page: nat, size: nat, d: nat)
    requires d > 0
    ensures (page * d + size) / d - (page * d) / d + 1 == PageCount(size, d) + if size % d == 0 then 1 else 0
  {
    DivExact(page, d);
    assert page * d + size == (page + size / d) * d + size % d;
    DivIs(page * d + size, page + size / d, size % d, d);
  }

  /** Where an object is: the recorded pages, its size, and the pages its code is in. */
  datatype Range = Range(start: nat, end: nat, size: nat, used: set<nat>)

  /** The range of `size` bytes from `begin` on. */
  ghost function RangeOf(begin: nat, size: nat, pageSize: nat): Range
    requires pageSize > 0
  {
    Range(begin / pageSize, (begin + size) / pageSize, size, Pages(begin, size, pageSize))
  }

  /** The range of what is at `offset` in a region that begins with a page. */
  ghost function InRegion(page: nat, offset: nat, size: nat, pageSize: nat): Range
    requires pageSize > 0
  {
    RangeOf(page * pageSize + offset, size, pageSize)
  }

  /** What is known of a loaded algorithm or library object. */
  class FlashObject {
    var start: nat
    var end: nat
    var size: nat
    /** The pages its code is in. */
    ghost var used: set<nat>

    constructor ()
      ensures !IsLoaded() && used == {}
    {
      start, end, size, used := 0, 0, 0, {};
    }

    predicate IsLoaded()
      reads this
    {
      size != 0
    }

    function AllocSizeP(): int
      reads this
    {
      end - start + 1
    }

    /** The recorded range takes in all pages in use. */
    ghost predicate Covered()
      reads this
    {
      start <= end && if IsLoaded() then forall p :: p in used ==> start <= p <= end else used == {}
    }

    ghost function Where(): Range
      reads this
    {
      Range(start, end, size, used)
    }

    method SetRange(begin: nat, sizeB: nat, pageSize: nat)
      requires pageSize > 0
      modifies this
      ensures Where() == RangeOf(begin, sizeB, pageSize) && Covered()
    {
      size := sizeB;
      start := begin / pageSize;
      end := (begin + sizeB) / pageSize;
      used := Pages(begin, sizeB, pageSize);
      RangeCovers(begin, sizeB, pageSize);
    }

    method SetUnloaded()
      modifies this
      ensures !IsLoaded() && used == {} && Covered()
    {
      start, end, size, used := 0, 0, 0, {};
    }
  }

  /* ---- allocation ---- */

  ghost predicate FreePages(flash: seq<bool>, a: nat, n: nat) {
    a + n <= |flash| && forall i :: a <= i < a + n ==> !flash[i]
  }

  /** The lowest run of `n` free pages between the bounds, or none when there is no such run. */
  ghost predicate FirstFit(flash: seq<bool>, from: nat, to: nat, n: nat, r: Option<nat>) {
    match r
    case Some(a) =>
      from <= a && a + n <= to + 1 && FreePages(flash, a, n) && forall b :: from <= b < a ==> !FreePages(flash, b, n)
    case None => forall b :: from <= b && b + n <= to + 1 ==> !FreePages(flash, b, n)
  }

  /** The map with a run of `n` pages taken. */
  ghost function WithRun(flash: seq<bool>, r: Option<nat>, n: nat): (r': seq<bool>)
    ensures |r'| == |flash|
  {
    if r.None? then flash
    else seq(|flash|, p requires 0 <= p < |flash| => flash[p] || r.value <= p < r.value + n)
  }

  /** A page is in the recorded range of a loaded object. */
  ghost predicate Recorded(objects: seq<FlashObject>, p: nat)
    reads set i | 0 <= i < |objects| :: objects[i]
  {
    exists i :: 0 <= i < |objects| && objects[i].IsLoaded() && objects[i].start <= p <= objects[i].end
  }

  /** The flash map of one manager, made from the ranges of the loaded objects. */
  class FlashMap {
    const pageSize: nat
    const userStart: nat
    const userEnd: nat
    const flash: array<bool>

    ghost predicate Valid() {
      pageSize > 0 && userStart <= userEnd < flash.Length
    }

    constructor (pageSize: nat, userStart: nat, userEnd: nat, maxPages: nat, objects: seq<FlashObject>)
      requires pageSize > 0 && userStart <= userEnd < maxPages
      requires forall i :: 0 <= i < |objects| ==>
        objects[i].Covered() && (objects[i].IsLoaded() ==> objects[i].end < maxPages)
      ensures Valid() && fresh(flash) && this.pageSize == pageSize
      ensures this.userStart == userStart && this.userEnd == userEnd && flash.Length == maxPages
      ensures forall p :: 0 <= p < maxPages ==> flash[p] == Recorded(objects, p)
    {
      this.pageSize, this.userStart, this.userEnd := pageSize, userStart, userEnd;
      var map_ := new bool[maxPages](_ => false);
      for i := 0 to |objects|
        invariant forall p :: 0 <= p < maxPages ==> map_[p] == Recorded(objects[..i], p)
      {
        ghost var was := map_[..];
        if objects[i].IsLoaded() {
          for j := objects[i].start to objects[i].start + objects[i].AllocSizeP()
            invariant forall p :: 0 <= p < maxPages ==> map_[p] == (was[p] || objects[i].start <= p < j)
          {
            map_[j] := true;
          }
        }
        forall p: nat | p < maxPages ensures map_[p] == Recorded(objects[..i + 1], p) { RecordedStep(objects, i, p); }
      }
      assert objects[..|objects|] == objects;
      flash := map_;
    }

    /** The lowest run of free user pages that is long enough is taken; an object of size 0 gets none. */
    method AllocatePageMemory(objectSize: nat) returns (r: Option<nat>)
      requires Valid()
      modifies flash
      ensures var n := PageCount(objectSize, pageSize);
        if n == 0 then r.None? else FirstFit(old(flash[..]), userStart, userEnd, n, r)
      ensures flash[..] == WithRun(old(flash[..]), r, PageCount(objectSize, pageSize))
    {
      ghost var was := flash[..];
      var n := PageCount(objectSize, pageSize);
      var k := 0;
      for i := userStart to userEnd + 1
        invariant flash[..] == was && 0 <= k <= i - userStart && (n > 0 ==> k < n)
        invariant forall j :: i - k <= j < i ==> !was[j]
        invariant i - k > userStart ==> was[i - k - 1]
        invariant n > 0 ==> forall b :: userStart <= b && b + n <= i ==> !FreePages(was, b, n)
      {
        if flash[i] {
          k := 0;
        } else {
          k := k + 1;
          if k == n {
            var a := i - (n - 1);
            for j := a to a + n
              invariant forall p :: 0 <= p < flash.Length ==> flash[p] == (was[p] || a <= p < j)
            {
              flash[j] := true;
            }
            return Some(a);
          }
        }
      }
      r := None;
    }
  }

  lemma RecordedStep(objects: seq<FlashObject>, i: nat, p: nat)
    requires i < |objects|
    ensures Recorded(objects[..i + 1], p) <==>
      Recorded(objects[..i], p) || (objects[i].IsLoaded() && objects[i].start <= p <= objects[i].end)
  {
    if Recorded(objects[..i], p) {
      var k :| 0 <= k < i && objects[k].IsLoaded() && objects[k].start <= p <= objects[k].end;
      assert objects[..i + 1][k] == objects[k];
    }
    if objects[i].IsLoaded() && objects[i].start <= p <= objects[i].end { assert objects[..i + 1][i] == objects[i]; }
    if Recorded(objects[..i + 1], p) {
      var k :| 0 <= k < i + 1 && objects[..i + 1][k].IsLoaded()
        && objects[..i + 1][k].start <= p <= objects[..i + 1][k].end;
      if k < i { assert objects[..i][k] == objects[k]; }
    }
  }

  /* ---- the life of what is loaded ---- */

  /** A part of a library region: the object's number, its place in the region, and its size. */
  datatype Part = Part(index: nat, offset: nat, size: nat)

  /** No later part is for the same object. */
  ghost predicate LastPart(parts: seq<Part>, k: nat)
    requires k < |parts|
  {
    forall j :: k < j < |parts| ==> parts[j].index != parts[k].index
  }

  ghost predicate NoPart(parts: seq<Part>, i: nat) {
    forall k :: 0 <= k < |parts| ==> parts[k].index != i
  }

  /** Where the objects are, and with which upload they came, after the parts of a region were written. */
  ghost function Placed(was: seq<(Range, nat)>, parts: seq<Part>, page: nat, d: nat,
      upload: nat): (now: seq<(Range, nat)>)
    requires d > 0 && forall k :: 0 <= k < |parts| ==> parts[k].index < |was|
    ensures |now| == |was|
  {
    if parts == [] then was
    else
      var n := |parts| - 1;
      var p := parts[n];
      Placed(was, parts[..n], page, d, upload)[p.index := (InRegion(page, p.offset, p.size, d), upload)]
  }

  lemma {:induction false} PlacedKept(was: seq<(Range, nat)>, parts: seq<Part>, page: nat, d: nat, upload: nat, i: nat)
    requires d > 0 && forall k :: 0 <= k < |parts| ==> parts[k].index < |was|
    requires i < |was| && NoPart(parts, i)
    ensures Placed(was, parts, page, d, upload)[i] == was[i]
  {
    if parts != [] { PlacedKept(was, parts[..|parts| - 1], page, d, upload, i); }
  }

  lemma {:induction false} PlacedLoaded(was: seq<(Range, nat)>, parts: seq<Part>, page: nat, d: nat, upload: nat,
      k: nat)
    requires d > 0 && forall k :: 0 <= k < |parts| ==> parts[k].index < |was| && parts[k].size > 0
    requires k < |parts|
    ensures Placed(was, parts, page, d, upload)[parts[k].index].0.size > 0
  {
    if k < |parts| - 1 { PlacedLoaded(was, parts[..|parts| - 1], page, d, upload, k); }
  }

  lemma {:induction false} PlacedLast(was: seq<(Range, nat)>, parts: seq<Part>, page: nat, d: nat, upload: nat, k: nat)
    requires d > 0 && forall k :: 0 <= k < |parts| ==> parts[k].index < |was|
    requires k < |parts| && LastPart(parts, k)
    ensures Placed(was, parts, page, d, upload)[parts[k].index] ==
      (InRegion(page, parts[k].offset, parts[k].size, d), upload)
  {
    if k < |parts| - 1 { PlacedLast(was, parts[..|parts| - 1], page, d, upload, k); }
  }

  /** The parts of objects that are not loaded. */
  function MissingOf(parts: seq<Part>, was: seq<(Range, nat)>): seq<Part> {
    if parts == [] then []
    else
      var p := parts[|parts| - 1];
      MissingOf(parts[..|parts| - 1], was) + if p.index < |was| && was[p.index].0.size == 0 then [p] else []
  }

  lemma {:induction false} MissingAre(parts: seq<Part>, was: seq<(Range, nat)>, p: Part)
    ensures p in MissingOf(parts, was) <==> p in parts && p.index < |was| && was[p.index].0.size == 0
  {
    if parts != [] {
      MissingAre(parts[..|parts| - 1], was, p);
      assert parts == parts[..|parts| - 1] + [parts[|parts| - 1]];
    }
  }

  /** The pages in the recorded ranges of what is loaded. */
  ghost function TakenBy(ranges: seq<(Range, nat)>, pages: nat): (flash: seq<bool>)
    ensures |flash| == pages
  {
    seq(pages, p requires 0 <= p < pages =>
      exists i :: 0 <= i < |ranges| && ranges[i].0.size != 0 && ranges[i].0.start <= p <= ranges[i].0.end)
  }

  /** Every part is where it was put in the region, and what has no part is where it was. */
  ghost predicate PartsAre(was: seq<(Range, nat)>, now: seq<(Range, nat)>, parts: seq<Part>, page: nat, d: nat,
      upload: nat)
    requires d > 0 && |now| == |was| && forall k :: 0 <= k < |parts| ==> parts[k].index < |was|
  {
    && (forall k :: 0 <= k < |parts| ==> now[parts[k].index].0.size > 0)
    && (forall k :: 0 <= k < |parts| && LastPart(parts, k) ==>
         now[parts[k].index] == (InRegion(page, parts[k].offset, parts[k].size, d), upload))
    && forall i :: 0 <= i < |was| && NoPart(parts, i) ==> now[i] == was[i]
  }

  lemma {:induction false} PlacedAt(was: seq<(Range, nat)>, parts: seq<Part>, page: nat, d: nat, upload: nat)
    requires d > 0 && forall k :: 0 <= k < |parts| ==> parts[k].index < |was| && parts[k].size > 0
    ensures PartsAre(was, Placed(was, parts, page, d, upload), parts, page, d, upload)
  {
    hide InRegion, LastPart, NoPart;
    var now := Placed(was, parts, page, d, upload);
    forall k | 0 <= k < |parts| ensures now[parts[k].index].0.size > 0 {
      PlacedLoaded(was, parts, page, d, upload, k);
    }
    forall k | 0 <= k < |parts| && LastPart(parts, k)
      ensures now[parts[k].index] == (InRegion(page, parts[k].offset, parts[k].size, d), upload)
    {
      PlacedLast(was, parts, page, d, upload, k);
    }
    forall i | 0 <= i < |was| && NoPart(parts, i) ensures now[i] == was[i] {
      PlacedKept(was, parts, page, d, upload, i);
    }
  }

  /** What is no part of the region may go elsewhere. */
  lemma {:induction false} PartsStay(was: seq<(Range, nat)>, linked: seq<(Range, nat)>, now: seq<(Range, nat)>,
      parts: seq<Part>, page: nat, d: nat, upload: nat, alg: nat)
    requires d > 0 && |now| == |linked| == |was| && forall k :: 0 <= k < |parts| ==> parts[k].index < |was|
    requires PartsAre(was, linked, parts, page, d, upload) && NoPart(parts, alg) && alg < |was|
    requires forall i :: 0 <= i < |was| && i != alg ==> now[i] == linked[i]
    ensures linked[alg] == was[alg]
    ensures forall k :: 0 <= k < |parts| ==> now[parts[k].index].0.size > 0
    ensures forall k :: 0 <= k < |parts| && LastPart(parts, k) ==>
      now[parts[k].index] == (InRegion(page, parts[k].offset, parts[k].size, d), upload)
    ensures forall i :: 0 <= i < |was| && i != alg && NoPart(parts, i) ==> now[i] == was[i]
  {
    hide InRegion, LastPart;
  }

  lemma RangeUsed(begin: nat, size: nat, d: nat)
    requires d > 0
    ensures RangeOf(begin, size, d).size == size && RangeOf(begin, size, d).used == Pages(begin, size, d)
  {
  }

  /** A part lies in the pages of its region. */
  lemma PartPages(page: nat, begin: nat, size: nat, total: nat, d: nat)
    requires d > 0 && page * d <= begin && begin + size <= page * d + total
    ensures forall p :: p in Pages(begin, size, d) ==> page <= p < page + PageCount(total, d)
  {
    forall p | p in Pages(begin, size, d) ensures page <= p < page + PageCount(total, d) {
      var b: nat :| begin <= b < begin + size && p == PageOf(b, d);
      assert p in Pages(page * d, total, d);
      OnePage(page, total, d, p);
    }
  }

  /** The end of a range is at most the page behind the object. */
  lemma RangeEnd(page: nat, bytes: nat, total: nat, d: nat)
    requires d > 0 && bytes <= total
    ensures (page * d + bytes) / d <= page + PageCount(total, d)
  {
    var n := PageCount(total, d);
    CountBounds(total, d);
    assert (page + n) * d == page * d + n * d;
    DivMonotone(page * d + bytes, (page + n) * d, d);
    DivExact(page + n, d);
  }

  /** All these pages are taken in the map. */
  ghost predicate Marked(pages: set<nat>, flash: seq<bool>) {
    forall p :: p in pages ==> p < |flash| && flash[p]
  }

  lemma MarkedIn(pages: set<nat>, flash: seq<bool>, page: nat, n: nat)
    requires forall p :: p in pages ==> page <= p < page + n
    requires page + n <= |flash| && forall p :: page <= p < page + n ==> flash[p]
    ensures Marked(pages, flash)
  {
  }

  lemma FirstFitFree(flash: seq<bool>, from: nat, to: nat, n: nat, r: Option<nat>)
    requires FirstFit(flash, from, to, n, r) && r.Some?
    ensures r.value + n <= to + 1 && FreePages(flash, r.value, n)
  {
  }

  /** A run that is free when another one is taken was free before. */
  lemma FreeBefore(flash: seq<bool>, taken: Option<nat>, k: nat, from: nat, to: nat, n: nat, r: Option<nat>)
    requires r.Some? && FirstFit(WithRun(flash, taken, k), from, to, n, r)
    ensures FreePages(flash, r.value, n)
  {
    forall i | r.value <= i < r.value + n ensures !flash[i] { assert !WithRun(flash, taken, k)[i]; }
  }

  lemma NoRunTaken(flash: seq<bool>, n: nat)
    ensures WithRun(flash, None, n) == flash
  {
  }

  ghost predicate Outside(pages: set<nat>, page: nat, n: nat) {
    forall p :: p in pages ==> !(page <= p < page + n)
  }

  /** All these pages hold what one upload wrote. */
  ghost predicate WrittenIn(pages: set<nat>, writer: seq<nat>, upload: nat) {
    forall p :: p in pages ==> p < |writer| && writer[p] == upload
  }

  lemma WrittenHere(pages: set<nat>, writer: seq<nat>, upload: nat, page: nat, n: nat)
    requires forall p :: p in pages ==> page <= p < page + n
    requires page + n <= |writer| && forall p :: page <= p < page + n ==> writer[p] == upload
    ensures WrittenIn(pages, writer, upload)
  {
  }

  /** A part of a region lies in the pages of the region, and its range ends at most behind them. */
  lemma {:induction false} InRegionIs(page: nat, offset: nat, size: nat, total: nat, d: nat)
    requires d > 0 && offset + size <= total
    ensures var r, begin := InRegion(page, offset, size, d), page * d + offset;
      && r == RangeOf(begin, size, d) && begin / d == r.start && (begin + size) / d == r.end && r.size == size
      && r.used == Pages(begin, size, d) && r.start <= r.end <= page + PageCount(total, d)
      && forall p :: p in r.used ==> page <= p < page + PageCount(total, d)
  {
    hide PageCount, Pages;
    PartPages(page, page * d + offset, size, total, d);
    RangeEnd(page, offset + size, total, d);
    RangeCovers(page * d + offset, size, d);
  }

  /** What is done to a controller: an algorithm is uploaded with the library objects it needs, or removed. */
  datatype Action = Send(alg: nat, size: nat, changed: bool, total: nat, parts: seq<Part>) | Remove(alg: nat)

  class Controller {
    const pageSize: nat
    const userStart: nat
    const userEnd: nat
    const maxPages: nat
    const objects: seq<FlashObject>
    /** The number of uploads so far, the one that last wrote each page, and the one each object came with. */
    ghost var uploads: nat
    ghost var writer: seq<nat>
    ghost var cameWith: seq<nat>

    constructor (pageSize: nat, userStart: nat, userEnd: nat, maxPages: nat, objects: seq<FlashObject>)
      requires pageSize > 0 && userStart <= userEnd && userEnd + 1 < maxPages
      requires forall i, j :: 0 <= i < j < |objects| ==> objects[i] != objects[j]
      requires forall i :: 0 <= i < |objects| ==>
        objects[i].Covered() && (objects[i].IsLoaded() ==>
          objects[i].end <= userEnd + 1
            && exists begin: nat :: objects[i].Where() == RangeOf(begin, objects[i].size, pageSize))
      ensures this.pageSize == pageSize && this.userStart == userStart
      ensures this.userEnd == userEnd && this.maxPages == maxPages && this.objects == objects
      ensures Valid() && Intact()
    {
      this.pageSize, this.userStart, this.userEnd, this.maxPages, this.objects := pageSize, userStart, userEnd,
        maxPages, objects;
      uploads, writer, cameWith := 0, seq(maxPages, _ => 0), seq(|objects|, _ => 0);
    }

    /** The code of every loaded object is as it was uploaded: nothing has written to its pages since. */
    ghost predicate Intact()
      reads this, objects
    {
      |writer| == maxPages && |cameWith| == |objects| && forall i :: 0 <= i < |objects| ==>
        WrittenIn(objects[i].used, writer, cameWith[i])
    }

    /** The pages that a new flash map takes for used. */
    ghost function InUse(): (flash: seq<bool>)
      reads objects
      ensures |flash| == maxPages
    {
      seq(maxPages, p requires 0 <= p < maxPages reads objects => Recorded(objects, p))
    }

    /** Writes a run of pages in which no code of a loaded object is. */
    ghost method WritePages(page: nat, n: nat)
      requires Intact() && Fresh(page, n)
      modifies this`uploads, this`writer
      ensures Intact() && uploads == old(uploads) + 1 && |writer| == |old(writer)|
      ensures forall p :: 0 <= p < |writer| ==> writer[p] == if page <= p < page + n then uploads else old(writer)[p]
    {
      uploads := uploads + 1;
      var was, now := writer, uploads;
      writer := seq(|was|, p requires 0 <= p < |was| => if page <= p < page + n then now else was[p]);
      forall i | 0 <= i < |objects| ensures WrittenIn(objects[i].used, writer, cameWith[i]) {
        assert WrittenIn(objects[i].used, was, cameWith[i]) && Outside(objects[i].used, page, n);
      }
    }

    /** Every loaded object's pages are in its recorded range; a range ends at most one page behind the user pages. */
    ghost predicate Valid()
      reads objects
    {
      && pageSize > 0 && userStart <= userEnd && userEnd + 1 < maxPages
      && (forall i, j :: 0 <= i < j < |objects| ==> objects[i] != objects[j])
      && (forall i :: 0 <= i < |objects| ==>
           objects[i].Covered() && (objects[i].IsLoaded() ==> objects[i].end <= userEnd + 1))
      && (forall i :: 0 <= i < |objects| && objects[i].IsLoaded() ==> Located(objects[i]))
    }

    /** The code of a loaded object is in all pages of as many bytes as it has. */
    ghost predicate Located(o: FlashObject)
      requires pageSize > 0
      reads o
    {
      exists begin: nat :: o.Where() == RangeOf(begin, o.size, pageSize)
    }

    /** All pages in use are marked in the map. */
    ghost predicate Shielded(flash: seq<bool>)
      reads objects
    {
      forall i :: 0 <= i < |objects| ==> Marked(objects[i].used, flash)
    }

    /** None of the `n` pages from `page` on holds code of a loaded object. */
    ghost predicate Fresh(page: nat, n: nat)
      reads objects
    {
      forall i :: 0 <= i < |objects| ==> Outside(objects[i].used, page, n)
    }

    lemma FreeIsFresh(flash: seq<bool>, page: nat, n: nat)
      requires Shielded(flash) && FreePages(flash, page, n)
      ensures Fresh(page, n)
    {
      forall i | 0 <= i < |objects| ensures Outside(objects[i].used, page, n) { assert Marked(objects[i].used, flash); }
    }

    lemma RecordedIsShielded(flash: seq<bool>)
      requires Valid() && |flash| == maxPages && forall p :: 0 <= p < maxPages ==> flash[p] == Recorded(objects, p)
      ensures Shielded(flash)
    {
      forall i | 0 <= i < |objects| ensures Marked(objects[i].used, flash) {
        forall p | p in objects[i].used ensures p < |flash| && flash[p] { assert Recorded(objects, p); }
      }
    }

    /** Records where an object was written by the last upload. */
    method Write(index: nat, page: nat, offset: nat, size: nat, total: nat)
      requires Valid() && index < |objects| && size > 0 && offset + size <= total
      requires page + PageCount(total, pageSize) <= userEnd + 1
      requires Intact() && forall p :: page <= p < page + PageCount(total, pageSize) ==> writer[p] == uploads
      modifies objects[index], this`cameWith
      ensures Intact() && cameWith == old(cameWith)[index := uploads]
      ensures Valid() && objects[index].Where() == InRegion(page, offset, size, pageSize)
      ensures forall p :: p in objects[index].used ==> page <= p < page + PageCount(total, pageSize)
    {
      hide WrittenIn, Pages, PageCount, InRegion;
      InRegionIs(page, offset, size, total, pageSize);
      objects[index].SetRange(page * pageSize + offset, size, pageSize);
      assert Located(objects[index]);
      assert forall i :: 0 <= i < |objects| && i != index ==> objects[i] != objects[index];
      forall i | 0 <= i < |objects| && i != index && objects[i].IsLoaded() ensures Located(objects[i]) {
        assert old(Located(objects[i]));
      }
      cameWith := cameWith[index := uploads];
      WrittenHere(objects[index].used, writer, uploads, page, PageCount(total, pageSize));
      forall i | 0 <= i < |objects| && i != index ensures WrittenIn(objects[i].used, writer, cameWith[i]) {
        assert old(WrittenIn(objects[i].used, writer, cameWith[i]));
      }
    }

    /** Where the objects are, and which upload each of them came with. */
    ghost function Ranges(): (r: seq<(Range, nat)>)
      requires |cameWith| == |objects|
      reads this, objects
      ensures |r| == |objects|
    {
      seq(|objects|, i requires 0 <= i < |objects| reads this, objects requires |cameWith| == |objects| =>
        (objects[i].Where(), cameWith[i]))
    }

    /** Records the parts of a region that was written to pages that are taken in the map. */
    method WriteParts(page: nat, total: nat, parts: seq<Part>, ghost map_: seq<bool>)
      requires Valid() && Intact() && Shielded(map_)
      requires forall k :: 0 <= k < |parts| ==>
        parts[k].index < |objects| && parts[k].size > 0 && parts[k].offset + parts[k].size <= total
      requires page + PageCount(total, pageSize) <= userEnd + 1 <= |map_|
      requires forall p :: page <= p < page + PageCount(total, pageSize) ==> writer[p] == uploads && map_[p]
      modifies this`cameWith, objects
      ensures Valid() && Intact() && Shielded(map_)
      ensures Ranges() == Placed(old(Ranges()), parts, page, pageSize, uploads)
    {
      hide WrittenIn, Marked, PageCount, Pages, InRegion;
      for k := 0 to |parts|
        invariant Valid() && Intact() && Shielded(map_)
        invariant Ranges() == Placed(old(Ranges()), parts[..k], page, pageSize, uploads)
      {
        WritePart(page, total, parts[k], map_);
        assert parts[..k + 1][..k] == parts[..k];
      }
      assert parts[..|parts|] == parts;
    }

    method WritePart(page: nat, total: nat, part: Part, ghost map_: seq<bool>)
      requires Valid() && Intact() && Shielded(map_)
      requires part.index < |objects| && part.size > 0 && part.offset + part.size <= total
      requires page + PageCount(total, pageSize) <= userEnd + 1 <= |map_|
      requires forall p :: page <= p < page + PageCount(total, pageSize) ==> writer[p] == uploads && map_[p]
      modifies this`cameWith, objects[part.index]
      ensures Valid() && Intact() && Shielded(map_)
      ensures Ranges() == old(Ranges())[part.index :=
        (InRegion(page, part.offset, part.size, pageSize), uploads)]
    {
      hide WrittenIn, Marked, PageCount, Pages;
      Write(part.index, page, part.offset, part.size, total);
      MarkedIn(objects[part.index].used, map_, page, PageCount(total, pageSize));
      forall i | 0 <= i < |objects| && i != part.index ensures Marked(objects[i].used, map_) {
        assert old(Marked(objects[i].used, map_));
      }
      forall i | 0 <= i < |objects| && i != part.index ensures objects[i].Where() == old(objects[i].Where()) {
        assert objects[i] != objects[part.index];
      }
    }

    /** Writes a region to pages that are not in use, and records its parts. */
    method WriteRegion(page: nat, total: nat, parts: seq<Part>, ghost map_: seq<bool>)
      requires Valid() && Intact() && Shielded(map_) && Fresh(page, PageCount(total, pageSize))
      requires forall k :: 0 <= k < |parts| ==>
        parts[k].index < |objects| && parts[k].size > 0 && parts[k].offset + parts[k].size <= total
      requires page + PageCount(total, pageSize) <= userEnd + 1 <= |map_|
      requires forall p :: page <= p < page + PageCount(total, pageSize) ==> map_[p]
      modifies this, objects
      ensures Valid() && Intact() && Shielded(map_) && uploads == old(uploads) + 1
      ensures Ranges() == Placed(old(Ranges()), parts, page, pageSize, uploads)
    {
      hide WrittenIn, Marked, PageCount, Pages, InRegion, Outside;
      WritePages(page, PageCount(total, pageSize));
      assert Ranges() == old(Ranges());
      WriteParts(page, total, parts, map_);
    }

    /** Links and writes the library objects that are not there yet into the lowest run of pages that takes
        them all; every one is recorded where it was written. */
    method UploadObjects(m: FlashMap, total: nat, parts: seq<Part>) returns (page: Option<nat>)
      requires Valid() && m.Valid() && m.pageSize == pageSize && m.userEnd == userEnd && Shielded(m.flash[..])
      requires m.userStart == userStart && parts != []
      requires forall k :: 0 <= k < |parts| ==>
        parts[k].index < |objects| && parts[k].size > 0 && parts[k].offset + parts[k].size <= total
      requires Intact()
      modifies this, objects, m.flash
      ensures Valid() && Shielded(m.flash[..]) && Intact()
      ensures FirstFit(old(m.flash[..]), userStart, userEnd, PageCount(total, pageSize), page)
      ensures m.flash[..] == WithRun(old(m.flash[..]), page, PageCount(total, pageSize))
      ensures uploads == old(uploads) + if page.Some? then 1 else 0
      ensures if page.None? then Ranges() == old(Ranges())
        else PartsAre(old(Ranges()), Ranges(), parts, page.value, pageSize, uploads)
      ensures page.Some? ==> old(Fresh(page.value, PageCount(total, pageSize)))
    {
      hide FirstFit, WrittenIn, Marked, Recorded, PageCount, Pages, Outside, PartsAre, Placed;
      ghost var was := m.flash[..];
      page := m.AllocatePageMemory(total);
      assert PageCount(total, pageSize) > 0 by { assert parts[0].size > 0; CountBounds(total, pageSize); }
      StillShielded(was, m.flash[..]);
      if page.None? { return; }
      FirstFitFree(was, userStart, userEnd, PageCount(total, pageSize), page);
      FreeIsFresh(was, page.value, PageCount(total, pageSize));
      WriteRegion(page.value, total, parts, m.flash[..]);
      PlacedAt(old(Ranges()), parts, page.value, pageSize, uploads);
    }

    lemma StillShielded(was: seq<bool>, flash: seq<bool>)
      requires Shielded(was) && |was| == |flash| && forall p :: 0 <= p < |was| && was[p] ==> flash[p]
      ensures Shielded(flash)
    {
      forall i | 0 <= i < |objects| ensures Marked(objects[i].used, flash) { assert Marked(objects[i].used, was); }
    }

    /** Puts a changed algorithm into the lowest run of pages that takes it. */
    method UploadAlgorithm(m: FlashMap, alg: nat, algSize: nat, changed: bool) returns (page: Option<nat>)
      requires Valid() && m.Valid() && m.pageSize == pageSize && m.userEnd == userEnd && Shielded(m.flash[..])
      requires Intact() && alg < |objects| && algSize > 0 && m.userStart == userStart
      modifies this, objects[alg], m.flash
      ensures Valid() && Intact()
      ensures FirstFit(old(m.flash[..]), userStart, userEnd, PageCount(algSize, pageSize), page)
      ensures page.Some? ==> old(Fresh(page.value, PageCount(algSize, pageSize)))
      ensures Ranges() == if page.None? || !changed then old(Ranges())
        else old(Ranges())[alg := (InRegion(page.value, 0, algSize, pageSize), uploads)]
      ensures page.Some? && changed ==>
        forall i :: 0 <= i < |objects| && i != alg ==> objects[i].used !! objects[alg].used
    {
      hide WrittenIn, Marked, Recorded, PageCount, Pages, Outside, FirstFit;
      ghost var n, was := PageCount(algSize, pageSize), m.flash[..];
      page := m.AllocatePageMemory(algSize);
      assert n > 0 by { CountBounds(algSize, pageSize); }
      if page.None? { return; }
      FirstFitFree(was, userStart, userEnd, n, page);
      FreeIsFresh(was, page.value, n);
      if changed {
        WritePages(page.value, n);
        Write(alg, page.value, 0, algSize, algSize);
        RangeUsed(page.value * pageSize, algSize, pageSize);
        forall i | 0 <= i < |objects| && i != alg ensures Outside(objects[i].used, page.value, n) {
          assert objects[i] != objects[alg] && old(Outside(objects[i].used, page.value, n));
        }
        assert forall i :: 0 <= i < |objects| && i != alg ==> Ranges()[i] == old(Ranges())[i];
        AlgorithmApart(alg, page.value, algSize);
      }
    }

    /** Uploads an algorithm after the library objects it needs. They get the lowest run of pages that is not
        in use and takes them all, and then the algorithm the lowest run that is free; it fails only when there
        is no such run. Whatever is uploaded is recorded where it was written; new pages are never in use by
        anything that is loaded, not even by the copy of the algorithm that still runs, whose range changes
        only when its code did. */
    method Upload(alg: nat, algSize: nat, changed: bool, total: nat, parts: seq<Part>)
      returns (page: Option<nat>, region: Option<nat>)
      requires Valid() && alg < |objects| && algSize > 0
      requires forall k :: 0 <= k < |parts| ==>
        parts[k].index < |objects| && parts[k].index != alg && !objects[parts[k].index].IsLoaded()
        && parts[k].size > 0 && parts[k].offset + parts[k].size <= total
      requires Intact()
      modifies this, objects
      ensures Valid() && Intact()
      ensures if parts == [] then region.None?
        else FirstFit(old(InUse()), userStart, userEnd, PageCount(total, pageSize), region)
      ensures if parts != [] && region.None? then page.None? && Ranges() == old(Ranges())
        else FirstFit(WithRun(old(InUse()), region, PageCount(total, pageSize)), userStart, userEnd,
          PageCount(algSize, pageSize), page)
      ensures region.Some? ==> forall k :: 0 <= k < |parts| ==> Ranges()[parts[k].index].0.size > 0
      ensures region.Some? ==> forall k :: 0 <= k < |parts| && LastPart(parts, k) ==>
        Ranges()[parts[k].index] ==
          (InRegion(region.value, parts[k].offset, parts[k].size, pageSize), old(uploads) + 1)
      ensures forall i :: 0 <= i < |objects| && i != alg && NoPart(parts, i) ==> Ranges()[i] == old(Ranges())[i]
      ensures Ranges()[alg] == if page.None? || !changed then old(Ranges())[alg]
        else (InRegion(page.value, 0, algSize, pageSize), uploads)
      ensures page.Some? ==> old(Fresh(page.value, PageCount(algSize, pageSize)))
      ensures page.Some? && changed ==>
        forall i :: 0 <= i < |objects| && i != alg ==> objects[i].used !! objects[alg].used
    {
      assert NoPart(parts, alg) && pageSize > 0;
      hide WrittenIn, Marked, Recorded, PageCount, Pages, FirstFit, WithRun, InRegion, LastPart, NoPart, PartsAre;
      hide FreePages, Fresh, Ranges, Valid, Shielded, InUse;
      ghost var was := Ranges();
      region := None;
      var m := NewMap();
      ghost var inUse, k, n := m.flash[..], PageCount(total, pageSize), PageCount(algSize, pageSize);
      FreeRunsAreFresh(inUse);
      NoRunTaken(inUse, k);
      if parts != [] {
        region := UploadObjects(m, total, parts);
        if region.None? { return None, None; }
      }
      ghost var linked := Ranges();
      page := UploadAlgorithm(m, alg, algSize, changed);
      if page.Some? { FreeBefore(inUse, region, k, userStart, userEnd, n, page); }
      if region.Some? { PartsStay(was, linked, Ranges(), parts, region.value, pageSize, old(uploads) + 1, alg); }
    }

    /** The map of the pages that are in use. */
    method NewMap() returns (m: FlashMap)
      requires Valid()
      ensures m.Valid() && fresh(m) && fresh(m.flash) && m.flash.Length == maxPages && m.pageSize == pageSize
      ensures m.userStart == userStart && m.userEnd == userEnd && m.flash[..] == InUse() && Shielded(m.flash[..])
    {
      hide Recorded;
      m := new FlashMap(pageSize, userStart, userEnd, maxPages, objects);
      RecordedIsShielded(m.flash[..]);
    }

    lemma FreeRunsAreFresh(flash: seq<bool>)
      requires Shielded(flash)
      ensures forall page: nat, n: nat :: FreePages(flash, page, n) ==> Fresh(page, n)
    {
      forall page: nat, n: nat | FreePages(flash, page, n) ensures Fresh(page, n) { FreeIsFresh(flash, page, n); }
    }

    /** What is outside of the pages of an algorithm shares none with it. */
    lemma AlgorithmApart(alg: nat, page: nat, algSize: nat)
      requires Valid() && alg < |objects| && objects[alg].used == Pages(page * pageSize, algSize, pageSize)
      requires forall i :: 0 <= i < |objects| && i != alg ==>
        Outside(objects[i].used, page, PageCount(algSize, pageSize))
      ensures forall i :: 0 <= i < |objects| && i != alg ==> objects[i].used !! objects[alg].used
    {
      PagesAreCounted(page, algSize, pageSize);
    }

    method Unload(alg: nat)
      requires Valid() && alg < |objects|
      requires Intact()
      modifies objects
      ensures Valid() && Intact() && !objects[alg].IsLoaded()
      ensures forall i :: 0 <= i < |objects| && i != alg ==> unchanged(objects[i])
    {
      objects[alg].SetUnloaded();
      assert forall i :: 0 <= i < |objects| && i != alg ==> objects[i] != objects[alg];
      forall i | 0 <= i < |objects| && i != alg && objects[i].IsLoaded() ensures Located(objects[i]) {
        assert old(Located(objects[i]));
      }
      forall i | 0 <= i < |objects| ensures WrittenIn(objects[i].used, writer, cameWith[i]) {
        assert old(WrittenIn(objects[i].used, writer, cameWith[i]));
      }
    }

    lemma InUseIs()
      requires Valid() && |cameWith| == |objects|
      ensures InUse() == TakenBy(Ranges(), maxPages)
    {
      var ranges := Ranges();
      assert forall i :: 0 <= i < |objects| ==> ranges[i] == (objects[i].Where(), cameWith[i]);
      forall p | 0 <= p < maxPages ensures InUse()[p] == TakenBy(ranges, maxPages)[p] {
        if Recorded(objects, p) {
          var i :| 0 <= i < |objects| && objects[i].IsLoaded() && objects[i].start <= p <= objects[i].end;
          assert ranges[i].0.size != 0 && ranges[i].0.start <= p <= ranges[i].0.end;
        }
        if TakenBy(ranges, maxPages)[p] {
          var i :| 0 <= i < |ranges| && ranges[i].0.size != 0 && ranges[i].0.start <= p <= ranges[i].0.end;
          assert objects[i].IsLoaded() && objects[i].start <= p <= objects[i].end;
        }
      }
    }

    /** The parts that are not loaded yet. */
    method Missing(parts: seq<Part>) returns (r: seq<Part>)
      requires |cameWith| == |objects| && forall k :: 0 <= k < |parts| ==> parts[k].index < |objects|
      ensures r == MissingOf(parts, Ranges())
      ensures forall k :: 0 <= k < |r| ==> r[k] in parts && !objects[r[k].index].IsLoaded()
      ensures forall k :: 0 <= k < |parts| && !objects[parts[k].index].IsLoaded() ==> parts[k] in r
    {
      r := [];
      ghost var was := Ranges();
      assert forall i :: 0 <= i < |objects| ==> was[i] == (objects[i].Where(), cameWith[i]);
      for i := 0 to |parts|
        invariant r == MissingOf(parts[..i], was)
      {
        assert parts[..i + 1][..i] == parts[..i];
        if !objects[parts[i].index].IsLoaded() { r := r + [parts[i]]; }
      }
      assert parts[..|parts|] == parts;
      forall p: Part ensures p in r <==> p in parts && p.index < |was| && was[p.index].0.size == 0 {
        MissingAre(parts, was, p);
      }
      assert forall k :: 0 <= k < |r| ==> r[k] in r;
      assert forall k :: 0 <= k < |parts| ==> parts[k] in parts;
    }

    ghost predicate Proper(a: Action) {
      a.alg < |objects| && (a.Send? ==> a.size > 0 && forall k :: 0 <= k < |a.parts| ==>
        a.parts[k].index < |objects| && a.parts[k].index != a.alg && a.parts[k].size > 0
          && a.parts[k].offset + a.parts[k].size <= a.total)
    }

    /** A changed algorithm is where it was put, when there was room. */
    ghost predicate Effect(a: Action, page: Option<nat>, ranges: seq<(Range, nat)>)
      requires pageSize > 0
    {
      a.Send? && page.Some? && a.changed ==>
        a.alg < |ranges| && ranges[a.alg].0 == InRegion(page.value, 0, a.size, pageSize)
    }

    ghost predicate Removed(a: Action, ranges: seq<(Range, nat)>) {
      a.Remove? ==> a.alg < |ranges| && ranges[a.alg].0.size == 0
    }

    ghost predicate Needs(a: Action, i: nat) {
      a.Send? && exists k :: 0 <= k < |a.parts| && a.parts[k].index == i
    }

    /** When there was room, all library objects that the algorithm needs are loaded. */
    ghost predicate Complete(a: Action, page: Option<nat>, ranges: seq<(Range, nat)>, i: nat) {
      page.Some? && Needs(a, i) ==> i < |ranges| && ranges[i].0.size > 0
    }

    /** The missing parts were put into the lowest free run that takes them all, and then the algorithm into the
        lowest one that is left; without such a run there is no page. */
    ghost predicate Room(was: seq<(Range, nat)>, a: Action, page: Option<nat>, region: Option<nat>)
      requires pageSize > 0 && a.Send?
    {
      var flash, k, n := TakenBy(was, maxPages), PageCount(a.total, pageSize), PageCount(a.size, pageSize);
      && (if MissingOf(a.parts, was) == [] then region.None? else FirstFit(flash, userStart, userEnd, k, region))
      && if MissingOf(a.parts, was) != [] && region.None? then page.None?
         else FirstFit(WithRun(flash, region, k), userStart, userEnd, n, page)
    }

    /** What one action does to the ranges. */
    ghost predicate Happened(was: seq<(Range, nat)>, a: Action, page: Option<nat>, region: Option<nat>,
        now: seq<(Range, nat)>)
      requires pageSize > 0
    {
      && |now| == |was| == |objects| && a.alg < |was|
      && (a.Send? ==> Room(was, a, page, region))
      && (a.Remove? ==> now[a.alg].0.size == 0)
      && (a.Send? ==> now[a.alg].0 == if page.None? || !a.changed then was[a.alg].0
           else InRegion(page.value, 0, a.size, pageSize))
      && (a.Send? && region.Some? ==> LinkedIn(now, MissingOf(a.parts, was), region.value))
      && (a.Send? && region.None? && MissingOf(a.parts, was) != [] ==> now == was)
      && forall i :: 0 <= i < |was| && i != a.alg && (a.Remove? || NoPart(MissingOf(a.parts, was), i)) ==>
           now[i] == was[i]
    }

    /** The parts are where they were put in the region. */
    ghost predicate LinkedIn(now: seq<(Range, nat)>, parts: seq<Part>, region: nat)
      requires pageSize > 0
    {
      && (forall k :: 0 <= k < |parts| ==> parts[k].index < |now| && now[parts[k].index].0.size > 0)
      && forall k :: 0 <= k < |parts| && LastPart(parts, k) ==>
           now[parts[k].index].0 == InRegion(region, parts[k].offset, parts[k].size, pageSize)
    }

    method Perform(a: Action) returns (page: Option<nat>, region: Option<nat>)
      requires Valid() && Intact() && Proper(a)
      modifies this, objects
      ensures Valid() && Intact() && Happened(old(Ranges()), a, page, region, Ranges())
    {
      hide WrittenIn, FirstFit, WithRun, PageCount, Pages, InRegion, TakenBy, LastPart, Fresh, InUse, NoPart, MissingOf;
      page, region := None, None;
      if a.Send? {
        InUseIs();
        var parts := Missing(a.parts);
        page, region := Upload(a.alg, a.size, a.changed, a.total, parts);
      } else {
        Unload(a.alg);
      }
    }

    /** What is loaded after an action. */
    lemma {:induction false} HappenedGives(was: seq<(Range, nat)>, a: Action, page: Option<nat>, region: Option<nat>,
        now: seq<(Range, nat)>)
      requires pageSize > 0 && Proper(a) && Happened(was, a, page, region, now)
      ensures Effect(a, page, now) && Removed(a, now) && forall i: nat :: Complete(a, page, now, i)
      ensures forall i :: 0 <= i < |was| && i != a.alg && (was[i].0.size > 0 || !Needs(a, i)) ==> now[i] == was[i]
    {
      hide FirstFit, WithRun, PageCount, InRegion, TakenBy, LastPart;
      if a.Send? {
        var ps := MissingOf(a.parts, was);
        forall p: Part ensures p in ps <==> p in a.parts && p.index < |was| && was[p.index].0.size == 0 {
          MissingAre(a.parts, was, p);
        }
        forall i | 0 <= i < |was| && i != a.alg && (was[i].0.size > 0 || !Needs(a, i)) ensures NoPart(ps, i) {
          forall k | 0 <= k < |ps| ensures ps[k].index != i { assert ps[k] in ps; }
        }
        if page.Some? {
          forall i: nat | Needs(a, i) ensures i < |now| && now[i].0.size > 0 {
            var k :| 0 <= k < |a.parts| && a.parts[k].index == i;
            assert a.parts[k] in a.parts;
            if was[i].0.size == 0 {
              var m :| 0 <= m < |ps| && ps[m] == a.parts[k];
            } else {
              assert NoPart(ps, i) by { forall m | 0 <= m < |ps| ensures ps[m].index != i { assert ps[m] in ps; } }
            }
          }
        }
      }
    }

    /** Nothing that comes later than action `n` replaces or removes object `i`. */
    ghost predicate Last(actions: seq<Action>, n: int, i: nat)
      requires n >= -1
    {
      forall k :: n < k < |actions| ==> actions[k].alg != i
    }

    /** Any run of uploads and removals: at its end all loaded code is intact, and what was loaded at
        the start and was not itself replaced or removed still is where it was. What an action uploaded and
        nothing replaced or removed later is loaded: the algorithm where it was written, if it was changed,
        and all library objects it needs. */
    method Run(actions: seq<Action>)
      returns (pages: seq<Option<nat>>, regions: seq<Option<nat>>, ghost trace: seq<seq<(Range, nat)>>)
      requires Valid() && Intact() && forall k :: 0 <= k < |actions| ==> Proper(actions[k])
      modifies this, objects
      ensures Valid() && Intact() && |pages| == |regions| == |actions| && |trace| == |actions| + 1
      ensures trace[0] == old(Ranges()) && trace[|actions|] == Ranges()
      ensures forall n :: 0 <= n < |actions| ==> Happened(trace[n], actions[n], pages[n], regions[n], trace[n + 1])
      ensures forall i ::
        0 <= i < |objects| && old(objects[i].IsLoaded()) && (forall k :: 0 <= k < |actions| ==> actions[k].alg != i) ==>
        objects[i].Where() == old(objects[i].Where()) && cameWith[i] == old(cameWith)[i]
          && WrittenIn(objects[i].used, writer, old(cameWith)[i])
      ensures forall n :: 0 <= n < |actions| && Last(actions, n, actions[n].alg) ==>
        Effect(actions[n], pages[n], Ranges())
      ensures forall n, i: nat :: 0 <= n < |actions| && Last(actions, n, i) ==>
        Complete(actions[n], pages[n], Ranges(), i)
      ensures forall n ::
        0 <= n < |actions| && Last(actions, n, actions[n].alg) && Unused(actions, n, actions[n].alg) ==>
        Removed(actions[n], Ranges())
    {
      hide WrittenIn, Effect, Complete, Removed, Last, Unused, Needs, Kept, Since, Happened;
      pages, regions, trace := [], [], [Ranges()];
      ghost var first, ranges := Ranges(), Ranges();
      assert forall i :: 0 <= i < |objects| ==> first[i] == (objects[i].Where(), cameWith[i]);
      NothingSince(ranges);
      for n := 0 to |actions|
        invariant Valid() && Intact() && |pages| == n && ranges == Ranges()
        invariant Kept(actions[..n], first, ranges) && Since(actions[..n], pages, ranges)
        invariant |regions| == n && |trace| == n + 1 && trace[0] == first && trace[n] == ranges
        invariant forall k :: 0 <= k < n ==> Happened(trace[k], actions[k], pages[k], regions[k], trace[k + 1])
      {
        assert Proper(actions[n]);
        ghost var was := ranges;
        var page, region := Perform(actions[n]);
        ranges := Ranges();
        HappenedGives(was, actions[n], page, region, ranges);
        SinceStep(actions, n, pages, page, was, ranges);
        KeptStep(actions, n, first, was, ranges);
        pages, regions, trace := pages + [page], regions + [region], trace + [ranges];
      }
      assert actions[..|actions|] == actions;
      assert forall i :: 0 <= i < |objects| ==> Ranges()[i] == (objects[i].Where(), cameWith[i]);
      SinceIs(actions, pages, ranges);
      KeptIs(actions, first, ranges);
    }

    /** What was loaded at first and no action was about is where it was. */
    ghost predicate Kept(actions: seq<Action>, first: seq<(Range, nat)>, ranges: seq<(Range, nat)>)
      requires |first| == |ranges|
    {
      forall i :: 0 <= i < |first| && first[i].0.size > 0 && Last(actions, -1, i) ==> ranges[i] == first[i]
    }

    lemma KeptIs(actions: seq<Action>, first: seq<(Range, nat)>, ranges: seq<(Range, nat)>)
      requires |first| == |ranges| && Kept(actions, first, ranges)
      ensures forall i ::
        0 <= i < |first| && first[i].0.size > 0 && (forall k :: 0 <= k < |actions| ==> actions[k].alg != i) ==>
        ranges[i] == first[i]
    {
      forall i | 0 <= i < |first| && forall k :: 0 <= k < |actions| ==> actions[k].alg != i
        ensures Last(actions, -1, i) {
      }
    }

    lemma {:induction false} KeptStep(actions: seq<Action>, n: nat, first: seq<(Range, nat)>, was: seq<(Range, nat)>,
        now: seq<(Range, nat)>)
      requires n < |actions| && |first| == |was| == |now| && Kept(actions[..n], first, was)
      requires forall i :: 0 <= i < |was| && i != actions[n].alg && (was[i].0.size > 0 || !Needs(actions[n], i)) ==>
        now[i] == was[i]
      ensures Kept(actions[..n + 1], first, now)
    {
      hide Last, Unused, Needs;
      forall i | 0 <= i < |first| && first[i].0.size > 0 && Last(actions[..n + 1], -1, i) ensures now[i] == first[i] {
        LastPrefix(actions, n, -1, i);
      }
    }

    lemma NothingSince(ranges: seq<(Range, nat)>)
      requires pageSize > 0
      ensures Kept([], ranges, ranges) && Since([], [], ranges)
    {
    }

    lemma SinceIs(actions: seq<Action>, pages: seq<Option<nat>>, ranges: seq<(Range, nat)>)
      requires pageSize > 0 && |pages| == |actions| && Since(actions, pages, ranges)
      ensures forall n :: 0 <= n < |actions| && Last(actions, n, actions[n].alg) ==>
        Effect(actions[n], pages[n], ranges)
      ensures forall n, i: nat :: 0 <= n < |actions| && Last(actions, n, i) ==>
        Complete(actions[n], pages[n], ranges, i)
      ensures forall n ::
        0 <= n < |actions| && Last(actions, n, actions[n].alg) && Unused(actions, n, actions[n].alg) ==>
        Removed(actions[n], ranges)
    {
    }

    lemma LastPrefix(actions: seq<Action>, n: nat, m: int, i: nat)
      requires -1 <= m < n < |actions|
      ensures Last(actions[..n + 1], m, i) <==> Last(actions[..n], m, i) && actions[n].alg != i
      ensures Unused(actions[..n + 1], m, i) <==> Unused(actions[..n], m, i) && !Needs(actions[n], i)
    {
      assert actions[..n + 1] == actions[..n] + [actions[n]];
      assert actions[..n + 1][n] == actions[n];
      forall k | m < k < n ensures actions[..n][k] == actions[..n + 1][k] {
      }
    }

    /** No later action needs it. */
    ghost predicate Unused(actions: seq<Action>, n: int, i: nat)
      requires n >= -1
    {
      forall k :: n < k < |actions| ==> !Needs(actions[k], i)
    }

    /** What the actions uploaded and nothing replaced or removed since is in the ranges. */
    ghost predicate Since(actions: seq<Action>, pages: seq<Option<nat>>, ranges: seq<(Range, nat)>)
      requires pageSize > 0 && |pages| == |actions|
    {
      && (forall n :: 0 <= n < |actions| && Last(actions, n, actions[n].alg) ==> Effect(actions[n], pages[n], ranges))
      && (forall n, i: nat :: 0 <= n < |actions| && Last(actions, n, i) ==> Complete(actions[n], pages[n], ranges, i))
      && forall n :: 0 <= n < |actions| && Last(actions, n, actions[n].alg) && Unused(actions, n, actions[n].alg) ==>
           Removed(actions[n], ranges)
    }

    lemma {:induction false} SinceStep(actions: seq<Action>, n: nat, pages: seq<Option<nat>>, page: Option<nat>,
        was: seq<(Range, nat)>, now: seq<(Range, nat)>)
      requires pageSize > 0 && n == |pages| < |actions| && |was| == |now|
      requires Since(actions[..n], pages, was) && Effect(actions[n], page, now) && Removed(actions[n], now)
      requires forall i: nat :: Complete(actions[n], page, now, i)
      requires forall i :: 0 <= i < |was| && i != actions[n].alg && (was[i].0.size > 0 || !Needs(actions[n], i)) ==>
        now[i] == was[i]
      requires forall k :: 0 <= k < |actions| && actions[k].Send? ==> actions[k].size > 0
      ensures Since(actions[..n + 1], pages + [page], now)
    {
      hide Last, Unused, Needs;
      var all := actions[..n + 1];
      forall m, i: nat | 0 <= m < |all| && Last(all, m, i)
        ensures Complete(all[m], (pages + [page])[m], now, i)
        ensures i == all[m].alg ==> Effect(all[m], (pages + [page])[m], now)
        ensures i == all[m].alg && Unused(all, m, i) ==> Removed(all[m], now)
      {
        if m < n {
          LastPrefix(actions, n, m, i);
          assert actions[..n][m] == all[m] && Complete(actions[..n][m], pages[m], was, i);
          RangeOfSize(actions[m], pages[m]);
        }
      }
    }

    lemma RangeOfSize(a: Action, page: Option<nat>)
      requires pageSize > 0
      ensures a.Send? && page.Some? ==> InRegion(page.value, 0, a.size, pageSize).size == a.size
    {
    }
  }
}
