/** The table of variables a controller reads from other controllers. */
module RemoteTable {
  import opened Division

  /** A link from a remote variable to a local one; of a bit link `size` is the local bit. */
  datatype Link = Link(local: nat, size: nat, remote: nat, dev: nat)

  /** The links to one device. */
  datatype Links = Links(bytes: seq<Link>, bits: seq<Link>)

  const CONTINUE: nat := 0
  const ARRAY_END: nat := 1
  const LAST: nat := 2
  const TABLE_SIZE: nat := 64

  /* ---- entries as 32-bit words ---- */

  datatype Item = Item(remote: nat, isBit: bool, dev: nat, local: nat, size: nat)

  datatype Entry = Entry(item: Item, marker: nat)

  /** The fields are 10, 1, 5, 10, 1, 3 and 2 bits wide; the fifth tells a read, and is always 1. */
  function Pack(e: Entry): nat {
    e.item.remote % 0x400 + (if e.item.isBit then 0x400 else 0) + 0x800 * (e.item.dev % 0x20)
    + 0x1_0000 * (e.item.local % 0x400) + 0x400_0000 + 0x800_0000 * (e.item.size % 8) + 0x4000_0000 * (e.marker % 4)
  }

  function Unpack(w: nat): Entry {
    Entry(Item(w % 0x400, w / 0x400 % 2 == 1, w / 0x800 % 0x20, w / 0x1_0000 % 0x400, w / 0x800_0000 % 8),
      w / 0x4000_0000 % 4)
  }

  /** What is left of an item in the fields of an entry. */
  function Trunc(i: Item): Item {
    Item(i.remote % 0x400, i.isBit, i.dev % 0x20, i.local % 0x400, i.size % 8)
  }

  predicate FitsFields(i: Item) {
    i.remote < 0x400 && i.dev < 0x20 && i.local < 0x400 && i.size < 8
  }

  /** The bit that tells a read is set, so the word is not 0. */
  predicate IsRead(w: nat) { w / 0x400_0000 % 2 == 1 }

  lemma UnpackPack(e: Entry)
    ensures Unpack(Pack(e)) == Entry(Trunc(e.item), e.marker % 4) && IsRead(Pack(e))
    ensures Trunc(e.item) == e.item <==> FitsFields(e.item)
  {
    var a, b, c, d, s, m := e.item.remote % 0x400, if e.item.isBit then 1 else 0, e.item.dev % 0x20,
      e.item.local % 0x400, e.item.size % 8, e.marker % 4;
    var w := Pack(e);
    var w3 := s + 8 * m;
    var w2 := d + 0x400 * (1 + 2 * w3);
    var w1 := c + 0x20 * w2;
    DivMod(w, 0x400, a, b + 2 * w1);
    DivMod(b + 2 * w1, 2, b, w1);
    DivMod(w, 0x800, a + 0x400 * b, w1);
    DivMod(w1, 0x20, c, w2);
    DivMod(w, 0x1_0000, a + 0x400 * b + 0x800 * c, w2);
    DivMod(w2, 0x400, d, 1 + 2 * w3);
    DivMod(w, 0x400_0000, a + 0x400 * b + 0x800 * c + 0x1_0000 * d, 1 + 2 * w3);
    DivMod(1 + 2 * w3, 2, 1, w3);
    DivMod(w, 0x800_0000, a + 0x400 * b + 0x800 * c + 0x1_0000 * d + 0x400_0000, w3);
    DivMod(w3, 8, s, m);
    DivMod(w, 0x4000_0000, a + 0x400 * b + 0x800 * c + 0x1_0000 * d + 0x400_0000 + 0x800_0000 * s, m);
  }

  /* ---- requests ---- */

  /** The next item follows in the address space of the device: a byte variable is followed by its
      quality byte; bits of one cell or of the next one follow each other. */
  predicate Follows(a: Item, b: Item) {
    if a.isBit then b.remote <= a.remote + 1 else b.remote == a.remote + a.size + 1
  }

  /** The items of one list cut into requests. */
  function Requests(items: seq<Item>): (rs: seq<seq<Item>>)
    ensures items != [] ==> rs != [] && rs[0] != [] && rs[0][0] == items[0]
    ensures items == [] ==> rs == []
  {
    if items == [] then []
    else
      var rs := Requests(items[1..]);
      if |items| > 1 && Follows(items[0], items[1]) then [[items[0]] + rs[0]] + rs[1..] else [[items[0]]] + rs
  }

  function Flatten(rs: seq<seq<Item>>): seq<Item> {
    if rs == [] then [] else rs[0] + Flatten(rs[1..])
  }

  /** Within a request every item follows the one before. */
  ghost predicate Run(r: seq<Item>) {
    r != [] && forall i :: 0 <= i < |r| - 1 ==> Follows(r[i], r[i + 1])
  }

  /** The requests are runs, cut only where an item does not follow. */
  ghost predicate MaximalRuns(rs: seq<seq<Item>>) {
    rs == [] || (Run(rs[0]) && MaximalRuns(rs[1..])
      && (|rs| == 1 || (rs[1] != [] && !Follows(rs[0][|rs[0]| - 1], rs[1][0]))))
  }

  lemma RunGrows(i: Item, r: seq<Item>)
    requires Run(r) && Follows(i, r[0])
    ensures Run([i] + r)
  {
    var t := [i] + r;
    forall k | 0 <= k < |t| - 1 ensures Follows(t[k], t[k + 1]) {
      if k > 0 { assert t[k] == r[k - 1] && t[k + 1] == r[k]; }
    }
  }

  lemma {:induction false} RequestsAreMaximalRuns(items: seq<Item>)
    ensures MaximalRuns(Requests(items)) && Flatten(Requests(items)) == items
  {
    if items != [] {
      RequestsAreMaximalRuns(items[1..]);
      var rs, all := Requests(items[1..]), Requests(items);
      assert items == [items[0]] + items[1..];
      if |items| > 1 && Follows(items[0], items[1]) {
        assert all[1..] == rs[1..];
        RunGrows(items[0], rs[0]);
      } else {
        assert all[1..] == rs;
      }
    }
  }

  /** The entries of a request: all but the last are to be continued. */
  function MarkRequest(r: seq<Item>): seq<Entry> {
    seq(|r|, i requires 0 <= i < |r| => Entry(r[i], if i + 1 < |r| then CONTINUE else LAST))
  }

  function MarkAll(rs: seq<seq<Item>>): seq<Entry> {
    if rs == [] then [] else MarkRequest(rs[0]) + MarkAll(rs[1..])
  }

  /** The entries of one list, each marked by looking at the next item. */
  function Entries(items: seq<Item>): (es: seq<Entry>)
    ensures |es| == |items|
  {
    seq(|items|, i requires 0 <= i < |items| =>
      Entry(items[i], if i + 1 < |items| && Follows(items[i], items[i + 1]) then CONTINUE else LAST))
  }

  lemma {:induction false} EntriesMarkRequests(items: seq<Item>)
    ensures Entries(items) == MarkAll(Requests(items))
  {
    if items != [] {
      hide Entries, MarkRequest, Follows;
      var rs, all := Requests(items[1..]), Requests(items);
      EntriesMarkRequests(items[1..]);
      EntriesNext(items);
      if |items| > 1 && Follows(items[0], items[1]) {
        assert all[1..] == rs[1..];
        MarkLonger(items[0], rs[0]);
      } else {
        assert all[1..] == rs;
        MarkSingle(items[0]);
      }
    } else {
      assert Entries(items) == [];
    }
  }

  lemma EntriesNext(items: seq<Item>)
    requires items != []
    ensures var mark := if |items| > 1 && Follows(items[0], items[1]) then CONTINUE else LAST;
      Entries(items) == [Entry(items[0], mark)] + Entries(items[1..])
  {
  }

  lemma MarkLonger(x: Item, r: seq<Item>)
    requires r != []
    ensures MarkRequest([x] + r) == [Entry(x, CONTINUE)] + MarkRequest(r)
  {
  }

  lemma MarkSingle(x: Item)
    ensures MarkRequest([x]) == [Entry(x, LAST)]
  {
  }

  /* ---- the decoder ---- */

  /** Cuts entries into requests at their markers, up to the end of the array. */
  function Cut(es: seq<Entry>): seq<seq<Item>> {
    if es == [] then []
    else if es[0].marker == ARRAY_END then [[es[0].item]]
    else if es[0].marker == LAST then [[es[0].item]] + Cut(es[1..])
    else Join([es[0].item], Cut(es[1..]))
  }

  /** Puts the beginning of a request in front. */
  function Join(front: seq<Item>, rs: seq<seq<Item>>): seq<seq<Item>> {
    if front == [] then rs else if rs == [] then [front] else [front + rs[0]] + rs[1..]
  }

  /** The entries with the last one marked as the end of the array. */
  function Finish(es: seq<Entry>): seq<Entry> {
    if es == [] then [] else es[|es| - 1 := es[|es| - 1].(marker := ARRAY_END)]
  }

  ghost predicate NoEmpty(rs: seq<seq<Item>>) {
    forall k :: 0 <= k < |rs| ==> rs[k] != []
  }

  lemma {:induction false} CutRequest(r: seq<Item>, rest: seq<Entry>)
    requires r != []
    ensures Cut(MarkRequest(r) + rest) == [r] + Cut(rest)
  {
    var es := MarkRequest(r) + rest;
    if |r| == 1 {
      assert es[1..] == rest && [r[0]] == r;
    } else {
      CutRequest(r[1..], rest);
      assert [r[0]] + r[1..] == r;
      MarkLonger(r[0], r[1..]);
      assert es[1..] == MarkRequest(r[1..]) + rest;
    }
  }

  lemma {:induction false} CutLast(r: seq<Item>, junk: seq<Entry>)
    requires r != []
    ensures Cut(Finish(MarkRequest(r)) + junk) == [r]
  {
    var es := Finish(MarkRequest(r)) + junk;
    if |r| == 1 {
      assert [r[0]] == r;
    } else {
      CutLast(r[1..], junk);
      assert [r[0]] + r[1..] == r;
      MarkLonger(r[0], r[1..]);
      var more := MarkRequest(r[1..]);
      assert Finish([es[0]] + more)[1..] == Finish(more);
      assert es[1..] == Finish(more) + junk;
    }
  }

  lemma MarkAllNotEmpty(rs: seq<seq<Item>>)
    requires rs != [] && rs[0] != []
    ensures MarkAll(rs) != []
  {
  }

  /** The decoder recovers the requests, whatever is behind the end of the array. */
  lemma {:induction false} CutFinish(rs: seq<seq<Item>>, junk: seq<Entry>)
    requires rs != [] && NoEmpty(rs)
    ensures Cut(Finish(MarkAll(rs)) + junk) == rs
  {
    var first := MarkRequest(rs[0]);
    if |rs| == 1 {
      assert rs[1..] == [] && first + [] == first;
      CutLast(rs[0], junk);
    } else {
      var rest := MarkAll(rs[1..]);
      assert rs[1] != [];
      MarkAllNotEmpty(rs[1..]);
      CutFinish(rs[1..], junk);
      CutRequest(rs[0], Finish(rest) + junk);
      assert Finish(first + rest) + junk == first + (Finish(rest) + junk);
    }
  }

  function UnpackAll(words: seq<nat>): seq<Entry> {
    seq(|words|, i requires 0 <= i < |words| => Unpack(words[i]))
  }

  lemma UnpackedAt(words: seq<nat>)
    ensures |UnpackAll(words)| == |words| && forall i :: 0 <= i < |words| ==> UnpackAll(words)[i] == Unpack(words[i])
  {
  }

  /** Reads the requests of a table; a table that starts with 0 holds none. */
  method ReadRequests(table: array<nat>) returns (rs: seq<seq<Item>>)
    requires table.Length > 0
    requires (table[0] != 0 ==> exists e :: 0 <= e < table.Length && Unpack(table[e]).marker == ARRAY_END)
    ensures rs == if table[0] == 0 then [] else Cut(UnpackAll(table[..]))
  {
    if table[0] == 0 { return []; }
    hide Unpack, Cut, Join, UnpackAll;
    ghost var es := UnpackAll(table[..]);
    ghost var end :| 0 <= end < table.Length && Unpack(table[end]).marker == ARRAY_END;
    UnpackedAt(table[..]);
    rs := [];
    var cur: seq<Item> := [];
    var i := 0;
    assert es[0..] == es && es[end].marker == ARRAY_END;
    JoinNone(Cut(es));
    while true
      invariant 0 <= i <= end && (forall j :: 0 <= j < i ==> es[j].marker != ARRAY_END)
      invariant rs + Join(cur, Cut(es[i..])) == Cut(es)
      decreases table.Length - i
    {
      var e := Unpack(table[i]);
      assert e == es[i] by { assert table[..][i] == table[i]; }
      ReadStep(rs, cur, es, i);
      cur := cur + [e.item];
      if e.marker == LAST {
        rs, cur := rs + [cur], [];
      }
      if e.marker == ARRAY_END {
        rs := rs + [cur];
        break;
      }
      i := i + 1;
    }
  }

  lemma JoinNone(rs: seq<seq<Item>>)
    ensures Join([], rs) == rs
  {
  }

  /** Reading one more entry. */
  lemma ReadStep(rs: seq<seq<Item>>, cur: seq<Item>, es: seq<Entry>, i: nat)
    requires i < |es|
    ensures var now, rest := cur + [es[i].item], if es[i].marker == ARRAY_END then [] else Cut(es[i + 1..]);
      rs + Join(cur, Cut(es[i..])) ==
        if es[i].marker == ARRAY_END then rs + [now]
        else if es[i].marker == LAST then rs + [now] + Join([], rest)
        else rs + Join(now, rest)
  {
    assert es[i..][1..] == es[i + 1..];
    JoinJoin(cur, [es[i].item], Cut(es[i + 1..]));
  }

  lemma JoinJoin(a: seq<Item>, b: seq<Item>, rs: seq<seq<Item>>)
    requires b != []
    ensures Join(a, Join(b, rs)) == Join(a + b, rs)
    ensures Join(a, [b]) == [a + b] && Join(a, [b] + rs) == [a + b] + rs
  {
    if a == [] {
      assert a + b == b;
    } else if rs != [] {
      assert a + (b + rs[0]) == a + b + rs[0];
    }
  }

  /* ---- the upload ---- */

  /** The items of one list of links; the device is that of the first link. */
  function Items(ls: seq<Link>, isBit: bool): (items: seq<Item>)
    ensures |items| == |ls|
  {
    seq(|ls|, i requires 0 <= i < |ls| => Item(ls[i].remote, isBit, ls[0].dev, ls[i].local, ls[i].size))
  }

  predicate SortedLinks(ls: seq<Link>) {
    forall i, j :: 0 <= i < j < |ls| ==> ls[i].remote <= ls[j].remote
  }

  /** The lists as they go into the table: those without links are left out, byte lists come first. */
  function ByteLists(ds: seq<Links>): seq<seq<Item>> {
    if ds == [] then []
    else ByteLists(ds[..|ds| - 1]) + if ds[|ds| - 1].bytes == [] then [] else [Items(ds[|ds| - 1].bytes, false)]
  }

  function BitLists(ds: seq<Links>): seq<seq<Item>> {
    if ds == [] then []
    else BitLists(ds[..|ds| - 1]) + if ds[|ds| - 1].bits == [] then [] else [Items(ds[|ds| - 1].bits, true)]
  }

  function AllRequests(lists: seq<seq<Item>>): seq<seq<Item>> {
    if lists == [] then [] else AllRequests(lists[..|lists| - 1]) + Requests(lists[|lists| - 1])
  }

  function Total(ds: seq<Links>): nat {
    if ds == [] then 0 else Total(ds[..|ds| - 1]) + |ds[|ds| - 1].bytes| + |ds[|ds| - 1].bits|
  }

  lemma {:induction false} MarkAllAppend(a: seq<seq<Item>>, b: seq<seq<Item>>)
    ensures MarkAll(a + b) == MarkAll(a) + MarkAll(b)
  {
    hide MarkRequest;
    if a == [] {
      assert a + b == b;
    } else {
      MarkAllAppend(a[1..], b);
      assert (a + b)[1..] == a[1..] + b && (a + b)[0] == a[0];
      var first := MarkRequest(a[0]);
      assert first + (MarkAll(a[1..]) + MarkAll(b)) == (first + MarkAll(a[1..])) + MarkAll(b);
    }
  }

  lemma {:induction false} FlattenAppend(a: seq<seq<Item>>, b: seq<seq<Item>>)
    ensures Flatten(a + b) == Flatten(a) + Flatten(b)
  {
    if a == [] {
      assert a + b == b;
    } else {
      FlattenAppend(a[1..], b);
      assert (a + b)[1..] == a[1..] + b;
    }
  }

  /** The requests hold the items of the lists, each once and in the same order. */
  lemma {:induction false} RequestsKeepItems(lists: seq<seq<Item>>)
    ensures Flatten(AllRequests(lists)) == Flatten(lists) && NoEmpty(AllRequests(lists))
  {
    if lists != [] {
      var n := |lists| - 1;
      RequestsKeepItems(lists[..n]);
      RequestsAreMaximalRuns(lists[n]);
      RunsNotEmpty(Requests(lists[n]));
      FlattenAppend(AllRequests(lists[..n]), Requests(lists[n]));
      FlattenAppend(lists[..n], [lists[n]]);
      assert lists == lists[..n] + [lists[n]] && Flatten([lists[n]]) == lists[n];
    }
  }

  lemma {:induction false} RunsNotEmpty(rs: seq<seq<Item>>)
    requires MaximalRuns(rs)
    ensures NoEmpty(rs)
  {
    if rs != [] {
      RunsNotEmpty(rs[1..]);
      forall k | 0 <= k < |rs| ensures rs[k] != [] { if k > 0 { assert rs[k] == rs[1..][k - 1]; } }
    }
  }

  function InsertAt(r: seq<Link>, k: nat, l: Link): (t: seq<Link>)
    requires k <= |r|
    ensures |t| == |r| + 1
    ensures forall j :: 0 <= j < |t| ==> t[j] == if j < k then r[j] else if j == k then l else r[j - 1]
  {
    r[..k] + [l] + r[k..]
  }

  lemma {:induction false} InsertedSorted(r: seq<Link>, k: nat, l: Link)
    requires SortedLinks(r) && k <= |r| && (forall j :: 0 <= j < k ==> r[j].remote <= l.remote)
    requires (k < |r| ==> l.remote < r[k].remote)
    ensures SortedLinks(InsertAt(r, k, l)) && multiset(InsertAt(r, k, l)) == multiset(r) + multiset{l}
  {
    assert multiset(r[..k] + [l] + r[k..]) == multiset(r) + multiset{l} by { assert r == r[..k] + r[k..]; }
    hide InsertAt;
    var t := InsertAt(r, k, l);
    forall i, j | 0 <= i < j < |t| ensures t[i].remote <= t[j].remote {
    }
  }

  method PlaceFor(r: seq<Link>, l: Link) returns (k: nat)
    ensures k <= |r| && (forall j :: 0 <= j < k ==> r[j].remote <= l.remote) && (k < |r| ==> l.remote < r[k].remote)
  {
    k := 0;
    while k < |r| && r[k].remote <= l.remote
      invariant k <= |r| && forall j :: 0 <= j < k ==> r[j].remote <= l.remote
    {
      k := k + 1;
    }
  }

  /** The links sorted by their remote addresses. */
  method Sort(ls: seq<Link>) returns (r: seq<Link>)
    ensures SortedLinks(r) && multiset(r) == multiset(ls)
  {
    r := [];
    for i := 0 to |ls|
      invariant SortedLinks(r) && multiset(r) == multiset(ls[..i])
    {
      hide SortedLinks, InsertAt;
      var k := PlaceFor(r, ls[i]);
      InsertedSorted(r, k, ls[i]);
      assert ls[..i + 1] == ls[..i] + [ls[i]];
      r := InsertAt(r, k, ls[i]);
    }
    assert ls[..|ls|] == ls;
  }

  ghost predicate AllFit(ds: seq<Links>) {
    forall i :: 0 <= i < |ds| ==>
      && (forall k :: 0 <= k < |ds[i].bytes| ==> FitsLink(ds[i].bytes[k]))
      && (forall k :: 0 <= k < |ds[i].bits| ==> FitsLink(ds[i].bits[k]))
  }

  /** A link in the table: it is in a list of bytes or bits of some device, whose address is in front. */
  datatype Row = Row(l: Link, isBit: bool, list: nat, dev: nat)

  function RowsOf(ls: seq<Link>, isBit: bool, list: nat): (rows: seq<Row>)
    ensures |rows| == |ls|
  {
    seq(|ls|, i requires 0 <= i < |ls| => Row(ls[i], isBit, list, ls[0].dev))
  }

  function ByteRows(ds: seq<Links>): seq<Row> {
    if ds == [] then [] else ByteRows(ds[..|ds| - 1]) + RowsOf(ds[|ds| - 1].bytes, false, |ds| - 1)
  }

  function BitRows(ds: seq<Links>): seq<Row> {
    if ds == [] then [] else BitRows(ds[..|ds| - 1]) + RowsOf(ds[|ds| - 1].bits, true, |ds| - 1)
  }

  /** The word's fields are the addresses of the link, the address of its device, and its size or bit. */
  predicate Carries(w: nat, row: Row) {
    && w % 0x400 == row.l.remote && (w / 0x400 % 2 == 1 <==> row.isBit) && w / 0x800 % 0x20 == row.dev
    && w / 0x1_0000 % 0x400 == row.l.local && IsRead(w) && w / 0x800_0000 % 8 == row.l.size
  }

  function Marker(w: nat): nat { w / 0x4000_0000 % 4 }

  /** The next link is of the same list and can be read in one go with this one. */
  predicate Joined(rows: seq<Row>, k: nat)
    requires k < |rows|
  {
    k + 1 < |rows| && rows[k + 1].list == rows[k].list && rows[k + 1].isBit == rows[k].isBit
    && if rows[k].isBit then rows[k + 1].l.remote <= rows[k].l.remote + 1
       else rows[k + 1].l.remote == rows[k].l.remote + rows[k].l.size + 1
  }

  /** The words of the table carry the rows, as far as they are written. */
  ghost predicate Rowed(table: seq<nat>, rows: seq<Row>) {
    |rows| <= |table| && forall k :: 0 <= k < |rows| ==>
      Carries(table[k], rows[k]) && Marker(table[k]) == if Joined(rows, k) then CONTINUE else LAST
  }

  predicate FitsLink(l: Link) {
    l.remote < 0x400 && l.dev < 0x20 && l.local < 0x400 && l.size < 8
  }

  /** The loop looks at the next link. */
  lemma EntryOf(ls: seq<Link>, isBit: bool, list: nat, i: nat)
    requires i < |ls|
    ensures var l := ls[i];
      var next := i + 1 != |ls|
        && (if isBit then ls[i + 1].remote <= 1 + l.remote else ls[i + 1].remote == l.remote + l.size + 1);
      && Joined(RowsOf(ls, isBit, list), i) == next
      && |Entries(Items(ls, isBit))| == |ls|
      && Entries(Items(ls, isBit))[i] ==
        Entry(Item(l.remote, isBit, ls[0].dev, l.local, l.size), if next then CONTINUE else LAST)
  {
  }

  lemma {:induction false} PackCarries(e: Entry, row: Row)
    requires FitsLink(row.l) && row.dev < 0x20 && e.marker < 4
    requires e.item == Item(row.l.remote, row.isBit, row.dev, row.l.local, row.l.size)
    ensures Unpack(Pack(e)) == e && Carries(Pack(e), row) && Marker(Pack(e)) == e.marker && Pack(e) != 0
  {
    hide Pack;
    UnpackPack(e);
    assert Unpack(Pack(e)).item == e.item;
  }

  /** Writes the entries of one list. */
  method WriteList(table: array<nat>, n: nat, ls: seq<Link>, isBit: bool, ghost list: nat)
    requires ls != [] && n + |ls| <= table.Length && forall k :: 0 <= k < |ls| ==> FitsLink(ls[k])
    modifies table
    ensures table[..n] == old(table[..n]) && table[n + |ls|..] == old(table[n + |ls|..])
    ensures UnpackAll(table[n..n + |ls|]) == Entries(Items(ls, isBit))
    ensures forall k :: n <= k < n + |ls| ==> table[k] != 0
    ensures Rowed(table[n..], RowsOf(ls, isBit, list))
  {
    hide Pack, Unpack, IsRead, Carries, Marker, Entries, Joined;
    ghost var items, rows := Items(ls, isBit), RowsOf(ls, isBit, list);
    for i := 0 to |ls|
      invariant table[..n] == old(table[..n]) && table[n + |ls|..] == old(table[n + |ls|..])
      invariant forall k :: 0 <= k < i ==> Unpack(table[n + k]) == Entries(items)[k]
      invariant forall k :: n <= k < n + i ==> table[k] != 0
      invariant forall k :: 0 <= k < i ==>
        Carries(table[n + k], rows[k]) && Marker(table[n + k]) == if Joined(rows, k) then CONTINUE else LAST
    {
      var l := ls[i];
      var next := i + 1 != |ls|
        && (if isBit then ls[i + 1].remote <= 1 + l.remote else ls[i + 1].remote == l.remote + l.size + 1);
      var e := Entry(Item(l.remote, isBit, ls[0].dev, l.local, l.size), if next then CONTINUE else LAST);
      PackCarries(e, rows[i]);
      assert Joined(rows, i) == next && Entries(items)[i] == e by { EntryOf(ls, isBit, list, i); }
      table[n + i] := Pack(e);
    }
  }

  /** The lists sorted, with the same links. */
  ghost predicate SortedFrom(sorted: seq<Links>, ds: seq<Links>) {
    && |sorted| == |ds|
    && forall i :: 0 <= i < |ds| ==>
      && SortedLinks(sorted[i].bytes) && multiset(sorted[i].bytes) == multiset(ds[i].bytes)
      && SortedLinks(sorted[i].bits) && multiset(sorted[i].bits) == multiset(ds[i].bits)
  }

  method SortAll(ds: seq<Links>) returns (sorted: seq<Links>)
    requires AllFit(ds)
    ensures SortedFrom(sorted, ds) && AllFit(sorted) && Total(sorted) == Total(ds)
  {
    sorted := [];
    for i := 0 to |ds|
      invariant SortedFrom(sorted, ds[..i]) && AllFit(sorted) && Total(sorted) == Total(ds[..i])
    {
      hide SortedFrom, SortedLinks, Total, FitsLink;
      assert ds[..i + 1] == ds[..i] + [ds[i]];
      assert AllFit([ds[i]]);
      var bytes := Sort(ds[i].bytes);
      var bits := Sort(ds[i].bits);
      OneMoreSorted(sorted, ds[..i], ds[i], Links(bytes, bits));
      sorted := sorted + [Links(bytes, bits)];
    }
    assert ds[..|ds|] == ds;
  }

  lemma {:induction false} OneMoreSorted(sorted: seq<Links>, ds: seq<Links>, d: Links, e: Links)
    requires SortedFrom(sorted, ds) && AllFit(sorted) && Total(sorted) == Total(ds) && AllFit([d])
    requires SortedLinks(e.bytes) && multiset(e.bytes) == multiset(d.bytes)
    requires SortedLinks(e.bits) && multiset(e.bits) == multiset(d.bits)
    ensures SortedFrom(sorted + [e], ds + [d]) && AllFit(sorted + [e]) && Total(sorted + [e]) == Total(ds + [d])
  {
    SameLinks(d.bytes, e.bytes);
    SameLinks(d.bits, e.bits);
    OneMoreFits(sorted, d, e);
    hide AllFit, SortedLinks;
    assert (sorted + [e])[..|sorted|] == sorted && (ds + [d])[..|ds|] == ds;
  }

  lemma OneMoreFits(sorted: seq<Links>, d: Links, e: Links)
    requires AllFit(sorted) && AllFit([d])
    requires (forall k :: 0 <= k < |e.bytes| ==> e.bytes[k] in d.bytes)
    requires forall k :: 0 <= k < |e.bits| ==> e.bits[k] in d.bits
    ensures AllFit(sorted + [e])
  {
    assert [d][0] == d;
  }

  lemma SameLinks(a: seq<Link>, b: seq<Link>)
    requires multiset(a) == multiset(b)
    ensures |a| == |b| && forall k :: 0 <= k < |b| ==> b[k] in a
  {
    assert |multiset(a)| == |a| && |multiset(b)| == |b|;
    forall k | 0 <= k < |b| ensures b[k] in a { assert b[k] in multiset(b); }
  }

  /** The table after some lists. */
  ghost predicate Written(table: seq<nat>, n: nat, lists: seq<seq<Item>>) {
    n <= |table| && UnpackAll(table[..n]) == MarkAll(AllRequests(lists)) && forall k :: 0 <= k < |table| ==>
      (table[k] == 0 <==> k >= n)
  }

  lemma {:induction false} OneMoreList(was: seq<nat>, table: seq<nat>, n: nat, lists: seq<seq<Item>>, items: seq<Item>)
    requires Written(was, n, lists) && |table| == |was| && n + |items| <= |was|
    requires table[..n] == was[..n] && table[n + |items|..] == was[n + |items|..]
    requires UnpackAll(table[n..n + |items|]) == Entries(items)
    requires forall k :: n <= k < n + |items| ==> table[k] != 0
    ensures Written(table, n + |items|, lists + [items])
  {
    hide Unpack, Entries, Requests, MarkAll;
    var m := n + |items|;
    assert table[..m] == table[..n] + table[n..m];
    assert UnpackAll(table[..m]) == UnpackAll(table[..n]) + UnpackAll(table[n..m]);
    EntriesMarkRequests(items);
    assert (lists + [items])[..|lists|] == lists;
    MarkAllAppend(AllRequests(lists), Requests(items));
    forall k | m <= k < |table| ensures table[k] == 0 { assert table[k] == table[m..][k - m] == was[m..][k - m]; }
    forall k | 0 <= k < n ensures table[k] != 0 { assert table[k] == table[..n][k] == was[..n][k]; }
  }

  /** A row of a list that was written before. */
  predicate Before(row: Row, list: nat, isBit: bool) {
    row.list < list || (isBit && !row.isBit)
  }

  lemma {:induction false} OneMoreRows(was: seq<nat>, table: seq<nat>, rows: seq<Row>, ls: seq<Link>, isBit: bool,
      list: nat)
    requires Rowed(was, rows) && |table| == |was| && table[..|rows|] == was[..|rows|]
    requires Rowed(table[|rows|..], RowsOf(ls, isBit, list))
    requires forall k :: 0 <= k < |rows| ==> Before(rows[k], list, isBit)
    ensures Rowed(table, rows + RowsOf(ls, isBit, list))
  {
    hide Carries, Marker;
    var n, more := |rows|, RowsOf(ls, isBit, list);
    var all := rows + more;
    forall k | 0 <= k < |all|
      ensures Carries(table[k], all[k]) && Marker(table[k]) == if Joined(all, k) then CONTINUE else LAST
    {
      if k < n {
        assert table[k] == table[..n][k] == was[..n][k] && Joined(all, k) == Joined(rows, k);
      } else {
        assert table[k] == table[n..][k - n] && Joined(all, k) == Joined(more, k - n);
      }
    }
  }

  lemma {:induction false} ByteRowsAre(ds: seq<Links>)
    ensures |ByteRows(ds)| == Bytes(ds)
    ensures forall k :: 0 <= k < |ByteRows(ds)| ==> !ByteRows(ds)[k].isBit && ByteRows(ds)[k].list < |ds|
  {
    if ds != [] { ByteRowsAre(ds[..|ds| - 1]); }
  }

  lemma {:induction false} BitRowsAre(ds: seq<Links>)
    ensures |BitRows(ds)| == BitsOf(ds)
    ensures forall k :: 0 <= k < |BitRows(ds)| ==> BitRows(ds)[k].isBit && BitRows(ds)[k].list < |ds|
  {
    if ds != [] { BitRowsAre(ds[..|ds| - 1]); }
  }

  function ListOf(ls: seq<Link>, isBit: bool): seq<seq<Item>> {
    if ls == [] then [] else [Items(ls, isBit)]
  }

  /** Writes one more list, if there is anything in it. */
  method WriteNext(table: array<nat>, n: nat, ghost lists: seq<seq<Item>>, ls: seq<Link>, isBit: bool,
      ghost rows: seq<Row>, ghost list: nat)
    returns (m: nat)
    requires |rows| == n && Rowed(table[..], rows) && forall k :: 0 <= k < n ==> Before(rows[k], list, isBit)
    requires Written(table[..], n, lists) && n + |ls| <= table.Length && forall k :: 0 <= k < |ls| ==> FitsLink(ls[k])
    modifies table
    ensures m == n + |ls| && Written(table[..], m, lists + ListOf(ls, isBit))
    ensures Rowed(table[..], rows + RowsOf(ls, isBit, list))
  {
    hide Written, Items, Rowed, RowsOf, Before;
    if ls == [] {
      assert lists + [] == lists;
      assert rows + RowsOf(ls, isBit, list) == rows;
      return n;
    }
    ghost var was := table[..];
    WriteList(table, n, ls, isBit, list);
    OneMoreRows(was, table[..], rows, ls, isBit, list);
    OneMoreList(was, table[..], n, lists, Items(ls, isBit));
    m := n + |ls|;
  }

  method WriteBytes(table: array<nat>, ds: seq<Links>) returns (n: nat)
    requires AllFit(ds) && Total(ds) <= table.Length && Written(table[..], 0, [])
    modifies table
    ensures Written(table[..], n, ByteLists(ds)) && n == Bytes(ds) && Rowed(table[..], ByteRows(ds))
  {
    assert Rowed(table[..], []);
    hide Written, Items, FitsLink, Rowed, RowsOf;
    n := 0;
    for i := 0 to |ds|
      invariant Written(table[..], n, ByteLists(ds[..i])) && n == Bytes(ds[..i]) && Rowed(table[..], ByteRows(ds[..i]))
    {
      ByteRowsAre(ds[..i]);
      assert ds[..i + 1][..i] == ds[..i];
      BytesUpTo(ds, i + 1);
      n := WriteNext(table, n, ByteLists(ds[..i]), ds[i].bytes, false, ByteRows(ds[..i]), i);
    }
    assert ds[..|ds|] == ds;
  }

  method WriteBits(table: array<nat>, ds: seq<Links>, start: nat) returns (n: nat)
    requires AllFit(ds) && Total(ds) <= table.Length && start == Bytes(ds) && Written(table[..], start, ByteLists(ds))
    requires Rowed(table[..], ByteRows(ds))
    modifies table
    ensures Written(table[..], n, ByteLists(ds) + BitLists(ds)) && n == Total(ds)
    ensures Rowed(table[..], ByteRows(ds) + BitRows(ds))
  {
    hide Written, Items, FitsLink, Rowed, RowsOf;
    n := start;
    ByteRowsAre(ds);
    ghost var bytes := ByteRows(ds);
    assert bytes + BitRows(ds[..0]) == bytes;
    assert ByteLists(ds) + BitLists(ds[..0]) == ByteLists(ds);
    for i := 0 to |ds|
      invariant Written(table[..], n, ByteLists(ds) + BitLists(ds[..i])) && n == start + BitsOf(ds[..i])
      invariant Rowed(table[..], bytes + BitRows(ds[..i]))
    {
      BitRowsAre(ds[..i]);
      assert ds[..i + 1][..i] == ds[..i];
      BytesUpTo(ds, i + 1);
      n := WriteNext(table, n, ByteLists(ds) + BitLists(ds[..i]), ds[i].bits, true, bytes + BitRows(ds[..i]), i);
      assert bytes + BitRows(ds[..i]) + RowsOf(ds[i].bits, true, i) == bytes + BitRows(ds[..i + 1]);
      assert ByteLists(ds) + BitLists(ds[..i]) + ListOf(ds[i].bits, true) == ByteLists(ds) + BitLists(ds[..i + 1]);
    }
    assert ds[..|ds|] == ds;
    BytesUpTo(ds, |ds|);
  }

  /** The number of byte links and of bit links. */
  function Bytes(ds: seq<Links>): nat {
    if ds == [] then 0 else Bytes(ds[..|ds| - 1]) + |ds[|ds| - 1].bytes|
  }

  function BitsOf(ds: seq<Links>): nat {
    if ds == [] then 0 else BitsOf(ds[..|ds| - 1]) + |ds[|ds| - 1].bits|
  }

  lemma {:induction false} BytesUpTo(ds: seq<Links>, i: nat)
    requires i <= |ds|
    ensures Bytes(ds[..i]) <= Bytes(ds) && BitsOf(ds[..i]) <= BitsOf(ds) && Bytes(ds) + BitsOf(ds) == Total(ds)
    decreases |ds|
  {
    if i < |ds| {
      BytesUpTo(ds[..|ds| - 1], i);
      assert ds[..|ds| - 1][..i] == ds[..i];
    } else {
      assert ds[..i] == ds;
      if ds != [] { BytesUpTo(ds[..|ds| - 1], |ds| - 1); }
    }
  }

  lemma {:induction false} EmptyTable(table: seq<nat>)
    requires forall k :: 0 <= k < |table| ==> table[k] == 0
    ensures Written(table, 0, [])
  {
  }

  /** Marking the last entry as the end of the array makes the table one the decoder reads back. */
  lemma {:induction false} FinishedReads(was: seq<nat>, table: seq<nat>, n: nat, rs: seq<seq<Item>>)
    requires 0 < n <= |was| == |table| && UnpackAll(was[..n]) == MarkAll(rs) && NoEmpty(rs)
    requires table == was[n - 1 := table[n - 1]] && Unpack(table[n - 1]) == Unpack(was[n - 1]).(marker := ARRAY_END)
    ensures rs != [] && UnpackAll(table[..n]) == Finish(MarkAll(rs)) && Cut(UnpackAll(table)) == rs
  {
    hide Unpack, Cut;
    var es := UnpackAll(was[..n]);
    assert rs != [];
    assert es[n - 1] == Unpack(was[n - 1]);
    assert UnpackAll(table[..n]) == es[n - 1 := es[n - 1].(marker := ARRAY_END)];
    assert UnpackAll(table) == UnpackAll(table[..n]) + UnpackAll(table[n..]);
    CutFinish(rs, UnpackAll(table[n..]));
  }

  /** Exactly the last entry is marked as the end. */
  lemma {:induction false} OneEnd(rs: seq<seq<Item>>, k: nat)
    requires k < |MarkAll(rs)|
    ensures Finish(MarkAll(rs))[k].marker == ARRAY_END <==> k == |MarkAll(rs)| - 1
  {
    NoEndYet(rs, k);
  }

  lemma {:induction false} NoEndYet(rs: seq<seq<Item>>, k: nat)
    requires k < |MarkAll(rs)|
    ensures MarkAll(rs)[k].marker == CONTINUE || MarkAll(rs)[k].marker == LAST
  {
    if k >= |rs[0]| { NoEndYet(rs[1..], k - |rs[0]|); }
  }

  /** Builds the table of all read links, sorted by device and address and cut into requests: the
      requests are those of the sorted lists, the decoder reads them back, and without links the
      table starts with 0. */
  method UploadRemoteData(ds: seq<Links>) returns (table: array<nat>, len: nat, ghost sorted: seq<Links>)
    requires AllFit(ds) && Total(ds) <= TABLE_SIZE
    ensures fresh(table) && table.Length == TABLE_SIZE && len == Total(ds) && SortedFrom(sorted, ds)
    ensures var rs := AllRequests(ByteLists(sorted) + BitLists(sorted));
      if len == 0 then table[0] == 0
        else table[0] != 0 && UnpackAll(table[..len]) == Finish(MarkAll(rs)) && Cut(UnpackAll(table[..])) == rs
    ensures var rows := ByteRows(sorted) + BitRows(sorted);
      && |rows| == len && (forall k :: 0 <= k < len ==> Carries(table[k], rows[k]))
      && forall k :: 0 <= k < len ==>
           Marker(table[k]) == if k == len - 1 then ARRAY_END else if Joined(rows, k) then CONTINUE else LAST
  {
    hide Written, AllFit, SortedFrom, Unpack, Cut, Pack, Rowed, Carries, Marker, Joined, ByteRows, BitRows;
    hide ByteLists, BitLists, AllRequests, IsRead;
    var lists := SortAll(ds);
    sorted := lists;
    ghost var all := ByteLists(sorted) + BitLists(sorted);
    table := new nat[TABLE_SIZE](_ => 0);
    EmptyTable(table[..]);
    var n := WriteBytes(table, lists);
    n := WriteBits(table, lists, n);
    WrittenIs(table[..], n, all);
    ghost var rows := ByteRows(sorted) + BitRows(sorted);
    ByteRowsAre(sorted);
    BitRowsAre(sorted);
    BytesUpTo(sorted, |sorted|);
    RowedIs(table[..], rows);
    RequestsKeepItems(all);
    if n != 0 {
      ghost var was := table[..];
      var e := Unpack(table[n - 1]);
      UnpackPack(e.(marker := ARRAY_END));
      UnpackFits(table[n - 1]);
      StillCarries(table[n - 1], rows[n - 1]);
      table[n - 1] := Pack(e.(marker := ARRAY_END));
      FinishedReads(was, table[..], n, AllRequests(all));
    }
    len := n;
  }

  lemma {:induction false} WrittenIs(table: seq<nat>, n: nat, lists: seq<seq<Item>>)
    requires Written(table, n, lists)
    ensures n <= |table| && UnpackAll(table[..n]) == MarkAll(AllRequests(lists))
    ensures forall k :: 0 <= k < |table| ==> (table[k] == 0 <==> k >= n)
  {
  }

  lemma UnpackFits(w: nat)
    ensures FitsFields(Unpack(w).item)
  {
  }

  lemma RowedIs(table: seq<nat>, rows: seq<Row>)
    requires Rowed(table, rows)
    ensures |rows| <= |table| && forall k :: 0 <= k < |rows| ==>
      Carries(table[k], rows[k]) && Marker(table[k]) == if Joined(rows, k) then CONTINUE else LAST
  {
  }

  /** Marking a word as the end leaves its other fields. */
  lemma {:induction false} StillCarries(w: nat, row: Row)
    requires Carries(w, row)
    ensures var w' := Pack(Unpack(w).(marker := ARRAY_END)); Carries(w', row) && Marker(w') == ARRAY_END
  {
    hide Pack;
    UnpackPack(Unpack(w).(marker := ARRAY_END));
    UnpackFits(w);
    var e := Unpack(Pack(Unpack(w).(marker := ARRAY_END)));
    assert e.item == Unpack(w).item && e.marker == ARRAY_END;
  }
}
