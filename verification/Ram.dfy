/** The map of a controller's RAM: which bits are taken, and by what kind of variable. */
module Ram {
  import opened Options

  /** A cell of the map: the algorithm it belongs to, the bits that are taken, and whether it holds bit variables. */
  datatype Cell = Cell(alg: int, value: set<nat>, bitcell: bool)

  const ALL: set<nat> := {0, 1, 2, 3, 4, 5, 6, 7}
  const FREE := Cell(0, {}, false)

  /** What the allocator needs to know of a variable; a bit variable takes two bits, a value and a quality bit. */
  datatype Var = Var(isBit: bool, size: nat, quality: bool, alg: int) {
    /** The bytes of a variable that is not a bit. */
    function Bytes(): nat { size + if quality then 1 else 0 }

    predicate Valid() { !isBit ==> size > 0 }
  }

  /** A variable and where it was put. */
  datatype Place = Place(v: Var, addr: nat, bit: nat) {
    ghost predicate Covers(a: nat, k: nat) {
      k < 8 && if v.isBit then a == addr && (k == bit || k == bit + 1) else addr <= a < addr + v.Bytes()
    }

    ghost predicate In(begin: nat, end: nat) {
      if v.isBit then begin <= addr <= end && bit + 1 < 8 else begin <= addr && addr + v.Bytes() <= end
    }
  }

  ghost predicate Apart(p: Place, q: Place) {
    forall a: nat, k: nat :: !(p.Covers(a, k) && q.Covers(a, k))
  }

  /** Live variables lie in user RAM without overlapping, bit variables on even bits, and those that
      share a cell belong to one algorithm. */
  ghost predicate Sound(live: seq<Place>, begin: nat, end: nat) {
    && (forall i :: 0 <= i < |live| ==> live[i].In(begin, end) && (live[i].v.isBit ==> live[i].bit % 2 == 0))
    && (forall i, j :: 0 <= i < j < |live| ==> Apart(live[i], live[j]))
    && (forall i, j :: 0 <= i < j < |live| && live[i].v.isBit && live[j].v.isBit && live[i].addr == live[j].addr ==>
         live[i].v.alg == live[j].v.alg)
  }

  predicate Paired(bits: set<nat>) {
    bits <= ALL && (0 in bits <==> 1 in bits) && (2 in bits <==> 3 in bits) && (4 in bits <==> 5 in bits)
      && (6 in bits <==> 7 in bits)
  }

  /** A cell is free, or taken as a whole, or holds pairs of bits. */
  ghost predicate CellOk(c: Cell) {
    if c.bitcell then Paired(c.value) && c.value != {} else c.value == {} || c.value == ALL
  }

  /** The map knows of a live variable: its bits are taken; a cell with bit variables is marked as one,
      and with their algorithm unless nothing more fits in. */
  ghost predicate Knows(cells: seq<Cell>, p: Place) {
    && p.addr + (if p.v.isBit then 1 else p.v.Bytes()) <= |cells|
    && if p.v.isBit then
         && cells[p.addr].bitcell && {p.bit, p.bit + 1} <= cells[p.addr].value
         && (cells[p.addr].alg == p.v.alg || cells[p.addr].value == ALL)
       else forall a :: p.addr <= a < p.addr + p.v.Bytes() ==> !cells[a].bitcell && cells[a].value == ALL
  }

  ghost predicate Covered(cells: seq<Cell>, live: seq<Place>) {
    && (forall a :: 0 <= a < |cells| ==> CellOk(cells[a]))
    && (forall i :: 0 <= i < |live| ==> Knows(cells, live[i]))
  }

  /* ---- putting a variable into the map, and taking it out ---- */

  ghost predicate FreeRun(cells: seq<Cell>, a: nat, n: nat) {
    a + n <= |cells| && forall i :: a <= i < a + n ==> cells[i].value == {}
  }

  /** The cells with a variable put in; of a run of bytes only the last cell gets the algorithm. */
  function Mark(cells: seq<Cell>, p: Place): (r: seq<Cell>)
    requires p.addr < |cells|
    ensures |r| == |cells|
  {
    if p.v.isBit then cells[p.addr := Cell(p.v.alg, cells[p.addr].value + ({p.bit, p.bit + 1} * ALL), true)]
    else
      seq(|cells|, i requires 0 <= i < |cells| =>
        if p.addr <= i < p.addr + p.v.Bytes() then
          Cell(if i == p.addr + p.v.Bytes() - 1 then p.v.alg else cells[i].alg, ALL, cells[i].bitcell)
        else cells[i])
  }

  /** Where a new variable may go: a bit variable into a free pair of a cell of its algorithm or into a
      free cell, other ones into a run of free cells. */
  ghost predicate Fits(cells: seq<Cell>, p: Place, begin: nat, end: nat) {
    && p.In(begin, end) && end < |cells|
    && if p.v.isBit then
         && p.bit % 2 == 0 && {p.bit, p.bit + 1} !! cells[p.addr].value
         && (cells[p.addr].value == {} || (cells[p.addr].bitcell && cells[p.addr].alg == p.v.alg))
       else FreeRun(cells, p.addr, p.v.Bytes())
  }

  /** Putting a variable in takes exactly its bits. */
  lemma MarkExactly(cells: seq<Cell>, p: Place, a: nat, k: nat)
    requires p.addr < |cells| && a < |cells| && cells[a].value <= ALL
    ensures k in Mark(cells, p)[a].value <==> k in cells[a].value || p.Covers(a, k)
  {
    assert k in ALL <==> k < 8;
  }

  lemma PairUp(bits: set<nat>, b: nat)
    requires Paired(bits) && b % 2 == 0 && b < 8
    ensures Paired(bits + {b, b + 1}) && {b, b + 1} * ALL == {b, b + 1}
    ensures b !in bits ==> {b, b + 1} !! bits && bits != ALL
  {
    assert b == 0 || b == 2 || b == 4 || b == 6;
  }

  /** A variable that fits is apart from every variable the map knows of. */
  lemma FitsApart(cells: seq<Cell>, p: Place, q: Place, begin: nat, end: nat)
    requires Fits(cells, p, begin, end) && Knows(cells, q) && q.In(begin, end)
    ensures Apart(p, q)
    ensures p.v.isBit && q.v.isBit && p.addr == q.addr ==> p.v.alg == q.v.alg
  {
    forall a: nat, k: nat | p.Covers(a, k) ensures !q.Covers(a, k) {
      assert k in ALL && a < |cells| && k !in cells[a].value;
    }
    if p.v.isBit && q.v.isBit && p.addr == q.addr {
      assert p.bit in ALL;
    }
  }

  lemma MarkKnows(cells: seq<Cell>, p: Place, q: Place, begin: nat, end: nat)
    requires Fits(cells, p, begin, end) && CellOk(cells[p.addr])
    requires Knows(cells, q) && q.In(begin, end)
    ensures Knows(Mark(cells, p), q)
  {
    FitsApart(cells, p, q, begin, end);
    if !p.v.isBit && q.v.isBit && p.Covers(q.addr, q.bit) {
      assert q.Covers(q.addr, q.bit);
    }
    if p.v.isBit && !q.v.isBit && q.Covers(p.addr, p.bit) {
      assert p.Covers(p.addr, p.bit);
    }
    if !p.v.isBit && !q.v.isBit {
      forall a: nat | q.addr <= a < q.addr + q.v.Bytes() ensures !p.Covers(a, 0) { assert q.Covers(a, 0); }
    }
  }

  lemma MarkOk(cells: seq<Cell>, p: Place, begin: nat, end: nat)
    requires Fits(cells, p, begin, end) && forall a :: 0 <= a < |cells| ==> CellOk(cells[a])
    ensures forall a :: 0 <= a < |cells| ==> CellOk(Mark(cells, p)[a])
    ensures Knows(Mark(cells, p), p)
  {
    if p.v.isBit { PairUp(cells[p.addr].value, p.bit); }
  }

  /** Putting in a variable that fits keeps the live variables sound, and the map knows of all of them. */
  lemma MarkSound(cells: seq<Cell>, live: seq<Place>, p: Place, begin: nat, end: nat)
    requires Covered(cells, live) && Sound(live, begin, end) && Fits(cells, p, begin, end)
    ensures Sound(live + [p], begin, end) && Covered(Mark(cells, p), live + [p])
  {
    MarkOk(cells, p, begin, end);
    forall i | 0 <= i < |live| ensures Apart(live[i], p) && Knows(Mark(cells, p), live[i])
      ensures p.v.isBit && live[i].v.isBit && p.addr == live[i].addr ==> p.v.alg == live[i].v.alg {
      assert live[i].In(begin, end);
      FitsApart(cells, p, live[i], begin, end);
      MarkKnows(cells, p, live[i], begin, end);
    }
  }

  /* ---- where the allocator puts a variable ---- */

  /** The lowest bit that is not taken; 8 when all are. */
  function LowestFree(bits: set<nat>, from: nat := 0): (c: nat)
    requires from <= 8
    ensures from <= c <= 8 && (c < 8 ==> c !in bits) && forall k :: from <= k < c ==> k in bits
    decreases 8 - from
  {
    if from == 8 || from !in bits then from else LowestFree(bits, from + 1)
  }

  /** A cell of the algorithm with room for a bit variable, at the given bit if there is one. */
  predicate Usable(c: Cell, alg: int, fix: int) {
    c.alg == alg && c.bitcell && c.value != ALL && (fix == -1 || fix == LowestFree(c.value))
  }

  /** The lowest usable cell, or else the lowest free one. */
  ghost predicate ChosenBit(cells: seq<Cell>, begin: nat, end: nat, v: Var, fix: int, p: Place)
    requires end < |cells|
  {
    && p.v == v && begin <= p.addr <= end
    && if Usable(cells[p.addr], v.alg, fix) then
         p.bit == LowestFree(cells[p.addr].value) && forall i :: begin <= i < p.addr ==> !Usable(cells[i], v.alg, fix)
       else
         && (forall i :: begin <= i <= end ==> !Usable(cells[i], v.alg, fix))
         && cells[p.addr].value == {} && p.bit == (if fix == -1 then 0 else fix)
         && (forall i :: begin <= i < p.addr ==> cells[i].value != {})
  }

  ghost predicate NoBit(cells: seq<Cell>, begin: nat, end: nat, v: Var, fix: int)
    requires end < |cells|
  {
    forall i :: begin <= i <= end ==> !Usable(cells[i], v.alg, fix) && cells[i].value != {}
  }

  /** A cell of bit variables of the algorithm with a free pair at bit `b`. */
  ghost predicate Room(c: Cell, alg: int, b: nat) {
    c.bitcell && c.alg == alg && b % 2 == 0 && b + 1 < 8 && b !in c.value && b + 1 !in c.value
  }

  /** The lowest free pair of the cell is at `b`, and it is the one that is asked for, if any is. */
  ghost predicate Grants(c: Cell, alg: int, fix: int, b: nat) {
    Room(c, alg, b) && (fix == -1 || fix == b) && forall k: nat :: k < b ==> !Room(c, alg, k)
  }

  /** The result is the pair in the lowest cell that grants one, or else one in the lowest empty cell; there
      is none when there is neither. */
  ghost predicate Granted(cells: seq<Cell>, begin: nat, end: nat, v: Var, fix: int, r: Option<Place>)
    requires end < |cells|
  {
    if exists a, b: nat :: begin <= a <= end && Grants(cells[a], v.alg, fix, b) then
      && r.Some? && r.value.v == v && begin <= r.value.addr <= end
      && Grants(cells[r.value.addr], v.alg, fix, r.value.bit)
      && forall a, b: nat :: begin <= a < r.value.addr ==> !Grants(cells[a], v.alg, fix, b)
    else if exists a :: begin <= a <= end && cells[a].value == {} then
      && r.Some? && r.value.v == v && begin <= r.value.addr <= end
      && cells[r.value.addr].value == {} && r.value.bit == (if fix == -1 then 0 else fix)
      && forall a :: begin <= a < r.value.addr ==> cells[a].value != {}
    else
      r.None?
  }

  lemma UsableIs(c: Cell, alg: int, fix: int)
    requires CellOk(c) && (fix == -1 || 0 <= fix < 8)
    ensures Usable(c, alg, fix) ==> Grants(c, alg, fix, LowestFree(c.value))
    ensures !Usable(c, alg, fix) ==> forall b: nat :: !Grants(c, alg, fix, b)
  {
    if c.bitcell && c.value != ALL {
      var low := LowestFree(c.value);
      LowestFreeEven(c.value);
      if c.alg == alg {
        assert Room(c, alg, low);
        forall b: nat | Grants(c, alg, fix, b) ensures b == low { assert b in ALL; }
      }
    }
    if c.value == ALL {
      forall b: nat ensures !Room(c, alg, b) { assert b < 8 ==> b in ALL; }
    }
  }

  /** On a map in order the place that is chosen is the lowest there is. */
  lemma {:induction false} ChosenGranted(cells: seq<Cell>, begin: nat, end: nat, v: Var, fix: int, p: Place)
    requires end < |cells| && AllOk(cells) && (fix == -1 || 0 <= fix < 8) && ChosenBit(cells, begin, end, v, fix, p)
    ensures Granted(cells, begin, end, v, fix, Some(p))
  {
    hide CellOk, LowestFree, Usable, Grants;
    forall i | begin <= i <= end
      ensures Usable(cells[i], v.alg, fix) ==> Grants(cells[i], v.alg, fix, LowestFree(cells[i].value))
      ensures !Usable(cells[i], v.alg, fix) ==> forall b: nat :: !Grants(cells[i], v.alg, fix, b)
    {
      assert CellOk(cells[i]);
      UsableIs(cells[i], v.alg, fix);
    }
  }

  lemma {:induction false} NoneGranted(cells: seq<Cell>, begin: nat, end: nat, v: Var, fix: int)
    requires end < |cells| && AllOk(cells) && (fix == -1 || 0 <= fix < 8) && NoBit(cells, begin, end, v, fix)
    ensures Granted(cells, begin, end, v, fix, None)
  {
    hide CellOk, Usable, Grants;
    forall i | begin <= i <= end ensures forall b: nat :: !Grants(cells[i], v.alg, fix, b) {
      assert CellOk(cells[i]);
      UsableIs(cells[i], v.alg, fix);
    }
  }

  /** When any bit will do, none is granted exactly when the variable fits nowhere. */
  lemma NoneGrantedIff(cells: seq<Cell>, begin: nat, end: nat, v: Var, r: Option<Place>)
    requires v.isBit && end < |cells| && AllOk(cells) && Granted(cells, begin, end, v, -1, r)
    ensures r.None? <==> forall p: Place :: p.v == v ==> !Fits(cells, p, begin, end)
  {
    if r.Some? {
      var c := cells[r.value.addr];
      assert CellOk(c);
      assert Fits(cells, r.value, begin, end);
    } else {
      forall p: Place | p.v == v ensures !Fits(cells, p, begin, end) {
        if Fits(cells, p, begin, end) {
          var c := cells[p.addr];
          assert c.value != {} && Room(c, v.alg, p.bit);
          var b := LowestRoom(c, v.alg, p.bit);
        }
      }
    }
  }

  lemma {:induction false} LowestRoom(c: Cell, alg: int, b: nat) returns (low: nat)
    requires Room(c, alg, b)
    ensures Grants(c, alg, -1, low)
  {
    if k: nat :| k < b && Room(c, alg, k) { low := LowestRoom(c, alg, k); } else { low := b; }
  }

  /** The lowest run of free cells that is long enough. */
  ghost predicate LowestRun(cells: seq<Cell>, begin: nat, end: nat, n: nat, a: nat)
  {
    begin <= a && a + n <= end && FreeRun(cells, a, n) && forall b :: begin <= b < a ==> !FreeRun(cells, b, n)
  }

  ghost predicate NoRun(cells: seq<Cell>, begin: nat, end: nat, n: nat) {
    forall b :: begin <= b && b + n <= end ==> !FreeRun(cells, b, n)
  }

  lemma LowestFreeEven(bits: set<nat>)
    requires Paired(bits) && bits != ALL
    ensures var c := LowestFree(bits); c < 8 && c % 2 == 0 && c + 1 !in bits
  {
    var c := LowestFree(bits);
    assert (forall k :: 0 <= k < 8 ==> k in bits) ==> ALL <= bits;
    assert c == 0 || c == 1 || c == 2 || c == 3 || c == 4 || c == 5 || c == 6 || c == 7;
  }

  /** A bit that is asked for must be even, or -1 for any; then what is chosen fits. */
  lemma ChosenFits(cells: seq<Cell>, begin: nat, end: nat, v: Var, fix: int, p: Place)
    requires v.isBit && end < |cells| && ChosenBit(cells, begin, end, v, fix, p)
    requires fix == -1 || (0 <= fix < 8 && fix % 2 == 0)
    requires forall a :: 0 <= a < |cells| ==> CellOk(cells[a])
    ensures Fits(cells, p, begin, end)
  {
    var c := cells[p.addr];
    assert CellOk(c);
    if Usable(c, v.alg, fix) { LowestFreeEven(c.value); }
  }

  predicate OddBit(fix: int) { fix != -1 && fix % 2 == 1 }

  /** Asking for an odd bit breaks the pairing of the cell whenever it is granted. */
  lemma OddBitBreaksPairs(cells: seq<Cell>, begin: nat, end: nat, v: Var, fix: int, p: Place)
    requires v.isBit && end < |cells| && ChosenBit(cells, begin, end, v, fix, p) && 0 <= fix < 8
    requires forall a :: 0 <= a < |cells| ==> CellOk(cells[a])
    ensures CellOk(Mark(cells, p)[p.addr]) <==> fix % 2 == 0
  {
    var c := cells[p.addr];
    assert CellOk(c);
    if Usable(c, v.alg, fix) { LowestFreeEven(c.value); }
    assert p.bit == fix;
    var d := Mark(cells, p)[p.addr];
    assert fix in d.value;
    if fix % 2 == 0 {
      PairUp(c.value, fix);
    } else {
      assert fix - 1 !in d.value;
      assert fix == 1 || fix == 3 || fix == 5 || fix == 7;
    }
  }

  /** After a granted odd bit the next bit variable of the algorithm may overlap it: the second one is
      put at bit 0, and its quality bit is the value bit of the first. */
  lemma OddBitOverlaps(alg: int)
    returns (cells: seq<Cell>, p: Place, q: Place)
    ensures |cells| == 1 && CellOk(cells[0]) && p.addr == 0 && p.v.isBit && q.v.isBit
    ensures ChosenBit(cells, 0, 0, p.v, 1, p) && ChosenBit(Mark(cells, p), 0, 0, q.v, -1, q)
    ensures p.v.alg == q.v.alg == alg && !Apart(p, q)
  {
    var v := Var(true, 1, true, alg);
    cells, p, q := [FREE], Place(v, 0, 1), Place(v, 0, 0);
    assert 0 in ALL && 0 !in Mark(cells, p)[0].value;
    assert p.Covers(0, 1) && q.Covers(0, 1);
  }

  /* ---- rolling back ---- */

  /** The cells with a variable taken out: a cell that is not marked as a bit cell is freed with as many
      cells behind it as the variable's size. */
  function Unmark(cells: seq<Cell>, p: Place): (r: seq<Cell>)
    requires p.addr < |cells|
    ensures |r| == |cells|
  {
    var c := cells[p.addr];
    if c.bitcell then
      var left := c.value - {p.bit, p.bit + 1};
      cells[p.addr := Cell(c.alg, left, left != {})]
    else
      seq(|cells|, i requires 0 <= i < |cells| =>
        if p.addr <= i <= p.addr + p.v.size then cells[i].(value := {}) else cells[i])
  }

  ghost predicate Within(cells: seq<Cell>, ps: seq<Place>) {
    forall i :: 0 <= i < |ps| ==> ps[i].addr < |cells|
  }

  /** Variables put in one after the other. */
  function MarkAll(cells: seq<Cell>, ps: seq<Place>): (r: seq<Cell>)
    requires Within(cells, ps)
    ensures |r| == |cells|
  {
    if ps == [] then cells else Mark(MarkAll(cells, ps[..|ps| - 1]), ps[|ps| - 1])
  }

  /** Variables taken out, the last one first. */
  function UnmarkAll(cells: seq<Cell>, ps: seq<Place>): (r: seq<Cell>)
    requires Within(cells, ps)
    ensures |r| == |cells|
    decreases |ps|
  {
    if ps == [] then cells else UnmarkAll(Unmark(cells, ps[|ps| - 1]), ps[..|ps| - 1])
  }

  /** The same occupancy: the algorithm matters for bit cells only. */
  ghost predicate Same(c: seq<Cell>, c': seq<Cell>) {
    && |c| == |c'|
    && forall i :: 0 <= i < |c| ==>
         c[i].value == c'[i].value && c[i].bitcell == c'[i].bitcell && (c[i].bitcell ==> c[i].alg == c'[i].alg)
  }

  /** Every variable fitted when it was put in, and a bit variable opened a new cell only when no lower
      one was free. */
  ghost predicate Transaction(cells: seq<Cell>, ps: seq<Place>, begin: nat, end: nat) {
    Within(cells, ps) &&
    (ps == [] || (
      var n := |ps| - 1;
      var c := MarkAll(cells, ps[..n]);
      && Transaction(cells, ps[..n], begin, end) && Fits(c, ps[n], begin, end)
      && (ps[n].v.isBit && c[ps[n].addr].value == {} ==> forall j :: begin <= j < ps[n].addr ==> c[j].value != {})))
  }

  lemma UnmarkSame(c: seq<Cell>, c': seq<Cell>, p: Place)
    requires Same(c, c') && p.addr < |c|
    ensures Same(Unmark(c, p), Unmark(c', p))
  {
  }

  lemma {:induction false} UnmarkAllSame(c: seq<Cell>, c': seq<Cell>, ps: seq<Place>)
    requires Same(c, c') && Within(c, ps)
    ensures Same(UnmarkAll(c, ps), UnmarkAll(c', ps))
    decreases |ps|
  {
    if ps != [] {
      UnmarkSame(c, c', ps[|ps| - 1]);
      UnmarkAllSame(Unmark(c, ps[|ps| - 1]), Unmark(c', ps[|ps| - 1]), ps[..|ps| - 1]);
    }
  }

  function Clear(cells: seq<Cell>, k: nat): seq<Cell>
    requires k < |cells|
  {
    cells[k := cells[k].(value := {})]
  }

  ghost predicate AllOk(cells: seq<Cell>) {
    forall a :: 0 <= a < |cells| ==> CellOk(cells[a])
  }

  /** A byte variable without a quality byte frees the cell behind it, too. */
  predicate Overshoots(p: Place) { !p.v.isBit && !p.v.quality }

  lemma UndoOne(c: seq<Cell>, p: Place, begin: nat, end: nat)
    requires Fits(c, p, begin, end) && AllOk(c) && p.v.Valid()
    ensures Same(Unmark(Mark(c, p), p), if Overshoots(p) then Clear(c, p.addr + p.v.size) else c)
  {
    assert CellOk(c[p.addr]);
    if p.v.isBit {
      PairUp(c[p.addr].value, p.bit);
      assert c[p.addr].value + {p.bit, p.bit + 1} - {p.bit, p.bit + 1} == c[p.addr].value;
    } else {
      forall a | p.addr <= a < p.addr + p.v.Bytes() ensures !c[a].bitcell { assert CellOk(c[a]); }
    }
  }

  lemma {:induction false} MarkAllOk(c: seq<Cell>, ps: seq<Place>, begin: nat, end: nat)
    requires Transaction(c, ps, begin, end) && AllOk(c)
    ensures AllOk(MarkAll(c, ps))
    ensures forall i :: 0 <= i < |ps| ==> Knows(MarkAll(c, ps), ps[i])
  {
    if ps != [] {
      var n := |ps| - 1;
      MarkAllOk(c, ps[..n], begin, end);
      var c1 := MarkAll(c, ps[..n]);
      MarkOk(c1, ps[n], begin, end);
      forall i | 0 <= i < n ensures Knows(MarkAll(c, ps), ps[i]) {
        assert Knows(c1, ps[..n][i]);
        InTransaction(c, ps, i, begin, end);
        MarkKnows(c1, ps[n], ps[i], begin, end);
      }
    }
  }

  lemma {:induction false} InTransaction(c: seq<Cell>, ps: seq<Place>, i: nat, begin: nat, end: nat)
    requires Transaction(c, ps, begin, end) && i < |ps|
    ensures ps[i].In(begin, end) && end < |c|
  {
    if i < |ps| - 1 { InTransaction(c, ps[..|ps| - 1], i, begin, end); }
  }

  /** A cell that was free, and is taken now although the cell before it is free, was taken by bytes. */
  lemma {:induction false} TakenByBytes(c: seq<Cell>, ps: seq<Place>, k: nat, begin: nat, end: nat)
    returns (i: nat)
    requires Transaction(c, ps, begin, end) && begin < k < |c| && c[k].value == {}
    requires MarkAll(c, ps)[k].value != {} && MarkAll(c, ps)[k - 1].value == {}
    ensures i < |ps| && !ps[i].v.isBit && ps[i].addr <= k < ps[i].addr + ps[i].v.Bytes()
  {
    var n := |ps| - 1;
    var c1 := MarkAll(c, ps[..n]);
    MarkGrows(c1, ps[n]);
    if c1[k].value != {} { i := TakenByBytes(c, ps[..n], k, begin, end); } else { i := n; }
  }

  lemma MarkGrows(c: seq<Cell>, p: Place)
    requires p.addr < |c|
    ensures forall i :: 0 <= i < |c| ==> Mark(c, p)[i].value == {} ==> c[i].value == {}
  {
    assert 0 in ALL;
  }

  lemma ClearFirst(c: seq<Cell>, k: nat, p: Place)
    requires p.addr < |c| && k < |c| && !c[k].bitcell
    ensures Same(Unmark(Clear(c, k), p), Clear(Unmark(c, p), k)) && !Unmark(c, p)[k].bitcell
    ensures forall j :: 0 <= j < |c| && !c[j].bitcell ==> !Unmark(c, p)[j].bitcell
  {
  }

  /** A cell that byte variable `i` is going to free anyway may be freed before. */
  lemma ClearOwn(c: seq<Cell>, p: Place, k: nat)
    requires p.addr < |c| && !p.v.isBit && p.addr <= k < p.addr + p.v.Bytes()
    requires k < |c| && !c[k].bitcell && !c[p.addr].bitcell
    ensures Same(Unmark(Clear(c, k), p), Unmark(c, p))
  {
  }

  lemma {:induction false} ClearEarly(c: seq<Cell>, ps: seq<Place>, i: nat, k: nat)
    requires Within(c, ps) && i < |ps| && !ps[i].v.isBit && ps[i].addr <= k < ps[i].addr + ps[i].v.Bytes() && k < |c|
    requires !c[k].bitcell && !c[ps[i].addr].bitcell
    ensures Same(UnmarkAll(Clear(c, k), ps), UnmarkAll(c, ps))
    decreases |ps|
  {
    var n := |ps| - 1;
    var p := ps[n];
    hide Same, Clear, Unmark;
    if i == n {
      ClearOwn(c, p, k);
      UnmarkAllSame(Unmark(Clear(c, k), p), Unmark(c, p), ps[..n]);
    } else {
      ClearFirst(c, k, p);
      ClearEarly(Unmark(c, p), ps[..n], i, k);
      UnmarkAllSame(Unmark(Clear(c, k), p), Clear(Unmark(c, p), k), ps[..n]);
      SameTrans(UnmarkAll(Unmark(Clear(c, k), p), ps[..n]), UnmarkAll(Clear(Unmark(c, p), k), ps[..n]),
        UnmarkAll(Unmark(c, p), ps[..n]));
    }
  }

  /** Taking out the last variable leaves what taking out the others undoes as well. */
  lemma {:induction false} UndoLast(c: seq<Cell>, ps: seq<Place>, begin: nat, end: nat)
    requires ps != [] && Transaction(c, ps, begin, end) && AllOk(c)
    requires var p := ps[|ps| - 1]; p.v.Valid() && (Overshoots(p) ==> c[p.addr + p.v.size].value == {})
    ensures var n := |ps| - 1; Same(UnmarkAll(MarkAll(c, ps), ps), UnmarkAll(MarkAll(c, ps[..n]), ps[..n]))
  {
    hide MarkAll, CellOk, Same;
    var n := |ps| - 1;
    var p, c1 := ps[n], MarkAll(c, ps[..n]);
    var back := Unmark(Mark(c1, p), p);
    assert MarkAll(c, ps) == Mark(c1, p) by { MarkAllLast(c, ps); }
    MarkAllOk(c, ps[..n], begin, end);
    UndoOne(c1, p, begin, end);
    if Overshoots(p) {
      var k := p.addr + p.v.size;
      UnmarkAllSame(back, Clear(c1, k), ps[..n]);
      ClearBehind(c, ps[..n], p, begin, end);
      SameTrans(UnmarkAll(back, ps[..n]), UnmarkAll(Clear(c1, k), ps[..n]), UnmarkAll(c1, ps[..n]));
    } else {
      UnmarkAllSame(back, c1, ps[..n]);
    }
  }

  lemma MarkAllLast(c: seq<Cell>, ps: seq<Place>)
    requires ps != [] && Within(c, ps)
    ensures MarkAll(c, ps) == Mark(MarkAll(c, ps[..|ps| - 1]), ps[|ps| - 1])
  {
  }

  lemma SameTrans(a: seq<Cell>, b: seq<Cell>, c: seq<Cell>)
    requires Same(a, b) && Same(b, c)
    ensures Same(a, c)
  {
  }

  /** The cell behind the last variable was free before: if it is taken now, bytes took it. */
  lemma ClearBehind(c: seq<Cell>, qs: seq<Place>, p: Place, begin: nat, end: nat)
    requires Transaction(c, qs, begin, end) && AllOk(c) && p.v.Valid()
    requires Overshoots(p) && Fits(MarkAll(c, qs), p, begin, end)
    requires c[p.addr + p.v.size].value == {}
    ensures var c1 := MarkAll(c, qs); Same(UnmarkAll(Clear(c1, p.addr + p.v.size), qs), UnmarkAll(c1, qs))
  {
    var k, c1 := p.addr + p.v.size, MarkAll(c, qs);
    if c1[k].value != {} {
      assert c1[k - 1].value == {};
      MarkAllOk(c, qs, begin, end);
      var i := TakenByBytes(c, qs, k, begin, end);
      assert Knows(c1, qs[i]);
      ClearEarly(c1, qs, i, k);
    } else {
      assert Clear(c1, k) == c1;
      UnmarkAllSame(c1, c1, qs);
    }
  }

  lemma TransactionFront(c: seq<Cell>, ps: seq<Place>, begin: nat, end: nat)
    requires ps != [] && Transaction(c, ps, begin, end)
    ensures Within(c, ps) && Transaction(c, ps[..|ps| - 1], begin, end) && Within(c, ps[..|ps| - 1])
  {
  }

  /** If the variable is cleared too far, the cell behind it is free. */
  predicate FreeNext(c: seq<Cell>, p: Place) {
    Overshoots(p) ==> p.addr + p.v.size < |c| && c[p.addr + p.v.size].value == {}
  }

  ghost predicate FreeBehind(c: seq<Cell>, ps: seq<Place>) {
    forall i :: 0 <= i < |ps| ==> ps[i].v.Valid() && FreeNext(c, ps[i])
  }

  lemma FreeBehindFront(c: seq<Cell>, ps: seq<Place>)
    requires ps != [] && FreeBehind(c, ps)
    ensures var n := |ps| - 1; FreeBehind(c, ps[..n]) && ps[n].v.Valid() && FreeNext(c, ps[n])
  {
  }

  lemma {:induction false} RestoresIf(c: seq<Cell>, ps: seq<Place>, begin: nat, end: nat)
    requires Transaction(c, ps, begin, end) && AllOk(c) && FreeBehind(c, ps)
    ensures Same(UnmarkAll(MarkAll(c, ps), ps), c)
  {
    if ps != [] {
      hide Same, MarkAll, UnmarkAll, Fits, AllOk, CellOk, Overshoots, Transaction, Within, FreeBehind;
      var n := |ps| - 1;
      TransactionFront(c, ps, begin, end);
      FreeBehindFront(c, ps);
      UndoLast(c, ps, begin, end);
      RestoresIf(c, ps[..n], begin, end);
      SameTrans(UnmarkAll(MarkAll(c, ps), ps), UnmarkAll(MarkAll(c, ps[..n]), ps[..n]), c);
    }
  }

  lemma {:induction false} UnmarkAllShrinks(c: seq<Cell>, ps: seq<Place>, k: nat)
    requires Within(c, ps) && k < |c| && c[k].value == {}
    ensures UnmarkAll(c, ps)[k].value == {}
    decreases |ps|
  {
    if ps != [] { UnmarkAllShrinks(Unmark(c, ps[|ps| - 1]), ps[..|ps| - 1], k); }
  }

  /** The cell behind a byte variable without a quality byte is free after the rollback. */
  lemma {:induction false} Wiped(c: seq<Cell>, ps: seq<Place>, i: nat)
    requires Within(c, ps) && i < |ps| && Overshoots(ps[i]) && !c[ps[i].addr].bitcell && ps[i].addr + ps[i].v.size < |c|
    ensures UnmarkAll(c, ps)[ps[i].addr + ps[i].v.size].value == {}
    decreases |ps|
  {
    var n := |ps| - 1;
    if i == n {
      UnmarkAllShrinks(Unmark(c, ps[n]), ps[..n], ps[i].addr + ps[i].v.size);
    } else {
      Wiped(Unmark(c, ps[n]), ps[..n], i);
    }
  }

  /** Rolling back restores the occupancy exactly when, behind every byte variable without a quality
      byte that is rolled back, the cell was free before the transaction. */
  lemma RollbackRestores(c: seq<Cell>, ps: seq<Place>, begin: nat, end: nat)
    requires Transaction(c, ps, begin, end) && AllOk(c) && forall i :: 0 <= i < |ps| ==> ps[i].v.Valid()
    ensures forall i :: 0 <= i < |ps| && Overshoots(ps[i]) ==> ps[i].addr + ps[i].v.size < |c|
    ensures Same(UnmarkAll(MarkAll(c, ps), ps), c) <==>
      forall i :: 0 <= i < |ps| && Overshoots(ps[i]) ==> c[ps[i].addr + ps[i].v.size].value == {}
  {
    forall i | 0 <= i < |ps| && Overshoots(ps[i]) ensures ps[i].addr + ps[i].v.size < |c| {
      InTransaction(c, ps, i, begin, end);
    }
    MarkAllOk(c, ps, begin, end);
    if forall i :: 0 <= i < |ps| && Overshoots(ps[i]) ==> c[ps[i].addr + ps[i].v.size].value == {} {
      RestoresIf(c, ps, begin, end);
    } else {
      var i :| 0 <= i < |ps| && Overshoots(ps[i]) && c[ps[i].addr + ps[i].v.size].value != {};
      assert Knows(MarkAll(c, ps), ps[i]);
      Wiped(MarkAll(c, ps), ps, i);
    }
  }

  /* ---- one run of allocations ---- */

  /** Rolling back bytes without a quality byte may free a cell of a live variable behind them, and the
      next variable is put over it: one byte at 0 goes, and two bytes go to 0 and 1, where another was. */
  lemma LooseRollbackOverlaps(alg: int)
    returns (cells: seq<Cell>, q: Place, p: Place, r: Place)
    ensures Covered(cells, [q]) && Sound([q], 0, 2) && Transaction(cells, [p], 0, 2)
    ensures !Same(UnmarkAll(MarkAll(cells, [p]), [p]), cells)
    ensures LowestRun(UnmarkAll(MarkAll(cells, [p]), [p]), 0, 2, r.v.Bytes(), r.addr) && !Apart(q, r)
  {
    var v := Var(false, 1, false, alg);
    q, p, r := Place(v, 1, 0), Place(v, 0, 0), Place(Var(false, 2, false, alg), 0, 0);
    cells := Mark([FREE, FREE, FREE], q);
    assert [p][..0] == [] && MarkAll(cells, []) == cells;
    var c1 := Mark(cells, p);
    assert MarkAll(cells, [p]) == c1 && Transaction(cells, [], 0, 2) && Fits(cells, p, 0, 2);
    var c2 := Unmark(c1, p);
    assert UnmarkAll(c1, [p]) == UnmarkAll(c2, []);
    assert 0 in ALL && cells[1].value == ALL && c2[1].value == {} && c2[0].value == {};
    assert q.Covers(1, 0) && r.Covers(1, 0);
  }

  lemma MarkSame(c: seq<Cell>, c': seq<Cell>, p: Place, begin: nat, end: nat)
    requires Same(c, c') && Fits(c, p, begin, end)
    ensures Fits(c', p, begin, end) && Same(Mark(c, p), Mark(c', p))
  {
  }

  /** The live variables after a transaction are sound, and the map knows of all of them. */
  lemma {:induction false} TransactionSound(c: seq<Cell>, base: seq<Place>, ps: seq<Place>, begin: nat, end: nat)
    requires Covered(c, base) && Sound(base, begin, end) && Transaction(c, ps, begin, end)
    ensures Sound(base + ps, begin, end) && Covered(MarkAll(c, ps), base + ps)
  {
    if ps == [] {
      assert base + ps == base;
    } else {
      var n := |ps| - 1;
      TransactionSound(c, base, ps[..n], begin, end);
      MarkSound(MarkAll(c, ps[..n]), base + ps[..n], ps[n], begin, end);
      assert base + ps == base + ps[..n] + [ps[n]];
    }
  }

  /** A transaction can be cut in two. */
  lemma {:induction false} TransactionSplit(c: seq<Cell>, ps: seq<Place>, m: nat, begin: nat, end: nat)
    requires Transaction(c, ps, begin, end) && m <= |ps|
    ensures Transaction(c, ps[..m], begin, end) && Transaction(MarkAll(c, ps[..m]), ps[m..], begin, end)
    ensures MarkAll(MarkAll(c, ps[..m]), ps[m..]) == MarkAll(c, ps)
    decreases |ps|
  {
    hide Mark, Fits;
    if m == |ps| {
      assert ps[..m] == ps && ps[m..] == [];
    } else {
      var n := |ps| - 1;
      assert ps[m..][n - m] == ps[n] && |ps[m..]| - 1 == n - m;
      TransactionSplit(c, ps[..n], m, begin, end);
      assert ps[..n][..m] == ps[..m] && ps[m..][..n - m] == ps[..n][m..];
    }
  }

  /** Transactions one after the other make one. */
  lemma {:induction false} TransactionJoin(c: seq<Cell>, ps: seq<Place>, qs: seq<Place>, begin: nat, end: nat)
    requires Transaction(c, ps, begin, end) && Transaction(MarkAll(c, ps), qs, begin, end)
    ensures Transaction(c, ps + qs, begin, end) && MarkAll(c, ps + qs) == MarkAll(MarkAll(c, ps), qs)
    decreases |qs|
  {
    hide Mark, Fits;
    if qs == [] {
      assert ps + qs == ps;
    } else {
      var n := |qs| - 1;
      TransactionJoin(c, ps, qs[..n], begin, end);
      assert (ps + qs)[..|ps| + n] == ps + qs[..n] && (ps + qs)[|ps| + n] == qs[n];
    }
  }

  lemma {:induction false} TransactionSame(c: seq<Cell>, c': seq<Cell>, ps: seq<Place>, begin: nat, end: nat)
    requires Transaction(c, ps, begin, end) && Same(c, c')
    ensures Transaction(c', ps, begin, end) && Same(MarkAll(c, ps), MarkAll(c', ps))
    decreases |ps|
  {
    if ps != [] {
      var n := |ps| - 1;
      TransactionSame(c, c', ps[..n], begin, end);
      MarkSame(MarkAll(c, ps[..n]), MarkAll(c', ps[..n]), ps[n], begin, end);
    }
  }

  /* ---- containers ---- */

  /** The bytes of a container's variables. */
  function Total(vs: seq<Var>): nat {
    if vs == [] then 0 else Total(vs[..|vs| - 1]) + vs[|vs| - 1].Bytes()
  }

  /** The variables of a container one behind the other from `a` on. */
  function Lay(vs: seq<Var>, a: nat): (ps: seq<Place>)
    ensures |ps| == |vs|
  {
    if vs == [] then [] else Lay(vs[..|vs| - 1], a) + [Place(vs[|vs| - 1], a + Total(vs[..|vs| - 1]), 0)]
  }

  /** Every variable of a container lies behind those before it. */
  lemma {:induction false} LayAt(vs: seq<Var>, a: nat, i: nat)
    requires i < |vs|
    ensures Lay(vs, a)[i] == Place(vs[i], a + Total(vs[..i]), 0)
  {
    if i < |vs| - 1 {
      LayAt(vs[..|vs| - 1], a, i);
      assert vs[..|vs| - 1][..i] == vs[..i];
    }
  }

  ghost predicate ByteVars(vs: seq<Var>) {
    forall i :: 0 <= i < |vs| ==> !vs[i].isBit && vs[i].Valid()
  }

  /** Putting in the variables of a container takes the same cells as the run that was found for them. */
  lemma {:induction false} LayTakesRun(c: seq<Cell>, vs: seq<Var>, a: nat, begin: nat, end: nat)
    requires ByteVars(vs) && AllOk(c) && begin <= a && a + Total(vs) <= end < |c| && FreeRun(c, a, Total(vs))
    ensures Transaction(c, Lay(vs, a), begin, end)
    ensures forall i :: 0 <= i < |c| ==> var d := MarkAll(c, Lay(vs, a))[i];
      if a <= i < a + Total(vs) then d.value == ALL && !d.bitcell else d == c[i]
    decreases |vs|
  {
    if vs != [] {
      var n := |vs| - 1;
      LayTakesRun(c, vs[..n], a, begin, end);
      assert Lay(vs, a)[..n] == Lay(vs[..n], a);
      forall i | a <= i < a + Total(vs) ensures !c[i].bitcell { assert CellOk(c[i]); }
    }
  }
}
