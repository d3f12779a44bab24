/** The memory manager of a controller: it puts variables into RAM and keeps a map of what is taken. */
module Memory {
  import opened Options
  import opened Ram

  /** What `SetRam` takes as filled by a loaded variable: of bytes one more than the size. */
  ghost predicate Fills(p: Place, a: nat, k: nat) {
    k < 8 && if p.v.isBit then a == p.addr && (k == p.bit || k == p.bit + 1) else p.addr <= a <= p.addr + p.v.size
  }

  /** The map with one loaded variable filled in. */
  function Filled(cells: seq<Cell>, p: Place): (r: seq<Cell>)
    requires p.addr < |cells|
    ensures |r| == |cells|
  {
    if p.v.isBit then cells[p.addr := Cell(p.v.alg, cells[p.addr].value + ({p.bit, p.bit + 1} * ALL), true)]
    else
      seq(|cells|, i requires 0 <= i < |cells| =>
        if p.addr <= i <= p.addr + p.v.size then cells[i].(alg := p.v.alg, value := ALL) else cells[i])
  }

  function FilledAll(cells: seq<Cell>, ps: seq<Place>): (r: seq<Cell>)
    requires Ram.Within(cells, ps)
    ensures |r| == |cells|
  {
    if ps == [] then cells else Filled(FilledAll(cells, ps[..|ps| - 1]), ps[|ps| - 1])
  }

  /** A rebuilt map marks what the loaded variables fill, and nothing else. */
  lemma {:induction false} FilledExactly(cells: seq<Cell>, ps: seq<Place>, a: nat, k: nat)
    requires Ram.Within(cells, ps) && a < |cells| && cells[a].value == {}
    ensures k in FilledAll(cells, ps)[a].value <==> exists i :: 0 <= i < |ps| && Fills(ps[i], a, k)
  {
    if ps != [] {
      var n := |ps| - 1;
      FilledExactly(cells, ps[..n], a, k);
      assert k in ALL <==> k < 8;
      assert forall i :: 0 <= i < n ==> ps[..n][i] == ps[i];
      assert k in FilledAll(cells, ps)[a].value <==> k in FilledAll(cells, ps[..n])[a].value || Fills(ps[n], a, k);
    }
  }

  lemma FilledKnows(cells: seq<Cell>, p: Place, q: Place, begin: nat, end: nat)
    requires p.In(begin, end) && q.In(begin, end) && end < |cells| && p.v.Valid() && q.v.Valid()
    requires Knows(cells, q) && Apart(p, q) && (p.v.isBit && q.v.isBit && p.addr == q.addr ==> p.v.alg == q.v.alg)
    ensures Knows(Filled(cells, p), q)
  {
    if p.v.isBit && !q.v.isBit { assert p.Covers(p.addr, p.bit) && !q.Covers(p.addr, p.bit); }
  }

  lemma FilledOk(cells: seq<Cell>, p: Place, begin: nat, end: nat)
    requires p.In(begin, end) && end < |cells| && (p.v.isBit ==> p.bit % 2 == 0) && AllOk(cells)
    requires !p.v.isBit ==> forall a: nat :: p.addr <= a < p.addr + p.v.Bytes() ==> !cells[a].bitcell
    ensures AllOk(Filled(cells, p)) && Knows(Filled(cells, p), p)
  {
    forall a | 0 <= a < |cells| ensures CellOk(Filled(cells, p)[a]) {
      assert CellOk(cells[a]);
      if p.v.isBit { PairUp(cells[p.addr].value, p.bit); PairUp({}, p.bit); PairUp(ALL, p.bit); }
    }
  }

  lemma {:induction false} NotBitcell(cells: seq<Cell>, ps: seq<Place>, a: nat)
    requires Ram.Within(cells, ps) && a < |cells| && !cells[a].bitcell
    requires forall i :: 0 <= i < |ps| && ps[i].v.isBit ==> ps[i].addr != a
    ensures !FilledAll(cells, ps)[a].bitcell
  {
    if ps != [] { NotBitcell(cells, ps[..|ps| - 1], a); }
  }

  /** Filling in sound live variables gives a map that knows of all of them. */
  lemma {:induction false} FilledCovered(cells: seq<Cell>, ps: seq<Place>, begin: nat, end: nat)
    requires end < |cells| && Ram.Within(cells, ps) && Sound(ps, begin, end)
    requires (forall i :: 0 <= i < |ps| ==> ps[i].v.Valid())
    requires forall a :: 0 <= a < |cells| ==> cells[a] == FREE
    ensures Covered(FilledAll(cells, ps), ps)
  {
    if ps != [] {
      var n := |ps| - 1;
      var p, c := ps[n], FilledAll(cells, ps[..n]);
      FilledCovered(cells, ps[..n], begin, end);
      if !p.v.isBit {
        forall a: nat | p.addr <= a < p.addr + p.v.Bytes() ensures !c[a].bitcell {
          forall i | 0 <= i < n && ps[i].v.isBit ensures ps[i].addr != a {
            assert Apart(ps[i], p) && ps[i].Covers(ps[i].addr, ps[i].bit);
            assert !p.Covers(ps[i].addr, ps[i].bit);
          }
          NotBitcell(cells, ps[..n], a);
        }
      }
      FilledOk(c, p, begin, end);
      forall i | 0 <= i < n ensures Knows(Filled(c, p), ps[i]) {
        assert Knows(c, ps[..n][i]) && Apart(ps[i], p);
        forall a: nat, k: nat ensures !(p.Covers(a, k) && ps[i].Covers(a, k)) {}
        FilledKnows(c, p, ps[i], begin, end);
      }
    }
  }

  lemma RebuiltExactly(cells: seq<Cell>, ps: seq<Place>)
    requires Ram.Within(cells, ps) && forall a :: 0 <= a < |cells| ==> cells[a] == FREE
    ensures forall a: nat, k: nat :: a < |cells| ==>
      (k in FilledAll(cells, ps)[a].value <==> exists i :: 0 <= i < |ps| && Fills(ps[i], a, k))
  {
    forall a: nat, k: nat | a < |cells|
      ensures k in FilledAll(cells, ps)[a].value <==> exists i :: 0 <= i < |ps| && Fills(ps[i], a, k) {
      FilledExactly(cells, ps, a, k);
    }
  }

  /** The map of a controller in which nothing is loaded. */
  function Free(size: nat): seq<Cell> {
    seq(size, _ => FREE)
  }

  /** The run of cells that the variables of a container take. */
  function Region(vs: seq<Var>, a: nat): Place
    requires vs != []
  {
    Place(Var(false, Total(vs), false, vs[0].alg), a, 0)
  }

  /** Marks what one loaded variable takes. */
  method FillVariable(sram: array<Cell>, p: Place)
    requires p.addr < sram.Length && (!p.v.isBit ==> p.addr + p.v.size < sram.Length)
    modifies sram
    ensures sram[..] == Filled(old(sram[..]), p)
  {
    if p.v.isBit {
      sram[p.addr] := Cell(p.v.alg, sram[p.addr].value + ({p.bit, p.bit + 1} * ALL), true);
    } else {
      for j := 0 to p.v.size + 1
        invariant forall a :: 0 <= a < sram.Length ==>
          sram[a] == if p.addr <= a < p.addr + j then old(sram[a]).(alg := p.v.alg, value := ALL) else old(sram[a])
      {
        sram[p.addr + j] := sram[p.addr + j].(alg := p.v.alg, value := ALL);
      }
    }
  }

  /** Marks what all loaded variables take. */
  method FillVariables(sram: array<Cell>, loaded: seq<Place>, ghost begin: nat, ghost end: nat)
    requires end < sram.Length && forall i :: 0 <= i < |loaded| ==> loaded[i].In(begin, end) && loaded[i].v.Valid()
    modifies sram
    ensures Ram.Within(old(sram[..]), loaded) && sram[..] == FilledAll(old(sram[..]), loaded)
  {
    for i := 0 to |loaded|
      invariant sram[..] == FilledAll(old(sram[..]), loaded[..i])
    {
      assert loaded[..i + 1][..i] == loaded[..i];
      FillVariable(sram, loaded[i]);
    }
    assert loaded[..|loaded|] == loaded;
  }

  /** What a remote reference stands for: an allocated variable of the other controller, or one of its
      pins, which have no quality. */
  datatype Target = Pin(bit: nat) | Allocated(p: Place)

  /** The bit that a reference asks for is even. */
  lemma AskedBitIsEven(p: Place, live: seq<Place>, begin: nat, end: nat)
    requires Sound(live, begin, end) && p in live
    ensures p.v.isBit ==> p.bit < 8 && !OddBit(p.bit)
  {
    var i :| 0 <= i < |live| && live[i] == p;
    assert live[i].In(begin, end);
  }

  class MemoryManager {
    const begin: nat
    const end: nat
    const sram: array<Cell>
    /** The variables of the device that are loaded; those this manager put in come last. */
    var live: seq<Place>
    var own: seq<Place>
    var lastCount: nat
    /** The map and the loaded variables at the start. */
    ghost const first: seq<Cell>
    ghost const base: seq<Place>

    ghost predicate Valid()
      reads this, sram
    {
      && begin <= end < sram.Length && |first| == sram.Length
      && Covered(first, base) && Sound(base, begin, end)
      && Transaction(first, own, begin, end) && (forall i :: 0 <= i < |own| ==> own[i].v.Valid())
      && Same(sram[..], MarkAll(first, own))
      && live == base + own && lastCount <= |own|
    }

    /** The variables put in since the state was saved. */
    ghost function Recent(): seq<Place>
      requires lastCount <= |own|
      reads this
    {
      own[|own| - lastCount..]
    }

    ghost function Now(): Snapshot
      reads this, sram
    {
      Snapshot(sram[..], live, lastCount)
    }

    /** The map when the state was saved. */
    ghost function Saved(): (c: seq<Cell>)
      requires Valid()
      reads this, sram
      ensures |c| == sram.Length && Transaction(c, Recent(), begin, end) && MarkAll(c, Recent()) == MarkAll(first, own)
    {
      TransactionSplit(first, own, |own| - lastCount, begin, end);
      MarkAll(first, own[..|own| - lastCount])
    }

    /** In every reachable state the live variables are sound, and the map knows of them. */
    lemma LiveSound()
      requires Valid()
      ensures Sound(live, begin, end) && Covered(sram[..], live)
    {
      TransactionSound(first, base, own, begin, end);
      SameCovered(MarkAll(first, own), sram[..], live);
    }

    /** Rebuilds the map from the variables that are loaded. */
    constructor SetRam(begin: nat, end: nat, size: nat, loaded: seq<Place>)
      requires begin <= end < size && Sound(loaded, begin, end) && forall i :: 0 <= i < |loaded| ==> loaded[i].v.Valid()
      ensures Valid() && fresh(sram) && this.begin == begin && this.end == end && sram.Length == size
      ensures live == loaded && own == [] && lastCount == 0
      ensures forall a: nat, k: nat :: a < size ==>
        (k in sram[a].value <==> exists i :: 0 <= i < |loaded| && Fills(loaded[i], a, k))
      ensures Ram.Within(Free(size), loaded) && sram[..] == FilledAll(Free(size), loaded)
    {
      this.begin, this.end := begin, end;
      hide FilledAll, Covered, Fills;
      var map_ := new Cell[size](_ => FREE);
      ghost var free := Free(size);
      assert map_[..] == free;
      FillVariables(map_, loaded, begin, end);
      FilledCovered(free, loaded, begin, end);
      RebuiltExactly(free, loaded);
      sram, live, own, lastCount, first, base := map_, loaded, [], 0, map_[..], loaded;
    }

    /** Finds a place for `n` bytes: the lowest free run, or none when there is no free run of that length. */
    method FindFreeSpace(alg: int, n: nat) returns (r: Option<nat>)
      requires begin <= end < sram.Length
      modifies sram
      ensures r.Some? ==> n > 0 && LowestRun(old(sram[..]), begin, end, n, r.value)
      ensures r.Some? ==> sram[..] == Mark(old(sram[..]), Place(Var(false, n, false, alg), r.value, 0))
      ensures r.None? ==> sram[..] == old(sram[..]) && (n > 0 ==> NoRun(sram[..], begin, end, n))
    {
      ghost var cells := sram[..];
      var k := 0;
      var i := begin;
      while i < end
        invariant begin <= i <= end && sram[..] == cells
        invariant k <= i - begin && (n > 0 ==> k < n) && forall j :: i - k <= j < i ==> cells[j].value == {}
        invariant i - k > begin ==> cells[i - k - 1].value != {}
        invariant n > 0 ==> forall b :: begin <= b && b + n <= i ==> !FreeRun(cells, b, n)
      {
        if sram[i].value != {} {
          k := 0;
          i := i + 1;
          continue;
        }
        k := k + 1;
        if k == n {
          var a := i - (n - 1);
          ghost var p := Place(Var(false, n, false, alg), a, 0);
          var j := i;
          while j >= a
            invariant a - 1 <= j <= i
            invariant forall m :: 0 <= m < sram.Length ==>
              sram[m] == if j < m <= i then Cell(if m == i then alg else cells[m].alg, ALL, cells[m].bitcell) else
                if m == i && j < i then cells[m].(alg := alg) else cells[m]
          {
            sram[i] := sram[i].(alg := alg);
            sram[j] := sram[j].(value := ALL);
            j := j - 1;
          }
          assert sram[..] == Mark(cells, p);
          return Some(a);
        }
        i := i + 1;
      }
      r := None;
    }

    /** Puts a bit variable into the lowest usable cell of its algorithm, or else into the lowest free cell. */
    method AllocateBit(v: Var, fix: int) returns (r: Option<Place>)
      requires begin <= end < sram.Length && v.isBit && -1 <= fix < 8
      modifies sram
      ensures r.Some? ==>
        ChosenBit(old(sram[..]), begin, end, v, fix, r.value) && sram[..] == Mark(old(sram[..]), r.value)
      ensures r.None? ==> sram[..] == old(sram[..]) && NoBit(sram[..], begin, end, v, fix)
      ensures AllOk(old(sram[..])) ==> Granted(old(sram[..]), begin, end, v, fix, r)
    {
      hide Granted, CellOk;
      ghost var cells := sram[..];
      for i := begin to end + 1
        invariant sram[..] == cells && forall j :: begin <= j < i ==> !Usable(cells[j], v.alg, fix)
      {
        if sram[i].alg == v.alg && sram[i].bitcell && sram[i].value != ALL {
          var c := 0;
          while c in sram[i].value && c < 8
            invariant c <= 8 && forall k :: 0 <= k < c ==> k in sram[i].value
          {
            c := c + 1;
          }
          LowestIs(sram[i].value, c);
          if fix == -1 || fix == c {
            r := Some(Place(v, i, c));
            sram[i] := Cell(v.alg, sram[i].value + ({c, c + 1} * ALL), true);
            assert sram[..] == Mark(cells, r.value);
            if AllOk(cells) { ChosenGranted(cells, begin, end, v, fix, r.value); }
            return;
          }
        }
      }
      for i := begin to end + 1
        invariant sram[..] == cells && forall j :: begin <= j < i ==> cells[j].value != {}
      {
        if sram[i].value == {} {
          var b: nat := if fix != -1 then fix else 0;
          r := Some(Place(v, i, b));
          sram[i] := Cell(v.alg, sram[i].value + ({b, b + 1} * ALL), true);
          assert sram[..] == Mark(cells, r.value);
          if AllOk(cells) { ChosenGranted(cells, begin, end, v, fix, r.value); }
          return;
        }
      }
      r := None;
      if AllOk(cells) { NoneGranted(cells, begin, end, v, fix); }
    }

    /** The result for a variable on a map: a bit gets the lowest pair there is, bytes the lowest run. */
    ghost predicate Served(cells: seq<Cell>, v: Var, fix: int, r: Option<Place>)
      requires end < |cells|
    {
      if v.isBit then Granted(cells, begin, end, v, fix, r)
      else if r.Some? then r.value.v == v && LowestRun(cells, begin, end, v.Bytes(), r.value.addr)
      else NoRun(cells, begin, end, v.Bytes())
    }

    /** The manager's state after more variables were put in. */
    ghost predicate Extended(was: seq<Cell>, ps: seq<Place>)
      reads this, sram
    {
      |was| == sram.Length && Transaction(was, ps, begin, end) && Same(sram[..], MarkAll(was, ps))
    }

    /** Records variables that the map has been updated for; when they fitted, the state is a good one. */
    method Record(ghost was: seq<Cell>, ps: seq<Place>)
      requires begin <= end < sram.Length && |first| == sram.Length && Covered(first, base) && Sound(base, begin, end)
      requires Transaction(first, own, begin, end) && forall i :: 0 <= i < |own| ==> own[i].v.Valid()
      requires live == base + own && lastCount <= |own| && Same(was, MarkAll(first, own))
      modifies this
      ensures live == old(live) + ps && own == old(own) + ps && lastCount == old(lastCount) + |ps|
      ensures old(Extended(was, ps)) && (forall i :: 0 <= i < |ps| ==> ps[i].v.Valid()) ==> Valid()
    {
      hide Transaction, Same, MarkAll, Covered, Sound, Fits;
      RecentIn(first, own, begin, end);
      if Extended(was, ps) {
        RecentIn(was, ps, begin, end);
        TransactionSame(was, MarkAll(first, own), ps, begin, end);
        TransactionJoin(first, own, ps, begin, end);
        SameTrans(sram[..], MarkAll(was, ps), MarkAll(MarkAll(first, own), ps));
      }
      live := live + ps;
      own := own + ps;
      lastCount := lastCount + |ps|;
    }

    /** Puts a variable into RAM. It gets the lowest place there is for it, and only a full map gives none.
        A bit may be asked for; when it is granted, the state stays a good one exactly if it is even. */
    method AllocateMemory(v: Var, fix: int) returns (r: Option<Place>)
      requires Valid() && v.Valid() && -1 <= fix < 8
      modifies this, sram
      ensures r.Some? ==> (Valid() <==> !(v.isBit && OddBit(fix)))
      ensures r.Some? ==> r.value.v == v && live == old(live) + [r.value]
      ensures r.Some? ==> own == old(own) + [r.value] && lastCount == old(lastCount) + 1
      ensures r.Some? ==> if v.isBit then ChosenBit(old(sram[..]), begin, end, v, fix, r.value)
        else LowestRun(old(sram[..]), begin, end, v.Bytes(), r.value.addr)
      ensures r.Some? ==> r.value.addr < sram.Length && sram[..] == Mark(old(sram[..]), r.value)
      ensures r.Some? ==> forall a: nat, k: nat :: a < sram.Length ==>
        (k in sram[a].value <==> k in old(sram[a]).value || r.value.Covers(a, k))
      ensures r.None? ==>
        Valid() && sram[..] == old(sram[..]) && live == old(live) && own == old(own) && lastCount == old(lastCount)
      ensures r.None? ==>
        if v.isBit then NoBit(sram[..], begin, end, v, fix) else NoRun(sram[..], begin, end, v.Bytes())
      ensures Served(old(sram[..]), v, fix, r)
      ensures v.isBit && fix == -1 ==>
        (r.None? <==> forall p: Place :: p.v == v ==> !Fits(old(sram[..]), p, begin, end))
    {
      hide Transaction, MarkAll, Sound, Fits, Granted;
      ghost var was := sram[..];
      LiveSound();
      if v.isBit {
        r := AllocateBit(v, fix);
        if fix == -1 { NoneGrantedIff(was, begin, end, v, r); }
        if r.None? { return; }
        if OddBit(fix) {
          OddBitBreaksPairs(was, begin, end, v, fix, r.value);
        } else {
          ChosenFits(was, begin, end, v, fix, r.value);
        }
        assert CellOk(was[r.value.addr]);
      } else {
        var a := FindFreeSpace(v.alg, v.Bytes());
        if a.None? { return None; }
        r := Some(Place(v, a.value, 0));
        SameMark(was, Var(false, v.Bytes(), false, v.alg), v, a.value);
        RunFits(was, r.value, begin, end);
      }
      if !(v.isBit && OddBit(fix)) { OneFits(was, r.value, begin, end); }
      TakesExactly(was, r.value);
      Record(was, [r.value]);
      if Valid() { LiveSound(); }
    }

    /** Makes room for what another controller's variable is read into: only references to variables with
        quality are loaded, and a bit keeps its position. */
    method AllocateReference(target: Target, alg: int, ghost there: seq<Place>, ghost from: nat, ghost to: nat)
      returns (r: Option<Place>)
      requires Valid() && Sound(there, from, to) && (target.Allocated? ==> target.p in there && target.p.v.Valid())
      modifies this, sram
      ensures Valid()
      ensures target.Pin? || !target.p.v.quality ==> r.None? && sram[..] == old(sram[..]) && live == old(live)
      ensures r.Some? ==> live == old(live) + [r.value] && r.value.v == target.p.v.(quality := true, alg := alg)
      ensures r.Some? && target.p.v.isBit ==> r.value.bit == target.p.bit
      ensures target.Allocated? && target.p.v.quality ==> Served(old(sram[..]),
        target.p.v.(quality := true, alg := alg), if target.p.v.isBit then target.p.bit else -1, r)
    {
      if target.Pin? || !target.p.v.quality { return None; }
      AskedBitIsEven(target.p, there, from, to);
      r := AllocateMemory(target.p.v.(quality := true, alg := alg), if target.p.v.isBit then target.p.bit else -1);
    }

    /** Puts the variables of a container into RAM, one behind the other, at the lowest free run that
        takes them all. */
    method AllocateContainer(vs: seq<Var>) returns (r: Option<seq<Place>>)
      requires Valid() && ByteVars(vs)
      modifies this, sram
      ensures Valid()
      ensures r.Some? ==> live == old(live) + r.value && own == old(own) + r.value && lastCount == old(lastCount) + |vs|
      ensures r.Some? && vs != [] ==>
        exists a: nat :: a < sram.Length && LowestRun(old(sram[..]), begin, end, Total(vs), a) && r.value == Lay(vs, a)
          && sram[..] == Mark(old(sram[..]), Region(vs, a))
      ensures vs == [] ==> r == Some([])
      ensures r.None? ==>
        sram[..] == old(sram[..]) && live == old(live) && own == old(own) && lastCount == old(lastCount)
      ensures r.None? ==> NoRun(sram[..], begin, end, Total(vs))
      ensures vs == [] ==> sram[..] == old(sram[..])
    {
      hide Transaction, Same, MarkAll, Covered, Sound, Fits, Knows, LowestRun, NoRun;
      if vs == [] { return Some([]); }
      ghost var was := sram[..];
      LiveSound();
      assert Total(vs) > 0 by { assert vs[|vs| - 1].Valid(); }
      var n := 0;
      for i := 0 to |vs|
        invariant n == Total(vs[..i])
      {
        assert vs[..i + 1][..i] == vs[..i];
        n := n + vs[i].Bytes();
      }
      assert vs[..|vs|] == vs;
      var found := FindFreeSpace(vs[0].alg, n);
      if found.None? { return None; }
      var ps := LayOut(vs, found.value);
      LayTakesRun(was, vs, found.value, begin, end);
      ContainerSame(was, sram[..], vs, found.value, begin, end);
      forall i | 0 <= i < |ps| ensures ps[i].v.Valid() { LayAt(vs, found.value, i); }
      Record(was, ps);
      r := Some(ps);
    }

    /** Gives the variables consecutive addresses. */
    static method LayOut(vs: seq<Var>, first: nat) returns (ps: seq<Place>)
      ensures ps == Lay(vs, first)
    {
      var addr := first;
      ps := [];
      for i := 0 to |vs|
        invariant addr == first + Total(vs[..i]) && ps == Lay(vs[..i], first)
      {
        assert vs[..i + 1][..i] == vs[..i];
        ps := ps + [Place(vs[i], addr, 0)];
        addr := addr + vs[i].Bytes();
      }
      assert vs[..|vs|] == vs;
    }

    method SaveState()
      requires Valid()
      modifies this
      ensures Valid() && live == old(live) && own == old(own) && Recent() == [] && Same(sram[..], Saved())
    {
      lastCount := 0;
      assert own[..|own|] == own;
    }
  
    /** Takes out the last `n` variables that were put in. */
    method Rollback(n: nat)
      requires n <= |own| <= |live| && forall i :: 0 <= i < |own| ==> own[i].addr < sram.Length
      modifies this`live, this`own, sram
      ensures sram[..] == UnmarkAll(old(sram[..]), old(own)[|old(own)| - n..])
      ensures own == old(own)[..|old(own)| - n] && live == old(live)[..|old(live)| - n]
    {
      hide Unmark;
      ghost var cells, ps := sram[..], own[|own| - n..];
      ghost var own0, live0 := own, live;
      assert ps[..n] == ps;
      var m: nat := n;
      while m > 0
        invariant m <= n && own == own0[..|own0| - (n - m)] && live == live0[..|live0| - (n - m)]
        invariant UnmarkAll(sram[..], ps[..m]) == UnmarkAll(cells, ps)
      {
        var p := own[|own| - 1];
        assert p == ps[m - 1] && ps[..m][..m - 1] == ps[..m - 1];
        own, live := own[..|own| - 1], live[..|live| - 1];
        TakeOut(p);
        m := m - 1;
      }
      assert ps[..0] == [];
    }

    method TakeOut(p: Place)
      requires p.addr < sram.Length
      modifies sram
      ensures sram[..] == Unmark(old(sram[..]), p)
    {
      var c := sram[p.addr];
      if c.bitcell {
        var left := c.value - {p.bit, p.bit + 1};
        sram[p.addr] := Cell(c.alg, left, left != {});
      } else {
        var i := 0;
        while i < p.v.size + 1 && p.addr + i < sram.Length
          invariant i <= p.v.size + 1 && p.addr + i <= sram.Length
          invariant forall a :: 0 <= a < sram.Length ==>
            sram[a] == if p.addr <= a < p.addr + i then old(sram[a]).(value := {}) else old(sram[a])
        {
          sram[p.addr + i] := sram[p.addr + i].(value := {});
          i := i + 1;
        }
      }
    }

    /** Undoes exactly what was put in since the state was saved. The map is as it was then if and only
        if no variable that is taken out frees a cell behind it that was taken. */
    method RollbackState()
      requires Valid()
      modifies this, sram
      ensures UndoIs(old(Now()), Now())
      ensures own == old(own)[..|old(own)| - old(lastCount)] && lastCount == 0
      ensures forall p :: p in old(Recent()) && Overshoots(p) ==> p.addr + p.v.size < sram.Length
      ensures Same(sram[..], old(Saved())) <==>
        forall p :: p in old(Recent()) && Overshoots(p) ==> old(Saved())[p.addr + p.v.size].value == {}
      ensures Same(sram[..], old(Saved())) ==> Valid()
    {
      hide Transaction, Same, MarkAll, UnmarkAll, Covered, Sound, Fits;
      ghost var c, saved, ps, m := sram[..], Saved(), Recent(), |own| - lastCount;
      TransactionSplit(first, own, m, begin, end);
      RecentIn(saved, ps, begin, end);
      RecentIn(first, own, begin, end);
      TransactionSound(first, base, own[..m], begin, end);
      CoveredOk(saved, base + own[..m]);
      RollbackRestores(saved, ps, begin, end);
      UnmarkAllSame(c, MarkAll(saved, ps), ps);
      assert own[m..] == live[|live| - lastCount..];
      Rollback(lastCount);
      lastCount := 0;
      SameBoth(sram[..], UnmarkAll(MarkAll(saved, ps), ps), saved);
    }
  }

  lemma TakesExactly(cells: seq<Cell>, p: Place)
    requires p.addr < |cells| && AllOk(cells)
    ensures forall a: nat, k: nat :: a < |cells| ==>
      (k in Mark(cells, p)[a].value <==> k in cells[a].value || p.Covers(a, k))
  {
    forall a: nat, k: nat | a < |cells|
      ensures k in Mark(cells, p)[a].value <==> k in cells[a].value || p.Covers(a, k)
    {
      assert CellOk(cells[a]);
      MarkExactly(cells, p, a, k);
    }
  }

  lemma RecentIn(c: seq<Cell>, ps: seq<Place>, begin: nat, end: nat)
    requires Transaction(c, ps, begin, end)
    ensures Ram.Within(c, ps)
  {
  }

  lemma CoveredOk(c: seq<Cell>, live: seq<Place>)
    requires Covered(c, live)
    ensures AllOk(c)
  {
  }

  lemma SameBoth(a: seq<Cell>, b: seq<Cell>, c: seq<Cell>)
    requires Same(a, b)
    ensures Same(a, c) <==> Same(b, c)
  {
  }

  lemma SameMark(c: seq<Cell>, u: Var, v: Var, a: nat)
    requires a < |c| && !u.isBit && !v.isBit && u.Bytes() == v.Bytes() && u.alg == v.alg
    ensures Mark(c, Place(u, a, 0)) == Mark(c, Place(v, a, 0))
  {
  }

  lemma RunFits(c: seq<Cell>, p: Place, begin: nat, end: nat)
    requires !p.v.isBit && LowestRun(c, begin, end, p.v.Bytes(), p.addr) && end < |c|
    ensures Fits(c, p, begin, end)
  {
  }

  lemma OneFits(c: seq<Cell>, p: Place, begin: nat, end: nat)
    requires Fits(c, p, begin, end)
    requires p.v.isBit && c[p.addr].value == {} ==> forall j :: begin <= j < p.addr ==> c[j].value != {}
    ensures Transaction(c, [p], begin, end) && MarkAll(c, [p]) == Mark(c, p) && Same(Mark(c, p), MarkAll(c, [p]))
  {
    assert [p][..0] == [];
    assert MarkAll(c, []) == c;
  }

  lemma ContainerSame(c: seq<Cell>, d: seq<Cell>, vs: seq<Var>, a: nat, begin: nat, end: nat)
    requires ByteVars(vs) && AllOk(c) && begin <= a && a + Total(vs) <= end < |c|
    requires FreeRun(c, a, Total(vs)) && vs != [] && Total(vs) > 0
    requires d == Mark(c, Place(Var(false, Total(vs), false, vs[0].alg), a, 0))
    ensures Ram.Within(c, Lay(vs, a)) && Same(d, MarkAll(c, Lay(vs, a)))
  {
    LayTakesRun(c, vs, a, begin, end);
    forall i | a <= i < a + Total(vs) ensures !c[i].bitcell { assert CellOk(c[i]); }
  }

  lemma LowestIs(bits: set<nat>, c: nat)
    requires c <= 8 && (c < 8 ==> c !in bits) && forall k :: 0 <= k < c ==> k in bits
    ensures LowestFree(bits) == c
  {
  }

  lemma SameCovered(c: seq<Cell>, c': seq<Cell>, live: seq<Place>)
    requires Covered(c, live) && Same(c', c)
    ensures Covered(c', live)
  {
    forall a | 0 <= a < |c'| ensures CellOk(c'[a]) { assert CellOk(c[a]); }
    forall i | 0 <= i < |live| ensures Knows(c', live[i]) { assert Knows(c, live[i]); }
  }

  /* ---- any run of requests ---- */

  /** What is asked of the managers of a device; a new manager starts with the variables that stay loaded. */
  datatype Request = Put(v: Var, fix: int) | PutAll(vs: seq<Var>) | Save | Undo | Rebuild(stays: Place -> bool)

  /** The map of a manager, what is loaded, and how many variables were put in since the state was saved. */
  datatype Snapshot = Snapshot(cells: seq<Cell>, live: seq<Place>, recent: nat)

  /** What a request does, and what was put in; none when there is no room. */
  ghost predicate Handled(s: Snapshot, q: Request, r: Option<seq<Place>>, now: Snapshot, begin: nat, end: nat)
    requires end < |s.cells|
  {
    match q
    case Put(v, fix) => PutIs(s, v, fix, r, now, begin, end)
    case PutAll(vs) => PutAllIs(s, vs, r, now, begin, end)
    case Save => r == Some([]) && now == s.(recent := 0)
    case Undo => r == Some([]) && UndoIs(s, now)
    case Rebuild(stays) =>
      var left := Staying(s.live, stays);
      r == Some([]) && Ram.Within(Free(|s.cells|), left) && now == Snapshot(FilledAll(Free(|s.cells|), left), left, 0)
  }

  ghost predicate PutIs(s: Snapshot, v: Var, fix: int, r: Option<seq<Place>>, now: Snapshot, begin: nat, end: nat)
    requires end < |s.cells|
  {
    match r
    case None =>
      now == s && if v.isBit then Granted(s.cells, begin, end, v, fix, None) else NoRun(s.cells, begin, end, v.Bytes())
    case Some(ps) =>
      && |ps| == 1 && ps[0].v == v && ps[0].addr < |s.cells|
      && (if v.isBit then Granted(s.cells, begin, end, v, fix, Some(ps[0]))
          else LowestRun(s.cells, begin, end, v.Bytes(), ps[0].addr))
      && now == Snapshot(Mark(s.cells, ps[0]), s.live + ps, s.recent + 1)
  }

  ghost predicate PutAllIs(s: Snapshot, vs: seq<Var>, r: Option<seq<Place>>, now: Snapshot, begin: nat, end: nat)
    requires end < |s.cells|
  {
    if vs == [] then r == Some([]) && now == s
    else if r.None? then NoRun(s.cells, begin, end, Total(vs)) && now == s
    else
      exists a: nat :: a < |s.cells| && LowestRun(s.cells, begin, end, Total(vs), a) && r.value == Lay(vs, a)
        && now == Snapshot(Mark(s.cells, Region(vs, a)), s.live + r.value, s.recent + |vs|)
  }

  /** The variables put in since the state was saved are taken out, the last one first. */
  ghost predicate UndoIs(s: Snapshot, now: Snapshot) {
    && s.recent <= |s.live| && Ram.Within(s.cells, s.live[|s.live| - s.recent..])
    && now == Snapshot(UnmarkAll(s.cells, s.live[|s.live| - s.recent..]), s.live[..|s.live| - s.recent], 0)
  }

  /** The requests were handled one after the other. */
  ghost predicate Went(trace: seq<Snapshot>, requests: seq<Request>, results: seq<Option<seq<Place>>>, begin: nat,
      end: nat, size: nat)
    requires end < size
  {
    && |trace| == |requests| + 1 && |results| == |requests|
    && (forall i :: 0 <= i < |trace| ==> |trace[i].cells| == size)
    && forall i :: 0 <= i < |requests| ==> Handled(trace[i], requests[i], results[i], trace[i + 1], begin, end)
  }

  lemma {:induction false} OneMoreWent(trace: seq<Snapshot>, requests: seq<Request>, n: nat,
      results: seq<Option<seq<Place>>>, r: Option<seq<Place>>, now: Snapshot, begin: nat, end: nat, size: nat)
    requires end < size && n < |requests| && Went(trace, requests[..n], results, begin, end, size)
    requires |now.cells| == size && Handled(trace[n], requests[n], r, now, begin, end)
    ensures Went(trace + [now], requests[..n + 1], results + [r], begin, end, size)
  {
    hide Handled;
    var more := requests[..n + 1];
    forall i | 0 <= i < n + 1
      ensures Handled((trace + [now])[i], more[i], (results + [r])[i], (trace + [now])[i + 1], begin, end)
    {
      if i < n {
        assert more[i] == requests[..n][i] && Handled(trace[i], requests[..n][i], results[i], trace[i + 1], begin, end);
      }
    }
  }

  /** Even bits are asked for. */
  ghost predicate Proper(r: Request) {
    match r
    case Put(v, fix) => v.Valid() && (fix == -1 || (0 <= fix < 8 && fix % 2 == 0))
    case PutAll(vs) => ByteVars(vs)
    case _ => true
  }

  /** Whether bytes without a quality byte were put in since the state was saved last. */
  ghost predicate Loose(rs: seq<Request>) {
    rs != [] && LooseAfter(Loose(rs[..|rs| - 1]), rs[|rs| - 1])
  }

  ghost predicate LooseAfter(loose: bool, r: Request) {
    match r
    case Put(v, _) => (!v.isBit && !v.quality) || loose
    case PutAll(vs) => (exists i :: 0 <= i < |vs| && !vs[i].quality) || loose
    case _ => false
  }

  function Staying(live: seq<Place>, stays: Place -> bool): seq<Place> {
    if live == [] then [] else
      Staying(live[..|live| - 1], stays) + if stays(live[|live| - 1]) then [live[|live| - 1]] else []
  }

  lemma {:induction false} StayingSound(live: seq<Place>, stays: Place -> bool, begin: nat, end: nat)
    requires Sound(live, begin, end) && forall i :: 0 <= i < |live| ==> live[i].v.Valid()
    ensures var s := Staying(live, stays);
      Sound(s, begin, end) && forall i :: 0 <= i < |s| ==> s[i].v.Valid() && s[i] in live
  {
    if live != [] {
      var n := |live| - 1;
      StayingSound(live[..n], stays, begin, end);
      var s := Staying(live[..n], stays);
      hide Apart, Place.In;
      forall i | 0 <= i < |s| ensures s[i] in live { assert s[i] in live[..n]; }
      if stays(live[n]) { OneStays(s, live, begin, end); } else { assert s + [] == s; }
    }
  }

  lemma {:induction false} OneStays(s: seq<Place>, live: seq<Place>, begin: nat, end: nat)
    requires live != [] && Sound(live, begin, end) && Sound(s, begin, end)
    requires forall i :: 0 <= i < |s| ==> s[i] in live[..|live| - 1]
    ensures Sound(s + [live[|live| - 1]], begin, end)
  {
    hide Apart, Place.In;
    var n, p := |live| - 1, live[|live| - 1];
    forall i | 0 <= i < |s| ensures Apart(s[i], p)
      ensures s[i].v.isBit && p.v.isBit && s[i].addr == p.addr ==> s[i].v.alg == p.v.alg
    {
      var front := live[..n];
      assert s[i] in front;
      var j :| 0 <= j < |front| && front[j] == s[i];
      assert live[j] == s[i] && Apart(live[j], live[n]);
    }
    var all := s + [p];
    forall i, j | 0 <= i < j < |all| ensures Apart(all[i], all[j])
      ensures all[i].v.isBit && all[j].v.isBit && all[i].addr == all[j].addr ==> all[i].v.alg == all[j].v.alg
    {
      if j < |s| { assert all[i] == s[i] && all[j] == s[j]; }
    }
  }

  /** Serves the requests one after the other; a request that cannot be served changes nothing. Each is handled
      as the map and the loaded variables are then, and however the run goes,
        these are sound at its end. Only where the state is rolled back, no
      bytes without a quality byte may have been put in since it was saved. */
  method Serve(begin: nat, end: nat, size: nat, loaded: seq<Place>, requests: seq<Request>)
    returns (m: MemoryManager, results: seq<Option<seq<Place>>>, ghost trace: seq<Snapshot>)
    requires begin <= end < size && Sound(loaded, begin, end)
    requires forall i :: 0 <= i < |loaded| ==> loaded[i].v.Valid()
    requires forall i :: 0 <= i < |requests| ==> Proper(requests[i])
    requires forall i :: 0 <= i < |requests| && requests[i].Undo? ==> !Loose(requests[..i])
    ensures m.Valid() && m.begin == begin && m.end == end && Sound(m.live, begin, end)
    ensures Went(trace, requests, results, begin, end, size) && trace[|requests|] == m.Now()
    ensures Ram.Within(Free(size), loaded) && trace[0] == Snapshot(FilledAll(Free(size), loaded), loaded, 0)
  {
    hide Transaction, Same, MarkAll, UnmarkAll, Covered, Sound, Fits, LooseAfter, Proper, Handled, Went, FilledAll;
    m := new MemoryManager.SetRam(begin, end, size, loaded);
    results, trace := [], [m.Now()];
    NothingWent(m.Now(), begin, end, size);
    for i := 0 to |requests|
      invariant m.Valid() && fresh(m) && fresh(m.sram) && m.begin == begin && m.end == end && m.sram.Length == size
      invariant AllValid(m.live)
      invariant forall p :: p in m.Recent() && Overshoots(p) ==> Loose(requests[..i])
      invariant |trace| == i + 1 && trace[i] == m.Now() && Went(trace, requests[..i], results, begin, end, size)
      invariant trace[0] == Snapshot(FilledAll(Free(size), loaded), loaded, 0)
    {
      assert requests[..i + 1][..i] == requests[..i];
      var r;
      m, r := Handle(m, requests[i], Loose(requests[..i]));
      OneMoreWent(trace, requests, i, results, r, m.Now(), begin, end, size);
      results, trace := results + [r], trace + [m.Now()];
    }
    assert requests[..|requests|] == requests;
    m.LiveSound();
  }

  lemma NothingWent(s: Snapshot, begin: nat, end: nat, size: nat)
    requires end < size == |s.cells|
    ensures Went([s], [], [], begin, end, size)
  {
  }

  /** Serves one request. Places that are cleared too far are only among those put in lately when `loose` says so. */
  method Handle(m: MemoryManager, q: Request, ghost loose: bool) returns (m': MemoryManager, r: Option<seq<Place>>)
    requires m.Valid() && m.begin <= m.end < m.sram.Length && Proper(q) && (q.Undo? ==> !loose)
    requires AllValid(m.live) && forall p :: p in m.Recent() && Overshoots(p) ==> loose
    modifies m, m.sram
    ensures m'.Valid() && (m' == m || fresh(m')) && (m'.sram == m.sram || fresh(m'.sram))
    ensures m'.begin == m.begin && m'.end == m.end && m'.sram.Length == m.sram.Length
    ensures AllValid(m'.live) && forall p :: p in m'.Recent() && Overshoots(p) ==> LooseAfter(loose, q)
    ensures Handled(old(m.Now()), q, r, m'.Now(), m.begin, m.end)
  {
    hide Transaction, Same, MarkAll, UnmarkAll, Covered, Sound, Fits, Granted, LowestRun, NoRun, FilledAll, Mark;
    m', r := m, Some([]);
    if q.Put? {
      r := HandlePut(m, q.v, q.fix, loose);
    } else if q.PutAll? {
      r := HandlePutAll(m, q.vs, loose);
    } else if q.Save? {
      m.SaveState();
    } else if q.Undo? {
      m.RollbackState();
    } else {
      m.LiveSound();
      StayingSound(m.live, q.stays, m.begin, m.end);
      m' := new MemoryManager.SetRam(m.begin, m.end, m.sram.Length, Staying(m.live, q.stays));
    }
  }

  ghost predicate AllValid(live: seq<Place>) {
    forall k :: 0 <= k < |live| ==> live[k].v.Valid()
  }

  method HandlePut(m: MemoryManager, v: Var, fix: int, ghost loose: bool) returns (r: Option<seq<Place>>)
    requires m.Valid() && m.begin <= m.end < m.sram.Length && Proper(Put(v, fix))
    requires AllValid(m.live) && forall p :: p in m.Recent() && Overshoots(p) ==> loose
    modifies m, m.sram
    ensures m.Valid() && AllValid(m.live)
    ensures forall p :: p in m.Recent() && Overshoots(p) ==> LooseAfter(loose, Put(v, fix))
    ensures PutIs(old(m.Now()), v, fix, r, m.Now(), m.begin, m.end)
  {
    hide Transaction, Same, MarkAll, Covered, Sound, Fits, Granted, LowestRun, NoRun, Mark;
    ghost var before := m.Recent();
    var p := m.AllocateMemory(v, fix);
    r := if p.Some? then Some([p.value]) else None;
    assert m.Recent() == if p.Some? then before + [p.value] else before;
  }

  method HandlePutAll(m: MemoryManager, vs: seq<Var>, ghost loose: bool) returns (r: Option<seq<Place>>)
    requires m.Valid() && m.begin <= m.end < m.sram.Length && ByteVars(vs)
    requires AllValid(m.live) && forall p :: p in m.Recent() && Overshoots(p) ==> loose
    modifies m, m.sram
    ensures m.Valid() && AllValid(m.live)
    ensures forall p :: p in m.Recent() && Overshoots(p) ==> LooseAfter(loose, PutAll(vs))
    ensures PutAllIs(old(m.Now()), vs, r, m.Now(), m.begin, m.end)
  {
    hide Transaction, Same, MarkAll, Covered, Sound, Fits, LowestRun, NoRun, Mark, ByteVars, Lay;
    ghost var before := m.Recent();
    r := m.AllocateContainer(vs);
    if r.Some? && vs != [] { LaidValid(vs, r.value); }
    assert m.Recent() == if r.Some? then before + r.value else before;
  }

  lemma LaidValid(vs: seq<Var>, ps: seq<Place>)
    requires ByteVars(vs) && exists a: nat :: ps == Lay(vs, a)
    ensures |ps| == |vs|
    ensures forall i :: 0 <= i < |ps| ==> ps[i].v.Valid() && ps[i].v == vs[i] && (Overshoots(ps[i]) ==> !vs[i].quality)
  {
    var a: nat :| ps == Lay(vs, a);
    forall i | 0 <= i < |ps| ensures ps[i].v.Valid() && ps[i].v == vs[i] { LayAt(vs, a, i); }
  }
}
