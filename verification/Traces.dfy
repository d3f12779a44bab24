/** What the blocks that keep state output over any sequence of scans. */
module Traces {
  import opened Options
  import opened Avr
  import opened Blocks
  import opened Latches
  import opened Timers
  import opened Pulses

  /** What a block sees in one scan: its input, its reset input if it has one, and the time. */
  datatype Scan = Scan(x: Signal, r: Option<Signal>, now: nat)

  /** The last good input among the first `n` scans, or `first` when there is none. */
  function LastInput(scans: seq<Scan>, n: nat, first: bool): bool
    requires n <= |scans|
  {
    if n == 0 then first
    else if scans[n - 1].x.q then scans[n - 1].x.v
    else LastInput(scans, n - 1, first)
  }

  lemma {:induction false} LastInputIs(scans: seq<Scan>, n: nat, first: bool)
    requires n <= |scans|
    ensures (forall i :: 0 <= i < n ==> !scans[i].x.q) ==> LastInput(scans, n, first) == first
    ensures forall i :: 0 <= i < n && scans[i].x.q && (forall j :: i < j < n ==> !scans[j].x.q) ==>
      LastInput(scans, n, first) == scans[i].x.v
  {
    if n > 0 && !scans[n - 1].x.q { LastInputIs(scans, n - 1, first); }
  }

  /* ---- delay ---- */

  function DelayAfter(d: Delay, scans: seq<Scan>, n: nat, width: nat): Delay
    requires n <= |scans|
  {
    if n == 0 then d else DelayStep(DelayAfter(d, scans, n - 1, width), scans[n - 1].x, scans[n - 1].now, width)
  }

  /** Scan `s` is a rise, and the input has been 1 on all good scans since. */
  ghost predicate OnSince(scans: seq<Scan>, s: nat, n: nat)
    requires n <= |scans|
  {
    && s < n && scans[s].x == Signal(true, true) && !LastInput(scans, s, false)
    && forall i :: s < i < n && scans[i].x.q ==> scans[i].x.v
  }

  /** At a good scan after `s` the time that has passed since `s`, mod 2^24, is at least the delay. */
  ghost predicate Reached(scans: seq<Scan>, s: nat, n: nat, width: nat)
    requires s < n <= |scans|
  {
    exists t :: s < t < n && scans[t].x.q && (scans[t].now - scans[s].now) % 0x100_0000 >= width
  }

  /** The scan of the last rise, when the last good input is 1. */
  function LastRise(scans: seq<Scan>, n: nat): (s: nat)
    requires n <= |scans|
    ensures LastInput(scans, n, false) ==> OnSince(scans, s, n)
  {
    if n == 0 then 0
    else if scans[n - 1].x == Signal(true, true) && !LastInput(scans, n - 1, false) then n - 1
    else LastRise(scans, n - 1)
  }

  lemma {:induction false} OnSinceIsLastRise(scans: seq<Scan>, s: nat, n: nat)
    requires n <= |scans| && OnSince(scans, s, n)
    ensures LastInput(scans, n, false) && s == LastRise(scans, n)
  {
    if s + 1 < n { OnSinceIsLastRise(scans, s, n - 1); }
  }

  lemma ReachedStep(scans: seq<Scan>, s: nat, n: nat, width: nat)
    requires s < n < |scans|
    ensures Reached(scans, s, n + 1, width) <==>
      Reached(scans, s, n, width) || (scans[n].x.q && (scans[n].now - scans[s].now) % 0x100_0000 >= width)
  {
  }

  lemma {:induction false} DelayTrace(d: Delay, scans: seq<Scan>, n: nat, width: nat)
    requires n <= |scans| && !d.running && !d.passed
    ensures var e := DelayAfter(d, scans, n, width);
      && e.running == LastInput(scans, n, false)
      && (e.running ==> e.start == scans[LastRise(scans, n)].now)
      && (e.passed <==> e.running && Reached(scans, LastRise(scans, n), n, width))
  {
    if n > 0 {
      DelayTrace(d, scans, n - 1, width);
      if LastInput(scans, n - 1, false) { ReachedStep(scans, LastRise(scans, n - 1), n - 1, width); }
    }
  }

  /** The output of a delay that was off at the start: it is 1 exactly when the input has stayed 1 on
      all good scans since its last rise, and some good scan since reached the delay. */
  lemma DelayOutput(d: Delay, scans: seq<Scan>, n: nat, width: nat)
    requires n <= |scans| && !d.running && !d.passed
    ensures DelayAfter(d, scans, n, width).passed <==>
      exists s: nat :: OnSince(scans, s, n) && Reached(scans, s, n, width)
  {
    DelayTrace(d, scans, n, width);
    forall s: nat | OnSince(scans, s, n) ensures LastInput(scans, n, false) && s == LastRise(scans, n) {
      OnSinceIsLastRise(scans, s, n);
    }
  }

  /** What a block finds and leaves in memory in each scan; between the scans nothing changes what `own` reads. */
  ghost predicate ScansRun<S>(code: seq<Instr>, before: seq<State>, own: State -> S) {
    forall i :: 0 < i < |before| ==> own(before[i]) == own(Exec(code, Pass(Running, before[i - 1])).s)
  }

  function DelayScans(before: seq<State>, x: BitVar, clock: nat): (scans: seq<Scan>)
    ensures |scans| == |before|
  {
    seq(|before|, i requires 0 <= i < |before| => Scan(Read(before[i], x), None, Clock(before[i], clock)))
  }

  /** The emitted code, run in any sequence of scans, outputs what `DelayOutput` says. */
  lemma DelayCodeOutput(id: nat, x: BitVar, out: BitVar, tmr: nat, clock: nat, d0: Byte, d1: Byte, d2: Byte,
      before: seq<State>)
    requires x.Valid() && out.Valid() && out.quality
    requires x.Foot() !! out.Foot() && (out.addr < tmr || tmr + 4 <= out.addr)
    requires before != [] && !ReadDelay(before[0], tmr).running
    requires !ReadDelay(before[0], tmr).passed && !Read(before[0], out).v
    requires ScansRun(DelayCode(id, x, out, tmr, clock, d0, d1, d2), before,
      (s: State) => (ReadDelay(s, tmr), Read(s, out).v))
    ensures var n, after := |before|,
      Exec(DelayCode(id, x, out, tmr, clock, d0, d1, d2), Pass(Running, before[|before| - 1])).s;
      Read(after, out).v <==> exists s: nat ::
        OnSince(DelayScans(before, x, clock), s, n) && Reached(DelayScans(before, x, clock), s, n, Num3(d0, d1, d2))
  {
    var scans := DelayScans(before, x, clock);
    DelayCodeRuns(id, x, out, tmr, clock, d0, d1, d2, before, |before|);
    DelayOutput(ReadDelay(before[0], tmr), scans, |before|, Num3(d0, d1, d2));
  }

  lemma {:induction false} DelayCodeRuns(id: nat, x: BitVar, out: BitVar, tmr: nat, clock: nat, d0: Byte, d1: Byte,
      d2: Byte, before: seq<State>, n: nat)
    requires x.Valid() && out.Valid() && out.quality
    requires x.Foot() !! out.Foot() && (out.addr < tmr || tmr + 4 <= out.addr)
    requires 0 < n <= |before| && !ReadDelay(before[0], tmr).running
    requires !ReadDelay(before[0], tmr).passed && !Read(before[0], out).v
    requires ScansRun(DelayCode(id, x, out, tmr, clock, d0, d1, d2), before,
      (s: State) => (ReadDelay(s, tmr), Read(s, out).v))
    ensures var after := Exec(DelayCode(id, x, out, tmr, clock, d0, d1, d2), Pass(Running, before[n - 1])).s;
      var d := DelayAfter(ReadDelay(before[0], tmr), DelayScans(before, x, clock), n, Num3(d0, d1, d2));
      ReadDelay(after, tmr) == d && Read(after, out).v == d.passed
  {
    hide Exec, Num3;
    DelayYields(id, x, out, tmr, clock, d0, d1, d2, before[n - 1]);
    if n > 1 { DelayCodeRuns(id, x, out, tmr, clock, d0, d1, d2, before, n - 1); }
  }

  /* ---- pulse ---- */

  function PulseAfter(p: Pulse, fall: bool, scans: seq<Scan>, n: nat, width: nat): Pulse
    requires n <= |scans|
  {
    if n == 0 then p
      else PulseStep(PulseAfter(p, fall, scans, n - 1, width), fall, scans[n - 1].x, scans[n - 1].now, width)
  }

  /** A good scan that differs from the last good one in the given way. */
  predicate EdgeAt(scans: seq<Scan>, kind: Edge, first: bool, s: nat)
    requires s < |scans|
  {
    scans[s].x.q && Detects(kind, LastInput(scans, s, first), scans[s].x.v)
  }

  ghost predicate LastEdge(scans: seq<Scan>, kind: Edge, first: bool, s: nat, n: nat)
    requires n <= |scans|
  {
    s < n && EdgeAt(scans, kind, first, s) && forall i :: s < i < n ==> !EdgeAt(scans, kind, first, i)
  }

  /** At all good scans after `s` less than the width has passed since `s`, mod 2^16. */
  ghost predicate Within(scans: seq<Scan>, s: nat, n: nat, width: nat)
    requires s < n <= |scans|
  {
    forall t :: s < t < n && scans[t].x.q ==> (scans[t].now - scans[s].now) % 0x1_0000 < width
  }

  lemma {:induction false} NewEdge(scans: seq<Scan>, kind: Edge, first: bool, n: nat, width: nat)
    requires 0 < n <= |scans| && EdgeAt(scans, kind, first, n - 1)
    ensures (forall s: nat :: LastEdge(scans, kind, first, s, n) <==> s == n - 1) && Within(scans, n - 1, n, width)
  {
    hide EdgeAt;
  }

  lemma {:induction false} NoEdge(scans: seq<Scan>, kind: Edge, first: bool, m: nat, n: nat, width: nat)
    requires m + 1 == n <= |scans| && !EdgeAt(scans, kind, first, m)
    ensures forall s: nat :: LastEdge(scans, kind, first, s, m) ==> s < m
    ensures forall s: nat :: LastEdge(scans, kind, first, s, n) <==> LastEdge(scans, kind, first, s, m)
    ensures forall s: nat :: s < m ==>
      (Within(scans, s, n, width) <==>
        Within(scans, s, m, width) && (scans[m].x.q ==> (scans[m].now - scans[s].now) % 0x1_0000 < width))
  {
    hide EdgeAt;
  }

  /** The output of a pulse that was off at the start: it is 1 exactly when there was an edge, and at
      no good scan since the last one the width had passed. */
  lemma {:induction false} PulseOutput(p: Pulse, fall: bool, scans: seq<Scan>, n: nat, width: nat)
    requires n <= |scans| && !p.on
    ensures var e, kind := PulseAfter(p, fall, scans, n, width), Kind(fall);
      && e.prev == LastInput(scans, n, p.prev)
      && (forall s: nat :: LastEdge(scans, kind, p.prev, s, n) ==> e.start == scans[s].now)
      && (e.on <==> exists s: nat :: LastEdge(scans, kind, p.prev, s, n) && Within(scans, s, n, width))
  {
    if n > 0 {
      hide LastEdge, Within, Detects, Kind;
      var m: nat, kind := n - 1, Kind(fall);
      PulseOutput(p, fall, scans, m, width);
      if EdgeAt(scans, kind, p.prev, m) {
        NewEdge(scans, kind, p.prev, n, width);
      } else {
        NoEdge(scans, kind, p.prev, m, n, width);
      }
    }
  }

  function PulseScans(before: seq<State>, x: BitVar, clock: nat): (scans: seq<Scan>)
    ensures |scans| == |before|
  {
    seq(|before|, i requires 0 <= i < |before| => Scan(Read(before[i], x), None, Clock16(before[i], clock)))
  }

  lemma {:induction false} PulseCodeRuns(id: nat, x: BitVar, out: BitVar, prev: BitVar, tmr: nat, clock: nat,
      fall: bool, d0: Byte, d1: Byte, before: seq<State>, n: nat)
    requires x.Valid() && out.Valid() && prev.Valid() && out.quality && Apart(out, prev, tmr)
    requires 0 < n <= |before|
    requires ScansRun(PulseCode(id, x, out, prev, tmr, clock, fall, d0, d1), before,
      (s: State) => ReadPulse(s, tmr, prev, out))
    ensures var after := Exec(PulseCode(id, x, out, prev, tmr, clock, fall, d0, d1), Pass(Running, before[n - 1])).s;
      ReadPulse(after, tmr, prev, out) ==
        PulseAfter(ReadPulse(before[0], tmr, prev, out), fall, PulseScans(before, x, clock), n,
          ToNat(d0) + 256 * ToNat(d1))
  {
    hide Exec, ToNat;
    PulseYields(id, x, out, prev, tmr, clock, fall, d0, d1, before[n - 1]);
    if n > 1 { PulseCodeRuns(id, x, out, prev, tmr, clock, fall, d0, d1, before, n - 1); }
  }

  /** The emitted code, run in any sequence of scans, outputs what `PulseOutput` says. */
  lemma {:induction false} PulseCodeOutput(id: nat, x: BitVar, out: BitVar, prev: BitVar, tmr: nat, clock: nat,
      fall: bool, d0: Byte, d1: Byte, before: seq<State>)
    requires x.Valid() && out.Valid() && prev.Valid() && out.quality && Apart(out, prev, tmr)
    requires before != [] && !ReadPulse(before[0], tmr, prev, out).on
    requires ScansRun(PulseCode(id, x, out, prev, tmr, clock, fall, d0, d1), before,
      (s: State) => ReadPulse(s, tmr, prev, out))
    ensures var after := Exec(PulseCode(id, x, out, prev, tmr, clock, fall, d0, d1),
      Pass(Running, before[|before| - 1])).s;
      var scans, first := PulseScans(before, x, clock), before[0].GetBit(prev.Reg(), prev.bit);
      Read(after, out).v <==>
        exists s: nat :: LastEdge(scans, Kind(fall), first, s, |before|)
          && Within(scans, s, |before|, ToNat(d0) + 256 * ToNat(d1))
  {
    hide Exec, ToNat;
    PulseCodeRuns(id, x, out, prev, tmr, clock, fall, d0, d1, before, |before|);
    PulseOutput(ReadPulse(before[0], tmr, prev, out), fall, PulseScans(before, x, clock), |before|,
      ToNat(d0) + 256 * ToNat(d1));
  }

  /* ---- edge detectors ---- */

  /** Previous input and output after `n` scans. */
  function EdgeAfter(kind: Edge, first: bool, was: Signal, scans: seq<Scan>, n: nat): (bool, Signal)
    requires n <= |scans|
  {
    if n == 0 then (first, was) else
      var (prev, out) := EdgeAfter(kind, first, was, scans, n - 1);
      (if scans[n - 1].x.q then scans[n - 1].x.v else prev, EdgeResult(kind, scans[n - 1].x, prev, out))
  }

  /** The output's value tells whether the last good scan was an edge from the good scan before it,
      and its quality whether the last scan was good. */
  lemma {:induction false} EdgeOutput(kind: Edge, first: bool, was: Signal, scans: seq<Scan>, n: nat)
    requires 0 < n <= |scans|
    ensures var (prev, out) := EdgeAfter(kind, first, was, scans, n);
      && prev == LastInput(scans, n, first)
      && out.q == scans[n - 1].x.q
      && (forall k :: 0 <= k < n && scans[k].x.q && (forall j :: k < j < n ==> !scans[j].x.q) ==>
           out.v == EdgeAt(scans, kind, first, k))
      && ((forall k :: 0 <= k < n ==> !scans[k].x.q) ==> out.v == was.v)
  {
    if n > 1 { EdgeOutput(kind, first, was, scans, n - 1); }
  }

  function EdgeScans(before: seq<State>, x: BitVar): (scans: seq<Scan>)
    ensures |scans| == |before|
  {
    seq(|before|, i requires 0 <= i < |before| => Scan(Read(before[i], x), None, 0))
  }

  lemma {:induction false} EdgeCodeOutput(id: nat, kind: Edge, x: BitVar, prev: BitVar, out: BitVar, before: seq<State>,
      n: nat)
    requires x.Valid() && prev.Valid() && out.Valid() && out.quality && (prev.addr, prev.bit) !in out.Foot()
    requires 0 < n <= |before|
    requires ScansRun(EdgeCode(id, kind, x, prev, out), before,
      (s: State) => (s.GetBit(prev.Reg(), prev.bit), Read(s, out)))
    ensures var after := Exec(EdgeCode(id, kind, x, prev, out), Pass(Running, before[n - 1])).s;
      (after.GetBit(prev.Reg(), prev.bit), Read(after, out))
        == EdgeAfter(kind, before[0].GetBit(prev.Reg(), prev.bit), Read(before[0], out), EdgeScans(before, x), n)
  {
    hide Exec;
    EdgeYields(id, kind, x, prev, out, before[n - 1]);
    if n > 1 { EdgeCodeOutput(id, kind, x, prev, out, before, n - 1); }
  }

  /* ---- RS trigger ---- */

  datatype RsScan = RsScan(x: Option<Signal>, r: Option<Signal>)

  predicate High(x: Option<Signal>) { x.Some? && x.value.v }

  predicate BadScan(e: RsScan) { IsBad(e.x) || IsBad(e.r) }

  /** A scan with good inputs, one of which is 1. */
  predicate Event(e: RsScan) {
    !BadScan(e) && (High(e.x) || High(e.r))
  }

  function RsAfter(was: Signal, scans: seq<RsScan>, n: nat): Signal
    requires n <= |scans|
  {
    if n == 0 then was else RsResult(scans[n - 1].x, scans[n - 1].r, RsAfter(was, scans, n - 1))
  }

  /** The output holds the last event, in which reset dominates, and is good when the last scan was. */
  lemma {:induction false} RsOutput(was: Signal, scans: seq<RsScan>, n: nat)
    requires 0 < n <= |scans|
    ensures var out := RsAfter(was, scans, n);
      && out.q == !BadScan(scans[n - 1])
      && (forall s :: 0 <= s < n && Event(scans[s]) && (forall j :: s < j < n ==> !Event(scans[j])) ==>
           out.v == !High(scans[s].r))
      && ((forall s :: 0 <= s < n ==> !Event(scans[s])) ==> out.v == was.v)
  {
    if n > 1 { RsOutput(was, scans, n - 1); }
  }

  function RsScans(before: seq<State>, x: Option<BitVar>, r: Option<BitVar>): (scans: seq<RsScan>)
    ensures |scans| == |before|
  {
    seq(|before|, i requires 0 <= i < |before| => RsScan(ReadOpt(before[i], x), ReadOpt(before[i], r)))
  }

  lemma {:induction false} RsCodeOutput(id: nat, x: Option<BitVar>, r: Option<BitVar>, out: BitVar, before: seq<State>,
      n: nat)
    requires x.Some? || r.Some?
    requires (x.Some? ==> x.value.Valid()) && (r.Some? ==> r.value.Valid()) && out.Valid() && out.quality
    requires 0 < n <= |before| && ScansRun(RsCode(id, x, r, out), before, (s: State) => Read(s, out))
    ensures Read(Exec(RsCode(id, x, r, out), Pass(Running, before[n - 1])).s, out) ==
      RsAfter(Read(before[0], out), RsScans(before, x, r), n)
  {
    hide Exec;
    RsYields(id, x, r, out, before[n - 1]);
    if n > 1 { RsCodeOutput(id, x, r, out, before, n - 1); }
  }

  /* ---- counter ---- */

  predicate ResetAt(e: Scan) { e.r.Some? && e.r.value.q && e.r.value.v }

  /** The input at the last scan that sampled it, or `first`. */
  function LastSampled(scans: seq<Scan>, n: nat, first: bool): bool
    requires n <= |scans|
  {
    if n == 0 then first
    else if Samples(scans[n - 1].x, scans[n - 1].r) then scans[n - 1].x.v
    else LastSampled(scans, n - 1, first)
  }

  /** Scan `i` samples a 1 where the last sampled input was 0. */
  predicate RiseAt(scans: seq<Scan>, i: nat, first: bool)
    requires i < |scans|
  {
    Samples(scans[i].x, scans[i].r) && scans[i].x.v && !LastSampled(scans, i, first)
  }

  ghost predicate NoReset(scans: seq<Scan>, i: int, n: nat)
    requires -1 <= i && n <= |scans|
  {
    forall j :: i < j < n ==> !ResetAt(scans[j])
  }

  /** The rises since the last reset. */
  ghost function Rises(scans: seq<Scan>, n: nat, first: bool): set<nat>
    requires n <= |scans|
  {
    set i: nat | i < n && RiseAt(scans, i, first) && NoReset(scans, i, n)
  }

  function CountAfter(c: Count, scans: seq<Scan>, n: nat): Count
    requires n <= |scans|
  {
    if n == 0 then c else CounterStep(CountAfter(c, scans, n - 1), scans[n - 1].x, scans[n - 1].r)
  }

  lemma RisesStep(scans: seq<Scan>, n: nat, first: bool)
    requires n < |scans|
    ensures Rises(scans, n + 1, first) ==
      (if ResetAt(scans[n]) then {} else Rises(scans, n, first)) + (if RiseAt(scans, n, first) then {n} else {})
  {
    forall i: nat | i < n ensures NoReset(scans, i, n + 1) <==> NoReset(scans, i, n) && !ResetAt(scans[n]) {
    }
    assert RiseAt(scans, n, first) ==> NoReset(scans, n, n + 1);
  }

  lemma RisesSize(scans: seq<Scan>, n: nat, first: bool)
    requires n < |scans|
    ensures |Rises(scans, n + 1, first)| ==
      if ResetAt(scans[n]) then 0 else |Rises(scans, n, first)| + if RiseAt(scans, n, first) then 1 else 0
  {
    RisesStep(scans, n, first);
    assert n !in Rises(scans, n, first);
  }

  /** The counter holds the number of rises since the last reset, mod 2^16; without a reset it counts
      on from where it was. */
  lemma {:induction false} CounterOutput(c: Count, scans: seq<Scan>, n: nat)
    requires n <= |scans| && c.n < 0x1_0000
    ensures var e := CountAfter(c, scans, n);
      && e.prev == LastSampled(scans, n, c.prev)
      && e.n == ((if NoReset(scans, -1, n) then c.n else 0) + |Rises(scans, n, c.prev)|) % 0x1_0000
  {
    if n == 0 {
      assert Rises(scans, 0, c.prev) == {};
    } else {
      hide Rises;
      CounterOutput(c, scans, n - 1);
      RisesSize(scans, n - 1, c.prev);
      assert NoReset(scans, -1, n) <==> NoReset(scans, -1, n - 1) && !ResetAt(scans[n - 1]);
    }
  }

  function CounterScans(before: seq<State>, x: BitVar, r: Option<BitVar>): (scans: seq<Scan>)
    ensures |scans| == |before|
  {
    seq(|before|, i requires 0 <= i < |before| => Scan(Read(before[i], x), ReadOpt(before[i], r), 0))
  }

  lemma {:induction false} CounterCodeOutput(id: nat, x: BitVar, r: Option<BitVar>, prev: BitVar, out: nat,
      before: seq<State>, n: nat)
    requires x.Valid() && prev.Valid() && (r.Some? ==> r.value.Valid())
    requires prev.addr != out && prev.addr != out + 1
    requires 0 < n <= |before|
    requires ScansRun(CounterCode(id, x, r, prev, out), before,
      (s: State) => Count(Word(s, out), s.GetBit(prev.Reg(), prev.bit)))
    ensures var after := Exec(CounterCode(id, x, r, prev, out), Pass(Running, before[n - 1])).s;
      Count(Word(after, out), after.GetBit(prev.Reg(), prev.bit))
        == CountAfter(Count(Word(before[0], out), before[0].GetBit(prev.Reg(), prev.bit)), CounterScans(before, x, r),
          n)
  {
    hide Exec, ToNat;
    CounterYields(id, x, r, prev, out, before[n - 1]);
    if n > 1 { CounterCodeOutput(id, x, r, prev, out, before, n - 1); }
  }
}
