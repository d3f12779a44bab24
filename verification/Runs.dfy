/** The compiled program, run scan after scan: what the blocks of the diagram show of all the inputs they
    have seen. */
module Runs {
  import opened Options
  import opened Diagrams
  import Numbering
  import opened Avr
  import opened Programs
  import opened Blocks
  import opened Latches
  import opened Timers
  import opened Pulses
  import opened Scans
  import opened Units
  import opened Compiler
  import opened Traces

  ghost predicate IsProgram(d: Diagram, units: seq<FbdBlock>, order: seq<nat>) {
    && d.Valid() && |units| == d.Blocks() && Placed(d, WiredAll(units)) && Numbering.Lists(order, d.All())
    && d.Sequenced(order) && forall i :: 0 <= i < |order| ==> order[i] < |units|
  }

  function Program(units: seq<FbdBlock>, order: seq<nat>): seq<Instr>
    requires forall i :: 0 <= i < |order| ==> order[i] < |units|
  {
    Concat(Parts(WiredAll(units), order))
  }

  /** The machine runs the program from each state in `before` to its end, in the state in `after`. Between
      the scans the inputs and the time change, but nothing that belongs to the blocks. */
  ghost predicate IsRun(units: seq<FbdBlock>, order: seq<nat>, before: seq<State>, after: seq<State>)
    requires forall i :: 0 <= i < |order| ==> order[i] < |units|
  {
    && |after| == |before|
    && (forall i :: 0 <= i < |before| ==> Scanned(Program(units, order), before[i], after[i]))
    && forall i, b :: 0 < i < |before| && 0 <= b < |units| ==> Untouched(units[b], after[i - 1], before[i])
  }

  ghost predicate Scanned(prog: seq<Instr>, s: State, s': State) {
    exists n: nat :: Leads(prog, 0, s, n, |prog|, s')
  }

  /** Every scan of the program comes to its end. */
  lemma ProgramScans(d: Diagram, units: seq<FbdBlock>, order: seq<nat>, s: State) returns (s': State)
    requires IsProgram(d, units, order)
    ensures Scanned(Program(units, order), s, s')
  {
    var n;
    n, s' := CompiledCodeScans(d, units, order, Program(units, order), s);
  }

  /** However often the program is run, in each scan every block does what it means. */
  lemma {:induction false} ProgramMeans(d: Diagram, units: seq<FbdBlock>, order: seq<nat>, before: seq<State>,
      after: seq<State>, b: nat)
    requires IsProgram(d, units, order) && IsRun(units, order, before, after) && b < d.Blocks()
    ensures |after| == |before| && BlockRun(units[b], before, after)
  {
    hide Leads, Placed, OnlyChanged, Means, Untouched;
    var prog := Program(units, order);
    forall i | 0 <= i < |before| ensures Means(units[b], before[i], after[i]) {
      var m, s' := CompiledCodeScans(d, units, order, prog, before[i]);
      assert Scanned(prog, before[i], after[i]);
      var k: nat :| Leads(prog, 0, before[i], k, |prog|, after[i]);
      LeadsUnique(prog, 0, before[i], m, s', k, after[i]);
    }
  }

  /** The scans of one block. */
  ghost predicate BlockRun(u: FbdBlock, before: seq<State>, after: seq<State>) {
    && |after| == |before|
    && (forall i :: 0 <= i < |before| ==> Means(u, before[i], after[i]))
    && forall i :: 0 < i < |before| ==> Untouched(u, after[i - 1], before[i])
  }

  /* ---- delay ---- */

  /** In memory the delay is in this state. */
  ghost predicate InDelay(u: FbdBlock, s: State, d: Delay)
    requires u.DelayBlock?
  {
    var e := ReadDelay(s, u.tmr);
    e.running == d.running && e.passed == d.passed && (d.running ==> e.start == d.start) && Read(s, u.out).v == d.passed
  }

  lemma {:induction false} DelayScan(u: FbdBlock, s: State, s': State, d: Delay)
    requires u.DelayBlock? && u.input.Some? && Means(u, s, s') && InDelay(u, s, d)
    ensures InDelay(u, s', DelayStep(d, Read(s', u.input.value), Clock(s', u.clock), u.ticks % 0x100_0000))
  {
    hide Read, ReadDelay, Clock;
  }

  lemma {:induction false} DelayKept(u: FbdBlock, s: State, s': State, d: Delay)
    requires u.DelayBlock? && Untouched(u, s, s') && InDelay(u, s, d)
    ensures InDelay(u, s', d)
  {
    hide Read, ToNat;
  }

  lemma {:induction false} DelayRun(u: FbdBlock, before: seq<State>, after: seq<State>, n: nat)
    requires u.DelayBlock? && u.input.Some? && BlockRun(u, before, after) && 0 < n <= |before|
    requires InDelay(u, before[0], ReadDelay(before[0], u.tmr))
    ensures InDelay(u, after[n - 1], DelayAfter(ReadDelay(before[0], u.tmr),
      DelayScans(after, u.input.value, u.clock), n, u.ticks % 0x100_0000))
  {
    hide Read, ReadDelay, Clock, Means, Untouched, InDelay, DelayStep;
    var d, scans := ReadDelay(before[0], u.tmr), DelayScans(after, u.input.value, u.clock);
    if n > 1 {
      DelayRun(u, before, after, n - 1);
      DelayKept(u, after[n - 2], before[n - 1], DelayAfter(d, scans, n - 1, u.ticks % 0x100_0000));
    } else {
      assert DelayAfter(d, scans, 0, u.ticks % 0x100_0000) == d;
    }
    DelayScan(u, before[n - 1], after[n - 1], DelayAfter(d, scans, n - 1, u.ticks % 0x100_0000));
  }

  /** In the running program a delay that was off at the start is on exactly when its input has stayed on in
      all good scans since its last rise, and one of them reached the delay. */
  lemma {:induction false} ProgramDelay(d: Diagram, units: seq<FbdBlock>, order: seq<nat>, before: seq<State>,
      after: seq<State>, b: nat, n: nat)
    requires IsProgram(d, units, order) && IsRun(units, order, before, after) && b < d.Blocks() && 0 < n <= |before|
    requires units[b].DelayBlock? && units[b].input.Some?
    requires var e := ReadDelay(before[0], units[b].tmr); !e.running && !e.passed && !Read(before[0], units[b].out).v
    ensures var scans, width := DelayScans(after, units[b].input.value, units[b].clock), units[b].ticks % 0x100_0000;
      Read(after[n - 1], units[b].out).v <==> exists s: nat :: OnSince(scans, s, n) && Reached(scans, s, n, width)
  {
    hide Placed, IsRun, BlockRun, DelayAfter, ReadDelay, OnSince, Reached, DelayScans;
    var u := units[b];
    ProgramMeans(d, units, order, before, after, b);
    DelayRun(u, before, after, n);
    DelayOutput(ReadDelay(before[0], u.tmr), DelayScans(after, u.input.value, u.clock), n, u.ticks % 0x100_0000);
  }

  /* ---- pulse ---- */

  lemma SameWord(s: State, s': State, addr: nat)
    requires SameCells(s, s', addr, 2)
    ensures Word(s', addr) == Word(s, addr)
  {
  }

  function PulseIn(s: State, u: FbdBlock): Pulse
    requires u.PulseBlock?
  {
    ReadPulse(s, u.tmr, u.prev, u.out)
  }

  lemma {:induction false} PulseScan(u: FbdBlock, s: State, s': State)
    requires u.PulseBlock? && u.input.Some? && Means(u, s, s')
    ensures PulseIn(s', u) ==
      PulseStep(PulseIn(s, u), u.fall, Read(s', u.input.value), Clock16(s', u.clock), u.width % 0x1_0000)
  {
    hide Read, Word, Clock16;
    ReadValue(s, u.out);
    ReadValue(s', u.out);
  }

  lemma {:induction false} PulseKept(u: FbdBlock, s: State, s': State)
    requires u.PulseBlock? && Untouched(u, s, s')
    ensures PulseIn(s', u) == PulseIn(s, u)
  {
    hide Read, Word;
    SameWord(s, s', u.tmr);
    ReadValue(s, u.out);
    ReadValue(s', u.out);
  }

  lemma {:induction false} PulseRun(u: FbdBlock, before: seq<State>, after: seq<State>, n: nat)
    requires u.PulseBlock? && u.input.Some? && BlockRun(u, before, after) && 0 < n <= |before|
    ensures PulseIn(after[n - 1], u) ==
      PulseAfter(PulseIn(before[0], u), u.fall, PulseScans(after, u.input.value, u.clock), n, u.width % 0x1_0000)
  {
    hide Read, Clock16, Means, Untouched, PulseIn, PulseStep;
    var p, scans := PulseIn(before[0], u), PulseScans(after, u.input.value, u.clock);
    assert PulseAfter(p, u.fall, scans, 0, u.width % 0x1_0000) == p;
    if n > 1 {
      PulseRun(u, before, after, n - 1);
      PulseKept(u, after[n - 2], before[n - 1]);
    }
    PulseScan(u, before[n - 1], after[n - 1]);
  }

  /** A pulse that was off at the start is on exactly when there was an edge of its input, and at no good
      scan since the last one its width had passed. */
  lemma {:induction false} ProgramPulse(d: Diagram, units: seq<FbdBlock>, order: seq<nat>, before: seq<State>,
      after: seq<State>, b: nat, n: nat)
    requires IsProgram(d, units, order) && IsRun(units, order, before, after) && b < d.Blocks() && 0 < n <= |before|
    requires units[b].PulseBlock? && units[b].input.Some? && !Read(before[0], units[b].out).v
    ensures var u := units[b];
      var scans, kind := PulseScans(after, u.input.value, u.clock), if u.fall then Falling else Rising;
      var first := before[0].GetBit(u.prev.Reg(), u.prev.bit);
      Read(after[n - 1], u.out).v <==>
        exists s: nat :: LastEdge(scans, kind, first, s, n) && Within(scans, s, n, u.width % 0x1_0000)
  {
    hide Placed, IsRun, BlockRun, PulseAfter, LastEdge, Within, PulseScans;
    var u := units[b];
    ProgramMeans(d, units, order, before, after, b);
    PulseRun(u, before, after, n);
    ReadValue(after[n - 1], u.out);
    Traces.PulseOutput(PulseIn(before[0], u), u.fall, PulseScans(after, u.input.value, u.clock), n, u.width % 0x1_0000);
  }

  /* ---- counter ---- */

  function CountIn(s: State, u: FbdBlock): Count
    requires u.CounterBlock?
  {
    Count(Word(s, u.count), s.GetBit(u.prev.Reg(), u.prev.bit))
  }

  lemma {:induction false} CounterRun(u: FbdBlock, before: seq<State>, after: seq<State>, n: nat)
    requires u.CounterBlock? && u.input.Some? && BlockRun(u, before, after) && 0 < n <= |before|
    ensures CountIn(after[n - 1], u) ==
      CountAfter(CountIn(before[0], u), CounterScans(after, u.input.value, u.reset), n)
  {
    hide Word, Read;
    assert Means(u, before[n - 1], after[n - 1]);
    if n > 1 {
      CounterRun(u, before, after, n - 1);
      assert Untouched(u, after[n - 2], before[n - 1]);
      SameWord(after[n - 2], before[n - 1], u.count);
    }
  }

  /** A counter holds the number of rises it has seen since the last reset, mod 2^16. */
  lemma {:induction false} ProgramCounter(d: Diagram, units: seq<FbdBlock>, order: seq<nat>, before: seq<State>,
      after: seq<State>, b: nat, n: nat)
    requires IsProgram(d, units, order) && IsRun(units, order, before, after) && b < d.Blocks() && 0 < n <= |before|
    requires units[b].CounterBlock? && units[b].input.Some?
    ensures var u := units[b];
      var first, scans := before[0].GetBit(u.prev.Reg(), u.prev.bit), CounterScans(after, u.input.value, u.reset);
      Word(after[n - 1], u.count) ==
        ((if NoReset(scans, -1, n) then Word(before[0], u.count) else 0) + |Rises(scans, n, first)|) % 0x1_0000
  {
    hide Placed, IsRun, BlockRun, CountAfter, NoReset, Rises, CounterScans, Word;
    var u := units[b];
    ProgramMeans(d, units, order, before, after, b);
    CounterRun(u, before, after, n);
    WordFits(before[0], u.count);
    CounterOutput(CountIn(before[0], u), CounterScans(after, u.input.value, u.reset), n);
  }

  lemma WordFits(s: State, addr: nat)
    ensures Word(s, addr) < 0x1_0000
  {
  }

  /* ---- RS trigger ---- */

  lemma {:induction false} RsRun(u: FbdBlock, before: seq<State>, after: seq<State>, n: nat)
    requires u.RsTrigger? && (u.set_.Some? || u.reset.Some?) && BlockRun(u, before, after) && 0 < n <= |before|
    ensures Read(after[n - 1], u.out) == RsAfter(Read(before[0], u.out), RsScans(after, u.set_, u.reset), n)
  {
    hide Read;
    assert Means(u, before[n - 1], after[n - 1]);
    if n > 1 {
      RsRun(u, before, after, n - 1);
      assert Untouched(u, after[n - 2], before[n - 1]);
    }
  }

  /** An RS trigger holds the last event it has seen, in which reset dominates, and is good when the last
      scan was. */
  lemma {:induction false} ProgramRs(d: Diagram, units: seq<FbdBlock>, order: seq<nat>, before: seq<State>,
      after: seq<State>, b: nat, n: nat)
    requires IsProgram(d, units, order) && IsRun(units, order, before, after) && b < d.Blocks() && 0 < n <= |before|
    requires units[b].RsTrigger? && (units[b].set_.Some? || units[b].reset.Some?)
    ensures var out, scans := Read(after[n - 1], units[b].out), RsScans(after, units[b].set_, units[b].reset);
      && out.q == !BadScan(scans[n - 1])
      && (forall s :: 0 <= s < n && Event(scans[s]) && (forall j :: s < j < n ==> !Event(scans[j])) ==>
           out.v == !High(scans[s].r))
      && ((forall s :: 0 <= s < n ==> !Event(scans[s])) ==> out.v == Read(before[0], units[b].out).v)
  {
    hide Placed, IsRun, BlockRun, RsAfter, Event, BadScan, High;
    var u := units[b];
    ProgramMeans(d, units, order, before, after, b);
    RsRun(u, before, after, n);
    RsOutput(Read(before[0], u.out), RsScans(after, u.set_, u.reset), n);
  }

  /* ---- edge detectors ---- */

  lemma {:induction false} EdgeRun(u: FbdBlock, before: seq<State>, after: seq<State>, n: nat)
    requires u.EdgeBlock? && u.input.Some? && BlockRun(u, before, after) && 0 < n <= |before|
    ensures (after[n - 1].GetBit(u.prev.Reg(), u.prev.bit), Read(after[n - 1], u.out)) ==
      EdgeAfter(u.kind, before[0].GetBit(u.prev.Reg(), u.prev.bit), Read(before[0], u.out),
        EdgeScans(after, u.input.value), n)
  {
    hide Read;
    assert Means(u, before[n - 1], after[n - 1]);
    if n > 1 {
      EdgeRun(u, before, after, n - 1);
      assert Untouched(u, after[n - 2], before[n - 1]);
    }
  }

  /** An edge detector shows whether the last good scan it has seen was an edge from the good scan before. */
  lemma {:induction false} ProgramEdge(d: Diagram, units: seq<FbdBlock>, order: seq<nat>, before: seq<State>,
      after: seq<State>, b: nat, n: nat)
    requires IsProgram(d, units, order) && IsRun(units, order, before, after) && b < d.Blocks() && 0 < n <= |before|
    requires units[b].EdgeBlock? && units[b].input.Some?
    ensures var out, scans := Read(after[n - 1], units[b].out), EdgeScans(after, units[b].input.value);
      var kind, first := units[b].kind, before[0].GetBit(units[b].prev.Reg(), units[b].prev.bit);
      && out.q == scans[n - 1].x.q
      && (forall k :: 0 <= k < n && scans[k].x.q && (forall j :: k < j < n ==> !scans[j].x.q) ==>
           out.v == EdgeAt(scans, kind, first, k))
      && ((forall k :: 0 <= k < n ==> !scans[k].x.q) ==> out.v == Read(before[0], units[b].out).v)
  {
    hide Placed, IsRun, BlockRun, EdgeAfter, EdgeAt;
    var u := units[b];
    ProgramMeans(d, units, order, before, after, b);
    EdgeRun(u, before, after, n);
    EdgeOutput(u.kind, before[0].GetBit(u.prev.Reg(), u.prev.bit), Read(before[0], u.out),
      EdgeScans(after, u.input.value), n);
  }
}
