/** The code of the logic blocks, and what it computes. */
module Blocks {
  import opened Avr

  /** A bit variable: its RAM cell, its bit, and whether the next bit holds its quality. */
  datatype BitVar = BitVar(addr: nat, bit: nat, quality: bool) {

    predicate Valid() {
      bit < 8 && (quality ==> bit + 1 < 8)
    }

    function Reg(): Reg { Cell(addr) }

    function QBit(): nat { bit + 1 }

    /** The bits it occupies. */
    function Foot(): set<(nat, nat)> {
      if quality then {(addr, bit), (addr, bit + 1)} else {(addr, bit)}
    }
  }

  /** A value and whether it is good. */
  datatype Signal = Signal(v: bool, q: bool)

  /** A variable without a quality bit is always good. */
  function Read(s: State, x: BitVar): Signal
  {
    Signal(s.GetBit(x.Reg(), x.bit), x.quality ==> s.GetBit(x.Reg(), x.QBit()))
  }

  /** All RAM bits but those of `own` are as they were, and so is the rest of the memory. */
  ghost predicate OnlyChanged(s: State, s': State, own: set<(nat, nat)>) {
    && s'.mem == s.mem
    && forall a: nat, k: nat :: k < 8 && (a, k) !in own ==> s'.GetBit(Cell(a), k) == s.GetBit(Cell(a), k)
  }

  /** The code runs through, sets the output as given, and changes no other RAM bit. */
  ghost predicate Yields(code: seq<Instr>, s: State, out: BitVar, val: Signal, own: set<(nat, nat)>)
  {
    var p := Exec(code, Pass(Running, s));
    p.mode == Running && Read(p.s, out) == val && OnlyChanged(s, p.s, own)
  }

  /** Register `n` alone is new. */
  ghost predicate Puts(s: State, s': State, n: nat, b: Byte) {
    s'.mem == s.mem && s'.t == s.t && s'.Get(R(n)) == b && forall r :: r != R(n) ==> s'.Get(r) == s.Get(r)
  }

  lemma Loads(n: nat, addr: nat, s: State)
    ensures Do(Alu(Lds(R(n), addr)), Pass(Running, s)) == Pass(Running, s.Compute(Lds(R(n), addr)))
    ensures Puts(s, s.Compute(Lds(R(n), addr)), n, s.mem(addr))
  {
  }

  /** Disabling and enabling interrupts changes no register. */
  lemma Interrupts(s: State)
    ensures Do(Alu(Cli), Pass(Running, s)) == Pass(Running, s) && Do(Alu(Sei), Pass(Running, s)) == Pass(Running, s)
  {
  }

  lemma ChangedTrans(s: State, s1: State, s2: State, own1: set<(nat, nat)>, own2: set<(nat, nat)>)
    requires OnlyChanged(s, s1, own1) && OnlyChanged(s1, s2, own2)
    ensures OnlyChanged(s, s2, own1 + own2)
  {
  }

  lemma SameCell(s: State, s': State, own: set<(nat, nat)>, a: nat)
    requires OnlyChanged(s, s', own) && forall k: nat :: k < 8 ==> (a, k) !in own
    ensures s'.Get(Cell(a)) == s.Get(Cell(a))
  {
    forall k: nat | k < 8 ensures s'.Get(Cell(a))[k] == s.Get(Cell(a))[k] {
      assert s'.GetBit(Cell(a), k) == s.GetBit(Cell(a), k);
    }
  }

  lemma ReadSame(x: BitVar, s: State, s': State, own: set<(nat, nat)>)
    requires x.Valid() && OnlyChanged(s, s', own) && x.Foot() !! own
    ensures Read(s', x) == Read(s, x)
  {
    assert (x.addr, x.bit) in x.Foot();
    if x.quality { assert (x.addr, x.bit + 1) in x.Foot(); }
  }

  /** One RAM bit is set to `v`, and no other one changes. */
  ghost predicate Sets(s: State, s': State, addr: nat, bit: nat, v: bool) {
    OnlyChanged(s, s', {(addr, bit)}) && s'.GetBit(Cell(addr), bit) == v
  }

  lemma BldSets(s: State, addr: nat, bit: nat)
    requires bit < 8
    ensures Do(Bld(Cell(addr), bit), Pass(Running, s)).mode == Running
    ensures Sets(s, Do(Bld(Cell(addr), bit), Pass(Running, s)).s, addr, bit, s.t)
    ensures Do(Bld(Cell(addr), bit), Pass(Running, s)).s.t == s.t
  {
  }

  /** Storing a signal: first the value, then the quality. */
  function Write(s: State, out: BitVar, val: Signal): State {
    s.PutBit(out.Reg(), out.bit, val.v).PutBit(out.Reg(), out.QBit(), val.q)
  }

  lemma {:induction false} WriteYields(code: seq<Instr>, s: State, s1: State, out: BitVar, val: Signal,
      own: set<(nat, nat)>, t: bool)
    requires out.Valid() && out.quality && out.Foot() <= own && OnlyChanged(s, s1, own)
    requires Exec(code, Pass(Running, s)) == Pass(Running, Write(s1, out, val).(t := t))
    ensures Yields(code, s, out, val, own)
  {
    hide Exec;
  }

  /** Storing the quality only. */
  lemma WriteQualityYields(code: seq<Instr>, s: State, s1: State, out: BitVar, q: bool, own: set<(nat, nat)>)
    requires out.Valid() && out.quality && out.Foot() <= own && OnlyChanged(s, s1, own)
    requires Exec(code, Pass(Running, s)) == Pass(Running, s1.PutBit(out.Reg(), out.QBit(), q))
    ensures Yields(code, s, out, Signal(Read(s1, out).v, q), own)
  {
  }

  /* ---- NOT ---- */

  /** Branches away when the input's quality is bad; T is 0 then. */
  function Gate(x: BitVar, l: Label): seq<Instr> {
    if x.quality then [Bst(x.Reg(), x.QBit()), Br(TClear, l)] else []
  }

  lemma GateRuns(x: BitVar, l: Label, s: State)
    requires x.Valid()
    ensures Exec(Gate(x, l), Pass(Running, s)) ==
      if !x.quality then Pass(Running, s) else if Read(s, x).q then Pass(Running, s.(t := true))
        else Pass(Seeking(l), s.(t := false))
  {
    if x.quality { Exec2(Bst(x.Reg(), x.QBit()), Br(TClear, l), Pass(Running, s)); }
  }

  function NotCode(id: nat, x: BitVar, out: BitVar): seq<Instr> {
    var badQuality := Label(id, BadQuality);
    Gate(x, badQuality) + Inverted(x) + StoreGood(out, badQuality)
  }

  function Inverted(x: BitVar): seq<Instr> {
    [Bst(x.Reg(), x.bit), Over(TSet, 2), Set, Over(Always, 1)] + [Clt]
  }

  lemma InvertedRuns(x: BitVar, s: State)
    requires x.Valid()
    ensures Exec(Inverted(x), Pass(Running, s)) == Pass(Running, s.(t := !Read(s, x).v))
  {
    ExecAppend([Bst(x.Reg(), x.bit), Over(TSet, 2), Set, Over(Always, 1)], [Clt], Pass(Running, s));
    Exec4(Bst(x.Reg(), x.bit), Over(TSet, 2), Set, Over(Always, 1), Pass(Running, s));
    Exec1(Clt, Exec([Bst(x.Reg(), x.bit), Over(TSet, 2), Set, Over(Always, 1)], Pass(Running, s)));
  }

  /** The common ending: T is stored as the value, and the quality is set to good; a jump to
      `badQuality` stores T as the quality only. */
  function StoreGood(out: BitVar, badQuality: Label): seq<Instr> {
    [Bld(out.Reg(), out.bit), Set, Lab(badQuality), Bld(out.Reg(), out.QBit())]
  }

  lemma StoreGoodRuns(out: BitVar, badQuality: Label, s: State)
    ensures Exec(StoreGood(out, badQuality), Pass(Running, s)) ==
      Pass(Running, Write(s, out, Signal(s.t, true)).(t := true))
    ensures Exec(StoreGood(out, badQuality), Pass(Seeking(badQuality), s)) ==
      Pass(Running, s.PutBit(out.Reg(), out.QBit(), s.t))
  {
    Exec4(Bld(out.Reg(), out.bit), Set, Lab(badQuality), Bld(out.Reg(), out.QBit()), Pass(Running, s));
    Exec4(Bld(out.Reg(), out.bit), Set, Lab(badQuality), Bld(out.Reg(), out.QBit()), Pass(Seeking(badQuality), s));
  }

  lemma {:induction false} NotYields(id: nat, x: BitVar, out: BitVar, s: State)
    requires x.Valid() && out.Valid() && out.quality
    ensures Yields(NotCode(id, x, out), s, out,
      Signal(if Read(s, x).q then !Read(s, x).v else Read(s, out).v, Read(s, x).q), out.Foot())
  {
    hide Exec, Do, Gate;
    var badQuality := Label(id, BadQuality);
    var p0 := Pass(Running, s);
    var p1 := Exec(Gate(x, badQuality), p0);
    GateRuns(x, badQuality, s);
    ExecAppend(Gate(x, badQuality), Inverted(x), p0);
    ExecAppend(Gate(x, badQuality) + Inverted(x), StoreGood(out, badQuality), p0);
    InvertedRuns(x, p1.s);
    ExecSeeking(Inverted(x), badQuality, p1.s);
    var s2 := Exec(Inverted(x), p1).s;
    StoreGoodRuns(out, badQuality, s2);
    if Read(s, x).q {
      WriteYields(NotCode(id, x, out), s, s2, out, Signal(!Read(s, x).v, true), out.Foot(), true);
    } else {
      WriteQualityYields(NotCode(id, x, out), s, s2, out, false, out.Foot());
    }
  }
}
