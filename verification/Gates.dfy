/** OR and AND with any number of inputs. */
module Gates {
  import opened Avr
  import opened Blocks

  /** What is connected to an input slot. */
  datatype Slot = Open | BitIn(x: BitVar) | ByteIn {
    predicate Valid() { BitIn? ==> x.Valid() }
  }

  ghost predicate ValidSlots(slots: seq<Slot>) {
    forall i :: 0 <= i < |slots| ==> slots[i].Valid()
  }

  /** The bits of the bit inputs. */
  function SlotBits(slots: seq<Slot>): set<(nat, nat)> {
    if slots == [] then {}
    else SlotBits(slots[..|slots| - 1]) + if slots[|slots| - 1].BitIn? then slots[|slots| - 1].x.Foot() else {}
  }

  /** The code of one bit input: a bad input clears the quality in the scratch register, the
      dominating value (1 for OR, 0 for AND) ends the search. */
  function InputCode(or: bool, x: BitVar, store: Label): seq<Instr> {
    (if x.quality then [Bst(x.Reg(), x.QBit()), Over(TSet, 2), Bld(Tmp, 0), Over(Always, 2)] else [])
    + [Bst(x.Reg(), x.bit), Br(if or then TSet else TClear, store)]
  }

  function InputsCode(or: bool, slots: seq<Slot>, store: Label): seq<Instr> {
    if slots == [] then []
    else
      var n := |slots| - 1;
      InputsCode(or, slots[..n], store) + if slots[n].BitIn? then InputCode(or, slots[n].x, store) else []
  }

  function GateStart(): seq<Instr> {
    [Alu(Clr(Tmp)), Alu(Inc(Tmp))]
  }

  function GateEnd(id: nat, or: bool, out: BitVar): seq<Instr> {
    NormalEnd(id, out) + DominatedEnd(id, or, out)
  }

  function NormalEnd(id: nat, out: BitVar): seq<Instr> {
    [Bld(out.Reg(), out.bit), Bst(Tmp, 0), Bld(out.Reg(), out.QBit()), Br(Always, Label(id, End))]
  }

  function DominatedEnd(id: nat, or: bool, out: BitVar): seq<Instr> {
    if or then [Lab(Label(id, StoreOne)), Bld(out.Reg(), out.bit), Bld(out.Reg(), out.QBit()), Lab(Label(id, End))]
    else [Lab(Label(id, StoreZero)), Bld(out.Reg(), out.bit)] + [Set, Bld(out.Reg(), out.QBit()), Lab(Label(id, End))]
  }

  function StoreLabel(id: nat, or: bool): Label {
    Label(id, if or then StoreOne else StoreZero)
  }

  function GateCode(id: nat, or: bool, slots: seq<Slot>, out: BitVar): seq<Instr> {
    GateStart() + InputsCode(or, slots, StoreLabel(id, or)) + GateEnd(id, or, out)
  }

  /** The signals on the bit inputs, in slot order. */
  function Signals(s: State, slots: seq<Slot>): seq<Signal>
  {
    if slots == [] then []
    else
      var n := |slots| - 1;
      Signals(s, slots[..n]) + if slots[n].BitIn? then [Read(s, slots[n].x)] else []
  }

  /** Some good input has the dominating value. */
  predicate Dominated(or: bool, sigs: seq<Signal>) {
    exists i :: 0 <= i < |sigs| && sigs[i].q && sigs[i].v == or
  }

  predicate AllGood(sigs: seq<Signal>) {
    forall i :: 0 <= i < |sigs| ==> sigs[i].q
  }

  /** What the code stores; `t` is the T flag before. */
  function GateResult(or: bool, sigs: seq<Signal>, t: bool): Signal {
    if Dominated(or, sigs) then Signal(or, true)
    else Signal(if sigs == [] then t else sigs[|sigs| - 1].q && !or, AllGood(sigs))
  }

  /* ---- strong Kleene logic ---- */

  datatype Truth = Known(v: bool) | Unknown

  function TruthOf(s: Signal): Truth { if s.q then Known(s.v) else Unknown }

  /** Three-valued OR (`or`) and AND (not `or`) of two values. */
  function Kleene(or: bool, a: Truth, b: Truth): Truth {
    if a == Known(or) || b == Known(or) then Known(or)
    else if a == Known(!or) && b == Known(!or) then Known(!or)
    else Unknown
  }

  function KleeneAll(or: bool, sigs: seq<Signal>): Truth {
    if sigs == [] then Known(!or)
    else Kleene(or, KleeneAll(or, sigs[..|sigs| - 1]), TruthOf(sigs[|sigs| - 1]))
  }

  lemma {:induction false} KleeneAllIs(or: bool, sigs: seq<Signal>)
    ensures KleeneAll(or, sigs) ==
      if Dominated(or, sigs) then Known(or) else if AllGood(sigs) then Known(!or) else Unknown
  {
    if sigs != [] {
      var n := |sigs| - 1;
      KleeneAllIs(or, sigs[..n]);
      assert sigs == sigs[..n] + [sigs[n]];
      DominatedAppend(or, sigs[..n], sigs[n]);
    }
  }

  lemma DominatedAppend(or: bool, sigs: seq<Signal>, x: Signal)
    ensures Dominated(or, sigs + [x]) <==> Dominated(or, sigs) || (x.q && x.v == or)
    ensures AllGood(sigs + [x]) <==> AllGood(sigs) && x.q
  {
    var all := sigs + [x];
    if Dominated(or, sigs) {
      var i :| 0 <= i < |sigs| && sigs[i].q && sigs[i].v == or;
      assert all[i] == sigs[i];
    }
    if x.q && x.v == or { assert all[|sigs|] == x; }
    if AllGood(all) {
      forall i | 0 <= i < |sigs| ensures sigs[i].q { assert all[i] == sigs[i]; }
      assert all[|sigs|] == x;
    }
  }

  /** With at least one bit input the stored signal is the three-valued OR or AND of the inputs. */
  lemma GateIsKleene(or: bool, sigs: seq<Signal>, t: bool)
    requires sigs != []
    ensures TruthOf(GateResult(or, sigs, t)) == KleeneAll(or, sigs)
  {
    KleeneAllIs(or, sigs);
    if !Dominated(or, sigs) && AllGood(sigs) {
      assert sigs[|sigs| - 1].q;
    }
  }

  /* ---- the code computes it ---- */

  /** The state of the search after some inputs. */
  ghost predicate Searched(p: Pass, s: State, or: bool, sigs: seq<Signal>, t: bool, store: Label) {
    && OnlyChanged(s, p.s, {})
    && if Dominated(or, sigs) then p.mode == Seeking(store) && p.s.t == or
       else p.mode == Running && p.s.GetBit(Tmp, 0) == AllGood(sigs) && p.s.t == GateResult(or, sigs, t).v
  }

  lemma {:induction false} InputRuns(or: bool, x: BitVar, store: Label, s: State)
    requires x.Valid()
    ensures Exec(InputCode(or, x, store), Pass(Running, s)) ==
      if !Read(s, x).q then Pass(Running, s.(t := false).PutBit(Tmp, 0, false))
      else Pass(if Read(s, x).v == or then Seeking(store) else Running, s.(t := Read(s, x).v))
  {
    hide Exec;
    var cond := if or then TSet else TClear;
    var p0 := Pass(Running, s);
    if x.quality {
      var head := [Bst(x.Reg(), x.QBit()), Over(TSet, 2), Bld(Tmp, 0), Over(Always, 2)];
      ExecAppend(head, [Bst(x.Reg(), x.bit), Br(cond, store)], p0);
      Exec4(Bst(x.Reg(), x.QBit()), Over(TSet, 2), Bld(Tmp, 0), Over(Always, 2), p0);
      Exec2(Bst(x.Reg(), x.bit), Br(cond, store), Exec(head, p0));
    } else {
      assert InputCode(or, x, store) == [Bst(x.Reg(), x.bit), Br(cond, store)];
      Exec2(Bst(x.Reg(), x.bit), Br(cond, store), p0);
    }
  }

  lemma NothingSearched(or: bool, s: State, store: Label)
    requires s.GetBit(Tmp, 0)
    ensures Searched(Pass(Running, s), s, or, [], s.t, store)
  {
  }

  /** One more input. */
  lemma {:induction false} InputSearched(or: bool, x: BitVar, store: Label, s: State, p: Pass, sigs: seq<Signal>)
    requires x.Valid() && Searched(p, s, or, sigs, s.t, store)
    ensures Searched(Exec(InputCode(or, x, store), p), s, or, sigs + [Read(s, x)], s.t, store)
  {
    hide Exec, Do, Dominated, AllGood;
    assert Read(p.s, x) == Read(s, x);
    DominatedAppend(or, sigs, Read(s, x));
    if p.mode == Running {
      InputRuns(or, x, store, p.s);
    } else {
      ExecSeeking(InputCode(or, x, store), store, p.s);
    }
  }

  lemma {:induction false} InputsRun(or: bool, slots: seq<Slot>, store: Label, s: State)
    requires ValidSlots(slots) && s.GetBit(Tmp, 0)
    ensures Searched(Exec(InputsCode(or, slots, store), Pass(Running, s)), s, or, Signals(s, slots), s.t, store)
  {
    hide Exec, Do, InputCode, Searched, Read;
    if slots == [] {
      ExecNil(Pass(Running, s));
      NothingSearched(or, s, store);
    } else {
      var n := |slots| - 1;
      InputsRun(or, slots[..n], store, s);
      var front := InputsCode(or, slots[..n], store);
      if slots[n].BitIn? {
        var x := slots[n].x;
        ExecAppend(front, InputCode(or, x, store), Pass(Running, s));
        assert Signals(s, slots) == Signals(s, slots[..n]) + [Read(s, x)];
        InputSearched(or, x, store, s, Exec(front, Pass(Running, s)), Signals(s, slots[..n]));
      } else {
        assert InputsCode(or, slots, store) == front && Signals(s, slots) == Signals(s, slots[..n]);
      }
    }
  }

  lemma GateStartRuns(s: State)
    ensures var p := Exec(GateStart(), Pass(Running, s));
      p.mode == Running && p.s.GetBit(Tmp, 0) && p.s.t == s.t && OnlyChanged(s, p.s, {})
  {
    Exec2(Alu(Clr(Tmp)), Alu(Inc(Tmp)), Pass(Running, s));
    var s1 := s.PutZ(Tmp, ZERO);
    assert s.Compute(Clr(Tmp)) == s1;
    IncOfZero(s1);
  }

  lemma IncOfZero(s: State)
    requires s.Get(Tmp) == ZERO
    ensures s.Compute(Inc(Tmp)).GetBit(Tmp, 0)
  {
    ZeroValue();
    BitZero(1);
  }

  lemma DominatedEndRuns(id: nat, or: bool, out: BitVar, s: State)
    ensures s.t == or ==>
      Exec(DominatedEnd(id, or, out), Pass(Seeking(StoreLabel(id, or)), s)) ==
        Pass(Running, Write(s, out, Signal(or, true)).(t := true))
    ensures Exec(DominatedEnd(id, or, out), Pass(Seeking(Label(id, End)), s)) == Pass(Running, s)
  {
    DominatedEndUnrolled(id, or, out, Pass(Seeking(StoreLabel(id, or)), s));
    DominatedEndUnrolled(id, or, out, Pass(Seeking(Label(id, End)), s));
  }

  lemma DominatedEndUnrolled(id: nat, or: bool, out: BitVar, p: Pass)
    ensures Exec(DominatedEnd(id, or, out), p) ==
      var p2 := Do(Bld(out.Reg(), out.bit), Do(Lab(StoreLabel(id, or)), p));
      Do(Lab(Label(id, End)), Do(Bld(out.Reg(), out.QBit()), if or then p2 else Do(Set, p2)))
  {
    var end, store := Lab(Label(id, End)), Lab(StoreLabel(id, or));
    if or {
      Exec4(store, Bld(out.Reg(), out.bit), Bld(out.Reg(), out.QBit()), end, p);
    } else {
      ExecAppend([store, Bld(out.Reg(), out.bit)], [Set, Bld(out.Reg(), out.QBit()), end], p);
      Exec2(store, Bld(out.Reg(), out.bit), p);
      Exec3(Set, Bld(out.Reg(), out.QBit()), end, Exec([store, Bld(out.Reg(), out.bit)], p));
    }
  }

  lemma GateEndRuns(id: nat, or: bool, out: BitVar, s: State)
    ensures Exec(GateEnd(id, or, out), Pass(Running, s)) ==
      Pass(Running, Write(s, out, Signal(s.t, s.GetBit(Tmp, 0))).(t := s.GetBit(Tmp, 0)))
    ensures s.t == or ==>
      Exec(GateEnd(id, or, out), Pass(Seeking(StoreLabel(id, or)), s)) ==
        Pass(Running, Write(s, out, Signal(or, true)).(t := true))
  {
    var p, p' := Pass(Running, s), Pass(Seeking(StoreLabel(id, or)), s);
    NormalEndRuns(id, or, out, s);
    ExecAppend(NormalEnd(id, out), DominatedEnd(id, or, out), p);
    ExecAppend(NormalEnd(id, out), DominatedEnd(id, or, out), p');
    DominatedEndRuns(id, or, out, Exec(NormalEnd(id, out), p).s);
    DominatedEndRuns(id, or, out, s);
  }

  lemma {:induction false} NormalEndRuns(id: nat, or: bool, out: BitVar, s: State)
    ensures Exec(NormalEnd(id, out), Pass(Running, s)) ==
      Pass(Seeking(Label(id, End)), Write(s, out, Signal(s.t, s.GetBit(Tmp, 0))).(t := s.GetBit(Tmp, 0)))
    ensures Exec(NormalEnd(id, out), Pass(Seeking(StoreLabel(id, or)), s)) == Pass(Seeking(StoreLabel(id, or)), s)
  {
    hide Exec, Do;
    Exec4(Bld(out.Reg(), out.bit), Bst(Tmp, 0), Bld(out.Reg(), out.QBit()), Br(Always, Label(id, End)),
      Pass(Running, s));
    var s1 := s.PutBit(out.Reg(), out.bit, s.t);
    var s2 := s1.(t := s1.GetBit(Tmp, 0));
    RunBld(out.Reg(), out.bit, s);
    RunBst(Tmp, 0, s1);
    RunBld(out.Reg(), out.QBit(), s2);
    RunBranch(Always, Label(id, End), s2.PutBit(out.Reg(), out.QBit(), s2.t));
    ExecSeeking(NormalEnd(id, out), StoreLabel(id, or), s);
  }

  /** For every choice of inputs the code stores the result computed from their signals, whatever cells
      the variables share, and changes no other bit. */
  lemma GateYields(id: nat, or: bool, slots: seq<Slot>, out: BitVar, s: State)
    requires ValidSlots(slots) && out.Valid() && out.quality
    ensures Yields(GateCode(id, or, slots, out), s, out, GateResult(or, Signals(s, slots), s.t), out.Foot())
  {
    var store := StoreLabel(id, or);
    var p0 := Pass(Running, s);
    var p1 := Exec(GateStart(), p0);
    var p2 := Exec(InputsCode(or, slots, store), p1);
    GateStartRuns(s);
    ExecAppend(GateStart(), InputsCode(or, slots, store), p0);
    ExecAppend(GateStart() + InputsCode(or, slots, store), GateEnd(id, or, out), p0);
    InputsRun(or, slots, store, p1.s);
    SameSignals(s, p1.s, slots);
    GateEndRuns(id, or, out, p2.s);
    var val := GateResult(or, Signals(s, slots), s.t);
    WriteYields(GateCode(id, or, slots, out), s, p2.s, out, val, out.Foot(),
      if p2.mode == Running then val.q else true);
  }

  lemma {:induction false} SameSignals(s: State, s': State, slots: seq<Slot>)
    requires ValidSlots(slots) && OnlyChanged(s, s', {})
    ensures Signals(s, slots) == Signals(s', slots)
  {
    if slots != [] { SameSignals(s, s', slots[..|slots| - 1]); }
  }

  ghost predicate HasBitInput(slots: seq<Slot>) {
    exists i :: 0 <= i < |slots| && slots[i].BitIn?
  }

  lemma {:induction false} SignalsEmptyIff(s: State, slots: seq<Slot>)
    ensures Signals(s, slots) == [] <==> !HasBitInput(slots)
  {
    if slots != [] {
      var n := |slots| - 1;
      SignalsEmptyIff(s, slots[..n]);
      if HasBitInput(slots[..n]) {
        var i :| 0 <= i < n && slots[..n][i].BitIn?;
        assert slots[i].BitIn?;
      }
      if HasBitInput(slots) && !slots[n].BitIn? {
        var i :| 0 <= i < |slots| && slots[i].BitIn?;
        assert slots[..n][i].BitIn?;
      }
    }
  }

  /** In every state the stored signal is the three-valued OR or AND of the connected bit inputs. */
  ghost predicate ImplementsKleene(id: nat, or: bool, slots: seq<Slot>, out: BitVar) {
    forall s: State :: TruthOf(Read(Exec(GateCode(id, or, slots, out), Pass(Running, s)).s, out)) ==
      KleeneAll(or, Signals(s, slots))
  }

  /** The code implements the connective exactly when some bit input is connected: with byte inputs
      only, it stores whatever the T flag held before. */
  lemma ImplementsKleeneIff(id: nat, or: bool, slots: seq<Slot>, out: BitVar)
    requires ValidSlots(slots) && out.Valid() && out.quality
    ensures ImplementsKleene(id, or, slots, out) <==> HasBitInput(slots)
  {
    if HasBitInput(slots) {
      forall s: State
        ensures TruthOf(Read(Exec(GateCode(id, or, slots, out), Pass(Running, s)).s, out)) ==
          KleeneAll(or, Signals(s, slots))
      {
        GateYields(id, or, slots, out, s);
        SignalsEmptyIff(s, slots);
        GateIsKleene(or, Signals(s, slots), s.t);
      }
    } else {
      var s := State(map[], or, false, false, a => ZERO);
      GateYields(id, or, slots, out, s);
      SignalsEmptyIff(s, slots);
      assert TruthOf(Read(Exec(GateCode(id, or, slots, out), Pass(Running, s)).s, out)) == Known(or);
    }
  }
}
