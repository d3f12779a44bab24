/** From the diagram to the running code. */
module Compiler {
  import opened Options
  import opened Diagrams
  import Numbering
  import opened Schedule
  import opened Avr
  import opened Programs
  import opened Blocks
  import opened Gates
  import opened Latches
  import opened Timers
  import opened Pulses
  import opened Timetable
  import opened Encoders
  import opened Codegen
  import opened Scans
  import opened Units

  /** Generates the code of one block, none if what it needs is not connected. */
  method Generate(gen: CodeGenerator, id: nat, u: FbdBlock)
    requires u.BinaryEncoder? ==> forall i :: 0 <= i < |u.slots| ==> !u.slots[i].ByteIn?
    modifies gen
    ensures gen.code == old(gen.code) + Wired(u).Code(id)
  {
    hide GateCode, NotCode, RsCode, EdgeCode, OutCode, ScheduleCode, EncoderCode, DecoderCode, FromNat;
    hide CounterCode, DelayCode, PulseCode, Connected;
    assert gen.code + [] == gen.code;
    match u {
      case Input =>
      case Output(x, inverted, out) => if out.Some? { gen.GenerateOutput(id, x, inverted, out.value); }
      case Or(slots, out) => gen.GenerateOr(id, slots, out);
      case And(slots, out) => gen.GenerateAnd(id, slots, out);
      case Not(x, out) => gen.GenerateNot(id, x, out);
      case RsTrigger(x, r, out) => gen.GenerateRsTrigger(id, x, r, out);
      case EdgeBlock(kind, x, prev, out) =>
        match kind {
          case Rising => gen.GeneratePositiveEdge(id, x, prev, out);
          case Falling => gen.GenerateNegativeEdge(id, x, prev, out);
          case Both => gen.GenerateAnyEdge(id, x, prev, out);
        }
      case CounterBlock(x, r, prev, count) => gen.GenerateCounter(id, x, r, prev, count);
      case DelayBlock(x, out, tmr, clock, ticks) => gen.GenerateDelay(id, x, out, tmr, clock, ticks);
      case PulseBlock(x, out, prev, tmr, clock, fall, width) =>
        gen.GeneratePulse(id, x, out, prev, tmr, clock, fall, width);
      case ScheduleBlock(en, out, t) => gen.GenerateBlockSchedule(id, en, out, t);
      case BinaryEncoder(slots, addr, size) => gen.GenerateBinaryEncoder(id, slots, addr, size);
      case BinaryDecoder(x, size, outs) => gen.GenerateBinaryDecoder(id, x, size, outs);
      case Statements(ins, own, f, g) => gen.GenerateText(f);
    }
  }

  /** Every block of the diagram does in the scan what it means. */
  ghost predicate AllMean(units: seq<FbdBlock>, s: State, s': State) {
    forall b :: 0 <= b < |units| ==> Means(units[b], s, s')
  }

  /** From `s` the machine runs the code to its end, and every block has done what it means. */
  ghost predicate Performs(units: seq<FbdBlock>, code: seq<Instr>, s: State) {
    exists n: nat, s' :: Leads(code, 0, s, n, |code|, s') && AllMean(units, s, s')
  }

  /** Whatever the memory holds, the compiled code runs to its end on the machine, and then every block
      of the diagram shows what it means for the values the scan ends with; nothing else has changed. */
  lemma {:induction false} CompiledCodeScans(d: Diagram, units: seq<FbdBlock>, order: seq<nat>, code: seq<Instr>,
      s: State)
    returns (n: nat, s': State)
    requires d.Valid() && Placed(d, WiredAll(units)) && Numbering.Lists(order, d.All()) && d.Sequenced(order)
    requires (forall i :: 0 <= i < |order| ==> order[i] < |units|) && code == Concat(Parts(WiredAll(units), order))
    ensures Leads(code, 0, s, n, |code|, s')
    ensures AllMean(units, s, s') && OnlyChanged(s, s', OwnedBy(WiredAll(units), order))
  {
    hide Leads, OnlyChanged, Wired, Means, Holds, OwnedBy;
    n, s' := MachineScans(d, WiredAll(units), order, s);
    forall b | 0 <= b < |units| ensures Means(units[b], s, s') {
      assert WiredAll(units)[b] == Wired(units[b]) && Holds(WiredAll(units)[b], s, s') && WiredAll(units)[b].Valid();
      HoldsMeans(units[b], s, s');
    }
  }

  /** The code of all blocks, in the order in which the diagram is translated. */
  method Compile(unit: FbdUnit, units: seq<FbdBlock>) returns (code: seq<Instr>, order: seq<nat>)
    requires unit.Valid() && unit.d.Acyclic() && |units| == unit.d.Blocks()
    requires forall u :: u in units && u.BinaryEncoder? ==> forall i :: 0 <= i < |u.slots| ==> !u.slots[i].ByteIn?
    modifies unit.executeOrder
    ensures Numbering.Lists(order, unit.d.All()) && unit.d.Sequenced(order)
    ensures forall i :: 0 <= i < |order| ==> order[i] < |units|
    ensures code == Concat(Parts(WiredAll(units), order))
    ensures Placed(unit.d, WiredAll(units)) ==> forall s: State :: Performs(units, code, s)
  {
    order := unit.Translate();
    forall i | 0 <= i < |order| ensures order[i] < |units| { assert order[i] in order; }
    ghost var blocks := WiredAll(units);
    var gen := new CodeGenerator();
    for i := 0 to |order|
      invariant fresh(gen) && gen.code == Concat(Parts(blocks, order)[..i])
    {
      assert Parts(blocks, order)[..i + 1][..i] == Parts(blocks, order)[..i];
      Generate(gen, order[i], units[order[i]]);
    }
    assert Parts(blocks, order)[..|order|] == Parts(blocks, order);
    code := gen.code;
    if Placed(unit.d, WiredAll(units)) {
      forall s: State ensures Performs(units, code, s) {
        var n, s' := CompiledCodeScans(unit.d, units, order, code, s);
      }
    }
  }
}
