/** The part of the AVR instruction set the block generators use. Operand registers stand for the
    RAM cells they are loaded from and stored to, so variables that share a cell share a register. */
module Avr {

  /** A byte, least significant bit first. */
  type Byte = s: seq<bool> | |s| == 8 witness [false, false, false, false, false, false, false, false]

  const ZERO: Byte := [false, false, false, false, false, false, false, false]

  function Pow2(n: nat): (p: nat)
    ensures p >= 1
  {
    if n == 0 then 1 else 2 * Pow2(n - 1)
  }

  /** The number whose binary digits these are. */
  function Val(bits: seq<bool>): (n: nat)
    ensures n < Pow2(|bits|)
  {
    if bits == [] then 0 else (if bits[0] then 1 else 0) + 2 * Val(bits[1..])
  }

  function Bits(n: nat, width: nat): (bits: seq<bool>)
    ensures |bits| == width
  {
    if width == 0 then [] else [n % 2 == 1] + Bits(n / 2, width - 1)
  }

  lemma {:induction false} ValBits(n: nat, width: nat)
    requires n < Pow2(width)
    ensures Val(Bits(n, width)) == n
  {
    if width > 0 {
      ValBits(n / 2, width - 1);
      assert Bits(n, width)[1..] == Bits(n / 2, width - 1);
    }
  }

  lemma {:induction false} ValInjective(a: seq<bool>, b: seq<bool>)
    requires |a| == |b| && Val(a) == Val(b)
    ensures a == b
  {
    if a != [] {
      ValInjective(a[1..], b[1..]);
      assert a == [a[0]] + a[1..] && b == [b[0]] + b[1..];
    }
  }

  function ToNat(b: Byte): (n: nat)
    ensures n < 256
  {
    assert Pow2(8) == 256 by { assert Pow2(4) == 16; }
    Val(b)
  }

  function FromNat(n: int): (b: Byte)
    ensures ToNat(b) == n % 256
  {
    assert Pow2(8) == 256 by { assert Pow2(4) == 16; }
    ValBits(n % 256, 8);
    Bits(n % 256, 8)
  }

  lemma ZeroValue()
    ensures ToNat(ZERO) == 0
  {
    assert ZERO == seq(8, i => false);
    ValZero(8);
  }

  lemma {:induction false} ValZero(n: nat)
    ensures Val(seq(n, i => false)) == 0
  {
    if n > 0 {
      ValZero(n - 1);
      assert seq(n, i => false)[1..] == seq(n - 1, i => false);
    }
  }

  lemma BitZero(n: nat)
    requires n < 256
    ensures FromNat(n)[0] == (n % 2 == 1)
  {
    assert Bits(n, 8) == [n % 2 == 1] + Bits(n / 2, 7);
  }

  function Xor(a: Byte, b: Byte): (r: Byte)
    ensures forall k :: 0 <= k < 8 ==> r[k] == (a[k] != b[k])
  {
    seq(8, k requires 0 <= k < 8 => a[k] != b[k])
  }

  function And(a: Byte, b: Byte): (r: Byte)
    ensures forall k :: 0 <= k < 8 ==> r[k] == (a[k] && b[k])
  {
    seq(8, k requires 0 <= k < 8 => a[k] && b[k])
  }

  function Not(a: Byte): (r: Byte)
    ensures forall k :: 0 <= k < 8 ==> r[k] == !a[k]
  {
    seq(8, k requires 0 <= k < 8 => !a[k])
  }

  /** The constant 1 << k. */
  function OneBit(k: nat): Byte {
    if k < 8 then ZERO[k := true] else ZERO
  }

  /** The register of an operand byte, a clobbered register, the scratch register,
      and the register that is always zero. */
  datatype Reg = Cell(addr: nat) | R(n: nat) | Tmp | Zero

  datatype Name =
    | BadQuality | StoreOne | StoreZero | Store | WriteQ | SetZero | SetGood | DoStuff | SetValue | LoadValue
    | RstNotSet | EdgeOut | EdgeOutZero | ResetCounter | SkipSetOut | SetOut | SetQuality
    | LoopSetup | Loop | LoopContinue | CopyT | BlockExit | End

  /** Labels carry the id of their block. */
  datatype Label = Label(block: nat, name: Name)

  /** Instructions that compute in registers. */
  datatype AluOp =
    | Sec | Clr(r: Reg) | Inc(r: Reg) | Dec(r: Reg) | Com(r: Reg) | Tst(r: Reg)
    | Eor(r: Reg, s: Reg) | Mov(r: Reg, s: Reg) | Sub(r: Reg, s: Reg) | Sbc(r: Reg, s: Reg) | Adc(r: Reg, s: Reg)
    | Ldi(r: Reg, k: Byte) | Andi(r: Reg, k: Byte) | Cpi(r: Reg, k: Byte) | Sbci(r: Reg, k: Byte)
    | Lds(r: Reg, addr: nat) | Ldd(r: Reg, off: nat) | AdiwZ(n: nat) | Cli | Sei

  /** When a branch is taken: RJMP, BRTS, BRTC, BREQ, BRNE, BRCS, BRCC (also spelled BRSH). */
  datatype Cond = Always | TSet | TClear | ZSet | ZClear | CSet | CClear

  datatype Instr =
    | Lab(l: Label)
    | Bst(r: Reg, b: nat) | Bld(r: Reg, b: nat) | Set | Clt
    | Alu(op: AluOp)
    | Br(cond: Cond, l: Label)   // branch to a label
    | Over(cond: Cond, n: nat)   // branch to .+2n: skips n one-word instructions
    | Cpse(r: Reg, s: Reg)
    | Text(f: State -> State)    // what the C compiler makes of some statements

  /** Registers, the flags T, C and Z, and the data memory that `lds` and `ldd` read. */
  datatype State = State(regs: map<Reg, Byte>, t: bool, c: bool, z: bool, mem: nat -> Byte) {

    function Get(r: Reg): Byte {
      if r != Zero && r in regs then regs[r] else ZERO
    }

    function Put(r: Reg, v: Byte): State {
      this.(regs := regs[r := v])
    }

    /** Puts a result and sets Z by it. */
    function PutZ(r: Reg, v: Byte): State {
      this.(regs := regs[r := v], z := v == ZERO)
    }

    function GetBit(r: Reg, b: nat): bool {
      b < 8 && Get(r)[b]
    }

    function PutBit(r: Reg, b: nat, v: bool): State {
      if b < 8 then Put(r, Get(r)[b := v]) else this
    }

    function ZAddress(): nat {
      ToNat(Get(R(30))) + 256 * ToNat(Get(R(31)))
    }

    function Carry(): nat { if c then 1 else 0 }

    function Compute(op: AluOp): State {
      match op
      case Sec => this.(c := true)
      case Clr(r) => PutZ(r, ZERO)
      case Inc(r) => PutZ(r, FromNat(ToNat(Get(r)) + 1))
      case Dec(r) => PutZ(r, FromNat(ToNat(Get(r)) - 1))
      case Com(r) => PutZ(r, Not(Get(r))).(c := true)
      case Tst(r) => this.(z := Get(r) == ZERO)
      case Eor(r, s) => PutZ(r, Xor(Get(r), Get(s)))
      case Mov(r, s) => Put(r, Get(s))
      case Sub(r, s) => PutZ(r, FromNat(ToNat(Get(r)) - ToNat(Get(s)))).(c := ToNat(Get(r)) < ToNat(Get(s)))
      case Sbc(r, s) =>
        var d := ToNat(Get(r)) - ToNat(Get(s)) - Carry();
        Put(r, FromNat(d)).(z := z && d % 256 == 0, c := d < 0)
      case Adc(r, s) =>
        var d := ToNat(Get(r)) + ToNat(Get(s)) + Carry();
        PutZ(r, FromNat(d)).(c := d > 255)
      case Ldi(r, k) => Put(r, k)
      case Andi(r, k) => PutZ(r, And(Get(r), k))
      case Cpi(r, k) => this.(z := Get(r) == k, c := ToNat(Get(r)) < ToNat(k))
      case Sbci(r, k) =>
        var d := ToNat(Get(r)) - ToNat(k) - Carry();
        Put(r, FromNat(d)).(z := z && d % 256 == 0, c := d < 0)
      case Lds(r, addr) => Put(r, mem(addr))
      case Ldd(r, off) => Put(r, mem(ZAddress() + off))
      case AdiwZ(n) =>
        var d := ZAddress() + n;
        Put(R(30), FromNat(d)).Put(R(31), FromNat(d / 256)).(z := d % 65536 == 0, c := d > 65535)
      case _ => this
    }

    /** The effect of an instruction that does not branch. */
    function Apply(i: Instr): State {
      match i
      case Bst(r, b) => this.(t := GetBit(r, b))
      case Bld(r, b) => PutBit(r, b, t)
      case Set => this.(t := true)
      case Clt => this.(t := false)
      case Alu(op) => Compute(op)
      case Text(f) => f(this)
      case _ => this
    }

    predicate Meets(cond: Cond) {
      match cond
      case Always => true
      case TSet => t
      case TClear => !t
      case ZSet => z
      case ZClear => !z
      case CSet => c
      case CClear => !c
    }

    predicate Taken(i: Instr) {
      match i
      case Br(cond, _) => Meets(cond)
      case Over(cond, _) => Meets(cond)
      case Cpse(r, s) => Get(r) == Get(s)
      case _ => false
    }
  }

  predicate IsSkip(i: Instr) {
    i.Over? || i.Cpse?
  }

  function SkipCount(i: Instr): nat
    requires IsSkip(i)
  {
    if i.Cpse? then 1 else i.n
  }

  /* ---- the machine ---- */

  /** Index of the first occurrence of a label, or the length of the program. */
  function Find(prog: seq<Instr>, l: Label): (k: nat)
    ensures k <= |prog|
    ensures k < |prog| ==> prog[k] == Lab(l)
    ensures forall j :: 0 <= j < k ==> prog[j] != Lab(l)
  {
    if prog == [] || (prog[0].Lab? && prog[0].l == l) then 0 else 1 + Find(prog[1..], l)
  }

  /** One step at program counter `pc`. */
  function Step(prog: seq<Instr>, pc: nat, s: State): (nat, State)
    requires pc < |prog|
  {
    var i := prog[pc];
    if !s.Taken(i) then (pc + 1, s.Apply(i))
    else if i.Br? then (Find(prog, i.l), s)
    else (pc + 1 + SkipCount(i), s)
  }

  /** `n` steps from `pc` lead to `pc'` and `s'`. */
  ghost predicate Leads(prog: seq<Instr>, pc: nat, s: State, n: nat, pc': nat, s': State)
    decreases n
  {
    if n == 0 then pc == pc' && s == s'
    else pc < |prog| && var (pc1, s1) := Step(prog, pc, s); Leads(prog, pc1, s1, n - 1, pc', s')
  }

  /* ---- one pass over a program that only jumps forward ---- */

  datatype Mode = Running | Seeking(l: Label) | Skipping(n: nat)

  /** `n` more instructions are to be skipped. */
  function Skip(n: int): Mode { if n <= 0 then Running else Skipping(n) }

  datatype Pass = Pass(mode: Mode, s: State)

  /** Passes one instruction: executes it, or looks whether the jump target or the end of the skip is reached. */
  function Do(i: Instr, p: Pass): Pass
  {
    match p.mode
    case Seeking(l) => if i.Lab? && i.l == l then Pass(Running, p.s) else p
    case Skipping(n) => Pass(Skip(n - 1), p.s)
    case Running =>
      if !p.s.Taken(i) then Pass(Running, p.s.Apply(i))
      else if i.Br? then Pass(Seeking(i.l), p.s)
      else Pass(Skip(SkipCount(i)), p.s)
  }

  function Exec(code: seq<Instr>, p: Pass): Pass
  {
    if code == [] then p else Exec(code[1..], Do(code[0], p))
  }

  lemma {:induction false} ExecAppend(a: seq<Instr>, b: seq<Instr>, p: Pass)
    ensures Exec(a + b, p) == Exec(b, Exec(a, p))
  {
    if a == [] {
      assert a + b == b;
    } else {
      ExecAppend(a[1..], b, Do(a[0], p));
      assert (a + b)[1..] == a[1..] + b;
    }
  }

  /** A pass that is looking for a label leaves code without that label unchanged. */
  lemma {:induction false} ExecSeeking(code: seq<Instr>, l: Label, s: State)
    requires Lab(l) !in code
    ensures Exec(code, Pass(Seeking(l), s)) == Pass(Seeking(l), s)
  {
    if code != [] { ExecSeeking(code[1..], l, s); }
  }

  lemma RunAlu(op: AluOp, s: State)
    ensures Do(Alu(op), Pass(Running, s)) == Pass(Running, s.Compute(op))
  {
  }

  lemma RunBranch(cond: Cond, l: Label, s: State)
    ensures Do(Br(cond, l), Pass(Running, s)) == Pass(if s.Meets(cond) then Seeking(l) else Running, s)
  {
  }

  lemma RunPast(i: Instr, l: Label, s: State)
    requires i != Lab(l)
    ensures Do(i, Pass(Seeking(l), s)) == Pass(Seeking(l), s)
  {
  }

  lemma RunFound(l: Label, s: State)
    ensures Do(Lab(l), Pass(Seeking(l), s)) == Pass(Running, s)
  {
  }

  /** A label ends the search for it and does nothing else. */
  lemma RunLabel(l: Label, p: Pass)
    requires p.mode == Running || p.mode == Seeking(l)
    ensures Do(Lab(l), p) == Pass(Running, p.s)
  {
  }

  lemma RunBld(r: Reg, b: nat, s: State)
    ensures Do(Bld(r, b), Pass(Running, s)) == Pass(Running, s.PutBit(r, b, s.t))
  {
  }

  lemma RunBst(r: Reg, b: nat, s: State)
    ensures Do(Bst(r, b), Pass(Running, s)) == Pass(Running, s.(t := s.GetBit(r, b)))
  {
  }

  lemma RunClt(s: State)
    ensures Do(Clt, Pass(Running, s)) == Pass(Running, s.(t := false))
  {
  }

  lemma ExecNil(p: Pass)
    ensures Exec([], p) == p
  {
  }

  lemma Exec1(a: Instr, p: Pass)
    ensures Exec([a], p) == Do(a, p)
  {
  }

  lemma Exec2(a: Instr, b: Instr, p: Pass)
    ensures Exec([a, b], p) == Do(b, Do(a, p))
  {
    assert [a, b] == [a] + [b];
    ExecAppend([a], [b], p);
  }

  lemma Exec3(a: Instr, b: Instr, c: Instr, p: Pass)
    ensures Exec([a, b, c], p) == Do(c, Do(b, Do(a, p)))
  {
    assert [a, b, c] == [a] + [b, c];
    ExecAppend([a], [b, c], p);
    Exec2(b, c, Do(a, p));
  }

  lemma Exec4(a: Instr, b: Instr, c: Instr, d: Instr, p: Pass)
    ensures Exec([a, b, c, d], p) == Do(d, Do(c, Do(b, Do(a, p))))
  {
    assert [a, b, c, d] == [a, b] + [c, d];
    ExecAppend([a, b], [c, d], p);
    Exec2(a, b, p);
    Exec2(c, d, Do(b, Do(a, p)));
  }

  /* ---- the two agree ---- */

  predicate OneWord(i: Instr) {
    !i.Lab? && !i.Text? && !(i.Alu? && i.op.Lds?)
  }

  /** Every jump goes to a label further on, and every skip passes over that many one-word
      instructions of the program. */
  ghost predicate Forward(prog: seq<Instr>) {
    forall k {:trigger ForwardAt(prog, k)} :: 0 <= k < |prog| ==> ForwardAt(prog, k)
  }

  ghost predicate ForwardAt(prog: seq<Instr>, k: nat)
    requires k < |prog|
  {
    && (prog[k].Br? ==> k < Find(prog, prog[k].l) < |prog|)
    && (IsSkip(prog[k]) ==> k + SkipCount(prog[k]) < |prog| && forall j :: k < j <= k + SkipCount(prog[k]) ==>
         OneWord(prog[j]))
  }

  lemma PassOne(prog: seq<Instr>, pc: nat, p: Pass)
    requires pc < |prog|
    ensures Exec(prog[pc..], p) == Exec(prog[pc + 1..], Do(prog[pc], p))
  {
    assert prog[pc..][1..] == prog[pc + 1..];
  }

  lemma {:induction false} SkipDone(prog: seq<Instr>, pc: nat, to: nat, s: State)
    requires pc <= to && to <= |prog|
    ensures Exec(prog[pc..], Pass(Skip(to - pc), s)) == Exec(prog[to..], Pass(Running, s))
    decreases |prog| - pc
  {
    if pc < to {
      PassOne(prog, pc, Pass(Skip(to - pc), s));
      SkipDone(prog, pc + 1, to, s);
    }
  }

  lemma {:induction false} SeekDone(prog: seq<Instr>, pc: nat, l: Label, k: nat, s: State)
    requires pc <= k < |prog| && prog[k] == Lab(l)
    requires forall j :: pc <= j < k ==> prog[j] != Lab(l)
    ensures Exec(prog[pc..], Pass(Seeking(l), s)) == Exec(prog[k..], Pass(Running, s))
    decreases k - pc
  {
    PassOne(prog, pc, Pass(Seeking(l), s));
    if pc == k {
      PassOne(prog, pc, Pass(Running, s));
      assert Do(Lab(l), Pass(Running, s)) == Pass(Running, s);
    } else {
      SeekDone(prog, pc + 1, l, k, s);
    }
  }

  lemma JumpAgrees(prog: seq<Instr>, pc: nat, s: State)
    requires pc < |prog| && s.Taken(prog[pc]) && prog[pc].Br? && pc < Find(prog, prog[pc].l) < |prog|
    ensures Exec(prog[pc..], Pass(Running, s)) == Exec(prog[Find(prog, prog[pc].l)..], Pass(Running, s))
  {
    PassOne(prog, pc, Pass(Running, s));
    SeekDone(prog, pc + 1, prog[pc].l, Find(prog, prog[pc].l), s);
  }

  lemma SkipAgrees(prog: seq<Instr>, pc: nat, to: nat, s: State)
    requires pc < to <= |prog|
    requires Do(prog[pc], Pass(Running, s)) == Pass(Skip(to - pc - 1), s)
    ensures Exec(prog[pc..], Pass(Running, s)) == Exec(prog[to..], Pass(Running, s))
  {
    PassOne(prog, pc, Pass(Running, s));
    SkipDone(prog, pc + 1, to, s);
  }

  lemma LeadsStep(prog: seq<Instr>, pc: nat, s: State, n: nat, pc': nat, s': State)
    requires pc < |prog|
    requires var (pc1, s1) := Step(prog, pc, s); Leads(prog, pc1, s1, n, pc', s')
    ensures Leads(prog, pc, s, n + 1, pc', s')
  {
  }

  /** Where a pass that stopped before `stop` continues. */
  function Target(prog: seq<Instr>, stop: nat, mode: Mode): nat {
    match mode
    case Running => stop
    case Seeking(l) => Find(prog, l)
    case Skipping(n) => stop + n
  }

  lemma {:induction false} FindIn(prog: seq<Instr>, l: Label, stop: nat)
    requires stop <= |prog|
    ensures Find(prog[..stop], l) == if Find(prog, l) < stop then Find(prog, l) else stop
  {
    var k := Find(prog, l);
    var k' := Find(prog[..stop], l);
    if k < stop { assert prog[..stop][k] == Lab(l); }
    if k' < stop { assert prog[k'] == Lab(l); }
  }

  lemma {:induction false} StillSkipping(code: seq<Instr>, n: nat, s: State)
    requires |code| <= n
    ensures Exec(code, Pass(Skip(n), s)) == Pass(Skip(n - |code|), s)
  {
    if code != [] { StillSkipping(code[1..], n - 1, s); }
  }

  /** A jump to or beyond `stop`. */
  lemma StepOut(prog: seq<Instr>, pc: nat, stop: nat, s: State)
    requires pc < stop <= |prog| && ForwardAt(prog, pc) && s.Taken(prog[pc]) && stop <= Step(prog, pc, s).0
    ensures var p := Exec(prog[..stop][pc..], Pass(Running, s));
      p.s == s && Step(prog, pc, s) == (Target(prog, stop, p.mode), s)
  {
    PassOne(prog[..stop], pc, Pass(Running, s));
    var i, rest := prog[pc], prog[..stop][pc + 1..];
    if i.Br? {
      assert forall j :: 0 <= j < |rest| ==> rest[j] == prog[pc + 1 + j];
      ExecSeeking(rest, i.l, s);
    } else {
      StillSkipping(rest, SkipCount(i), s);
    }
  }

  lemma StepIn(prog: seq<Instr>, pc: nat, stop: nat, s: State)
    requires pc < stop <= |prog| && ForwardAt(prog, pc)
    requires Step(prog, pc, s).0 <= stop && (s.Taken(prog[pc]) && prog[pc].Br? ==> Step(prog, pc, s).0 < stop)
    ensures pc < Step(prog, pc, s).0 <= stop
    ensures Exec(prog[..stop][pc..], Pass(Running, s)) ==
      Exec(prog[..stop][Step(prog, pc, s).0..], Pass(Running, Step(prog, pc, s).1))
  {
    var front := prog[..stop];
    if !s.Taken(prog[pc]) {
      PassOne(front, pc, Pass(Running, s));
    } else if prog[pc].Br? {
      FindIn(prog, prog[pc].l, stop);
      JumpAgrees(front, pc, s);
    } else {
      SkipAgrees(front, pc, pc + 1 + SkipCount(prog[pc]), s);
    }
  }

  /** From `pc` the machine comes to where one pass over the code up to `stop` ends: at `stop`, behind
      the instructions that are still to be skipped, or at the label that is still looked for. */
  lemma {:induction false} MachineRunsTo(prog: seq<Instr>, pc: nat, stop: nat, s: State)
    returns (n: nat)
    requires pc <= stop <= |prog| && forall k :: pc <= k < stop ==> ForwardAt(prog, k)
    ensures var p := Exec(prog[..stop][pc..], Pass(Running, s)); Leads(prog, pc, s, n, Target(prog, stop, p.mode), p.s)
    decreases stop - pc
  {
    if pc == stop {
      assert prog[..stop][pc..] == [];
      return 0;
    }
    var (next, s') := Step(prog, pc, s);
    if s.Taken(prog[pc]) && stop <= next {
      StepOut(prog, pc, stop, s);
      assert Leads(prog, next, s', 0, next, s');
      n := 1;
    } else {
      StepIn(prog, pc, stop, s);
      n := MachineRunsTo(prog, next, stop, s');
      var p := Exec(prog[..stop][next..], Pass(Running, s'));
      LeadsStep(prog, pc, s, n, Target(prog, stop, p.mode), p.s);
      n := n + 1;
    }
  }

  /** Code that only jumps forward within itself is left at its end, in the state one pass computes. */
  lemma MachineRunsPass(prog: seq<Instr>, s: State)
    returns (n: nat)
    requires Forward(prog)
    ensures var p := Exec(prog, Pass(Running, s)); p.mode == Running && Leads(prog, 0, s, n, |prog|, p.s)
  {
    forall k | 0 <= k < |prog| ensures ForwardAt(prog, k) {}
    n := MachineRunsTo(prog, 0, |prog|, s);
    assert prog[..|prog|][0..] == prog;
    EndsRunning(prog, 0, s);
  }

  lemma {:induction false} EndsRunning(prog: seq<Instr>, pc: nat, s: State)
    requires Forward(prog) && pc <= |prog|
    ensures Exec(prog[pc..], Pass(Running, s)).mode == Running
    decreases |prog| - pc
  {
    if pc < |prog| {
      assert ForwardAt(prog, pc);
      StepIn(prog, pc, |prog|, s);
      assert prog[..|prog|] == prog;
      EndsRunning(prog, Step(prog, pc, s).0, Step(prog, pc, s).1);
    }
  }

  lemma {:induction false} LeadsTrans(prog: seq<Instr>, pc: nat, s: State, n: nat, pc1: nat, s1: State, m: nat,
      pc2: nat, s2: State)
    requires Leads(prog, pc, s, n, pc1, s1) && Leads(prog, pc1, s1, m, pc2, s2)
    ensures Leads(prog, pc, s, n + m, pc2, s2)
    decreases n
  {
    if n > 0 {
      var (pc', s') := Step(prog, pc, s);
      LeadsTrans(prog, pc', s', n - 1, pc1, s1, m, pc2, s2);
    }
  }

  /** The machine comes to the end of a program in one state only. */
  lemma {:induction false} LeadsUnique(prog: seq<Instr>, pc: nat, s: State, n: nat, s1: State, m: nat, s2: State)
    requires Leads(prog, pc, s, n, |prog|, s1) && Leads(prog, pc, s, m, |prog|, s2)
    ensures n == m && s1 == s2
    decreases n
  {
    if n > 0 {
      var (pc', s') := Step(prog, pc, s);
      LeadsUnique(prog, pc', s', n - 1, s1, m - 1, s2);
    }
  }
}
