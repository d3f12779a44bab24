/** Operands of an assembler block: their names in the text become the numbers of the C expressions. */
module Operands {
  import opened Options

  datatype Kind = R | W | RW

  /** What the block needs to know of a variable: its cell, whether it is a bit, whether it has a
      quality, and the C expression it is declared as. */
  datatype Var = Var(addr: nat, isBit: bool, quality: bool, decl: string)

  /** A C expression that the assembler may use, and how. */
  datatype CExpr = CExpr(constraint: string, c: string)

  datatype Operand = Operand(kind: Kind, name: string, v: Option<Var>) {
    /** A variable of its own bytes has its quality in a byte of its own. */
    predicate QualityByte() { v.Some? && !v.value.isBit && v.value.quality }

    function CName(): string
      requires name != ""
    {
      if v.None? then name[1..] else v.value.decl
    }

    predicate IsOutput() { kind != R }
  }

  /* ---- the text of a block, as pieces ---- */

  /** Plain text, a name that starts with a dollar sign, or an operand number with what is left behind it. */
  datatype Piece = Text(s: string) | Name(t: string) | Number(n: nat, rest: string)

  predicate IsWordChar(c: char) {
    ('a' <= c <= 'z') || ('A' <= c <= 'Z') || ('0' <= c <= '9') || c == '_'
  }

  predicate IsName(t: string) {
    |t| > 1 && t[0] == '$' && forall i :: 0 < i < |t| ==> IsWordChar(t[i])
  }

  predicate NoDollar(s: string) {
    forall i :: 0 <= i < |s| ==> s[i] != '$'
  }

  predicate PieceOk(p: Piece) {
    match p
    case Text(s) => NoDollar(s)
    case Name(t) => IsName(t)
    case Number(_, rest) => NoDollar(rest)
  }

  /** Names are as long as they can be: what follows a name is text that starts with something else. */
  ghost predicate BodyOk(ps: seq<Piece>) {
    && (forall i :: 0 <= i < |ps| ==> PieceOk(ps[i]))
    && (forall i :: 0 <= i < |ps| - 1 && ps[i].Name? ==>
         ps[i + 1].Text? && ps[i + 1].s != "" && !IsWordChar(ps[i + 1].s[0]))
  }

  function Digits(n: nat): (s: string)
    ensures NoDollar(s)
  {
    var d := [('0' as int + n % 10) as char];
    if n < 10 then d else Digits(n / 10) + d
  }

  function Shown(p: Piece): string {
    match p
    case Text(s) => s
    case Name(t) => t
    case Number(n, rest) => "%" + Digits(n) + rest
  }

  function Render(ps: seq<Piece>): string {
    if ps == [] then "" else Shown(ps[0]) + Render(ps[1..])
  }

  /** Replaces every occurrence of a name, from left to right. */
  function ReplaceInString(s: string, name: string, op: string): string
    requires name != ""
  {
    if s == "" then ""
    else if name <= s then op + ReplaceInString(s[|name|..], name, op)
    else [s[0]] + ReplaceInString(s[1..], name, op)
  }

  /** On pieces: what starts with the name becomes the number, and keeps what is behind it. */
  function ReplaceIn(p: Piece, name: string, n: nat): Piece {
    if p.Name? && name <= p.t then Number(n, p.t[|name|..]) else p
  }

  function ReplaceAll(ps: seq<Piece>, name: string, n: nat): (r: seq<Piece>)
    ensures |r| == |ps|
  {
    seq(|ps|, i requires 0 <= i < |ps| => ReplaceIn(ps[i], name, n))
  }

  lemma {:induction false} SkipText(a: string, b: string, name: string, op: string)
    requires NoDollar(a) && IsName(name)
    ensures ReplaceInString(a + b, name, op) == a + ReplaceInString(b, name, op)
  {
    if a == "" {
      assert a + b == b;
    } else {
      assert (a + b)[1..] == a[1..] + b && (a + b)[0] == a[0];
      SkipText(a[1..], b, name, op);
      assert a == [a[0]] + a[1..];
    }
  }

  lemma NameStarts(t: string, b: string, name: string)
    requires IsName(t) && IsName(name) && (b != "" ==> !IsWordChar(b[0]))
    ensures name <= t + b <==> name <= t
  {
    var s := t + b;
    assert forall i :: 0 <= i < |t| ==> s[i] == t[i];
    if |name| > |t| && b != "" {
      assert IsWordChar(name[|t|]) && s[|t|] == b[0];
    }
  }

  lemma Regroup(a: string, b: string, c: string)
    ensures (a + b) + c == a + (b + c)
  {
  }

  /** At a name, a replacement is made or nothing is. */
  lemma {:induction false} ReplaceAtName(t: string, b: string, name: string, n: nat)
    requires IsName(t) && IsName(name) && (b != "" ==> !IsWordChar(b[0]))
    ensures ReplaceInString(t + b, name, "%" + Digits(n)) ==
      Shown(ReplaceIn(Name(t), name, n)) + ReplaceInString(b, name, "%" + Digits(n))
  {
    var op := "%" + Digits(n);
    NameStarts(t, b, name);
    if name <= t {
      assert (t + b)[|name|..] == t[|name|..] + b;
      SkipText(t[|name|..], b, name, op);
      Regroup(op, t[|name|..], ReplaceInString(b, name, op));
    } else {
      assert (t + b)[0] == t[0] && (t + b)[1..] == t[1..] + b && t == [t[0]] + t[1..];
      SkipText(t[1..], b, name, op);
      Regroup([t[0]], t[1..], ReplaceInString(b, name, op));
    }
  }

  lemma RestOk(ps: seq<Piece>)
    requires BodyOk(ps) && ps != []
    ensures BodyOk(ps[1..])
  {
    var rest := ps[1..];
    forall i | 0 <= i < |rest| - 1 && rest[i].Name?
      ensures rest[i + 1].Text? && rest[i + 1].s != "" && !IsWordChar(rest[i + 1].s[0]) {
      assert ps[i + 1] == rest[i];
    }
  }

  /** Replacing pieces is replacing in the text they stand for. */
  lemma {:induction false} ReplaceRenders(ps: seq<Piece>, name: string, n: nat)
    requires BodyOk(ps) && IsName(name)
    ensures Render(ReplaceAll(ps, name, n)) == ReplaceInString(Render(ps), name, "%" + Digits(n))
    ensures BodyOk(ReplaceAll(ps, name, n))
  {
    if ps != [] {
      hide BodyOk, IsName, Digits, ReplaceInString;
      var rest := ps[1..];
      RestOk(ps);
      ReplaceRenders(rest, name, n);
      assert ReplaceAll(ps, name, n)[1..] == ReplaceAll(rest, name, n);
      FirstRenders(ps, name, n);
    }
    ReplacedOk(ps, name, n);
  }

  lemma {:induction false} FirstRenders(ps: seq<Piece>, name: string, n: nat)
    requires BodyOk(ps) && IsName(name) && ps != []
    ensures ReplaceInString(Render(ps), name, "%" + Digits(n)) ==
      Shown(ReplaceIn(ps[0], name, n)) + ReplaceInString(Render(ps[1..]), name, "%" + Digits(n))
  {
    hide Digits, ReplaceInString;
    var p, rest := ps[0], ps[1..];
    assert PieceOk(p);
    if p.Name? {
      if rest != [] { assert Render(rest) == rest[0].s + Render(rest[1..]); }
      ReplaceAtName(p.t, Render(rest), name, n);
    } else {
      SkipText(Shown(p), Render(rest), name, "%" + Digits(n));
    }
  }

  lemma {:induction false} ReplacedOk(ps: seq<Piece>, name: string, n: nat)
    requires BodyOk(ps) && IsName(name)
    ensures BodyOk(ReplaceAll(ps, name, n))
  {
  }

  /* ---- numbering ---- */

  predicate Named(ops: seq<Operand>) {
    forall i :: 0 <= i < |ops| ==> ops[i].name != ""
  }

  /** Operands of one cell share the number of the first of them. */
  function Rep(ops: seq<Operand>, i: nat): (r: nat)
    requires i < |ops|
    ensures r <= i && (r < i ==> ops[r].v.Some? && ops[i].v.Some? && ops[r].v.value.addr == ops[i].v.value.addr)
    ensures ops[i].v.Some? ==> forall j :: 0 <= j < r ==> !SameCell(ops[j], ops[i])
  {
    if ops[i].v.None? then i else FirstOf(ops, i, 0)
  }

  predicate SameCell(a: Operand, b: Operand) {
    a.v.Some? && b.v.Some? && a.v.value.addr == b.v.value.addr
  }

  function FirstOf(ops: seq<Operand>, i: nat, from: nat): (r: nat)
    requires from <= i < |ops| && ops[i].v.Some?
    ensures from <= r <= i && SameCell(ops[r], ops[i]) && forall j :: from <= j < r ==> !SameCell(ops[j], ops[i])
    decreases i - from
  {
    if SameCell(ops[from], ops[i]) then from else FirstOf(ops, i, from + 1)
  }

  /** The C expressions in the order of their numbers: a quality byte comes behind its variable. */
  function Exprs(ops: seq<Operand>, n: nat): seq<CExpr>
    requires n <= |ops| && Named(ops)
  {
    if n == 0 then []
    else
      Exprs(ops, n - 1) + if Rep(ops, n - 1) < n - 1 then [] else ExprsOf(ops[n - 1])
  }

  /** The expression of an operand, and that of its quality byte behind it. */
  function ExprsOf(o: Operand): seq<CExpr>
    requires o.name != ""
  {
    var constraint := match o.kind case RW => "+r" case W => "w" case R => "r";
    [CExpr(constraint, o.CName())] + if o.QualityByte() then [CExpr(constraint, o.CName() + "_q")] else []
  }

  /** The number of operand `i`, if it is the first of its cell. */
  function Pos(ops: seq<Operand>, i: nat): nat
    requires i <= |ops| && Named(ops)
  {
    |Exprs(ops, i)|
  }

  /** The expression stands for the operand: for what the code changes, overwrites, or only reads. */
  predicate Stands(e: CExpr, o: Operand, ending: string)
    requires o.name != ""
  {
    && e.c == o.CName() + ending
    && (o.kind == RW ==> e.constraint == "+r") && (o.kind == W ==> e.constraint == "w")
    && (o.kind == R ==> e.constraint == "r")
  }

  /** The number of a first operand is where its expression stands, and its quality byte is the next one. */
  lemma {:induction false} ExprAt(ops: seq<Operand>, i: nat, n: nat)
    requires i < n <= |ops| && Named(ops) && Rep(ops, i) == i
    ensures Pos(ops, i) < |Exprs(ops, n)| && Stands(Exprs(ops, n)[Pos(ops, i)], ops[i], "")
    ensures ops[i].QualityByte() ==>
      Pos(ops, i) + 1 < |Exprs(ops, n)| && Stands(Exprs(ops, n)[Pos(ops, i) + 1], ops[i], "_q")
  {
    if i < n - 1 { ExprAt(ops, i, n - 1); }
  }

  /* ---- the letters of the bytes of an operand ---- */

  predicate IsByteLetter(c: char) { 'A' <= c <= 'D' }

  /** Exchanges every percent sign with a byte letter before it. */
  function Swap(s: string): (r: string)
    ensures |r| == |s|
    decreases |s|
  {
    if |s| < 2 then s
    else if s[1] == '%' && IsByteLetter(s[0]) then ['%'] + Swap([s[0]] + s[2..])
    else [s[0]] + Swap(s[1..])
  }

  method SwapLetters(body: string) returns (r: string)
    ensures r == Swap(body)
  {
    r := body;
    if body == "" { return; }
    assert r[..0] + Swap(r[0..]) == Swap(body) by { assert r[0..] == r; }
    for i := 1 to |body|
      invariant |r| == |body| && r[..i - 1] + Swap(r[i - 1..]) == Swap(body)
    {
      SwapNext(r, i);
      if r[i] == '%' && IsByteLetter(r[i - 1]) {
        r := r[i - 1 := r[i]][i := r[i - 1]];
      }
    }
    SwapEnd(r);
  }

  /** One step of the exchange. */
  lemma {:induction false} SwapNext(r: string, i: nat)
    requires 0 < i < |r|
    ensures var r' := if r[i] == '%' && IsByteLetter(r[i - 1]) then r[i - 1 := r[i]][i := r[i - 1]] else r;
      r'[..i] + Swap(r'[i..]) == r[..i - 1] + Swap(r[i - 1..])
  {
    var s := r[i - 1..];
    if r[i] == '%' && IsByteLetter(r[i - 1]) {
      var r' := r[i - 1 := r[i]][i := r[i - 1]];
      assert r'[i..] == [s[0]] + s[2..] && r'[..i] == r[..i - 1] + ['%'];
      Regroup(r[..i - 1], ['%'], Swap([s[0]] + s[2..]));
    } else {
      assert r[i..] == s[1..] && r[..i] == r[..i - 1] + [s[0]];
      Regroup(r[..i - 1], [s[0]], Swap(s[1..]));
    }
  }

  lemma SwapEnd(r: string)
    requires r != ""
    ensures r[..|r| - 1] + Swap(r[|r| - 1..]) == r
  {
    assert Swap(r[|r| - 1..]) == r[|r| - 1..];
  }

  /** A byte letter before an operand number goes behind the percent sign; other text is not changed. */
  lemma {:induction false} SwapOperand(a: string, c: char, rest: string)
    requires (forall i :: 0 <= i < |a| ==> a[i] != '%') && IsByteLetter(c) && (rest != "" ==> rest[0] != '%')
    ensures Swap(a + [c] + "%" + rest) == a + "%" + [c] + Swap(rest)
  {
    hide Swap;
    if a == "" {
      SwapTurn(c, rest);
      SwapKeep(c, rest);
      assert a + [c] + "%" + rest == [c, '%'] + rest;
    } else {
      var t := a[1..] + [c] + "%" + rest;
      assert a + [c] + "%" + rest == [a[0]] + t;
      assert t[0] != '%' by { assert t[0] == if |a| > 1 then a[1] else c; }
      SwapKeep(a[0], t);
      SwapOperand(a[1..], c, rest);
      assert [a[0]] + (a[1..] + "%" + [c] + Swap(rest)) == a + "%" + [c] + Swap(rest);
    }
  }

  lemma SwapKeep(c: char, rest: string)
    requires rest != "" && IsByteLetter(c) ==> rest[0] != '%'
    ensures Swap([c] + rest) == [c] + Swap(rest)
  {
    var s := [c] + rest;
    assert s[1..] == rest && s[0] == c;
    if rest == "" { assert Swap(rest) == ""; } else { assert s[1] == rest[0]; }
  }

  lemma SwapTurn(c: char, rest: string)
    requires IsByteLetter(c)
    ensures Swap([c, '%'] + rest) == ['%'] + Swap([c] + rest)
  {
    var s := [c, '%'] + rest;
    assert s[0] == c && s[1] == '%' && s[2..] == rest;
  }

  /* ---- what is replaced, in which order ---- */

  /** What a name stands for: an operand, or its quality byte. */
  datatype Ref = Ref(k: nat, q: bool)

  predicate InRange(ops: seq<Operand>, ss: seq<Ref>) {
    forall i :: 0 <= i < |ss| ==> ss[i].k < |ops|
  }

  function Spelled(ops: seq<Operand>, r: Ref): string
    requires r.k < |ops|
  {
    ops[r.k].name + if r.q then "_q" else ""
  }

  /** The number of the C expression; operands of one cell have that of the first of them. */
  function NumberOf(ops: seq<Operand>, r: Ref): nat
    requires r.k < |ops| && Named(ops)
  {
    Pos(ops, Rep(ops, r.k)) + if r.q then 1 else 0
  }

  /** Of the quality bytes only those of first operands are replaced. */
  predicate Replaced(ops: seq<Operand>, r: Ref) {
    r.k < |ops| && (r.q ==> ops[r.k].QualityByte() && Rep(ops, r.k) == r.k)
  }

  /** The first operand of a cell, after its quality byte. */
  function Own(ops: seq<Operand>, i: nat): seq<Ref>
    requires i < |ops|
  {
    (if ops[i].QualityByte() then [Ref(i, true)] else []) + [Ref(i, false)]
  }

  /** The operands up to `j` of the same cell. */
  function Others(ops: seq<Operand>, i: nat, j: nat): (ss: seq<Ref>)
    requires i < j <= |ops|
    ensures InRange(ops, ss)
  {
    if j == i + 1 then [] else Others(ops, i, j - 1) + if Rep(ops, j - 1) == i then [Ref(j - 1, false)] else []
  }

  /** The replacements for the cells of the first `n` operands. */
  function Steps(ops: seq<Operand>, n: nat): (ss: seq<Ref>)
    requires n <= |ops|
    ensures InRange(ops, ss)
  {
    if n == 0 then []
    else Steps(ops, n - 1) + if Rep(ops, n - 1) < n - 1 then [] else Own(ops, n - 1) + Others(ops, n - 1, |ops|)
  }

  /** One replacement after the other. */
  function ReplaceStrings(ops: seq<Operand>, s: string, ss: seq<Ref>): string
    requires Named(ops) && InRange(ops, ss)
  {
    if ss == [] then s
    else
      var r := ss[|ss| - 1];
      ReplaceInString(ReplaceStrings(ops, s, ss[..|ss| - 1]), Spelled(ops, r), "%" + Digits(NumberOf(ops, r)))
  }

  lemma ReplaceMore(ops: seq<Operand>, s: string, ss: seq<Ref>, r: Ref)
    requires Named(ops) && InRange(ops, ss) && r.k < |ops|
    ensures InRange(ops, ss + [r])
    ensures ReplaceStrings(ops, s, ss + [r]) ==
      ReplaceInString(ReplaceStrings(ops, s, ss), Spelled(ops, r), "%" + Digits(NumberOf(ops, r)))
  {
    assert (ss + [r])[..|ss|] == ss;
  }

  lemma RepOfCell(ops: seq<Operand>, i: nat, j: nat)
    requires i < j < |ops| && Rep(ops, i) == i && Rep(ops, j) >= i
    ensures SameCell(ops[i], ops[j]) <==> Rep(ops, j) == i
  {
  }

  lemma Alone(ops: seq<Operand>, i: nat, j: nat)
    requires i < j <= |ops| && ops[i].v.None?
    ensures Others(ops, i, j) == []
  {
  }

  /** Exactly the references that are replaced occur, in the order of their cells' first operands, then
      of the operands themselves, the quality byte first. */
  predicate Before(ops: seq<Operand>, a: Ref, b: Ref)
    requires a.k < |ops| && b.k < |ops|
  {
    var i, j := Rep(ops, a.k), Rep(ops, b.k);
    i < j || (i == j && (a.k < b.k || (a.k == b.k && a.q && !b.q)))
  }

  ghost predicate Ordered(ops: seq<Operand>, ss: seq<Ref>)
    requires InRange(ops, ss)
  {
    forall a, b :: 0 <= a < b < |ss| ==> Before(ops, ss[a], ss[b])
  }

  lemma OrderedAppend(ops: seq<Operand>, a: seq<Ref>, b: seq<Ref>)
    requires InRange(ops, a) && InRange(ops, b) && Ordered(ops, a) && Ordered(ops, b)
    requires forall x, y :: x in a && y in b ==> x.k < |ops| && y.k < |ops| && Before(ops, x, y)
    ensures InRange(ops, a + b) && Ordered(ops, a + b)
  {
    var ab := a + b;
    forall i, j | 0 <= i < j < |ab| ensures Before(ops, ab[i], ab[j]) {
      if i < |a| && j >= |a| { assert ab[i] in a && ab[j] in b; }
    }
  }

  lemma OrderedShort(ops: seq<Operand>, ss: seq<Ref>)
    requires InRange(ops, ss) && |ss| <= 1
    ensures Ordered(ops, ss)
  {
  }

  lemma {:induction false} OthersAre(ops: seq<Operand>, i: nat, j: nat)
    requires i < j <= |ops| && Rep(ops, i) == i
    ensures forall r :: r in Others(ops, i, j) <==> !r.q && i < r.k < j && Rep(ops, r.k) == i
  {
    hide Rep;
    if j > i + 1 {
      OthersAre(ops, i, j - 1);
      var front, last := Others(ops, i, j - 1), Ref(j - 1, false);
      assert forall r :: r in front + [last] <==> r in front || r == last;
      assert Others(ops, i, j) == if Rep(ops, j - 1) == i then front + [last] else front;
    }
  }

  lemma {:induction false} OthersOrdered(ops: seq<Operand>, i: nat, j: nat)
    requires i < j <= |ops| && Rep(ops, i) == i
    ensures Ordered(ops, Others(ops, i, j))
  {
    hide Rep, Before, Others, Ordered;
    if j > i + 1 {
      OthersOrdered(ops, i, j - 1);
      OthersNext(ops, i, j);
      if Rep(ops, j - 1) == i { LastBehind(ops, i, j); }
      assert Others(ops, i, j - 1) + [] == Others(ops, i, j - 1);
    } else {
      OthersNone(ops, i, j);
    }
  }

  lemma {:induction false} LastBehind(ops: seq<Operand>, i: nat, j: nat)
    requires i + 1 < j <= |ops| && Rep(ops, i) == i == Rep(ops, j - 1) && Ordered(ops, Others(ops, i, j - 1))
    ensures Ordered(ops, Others(ops, i, j - 1) + [Ref(j - 1, false)])
  {
    hide Rep, Others, Ordered;
    OthersAre(ops, i, j - 1);
    OrderedShort(ops, [Ref(j - 1, false)]);
    OrderedAppend(ops, Others(ops, i, j - 1), [Ref(j - 1, false)]);
  }

  lemma OthersNone(ops: seq<Operand>, i: nat, j: nat)
    requires i < j <= |ops| && j <= i + 1
    ensures Others(ops, i, j) == [] && Ordered(ops, Others(ops, i, j))
  {
  }

  lemma OthersNext(ops: seq<Operand>, i: nat, j: nat)
    requires i + 1 < j <= |ops|
    ensures Others(ops, i, j) == Others(ops, i, j - 1) + if Rep(ops, j - 1) == i then [Ref(j - 1, false)] else []
  {
  }

  lemma {:induction false} OfCell(ops: seq<Operand>, i: nat)
    requires i < |ops| && Rep(ops, i) == i
    ensures var ss := Own(ops, i) + Others(ops, i, |ops|);
      InRange(ops, ss) && Ordered(ops, ss) && forall r :: r in ss <==> Replaced(ops, r) && Rep(ops, r.k) == i
  {
    OthersAre(ops, i, |ops|);
    OthersOrdered(ops, i, |ops|);
    hide Others;
    OrderedAppend(ops, Own(ops, i), Others(ops, i, |ops|));
  }

  lemma {:induction false} StepsAre(ops: seq<Operand>, n: nat)
    requires n <= |ops|
    ensures Ordered(ops, Steps(ops, n)) && forall r :: r in Steps(ops, n) <==> Replaced(ops, r) && Rep(ops, r.k) < n
  {
    if n > 0 {
      hide Own, Others, Ordered, Rep;
      StepsAre(ops, n - 1);
      RepOfRep(ops, n - 1);
      if Rep(ops, n - 1) == n - 1 {
        OfCell(ops, n - 1);
        OrderedAppend(ops, Steps(ops, n - 1), Own(ops, n - 1) + Others(ops, n - 1, |ops|));
      } else {
        assert Steps(ops, n) == Steps(ops, n - 1);
        forall r | Replaced(ops, r) ensures Rep(ops, r.k) != n - 1 { RepOfRep(ops, r.k); }
      }
    }
  }

  lemma RepOfRep(ops: seq<Operand>, i: nat)
    requires i < |ops|
    ensures Rep(ops, i) <= i && Rep(ops, Rep(ops, i)) == Rep(ops, i)
  {
    var r := Rep(ops, i);
    if r < i && Rep(ops, r) < r { assert SameCell(ops[Rep(ops, r)], ops[i]); }
  }

  /** Operands of one cell get one number. */
  lemma SameCellSameNumber(ops: seq<Operand>, i: nat, j: nat)
    requires i < |ops| && j < |ops| && SameCell(ops[i], ops[j])
    ensures Rep(ops, i) == Rep(ops, j)
  {
    var a, b := Rep(ops, i), Rep(ops, j);
    if a < b { assert SameCell(ops[a], ops[j]); }
    if b < a { assert SameCell(ops[b], ops[i]); }
  }

  /** The number is the place of the expression of the first operand of the cell; behind it stands that
      of its quality byte. */
  lemma NumberedIs(ops: seq<Operand>, r: Ref)
    requires Named(ops) && Replaced(ops, r)
    ensures var f, n, es := Rep(ops, r.k), NumberOf(ops, r), Exprs(ops, |ops|);
      n < |es| && ops[f].name != "" && Stands(es[n], ops[f], if r.q then "_q" else "")
  {
    RepOfRep(ops, r.k);
    ExprAt(ops, Rep(ops, r.k), |ops|);
  }

  /** The operand's expression is among the first `n`, the outputs, exactly when the operand is one; and so is
      that of its quality byte. */
  predicate Parted(ops: seq<Operand>, i: nat, n: nat)
    requires i < |ops| && Named(ops)
  {
    (ops[i].IsOutput() <==> Pos(ops, i) < n) && (ops[i].QualityByte() ==> (ops[i].IsOutput() <==> Pos(ops, i) + 1 < n))
  }

  lemma {:induction false} PosBelow(ops: seq<Operand>, j: nat, i: nat)
    requires j < i <= |ops| && Named(ops) && Rep(ops, j) == j
    ensures Pos(ops, j) + (if ops[j].QualityByte() then 2 else 1) <= Pos(ops, i)
  {
    ExprsNext(ops, i - 1);
    if j < i - 1 { PosBelow(ops, j, i - 1); }
  }

  /** An output is listed while there are no inputs, and an input leaves the outputs as they are. */
  lemma {:induction false} StillParted(ops: seq<Operand>, i: nat, before: nat, after: nat)
    requires i < |ops| && Named(ops) && Rep(ops, i) == i && before <= Pos(ops, i)
    requires forall j :: 0 <= j < i && Rep(ops, j) == j ==> Parted(ops, j, before)
    requires ops[i].IsOutput() ==> before == Pos(ops, i)
    requires after == before + if ops[i].IsOutput() then if ops[i].QualityByte() then 2 else 1 else 0
    ensures forall j :: 0 <= j <= i && Rep(ops, j) == j ==> Parted(ops, j, after)
  {
    hide Rep, Pos;
    forall j | 0 <= j <= i && Rep(ops, j) == j ensures Parted(ops, j, after) {
      if j < i { PosBelow(ops, j, i); }
    }
  }

  /* ---- the block ---- */

  class OperandList {
    /** Outputs come first. */
    var ops: seq<Operand>

    constructor ()
      ensures ops == []
    {
      ops := [];
    }

    ghost predicate OutputsFirst()
      reads this
    {
      forall i, j :: 0 <= i < j < |ops| && ops[j].IsOutput() ==> ops[i].IsOutput()
    }

    method AddOperand(o: Operand)
      requires OutputsFirst()
      modifies this
      ensures OutputsFirst() && ops == if o.IsOutput() then [o] + old(ops) else old(ops) + [o]
    {
      if o.IsOutput() {
        ops := [o] + ops;
      } else {
        ops := ops + [o];
      }
    }

    /** Numbers the operands and replaces their names in the text by the numbers, the names of quality
        bytes first; operands of one cell share a number. Then byte letters go behind the percent signs. */
    method Normalize(text: string) returns (body: string, outputs: seq<CExpr>, inputs: seq<CExpr>)
      requires OutputsFirst() && Named(ops)
      ensures outputs + inputs == Exprs(ops, |ops|)
      ensures forall i :: 0 <= i < |ops| && Rep(ops, i) == i ==> Parted(ops, i, |outputs|)
      ensures body == Swap(ReplaceStrings(ops, text, Steps(ops, |ops|)))
    {
      hide Exprs, Rep, ReplaceInString, ReplaceStrings, Digits, Swap, Own, Steps, Pos, Named, InRange;
      body, outputs, inputs := text, [], [];
      var tab := new bool[|ops|](_ => false);
      var pos := 0;
      NothingYet(ops, text);
      for i := 0 to |ops|
        invariant body == ReplaceStrings(ops, text, Steps(ops, i))
        invariant outputs + inputs == Exprs(ops, i) && pos == Pos(ops, i)
        invariant (i < |ops| && ops[i].IsOutput() ==> inputs == [])
        invariant forall j :: 0 <= j < i && Rep(ops, j) == j ==> Parted(ops, j, |outputs|)
        invariant forall j :: i <= j < |ops| ==> (tab[j] <==> Rep(ops, j) < i)
      {
        ExprsNext(ops, i);
        if tab[i] {
          SkipStep(ops, i);
        } else {
          var cur := ops[i];
          ghost var before := |outputs|;
          outputs, inputs := Listed(cur, outputs, inputs);
          StillParted(ops, i, before, |outputs|);
          pos, body := NumberOperand(text, body, i, pos);
          body := MergeCell(text, body, tab, i);
          pos := pos + 1;
        }
      }
      body := SwapLetters(body);
    }

    /** The C expressions of an operand, at the end of the outputs or of the inputs. */
    static method Listed(o: Operand, outputs0: seq<CExpr>, inputs0: seq<CExpr>)
      returns (outputs: seq<CExpr>, inputs: seq<CExpr>)
      requires o.name != "" && (o.IsOutput() ==> inputs0 == [])
      ensures outputs + inputs == outputs0 + inputs0 + ExprsOf(o) && (o.IsOutput() ==> inputs == [])
      ensures |outputs| == |outputs0| + if o.IsOutput() then |ExprsOf(o)| else 0
    {
      outputs, inputs := outputs0, inputs0;
      if o.IsOutput() { outputs := outputs + ExprsOf(o); } else { inputs := inputs + ExprsOf(o); }
    }

    /** Gives operand `i` the next number, and its quality byte the one behind it; returns the last one. */
    method NumberOperand(ghost text: string, body0: string, i: nat, pos: nat) returns (last: nat, body: string)
      requires Named(ops) && i < |ops| && Rep(ops, i) == i && pos == Pos(ops, i)
      requires body0 == ReplaceStrings(ops, text, Steps(ops, i))
      ensures last == pos + (if ops[i].QualityByte() then 1 else 0)
      ensures InRange(ops, Steps(ops, i) + Own(ops, i))
      ensures body == ReplaceStrings(ops, text, Steps(ops, i) + Own(ops, i))
    {
      hide Exprs, Rep, ReplaceStrings, ReplaceInString, Digits, Steps, Own, Pos;
      last, body := pos, body0;
      if ops[i].QualityByte() {
        last := pos + 1;
        body := ReplaceInString(body, ops[i].name + "_q", "%" + Digits(last));
      }
      body := ReplaceInString(body, ops[i].name, "%" + Digits(pos));
      OwnSteps(ops, text, Steps(ops, i), i);
    }

    /** Gives the later operands of the same cell the number of operand `i`. */
    method MergeCell(ghost text: string, body0: string, tab: array<bool>, i: nat) returns (body: string)
      requires Named(ops) && i < |ops| == tab.Length && Rep(ops, i) == i
      requires InRange(ops, Steps(ops, i) + Own(ops, i))
      requires body0 == ReplaceStrings(ops, text, Steps(ops, i) + Own(ops, i))
      requires forall j :: i <= j < |ops| ==> (tab[j] <==> Rep(ops, j) < i)
      modifies tab
      ensures body == ReplaceStrings(ops, text, Steps(ops, i + 1))
      ensures forall j :: i < j < |ops| ==> (tab[j] <==> Rep(ops, j) < i + 1)
    {
      hide Exprs, Rep, ReplaceStrings, ReplaceInString, Digits, Own, Others, InRange, Named, Pos;
      body := body0;
      ghost var front := Steps(ops, i) + Own(ops, i);
      assert front + Others(ops, i, i + 1) == front by { NoOther(ops, i); }
      if ops[i].v.Some? {
        for j := i + 1 to |ops|
          invariant InRange(ops, front + Others(ops, i, j))
          invariant body == ReplaceStrings(ops, text, front + Others(ops, i, j))
          invariant forall k :: i < k < j ==> (tab[k] <==> Rep(ops, k) < i + 1)
          invariant forall k :: j <= k < |ops| ==> (tab[k] <==> Rep(ops, k) < i)
        {
          ExprsNext(ops, j);
          if !tab[j] { RepOfCell(ops, i, j); }
          if Rep(ops, j) != i { NextOther(ops, i, j); }
          if !tab[j] && ops[j].v.Some? && ops[j].v.value.addr == ops[i].v.value.addr {
            tab[j] := true;
            body := ReplaceInString(body, ops[j].name, "%" + Digits(Pos(ops, i)));
            MergeStep(ops, text, front, i, j);
          }
        }
      } else {
        Alone(ops, i, |ops|);
        assert front + [] == front;
        forall j | i < j < |ops| ensures Rep(ops, j) != i { NotShared(ops, i, j); }
      }
      TakeStep(ops, i);
    }
  }

  lemma NothingYet(ops: seq<Operand>, text: string)
    requires Named(ops)
    ensures Exprs(ops, 0) == [] && Pos(ops, 0) == 0 && ReplaceStrings(ops, text, Steps(ops, 0)) == text
  {
  }

  lemma ExprsNext(ops: seq<Operand>, i: nat)
    requires i < |ops| && Named(ops)
    ensures ops[i].name != "" && Rep(ops, i) <= i && Pos(ops, i) == |Exprs(ops, i)|
    ensures Rep(ops, i) < i ==> Exprs(ops, i + 1) == Exprs(ops, i) && Pos(ops, i + 1) == Pos(ops, i)
    ensures Rep(ops, i) == i ==> Exprs(ops, i + 1) == Exprs(ops, i) + ExprsOf(ops[i])
    ensures Rep(ops, i) == i ==> Pos(ops, i + 1) == Pos(ops, i) + if ops[i].QualityByte() then 2 else 1
  {
  }

  lemma SkipStep(ops: seq<Operand>, i: nat)
    requires i < |ops| && Rep(ops, i) < i
    ensures Steps(ops, i + 1) == Steps(ops, i)
  {
  }

  lemma TakeStep(ops: seq<Operand>, i: nat)
    requires i < |ops| && Rep(ops, i) == i
    ensures Steps(ops, i + 1) == Steps(ops, i) + Own(ops, i) + Others(ops, i, |ops|)
  {
    assert Steps(ops, i) + (Own(ops, i) + Others(ops, i, |ops|)) == Steps(ops, i) + Own(ops, i) + Others(ops, i, |ops|);
  }

  lemma NoOther(ops: seq<Operand>, i: nat)
    requires i < |ops|
    ensures Others(ops, i, i + 1) == []
  {
  }

  lemma NextOther(ops: seq<Operand>, i: nat, j: nat)
    requires i < j < |ops| && Rep(ops, j) != i
    ensures Others(ops, i, j + 1) == Others(ops, i, j)
  {
  }

  lemma NotShared(ops: seq<Operand>, i: nat, j: nat)
    requires i < j < |ops| && ops[i].v.None?
    ensures Rep(ops, j) != i
  {
  }

  lemma {:induction false} OwnSteps(ops: seq<Operand>, text: string, ss: seq<Ref>, i: nat)
    requires Named(ops) && InRange(ops, ss) && i < |ops| && Rep(ops, i) == i
    ensures InRange(ops, ss + Own(ops, i))
    ensures var s := ReplaceStrings(ops, text, ss);
      var s1 := if ops[i].QualityByte() then ReplaceInString(s, ops[i].name + "_q", "%" + Digits(Pos(ops, i) + 1))
        else s;
      ReplaceStrings(ops, text, ss + Own(ops, i)) == ReplaceInString(s1, ops[i].name, "%" + Digits(Pos(ops, i)))
  {
    hide Exprs, Rep, ReplaceStrings, ReplaceInString, Digits;
    var own := Ref(i, false);
    assert Spelled(ops, own) == ops[i].name;
    if ops[i].QualityByte() {
      ReplaceMore(ops, text, ss, Ref(i, true));
      ReplaceMore(ops, text, ss + [Ref(i, true)], own);
      assert ss + Own(ops, i) == ss + [Ref(i, true)] + [own];
    } else {
      ReplaceMore(ops, text, ss, own);
      assert ss + Own(ops, i) == ss + [own];
    }
  }

  lemma {:induction false} MergeStep(ops: seq<Operand>, text: string, front: seq<Ref>, i: nat, j: nat)
    requires Named(ops) && i < j < |ops| && Rep(ops, j) == i && InRange(ops, front + Others(ops, i, j))
    ensures InRange(ops, front + Others(ops, i, j + 1))
    ensures ReplaceStrings(ops, text, front + Others(ops, i, j + 1)) ==
      ReplaceInString(ReplaceStrings(ops, text, front + Others(ops, i, j)), ops[j].name, "%" + Digits(Pos(ops, i)))
  {
    hide Exprs, Rep, ReplaceStrings, ReplaceInString, Digits;
    var r := Ref(j, false);
    assert Spelled(ops, r) == ops[j].name;
    ReplaceMore(ops, text, front + Others(ops, i, j), r);
    assert front + Others(ops, i, j + 1) == front + Others(ops, i, j) + [r];
  }

  /* ---- what becomes of a name ---- */

  /** The replacements in one piece of the text. */
  function Resolve(ops: seq<Operand>, p: Piece, ss: seq<Ref>): Piece
    requires Named(ops) && InRange(ops, ss)
  {
    if ss == [] then p
    else
      var r := ss[|ss| - 1];
      ReplaceIn(Resolve(ops, p, ss[..|ss| - 1]), Spelled(ops, r), NumberOf(ops, r))
  }

  function ResolveAll(ops: seq<Operand>, ps: seq<Piece>, ss: seq<Ref>): (r: seq<Piece>)
    requires Named(ops) && InRange(ops, ss)
    ensures |r| == |ps|
  {
    seq(|ps|, i requires 0 <= i < |ps| => Resolve(ops, ps[i], ss))
  }

  /** A name is replaced by the first replacement whose name it begins with; what is behind that stays. */
  lemma {:induction false} ResolveFirst(ops: seq<Operand>, t: string, ss: seq<Ref>, f: nat)
    requires Named(ops) && InRange(ops, ss) && f <= |ss| && forall g :: 0 <= g < f ==> !(Spelled(ops, ss[g]) <= t)
    requires f < |ss| ==> Spelled(ops, ss[f]) <= t
    ensures Resolve(ops, Name(t), ss) == if f < |ss| then Number(NumberOf(ops, ss[f]), t[|Spelled(ops, ss[f])|..])
      else Name(t)
  {
    hide Spelled, NumberOf;
    if ss != [] {
      var n := |ss| - 1;
      ResolveFirst(ops, t, ss[..n], if f < n then f else n);
    }
  }

  lemma {:induction false} FirstHit(ops: seq<Operand>, t: string, ss: seq<Ref>) returns (f: nat)
    requires InRange(ops, ss)
    ensures f <= |ss| && (forall g :: 0 <= g < f ==> !(Spelled(ops, ss[g]) <= t))
    ensures (f < |ss| ==> Spelled(ops, ss[f]) <= t)
  {
    hide Spelled;
    if ss == [] {
      f := 0;
    } else {
      var n := |ss| - 1;
      f := FirstHit(ops, t, ss[..n]);
      assert forall g :: 0 <= g < f ==> ss[..n][g] == ss[g];
      if f == n && !(Spelled(ops, ss[n]) <= t) { f := n + 1; }
    }
  }

  /** What `Normalize` makes of a name: the number of the first reference, in the order of replacement,
      whose name it begins with. */
  lemma {:induction false} NameBecomes(ops: seq<Operand>, t: string, r: Ref)
    requires Named(ops) && Replaced(ops, r) && Spelled(ops, r) <= t
    requires forall r' :: Replaced(ops, r') && Before(ops, r', r) ==> !(Spelled(ops, r') <= t)
    ensures Resolve(ops, Name(t), Steps(ops, |ops|)) == Number(NumberOf(ops, r), t[|Spelled(ops, r)|..])
  {
    hide Spelled, NumberOf, Resolve, Steps, Rep;
    var ss := Steps(ops, |ops|);
    StepsAre(ops, |ops|);
    RepOfRep(ops, r.k);
    assert r in ss;
    var f :| 0 <= f < |ss| && ss[f] == r;
    forall g | 0 <= g < f ensures !(Spelled(ops, ss[g]) <= t) { assert ss[g] in ss && Before(ops, ss[g], ss[f]); }
    ResolveFirst(ops, t, ss, f);
  }

  /** Every two references are spelled differently. */
  ghost predicate DistinctNames(ops: seq<Operand>) {
    forall r, r' :: Replaced(ops, r) && Replaced(ops, r') && r != r' ==> Spelled(ops, r) != Spelled(ops, r')
  }

  /** A name is replaced as a whole by its own number exactly when it does not begin with a name that is
      replaced before. */
  lemma {:induction false} OwnNumberIff(ops: seq<Operand>, r: Ref)
    requires Named(ops) && Replaced(ops, r) && DistinctNames(ops)
    ensures Resolve(ops, Name(Spelled(ops, r)), Steps(ops, |ops|)) == Number(NumberOf(ops, r), "") <==>
      forall r' :: Replaced(ops, r') && Before(ops, r', r) ==> !(Spelled(ops, r') <= Spelled(ops, r))
  {
    var t, ss := Spelled(ops, r), Steps(ops, |ops|);
    hide Spelled, NumberOf, Resolve, Steps, Rep;
    if forall r' :: Replaced(ops, r') && Before(ops, r', r) ==> !(Spelled(ops, r') <= t) {
      NameBecomes(ops, t, r);
    } else {
      var r' :| Replaced(ops, r') && Before(ops, r', r) && Spelled(ops, r') <= t;
      OtherNumber(ops, r, r');
    }
  }

  /** A name that is replaced before leaves something behind. */
  lemma {:induction false} OtherNumber(ops: seq<Operand>, r: Ref, r': Ref)
    requires Named(ops) && Replaced(ops, r) && Replaced(ops, r') && DistinctNames(ops)
    requires Before(ops, r', r) && Spelled(ops, r') <= Spelled(ops, r)
    ensures var p := Resolve(ops, Name(Spelled(ops, r)), Steps(ops, |ops|)); p.Number? && p.rest != ""
  {
    hide Spelled, NumberOf, Resolve, Steps, Rep, Named;
    var t, ss := Spelled(ops, r), Steps(ops, |ops|);
    StepsAre(ops, |ops|);
    RepOfRep(ops, r'.k);
    assert r' in ss;
    var h :| 0 <= h < |ss| && ss[h] == r';
    var f := FirstHit(ops, t, ss);
    assert f <= h;
    var s := ss[f];
    assert s in ss && (f < h ==> Before(ops, s, r'));
    BeforeTrans(ops, s, r', r);
    ResolveFirst(ops, t, ss, f);
    ProperPrefix(Spelled(ops, s), t);
  }

  lemma BeforeTrans(ops: seq<Operand>, a: Ref, b: Ref, c: Ref)
    requires a.k < |ops| && b.k < |ops| && c.k < |ops|
    requires (a == b || Before(ops, a, b)) && Before(ops, b, c)
    ensures Before(ops, a, c) && a != c
  {
  }

  lemma ProperPrefix(a: string, b: string)
    requires a <= b && a != b
    ensures b[|a|..] != ""
  {
    assert a == b[..|a|] && b == b[..|a|] + b[|a|..];
  }

  /** No name begins with another one. */
  ghost predicate PrefixFree(ops: seq<Operand>) {
    && (forall i :: 0 <= i < |ops| ==> IsName(ops[i].name))
    && (forall i, j :: 0 <= i < |ops| && 0 <= j < |ops| && i != j ==> !(ops[i].name <= ops[j].name))
  }

  lemma Comparable(a: string, b: string, t: string)
    requires a <= t && b <= t
    ensures a <= b || b <= a
  {
    if |a| <= |b| {
      assert a == t[..|a|] && b == t[..|b|] && b[..|a|] == a;
    } else {
      assert a == t[..|a|] && b == t[..|b|] && a[..|b|] == b;
    }
  }

  /** A name begins with operand `k`'s name only if it refers to it; with the name of its quality byte
      only if it refers to that. */
  lemma OnlyOwn(ops: seq<Operand>, r: Ref, m: Ref)
    requires PrefixFree(ops) && r.k < |ops| && m.k < |ops| && Spelled(ops, r) <= Spelled(ops, m)
    ensures r.k == m.k && (r.q ==> m.q)
  {
    var t := Spelled(ops, m);
    assert ops[m.k].name <= t;
    assert ops[r.k].name <= Spelled(ops, r) && ops[r.k].name == t[..|ops[r.k].name|];
    Comparable(ops[r.k].name, ops[m.k].name, t);
  }

  /** With prefix-free names every operand's name becomes the number of its cell, and the name of a
      quality byte the number behind it if the operand is the first of its cell; otherwise its ending is
      left behind the number of the cell. */
  lemma {:induction false} PrefixFreeResolves(ops: seq<Operand>, k: nat)
    requires PrefixFree(ops) && k < |ops|
    ensures Named(ops)
    ensures var ss, name := Steps(ops, |ops|), ops[k].name;
      && Resolve(ops, Name(name), ss) == Number(Pos(ops, Rep(ops, k)), "")
      && Resolve(ops, Name(name + "_q"), ss) ==
        if Replaced(ops, Ref(k, true)) then Number(Pos(ops, k) + 1, "") else Number(Pos(ops, Rep(ops, k)), "_q")
  {
    hide Resolve, Steps, Pos;
    var own, quality := Ref(k, false), Ref(k, true);
    assert Spelled(ops, own) == ops[k].name && Spelled(ops, quality) == ops[k].name + "_q";
    forall r | Replaced(ops, r) && Before(ops, r, own) ensures !(Spelled(ops, r) <= ops[k].name) {
      if Spelled(ops, r) <= Spelled(ops, own) { OnlyOwn(ops, r, own); }
    }
    NameBecomes(ops, ops[k].name, own);
    forall r | Replaced(ops, r) && Before(ops, r, if Replaced(ops, quality) then quality else own)
      ensures !(Spelled(ops, r) <= ops[k].name + "_q")
    {
      if Spelled(ops, r) <= Spelled(ops, quality) { OnlyOwn(ops, r, quality); }
    }
    NameBecomes(ops, ops[k].name + "_q", if Replaced(ops, quality) then quality else own);
  }

  /** The name of a quality byte becomes the number of the quality expression exactly when its operand is
      the first of its cell. */
  lemma {:induction false} QualityResolvedIff(ops: seq<Operand>, k: nat)
    requires PrefixFree(ops) && k < |ops| && ops[k].QualityByte()
    ensures Named(ops)
    ensures var p, es := Resolve(ops, Name(ops[k].name + "_q"), Steps(ops, |ops|)), Exprs(ops, |ops|);
      (p.Number? && p.rest == "" && p.n < |es| && Stands(es[p.n], ops[k], "_q")) <==> Rep(ops, k) == k
  {
    PrefixFreeResolves(ops, k);
    hide Resolve, Steps, Exprs;
    if Rep(ops, k) == k { NumberedIs(ops, Ref(k, true)); }
  }

  /* ---- gates with many inputs ---- */

  /** The number `b` begins with the digits of `a`. */
  predicate Begins(a: nat, b: nat) {
    a == b || (b >= 10 && Begins(a, b / 10))
  }

  function LastDigit(n: nat): char { ('0' as int + n % 10) as char }

  lemma {:induction false} DigitsBegin(a: nat, b: nat)
    ensures Begins(a, b) <==> Digits(a) <= Digits(b)
  {
    if a != b {
      if b >= 10 {
        DigitsBegin(a, b / 10);
        assert Digits(b) == Digits(b / 10) + [LastDigit(b)];
        if Digits(a) == Digits(b) { DigitsDiffer(a, b); }
        if Digits(a) <= Digits(b) && |Digits(a)| < |Digits(b)| {
          assert Digits(a) == Digits(b)[..|Digits(a)|] == Digits(b / 10)[..|Digits(a)|];
        }
      } else if Digits(a) <= Digits(b) {
        DigitsNotEmpty(a);
        DigitsDiffer(a, b);
      }
    }
  }

  lemma DigitsNotEmpty(n: nat)
    ensures |Digits(n)| > 0 && Digits(n)[|Digits(n)| - 1] == LastDigit(n)
  {
  }

  lemma {:induction false} DigitsDiffer(a: nat, b: nat)
    requires Digits(a) == Digits(b)
    ensures a == b
  {
    DigitsNotEmpty(a);
    DigitsNotEmpty(b);
    assert LastDigit(a) == LastDigit(b) && a % 10 == b % 10;
    if a >= 10 { DigitsNotEmpty(a / 10); }
    if b >= 10 { DigitsNotEmpty(b / 10); }
    if a >= 10 && b >= 10 {
      assert Digits(a / 10) == Digits(a)[..|Digits(a)| - 1] == Digits(b / 10);
      DigitsDiffer(a / 10, b / 10);
    }
  }

  function InputName(ix: nat): string { "$in_" + Digits(ix + 1) }

  /** The connected inputs, in order. */
  function Inputs(vars: seq<Option<Var>>): (ixs: seq<nat>)
    ensures forall i, j :: 0 <= i < j < |ixs| ==> ixs[i] < ixs[j]
    ensures forall ix: nat :: ix in ixs <==> ix < |vars| && vars[ix].Some?
  {
    if vars == [] then []
    else
      var n := |vars| - 1;
      var front := Inputs(vars[..n]);
      assert forall ix: nat :: ix in front <==> ix < n && vars[..n][ix].Some?;
      assert forall i :: 0 <= i < |front| ==> front[i] in front;
      front + if vars[n].Some? then [n] else []
  }

  /** The operands of an OR or AND. */
  function GateOperands(out: Var, vars: seq<Option<Var>>): (ops: seq<Operand>)
  {
    var ixs := Inputs(vars);
    assert forall i :: 0 <= i < |ixs| ==> ixs[i] in ixs;
    [Operand(RW, "$out", Some(out))]
      + seq(|ixs|, i requires 0 <= i < |ixs| => Operand(R, InputName(ixs[i]), vars[ixs[i]]))
  }

  lemma {:induction false} DigitsAreWord(n: nat)
    ensures forall i :: 0 <= i < |Digits(n)| ==> IsWordChar(Digits(n)[i])
  {
    if n >= 10 { DigitsAreWord(n / 10); }
  }

  lemma InputNames(a: nat, b: nat)
    ensures IsName(InputName(a)) && !("$out" <= InputName(a)) && !(InputName(a) <= "$out")
    ensures InputName(a) <= InputName(b) <==> Begins(a + 1, b + 1)
  {
    DigitsAreWord(a + 1);
    DigitsBegin(a + 1, b + 1);
    var x, y := Digits(a + 1), Digits(b + 1);
    assert InputName(a)[1] == 'i' && "$out"[1] == 'o';
    assert InputName(a)[4..] == x && InputName(b)[4..] == y;
    if x <= y { assert "$in_" + x == ("$in_" + y)[..|"$in_" + x|]; }
    if InputName(a) <= InputName(b) { assert x == InputName(b)[..|InputName(a)|][4..] == y[..|x|]; }
  }

  /** The names of a gate's operands are prefix-free exactly when no connected input's number begins
      with that of another one. */
  lemma {:induction false} GatePrefixFreeIff(out: Var, vars: seq<Option<Var>>)
    ensures PrefixFree(GateOperands(out, vars)) <==>
      forall a, b :: a in Inputs(vars) && b in Inputs(vars) && a != b ==> !Begins(a + 1, b + 1)
  {
    hide PrefixFree, GateOperands, Begins, Inputs;
    if a, b :| a in Inputs(vars) && b in Inputs(vars) && a != b && Begins(a + 1, b + 1) {
      var i :| 0 <= i < |Inputs(vars)| && Inputs(vars)[i] == a;
      var j :| 0 <= j < |Inputs(vars)| && Inputs(vars)[j] == b;
      GatesClash(out, vars, i, j);
    } else {
      GatesApart(out, vars);
    }
  }

  lemma {:induction false} GatesClash(out: Var, vars: seq<Option<Var>>, i: nat, j: nat)
    requires var ixs := Inputs(vars); i < |ixs| && j < |ixs| && i != j && Begins(ixs[i] + 1, ixs[j] + 1)
    ensures !PrefixFree(GateOperands(out, vars))
  {
    hide IsName, InputName, Begins, Inputs, GateOperands;
    var ops := GateOperands(out, vars);
    GateName(out, vars, i, j);
    assert ops[i + 1].name <= ops[j + 1].name;
  }

  lemma {:induction false} GatesApart(out: Var, vars: seq<Option<Var>>)
    requires forall a, b :: a in Inputs(vars) && b in Inputs(vars) && a != b ==> !Begins(a + 1, b + 1)
    ensures PrefixFree(GateOperands(out, vars))
  {
    hide IsName, InputName, Begins, Inputs, GateOperands;
    var ops, ixs := GateOperands(out, vars), Inputs(vars);
    GateSize(out, vars);
    forall i | 0 < i < |ops| ensures IsName(ops[i].name) { GateName(out, vars, i - 1, i - 1); }
    forall i, j | 0 <= i < |ops| && 0 <= j < |ops| && i != j ensures !(ops[i].name <= ops[j].name) {
      if i == 0 {
        GateName(out, vars, j - 1, j - 1);
      } else if j == 0 {
        GateName(out, vars, i - 1, i - 1);
      } else {
        GateName(out, vars, i - 1, j - 1);
        assert ixs[i - 1] in ixs && ixs[j - 1] in ixs && ixs[i - 1] != ixs[j - 1];
      }
    }
  }

  lemma GateSize(out: Var, vars: seq<Option<Var>>)
    ensures |GateOperands(out, vars)| == |Inputs(vars)| + 1 && IsName(GateOperands(out, vars)[0].name)
  {
    OutName();
  }

  lemma {:induction false} GateName(out: Var, vars: seq<Option<Var>>, i: nat, j: nat)
    requires i < |Inputs(vars)| && j < |Inputs(vars)|
    ensures var ops, ixs := GateOperands(out, vars), Inputs(vars);
      && |ops| == |ixs| + 1 && IsName(ops[0].name) && IsName(ops[i + 1].name)
      && !(ops[0].name <= ops[i + 1].name) && !(ops[i + 1].name <= ops[0].name)
      && (ops[i + 1].name <= ops[j + 1].name <==> Begins(ixs[i] + 1, ixs[j] + 1))
  {
    hide IsName, InputName, Begins, Inputs;
    OutName();
    InputNames(Inputs(vars)[i], Inputs(vars)[j]);
  }

  lemma OutName()
    ensures IsName("$out")
  {
  }

  /** With all inputs connected, exactly the gates with fewer than ten inputs have prefix-free names. */
  lemma {:induction false} FewInputsIff(out: Var, vars: seq<Option<Var>>)
    requires forall ix :: 0 <= ix < |vars| ==> vars[ix].Some?
    ensures PrefixFree(GateOperands(out, vars)) <==> |vars| < 10
  {
    GatePrefixFreeIff(out, vars);
    if |vars| >= 10 {
      assert 0 in Inputs(vars) && 9 in Inputs(vars) && Begins(1, 10);
    }
  }

  /** With ten or more inputs connected, the name of the tenth becomes the number of the first with a zero
      behind it, exactly when the first input is replaced before the tenth. */
  lemma {:induction false} TenthInputIff(out: Var, vars: seq<Option<Var>>)
    requires |vars| >= 10 && forall ix :: 0 <= ix < |vars| ==> vars[ix].Some?
    ensures var ops := GateOperands(out, vars);
      && |ops| == |vars| + 1 && Named(ops) && ops[1].name == "$in_1" && ops[10].name == "$in_10"
      && (Resolve(ops, Name("$in_10"), Steps(ops, |ops|)) ==
          if Before(ops, Ref(1, false), Ref(10, false)) then Number(Pos(ops, Rep(ops, 1)), "0")
            else Number(Pos(ops, Rep(ops, 10)), ""))
  {
    hide Resolve, Steps, Rep, Pos;
    AllInputs(vars);
    var ops := GateOperands(out, vars);
    var first, tenth := Ref(1, false), Ref(10, false);
    assert Digits(1) == "1" && Digits(10) == "10";
    assert Spelled(ops, first) == "$in_1" && Spelled(ops, tenth) == "$in_10" && "$in_10"[|"$in_1"|..] == "0";
    assert "$in_1" + "0" == "$in_10";
    forall r: Ref | r.k < |ops| && Spelled(ops, r) <= "$in_10" ensures r == first || r == tenth {
      BeginsTenth(out, vars, r);
    }
    if Before(ops, first, tenth) {
      NameBecomes(ops, "$in_10", first);
    } else {
      NameBecomes(ops, "$in_10", tenth);
    }
  }

  lemma {:induction false} AllInputs(vars: seq<Option<Var>>)
    requires forall ix :: 0 <= ix < |vars| ==> vars[ix].Some?
    ensures Inputs(vars) == seq(|vars|, i requires 0 <= i < |vars| => i)
  {
    if vars != [] { AllInputs(vars[..|vars| - 1]); }
  }

  lemma NotTenth(name: string)
    ensures !(name + "_q" <= "$in_10") && !("$out" <= "$in_10")
  {
    var s, t := name + "_q", "$in_10";
    assert s[|s| - 1] == 'q' && forall i :: 0 <= i < |t| ==> t[i] != 'q';
    assert "$out"[1] == 'o' && t[1] == 'i';
  }

  /** Only the first and the tenth input's name begin the tenth's. */
  lemma {:induction false} BeginsTenth(out: Var, vars: seq<Option<Var>>, r: Ref)
    requires forall ix :: 0 <= ix < |vars| ==> vars[ix].Some?
    requires r.k < |GateOperands(out, vars)| && Spelled(GateOperands(out, vars), r) <= "$in_10"
    ensures r == Ref(1, false) || r == Ref(10, false)
  {
    hide Inputs;
    AllInputs(vars);
    var ops, t := GateOperands(out, vars), "$in_10";
    var s := Spelled(ops, r);
    assert s == t[..|s|];
    NotTenth(ops[r.k].name);
    NotTenth("$out");
    if r.k != 0 {
      assert ops[r.k].name == InputName(r.k - 1) && ops[r.k].name <= t;
      InputNames(r.k - 1, 9);
      assert InputName(9) == t;
      assert Begins(r.k, 10) ==> r.k == 10 || r.k == 1;
    }
  }

  /* ---- the text as a whole ---- */

  lemma SpelledIsName(ops: seq<Operand>, r: Ref)
    requires r.k < |ops| && IsName(ops[r.k].name)
    ensures IsName(Spelled(ops, r))
  {
  }

  /** Replacing in the text is replacing in its pieces. */
  lemma {:induction false} RenderResolved(ops: seq<Operand>, ps: seq<Piece>, ss: seq<Ref>)
    requires Named(ops) && InRange(ops, ss) && BodyOk(ps) && forall i :: 0 <= i < |ops| ==> IsName(ops[i].name)
    ensures Render(ResolveAll(ops, ps, ss)) == ReplaceStrings(ops, Render(ps), ss) && BodyOk(ResolveAll(ops, ps, ss))
  {
    hide BodyOk, Render, ReplaceInString, Digits, Spelled, IsName, NumberOf;
    if ss == [] {
      assert ResolveAll(ops, ps, ss) == ps;
    } else {
      var n := |ss| - 1;
      RenderResolved(ops, ps, ss[..n]);
      SpelledIsName(ops, ss[n]);
      ReplaceRenders(ResolveAll(ops, ps, ss[..n]), Spelled(ops, ss[n]), NumberOf(ops, ss[n]));
      assert ResolveAll(ops, ps, ss) ==
        ReplaceAll(ResolveAll(ops, ps, ss[..n]), Spelled(ops, ss[n]), NumberOf(ops, ss[n]));
    }
  }

  predicate NoPercent(s: string) {
    forall i :: 0 <= i < |s| ==> s[i] != '%'
  }

  /** Text and operands take turns, there is no empty text between operands, and no percent sign in the text. */
  ghost predicate TakesTurns(ps: seq<Piece>) {
    && (forall i :: 0 <= i < |ps| ==>
         match ps[i] case Text(s) => NoPercent(s) case Name(t) => NoPercent(t) case Number(_, rest) => NoPercent(rest))
    && (forall i :: 0 <= i < |ps| - 1 ==> (ps[i].Text? <==> !ps[i + 1].Text?))
    && (forall i :: 0 < i < |ps| && ps[i].Text? ==> ps[i].s != "")
  }

  /** The text in the end: the letter of a byte is behind the percent sign. */
  function Final(ps: seq<Piece>): string
    decreases |ps|
  {
    if ps == [] then ""
    else if |ps| > 1 && ps[0].Text? && ps[0].s != "" && IsByteLetter(ps[0].s[|ps[0].s| - 1]) && ps[1].Number? then
      var n := |ps[0].s| - 1;
      ps[0].s[..n] + "%" + [ps[0].s[n]] + Digits(ps[1].n) + ps[1].rest + Final(ps[2..])
    else Shown(ps[0]) + Final(ps[1..])
  }

  lemma {:induction false} SwapText(a: string, b: string)
    requires NoPercent(a) && (a != "" && IsByteLetter(a[|a| - 1]) && b != "" ==> b[0] != '%')
    ensures Swap(a + b) == a + Swap(b)
  {
    if a == "" {
      assert a + b == b;
    } else {
      hide Swap;
      var t := a[1..] + b;
      assert a + b == [a[0]] + t && a == [a[0]] + a[1..];
      SwapText(a[1..], b);
      if t != "" { assert t[0] == if |a| > 1 then a[1] else b[0]; }
      SwapKeep(a[0], t);
    }
  }

  lemma {:induction false} DigitsNoPercent(n: nat)
    ensures NoPercent(Digits(n)) && Digits(n) != ""
  {
    if n >= 10 { DigitsNoPercent(n / 10); }
  }

  /** What is shown of an operand's number, and what follows. */
  lemma {:induction false} SwapNumber(n: nat, rest: string, b: string)
    requires NoPercent(rest) && (b != "" ==> b[0] != '%')
    ensures Swap(Digits(n) + rest + b) == Digits(n) + rest + Swap(b)
    ensures Swap("%" + (Digits(n) + rest + b)) == "%" + (Digits(n) + rest + Swap(b))
  {
    hide Digits;
    DigitsNoPercent(n);
    var a := Digits(n) + rest;
    SwapText(a, b);
    var s := "%" + (a + b);
    assert s[0] == '%' && s[1] == a[0] && s[1..] == a + b;
  }

  /** Behind an operand there is text, or nothing. */
  lemma AfterOperand(ps: seq<Piece>)
    requires TakesTurns(ps) && ps != [] && !ps[0].Text?
    ensures Render(ps[1..]) == "" || Render(ps[1..])[0] != '%'
  {
    if |ps| > 1 {
      var q := ps[1];
      assert q.Text? && q.s != "" && NoPercent(q.s);
      assert Render(ps[1..]) == q.s + Render(ps[1..][1..]);
    }
  }

  lemma TurnsRest(ps: seq<Piece>)
    requires TakesTurns(ps) && ps != []
    ensures TakesTurns(ps[1..])
  {
    var rest := ps[1..];
    forall i | 0 <= i < |rest| - 1 ensures rest[i].Text? <==> !rest[i + 1].Text? {
      assert ps[i + 1] == rest[i] && ps[i + 2] == rest[i + 1];
    }
  }

  /** The exchange puts exactly the byte letters before operand numbers behind the percent signs. */
  lemma {:induction false} SwapRenders(ps: seq<Piece>)
    requires TakesTurns(ps) && forall i :: 0 <= i < |ps| ==> ps[i].Name? ==> ps[i].t != ""
    ensures Swap(Render(ps)) == Final(ps)
    decreases |ps|
  {
    if ps != [] {
      TurnsRest(ps);
      SwapRenders(ps[1..]);
      if !ps[0].Text? {
        AfterOperand(ps);
        SwapOne(ps[0], Render(ps[1..]));
      } else if |ps| == 1 {
        assert ps[1..] == [] && ps[0].s + "" == ps[0].s;
        SwapText(ps[0].s, "");
      } else {
        assert NoPercent(ps[0].s) && !ps[1].Text?;
        var s, p := ps[0].s, ps[1];
        assert ps[1..][1..] == ps[2..] && ps[1..][0] == p && Render(ps[1..]) == Shown(p) + Render(ps[2..]);
        if s != "" && IsByteLetter(s[|s| - 1]) && p.Number? {
          AfterOperand(ps[1..]);
          TurnsRest(ps[1..]);
          SwapRenders(ps[2..]);
          SwapPair(s, p, Render(ps[2..]));
        } else {
          assert p.Name? ==> NoPercent(p.t) && p.t != "";
          SwapText(s, Render(ps[1..]));
        }
      }
    }
  }

  lemma {:induction false} SwapOne(p: Piece, b: string)
    requires match p case Text(_) => false case Name(t) => NoPercent(t) case Number(_, rest) => NoPercent(rest)
    requires b == "" || b[0] != '%'
    ensures Swap(Shown(p) + b) == Shown(p) + Swap(b)
  {
    hide Swap, Digits;
    if p.Name? {
      SwapText(p.t, b);
    } else {
      SwapNumber(p.n, p.rest, b);
      assert Shown(p) + b == "%" + (Digits(p.n) + p.rest + b);
      assert Shown(p) + Swap(b) == "%" + (Digits(p.n) + p.rest + Swap(b));
    }
  }

  /** A letter before an operand's number. */
  lemma {:induction false} SwapPair(s: string, p: Piece, b: string)
    requires s != "" && NoPercent(s) && IsByteLetter(s[|s| - 1])
    requires p.Number? && NoPercent(p.rest) && (b == "" || b[0] != '%')
    ensures var n := |s| - 1; Swap(s + (Shown(p) + b)) == s[..n] + "%" + [s[n]] + Digits(p.n) + p.rest + Swap(b)
  {
    hide Swap, Digits;
    var n := |s| - 1;
    var x := Digits(p.n) + p.rest + b;
    DigitsNoPercent(p.n);
    assert x[0] == Digits(p.n)[0];
    assert s + (Shown(p) + b) == s[..n] + [s[n]] + "%" + x;
    SwapOperand(s[..n], s[n], x);
    SwapNumber(p.n, p.rest, b);
    assert s[..n] + "%" + [s[n]] + (Digits(p.n) + p.rest + Swap(b)) ==
      s[..n] + "%" + [s[n]] + Digits(p.n) + p.rest + Swap(b);
  }

  /** The text `Normalize` returns, piece by piece: names have become what `Resolve` says, and byte letters
      before numbers have changed places with the percent signs. */
  lemma {:induction false} NormalizedText(ops: seq<Operand>, ps: seq<Piece>)
    requires Named(ops) && BodyOk(ps) && TakesTurns(ps) && forall i :: 0 <= i < |ops| ==> IsName(ops[i].name)
    ensures var ss := Steps(ops, |ops|); Swap(ReplaceStrings(ops, Render(ps), ss)) == Final(ResolveAll(ops, ps, ss))
  {
    hide Steps, Swap, Final, Render, ReplaceStrings, BodyOk, TakesTurns;
    var ss := Steps(ops, |ops|);
    RenderResolved(ops, ps, ss);
    ResolvedTurns(ops, ps, ss);
    SwapRenders(ResolveAll(ops, ps, ss));
  }

  /** Replacing keeps the turns, and every name that is left is one. */
  lemma {:induction false} ResolvedTurns(ops: seq<Operand>, ps: seq<Piece>, ss: seq<Ref>)
    requires Named(ops) && InRange(ops, ss) && BodyOk(ps) && TakesTurns(ps)
    ensures var r := ResolveAll(ops, ps, ss); TakesTurns(r) && forall i :: 0 <= i < |r| ==> r[i].Name? ==> r[i].t != ""
  {
    hide Spelled, NumberOf, IsName;
    forall i | 0 <= i < |ps|
      ensures var p, r := ps[i], Resolve(ops, ps[i], ss); (p.Text? ==> r == p) && (!p.Text? ==> !r.Text?)
      ensures var r := Resolve(ops, ps[i], ss);
        match r case Text(s) => NoPercent(s)
          case Name(t) => NoPercent(t) && t != "" case Number(_, rest) => NoPercent(rest)
    {
      assert PieceOk(ps[i]);
      if ps[i].Name? { NameNotEmpty(ps[i].t); }
      ResolvedKind(ops, ps[i], ss);
    }
  }

  lemma NameNotEmpty(t: string)
    requires IsName(t)
    ensures t != ""
  {
  }

  lemma {:induction false} ResolvedKind(ops: seq<Operand>, p: Piece, ss: seq<Ref>)
    requires Named(ops) && InRange(ops, ss) && (p.Name? ==> p.t != "")
    requires match p case Text(s) => NoPercent(s) case Name(t) => NoPercent(t) case Number(_, rest) => NoPercent(rest)
    ensures var r := Resolve(ops, p, ss);
      && (p.Text? ==> r == p) && (!p.Text? ==> !r.Text?)
      && match r case Text(s) => NoPercent(s)
           case Name(t) => NoPercent(t) && t != "" case Number(_, rest) => NoPercent(rest)
  {
    hide Spelled, NumberOf;
    if ss != [] { ResolvedKind(ops, p, ss[..|ss| - 1]); }
  }
}
