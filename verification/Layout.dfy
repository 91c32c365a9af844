/**
  From a schema to a C struct: the offsets the builders compute, and where the writes of a
  draw land in the block (LP64: int is 4 bytes, pointers are 8).  Alignments are powers of two
  and are given by their exponent.
 */
module Layout {
  import opened Options

  const INT: nat := 4
  const PTR: nat := 8
  const LG_INT: nat := 2
  const LG_PTR: nat := 3
  const WORD: nat := 0x1_0000_0000_0000_0000

  /* ---- align_up ---- */

  function Pow2(k: nat): (r: nat)
    ensures r > 0
  {
    if k == 0 then 1 else 2 * Pow2(k - 1)
  }

  /** Bitwise and of two naturals. */
  function And(x: nat, y: nat): nat
    decreases x
  {
    if x == 0 then 0 else 2 * And(x / 2, y / 2) + (if x % 2 == 1 && y % 2 == 1 then 1 else 0)
  }

  /** (x + a - 1) & ~(a - 1) on size_t, for a = 2^k. */
  function AlignUp(x: nat, k: nat): nat {
    And((x + Pow2(k) - 1) % WORD, (WORD - 1) - (Pow2(k) - 1) % WORD)
  }

  /** The low k bits of x. */
  function Low(x: nat, k: nat): nat
    decreases k
  {
    if k == 0 then 0 else x % 2 + 2 * Low(x / 2, k - 1)
  }

  /** x is a multiple of 2^k. */
  predicate Aligned(x: nat, k: nat)
    decreases k
  {
    k == 0 || (x % 2 == 0 && Aligned(x / 2, k - 1))
  }

  lemma {:induction false} AndHigh(y: nat, n: nat, k: nat)
    requires k <= n && y < Pow2(n)
    ensures Pow2(k) <= Pow2(n) && And(y, Pow2(n) - Pow2(k)) == y - Low(y, k)
    decreases n
  {
    PowMono(k, n);
    if y == 0 {
      LowZero(k);
    } else if k > 0 {
      AndHigh(y / 2, n - 1, k - 1);
    } else {
      AndHigh(y / 2, n - 1, 0);
    }
  }

  lemma {:induction false} LowZero(k: nat)
    ensures Low(0, k) == 0
  {
    if k > 0 { LowZero(k - 1); }
  }

  lemma {:induction false} PowMono(j: nat, k: nat)
    requires j <= k
    ensures Pow2(j) <= Pow2(k)
  {
    if j < k { PowMono(j, k - 1); }
  }

  lemma {:induction false} LowFacts(y: nat, k: nat)
    ensures Low(y, k) <= y && Low(y, k) < Pow2(k) && Aligned(y - Low(y, k), k)
    decreases k
  {
    if k > 0 {
      LowFacts(y / 2, k - 1);
      assert (y - Low(y, k)) / 2 == y / 2 - Low(y / 2, k - 1);
    }
  }

  lemma {:induction false} AlignedApart(m: nat, r: nat, k: nat)
    requires Aligned(m, k) && Aligned(r, k) && m < r
    ensures m + Pow2(k) <= r
    decreases k
  {
    if k > 0 { AlignedApart(m / 2, r / 2, k - 1); }
  }

  /** x rounded up to a multiple of 2^k. */
  function Up(x: nat, k: nat): (r: nat)
    ensures x <= r < x + Pow2(k) && Aligned(r, k)
  {
    LowFacts(x + Pow2(k) - 1, k);
    x + Pow2(k) - 1 - Low(x + Pow2(k) - 1, k)
  }

  lemma Pow64()
    ensures Pow2(64) == WORD
  {
    assert Pow2(8) == 256;
    assert Pow2(16) == 0x1_0000 by { assert Pow2(12) == 0x1000; }
    assert Pow2(24) == 0x100_0000 by { assert Pow2(20) == 0x10_0000; }
    assert Pow2(32) == 0x1_0000_0000 by { assert Pow2(28) == 0x1000_0000; }
    assert Pow2(40) == 0x100_0000_0000 by { assert Pow2(36) == 0x10_0000_0000; }
    assert Pow2(48) == 0x1_0000_0000_0000 by { assert Pow2(44) == 0x1000_0000_0000; }
    assert Pow2(56) == 0x100_0000_0000_0000 by { assert Pow2(52) == 0x10_0000_0000_0000; }
    assert Pow2(64) == WORD by { assert Pow2(60) == 0x1000_0000_0000_0000; }
  }

  lemma SmallExponent(k: nat)
    requires Pow2(k) <= WORD
    ensures k <= 64
  {
    Pow64();
    if k > 64 {
      PowMono(65, k);
    }
  }

  /** hegel__align_up yields the least multiple of the alignment that is not below x. */
  lemma AlignUpIs(x: nat, k: nat)
    requires x + Pow2(k) <= WORD
    ensures AlignUp(x, k) == Up(x, k)
    ensures forall m: nat :: Aligned(m, k) && x <= m ==> AlignUp(x, k) <= m
  {
    hide Pow2, And, Low, Aligned;
    AlignUpRounds(x, k);
    forall m: nat | Aligned(m, k) && x <= m ensures Up(x, k) <= m {
      if m < Up(x, k) { AlignedApart(m, Up(x, k), k); }
    }
  }

  lemma AlignUpRounds(x: nat, k: nat)
    requires x + Pow2(k) <= WORD
    ensures AlignUp(x, k) == Up(x, k)
  {
    Pow64();
    SmallExponent(k);
    RoundsIn(x, k, 64);
  }

  /** ... in words of n bits. */
  lemma RoundsIn(x: nat, k: nat, n: nat)
    requires x + Pow2(k) <= WORD && Pow2(n) == WORD && k <= n
    ensures AlignUp(x, k) == Up(x, k)
  {
    hide Pow2, And, Low, Aligned, Up;
    AndHigh(x + Pow2(k) - 1, n, k);
    NoWrap(x + Pow2(k) - 1);
    NoWrap(Pow2(k) - 1);
    UpIs(x, k);
  }

  lemma UpIs(x: nat, k: nat)
    ensures Up(x, k) == x + Pow2(k) - 1 - Low(x + Pow2(k) - 1, k)
  {
  }

  lemma NoWrap(y: nat)
    requires y < WORD
    ensures y % WORD == y
  {
  }

  lemma {:induction false} AlignedSum(a: nat, b: nat, k: nat)
    requires Aligned(a, k) && Aligned(b, k)
    ensures Aligned(a + b, k)
    decreases k
  {
    if k > 0 {
      AlignedSum(a / 2, b / 2, k - 1);
      assert (a + b) / 2 == a / 2 + b / 2;
    }
  }

  lemma {:induction false} AlignedLess(x: nat, j: nat, k: nat)
    requires Aligned(x, k) && j <= k
    ensures Aligned(x, j)
    decreases k
  {
    if j > 0 { AlignedLess(x / 2, j - 1, k - 1); }
  }

  lemma {:induction false} AlignedZero(k: nat)
    ensures Aligned(0, k)
  {
    if k > 0 { AlignedZero(k - 1); }
  }

  /* ---- Schema nodes as the layout sees them ---- */

  const SIZE_MAX: nat := WORD - 1

  /** Scalars of 2^lg bytes; every kind that fills one pointer slot is a Pointer.  In a Struct,
      `offs` are the field offsets (SIZE_MAX for a LET) and `lens` the count-slot offsets of
      its ARRAY_INLINE fields. */
  datatype Node =
    | Scalar(lg: nat)
    | Pointer
    | ArrayInline(elem: Node, elemSize: nat)
    | OneOf(cases: seq<Node>)
    | Let
    | Struct(size: nat, lg: nat, fields: seq<Node>, offs: seq<nat>, lens: seq<nat>)
    | Union(tagged: bool, cases: seq<Node>, size: nat, lg: nat)
    | Variant(cases: seq<Node>, tagOff: nat, ptrOff: nat, size: nat, lg: nat)

  /** hegel__schema_slot_info: bytes in the parent. */
  function Size(n: Node): nat {
    match n
    case Scalar(lg) => Pow2(lg)
    case Pointer => PTR
    case ArrayInline(_, _) => PTR
    case OneOf(cases) => if cases == [] then INT else Size(cases[0])
    case Let => 0
    case Struct(size, _, _, _, _) => size
    case Union(_, _, size, _) => size
    case Variant(_, _, _, size, _) => size
  }

  /** ... and the exponent of the alignment. */
  function Lg(n: Node): nat {
    match n
    case Scalar(lg) => lg
    case Pointer => LG_PTR
    case ArrayInline(_, _) => LG_PTR
    case OneOf(cases) => if cases == [] then LG_INT else Lg(cases[0])
    case Let => 0
    case Struct(_, lg, _, _, _) => lg
    case Union(_, _, _, lg) => lg
    case Variant(_, _, _, _, lg) => lg
  }

  function Max(a: nat, b: nat): nat { if a > b then a else b }

  datatype Laid = Laid(offs: seq<nat>, lens: seq<nat>, end: nat, lg: nat)

  /** Members in declaration order, each aligned; an ARRAY_INLINE is a pointer and then an int. */
  function Lay(fs: seq<Node>, inCase: bool): (r: Laid)
    ensures |r.offs| == |r.lens| == |fs|
    decreases |fs|
  {
    if fs == [] then Laid([], [], 0, 0) else Place(Lay(fs[..|fs|-1], inCase), fs[|fs|-1], inCase)
  }

  function Place(p: Laid, f: Node, inCase: bool): Laid {
    if Size(f) == 0 && !inCase then Laid(p.offs + [SIZE_MAX], p.lens + [0], p.end, p.lg)
    else
      var off := Up(p.end, Lg(f));
      var next := off + Size(f);
      if f.ArrayInline? then
        var count := Up(next, LG_INT);
        Laid(p.offs + [off], p.lens + [count], count + INT, Max(Max(p.lg, Lg(f)), LG_INT))
      else Laid(p.offs + [off], p.lens + [0], next, Max(p.lg, Lg(f)))
  }

  /* ---- What the builders make, under the rules of C ---- */

  /** The fields of a case. */
  function FieldsOf(c: Node): seq<Node> { if c.Struct? then c.fields else [] }

  function CaseSize(c: Node): nat {
    var l := Lay(FieldsOf(c), true);
    Up(l.end, l.lg)
  }

  function BodySize(cases: seq<Node>): nat {
    if cases == [] then 0 else Max(BodySize(cases[..|cases|-1]), CaseSize(cases[|cases|-1]))
  }

  function BodyLg(cases: seq<Node>): nat {
    if cases == [] then 0 else Max(BodyLg(cases[..|cases|-1]), Lay(FieldsOf(cases[|cases|-1]), true).lg)
  }

  function BodyOff(tagged: bool, bodyLg: nat): nat { if tagged then Up(INT, bodyLg) else 0 }

  function Shifted(offs: seq<nat>, shift: nat): (r: seq<nat>)
    ensures |r| == |offs|
  {
    seq(|offs|, i requires 0 <= i < |offs| => offs[i] + shift)
  }

  /** A case of a union with its field offsets moved to the body; the count slots stay where
      hegel__lay_case put them. */
  predicate IsCase(c: Node, shift: nat) {
    c.Struct? && c.offs == Shifted(Lay(c.fields, true).offs, shift) && c.lens == Lay(c.fields, true).lens &&
    forall f <- c.fields :: !f.Let? && !f.Union? && !f.Variant?
  }

  /** The schema came out of the builders; sizes and alignments are those of C types (a size is
      a multiple of its alignment, a declared element size is true, the cases of a scalar one-of
      are equally wide). */
  predicate Built(n: Node) {
    match n
    case Scalar(lg) => lg <= 3
    case Pointer => true
    case Let => true
    case ArrayInline(elem, es) => Built(elem) && !elem.Let? && !elem.ArrayInline? && es == Size(elem)
    case OneOf(cases) => cases != [] && forall c <- cases :: c.Scalar? && c.lg <= 3 && c == cases[0]
    case Struct(size, lg, fields, offs, lens) =>
      && (forall f <- fields :: Built(f))
      && var l := Lay(fields, false);
      offs == l.offs && lens == l.lens && size == Up(l.end, l.lg) && l.lg <= lg && Aligned(size, lg) && size > 0
    case Union(tagged, cases, size, lg) =>
      && cases != []
      && (forall c <- cases :: c.Struct?)
      && (forall c <- cases :: forall f <- c.fields :: Built(f))
      && var bodyLg := BodyLg(cases);
      && (forall c <- cases :: IsCase(c, BodyOff(tagged, bodyLg)))
      && lg == (if tagged then Max(LG_INT, bodyLg) else bodyLg)
      && size == Up(BodyOff(tagged, bodyLg) + BodySize(cases), lg) && size > 0
    case Variant(cases, tagOff, ptrOff, size, lg) =>
      (forall c <- cases :: c.Struct? && Built(c)) && tagOff == 0 && ptrOff == PTR && size == 2 * PTR && lg == LG_PTR
  }

  predicate NoDirectArray(c: Node) { c.Struct? && forall f <- c.fields :: !f.ArrayInline? }

  /** No ARRAY_INLINE directly in a case of a tagged union, anywhere in the block. */
  predicate Restricted(n: Node) {
    match n
    case Struct(_, _, fields, _, _) => forall f <- fields :: Restricted(f)
    case Union(tagged, cases, _, _) =>
      forall c <- cases :: c.Struct? && (tagged ==> NoDirectArray(c)) && forall f <- c.fields :: Restricted(f)
    case _ => true
  }

  /* ---- Where a draw writes ---- */

  /** 2^lg bytes at an address. */
  datatype Write = Write(at: nat, lg: nat)

  /** The engine's choices: which case, whether a pointer is set, and those below. */
  datatype Choice = Choice(pick: nat, subs: seq<Choice>)

  function Sub(c: Choice, i: nat): Choice { if i < |c.subs| then c.subs[i] else Choice(0, []) }

  /** hegel__draw_field at parent + off: the writes into the parent's block. */
  function Writes(n: Node, parent: nat, off: nat, len: nat, c: Choice): seq<Write>
    decreases n, 1
  {
    var dst := parent + off;
    match n
    case Scalar(lg) => [Write(dst, lg)]
    case Pointer => if c.pick == 0 then [] else [Write(dst, LG_PTR)]
    case ArrayInline(_, _) => [Write(dst, LG_PTR), Write(parent + len, LG_INT)]
    case OneOf(cases) => if c.pick < |cases| then Writes(cases[c.pick], parent, off, 0, Sub(c, 0)) else []
    case Let => []
    case Struct(_, _, fields, offs, lens) => if |offs| == |lens| == |fields| then FieldWrites(fields, offs, lens, dst, c) else []
    case Union(tagged, cases, _, _) =>
      (if tagged then [Write(dst, LG_INT)] else []) +
      (if c.pick < |cases| then Writes(cases[c.pick], dst, 0, 0, Sub(c, 0)) else [])
    case Variant(_, tagOff, ptrOff, _, _) => [Write(dst + tagOff, LG_INT), Write(dst + ptrOff, LG_PTR)]
  }

  /** The fields of a struct drawn at base, in order. */
  function FieldWrites(fs: seq<Node>, offs: seq<nat>, lens: seq<nat>, base: nat, c: Choice): seq<Write>
    requires |offs| == |lens| == |fs|
    decreases fs, 0, |fs|
  {
    if fs == [] then []
    else
      var k := |fs| - 1;
      FieldWrites(fs[..k], offs[..k], lens[..k], base, c) + Writes(fs[k], base, offs[k], lens[k], Sub(c, k))
  }

  predicate Apart(v: Write, w: Write) { v.at + Pow2(v.lg) <= w.at || w.at + Pow2(w.lg) <= v.at }

  /** Writes inside [lo, hi), each aligned to its width, no two overlapping. */
  predicate Tidy(ws: seq<Write>, lo: nat, hi: nat) {
    && (forall i :: 0 <= i < |ws| ==> lo <= ws[i].at && ws[i].at + Pow2(ws[i].lg) <= hi && Aligned(ws[i].at, ws[i].lg))
    && (forall i, j :: 0 <= i < j < |ws| ==> Apart(ws[i], ws[j]))
  }

  /* ---- The writes of a draw are tidy ---- */

  /** Bytes the layout reserves for a field. */
  function Span(n: Node): nat { if n.ArrayInline? then PTR + INT else Size(n) }

  lemma Widths()
    ensures Pow2(LG_INT) == INT && Pow2(LG_PTR) == PTR
  {
    assert Pow2(2) == 4 && Pow2(3) == 8;
  }

  lemma UpAligned(x: nat, k: nat)
    requires Aligned(x, k)
    ensures Up(x, k) == x
  {
    if x < Up(x, k) { AlignedApart(x, Up(x, k), k); }
  }

  lemma TidyAppend(v: seq<Write>, lo: nat, mid: nat, w: seq<Write>, mid': nat, hi: nat)
    requires Tidy(v, lo, mid) && Tidy(w, mid', hi) && lo <= mid <= mid' <= hi
    ensures Tidy(v + w, lo, hi)
  {
    hide Aligned, Pow2;
    var ws := v + w;
    forall i, j | 0 <= i < j < |ws| ensures Apart(ws[i], ws[j]) {
      if i < |v| <= j {
        assert v[i].at + Pow2(v[i].lg) <= mid && mid' <= w[j - |v|].at;
      } else if j < |v| {
        assert Apart(v[i], v[j]);
      } else {
        assert Apart(w[i - |v|], w[j - |v|]);
      }
    }
  }

  lemma TidyWider(ws: seq<Write>, lo: nat, hi: nat, lo': nat, hi': nat)
    requires Tidy(ws, lo, hi) && lo' <= lo && hi <= hi'
    ensures Tidy(ws, lo', hi')
  {
    hide Aligned, Pow2;
  }

  lemma TidyOne(at: nat, lg: nat)
    requires Aligned(at, lg)
    ensures Tidy([Write(at, lg)], at, at + Pow2(lg))
  {
  }

  /** A pointer and an int after it. */
  lemma TidyPair(at: nat, at': nat, lg: nat, lg': nat)
    requires Aligned(at, lg) && Aligned(at', lg') && at + Pow2(lg) <= at'
    ensures Tidy([Write(at, lg), Write(at', lg')], at, at' + Pow2(lg'))
  {
    hide Aligned, Pow2;
  }

  lemma {:induction false} NodeTidy(n: Node, parent: nat, off: nat, len: nat, c: Choice)
    requires Built(n) && Restricted(n) && Aligned(parent + off, Lg(n))
    requires n.ArrayInline? ==> len == off + PTR
    ensures Tidy(Writes(n, parent, off, len, c), parent + off, parent + off + Span(n))
    decreases n, 1
  {
    hide Aligned, Pow2, Tidy, Up, Lay;
    var dst := parent + off;
    Widths();
    match n
    case Scalar(lg) => TidyOne(dst, lg);
    case Pointer =>
      TidyOne(dst, LG_PTR);
      TidyNone(dst, dst + PTR);
    case ArrayInline(_, _) =>
      AlignedLess(dst, LG_INT, LG_PTR);
      AlignedSum(dst, PTR, LG_INT) by { EightAligned(); }
      TidyPair(dst, parent + len, LG_PTR, LG_INT);
    case OneOf(cases) =>
      if c.pick < |cases| {
        assert cases[c.pick] in cases && cases[0] in cases;
        assert Size(cases[0]) == Pow2(cases[0].lg) && Writes(cases[c.pick], parent, off, 0, Sub(c, 0)) == [Write(dst, cases[0].lg)];
        TidyOne(dst, cases[c.pick].lg);
      } else {
        TidyNone(dst, dst + Size(n));
      }
    case Let => TidyNone(dst, dst);
    case Struct(size, lg, fields, offs, lens) =>
      AlignedLess(dst, Lay(fields, false).lg, lg);
      FieldsTidy(fields, offs, lens, dst, 0, false, c);
      TidyWider(Writes(n, parent, off, len, c), dst, dst + Lay(fields, false).end, dst, dst + size);
    case Union(tagged, cases, size, lg) => UnionTidy(n, parent, off, len, c);
    case Variant(_, _, _, _, _) =>
      AlignedLess(dst, LG_INT, LG_PTR);
      AlignedSum(dst, PTR, LG_PTR) by { EightAligned(); }
      TidyPair(dst, dst + PTR, LG_INT, LG_PTR);
  }

  lemma EightAligned()
    ensures Aligned(PTR, LG_INT) && Aligned(PTR, LG_PTR) && Aligned(INT, LG_INT)
  {
    assert Aligned(8, 3) && Aligned(8, 2) && Aligned(4, 2);
  }

  lemma TidyNone(lo: nat, hi: nat)
    ensures Tidy([], lo, hi)
  {
  }

  lemma {:induction false} UnionTidy(n: Node, parent: nat, off: nat, len: nat, c: Choice)
    requires n.Union? && Built(n) && Restricted(n) && Aligned(parent + off, Lg(n))
    ensures Tidy(Writes(n, parent, off, len, c), parent + off, parent + off + Span(n))
    decreases n, 0
  {
    hide Aligned, Pow2, Tidy, Up, Lay, Built, IsCase, BodyLg, BodyOff;
    var dst := parent + off;
    Widths();
    UnionFacts(n);
    var tag := if n.tagged then [Write(dst, LG_INT)] else [];
    var mid := if n.tagged then dst + INT else dst;
    if n.tagged {
      AlignedLess(dst, LG_INT, n.lg);
      TidyOne(dst, LG_INT);
    } else {
      TidyNone(dst, dst);
    }
    if c.pick >= |n.cases| {
      assert Writes(n, parent, off, len, c) == tag;
      TidyWider(tag, dst, mid, dst, dst + n.size);
      return;
    }
    var lo, hi := CaseTidy(n, dst, c);
    var ws := Writes(n.cases[c.pick], dst, 0, 0, Sub(c, 0));
    TidyAppend(tag, dst, mid, ws, lo, hi);
    TidyWider(tag + ws, dst, hi, dst, dst + n.size);
  }

  lemma UnionFacts(n: Node)
    requires n.Union? && Built(n)
    ensures Lg(n) == n.lg && BodyLg(n.cases) <= n.lg && (n.tagged ==> LG_INT <= n.lg)
    ensures BodyOff(n.tagged, BodyLg(n.cases)) + BodySize(n.cases) <= n.size
    ensures n.tagged ==> BodyOff(n.tagged, BodyLg(n.cases)) >= INT
    ensures Aligned(BodyOff(n.tagged, BodyLg(n.cases)), BodyLg(n.cases))
    ensures !n.tagged ==> BodyOff(n.tagged, BodyLg(n.cases)) == 0
  {
    AlignedZero(BodyLg(n.cases));
  }

  /** The chosen case is drawn into the body. */
  lemma {:induction false} CaseTidy(n: Node, dst: nat, c: Choice) returns (lo: nat, hi: nat)
    requires n.Union? && Built(n) && Restricted(n) && Aligned(dst, n.lg) && c.pick < |n.cases|
    ensures dst + (if n.tagged then INT else 0) <= lo <= hi <= dst + n.size
    ensures Tidy(Writes(n.cases[c.pick], dst, 0, 0, Sub(c, 0)), lo, hi)
    decreases n, -1
  {
    hide Aligned, Pow2, Tidy, Up, Lay, BodyLg, BodyOff;
    var bodyLg := BodyLg(n.cases);
    var shift := BodyOff(n.tagged, bodyLg);
    UnionFacts(n);
    var s := n.cases[c.pick];
    assert s in n.cases && IsCase(s, shift);
    CaseFits(n.cases, c.pick);
    var l := Lay(s.fields, true);
    AlignedLess(dst, bodyLg, n.lg);
    AlignedSum(dst, shift, bodyLg);
    AlignedLess(dst + shift, l.lg, bodyLg);
    FieldsTidy(s.fields, s.offs, s.lens, dst, shift, true, Sub(c, 0));
    lo, hi := dst + shift, dst + shift + l.end;
  }

  /** Every case fits the body. */
  lemma {:induction false} CaseFits(cases: seq<Node>, i: nat)
    requires i < |cases|
    ensures Lay(FieldsOf(cases[i]), true).end <= CaseSize(cases[i]) <= BodySize(cases)
    ensures Lay(FieldsOf(cases[i]), true).lg <= BodyLg(cases)
    decreases |cases|
  {
    hide Lay;
    if i < |cases| - 1 { CaseFits(cases[..|cases|-1], i); }
  }

  lemma {:induction false} FieldsTidy(fs: seq<Node>, offs: seq<nat>, lens: seq<nat>, base: nat, shift: nat, inCase: bool, c: Choice)
    requires |offs| == |lens| == |fs|
    requires forall f <- fs :: Built(f) && Restricted(f) && (inCase ==> !f.Let?) && (shift > 0 ==> !f.ArrayInline?)
    requires !inCase ==> shift == 0
    requires forall j :: 0 <= j < |fs| ==> offs[j] == Lay(fs, inCase).offs[j] + shift && lens[j] == Lay(fs, inCase).lens[j]
    requires Aligned(base + shift, Lay(fs, inCase).lg)
    ensures Tidy(FieldWrites(fs, offs, lens, base, c), base + shift, base + shift + Lay(fs, inCase).end)
    decreases fs, 0, |fs|
  {
    hide Aligned, Pow2, Tidy, Up;
    if fs == [] {
      TidyNone(base + shift, base + shift);
      return;
    }
    var k := |fs| - 1;
    var f := fs[k];
    var p := Lay(fs[..k], inCase);
    assert Lay(fs, inCase) == Place(p, f, inCase);
    assert f in fs;
    hide Lay;
    AlignedLess(base + shift, p.lg, Place(p, f, inCase).lg);
    FieldsTidy(fs[..k], offs[..k], lens[..k], base, shift, inCase, c);
    var lo := LastTidy(f, p, base, shift, inCase, offs[k], lens[k], Sub(c, k));
    TidyAppend(FieldWrites(fs[..k], offs[..k], lens[..k], base, c), base + shift, base + shift + p.end,
               Writes(f, base, offs[k], lens[k], Sub(c, k)), lo, base + shift + Place(p, f, inCase).end);
  }

  /** The writes of the last field lie after those before it. */
  lemma {:induction false} LastTidy(f: Node, p: Laid, base: nat, shift: nat, inCase: bool, off: nat, len: nat, c: Choice)
    returns (lo: nat)
    requires Built(f) && Restricted(f) && (inCase ==> !f.Let?) && (shift > 0 ==> !f.ArrayInline?) && (!inCase ==> shift == 0)
    requires var l := Place(p, f, inCase);
      Aligned(base + shift, l.lg) && off == l.offs[|p.offs|] + shift && |p.offs| == |p.lens| && len == l.lens[|p.lens|]
    ensures base + shift + p.end <= lo <= base + shift + Place(p, f, inCase).end
    ensures Tidy(Writes(f, base, off, len, c), lo, base + shift + Place(p, f, inCase).end)
    decreases f, 2
  {
    hide Aligned, Pow2, Tidy, Up;
    BuiltPositive(f);
    var l := Place(p, f, inCase);
    if f.Let? {
      lo := base + shift + p.end;
      TidyNone(lo, lo);
      return;
    }
    var at := Up(p.end, Lg(f));
    lo := base + shift + at;
    AlignedLess(base + shift, Lg(f), l.lg);
    AlignedSum(base + shift, at, Lg(f));
    if f.ArrayInline? {
      AlignedLess(at, LG_INT, LG_PTR);
      AlignedSum(at, PTR, LG_INT) by { EightAligned(); }
      UpAligned(at + PTR, LG_INT);
    }
    NodeTidy(f, base, off, len, c);
  }

  lemma BuiltPositive(n: Node)
    requires Built(n)
    ensures Size(n) == 0 ==> n.Let?
  {
    if n.OneOf? { assert n.cases[0] in n.cases && Size(n.cases[0]) == Pow2(n.cases[0].lg); }
  }

  /** The block of a struct: every write of every draw lies inside it, is aligned to its width
      and overlaps no other. */
  lemma BlockTidy(n: Node, c: Choice)
    requires n.Struct? && Built(n) && Restricted(n)
    ensures Tidy(Writes(n, 0, 0, 0, c), 0, n.size)
  {
    AlignedZero(n.lg);
    NodeTidy(n, 0, 0, 0, c);
  }

  /** n elements of this size. */
  function Bytes(n: nat, size: nat): (r: nat)
    ensures r == n * size
  {
    if n == 0 then 0 else Bytes(n - 1, size) + size
  }

  lemma {:induction false} AlignedBytes(n: nat, size: nat, k: nat)
    requires Aligned(size, k)
    ensures Aligned(Bytes(n, size), k)
  {
    if n == 0 {
      AlignedZero(k);
    } else {
      AlignedBytes(n - 1, size, k);
      AlignedSum(Bytes(n - 1, size), size, k);
    }
  }

  /** The writes of the first k elements of an ARRAY_INLINE's block. */
  function ElemWrites(elem: Node, elemSize: nat, cs: seq<Choice>): seq<Write> {
    if cs == [] then []
    else
      var k := |cs| - 1;
      ElemWrites(elem, elemSize, cs[..k]) + Writes(elem, Bytes(k, elemSize), 0, 0, cs[k])
  }

  lemma {:induction false} PowAligned(k: nat)
    ensures Aligned(Pow2(k), k)
  {
    if k > 0 {
      PowAligned(k - 1);
      assert Pow2(k) / 2 == Pow2(k - 1);
    }
  }

  /** A size is a multiple of its alignment. */
  lemma SizeAligned(n: Node)
    requires Built(n) && !n.Let?
    ensures Aligned(Size(n), Lg(n))
  {
    match n
    case Scalar(lg) => PowAligned(lg);
    case OneOf(cases) =>
      assert cases[0] in cases;
      PowAligned(cases[0].lg);
      assert Size(cases[0]) == Pow2(cases[0].lg) && Lg(cases[0]) == cases[0].lg;
    case Variant(_, _, _, _, _) =>
      EightAligned();
      AlignedSum(PTR, PTR, LG_PTR);
    case Pointer => EightAligned();
    case ArrayInline(_, _) => EightAligned();
    case Struct(_, _, _, _, _) =>
    case Union(_, _, _, _) =>
  }

  /** The block of an ARRAY_INLINE of |cs| elements, which has room for one more. */
  lemma {:induction false} ElementsTidy(a: Node, cs: seq<Choice>)
    requires a.ArrayInline? && Built(a) && Restricted(a.elem)
    ensures Tidy(ElemWrites(a.elem, a.elemSize, cs), 0, Bytes(|cs|, a.elemSize))
    ensures Bytes(|cs|, a.elemSize) <= Bytes(|cs| + 1, a.elemSize)
    decreases |cs|
  {
    hide Aligned, Pow2, Tidy;
    var es := a.elemSize;
    if cs == [] {
      TidyNone(0, 0);
      return;
    }
    var k := |cs| - 1;
    ElementsTidy(a, cs[..k]);
    SizeAligned(a.elem);
    AlignedBytes(k, es, Lg(a.elem));
    NodeTidy(a.elem, Bytes(k, es), 0, 0, cs[k]);
    var at := Bytes(k, es);
    TidyAppend(ElemWrites(a.elem, es, cs[..k]), 0, at, Writes(a.elem, at, 0, 0, cs[k]), at, Bytes(|cs|, es));
  }

  /** Element k of the block is written at k times the element size, and nothing else is. */
  lemma {:induction false} EveryElementWritten(elem: Node, size: nat, cs: seq<Choice>, w: Write)
    ensures w in ElemWrites(elem, size, cs) <==>
      exists k :: 0 <= k < |cs| && w in Writes(elem, Bytes(k, size), 0, 0, cs[k])
    decreases |cs|
  {
    hide Writes, Bytes;
    if cs != [] {
      var k := |cs| - 1;
      EveryElementWritten(elem, size, cs[..k], w);
      if w in ElemWrites(elem, size, cs[..k]) {
        var i :| 0 <= i < k && w in Writes(elem, Bytes(i, size), 0, 0, cs[..k][i]);
        assert w in Writes(elem, Bytes(i, size), 0, 0, cs[i]);
      }
      forall i | 0 <= i < k && w in Writes(elem, Bytes(i, size), 0, 0, cs[i]) ensures w in ElemWrites(elem, size, cs[..k]) {
        assert w in Writes(elem, Bytes(i, size), 0, 0, cs[..k][i]);
      }
    }
  }

  /* ---- Why ARRAY_INLINE is kept out of tagged unions ---- */

  /** Field k of a case drawn at dst stays in the bytes the layout reserves for it. */
  predicate InSlot(s: Node, dst: nat, k: nat, c: Choice) {
    s.Struct? && |s.offs| == |s.lens| == |s.fields| && k < |s.fields| &&
    Tidy(Writes(s.fields[k], dst, s.offs[k], s.lens[k], c), dst + s.offs[k], dst + s.offs[k] + Span(s.fields[k]))
  }

  /** hegel__shift_union_cases moves the pointer of an ARRAY_INLINE but not its count: the count
      lands on the pointer, or before the field altogether. */
  lemma CountMisplaced(s: Node, shift: nat, dst: nat, k: nat, c: Choice)
    requires IsCase(s, shift) && shift > 0 && k < |s.fields| && s.fields[k].ArrayInline?
    ensures !InSlot(s, dst, k, c)
    ensures s.lens[k] == s.offs[k] - shift + PTR
  {
    hide Tidy, Lay;
    LayAt(s.fields, true, k);
    Widths();
    var ws := Writes(s.fields[k], dst, s.offs[k], s.lens[k], c);
    assert ws == [Write(dst + s.offs[k], LG_PTR), Write(dst + s.lens[k], LG_INT)];
    NotTidy(dst + s.offs[k], dst + s.lens[k]);
  }

  lemma NotTidy(at: nat, count: nat)
    requires count < at + PTR
    ensures !Tidy([Write(at, LG_PTR), Write(count, LG_INT)], at, at + PTR + INT)
  {
    Widths();
    var ws := [Write(at, LG_PTR), Write(count, LG_INT)];
    assert ws[0].at == at && ws[1].at == count;
    hide Pow2, Aligned;
    assert Apart(ws[0], ws[1]) ==> count + INT <= at;
  }

  /** Field k is placed after the fields before it, whatever follows. */
  lemma {:induction false} LayAt(fs: seq<Node>, inCase: bool, k: nat)
    requires k < |fs| && (inCase || Size(fs[k]) > 0)
    ensures Aligned(Lay(fs, inCase).offs[k], Lg(fs[k]))
    ensures fs[k].ArrayInline? ==> Lay(fs, inCase).lens[k] == Lay(fs, inCase).offs[k] + PTR
    decreases |fs|
  {
    hide Aligned, Up;
    if k < |fs| - 1 {
      LayAt(fs[..|fs|-1], inCase, k);
    } else if fs[k].ArrayInline? {
      var off := Lay(fs, inCase).offs[k];
      assert off == Up(Lay(fs[..k], inCase).end, LG_PTR);
      AlignedLess(off, LG_INT, LG_PTR);
      AlignedSum(off, PTR, LG_INT) by { EightAligned(); }
      UpAligned(off + PTR, LG_INT);
    }
  }

  /** Every field of every case stays in its slot, whatever the engine chooses. */
  ghost predicate AllInSlot(n: Node, dst: nat)
    requires n.Union?
  {
    forall i: nat, k: nat, c :: i < |n.cases| && n.cases[i].Struct? && k < |n.cases[i].fields| ==> InSlot(n.cases[i], dst, k, c)
  }

  /** The exact condition: in a tagged union every field of every case stays in its slot if and
      only if no case has an ARRAY_INLINE field of its own. */
  lemma TaggedIff(n: Node, dst: nat)
    requires n.Union? && n.tagged && Built(n) && Aligned(dst, n.lg)
    requires forall s <- n.cases :: s.Struct? && forall f <- s.fields :: Restricted(f)
    ensures AllInSlot(n, dst) <==> forall s <- n.cases :: NoDirectArray(s)
  {
    hide InSlot, Built;
    forall i: nat, k: nat, c | i < |n.cases| && k < |n.cases[i].fields|
      ensures InSlot(n.cases[i], dst, k, c) <==> !n.cases[i].fields[k].ArrayInline?
    {
      assert n.cases[i] in n.cases && n.cases[i].fields[k] in n.cases[i].fields;
      if n.cases[i].fields[k].ArrayInline? {
        CaseIs(n, i);
        CountMisplaced(n.cases[i], BodyOff(true, BodyLg(n.cases)), dst, k, c);
      } else {
        CaseFieldInSlot(n, dst, i, k, c);
      }
    }
    if AllInSlot(n, dst) {
      forall s | s in n.cases ensures NoDirectArray(s) {
        var i :| 0 <= i < |n.cases| && n.cases[i] == s;
        forall f | f in s.fields ensures !f.ArrayInline? {
          var k :| 0 <= k < |s.fields| && s.fields[k] == f;
          assert InSlot(n.cases[i], dst, k, Choice(0, []));
        }
      }
    } else {
      var i: nat, k: nat, c :| i < |n.cases| && n.cases[i].Struct? && k < |n.cases[i].fields| && !InSlot(n.cases[i], dst, k, c);
      assert n.cases[i] in n.cases && n.cases[i].fields[k] in n.cases[i].fields;
    }
  }

  lemma CaseIs(n: Node, i: nat)
    requires n.Union? && n.tagged && Built(n) && i < |n.cases|
    ensures IsCase(n.cases[i], BodyOff(true, BodyLg(n.cases))) && BodyOff(true, BodyLg(n.cases)) > 0
    ensures BodyLg(n.cases) <= n.lg && forall f <- n.cases[i].fields :: Built(f)
    ensures Lay(n.cases[i].fields, true).lg <= BodyLg(n.cases)
  {
    assert n.cases[i] in n.cases;
    CaseFits(n.cases, i);
  }

  lemma CaseFieldInSlot(n: Node, dst: nat, i: nat, k: nat, c: Choice)
    requires n.Union? && n.tagged && Built(n) && Aligned(dst, n.lg) && i < |n.cases|
    requires n.cases[i].Struct? && k < |n.cases[i].fields|
    requires Restricted(n.cases[i].fields[k]) && !n.cases[i].fields[k].ArrayInline?
    ensures InSlot(n.cases[i], dst, k, c)
  {
    CaseIs(n, i);
    var s := n.cases[i];
    var bodyLg := BodyLg(n.cases);
    assert s.fields[k] in s.fields;
    hide InSlot, Aligned, Pow2, Up, Built, Lay, IsCase, Lg;
    LgInLay(s.fields, true, k);
    assert Lg(n) == n.lg by { UnionLg(n); }
    AlignedLess(dst, Lg(s.fields[k]), n.lg);
    AlignedLess(BodyOff(true, bodyLg), Lg(s.fields[k]), bodyLg);
    FieldInSlot(s, BodyOff(true, bodyLg), dst, k, c);
  }

  lemma UnionLg(n: Node)
    requires n.Union?
    ensures Lg(n) == n.lg
  {
  }

  lemma FieldInSlot(s: Node, shift: nat, dst: nat, k: nat, c: Choice)
    requires IsCase(s, shift) && k < |s.fields| && !s.fields[k].ArrayInline?
    requires Built(s.fields[k]) && Restricted(s.fields[k])
    requires Aligned(dst, Lg(s.fields[k])) && Aligned(shift, Lg(s.fields[k]))
    ensures InSlot(s, dst, k, c)
  {
    hide Tidy, Aligned, Pow2, Up, Built, Lay, Lg;
    LayAt(s.fields, true, k);
    AlignedSum(Lay(s.fields, true).offs[k], shift, Lg(s.fields[k]));
    AlignedSum(dst, s.offs[k], Lg(s.fields[k]));
    NodeTidy(s.fields[k], dst, s.offs[k], s.lens[k], c);
  }

  lemma {:induction false} LgInLay(fs: seq<Node>, inCase: bool, k: nat)
    requires k < |fs| && (inCase || Size(fs[k]) > 0)
    ensures Lg(fs[k]) <= Lay(fs, inCase).lg
    decreases |fs|
  {
    hide Up;
    if k < |fs| - 1 { LgInLay(fs[..|fs|-1], inCase, k); }
  }

  /* ---- The layout C gives a struct ---- */

  /** Aligned means what it says: every aligned number is a multiple of 2^k ... */
  lemma {:induction false} AlignedIs(x: nat, k: nat) returns (q: nat)
    requires Aligned(x, k)
    ensures x == Bytes(q, Pow2(k))
    decreases k
  {
    if k > 0 {
      q := AlignedIs(x / 2, k - 1);
      assert q * Pow2(k) == 2 * (q * Pow2(k - 1));
    } else {
      q := x;
    }
  }

  /** ... and every multiple is aligned. */
  lemma MultipleAligned(q: nat, k: nat)
    ensures Aligned(Bytes(q, Pow2(k)), k)
  {
    PowAligned(k);
    AlignedBytes(q, Pow2(k), k);
  }

  /** r is the least multiple of 2^k that is not below x. */
  ghost predicate Least(r: nat, x: nat, k: nat) {
    Aligned(r, k) && x <= r && forall m: nat :: Aligned(m, k) && x <= m ==> r <= m
  }

  lemma UpIsLeast(x: nat, k: nat)
    ensures Least(Up(x, k), x, k)
    ensures forall r: nat :: Least(r, x, k) ==> r == Up(x, k)
  {
    forall m: nat | Aligned(m, k) && x <= m ensures Up(x, k) <= m {
      if m < Up(x, k) { AlignedApart(m, Up(x, k), k); }
    }
    hide Up, Aligned;
  }

  /** The entry has a place: in a case every entry does, in a struct every one with a size. */
  predicate Placed(f: Node, inCase: bool) { inCase || Size(f) > 0 }

  /** Where the entries before i end: after the last of them that has a place. */
  function EndBefore(fs: seq<Node>, inCase: bool, offs: seq<nat>, lens: seq<nat>, i: nat): nat
    requires i <= |fs| == |offs| == |lens|
  {
    if i == 0 then 0
    else if !Placed(fs[i - 1], inCase) then EndBefore(fs, inCase, offs, lens, i - 1)
    else if fs[i - 1].ArrayInline? then lens[i - 1] + INT
    else offs[i - 1] + Size(fs[i - 1])
  }

  /** An entry is at the first aligned place after those before it; the count of an array follows
      its pointer at the first place for an int. */
  ghost predicate PlacedRight(fs: seq<Node>, inCase: bool, offs: seq<nat>, lens: seq<nat>, i: nat)
    requires i < |fs| == |offs| == |lens|
  {
    if !Placed(fs[i], inCase) then offs[i] == SIZE_MAX && lens[i] == 0
    else
      && Least(offs[i], EndBefore(fs, inCase, offs, lens, i), Lg(fs[i]))
      && if fs[i].ArrayInline? then Least(lens[i], offs[i] + PTR, LG_INT) else lens[i] == 0
  }

  /** The layout C gives these members: offsets, count slots, end and alignment. */
  ghost predicate CLayout(fs: seq<Node>, inCase: bool, l: Laid) {
    && |l.offs| == |l.lens| == |fs|
    && (forall i :: 0 <= i < |fs| ==> PlacedRight(fs, inCase, l.offs, l.lens, i))
    && l.end == EndBefore(fs, inCase, l.offs, l.lens, |fs|)
    && (forall i :: 0 <= i < |fs| && Placed(fs[i], inCase) ==> Lg(fs[i]) <= l.lg)
    && (l.lg == 0 || exists i :: 0 <= i < |fs| && Placed(fs[i], inCase) && Lg(fs[i]) == l.lg)
  }

  lemma {:induction false} EndBeforeLocal(fs: seq<Node>, inCase: bool, offs: seq<nat>, lens: seq<nat>, k: nat, i: nat)
    requires i <= k <= |fs| == |offs| == |lens|
    ensures EndBefore(fs[..k], inCase, offs[..k], lens[..k], i) == EndBefore(fs, inCase, offs, lens, i)
    decreases i
  {
    if i > 0 { EndBeforeLocal(fs, inCase, offs, lens, k, i - 1); }
  }

  /** The layout of the entries before the last, inside the layout of all. */
  lemma PrefixRight(fs: seq<Node>, inCase: bool, offs: seq<nat>, lens: seq<nat>, k: nat, i: nat)
    requires i < k <= |fs| == |offs| == |lens|
    ensures PlacedRight(fs[..k], inCase, offs[..k], lens[..k], i) <==> PlacedRight(fs, inCase, offs, lens, i)
  {
    EndBeforeLocal(fs, inCase, offs, lens, k, i);
    hide EndBefore, Least, Size, Lg;
  }

  /** The loop computes the layout of C ... */
  lemma {:induction false} LayIsC(fs: seq<Node>, inCase: bool)
    ensures CLayout(fs, inCase, Lay(fs, inCase))
    decreases |fs|
  {
    hide PlacedRight, Place, Size, Lg;
    if fs == [] { return; }
    var k := |fs| - 1;
    var p, f := Lay(fs[..k], inCase), fs[k];
    LayIsC(fs[..k], inCase);
    var l := Place(p, f, inCase);
    PlaceKeeps(p, f, inCase);
    forall i | 0 <= i < |fs| ensures PlacedRight(fs, inCase, l.offs, l.lens, i) {
      if i < k { PrefixRight(fs, inCase, l.offs, l.lens, k, i); } else { LastRight(fs, inCase, p, l); }
    }
    EndIsRight(fs, inCase, p, l);
    if l.lg == p.lg && p.lg != 0 {
      var i :| 0 <= i < k && Placed(fs[..k][i], inCase) && Lg(fs[..k][i]) == p.lg;
      assert Placed(fs[i], inCase) && Lg(fs[i]) == l.lg;
    }
    forall i | 0 <= i < |fs| && Placed(fs[i], inCase) ensures Lg(fs[i]) <= l.lg {
      if i < k { assert fs[..k][i] == fs[i]; }
    }
  }

  lemma PlaceKeeps(p: Laid, f: Node, inCase: bool)
    requires |p.offs| == |p.lens|
    ensures var l := Place(p, f, inCase);
      && |l.offs| == |l.lens| == |p.offs| + 1 && l.offs[..|p.offs|] == p.offs && l.lens[..|p.offs|] == p.lens
      && l.lg == (if Placed(f, inCase) then Max(p.lg, Lg(f)) else p.lg)
  {
  }

  /** Where the last entry is put. */
  lemma PlaceIs(p: Laid, f: Node, inCase: bool)
    requires |p.offs| == |p.lens|
    ensures var l := Place(p, f, inCase); var k := |p.offs|;
      |l.offs| == |l.lens| == k + 1 &&
      if !Placed(f, inCase) then l.offs[k] == SIZE_MAX && l.lens[k] == 0
      else l.offs[k] == Up(p.end, Lg(f)) && l.lens[k] == if f.ArrayInline? then Up(l.offs[k] + PTR, LG_INT) else 0
  {
    hide Up, Pow2, Lg;
  }

  lemma LastRight(fs: seq<Node>, inCase: bool, p: Laid, l: Laid)
    requires fs != [] && |p.offs| == |p.lens| == |fs| - 1 && l == Place(p, fs[|fs|-1], inCase)
    requires p.end == EndBefore(fs[..|fs|-1], inCase, p.offs, p.lens, |fs| - 1)
    ensures PlacedRight(fs, inCase, l.offs, l.lens, |fs| - 1)
  {
    hide EndBefore, Least, Up, Pow2, Size, Lg, Place;
    var k := |fs| - 1;
    PlaceKeeps(p, fs[k], inCase);
    EndBeforeLocal(fs, inCase, l.offs, l.lens, k, k);
    PlaceIs(p, fs[k], inCase);
    UpIsLeast(p.end, Lg(fs[k]));
    UpIsLeast(l.offs[k] + PTR, LG_INT);
  }

  lemma EndIsRight(fs: seq<Node>, inCase: bool, p: Laid, l: Laid)
    requires fs != [] && |p.offs| == |p.lens| == |fs| - 1 && l == Place(p, fs[|fs|-1], inCase)
    requires p.end == EndBefore(fs[..|fs|-1], inCase, p.offs, p.lens, |fs| - 1)
    ensures |l.offs| == |l.lens| == |fs| && l.end == EndBefore(fs, inCase, l.offs, l.lens, |fs|)
  {
    hide Up, Pow2, Lg;
    var k := |fs| - 1;
    PlaceKeeps(p, fs[k], inCase);
    EndBeforeLocal(fs, inCase, l.offs, l.lens, k, k);
  }

  lemma {:induction false} OnePlace(fs: seq<Node>, inCase: bool, a: Laid, b: Laid, i: nat)
    requires CLayout(fs, inCase, a) && CLayout(fs, inCase, b) && i <= |fs|
    ensures forall j :: 0 <= j < i ==> a.offs[j] == b.offs[j] && a.lens[j] == b.lens[j]
    ensures EndBefore(fs, inCase, a.offs, a.lens, i) == EndBefore(fs, inCase, b.offs, b.lens, i)
    decreases i
  {
    hide Size, Lg, Aligned;
    if i > 0 {
      OnePlace(fs, inCase, a, b, i - 1);
      assert PlacedRight(fs, inCase, a.offs, a.lens, i - 1) && PlacedRight(fs, inCase, b.offs, b.lens, i - 1);
    }
  }

  /** ... and that is the only one. */
  lemma OneLayout(fs: seq<Node>, inCase: bool, a: Laid, b: Laid)
    requires CLayout(fs, inCase, a) && CLayout(fs, inCase, b)
    ensures a == b
  {
    OnePlace(fs, inCase, a, b, |fs|);
    hide PlacedRight, EndBefore, Size, Lg;
    assert a.lg == b.lg;
    assert a.offs == b.offs && a.lens == b.lens;
  }

  lemma ItIsC(fs: seq<Node>, inCase: bool, l: Laid)
    ensures CLayout(fs, inCase, l) <==> l == Lay(fs, inCase)
  {
    LayIsC(fs, inCase);
    if CLayout(fs, inCase, l) { OneLayout(fs, inCase, l, Lay(fs, inCase)); }
  }

  /** A case of a union: laid out as C does, its size the least multiple of its alignment. */
  ghost predicate CCase(entries: seq<Node>, size: nat, lg: nat, offs: seq<nat>, lens: seq<nat>) {
    exists end :: CLayout(entries, true, Laid(offs, lens, end, lg)) && Least(size, end, lg)
  }

  lemma CaseIsC(entries: seq<Node>)
    ensures var c := CaseOf(entries); CCase(entries, c.size, c.lg, c.offs, c.lens)
  {
    var l := Lay(entries, true);
    LayIsC(entries, true);
    UpIsLeast(l.end, l.lg);
    hide CLayout, Least, Lay, Up;
  }

  /** Case i of a union whose body starts at off. */
  ghost predicate CaseAt(list: seq<seq<Node>>, u: Node, off: nat, i: nat, size: nat, lg: nat)
    requires u.Union? && i < |list| == |u.cases|
  {
    var c := u.cases[i];
    c.Struct? && c.fields == list[i] && |c.offs| == |list[i]| &&
    (forall j :: 0 <= j < |c.offs| ==> off <= c.offs[j]) &&
    CCase(list[i], size, lg, seq(|c.offs|, j requires 0 <= j < |c.offs| => if off <= c.offs[j] then c.offs[j] - off else 0), c.lens)
  }

  /**
    What hegel__union_make computes is a C union: the body comes first, or after the tag at the
    first place its alignment allows; every case is laid out as a struct from there; the body is
    as large and as aligned as its largest and most aligned case, and no more; and the whole is
    the least multiple of its alignment that holds tag and body.
   */
  lemma UnionIsC(tagged: bool, list: seq<seq<Node>>) returns (off: nat, body: nat, bodyLg: nat, sizes: seq<nat>, lgs: seq<nat>)
    ensures var u := UnionOf(tagged, list);
      && |u.cases| == |sizes| == |lgs| == |list|
      && (forall i :: 0 <= i < |list| ==> CaseAt(list, u, off, i, sizes[i], lgs[i]))
      && (forall i :: 0 <= i < |list| ==> sizes[i] <= body && lgs[i] <= bodyLg)
      && (body == 0 || body in sizes) && (bodyLg == 0 || bodyLg in lgs)
      && (if tagged then Least(off, INT, bodyLg) else off == 0)
      && u.lg == (if tagged && bodyLg < LG_INT then LG_INT else bodyLg)
      && Least(u.size, off + body, u.lg)
  {
    hide Lay, Up, Least, CLayout, CaseOf, CaseAt, BodySize, BodyLg, CasesOf, UnionOf;
    sizes, lgs := Measures(list);
    var u := UnionOf(tagged, list);
    off, body, bodyLg := UnionParts(tagged, list);
    UpIsLeast(INT, bodyLg);
    UpIsLeast(off + body, u.lg);
    forall i | 0 <= i < |list| ensures CaseAt(list, u, off, i, sizes[i], lgs[i]) { CaseIsAt(list, u, off, i); }
  }

  lemma UnionParts(tagged: bool, list: seq<seq<Node>>) returns (off: nat, body: nat, bodyLg: nat)
    ensures body == BodySize(CasesOf(list)) && bodyLg == BodyLg(CasesOf(list))
    ensures var u := UnionOf(tagged, list);
      && |u.cases| == |list| && (forall i :: 0 <= i < |list| ==> u.cases[i] == Moved(CaseOf(list[i]), off))
      && off == (if tagged then Up(INT, bodyLg) else 0)
      && u.lg == (if tagged && bodyLg < LG_INT then LG_INT else bodyLg) && u.size == Up(off + body, u.lg)
  {
    hide Lay, Up, CaseOf, BodySize, BodyLg, Moved;
    body, bodyLg := BodySize(CasesOf(list)), BodyLg(CasesOf(list));
    off := BodyOff(tagged, bodyLg);
  }

  lemma Measures(list: seq<seq<Node>>) returns (sizes: seq<nat>, lgs: seq<nat>)
    ensures var body, bodyLg := BodySize(CasesOf(list)), BodyLg(CasesOf(list));
      && |sizes| == |lgs| == |list|
      && (forall i :: 0 <= i < |list| ==> sizes[i] == CaseOf(list[i]).size && lgs[i] == CaseOf(list[i]).lg)
      && (forall i :: 0 <= i < |list| ==> sizes[i] <= body && lgs[i] <= bodyLg)
      && (body == 0 || body in sizes) && (bodyLg == 0 || bodyLg in lgs)
  {
    hide CaseOf, BodySize, BodyLg, CasesOf;
    sizes := seq(|list|, i requires 0 <= i < |list| => CaseOf(list[i]).size);
    lgs := seq(|list|, i requires 0 <= i < |list| => CaseOf(list[i]).lg);
    BodyIsMax(list);
    var body, bodyLg := BodySize(CasesOf(list)), BodyLg(CasesOf(list));
    if body != 0 {
      var i :| 0 <= i < |list| && CaseOf(list[i]).size == body;
      assert sizes[i] == body;
    }
    if bodyLg != 0 {
      var i :| 0 <= i < |list| && CaseOf(list[i]).lg == bodyLg;
      assert lgs[i] == bodyLg;
    }
  }

  lemma CaseParts(entries: seq<Node>)
    ensures var c := CaseOf(entries); var l := Lay(entries, true);
      c.Struct? && c.fields == entries && c.offs == l.offs && c.lens == l.lens && |l.offs| == |entries|
  {
    hide Lay, Up;
  }

  lemma CaseIsAt(list: seq<seq<Node>>, u: Node, off: nat, i: nat)
    requires u.Union? && i < |list| == |u.cases| && u.cases[i] == Moved(CaseOf(list[i]), off)
    ensures CaseAt(list, u, off, i, CaseOf(list[i]).size, CaseOf(list[i]).lg)
  {
    hide Lay, Up, CCase, CaseOf;
    CaseIsC(list[i]);
    CaseParts(list[i]);
    var c := u.cases[i];
    assert c.offs == Shifted(Lay(list[i], true).offs, off);
    assert seq(|c.offs|, j requires 0 <= j < |c.offs| => if off <= c.offs[j] then c.offs[j] - off else 0) == Lay(list[i], true).offs;
  }

  lemma {:induction false} BodyIsMax(list: seq<seq<Node>>)
    ensures var cs := CasesOf(list);
      && (forall i :: 0 <= i < |list| ==> CaseOf(list[i]).size <= BodySize(cs) && CaseOf(list[i]).lg <= BodyLg(cs))
      && (BodySize(cs) == 0 || exists i :: 0 <= i < |list| && CaseOf(list[i]).size == BodySize(cs))
      && (BodyLg(cs) == 0 || exists i :: 0 <= i < |list| && CaseOf(list[i]).lg == BodyLg(cs))
    decreases |list|
  {
    hide CaseOf, BodySize, BodyLg, CasesOf;
    if list == [] {
      NoCases(list);
    } else {
      var k := |list| - 1;
      BodyIsMax(list[..k]);
      CaseStep(list, k);
      assert list[..k + 1] == list;
      forall i | 0 <= i < k ensures list[..k][i] == list[i] {}
      var was := CasesOf(list[..k]);
      if BodySize(was) != 0 {
        var i :| 0 <= i < |list[..k]| && CaseOf(list[..k][i]).size == BodySize(was);
        assert CaseOf(list[i]).size == BodySize(was);
      }
      if BodyLg(was) != 0 {
        var i :| 0 <= i < |list[..k]| && CaseOf(list[..k][i]).lg == BodyLg(was);
        assert CaseOf(list[i]).lg == BodyLg(was);
      }
    }
  }

  /** The writes of a struct are those of its fields. */
  lemma {:induction false} FieldIsWritten(fs: seq<Node>, offs: seq<nat>, lens: seq<nat>, base: nat, c: Choice, w: Write)
    requires |offs| == |lens| == |fs|
    ensures w in FieldWrites(fs, offs, lens, base, c) <==>
      exists k :: 0 <= k < |fs| && w in Writes(fs[k], base, offs[k], lens[k], Sub(c, k))
    decreases |fs|
  {
    hide Writes;
    if fs != [] {
      var k := |fs| - 1;
      FieldIsWritten(fs[..k], offs[..k], lens[..k], base, c, w);
      if w in FieldWrites(fs[..k], offs[..k], lens[..k], base, c) {
        var i :| 0 <= i < k && w in Writes(fs[..k][i], base, offs[..k][i], lens[..k][i], Sub(c, i));
        assert w in Writes(fs[i], base, offs[i], lens[i], Sub(c, i));
      }
      forall i | 0 <= i < k && w in Writes(fs[i], base, offs[i], lens[i], Sub(c, i))
        ensures w in FieldWrites(fs[..k], offs[..k], lens[..k], base, c)
      {
        assert w in Writes(fs[..k][i], base, offs[..k][i], lens[..k][i], Sub(c, i));
      }
    }
  }

  /** A draw of a struct writes every field at its own offset and in its own width: a scalar, a
      pointer that is set, both parts of an ARRAY_INLINE, the tag of a union, both of a variant,
      and all that a nested struct or the picked case of a union writes there. */
  lemma EveryFieldWritten(n: Node, parent: nat, off: nat, c: Choice, k: nat)
    requires n.Struct? && |n.offs| == |n.lens| == |n.fields| && k < |n.fields|
    ensures var ws := Writes(n, parent, off, 0, c);
      var at := parent + off + n.offs[k];
      match n.fields[k]
      case Scalar(lg) => Write(at, lg) in ws
      case Pointer => Sub(c, k).pick != 0 ==> Write(at, LG_PTR) in ws
      case ArrayInline(_, _) => Write(at, LG_PTR) in ws && Write(parent + off + n.lens[k], LG_INT) in ws
      case OneOf(cases) =>
        Sub(c, k).pick < |cases| && cases[Sub(c, k).pick].Scalar? ==> Write(at, cases[Sub(c, k).pick].lg) in ws
      case Union(tagged, _, _, _) => tagged ==> Write(at, LG_INT) in ws
      case Variant(_, tagOff, ptrOff, _, _) => Write(at + tagOff, LG_INT) in ws && Write(at + ptrOff, LG_PTR) in ws
      case _ => true
    ensures n.fields[k].Struct? ==>
      forall w <- Writes(n.fields[k], parent + off + n.offs[k], 0, 0, Sub(c, k)) :: w in Writes(n, parent, off, 0, c)
    ensures n.fields[k].Union? && Sub(c, k).pick < |n.fields[k].cases| ==>
      forall w <- Writes(n.fields[k].cases[Sub(c, k).pick], parent + off + n.offs[k], 0, 0, Sub(Sub(c, k), 0)) ::
        w in Writes(n, parent, off, 0, c)
  {
    hide FieldWrites;
    var f := n.fields[k];
    var sub := Writes(f, parent + off, n.offs[k], n.lens[k], Sub(c, k));
    var d := Sub(c, k);
    if f.OneOf? && d.pick < |f.cases| && f.cases[d.pick].Scalar? {
      assert Writes(f.cases[d.pick], parent + off, n.offs[k], 0, Sub(d, 0)) == [Write(parent + off + n.offs[k], f.cases[d.pick].lg)];
    }
    forall w | w in sub ensures w in Writes(n, parent, off, 0, c) {
      FieldIsWritten(n.fields, n.offs, n.lens, parent + off, c, w);
    }
  }

  /* ---- The builders ---- */

  /** Laying out fs stays within size_t. */
  predicate Fits(fs: seq<Node>, inCase: bool)
    decreases |fs|
  {
    fs == [] ||
    (var p := Lay(fs[..|fs|-1], inCase);
     var f := fs[|fs|-1];
     Fits(fs[..|fs|-1], inCase) && p.end + Pow2(Lg(f)) + Size(f) + PTR <= WORD &&
     Lay(fs, inCase).end + Pow2(Lay(fs, inCase).lg) <= WORD)
  }

  lemma {:induction false} FitsPrefix(fs: seq<Node>, inCase: bool, k: nat)
    requires Fits(fs, inCase) && k <= |fs|
    ensures Fits(fs[..k], inCase)
    decreases |fs|
  {
    if k == |fs| { assert fs[..k] == fs; } else {
      FitsPrefix(fs[..|fs|-1], inCase, k);
      assert fs[..|fs|-1][..k] == fs[..k];
    }
  }

  /** The slot of one entry: the body of the layout loops. */
  method Slot(e: Node, cur: nat, lg: nat, inCase: bool, ghost p: Laid) returns (off: nat, count: nat, cur': nat, lg': nat)
    requires p.end == cur && p.lg == lg && cur + Pow2(Lg(e)) + Size(e) + PTR <= WORD
    ensures Place(p, e, inCase) == Laid(p.offs + [off], p.lens + [count], cur', lg')
  {
    hide Pow2, AlignUp, Up;
    var size, align := Size(e), Lg(e);
    if size == 0 && !inCase {
      return SIZE_MAX, 0, cur, lg;
    }
    AlignUpIs(cur, align);
    UpBelow(cur, align);
    off := AlignUp(cur, align);
    cur', lg', count := off + size, Max(lg, align), 0;
    if e.ArrayInline? {
      Widths();
      AlignUpIs(cur', LG_INT);
      count := AlignUp(cur', LG_INT);
      cur' := count + INT;
      lg' := Max(lg', LG_INT);
    }
  }

  lemma UpBelow(x: nat, k: nat)
    ensures Up(x, k) < x + Pow2(k)
  {
  }

  /** hegel__struct_build; None: the layout is not that of the declared type, and it aborts. */
  method StructBuild(declSize: nat, declLg: nat, entries: seq<Node>) returns (r: Option<Node>)
    requires Fits(entries, false)
    ensures var l := Lay(entries, false);
      r == if declSize == Up(l.end, l.lg) && l.lg <= declLg then Some(Struct(declSize, declLg, entries, l.offs, l.lens)) else None
    ensures forall l :: CLayout(entries, false, l) ==>
      r == if Least(declSize, l.end, l.lg) && l.lg <= declLg then Some(Struct(declSize, declLg, entries, l.offs, l.lens)) else None
    ensures r.Some? ==> exists l :: CLayout(entries, false, l) && r.value.offs == l.offs && r.value.lens == l.lens
  {
    BuiltAsC(declSize, declLg, entries);
    hide Lay, Up, CLayout, Least, Fits;
    var offs, lens, cur, lg := LayOut(entries, false);
    var total := Total(entries, false, cur, lg);
    if total != declSize { return None; }
    if declLg < lg { return None; }
    r := Some(Struct(declSize, declLg, entries, offs[..], lens[..]));
  }

  lemma BuiltAsC(declSize: nat, declLg: nat, entries: seq<Node>)
    ensures var l := Lay(entries, false);
      CLayout(entries, false, l) && (Least(declSize, l.end, l.lg) <==> declSize == Up(l.end, l.lg))
    ensures forall l :: CLayout(entries, false, l) ==> l == Lay(entries, false)
  {
    hide CLayout, Least, Lay, Up;
    LayIsC(entries, false);
    UpIsLeast(Lay(entries, false).end, Lay(entries, false).lg);
    forall l | CLayout(entries, false, l) ensures l == Lay(entries, false) { ItIsC(entries, false, l); }
  }

  /** The loop over the entries. */
  method LayOut(entries: seq<Node>, inCase: bool) returns (offs: array<nat>, lens: array<nat>, cur: nat, lg: nat)
    requires Fits(entries, inCase)
    ensures Lay(entries, inCase) == Laid(offs[..], lens[..], cur, lg)
    ensures CLayout(entries, inCase, Laid(offs[..], lens[..], cur, lg))
  {
    LayIsC(entries, inCase);
    hide Place, Size, Lg, Fits, CLayout;
    var n := |entries|;
    offs, lens := new nat[n](_ => 0), new nat[n](_ => 0);
    cur, lg := 0, 0;
    assert entries[..0] == [];
    for i := 0 to n
      invariant Lay(entries[..i], inCase) == Laid(offs[..i], lens[..i], cur, lg)
    {
      ghost var p := Lay(entries[..i], inCase);
      StepFits(entries, inCase, i);
      var off, count, cur', lg' := Slot(entries[i], cur, lg, inCase, p);
      offs[i], lens[i], cur, lg := off, count, cur', lg';
      assert offs[..i + 1] == p.offs + [off] && lens[..i + 1] == p.lens + [count];
    }
    assert entries[..n] == entries && offs[..n] == offs[..] && lens[..n] == lens[..];
  }

  lemma StepFits(fs: seq<Node>, inCase: bool, i: nat)
    requires Fits(fs, inCase) && i < |fs|
    ensures Lay(fs[..i], inCase).end + Pow2(Lg(fs[i])) + Size(fs[i]) + PTR <= WORD
    ensures Lay(fs[..i + 1], inCase) == Place(Lay(fs[..i], inCase), fs[i], inCase)
  {
    FitsPrefix(fs, inCase, i + 1);
    assert fs[..i + 1][..i] == fs[..i];
    hide Place, Size, Lg;
  }

  /** The end rounded up to the alignment. */
  method Total(ghost entries: seq<Node>, ghost inCase: bool, cur: nat, lg: nat) returns (total: nat)
    requires Fits(entries, inCase) && Lay(entries, inCase).end == cur && Lay(entries, inCase).lg == lg
    ensures total == Up(cur, lg)
  {
    EndFits(entries, inCase);
    AlignUpIs(cur, lg);
    total := AlignUp(cur, lg);
  }

  lemma EndFits(fs: seq<Node>, inCase: bool)
    requires Fits(fs, inCase)
    ensures Lay(fs, inCase).end + Pow2(Lay(fs, inCase).lg) <= WORD
  {
  }

  /** hegel__lay_case; None: a union or variant directly in a case, and it aborts. */
  method LayCase(entries: seq<Node>) returns (r: Option<Node>)
    requires Fits(entries, true)
    ensures r == if Layable(entries) then Some(CaseOf(entries)) else None
    ensures r.Some? ==> CCase(entries, r.value.size, r.value.lg, r.value.offs, r.value.lens)
  {
    CaseIsC(entries);
    hide CCase;
    hide Fits, Lay, Up, Pow2, AlignUp;
    for i := 0 to |entries|
      invariant forall f :: f in entries[..i] ==> !f.Union? && !f.Variant?
    {
      if entries[i].Union? || entries[i].Variant? { return None; }
    }
    assert entries[..|entries|] == entries;
    var offs, lens, cur, lg := LayOut(entries, true);
    var total := Total(entries, true, cur, lg);
    r := Some(Struct(total, lg, entries, offs[..], lens[..]));
  }

  /** A case as hegel__lay_case leaves it. */
  function CaseOf(entries: seq<Node>): (r: Node)
    ensures r.Struct? && r.fields == entries
  {
    var l := Lay(entries, true);
    Struct(Up(l.end, l.lg), l.lg, entries, l.offs, l.lens)
  }

  function CasesOf(list: seq<seq<Node>>): (r: seq<Node>)
    ensures |r| == |list| && forall c <- r :: c.Struct?
    ensures forall i :: 0 <= i < |list| ==> r[i] == CaseOf(list[i])
  {
    if list == [] then [] else CasesOf(list[..|list|-1]) + [CaseOf(list[|list|-1])]
  }

  /** Case fields are bumped by the place of the body. */
  function MovedCases(cases: seq<Node>, shift: nat): (r: seq<Node>)
    ensures |r| == |cases| && forall i :: 0 <= i < |cases| ==> r[i] == Moved(cases[i], shift)
  {
    seq(|cases|, i requires 0 <= i < |cases| => Moved(cases[i], shift))
  }

  function Moved(c: Node, shift: nat): (r: Node)
    ensures r.Struct? == c.Struct? && FieldsOf(r) == FieldsOf(c)
  {
    if c.Struct? then c.(offs := Shifted(c.offs, shift)) else c
  }

  function UnionOf(tagged: bool, list: seq<seq<Node>>): (r: Node)
    ensures r.Union?
  {
    UnionAround(tagged, CasesOf(list))
  }

  function UnionAround(tagged: bool, cases: seq<Node>): (r: Node)
    ensures r.Union?
  {
    var bodyLg := BodyLg(cases);
    var off := BodyOff(tagged, bodyLg);
    var lg := if tagged then Max(LG_INT, bodyLg) else bodyLg;
    Union(tagged, MovedCases(cases, off), Up(off + BodySize(cases), lg), lg)
  }

  /** No union or variant directly in a case. */
  predicate Layable(entries: seq<Node>) { forall f <- entries :: !f.Union? && !f.Variant? }

  predicate NoNested(list: seq<seq<Node>>) { forall entries <- list :: Layable(entries) }

  /** hegel__shift_union_cases, in place. */
  method ShiftUnionCases(cases: array<Node>, shift: nat)
    requires forall c <- cases[..] :: c.Struct?
    modifies cases
    ensures cases[..] == MovedCases(old(cases[..]), shift)
  {
    ghost var was := cases[..];
    for i := 0 to cases.Length
      invariant forall k :: 0 <= k < i ==> cases[k] == Moved(was[k], shift)
      invariant forall k :: i <= k < cases.Length ==> cases[k] == was[k]
    {
      assert was[i] in was;
      var c := cases[i];
      for j := 0 to |c.offs|
        invariant c.Struct? && c == was[i].(offs := c.offs) && |c.offs| == |was[i].offs|
        invariant forall k :: 0 <= k < |c.offs| ==> c.offs[k] == was[i].offs[k] + if k < j then shift else 0
      {
        c := c.(offs := c.offs[j := c.offs[j] + shift]);
      }
      assert c.offs == Shifted(was[i].offs, shift);
      cases[i] := c;
    }
    assert cases[..] == MovedCases(was, shift);
  }

  /** hegel__union_make; None: a case could not be laid out. */
  method UnionMake(tagged: bool, list: seq<seq<Node>>) returns (r: Option<Node>)
    requires forall entries <- list :: Fits(entries, true)
    requires UnionOf(tagged, list).size + Pow2(UnionOf(tagged, list).lg) + PTR <= WORD
    ensures r == if NoNested(list) then Some(UnionOf(tagged, list)) else None
  {
    hide Fits, Lay, Up, Pow2, AlignUp, CaseOf;
    var ok, cases, bodySize, bodyLg := LayCases(list);
    if !ok { return None; }
    UnionFits(tagged, list);
    var bodyOff, lg := 0, bodyLg;
    if tagged {
      lg := Max(LG_INT, bodyLg);
      AlignUpIs(INT, bodyLg);
      bodyOff := AlignUp(INT, bodyLg);
    }
    AlignUpIs(bodyOff + bodySize, lg);
    var size := AlignUp(bodyOff + bodySize, lg);
    ShiftUnionCases(cases, bodyOff);
    r := Some(Union(tagged, cases[..], size, lg));
  }

  /** Lays out each case and keeps the largest size and alignment. */
  method LayCases(list: seq<seq<Node>>) returns (ok: bool, cases: array<Node>, bodySize: nat, bodyLg: nat)
    requires forall entries <- list :: Fits(entries, true)
    ensures fresh(cases) && ok == NoNested(list)
    ensures ok ==> cases[..] == CasesOf(list) && bodySize == BodySize(CasesOf(list)) && bodyLg == BodyLg(CasesOf(list))
  {
    hide Fits, CaseOf, BodySize, BodyLg, CasesOf, Layable;
    var n := |list|;
    cases := new Node[n](_ => Struct(0, 0, [], [], []));
    bodySize, bodyLg := 0, 0;
    NoCases(list);
    for i := 0 to n
      invariant cases[..i] == CasesOf(list[..i]) && NoNested(list[..i])
      invariant bodySize == BodySize(CasesOf(list[..i])) && bodyLg == BodyLg(CasesOf(list[..i]))
    {
      ghost var done := cases[..i];
      var c := LayCase(list[i]);
      if c.None? { return false, cases, 0, 0; }
      cases[i] := c.value;
      CaseStep(list, i);
      bodySize := if c.value.size > bodySize then c.value.size else bodySize;
      bodyLg := if c.value.lg > bodyLg then c.value.lg else bodyLg;
      assert cases[..i + 1] == done + [c.value];
      assert list[..i + 1] == list[..i] + [list[i]];
    }
    assert list[..n] == list && cases[..n] == cases[..];
    ok := true;
  }

  lemma NoCases(list: seq<seq<Node>>)
    ensures list[..0] == [] && CasesOf(list[..0]) == [] && BodySize(CasesOf(list[..0])) == 0 &&
        BodyLg(CasesOf(list[..0])) == 0
  {
    assert list[..0] == [];
  }

  lemma CaseStep(list: seq<seq<Node>>, i: nat)
    requires i < |list|
    ensures CaseOf(list[i]).Struct?
    ensures CasesOf(list[..i + 1]) == CasesOf(list[..i]) + [CaseOf(list[i])]
    ensures BodySize(CasesOf(list[..i + 1])) == Max(BodySize(CasesOf(list[..i])), CaseOf(list[i]).size)
    ensures BodyLg(CasesOf(list[..i + 1])) == Max(BodyLg(CasesOf(list[..i])), CaseOf(list[i]).lg)
  {
    assert list[..i + 1][..i] == list[..i];
    var cs := CasesOf(list[..i + 1]);
    assert cs[..i] == CasesOf(list[..i]) && cs[i] == CaseOf(list[i]);
    hide Lay, Up;
  }

  lemma UnionFits(tagged: bool, list: seq<seq<Node>>)
    requires UnionOf(tagged, list).size + Pow2(UnionOf(tagged, list).lg) + PTR <= WORD
    ensures var bodyLg := BodyLg(CasesOf(list));
      var off := BodyOff(tagged, bodyLg);
      var lg := if tagged then Max(LG_INT, bodyLg) else bodyLg;
      (tagged ==> INT + Pow2(bodyLg) <= WORD) && off + BodySize(CasesOf(list)) + Pow2(lg) <= WORD
  {
    var bodyLg := BodyLg(CasesOf(list));
    if tagged { PowMono(bodyLg, Max(LG_INT, bodyLg)); }
    hide Lay, Pow2;
  }

  /** hegel__variant_make. */
  method VariantMake(cases: seq<Node>) returns (v: Node)
    ensures v == Variant(cases, 0, PTR, 2 * PTR, LG_PTR)
  {
    VariantNumbers();
    var ptrOff := AlignUp(INT, LG_PTR);
    var lg := if LG_PTR > LG_INT then LG_PTR else LG_INT;
    var size := AlignUp(ptrOff + PTR, lg);
    v := Variant(cases, 0, ptrOff, size, lg);
  }

  lemma VariantNumbers()
    ensures AlignUp(INT, LG_PTR) == PTR && AlignUp(2 * PTR, LG_PTR) == 2 * PTR
  {
    Widths();
    EightAligned();
    AlignUpIs(INT, LG_PTR);
    AlignUpIs(2 * PTR, LG_PTR);
    AlignedSum(PTR, PTR, LG_PTR);
    UpAligned(2 * PTR, LG_PTR);
    hide Pow2, Aligned, AlignUp;
    AlignedZero(LG_PTR);
    AlignedApart(0, Up(INT, LG_PTR), LG_PTR);
  }

  /* ---- What the builders make is Built ---- */

  lemma StructIsBuilt(declSize: nat, declLg: nat, entries: seq<Node>)
    requires (forall e <- entries :: Built(e)) && Aligned(declSize, declLg) && declSize > 0
    requires var l := Lay(entries, false); declSize == Up(l.end, l.lg) && l.lg <= declLg
    ensures var l := Lay(entries, false); Built(Struct(declSize, declLg, entries, l.offs, l.lens))
  {
    hide Lay;
  }

  lemma CaseIsBuilt(entries: seq<Node>, shift: nat)
    requires Layable(entries) && forall f <- entries :: Built(f) && !f.Let?
    ensures var c := CaseOf(entries);
      var moved := Struct(c.size, c.lg, c.fields, Shifted(c.offs, shift), c.lens);
      IsCase(moved, shift) && forall f <- moved.fields :: Built(f)
  {
    hide Lay, Up, Built;
  }

  /** Cases a union can be made of. */
  predicate GoodList(list: seq<seq<Node>>) {
    list != [] && forall entries <- list :: Layable(entries) && forall f <- entries :: Built(f) && !f.Let?
  }

  predicate BuiltCases(cases: seq<Node>, shift: nat) {
    cases != [] && forall c <- cases :: c.Struct? && IsCase(c, shift) && forall f <- c.fields :: Built(f)
  }

  lemma MovedAreCases(list: seq<seq<Node>>, shift: nat)
    requires GoodList(list)
    ensures BuiltCases(MovedCases(CasesOf(list), shift), shift)
  {
    hide Lay, Built, IsCase, Layable;
    var cases := MovedCases(CasesOf(list), shift);
    forall c | c in cases ensures c.Struct? && IsCase(c, shift) && forall f <- c.fields :: Built(f) {
      var i :| 0 <= i < |cases| && cases[i] == c;
      assert list[i] in list;
      var u := CaseOf(list[i]);
      assert c == Moved(u, shift) == Struct(u.size, u.lg, u.fields, Shifted(u.offs, shift), u.lens);
      CaseIsBuilt(list[i], shift);
    }
  }

  /** n is laid out around `cases`. */
  predicate Around(n: Node, cases: seq<Node>, off: nat) {
    && n.Union? && n.size > 0
    && BodyLg(n.cases) == BodyLg(cases) && BodySize(n.cases) == BodySize(cases) &&
       off == BodyOff(n.tagged, BodyLg(cases))
    && n.lg == (if n.tagged then Max(LG_INT, BodyLg(cases)) else BodyLg(cases)) &&
       n.size == Up(off + BodySize(cases), n.lg)
  }

  lemma UnionIsAround(tagged: bool, cases: seq<Node>)
    requires UnionAround(tagged, cases).size > 0
    ensures var off := BodyOff(tagged, BodyLg(cases));
      UnionAround(tagged, cases).cases == MovedCases(cases, off) && Around(UnionAround(tagged, cases), cases, off)
  {
    MovedMeasure(cases, BodyOff(tagged, BodyLg(cases)));
    hide BodySize, BodyLg, BodyOff, MovedCases, Up;
  }

  lemma UnionIsBuilt(tagged: bool, list: seq<seq<Node>>)
    requires GoodList(list) && UnionOf(tagged, list).size > 0
    ensures Built(UnionOf(tagged, list))
  {
    hide *;
    var off := BodyOff(tagged, BodyLg(CasesOf(list)));
    assert UnionOf(tagged, list) == UnionAround(tagged, CasesOf(list)) by { UnionOfIs(tagged, list); }
    UnionIsAround(tagged, CasesOf(list));
    MovedAreCases(list, off);
    AroundIsBuilt(UnionOf(tagged, list), CasesOf(list), off);
  }

  lemma UnionOfIs(tagged: bool, list: seq<seq<Node>>)
    ensures UnionOf(tagged, list) == UnionAround(tagged, CasesOf(list))
  {
  }

  lemma AroundIsBuilt(n: Node, cases: seq<Node>, off: nat)
    requires Around(n, cases, off) && BuiltCases(n.cases, off)
    ensures Built(n)
  {
    hide Lay, Up, IsCase, BodySize, BodyLg, BodyOff;
  }

  /** Moving the cases changes neither their sizes nor their alignments. */
  lemma {:induction false} MovedMeasure(cases: seq<Node>, shift: nat)
    ensures BodySize(MovedCases(cases, shift)) == BodySize(cases) && BodyLg(MovedCases(cases, shift)) == BodyLg(cases)
    decreases |cases|
  {
    hide Lay, Up;
    if cases != [] {
      var k := |cases| - 1;
      MovedMeasure(cases[..k], shift);
      assert MovedCases(cases, shift)[..k] == MovedCases(cases[..k], shift);
    }
  }

  lemma VariantIsBuilt(cases: seq<Node>)
    requires forall c <- cases :: c.Struct? && Built(c)
    ensures Built(Variant(cases, 0, PTR, 2 * PTR, LG_PTR))
  {
  }

  /* ---- An input at which the restriction matters ---- */

  /** A struct of one pointer-sized field. */
  function Word(f: Node): Node { Struct(PTR, LG_PTR, [f], [0], [0]) }

  lemma WordIsBuilt(f: Node)
    requires Built(f) && Size(f) == PTR && Lg(f) == LG_PTR && !f.ArrayInline?
    ensures Built(Word(f)) && Size(Word(f)) == PTR && Lg(Word(f)) == LG_PTR
  {
    hide Lay, Up, Aligned, Pow2;
    EightAligned();
    UpAligned(PTR, LG_PTR);
    OneField(f);
  }

  lemma OneField(f: Node)
    requires Size(f) > 0 && !f.ArrayInline?
    ensures Lay([f], false) == Laid([0], [0], Size(f), Lg(f))
  {
    hide Up, Aligned, Pow2, Size, Lg;
    AlignedZero(Lg(f));
    UpAligned(0, Lg(f));
    assert [f][..0] == [];
    assert Lay([f], false) == Place(Laid([], [], 0, 0), f, false);
  }

  /** An ARRAY_INLINE alone in a case: the pointer, and the count after it. */
  lemma OneArray(a: Node)
    requires a.ArrayInline?
    ensures Lay([a], true) == Laid([0], [PTR], PTR + INT, LG_PTR)
  {
    hide Up, Aligned, Pow2;
    EightAligned();
    AlignedZero(LG_PTR);
    UpAligned(0, LG_PTR);
    UpAligned(PTR, LG_INT);
    assert [a][..0] == [];
    assert Lay([a], true) == Place(Laid([], [], 0, 0), a, true);
  }

  lemma AfterTag()
    ensures BodyOff(true, LG_PTR) == PTR
  {
    VariantNumbers();
    Widths();
    AlignUpIs(INT, LG_PTR);
  }

  /** One case that is one ARRAY_INLINE, in a tagged union. */
  lemma OneCase(a: Node)
    requires a.ArrayInline?
    ensures var n := UnionOf(true, [[a]]);
      && |n.cases| == 1 && n.cases[0].Struct? && n.cases[0].fields == [a]
      && n.cases[0].offs == [PTR] && n.cases[0].lens == [PTR] && n.tagged && n.size > 0
  {
    OneArray(a);
    AfterTag();
    assert [[a]][..0] == [] && CasesOf([[a]]) == [CaseOf([a])];
    assert [CaseOf([a])][..0] == [];
    hide Lay, Up, Aligned;
    assert BodyLg([CaseOf([a])]) == LG_PTR;
    assert Shifted([0], PTR) == [PTR];
  }

  /** A tagged union of one case, an ARRAY_INLINE of structs of one pointer: the builders make it,
      and its count is written on the low half of its pointer. */
  lemma CountOnPointer()
    ensures var n := UnionOf(true, [[ArrayInline(Word(Pointer), PTR)]]);
      && Built(n) && !AllInSlot(n, 0)
      && Writes(n, 0, 0, 0, Choice(0, [])) == [Write(0, LG_INT), Write(PTR, LG_PTR), Write(PTR, LG_INT)]
  {
    var a := ArrayInline(Word(Pointer), PTR);
    var n := UnionOf(true, [[a]]);
    hide Lay, Up, Aligned, UnionOf;
    WordIsBuilt(Pointer);
    OneCase(a);
    assert [[a]][0] in [[a]] && GoodList([[a]]);
    UnionIsBuilt(true, [[a]]);
    AlignedZero(n.lg);
    var c := n.cases[0];
    assert c in n.cases && a in c.fields;
    assert forall s <- n.cases :: s == c;
    TaggedIff(n, 0);
    assert [a][..0] == [] && [PTR][..0] == [];
    assert FieldWrites([a], [PTR], [PTR], 0, Choice(0, [])) == [] + Writes(a, 0, PTR, PTR, Choice(0, []));
    assert Writes(c, 0, 0, 0, Choice(0, [])) == FieldWrites([a], [PTR], [PTR], 0, Choice(0, []));
  }
}
