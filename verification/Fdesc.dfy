/**
  The text form of a fake-page scatterlist description: numbers in decimal, where four of the
  numbers say how many others follow them.
 */
module Fdesc {
  import opened Options

  const FMAXN: nat := 48
  const FMAXS: nat := 16
  const FMAXCH: nat := 3

  /* ---- Decimal numbers ---- */

  predicate IsDigit(c: char) { '0' <= c <= '9' }

  predicate IsSpace(c: char) { c == ' ' || c == '\n' }

  function Digits(n: nat): (s: string)
    ensures s != [] && forall c <- s :: IsDigit(c)
  {
    var last := ['0' + (n % 10) as char];
    if n < 10 then last else Digits(n / 10) + last
  }

  /** %d, %u, %llu or %lld. */
  function Decimal(x: int): string { if x < 0 then "-" + Digits(-x) else Digits(x) }

  function Value(s: string): nat
    requires forall c <- s :: IsDigit(c)
  {
    if s == [] then 0
    else
      assert IsDigit(s[|s|-1]);
      10 * Value(s[..|s|-1]) + (s[|s|-1] as int - '0' as int)
  }

  lemma {:induction false} ValueDigits(n: nat)
    ensures Value(Digits(n)) == n
  {
    if n >= 10 {
      ValueDigits(n / 10);
      assert Digits(n)[..|Digits(n)|-1] == Digits(n / 10);
    } else {
      assert Digits(n)[..0] == [];
    }
  }

  function SkipSpace(s: string): (r: string)
    ensures |r| <= |s|
  {
    if s != [] && IsSpace(s[0]) then SkipSpace(s[1..]) else s
  }

  /** How many digits s starts with. */
  function Run(s: string): (k: nat)
    ensures k <= |s| && forall c <- s[..k] :: IsDigit(c)
  {
    if s == [] || !IsDigit(s[0]) then 0
    else
      var k := Run(s[1..]);
      assert s[..k+1] == [s[0]] + s[1..][..k];
      k + 1
  }

  lemma {:induction false} RunOf(ds: string, rest: string)
    requires (forall c <- ds :: IsDigit(c)) && (rest == [] || !IsDigit(rest[0]))
    ensures Run(ds + rest) == |ds|
  {
    if ds == [] {
      assert ds + rest == rest;
    } else {
      RunOf(ds[1..], rest);
      assert (ds + rest)[1..] == ds[1..] + rest;
    }
  }

  /** One number by fscanf: spaces, a sign, digits; and what is left of the input. */
  function ReadInt(s: string): (r: Option<(int, string)>)
    ensures r.Some? ==> |r.value.1| < |s|
  {
    ReadSigned(SkipSpace(s))
  }

  function ReadSigned(t: string): (r: Option<(int, string)>)
    ensures r.Some? ==> |r.value.1| < |t|
  {
    if t != [] && t[0] == '-' then ReadDigits(t[1..], -1)
    else if t != [] && t[0] == '+' then ReadDigits(t[1..], 1)
    else ReadDigits(t, 1)
  }

  function ReadDigits(u: string, sign: int): (r: Option<(int, string)>)
    ensures r.Some? ==> |r.value.1| < |u|
  {
    var k := Run(u);
    if k == 0 then None else Some((sign * Value(u[..k]), u[k..]))
  }

  /** All the numbers that can be read off s, in order. */
  function Tokens(s: string): seq<int>
    decreases |s|
  {
    var r := ReadInt(s);
    if r.None? then [] else [r.value.0] + Tokens(r.value.1)
  }

  /* ---- The description ---- */

  /** The fields of an fdesc; the seqs are the C arrays, whole. */
  datatype Fields = Fields(n: int, off0: int, nch: int, chp: seq<int>, len: seq<int>, gap: seq<int>,
                           mapped: int, ndma: int, dlen: seq<int>, dstart: seq<int>,
                           skip: int, nb: int, sizes: seq<int>)

  predicate ArraySizes(d: Fields) {
    |d.chp| == FMAXCH && |d.len| == |d.gap| == FMAXN && |d.dlen| == |d.dstart| == FMAXN && |d.sizes| == FMAXS
  }

  predicate CountsInRange(d: Fields) {
    1 <= d.n <= FMAXN && 0 <= d.nch <= FMAXCH && 0 <= d.ndma <= FMAXN && 1 <= d.nb <= FMAXS
  }

  predicate ZeroFrom(s: seq<int>, k: int) { forall i :: 0 <= i < |s| && i >= k ==> s[i] == 0 }

  predicate UnusedZero(d: Fields) {
    && ZeroFrom(d.chp, d.nch) && ZeroFrom(d.len, d.n) && ZeroFrom(d.gap, d.n)
    && ZeroFrom(d.dlen, d.ndma) && ZeroFrom(d.dstart, d.ndma) && ZeroFrom(d.sizes, d.nb)
  }

  predicate Printable(d: Fields) { ArraySizes(d) && CountsInRange(d) && UnusedZero(d) }

  /** x0 y0 x1 y1 ... */
  function Zip(xs: seq<int>, ys: seq<int>, k: nat): (r: seq<int>)
    requires k <= |xs| && k <= |ys|
    ensures |r| == 2 * k
  {
    if k == 0 then [] else Zip(xs, ys, k - 1) + [xs[k - 1], ys[k - 1]]
  }

  /** The first `part` groups of numbers fdesc_print writes. */
  function Upto(d: Fields, part: nat): (r: seq<int>)
    requires ArraySizes(d) && CountsInRange(d) && part <= 7
    ensures r != []
  {
    if part == 0 then [d.n]
    else if part == 1 then Upto(d, 0) + [d.off0] + [d.nch]
    else if part == 2 then Upto(d, 1) + d.chp[..d.nch]
    else if part == 3 then Upto(d, 2) + Zip(d.len, d.gap, d.n)
    else if part == 4 then Upto(d, 3) + [d.mapped] + [d.ndma]
    else if part == 5 then Upto(d, 4) + Zip(d.dlen, d.dstart, d.ndma)
    else if part == 6 then Upto(d, 5) + [d.skip] + [d.nb]
    else Upto(d, 6) + d.sizes[..d.nb]
  }

  function Numbers(d: Fields): seq<int>
    requires ArraySizes(d) && CountsInRange(d)
  {
    Upto(d, 7)
  }

  lemma UptoSteps(d: Fields)
    requires ArraySizes(d) && CountsInRange(d)
    ensures Upto(d, 1) == Upto(d, 0) + [d.off0] + [d.nch]
    ensures Upto(d, 2) == Upto(d, 1) + d.chp[..d.nch]
    ensures Upto(d, 3) == Upto(d, 2) + Zip(d.len, d.gap, d.n)
    ensures Upto(d, 4) == Upto(d, 3) + [d.mapped] + [d.ndma]
    ensures Upto(d, 5) == Upto(d, 4) + Zip(d.dlen, d.dstart, d.ndma)
    ensures Upto(d, 6) == Upto(d, 5) + [d.skip] + [d.nb]
    ensures Numbers(d) == Upto(d, 6) + d.sizes[..d.nb]
  {
    hide Zip;
  }

  /** Each number after a space. */
  function Spaced(xs: seq<int>): string {
    if xs == [] then "" else Spaced(xs[..|xs|-1]) + (" " + Decimal(xs[|xs|-1]))
  }

  /** The numbers separated by spaces. */
  function Line(xs: seq<int>): string {
    if |xs| <= 1 then (if xs == [] then "" else Decimal(xs[0]))
    else Line(xs[..|xs|-1]) + (" " + Decimal(xs[|xs|-1]))
  }

  function Text(d: Fields): string
    requires ArraySizes(d) && CountsInRange(d)
  {
    Line(Numbers(d)) + "\n"
  }

  /** A small description, as it is written: two entries, one channel, one mapped entry. */
  lemma TextSample()
    ensures var d := Fields(2, 7, 1, Padded([3], FMAXCH), Padded([10, 20], FMAXN), Padded([1, 0], FMAXN), 1, 1,
                            Padded([30], FMAXN), Padded([64], FMAXN), -4, 2, Padded([6, 5], FMAXS));
      Printable(d) && Text(d) == "2 7 1 3 10 1 20 0 1 1 30 64 -4 2 6 5\n"
  {
    var d := Fields(2, 7, 1, Padded([3], FMAXCH), Padded([10, 20], FMAXN), Padded([1, 0], FMAXN), 1, 1,
                    Padded([30], FMAXN), Padded([64], FMAXN), -4, 2, Padded([6, 5], FMAXS));
    SampleNumbers(d);
    SampleLine();
  }

  lemma SampleNumbers(d: Fields)
    requires ArraySizes(d) && d.n == 2 && d.off0 == 7 && d.nch == 1 && d.chp[..1] == [3]
    requires d.len[..2] == [10, 20] && d.gap[..2] == [1, 0] && d.mapped == d.ndma == 1 && d.dlen[..1] == [30]
    requires d.dstart[..1] == [64] && d.skip == -4 && d.nb == 2 && d.sizes[..2] == [6, 5]
    ensures Numbers(d) == [2, 7, 1, 3, 10, 1, 20, 0, 1, 1, 30, 64, -4, 2, 6, 5]
  {
    UptoSteps(d);
    hide Upto, Line, Decimal;
    assert Upto(d, 0) == [2] by { UptoFirst(d); }
    assert d.len[0] == d.len[..2][0] && d.len[1] == d.len[..2][1] && d.gap[0] == d.gap[..2][0] && d.gap[1] == d.gap[..2][1];
    assert Zip(d.len, d.gap, 2) == [10, 1] + [20, 0];
    assert d.dlen[0] == d.dlen[..1][0] && d.dstart[0] == d.dstart[..1][0];
    assert Zip(d.dlen, d.dstart, 1) == [30, 64];
  }

  lemma UptoFirst(d: Fields)
    requires ArraySizes(d) && CountsInRange(d)
    ensures Upto(d, 0) == [d.n]
  {
  }

  lemma {:induction false} LineJoin(xs: seq<int>, ys: seq<int>)
    requires xs != [] && ys != []
    ensures Line(xs + ys) == Line(xs) + (" " + Line(ys))
    decreases |ys|
  {
    hide Decimal;
    var k := |ys| - 1;
    assert (xs + ys)[..|xs| + k] == xs + ys[..k];
    if k == 0 {
      assert xs + ys[..0] == xs;
    } else {
      LineJoin(xs, ys[..k]);
      var a, b, c := Line(xs), Line(ys[..k]), " " + Decimal(ys[k]);
      assert a + (" " + b) + c == a + (" " + (b + c));
    }
  }

  lemma LineOfFour(a: int, b: int, c: int, d: int)
    ensures Line([a, b, c, d]) == Decimal(a) + " " + Decimal(b) + " " + Decimal(c) + " " + Decimal(d)
  {
    LineFirst(a);
    LineFirst(b);
    LineFirst(c);
    LineFirst(d);
    hide Line, Decimal;
    LineJoin([a], [b]);
    LineJoin([a] + [b], [c]);
    LineJoin([a] + [b] + [c], [d]);
    assert [a, b, c, d] == [a] + [b] + [c] + [d];
  }

  lemma SampleLine()
    ensures Line([2, 7, 1, 3, 10, 1, 20, 0, 1, 1, 30, 64, -4, 2, 6, 5]) == "2 7 1 3 10 1 20 0 1 1 30 64 -4 2 6 5"
  {
    hide Line, Decimal;
    HalfLines();
    LineJoin([2, 7, 1, 3, 10, 1, 20, 0], [1, 1, 30, 64, -4, 2, 6, 5]);
    assert [2, 7, 1, 3, 10, 1, 20, 0] + [1, 1, 30, 64, -4, 2, 6, 5] == [2, 7, 1, 3, 10, 1, 20, 0, 1, 1, 30, 64, -4, 2, 6, 5];
  }

  lemma HalfLines()
    ensures Line([2, 7, 1, 3, 10, 1, 20, 0]) == "2 7 1 3 10 1 20 0"
    ensures Line([1, 1, 30, 64, -4, 2, 6, 5]) == "1 1 30 64 -4 2 6 5"
  {
    hide Line, Decimal;
    FourTexts();
    LineJoin([2, 7, 1, 3], [10, 1, 20, 0]);
    LineJoin([1, 1, 30, 64], [-4, 2, 6, 5]);
    assert [2, 7, 1, 3] + [10, 1, 20, 0] == [2, 7, 1, 3, 10, 1, 20, 0];
    assert [1, 1, 30, 64] + [-4, 2, 6, 5] == [1, 1, 30, 64, -4, 2, 6, 5];
  }

  lemma FourTexts()
    ensures Line([2, 7, 1, 3]) == "2 7 1 3" && Line([10, 1, 20, 0]) == "10 1 20 0"
    ensures Line([1, 1, 30, 64]) == "1 1 30 64" && Line([-4, 2, 6, 5]) == "-4 2 6 5"
  {
    SampleDigits();
    hide Line, Decimal;
    LineOfFour(2, 7, 1, 3);
    LineOfFour(10, 1, 20, 0);
    LineOfFour(1, 1, 30, 64);
    LineOfFour(-4, 2, 6, 5);
  }

  lemma SampleDigits()
    ensures Decimal(0) == "0" && Decimal(1) == "1" && Decimal(2) == "2" && Decimal(3) == "3" && Decimal(5) == "5"
    ensures Decimal(6) == "6" && Decimal(7) == "7" && Decimal(10) == "10" && Decimal(20) == "20" && Decimal(30) == "30"
    ensures Decimal(64) == "64" && Decimal(-4) == "-4"
  {
  }

  /* ---- Printing ---- */

  /** snprintf of t at b + p: the text and a NUL. */
  method Put(b: array<char>, p: nat, t: string) returns (q: nat)
    requires p + |t| < b.Length
    modifies b
    ensures q == p + |t| && b[..q] == old(b[..p]) + t
  {
    for i := 0 to |t|
      invariant b[..p + i] == old(b[..p]) + t[..i]
    {
      b[p + i] := t[i];
      assert b[..p + i + 1] == b[..p + i] + [t[i]];
      assert t[..i + 1] == t[..i] + [t[i]];
    }
    b[p + |t|] := '\0';
    assert t[..|t|] == t;
    q := p + |t|;
  }

  /** The numbers xs come first in all, and all of it fits in cap bytes. */
  predicate Fits(xs: seq<int>, all: seq<int>, cap: nat) { xs <= all && |Line(all)| < cap }

  lemma {:induction false} LineGrows(xs: seq<int>, ys: seq<int>)
    requires xs <= ys
    ensures |Line(xs)| <= |Line(ys)|
    decreases |ys|
  {
    if xs != ys { LineGrows(xs, ys[..|ys|-1]); } else { assert xs == ys; }
  }

  lemma LinePush(xs: seq<int>, x: int, all: seq<int>, cap: nat)
    requires xs != [] && Fits(xs + [x], all, cap)
    ensures Line(xs + [x]) == Line(xs) + (" " + Decimal(x)) && |Line(xs + [x])| < cap
  {
    assert (xs + [x])[..|xs|] == xs;
    LineGrows(xs + [x], all);
  }

  lemma RunStep(us: seq<int>, i: nat, k: nat, xs: seq<int>, all: seq<int>, cap: nat)
    requires i < k <= |us| && Fits(xs + us[..k], all, cap)
    ensures xs + us[..i] + [us[i]] == xs + us[..i + 1]
    ensures Fits(xs + us[..i] + [us[i]], all, cap)
  {
    hide Line;
    assert us[..k] == us[..i] + [us[i]] + us[i + 1..k];
    assert xs + us[..k] == xs + us[..i] + [us[i]] + us[i + 1..k];
  }

  /** The next number: " %d" at b + p, after the numbers xs. */
  method PutNumber(b: array<char>, p: nat, x: int, ghost xs: seq<int>, ghost all: seq<int>) returns (q: nat)
    requires xs != [] && Fits(xs + [x], all, b.Length) && p < b.Length && b[..p] == Line(xs)
    modifies b
    ensures q < b.Length && b[..q] == Line(xs + [x])
  {
    hide Decimal, Line, Fits;
    LinePush(xs, x, all, b.Length);
    q := Put(b, p, " " + Decimal(x));
  }

  lemma {:induction false} ZipStep(us: seq<int>, vs: seq<int>, i: nat, k: nat, xs: seq<int>, all: seq<int>, cap: nat)
    requires i < k <= |us| && k <= |vs| && Fits(xs + Zip(us, vs, k), all, cap)
    ensures xs + Zip(us, vs, i + 1) == xs + Zip(us, vs, i) + [us[i]] + [vs[i]]
    ensures Fits(xs + Zip(us, vs, i) + [us[i]], all, cap) && Fits(xs + Zip(us, vs, i + 1), all, cap)
    decreases k - i
  {
    hide Line;
    if i + 1 < k {
      assert xs + Zip(us, vs, k) == xs + Zip(us, vs, k - 1) + [us[k - 1], vs[k - 1]];
      ZipStep(us, vs, i, k - 1, xs, all, cap);
    }
  }

  /** One count-dependent run of pairs. */
  method PutPairs(b: array<char>, p: nat, us: seq<int>, vs: seq<int>, k: nat, ghost xs: seq<int>, ghost all: seq<int>)
    returns (q: nat)
    requires k <= |us| && k <= |vs| && xs != [] && Fits(xs + Zip(us, vs, k), all, b.Length)
    requires p < b.Length && b[..p] == Line(xs)
    modifies b
    ensures q < b.Length && b[..q] == Line(xs + Zip(us, vs, k))
  {
    q := p;
    assert Zip(us, vs, 0) == [] && xs + [] == xs;
    hide Zip, Line, Fits;
    for i := 0 to k
      invariant q < b.Length && b[..q] == Line(xs + Zip(us, vs, i))
    {
      ZipStep(us, vs, i, k, xs, all, b.Length);
      q := PutNumber(b, q, us[i], xs + Zip(us, vs, i), all);
      q := PutNumber(b, q, vs[i], xs + Zip(us, vs, i) + [us[i]], all);
    }
  }

  method PutRun(b: array<char>, p: nat, us: seq<int>, k: nat, ghost xs: seq<int>, ghost all: seq<int>) returns (q: nat)
    requires k <= |us| && xs != [] && Fits(xs + us[..k], all, b.Length)
    requires p < b.Length && b[..p] == Line(xs)
    modifies b
    ensures q < b.Length && b[..q] == Line(xs + us[..k])
  {
    q := p;
    assert xs + us[..0] == xs;
    hide Line, Fits;
    for i := 0 to k
      invariant q < b.Length && b[..q] == Line(xs + us[..i])
    {
      RunStep(us, i, k, xs, all, b.Length);
      q := PutNumber(b, q, us[i], xs + us[..i], all);
    }
  }

  /** fdesc_print into a buffer that is large enough. */
  method Print(d: Fields, b: array<char>) returns (p: nat)
    requires ArraySizes(d) && CountsInRange(d) && |Text(d)| < b.Length
    modifies b
    ensures p == |Text(d)| && b[..p] == Text(d)
  {
    ghost var all, cap := Numbers(d), b.Length;
    NumbersFit(d, cap);
    UptoSteps(d);
    hide Upto, Line, Decimal, Zip, Fits, Numbers;
    p := Put(b, 0, Decimal(d.n));
    p := PutNumber(b, p, d.off0, Upto(d, 0), all);
    p := PutNumber(b, p, d.nch, Upto(d, 0) + [d.off0], all);
    p := PutRun(b, p, d.chp, d.nch, Upto(d, 1), all);
    p := PutPairs(b, p, d.len, d.gap, d.n, Upto(d, 2), all);
    p := PutNumber(b, p, d.mapped, Upto(d, 3), all);
    p := PutNumber(b, p, d.ndma, Upto(d, 3) + [d.mapped], all);
    p := PutPairs(b, p, d.dlen, d.dstart, d.ndma, Upto(d, 4), all);
    p := PutNumber(b, p, d.skip, Upto(d, 5), all);
    p := PutNumber(b, p, d.nb, Upto(d, 5) + [d.skip], all);
    p := PutRun(b, p, d.sizes, d.nb, Upto(d, 6), all);
    p := Put(b, p, "\n");
  }


  lemma LineFirst(x: int)
    ensures Line([x]) == Decimal(x)
  {
  }

  lemma {:induction false} UptoGrows(d: Fields, i: nat, j: nat)
    requires ArraySizes(d) && CountsInRange(d) && i <= j <= 7
    ensures Upto(d, i) <= Upto(d, j)
    decreases j - i
  {
    if i < j { UptoGrows(d, i + 1, j); }
  }

  lemma UptoFits(d: Fields, i: nat, xs: seq<int>, cap: nat)
    requires ArraySizes(d) && CountsInRange(d) && i <= 7 && |Text(d)| < cap
    requires xs <= Upto(d, i)
    ensures Fits(xs, Numbers(d), cap)
  {
    UptoGrows(d, i, 7);
  }

  lemma NumbersFit(d: Fields, cap: nat)
    requires ArraySizes(d) && CountsInRange(d) && |Text(d)| < cap
    ensures var all := Numbers(d);
      && |Decimal(d.n)| < cap && Line(Upto(d, 0)) == Decimal(d.n)
      && Fits(Upto(d, 0) + [d.off0], all, cap)
      && Fits(Upto(d, 1), all, cap) && Fits(Upto(d, 2), all, cap) && Fits(Upto(d, 3), all, cap)
      && Fits(Upto(d, 3) + [d.mapped], all, cap) && Fits(Upto(d, 4), all, cap) && Fits(Upto(d, 5), all, cap)
      && Fits(Upto(d, 5) + [d.skip], all, cap) && Fits(Upto(d, 6), all, cap) && Fits(Upto(d, 7), all, cap)
  {
    LineFirst(d.n);
    UptoGrows(d, 0, 7);
    LineGrows(Upto(d, 0), Numbers(d));
    hide Line, Decimal, Zip, Fits, Numbers;
    UptoFits(d, 1, Upto(d, 0) + [d.off0], cap);
    UptoFits(d, 1, Upto(d, 1), cap);
    UptoFits(d, 2, Upto(d, 2), cap);
    UptoFits(d, 3, Upto(d, 3), cap);
    UptoFits(d, 4, Upto(d, 3) + [d.mapped], cap);
    UptoFits(d, 4, Upto(d, 4), cap);
    UptoFits(d, 5, Upto(d, 5), cap);
    UptoFits(d, 6, Upto(d, 5) + [d.skip], cap);
    UptoFits(d, 6, Upto(d, 6), cap);
    UptoFits(d, 7, Upto(d, 7), cap);
  }

  /* ---- Scanning ---- */

  /** The input stream of fscanf. */
  class Reader {
    var rest: string

    constructor (s: string)
      ensures rest == s
    {
      rest := s;
    }

    /** One conversion: the next number, or a failure that stays. */
    method Number() returns (x: Option<int>)
      modifies this
      ensures x == Head(Tokens(old(rest)), 0)
      ensures x.Some? ==> Tokens(rest) == Tokens(old(rest))[1..]
    {
      var r := ReadInt(rest);
      if r.None? { return None; }
      x := Some(r.value.0);
      rest := r.value.1;
    }
  }

  function Head(ts: seq<int>, i: nat): Option<int> { if i < |ts| then Some(ts[i]) else None }

  /** The C array after its first |s| slots were filled. */
  function Padded(s: seq<int>, cap: nat): seq<int>
    requires |s| <= cap
  {
    s + seq(cap - |s|, _ => 0)
  }

  function Evens(ts: seq<int>, k: nat): (r: seq<int>)
    requires 2 * k <= |ts|
    ensures |r| == k
  {
    seq(k, i requires 0 <= i < k => ts[2 * i])
  }

  function Odds(ts: seq<int>, k: nat): (r: seq<int>)
    requires 2 * k <= |ts|
    ensures |r| == k
  {
    seq(k, i requires 0 <= i < k => ts[2 * i + 1])
  }

  /** The entries come first: n, off0, nch, the chain points, then length and gap of each. */
  predicate EntriesOk(ts: seq<int>) {
    |ts| >= 3 && 1 <= ts[0] <= FMAXN && 0 <= ts[2] <= FMAXCH && |ts| >= 3 + ts[2] + 2 * ts[0]
  }

  predicate DmaOk(ts: seq<int>) { |ts| >= 2 && 0 <= ts[1] <= FMAXN && |ts| >= 2 + 2 * ts[1] }

  predicate RequestOk(ts: seq<int>) { |ts| >= 2 && 1 <= ts[1] <= FMAXS && |ts| >= 2 + ts[1] }

  /** What fdesc_scan makes of the numbers it finds. */
  function Parse(ts: seq<int>): (r: Option<Fields>)
    ensures r.Some? ==> ArraySizes(r.value) && CountsInRange(r.value)
  {
    if !EntriesOk(ts) then None
    else
      var t0 := ts[3 + ts[2]..];
      var t1 := t0[2 * ts[0]..];
      if !DmaOk(t1) then None
      else
        var t2 := t1[2 + 2 * t1[1]..];
        if !RequestOk(t2) then None
        else
          Some(Fields(ts[0], ts[1], ts[2], Padded(ts[3..][..ts[2]], FMAXCH),
                      Padded(Evens(t0, ts[0]), FMAXN), Padded(Odds(t0, ts[0]), FMAXN),
                      t1[0], t1[1], Padded(Evens(t1[2..], t1[1]), FMAXN), Padded(Odds(t1[2..], t1[1]), FMAXN),
                      t2[0], t2[1], Padded(t2[2..][..t2[1]], FMAXS)))
  }

  /** k numbers into a zeroed array. */
  method ScanRun(f: Reader, a: array<int>, k: nat) returns (ok: bool)
    requires k <= a.Length && forall i :: 0 <= i < a.Length ==> a[i] == 0
    modifies f, a
    ensures ok <==> |Tokens(old(f.rest))| >= k
    ensures ok ==> Tokens(f.rest) == Tokens(old(f.rest))[k..] && a[..] == Padded(Tokens(old(f.rest))[..k], a.Length)
  {
    ghost var ts := Tokens(f.rest);
    hide Tokens;
    for i := 0 to k
      invariant i <= |ts| && Tokens(f.rest) == ts[i..]
      invariant forall j :: 0 <= j < a.Length ==> a[j] == if j < i then ts[j] else 0
    {
      var x := f.Number();
      if x.None? { return false; }
      a[i] := x.value;
      assert ts[i..][1..] == ts[i + 1..];
    }
    ok := true;
    assert a[..] == Padded(ts[..k], a.Length);
  }

  /** k pairs of numbers into two zeroed arrays. */
  method ScanPairs(f: Reader, a: array<int>, b: array<int>, k: nat) returns (ok: bool)
    requires k <= a.Length == b.Length && a != b
    requires forall i :: 0 <= i < a.Length ==> a[i] == b[i] == 0
    modifies f, a, b
    ensures ok <==> |Tokens(old(f.rest))| >= 2 * k
    ensures ok ==> PairsScanned(Tokens(old(f.rest)), Tokens(f.rest), a[..], b[..], k)
  {
    hide Tokens, PairOf, PairsScanned, Filled;
    ghost var ts := Tokens(f.rest);
    PairsFilled(a[..], b[..], ts, 0);
    for i := 0 to k
      invariant 2 * i <= |ts| && Tokens(f.rest) == ts[2 * i..] && Filled(a[..], b[..], ts, i)
    {
      ghost var a0, b0 := a[..], b[..];
      SkipTwo(ts, 2 * i);
      var p := Pair(f);
      if p.None? { return false; }
      a[i], b[i] := p.value.0, p.value.1;
      assert a[..] == a0[i := p.value.0] && b[..] == b0[i := p.value.1];
      PairsFilled(a0, b0, ts, i);
    }
    ok := true;
    PairsRead(a[..], b[..], ts, k);
  }

  /** The first i pairs of ts are in a and b, the rest is zero. */
  predicate Filled(a: seq<int>, b: seq<int>, ts: seq<int>, i: nat) {
    && 2 * i <= |ts| && i <= |a| == |b|
    && (forall j :: 0 <= j < |a| ==> a[j] == if j < i then Nth(ts, 2 * j) else 0)
    && (forall j :: 0 <= j < |b| ==> b[j] == if j < i then Nth(ts, 2 * j + 1) else 0)
  }

  lemma PairsFilled(a: seq<int>, b: seq<int>, ts: seq<int>, i: nat)
    requires |a| == |b|
    ensures ZeroFrom(a, 0) && ZeroFrom(b, 0) ==> Filled(a, b, ts, 0)
    ensures Filled(a, b, ts, i) && i < |a| && 2 * i + 2 <= |ts| ==>
      Filled(a[i := Nth(ts, 2 * i)], b[i := Nth(ts, 2 * i + 1)], ts, i + 1)
  {
  }

  /** 2k numbers of ts are in a and b, and `rest` is what follows them. */
  predicate PairsScanned(ts: seq<int>, rest: seq<int>, a: seq<int>, b: seq<int>, k: nat) {
    && 2 * k <= |ts| && k <= |a| && k <= |b| && rest == ts[2 * k..]
    && a == Padded(Evens(ts, k), |a|) && b == Padded(Odds(ts, k), |b|)
  }

  /** Two conversions in one fscanf. */
  method Pair(f: Reader) returns (p: Option<(int, int)>)
    modifies f
    ensures p == PairOf(Tokens(old(f.rest)))
    ensures p.Some? ==> Tokens(f.rest) == Tokens(old(f.rest))[2..]
  {
    hide Tokens;
    var x := f.Number();
    if x.None? { return None; }
    var y := f.Number();
    if y.None? { return None; }
    p := Some((x.value, y.value));
  }

  function PairOf(ts: seq<int>): Option<(int, int)> { if |ts| >= 2 then Some((ts[0], ts[1])) else None }

  function Nth(ts: seq<int>, i: nat): int { if i < |ts| then ts[i] else 0 }

  lemma SkipTwo(ts: seq<int>, i: nat)
    requires i <= |ts|
    ensures PairOf(ts[i..]) == if i + 2 <= |ts| then Some((Nth(ts, i), Nth(ts, i + 1))) else None
    ensures i + 2 <= |ts| ==> ts[i..][2..] == ts[i + 2..]
  {
  }

  lemma PairsRead(a: seq<int>, b: seq<int>, ts: seq<int>, k: nat)
    requires Filled(a, b, ts, k)
    ensures PairsScanned(ts, ts[2 * k..], a, b, k)
  {
  }

  /** The struct fdesc. */
  class Desc {
    var n: int
    var off0: int
    var nch: int
    const chp: array<int>
    const len: array<int>
    const gap: array<int>
    var mapped: int
    var ndma: int
    const dlen: array<int>
    const dstart: array<int>
    var skip: int
    var nb: int
    const sizes: array<int>

    ghost predicate Valid()
      reads this
    {
      && chp.Length == FMAXCH && len.Length == gap.Length == FMAXN
      && dlen.Length == dstart.Length == FMAXN && sizes.Length == FMAXS
      && chp != len && chp != gap && chp != dlen && chp != dstart && chp != sizes
      && len != gap && len != dlen && len != dstart && len != sizes
      && gap != dlen && gap != dstart && gap != sizes
      && dlen != dstart && dlen != sizes && dstart != sizes
    }

    function View(): Fields
      reads this, chp, len, gap, dlen, dstart, sizes
    {
      Fields(n, off0, nch, chp[..], len[..], gap[..], mapped, ndma, dlen[..], dstart[..], skip, nb, sizes[..])
    }

    constructor ()
      ensures Valid() && fresh(chp) && fresh(len) && fresh(gap) && fresh(dlen) && fresh(dstart) && fresh(sizes)
    {
      chp := new int[FMAXCH](_ => 0);
      len := new int[FMAXN](_ => 0);
      gap := new int[FMAXN](_ => 0);
      dlen := new int[FMAXN](_ => 0);
      dstart := new int[FMAXN](_ => 0);
      sizes := new int[FMAXS](_ => 0);
    }

    /** fdesc_scan: 0 when the input holds a whole description, which is then in the fields. */
    method Scan(f: Reader) returns (rc: int)
      requires Valid()
      modifies this, chp, len, gap, dlen, dstart, sizes, f
      ensures rc == (if Parse(Tokens(old(f.rest))).Some? then 0 else -1)
      ensures rc == 0 ==> View() == Parse(Tokens(old(f.rest))).value
    {
      hide Tokens, Padded, Evens, Odds, EntriesOk, DmaOk, RequestOk;
      Clear();
      rc := -1;
      var ok := ScanEntries(f);
      if !ok { return; }
      ok := ScanDma(f);
      if !ok { return; }
      ok := ScanRequest(f);
      if !ok { return; }
      rc := 0;
    }

    method Clear()
      requires Valid()
      modifies this, chp, len, gap, dlen, dstart, sizes
      ensures n == off0 == nch == mapped == ndma == skip == nb == 0
      ensures (forall i :: 0 <= i < FMAXCH ==> chp[i] == 0) && (forall i :: 0 <= i < FMAXN ==> len[i] == gap[i] == 0)
      ensures (forall i :: 0 <= i < FMAXN ==> dlen[i] == dstart[i] == 0) && (forall i :: 0 <= i < FMAXS ==> sizes[i] == 0)
    {
      n, off0, nch, mapped, ndma, skip, nb := 0, 0, 0, 0, 0, 0, 0;
      forall i | 0 <= i < chp.Length { chp[i] := 0; }
      forall i | 0 <= i < len.Length { len[i] := 0; }
      forall i | 0 <= i < gap.Length { gap[i] := 0; }
      forall i | 0 <= i < dlen.Length { dlen[i] := 0; }
      forall i | 0 <= i < dstart.Length { dstart[i] := 0; }
      forall i | 0 <= i < sizes.Length { sizes[i] := 0; }
    }

    /** n, off0, nch, the chain points and the entries. */
    method ScanEntries(f: Reader) returns (ok: bool)
      requires Valid()
      requires (forall i :: 0 <= i < FMAXCH ==> chp[i] == 0) && (forall i :: 0 <= i < FMAXN ==> len[i] == gap[i] == 0)
      modifies this`n, this`off0, this`nch, chp, len, gap, f
      ensures ok == EntriesOk(Tokens(old(f.rest)))
      ensures ok ==>
        var ts := Tokens(old(f.rest));
        && n == ts[0] && off0 == ts[1] && nch == ts[2] && chp[..] == Padded(ts[3..][..ts[2]], FMAXCH)
        && len[..] == Padded(Evens(ts[3 + ts[2]..], ts[0]), FMAXN)
        && gap[..] == Padded(Odds(ts[3 + ts[2]..], ts[0]), FMAXN)
        && Tokens(f.rest) == ts[3 + ts[2]..][2 * ts[0]..]
    {
      hide Tokens, Padded, Evens, Odds;
      ghost var ts := Tokens(f.rest);
      ok := false;
      var x := f.Number();
      if x.None? { return; }
      n := x.value;
      x := f.Number();
      if x.None? { return; }
      off0 := x.value;
      x := f.Number();
      if x.None? { return; }
      nch := x.value;
      assert Tokens(f.rest) == ts[3..];
      if n < 1 || n > FMAXN || nch < 0 || nch > FMAXCH { return; }
      ok := ScanRun(f, chp, nch);
      if !ok { return; }
      assert ts[3..][nch..] == ts[3 + nch..];
      ok := ScanPairs(f, len, gap, n);
    }

    method ScanDma(f: Reader) returns (ok: bool)
      requires Valid() && forall i :: 0 <= i < FMAXN ==> dlen[i] == dstart[i] == 0
      modifies this`mapped, this`ndma, dlen, dstart, f
      ensures ok == DmaOk(Tokens(old(f.rest)))
      ensures ok ==>
        var ts := Tokens(old(f.rest));
        && mapped == ts[0] && ndma == ts[1]
        && dlen[..] == Padded(Evens(ts[2..], ts[1]), FMAXN) && dstart[..] == Padded(Odds(ts[2..], ts[1]), FMAXN)
        && Tokens(f.rest) == ts[2 + 2 * ts[1]..]
    {
      hide Tokens, Padded, Evens, Odds;
      ghost var ts := Tokens(f.rest);
      ok := false;
      var x := f.Number();
      if x.None? { return; }
      mapped := x.value;
      x := f.Number();
      if x.None? { return; }
      ndma := x.value;
      assert Tokens(f.rest) == ts[2..];
      if ndma < 0 || ndma > FMAXN { return; }
      ok := ScanPairs(f, dlen, dstart, ndma);
      if !ok { return; }
      assert ts[2..][2 * ndma..] == ts[2 + 2 * ndma..];
    }

    method ScanRequest(f: Reader) returns (ok: bool)
      requires Valid() && forall i :: 0 <= i < FMAXS ==> sizes[i] == 0
      modifies this`skip, this`nb, sizes, f
      ensures ok == RequestOk(Tokens(old(f.rest)))
      ensures ok ==>
        var ts := Tokens(old(f.rest));
        && skip == ts[0] && nb == ts[1] && sizes[..] == Padded(ts[2..][..ts[1]], FMAXS)
    {
      hide Tokens, Padded, Evens, Odds;
      ghost var ts := Tokens(f.rest);
      ok := false;
      var x := f.Number();
      if x.None? { return; }
      skip := x.value;
      x := f.Number();
      if x.None? { return; }
      nb := x.value;
      assert Tokens(f.rest) == ts[2..];
      if nb < 1 || nb > FMAXS { return; }
      ok := ScanRun(f, sizes, nb);
    }
  }

  /* ---- Scanning undoes printing ---- */

  lemma {:induction false} SpacedCons(xs: seq<int>)
    requires xs != []
    ensures Line(xs) == Decimal(xs[0]) + Spaced(xs[1..])
    ensures Spaced(xs) == " " + Line(xs)
    decreases |xs|
  {
    hide Decimal;
    var k := |xs| - 1;
    if k == 0 {
      assert xs[..0] == [] && xs[1..] == [];
    } else {
      SpacedCons(xs[..k]);
      assert xs[..k][1..] == xs[1..][..k - 1];
      assert xs[1..][|xs[1..]| - 1] == xs[k];
      Associate(Decimal(xs[0]), Spaced(xs[1..][..k - 1]), " " + Decimal(xs[k]));
      Associate(" ", Line(xs[..k]), " " + Decimal(xs[k]));
    }
  }

  lemma Associate(a: string, b: string, c: string)
    ensures a + b + c == a + (b + c)
  {
  }

  lemma SkipNothing(s: string)
    requires s != [] && !IsSpace(s[0])
    ensures SkipSpace(s) == s == SkipSpace(" " + s)
  {
    assert (" " + s)[1..] == s;
    assert SkipSpace(" " + s) == SkipSpace(s);
  }

  lemma DigitsBack(n: nat, sign: int, rest: string)
    requires rest == [] || !IsDigit(rest[0])
    ensures ReadDigits(Digits(n) + rest, sign) == Some((sign * n, rest))
  {
    var ds := Digits(n);
    RunOf(ds, rest);
    ValueDigits(n);
    hide Run, Value, Digits;
    assert (ds + rest)[..|ds|] == ds && (ds + rest)[|ds|..] == rest;
  }

  /** A number, with or without a space before it, is read back if no digit follows it. */
  lemma ReadBack(x: int, rest: string)
    requires rest == [] || !IsDigit(rest[0])
    ensures ReadInt(Decimal(x) + rest) == Some((x, rest)) == ReadInt(" " + (Decimal(x) + rest))
  {
    hide SkipSpace, ReadDigits, Digits;
    var s := Decimal(x) + rest;
    if x < 0 {
      assert s[1..] == Digits(-x) + rest;
      DigitsBack(-x, -1, rest);
    } else {
      assert IsDigit(Digits(x)[0]) && s[0] == Digits(x)[0];
      DigitsBack(x, 1, rest);
    }
    SkipNothing(s);
  }

  lemma TokensStep(x: int, rest: string)
    requires rest == [] || !IsDigit(rest[0])
    ensures Tokens(Decimal(x) + rest) == [x] + Tokens(rest) == Tokens(" " + (Decimal(x) + rest))
  {
    ReadBack(x, rest);
    hide ReadInt, Decimal;
  }

  lemma TokensEnd()
    ensures Tokens("\n") == []
  {
    assert "\n"[1..] == "";
    assert SkipSpace("\n") == SkipSpace("") == "";
    assert Run("") == 0;
    assert ReadInt("\n").None?;
  }

  lemma {:induction false} TokensOfSpaced(xs: seq<int>)
    ensures Tokens(Spaced(xs) + "\n") == xs
    decreases |xs|
  {
    if xs == [] {
      assert Spaced(xs) + "\n" == "\n";
      TokensEnd();
    } else {
      hide Spaced, Decimal, Tokens;
      LineText(xs);
      SpacedStart(xs[1..]);
      TokensOfSpaced(xs[1..]);
      TokensStep(xs[0], Spaced(xs[1..]) + "\n");
      assert xs == [xs[0]] + xs[1..];
    }
  }

  lemma SpacedStart(xs: seq<int>)
    ensures !IsDigit((Spaced(xs) + "\n")[0])
  {
    if xs != [] { SpacedCons(xs); }
  }

  lemma LineText(xs: seq<int>)
    requires xs != []
    ensures var t := Decimal(xs[0]) + (Spaced(xs[1..]) + "\n");
      Line(xs) + "\n" == t && Spaced(xs) + "\n" == " " + t
  {
    SpacedCons(xs);
    hide Spaced, Decimal, Line;
    Associate(Decimal(xs[0]), Spaced(xs[1..]), "\n");
    Associate(" ", Line(xs), "\n");
  }

  lemma TokensOfLine(xs: seq<int>)
    requires xs != []
    ensures Tokens(Line(xs) + "\n") == xs
  {
    hide Spaced, Decimal, Tokens, Line;
    LineText(xs);
    SpacedStart(xs[1..]);
    TokensOfSpaced(xs[1..]);
    TokensStep(xs[0], Spaced(xs[1..]) + "\n");
    assert xs == [xs[0]] + xs[1..];
  }

  lemma UnzipZip(us: seq<int>, vs: seq<int>, k: nat, rest: seq<int>)
    requires k <= |us| && k <= |vs|
    ensures Evens(Zip(us, vs, k) + rest, k) == us[..k] && Odds(Zip(us, vs, k) + rest, k) == vs[..k]
  {
    var z := Zip(us, vs, k);
    ZipAt(us, vs, k);
    hide Zip;
    forall i | 0 <= i < k ensures (z + rest)[2 * i] == us[i] && (z + rest)[2 * i + 1] == vs[i] {
      assert z[2 * i] == us[i] && z[2 * i + 1] == vs[i];
    }
  }

  lemma {:induction false} ZipAt(us: seq<int>, vs: seq<int>, k: nat)
    requires k <= |us| && k <= |vs|
    ensures forall i :: 0 <= i < k ==> Zip(us, vs, k)[2 * i] == us[i] && Zip(us, vs, k)[2 * i + 1] == vs[i]
  {
    if k > 0 { ZipAt(us, vs, k - 1); }
  }

  lemma PadBack(s: seq<int>, k: nat)
    requires k <= |s| && ZeroFrom(s, k)
    ensures Padded(s[..k], |s|) == s
  {
  }

  lemma EntriesBack(d: Fields, t1: seq<int>)
    requires Printable(d)
    ensures var ts := [d.n, d.off0, d.nch] + d.chp[..d.nch] + Zip(d.len, d.gap, d.n) + t1;
      && EntriesOk(ts) && ts[0] == d.n && ts[1] == d.off0 && ts[2] == d.nch
      && Padded(ts[3..][..ts[2]], FMAXCH) == d.chp
      && Padded(Evens(ts[3 + ts[2]..], ts[0]), FMAXN) == d.len && Padded(Odds(ts[3 + ts[2]..], ts[0]), FMAXN) == d.gap
      && ts[3 + ts[2]..][2 * ts[0]..] == t1
  {
    var z := Zip(d.len, d.gap, d.n);
    UnzipZip(d.len, d.gap, d.n, t1);
    PadBack(d.chp, d.nch);
    PadBack(d.len, d.n);
    PadBack(d.gap, d.n);
    hide Padded, Evens, Odds, Zip;
    var ts := [d.n, d.off0, d.nch] + d.chp[..d.nch] + z + t1;
    assert ts[3..][..d.nch] == d.chp[..d.nch];
    assert ts[3 + d.nch..] == z + t1;
    assert (z + t1)[2 * d.n..] == t1;
  }

  lemma DmaBack(d: Fields, t2: seq<int>)
    requires Printable(d)
    ensures var ts := [d.mapped, d.ndma] + Zip(d.dlen, d.dstart, d.ndma) + t2;
      && DmaOk(ts) && ts[0] == d.mapped && ts[1] == d.ndma
      && Padded(Evens(ts[2..], ts[1]), FMAXN) == d.dlen && Padded(Odds(ts[2..], ts[1]), FMAXN) == d.dstart
      && ts[2 + 2 * ts[1]..] == t2
  {
    var z := Zip(d.dlen, d.dstart, d.ndma);
    UnzipZip(d.dlen, d.dstart, d.ndma, t2);
    PadBack(d.dlen, d.ndma);
    PadBack(d.dstart, d.ndma);
    hide Padded, Evens, Odds, Zip;
    var ts := [d.mapped, d.ndma] + z + t2;
    assert ts[2..] == z + t2;
    assert ts[2 + 2 * d.ndma..] == t2;
  }

  lemma RequestBack(d: Fields)
    requires Printable(d)
    ensures var ts := [d.skip, d.nb] + d.sizes[..d.nb];
      && RequestOk(ts) && ts[0] == d.skip && ts[1] == d.nb && Padded(ts[2..][..ts[1]], FMAXS) == d.sizes
  {
    PadBack(d.sizes, d.nb);
    hide Padded;
    assert ([d.skip, d.nb] + d.sizes[..d.nb])[2..][..d.nb] == d.sizes[..d.nb];
  }

  lemma NumbersJoined(d: Fields, t1: seq<int>, t2: seq<int>)
    requires ArraySizes(d) && CountsInRange(d)
    requires t2 == [d.skip, d.nb] + d.sizes[..d.nb] && t1 == [d.mapped, d.ndma] + Zip(d.dlen, d.dstart, d.ndma) + t2
    ensures Numbers(d) == [d.n, d.off0, d.nch] + d.chp[..d.nch] + Zip(d.len, d.gap, d.n) + t1
  {
    UptoSteps(d);
    FirstPart(d);
    hide Upto, Numbers, Zip;
  }

  lemma ParseNumbers(d: Fields)
    requires Printable(d)
    ensures Parse(Numbers(d)) == Some(d)
  {
    var t2 := [d.skip, d.nb] + d.sizes[..d.nb];
    var t1 := [d.mapped, d.ndma] + Zip(d.dlen, d.dstart, d.ndma) + t2;
    EntriesBack(d, t1);
    DmaBack(d, t2);
    RequestBack(d);
    NumbersJoined(d, t1, t2);
    hide Upto, Numbers, Zip, Padded, Evens, Odds, EntriesOk, DmaOk, RequestOk;
  }

  lemma FirstPart(d: Fields)
    requires ArraySizes(d) && CountsInRange(d)
    ensures Upto(d, 0) == [d.n]
  {
  }

  /** Scanning the text that was printed gives back every description whose counts are in range
      and whose unused slots are zero. */
  lemma ScanPrint(d: Fields)
    requires Printable(d)
    ensures Parse(Tokens(Text(d))) == Some(d)
  {
    hide Line, Numbers;
    assert Numbers(d) != [] by { UptoSteps(d); }
    TokensOfLine(Numbers(d));
    ParseNumbers(d);
  }

  /** ... and a description with a stray value in an unused slot is never what comes back. */
  lemma ScannedIsPrintable(s: string)
    ensures Parse(Tokens(s)).Some? ==> Printable(Parse(Tokens(s)).value)
  {
    hide Tokens;
  }
}
