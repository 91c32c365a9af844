/**
  Payloads that are packed on one side and unpacked on the other: a state machine's names, a
  failure, and the bounds of an unsigned 64-bit draw.
 */
module Codecs {
  import opened Wire
  import opened Server

  const MAX_SLOTS: nat := 64
  const STEP_COUNT: nat := 50
  const U64: nat := 0x1_0000_0000_0000_0000

  type u64 = x: nat | x < U64

  /* ---- SM_NEW ---- */

  type Name = s: seq<byte> | |s| < U32

  function PackNames(names: seq<Name>): seq<byte> {
    if names == [] then [] else PackNames(names[..|names|-1]) + LE(|names[|names|-1]|, 4) + names[|names|-1]
  }

  function PackMachine(rules: seq<Name>, invs: seq<Name>): seq<byte> {
    LE(|rules|, 4) + LE(|invs|, 4) + LE(STEP_COUNT, 8) + PackNames(rules + invs)
  }

  /** sm_create: the request's payload. */
  method SmCreate(rules: seq<Name>, invs: seq<Name>) returns (p: seq<byte>)
    requires |rules| <= MAX_SLOTS && |invs| <= MAX_SLOTS
    ensures p == PackMachine(rules, invs)
  {
    p := LE(|rules|, 4);
    p := p + LE(|invs|, 4);
    p := p + LE(STEP_COUNT, 8);
    ghost var head, all := p, rules + invs;
    assert all[..0] == [] && head + [] == head;
    for i := 0 to |rules| + |invs|
      invariant p == head + PackNames(all[..i])
    {
      var name := if i < |rules| then rules[i] else invs[i - |rules|];
      assert all[..i + 1][..i] == all[..i] && all[..i + 1][i] == name;
      p := p + LE(|name|, 4);
      p := p + name;
      assert p == head + PackNames(all[..i + 1]) by {
        Associate(head, PackNames(all[..i]), LE(|name|, 4), name);
      }
    }
    assert all[..|rules| + |invs|] == all;
  }

  lemma Associate(a: seq<byte>, b: seq<byte>, c: seq<byte>, d: seq<byte>)
    ensures a + b + c + d == a + (b + c + d)
  {
  }

  lemma {:induction false} PackNamesCons(names: seq<Name>)
    requires names != []
    ensures PackNames(names) == LE(|names[0]|, 4) + (names[0] + PackNames(names[1..]))
    decreases |names|
  {
    hide LE;
    var k := |names| - 1;
    var l, name := LE(|names[k]|, 4), names[k];
    if k == 0 {
      assert names[..0] == [] && names[1..] == [];
      assert PackNames([]) + l + name == l + (name + PackNames([]));
    } else {
      PackNamesCons(names[..k]);
      assert names[..k][1..] == names[1..][..k - 1];
      var l0, n0, mid := LE(|names[0]|, 4), names[0], PackNames(names[1..][..k - 1]);
      assert l0 + (n0 + mid) + l + name == l0 + (n0 + (mid + l + name));
    }
  }

  /** A length-prefixed field, taken off the front. */
  lemma TakeField(n: nat, k: nat, rest: seq<byte>)
    requires n < Pow256(k)
    ensures var (b, r) := Get(Rd(LE(n, k) + rest, false), k);
      FromLE(b) == n && r == Rd(rest, false)
  {
    LERoundTrip(n, k);
    hide LE, FromLE, Pow256;
    assert (LE(n, k) + rest)[..k] == LE(n, k) && (LE(n, k) + rest)[k..] == rest;
  }

  lemma {:induction false} NamesBack(names: seq<Name>)
    ensures GetNames(Rd(PackNames(names), false), |names|) == (names, Rd([], false))
    decreases |names|
  {
    if names != [] {
      NamesBack(names[1..]);
      PackNamesCons(names);
      var name, tail := names[0], names[1..];
      NameBack(name, PackNames(tail), tail);
      assert names == [name] + tail;
    }
  }

  lemma NameBack(name: Name, rest: seq<byte>, tail: seq<Name>)
    requires GetNames(Rd(rest, false), |tail|) == (tail, Rd([], false))
    ensures GetNames(Rd(LE(|name|, 4) + (name + rest), false), |tail| + 1) == ([name] + tail, Rd([], false))
  {
    Pow256Four();
    TakeField(|name|, 4, name + rest);
    hide LE, Get, Pow256;
    assert (name + rest)[..|name|] == name && (name + rest)[|name|..] == rest;
  }

  lemma FieldBack(n: nat, k: nat, rest: seq<byte>)
    requires n < Pow256(k)
    ensures Field(Rd(LE(n, k) + rest, false), k) == n && After(Rd(LE(n, k) + rest, false), k) == Rd(rest, false)
  {
    TakeField(n, k, rest);
    hide LE, FromLE, Get, Pow256;
  }

  lemma UnpackFields(nr: nat, ni: nat, steps: nat, rest: seq<byte>, names: seq<seq<byte>>)
    requires nr < Pow256(4) && ni < Pow256(4) && steps < Pow256(8) && nr + ni < U32
    requires GetNames(Rd(rest, false), nr + ni) == (names, Rd([], false))
    ensures Unpack(Rd(LE(nr, 4) + (LE(ni, 4) + (LE(steps, 8) + rest)), false)) ==
            Unpacked(nr, ni, steps, names, Rd([], false))
  {
    hide LE, GetNames, Pow256, Field, After;
    FieldBack(nr, 4, LE(ni, 4) + (LE(steps, 8) + rest));
    FieldBack(ni, 4, LE(steps, 8) + rest);
    FieldBack(steps, 8, rest);
  }

  /** What the server unpacks from a SM_NEW request: counts, step budget and every name. */
  lemma MachineBack(rules: seq<Name>, invs: seq<Name>)
    requires |rules| <= MAX_SLOTS && |invs| <= MAX_SLOTS
    ensures Unpack(Rd(PackMachine(rules, invs), false)) ==
            Unpacked(|rules|, |invs|, STEP_COUNT, rules + invs, Rd([], false))
  {
    Pow256Four();
    PowMore(4);
    NamesBack(rules + invs);
    hide LE, PackNames, GetNames, Pow256, Unpack;
    var names := PackNames(rules + invs);
    UnpackFields(|rules|, |invs|, STEP_COUNT, names, rules + invs);
    JoinFour(LE(|rules|, 4), LE(|invs|, 4), LE(STEP_COUNT, 8), names);
  }

  lemma JoinFour(a: seq<byte>, b: seq<byte>, c: seq<byte>, d: seq<byte>)
    ensures a + b + c + d == a + (b + (c + d))
  {
  }

  lemma PowMore(k: nat)
    ensures Pow256(k + 4) >= Pow256(k)
  {
    assert Pow256(k + 1) >= Pow256(k) && Pow256(k + 2) >= Pow256(k + 1);
    assert Pow256(k + 3) >= Pow256(k + 2) && Pow256(k + 4) >= Pow256(k + 3);
  }

  /* ---- FAIL ---- */

  function PackFail(origin: seq<byte>, msg: seq<byte>): seq<byte>
    requires |origin| < U32
  {
    LE(|origin|, 4) + origin + msg
  }

  /** The verdict unpacked from a FAIL message; it has the origin and the text that were packed
      exactly when they fit the parent's buffers, and is cut to them otherwise. */
  lemma FailBack(origin: seq<byte>, msg: seq<byte>)
    requires |origin| < U32 && 0 !in origin && 0 !in msg
    ensures var o := DecodeFail(Rd(PackFail(origin, msg), false));
      && o.status == Interesting && !o.health && o.origin <= origin && o.msg <= msg
      && (o.origin == origin <==> |origin| < 512) && (o.msg == msg <==> |msg| < 1024)
  {
    Pow256Four();
    CStrWhole(origin, 512);
    CStrWhole(msg, 1024);
    TakeField(|origin|, 4, origin + msg);
    hide LE, CStr, Get, FromLE, Pow256;
    JoinThree(LE(|origin|, 4), origin, msg);
    assert (origin + msg)[..|origin|] == origin && (origin + msg)[|origin|..] == msg;
  }

  lemma JoinThree(a: seq<byte>, b: seq<byte>, c: seq<byte>)
    ensures a + b + c == a + (b + c)
  {
  }

  /** The bytes of a request for a machine of one rule "a" and one invariant "bc", and of a failure. */
  lemma PackedBytes()
    ensures PackMachine([[97]], [[98, 99]]) ==
      [1, 0, 0, 0, 1, 0, 0, 0, 50, 0, 0, 0, 0, 0, 0, 0, 1, 0, 0, 0, 97, 2, 0, 0, 0, 98, 99]
    ensures PackFail([97], [98, 99]) == [1, 0, 0, 0, 97, 98, 99]
  {
    SmallLE();
    hide LE, PackNames;
    TwoNames([97], [98, 99]);
    assert [[97]] + [[98, 99]] == [[97], [98, 99]];
  }

  lemma TwoNames(a: Name, b: Name)
    ensures PackNames([a, b]) == LE(|a|, 4) + a + LE(|b|, 4) + b
  {
    hide LE;
    PackNamesCons([a, b]);
    PackNamesCons([b]);
    assert [a, b][1..] == [b] && [b][1..] == [] && PackNames([]) == [];
    assert LE(|a|, 4) + (a + (LE(|b|, 4) + (b + []))) == LE(|a|, 4) + a + LE(|b|, 4) + b;
  }

  lemma SmallLE()
    ensures LE(1, 4) == [1, 0, 0, 0] && LE(2, 4) == [2, 0, 0, 0] && LE(STEP_COUNT, 8) == [50, 0, 0, 0, 0, 0, 0, 0]
  {
    assert LE(0, 4) == [0, 0, 0, 0];
    assert LE(0, 3) == [0, 0, 0];
    assert LE(STEP_COUNT, 8) == [50] + LE(0, 7) && LE(0, 7) == [0, 0, 0] + LE(0, 4);
  }

  /* ---- Unsigned draws ---- */

  /** The integer a little-endian two's-complement byte string denotes. */
  function Signed(b: seq<byte>): int
    requires b != []
  {
    if b[|b|-1] >= 128 then FromLE(b) - Pow256(|b|) else FromLE(b)
  }

  /** n >> 8 * i. */
  function Shift(n: nat, i: nat): nat
    decreases i
  {
    if i == 0 then n else Shift(n / 256, i - 1)
  }

  lemma {:induction false} ShiftsAreLE(n: nat, k: nat, i: nat)
    requires i < k
    ensures LE(n, k)[i] == Shift(n, i) % 256
    decreases k
  {
    if i > 0 { ShiftsAreLE(n / 256, k - 1, i - 1); }
  }

  /** The eight low bytes of n and a zero: the 9-byte bound passed to the engine. */
  method Bound(n: u64) returns (b: array<byte>)
    ensures fresh(b) && b.Length == 9 && b[..] == LE(n, 9) && Signed(b[..]) == n
  {
    b := new byte[9](_ => 0);
    for i := 0 to 8
      invariant forall j :: 0 <= j < i ==> b[j] == LE(n, 9)[j]
    {
      ShiftsAreLE(n, 9, i);
      b[i] := Shift(n, i) % 256;
    }
    b[8] := 0;
    TopByte(n);
    assert b[..] == LE(n, 9);
  }

  lemma TopByte(n: u64)
    ensures LE(n, 9)[8] == 0 && Signed(LE(n, 9)) == n
  {
    ShiftsAreLE(n, 9, 8);
    Pow256Four();
    assert Shift(n, 4) == n / 256 / 256 / 256 / 256;
    assert Shift(n, 8) == Shift(n / 256 / 256 / 256 / 256, 4);
    assert Pow256(9) >= U64 by { PowNine(); }
    LERoundTrip(n, 9);
  }

  lemma PowNine()
    ensures Pow256(8) == U64 && Pow256(9) == 256 * U64
  {
    Pow256Four();
    assert Pow256(6) == 256 * 256 * U32;
    assert Pow256(8) == 256 * 256 * Pow256(6);
  }

  /** The value of the first k bytes that came back. */
  method Collect(val: array<byte>) returns (v: nat)
    requires val.Length == 9
    ensures v == FromLE(val[..8])
  {
    v := 0;
    assert val[..0] == [];
    for i := 0 to 8
      invariant v == FromLE(val[..i])
    {
      assert val[..i + 1] == val[..i] + [val[i]];
      FromLEPush(val[..i], val[i]);
      v := v + val[i] * Pow256(i);
    }
  }

  lemma {:induction false} FromLEPush(s: seq<byte>, b: byte)
    ensures FromLE(s + [b]) == FromLE(s) + b * Pow256(|s|)
  {
    if s == [] {
      assert [b][1..] == [];
    } else {
      FromLEPush(s[1..], b);
      assert (s + [b])[1..] == s[1..] + [b];
      assert 256 * (b * Pow256(|s| - 1)) == b * Pow256(|s|);
    }
  }

  /** What generate_integer_big promises: two's-complement bytes of a value within the bounds
      those bytes denote. */
  ghost predicate BigContract(big: (seq<byte>, seq<byte>) -> seq<byte>) {
    forall lo, hi :: lo != [] && hi != [] && Signed(lo) <= Signed(hi) ==>
      1 <= |big(lo, hi)| <= 9 && Signed(lo) <= Signed(big(lo, hi)) <= Signed(hi)
  }

  ghost predicate SmallContract(small: (int, int) -> int) {
    forall lo, hi :: lo <= hi ==> lo <= small(lo, hi) <= hi
  }

  /** What an unsigned draw yields: the engine's value, whichever entry point it came from. */
  function DrawnU64(min: u64, max: u64, small: (int, int) -> int, big: (seq<byte>, seq<byte>) -> seq<byte>): int {
    if max < 0x8000_0000_0000_0000 then small(min, max)
    else
      var b := big(LE(min, 9), LE(max, 9));
      if b == [] then 0 else Signed(b)
  }

  /** draw_u64: 64-bit bounds for the small entry point, 9-byte bounds for the big one. */
  method DrawU64(min: u64, max: u64, small: (int, int) -> int, big: (seq<byte>, seq<byte>) -> seq<byte>)
    returns (v: u64)
    requires min <= max && SmallContract(small) && BigContract(big)
    ensures min <= v <= max && v == DrawnU64(min, max, small, big)
  {
    hide LE, FromLE, Signed, Pow256, BigContract, SmallContract;
    if max < 0x8000_0000_0000_0000 {
      var x := small(min, max);
      SmallAnswer(min, max, small);
      return x % U64;
    }
    v := DrawBig(min, max, big);
  }

  lemma SmallAnswer(min: int, max: int, small: (int, int) -> int)
    requires min <= max && SmallContract(small)
    ensures min <= small(min, max) <= max
  {
  }

  method DrawBig(min: u64, max: u64, big: (seq<byte>, seq<byte>) -> seq<byte>) returns (v: u64)
    requires min <= max && BigContract(big)
    ensures min <= v <= max && big(LE(min, 9), LE(max, 9)) != [] && v == Signed(big(LE(min, 9), LE(max, 9)))
  {
    hide LE, FromLE, Signed, Pow256, BigContract;
    var lo := Bound(min);
    var hi := Bound(max);
    var got := big(lo[..], hi[..]);
    BigAnswer(min, max, big, got);
    var val := new byte[9](_ => 0);
    forall i | 0 <= i < |got| { val[i] := got[i]; }
    var out := Collect(val);
    Positive(got, val[..]);
    v := out % U64;
  }

  lemma BigAnswer(min: u64, max: u64, big: (seq<byte>, seq<byte>) -> seq<byte>, got: seq<byte>)
    requires min <= max && BigContract(big) && got == big(LE(min, 9), LE(max, 9))
    ensures 1 <= |got| <= 9 && min <= Signed(got) <= max
  {
    TopByte(min);
    TopByte(max);
    hide LE, FromLE, Signed, Pow256;
  }

  /** A value that fits 64 bits is what its low bytes say, however many were written. */
  lemma Positive(got: seq<byte>, val: seq<byte>)
    requires 1 <= |got| <= 9 == |val| && 0 <= Signed(got) < U64
    requires forall i :: 0 <= i < 9 ==> val[i] == if i < |got| then got[i] else 0
    ensures FromLE(val[..8]) == Signed(got)
  {
    FromLEBound(got);
    assert Signed(got) == FromLE(got);
    assert val == got + Zeros(9 - |got|);
    FromLEZeros(got, 9 - |got|);
    assert val == val[..8] + [val[8]];
    FromLEPush(val[..8], val[8]);
    PowNine();
    FromLEBound(val[..8]);
  }

  lemma {:induction false} FromLEZeros(s: seq<byte>, n: nat)
    ensures FromLE(s + Zeros(n)) == FromLE(s)
    decreases n
  {
    if n == 0 {
      assert s + Zeros(0) == s;
    } else {
      FromLEZeros(s, n - 1);
      FromLEPush(s + Zeros(n - 1), 0);
      assert s + Zeros(n) == s + Zeros(n - 1) + [0];
    }
  }

  /** Every u64 can be drawn exactly: the bounds denote it, and its bytes decode to it. */
  lemma EveryU64(n: u64)
    ensures Signed(LE(n, 9)) == n && FromLE(LE(n, 9)[..8]) == n
  {
    TopByte(n);
    Positive(LE(n, 9), LE(n, 9));
  }
}
