/**
  Buffers that carry their own length: in a first slot (LEN_PREFIXED) or by a sentinel after
  the elements (TERMINATED).  A buffer is its slots of `width` bytes each, in order.
 */
module Buffers {
  import opened Options
  import opened Wire

  type Slot = seq<byte>

  const INT64_MAX: int := 0x7FFF_FFFF_FFFF_FFFF
  const INT64_MIN: int := -0x8000_0000_0000_0000

  /** An integer schema: width in bytes, signedness, and the range it draws from. */
  datatype Elem = Elem(width: nat, isSigned: bool, lo: int, hi: int)

  function TypeMin(e: Elem): int { if e.isSigned then -(Pow256(e.width) / 2) else 0 }

  function TypeMax(e: Elem): int { if e.isSigned then Pow256(e.width) / 2 - 1 else Pow256(e.width) - 1 }

  predicate Good(e: Elem) { e.width in {1, 2, 4, 8} && TypeMin(e) <= e.lo <= e.hi <= TypeMax(e) }

  lemma Widths()
    ensures Pow256(1) == 0x100 && Pow256(2) == 0x1_0000 && Pow256(4) == 0x1_0000_0000
    ensures Pow256(8) == 0x1_0000_0000_0000_0000
  {
    assert Pow256(1) == 256 * Pow256(0);
    Pow256Four();
    assert Pow256(6) == 0x1_0000 * Pow256(4);
    assert Pow256(8) == 0x1_0000 * Pow256(6);
  }

  /** hegel__write_int_at: the low bytes of a 64-bit value. */
  function Written(v: int, width: nat): (s: Slot)
    ensures |s| == width
  {
    LE(v % Pow256(width), width)
  }

  /** The C value of a slot. */
  function Typed(s: Slot, e: Elem): int {
    if e.isSigned && FromLE(s) >= Pow256(|s|) / 2 then FromLE(s) - Pow256(|s|) else FromLE(s)
  }

  /** hegel__read_int_at: the same as an int64, where 8 unsigned bytes are read as signed. */
  function ReadAt(s: Slot, e: Elem): int {
    if e.width == 8 && FromLE(s) > INT64_MAX then FromLE(s) - 0x1_0000_0000_0000_0000 else Typed(s, e)
  }

  lemma WrittenBack(v: int, e: Elem)
    requires Good(e)
    ensures FromLE(Written(v, e.width)) == v % Pow256(e.width)
    ensures TypeMin(e) <= v <= TypeMax(e) ==> Typed(Written(v, e.width), e) == v
  {
    hide LE, FromLE, Pow256;
    Widths();
    LERoundTrip(v % Pow256(e.width), e.width);
  }

  /** An int64 the element type can hold, as hegel__read_int_at sees it. */
  predicate Representable(v: int, e: Elem) {
    if e.width == 8 then INT64_MIN <= v <= INT64_MAX else TypeMin(e) <= v <= TypeMax(e)
  }

  lemma RepresentableIff(v: int, e: Elem)
    requires Good(e) && INT64_MIN <= v <= INT64_MAX
    ensures ReadAt(Written(v, e.width), e) == v <==> Representable(v, e)
  {
    Widths();
    WrittenBack(v, e);
    hide LE, FromLE, Pow256;
  }

  /* ---- The draw ---- */

  /** The n slots of the drawn elements. */
  function Slots(draw: nat -> int, n: nat, width: nat): (r: seq<Slot>)
    ensures |r| == n
  {
    seq(n, i requires 0 <= i < n => Written(draw(i), width))
  }

  function Image(prefixed: bool, draw: nat -> int, n: nat, e: Elem, sentinel: int): seq<Slot> {
    if prefixed then [Written(n, e.width)] + Slots(draw, n, e.width)
    else Slots(draw, n, e.width) + [Written(sentinel, e.width)]
  }

  ghost predicate InRange(draw: nat -> int, e: Elem) { forall i: nat :: e.lo <= draw(i) <= e.hi }

  /** Element i of a TERMINATED buffer reads back as the sentinel. */
  predicate Collides(draw: nat -> int, i: nat, e: Elem, sentinel: int) {
    ReadAt(Written(draw(i), e.width), e) == sentinel
  }

  function MaxPrefix(e: Elem): int { if e.hi > INT64_MAX then INT64_MAX else e.hi }

  /** Why the draw aborts. */
  predicate Aborts(prefixed: bool, draw: nat -> int, n: int, e: Elem, sentinel: int) {
    n < 0 || (prefixed && n > MaxPrefix(e)) || (!prefixed && exists i :: 0 <= i < n && Collides(draw, i, e, sentinel))
  }

  /** The LEN_PREFIXED / TERMINATED case of hegel__draw_field; None: it aborted. */
  method DrawBuffer(prefixed: bool, draw: nat -> int, n: int, e: Elem, sentinel: int) returns (r: Option<array<Slot>>)
    requires Good(e)
    ensures r.None? <==> Aborts(prefixed, draw, n, e, sentinel)
    ensures r.Some? ==> r.value[..] == Image(prefixed, draw, n, e, sentinel)
  {
    hide Written, ReadAt;
    if n < 0 { return None; }
    if prefixed && n > MaxPrefix(e) { return None; }
    var arr := new Slot[n + 1](_ => Written(0, e.width));
    var prefix := if prefixed then 1 else 0;
    if prefixed { arr[0] := Written(n, e.width); }
    for i := 0 to n
      invariant prefixed ==> arr[0] == Written(n, e.width)
      invariant forall j :: 0 <= j < i ==> arr[j + prefix] == Written(draw(j), e.width)
      invariant !prefixed ==> forall j :: 0 <= j < i ==> !Collides(draw, j, e, sentinel)
    {
      arr[i + prefix] := Written(draw(i), e.width);
      if !prefixed {
        var v := ReadAt(arr[i], e);
        if v == sentinel {
          assert Collides(draw, i, e, sentinel);
          return None;
        }
      }
    }
    if !prefixed { arr[n] := Written(sentinel, e.width); }
    r := Some(arr);
    assert arr[..] == Image(prefixed, draw, n, e, sentinel);
  }

  /* ---- Reading it back ---- */

  function Drawn(draw: nat -> int, n: nat): (r: seq<int>)
    ensures |r| == n
  {
    seq(n, i requires 0 <= i < n => draw(i))
  }

  function TypedAll(s: seq<Slot>, e: Elem): (r: seq<int>)
    ensures |r| == |s|
  {
    seq(|s|, i requires 0 <= i < |s| => Typed(s[i], e))
  }

  /** A consumer that trusts the first slot. */
  function ReadPrefixed(buf: seq<Slot>, e: Elem): Option<seq<int>> {
    if buf == [] then None
    else
      var n := Typed(buf[0], e);
      if n < 0 || n > |buf| - 1 then None else Some(TypedAll(buf[1..n + 1], e))
  }

  /** A consumer that reads up to the sentinel; None: it runs off the buffer. */
  function ReadTerminated(buf: seq<Slot>, e: Elem, sentinel: int): Option<seq<int>> {
    if buf == [] then None
    else if ReadAt(buf[0], e) == sentinel then Some([])
    else
      var rest := ReadTerminated(buf[1..], e, sentinel);
      if rest.None? then None else Some([Typed(buf[0], e)] + rest.value)
  }

  lemma SlotsBack(draw: nat -> int, n: nat, e: Elem)
    requires Good(e) && InRange(draw, e)
    ensures TypedAll(Slots(draw, n, e.width), e) == Drawn(draw, n)
  {
    forall i | 0 <= i < n ensures Typed(Written(draw(i), e.width), e) == draw(i) { WrittenBack(draw(i), e); }
  }

  /** A LEN_PREFIXED buffer that was drawn holds exactly the n elements, at every width and
      signedness. */
  lemma PrefixedBack(draw: nat -> int, n: nat, e: Elem, sentinel: int)
    requires Good(e) && InRange(draw, e) && !Aborts(true, draw, n, e, sentinel)
    ensures ReadPrefixed(Image(true, draw, n, e, sentinel), e) == Some(Drawn(draw, n))
  {
    WrittenBack(n, e);
    SlotsBack(draw, n, e);
    Widths();
    hide Written, Typed, Pow256;
    var buf := Image(true, draw, n, e, sentinel);
    assert buf[1..n + 1] == Slots(draw, n, e.width);
  }

  lemma {:induction false} ScanFrom(slots: seq<Slot>, end: Slot, e: Elem, sentinel: int)
    requires forall i :: 0 <= i < |slots| ==> ReadAt(slots[i], e) != sentinel
    ensures ReadTerminated(slots + [end], e, sentinel) ==
            if ReadAt(end, e) == sentinel then Some(TypedAll(slots, e)) else None
    decreases |slots|
  {
    hide ReadAt, Typed;
    if slots == [] {
      assert slots + [end] == [end] && [end][1..] == [];
    } else {
      ScanFrom(slots[1..], end, e, sentinel);
      assert (slots + [end])[1..] == slots[1..] + [end];
      assert TypedAll(slots, e) == [Typed(slots[0], e)] + TypedAll(slots[1..], e);
    }
  }

  /** Scanning a TERMINATED buffer that was drawn recovers exactly the n elements if and only if
      the element type can hold the sentinel; otherwise the scan runs off its end. */
  lemma TerminatedBack(draw: nat -> int, n: nat, e: Elem, sentinel: int)
    requires Good(e) && InRange(draw, e) && INT64_MIN <= sentinel <= INT64_MAX
    requires !Aborts(false, draw, n, e, sentinel)
    ensures ReadTerminated(Image(false, draw, n, e, sentinel), e, sentinel) ==
            if Representable(sentinel, e) then Some(Drawn(draw, n)) else None
  {
    SlotsBack(draw, n, e);
    RepresentableIff(sentinel, e);
    hide Written, ReadAt, Typed, Representable;
    var slots := Slots(draw, n, e.width);
    forall i | 0 <= i < n ensures ReadAt(slots[i], e) != sentinel { assert !Collides(draw, i, e, sentinel); }
    ScanFrom(slots, Written(sentinel, e.width), e, sentinel);
  }

  /* ---- The build-time check ---- */

  function AsInt64(v: int): int { if v > INT64_MAX then v - 0x1_0000_0000_0000_0000 else v }

  /** hegel__check_sentinel_collision accepts the schema. */
  predicate Accepted(e: Elem, sentinel: int) { !(AsInt64(e.lo) <= sentinel <= MaxPrefix(e)) }

  /** The check at build time leaves exactly one kind of collision to the one at draw time: a
      negative sentinel that is a drawable unsigned 64-bit value seen as an int64. */
  lemma BuildCheckMisses(e: Elem, sentinel: int)
    requires Good(e) && INT64_MIN <= sentinel <= INT64_MAX && Accepted(e, sentinel)
    ensures (exists v :: e.lo <= v <= e.hi && ReadAt(Written(v, e.width), e) == sentinel) <==>
            (!e.isSigned && e.width == 8 && e.lo <= INT64_MAX && sentinel < 0 && sentinel + 0x1_0000_0000_0000_0000 <= e.hi)
  {
    forall v | e.lo <= v <= e.hi ensures ReadAt(Written(v, e.width), e) == AsInt64(v) { DrawnAsInt64(v, e); }
    Widths();
    hide Written, ReadAt, Pow256;
    if !e.isSigned && e.width == 8 && e.lo <= INT64_MAX && sentinel < 0 && sentinel + 0x1_0000_0000_0000_0000 <= e.hi {
      var v := sentinel + 0x1_0000_0000_0000_0000;
      assert ReadAt(Written(v, e.width), e) == sentinel;
    }
  }

  lemma DrawnAsInt64(v: int, e: Elem)
    requires Good(e) && e.lo <= v <= e.hi
    ensures ReadAt(Written(v, e.width), e) == AsInt64(v)
  {
    Widths();
    WrittenBack(v, e);
    hide LE, FromLE, Pow256;
  }

  /* ---- Inputs at which a promise fails ---- */

  /** Bytes with the sentinel -1, which the build-time check takes: one element is drawn, and the
      scan does not find the end. */
  lemma ByteSentinel()
    ensures var e := Elem(1, false, 0, 255);
      && Good(e) && Accepted(e, -1) && !Aborts(false, _ => 7, 1, e, -1)
      && ReadTerminated(Image(false, _ => 7, 1, e, -1), e, -1).None?
  {
    var e := Elem(1, false, 0, 255);
    Widths();
    DrawnAsInt64(7, e);
    assert !Collides(_ => 7, 0, e, -1);
    hide Written, ReadAt;
    TerminatedBack(_ => 7, 1, e, -1);
  }

  /** Unsigned 64-bit elements of the full range with the sentinel -1: taken by the build-time
      check, and drawing 2^64 - 1 collides. */
  lemma WideSentinel()
    ensures var e := Elem(8, false, 0, 0xFFFF_FFFF_FFFF_FFFF);
      Good(e) && Accepted(e, -1) && Aborts(false, _ => 0xFFFF_FFFF_FFFF_FFFF, 1, e, -1)
  {
    var e := Elem(8, false, 0, 0xFFFF_FFFF_FFFF_FFFF);
    Widths();
    DrawnAsInt64(0xFFFF_FFFF_FFFF_FFFF, e);
    assert Collides(_ => 0xFFFF_FFFF_FFFF_FFFF, 0, e, -1);
  }
}
