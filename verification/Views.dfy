/**
  What a callback sees of the struct it is drawing for.  Fields are drawn one after the other;
  a callback may read, through the view, every field that is already drawn.
 */
module Views {
  import opened Options
  import opened Wire
  import opened Layout
  import Buffers

  /** How an entry of a struct is drawn: in its place, without a place, by a callback once the
      others are drawn, or as the length of the array field at `target`. */
  datatype Kind = Plain | Binding | Computed | LenOf(target: nat)

  predicate IsArray(n: Node, kinds: seq<Kind>, j: nat)
    requires n.Struct? && |kinds| == |n.fields|
  {
    j < |n.fields| && kinds[j].Plain? && (n.fields[j].Pointer? || n.fields[j].ArrayInline?)
  }

  /** A built struct, with the checks hegel__struct_build makes on LEN_OF. */
  predicate Shaped(n: Node, kinds: seq<Kind>) {
    && n.Struct? && Built(n) && |kinds| == |n.fields| == |n.offs| == |n.lens|
    && (forall i :: 0 <= i < |kinds| ==> (kinds[i].Binding? <==> n.fields[i].Let?))
    && (forall g :: 0 <= g < |kinds| && kinds[g].LenOf? ==>
          n.fields[g] == Scalar(LG_INT) && exists j :: 0 <= j < |kinds| && IsArray(n, kinds, j) && n.offs[j] == kinds[g].target)
  }

  /* ---- Field regions ---- */

  function Lo(n: Node, i: nat): nat
    requires n.Struct? && i < |n.fields| == |n.offs|
  {
    if n.fields[i].Let? then 0 else n.offs[i]
  }

  /** The bytes of a field: its slot, and the count of an ARRAY_INLINE. */
  function Hi(n: Node, i: nat): nat
    requires n.Struct? && i < |n.fields| == |n.offs|
  {
    if n.fields[i].Let? then 0 else n.offs[i] + Span(n.fields[i])
  }

  lemma {:induction false} SpanOrdered(fs: seq<Node>, i: nat, j: nat)
    requires (forall f <- fs :: Built(f)) && i < j <= |fs| && !fs[i].Let? && (j < |fs| ==> !fs[j].Let?)
    ensures var l := Lay(fs, false);
      l.offs[i] + Span(fs[i]) <= (if j < |fs| then l.offs[j] else l.end)
    decreases |fs|, j
  {
    var k := |fs| - 1;
    assert fs[i] in fs && (j < |fs| ==> fs[j] in fs);
    BuiltPositive(fs[i]);
    if j < |fs| { BuiltPositive(fs[j]); }
    if i == k { LayAt(fs, false, i); }
    hide Up, Built, Size;
    if j == |fs| {
      if i < k { SpanOrdered(fs[..k], i, k); }
    } else if j == k {
      SpanOrdered(fs[..k], i, k);
    } else {
      SpanOrdered(fs[..k], i, j);
    }
  }

  lemma Regions(n: Node, kinds: seq<Kind>)
    requires Shaped(n, kinds)
    ensures forall i :: 0 <= i < |n.fields| ==> Lo(n, i) <= Hi(n, i) <= n.size
    ensures forall i, j :: 0 <= i < j < |n.fields| && !n.fields[i].Let? && !n.fields[j].Let? ==> Hi(n, i) <= Lo(n, j)
  {
    hide Size;
    forall i | 0 <= i < |n.fields| ensures Lo(n, i) <= Hi(n, i) <= n.size {
      if !n.fields[i].Let? { SpanOrdered(n.fields, i, |n.fields|); }
    }
    forall i, j | 0 <= i < j < |n.fields| && !n.fields[i].Let? && !n.fields[j].Let? ensures Hi(n, i) <= Lo(n, j) {
      SpanOrdered(n.fields, i, j);
    }
  }

  /** hegel__view_field's test for field i. */
  predicate Hit(n: Node, i: nat, off: nat, size: nat)
    requires n.Struct? && i < |n.fields| == |n.offs| == |n.lens|
  {
    !n.fields[i].Let? &&
    ((n.offs[i] <= off && off + size <= n.offs[i] + Size(n.fields[i])) || (n.fields[i].ArrayInline? && off == n.lens[i]))
  }

  /** The count of an ARRAY_INLINE is read as an int; the test above does not look at the size. */
  predicate TypedRead(n: Node, off: nat, size: nat)
    requires n.Struct? && |n.fields| == |n.lens|
  {
    off + size <= n.size && forall i :: 0 <= i < |n.fields| && n.fields[i].ArrayInline? && off == n.lens[i] ==> size <= INT
  }

  lemma HitInside(n: Node, kinds: seq<Kind>, i: nat, off: nat, size: nat)
    requires Shaped(n, kinds) && i < |n.fields| && Hit(n, i, off, size) && TypedRead(n, off, size)
    ensures Lo(n, i) <= off && off + size <= Hi(n, i)
  {
    assert n.fields[i] in n.fields;
    BuiltPositive(n.fields[i]);
    LayAt(n.fields, false, i);
    hide Lay, Built, Up, Size;
  }

  /** hegel__view_field takes any read at a count slot; it stays inside the field exactly when it
      is no wider than the count. */
  lemma CountReadIff(n: Node, kinds: seq<Kind>, i: nat, size: nat)
    requires Shaped(n, kinds) && i < |n.fields| && n.fields[i].ArrayInline?
    ensures Hit(n, i, n.lens[i], size)
    ensures n.lens[i] + size <= Hi(n, i) <==> size <= INT
  {
    assert n.fields[i] in n.fields;
    LayAt(n.fields, false, i);
    hide Lay, Built, Up, Size;
  }

  /* ---- The draw ---- */

  /** array_shape.len, an int. */
  type Count = x: int | 0 <= x <= 0x7FFF_FFFF

  /** The bytes of the field become these; or a callback reads through the view. */
  datatype Act = Put(bytes: seq<byte>) | Look(off: nat, size: nat)

  /** What drawing one field does, in order, and the length if it is an array.  A write to part of
      the field is a Put of all its bytes with the others as they were. */
  datatype Effect = Effect(acts: seq<Act>, len: Option<Count>)

  /** A read that succeeded. */
  datatype Read = Read(off: nat, bytes: seq<byte>)

  /** The struct while it is drawn: its bytes, which fields are drawn, and the lengths in the
      shapes of the arrays. */
  datatype Snap = Snap(mem: seq<byte>, drawn: seq<bool>, lens: seq<Option<Count>>)

  predicate Sized(n: Node, s: Snap) { n.Struct? && |s.mem| == n.size && |s.drawn| == |s.lens| == |n.fields| }

  /** The bytes of a read lie in a field that is drawn, and are still there. */
  predicate Held(n: Node, s: Snap, r: Read)
    requires Sized(n, s) && |n.offs| == |n.fields|
  {
    exists i :: 0 <= i < |n.fields| && s.drawn[i] && Lo(n, i) <= r.off && r.off + |r.bytes| <= Hi(n, i) <= |s.mem| &&
      r.bytes == s.mem[r.off..r.off + |r.bytes|]
  }

  /** g is a LEN_OF of field f. */
  predicate Names(n: Node, kinds: seq<Kind>, g: nat, f: nat) {
    n.Struct? && |kinds| == |n.fields| == |n.offs| && g < |kinds| && f < |kinds| &&
    kinds[g].LenOf? && !n.fields[f].Let? && kinds[g].target == n.offs[f]
  }

  predicate LengthAt(n: Node, s: Snap, g: nat, f: nat)
    requires Sized(n, s) && |n.offs| == |n.fields| && f < |n.fields| && g < |n.fields|
  {
    s.drawn[g] && s.lens[f].Some? && Lo(n, g) + INT == Hi(n, g) <= |s.mem| &&
    FromLE(s.mem[Lo(n, g)..Hi(n, g)]) == s.lens[f].value
  }

  /** Every array that is drawn, but for one, has its lengths in place. */
  predicate Filled(n: Node, kinds: seq<Kind>, s: Snap, but: int)
    requires Sized(n, s) && |n.offs| == |n.fields|
  {
    forall f, g :: 0 <= f < |n.fields| && f != but && 0 <= g < |n.fields| && s.drawn[f] && Names(n, kinds, g, f) ==>
      LengthAt(n, s, g, f)
  }

  /** Only bytes of field f differ. */
  predicate OnlyBytes(n: Node, f: nat, was: Snap, now: Snap)
    requires Sized(n, was) && Sized(n, now) && f < |n.fields| == |n.offs|
  {
    now.drawn == was.drawn && now.lens == was.lens &&
    forall k :: 0 <= k < |now.mem| && !(Lo(n, f) <= k < Hi(n, f)) ==> now.mem[k] == was.mem[k]
  }

  /** The bytes of each field. */
  function Slots(n: Node, mem: seq<byte>): (r: seq<seq<byte>>)
    requires n.Struct? && |n.fields| == |n.offs|
    ensures |r| == |n.fields|
  {
    seq(|n.fields|, i requires 0 <= i < |n.fields| =>
      if Lo(n, i) <= Hi(n, i) <= |mem| then mem[Lo(n, i)..Hi(n, i)] else [])
  }

  /** The bytes a field ends with: those put last, or those it had. */
  function LastPut(acts: seq<Act>, was: seq<byte>): seq<byte> {
    if acts == [] then was
    else
      match acts[|acts|-1]
      case Put(bytes) => bytes
      case Look(_, _) => LastPut(acts[..|acts|-1], was)
  }

  /** A read finds the first field it fits, and that field is drawn. */
  predicate Sees(n: Node, drawn: seq<bool>, off: nat, size: nat)
    requires n.Struct? && |n.fields| == |n.offs| == |n.lens| == |drawn|
  {
    exists i :: 0 <= i < |n.fields| && Hit(n, i, off, size) && drawn[i] && forall j :: 0 <= j < i ==> !Hit(n, j, off, size)
  }

  /** From `was` to `now`: the length in the LEN_OF fields of f among the first g, nothing else. */
  predicate LengthsIn(n: Node, kinds: seq<Kind>, was: seq<seq<byte>>, now: seq<seq<byte>>, len: Option<Count>, f: nat, g: nat) {
    |now| == |was| && forall i :: 0 <= i < |now| ==>
      if i < g && Names(n, kinds, i, f) then len.Some? && now[i] == Buffers.Written(len.value, INT) else now[i] == was[i]
  }

  /** Every read of these acts is of a drawn field. */
  predicate AllSeen(n: Node, drawn: seq<bool>, acts: seq<Act>)
    requires n.Struct? && |n.fields| == |n.offs| == |n.lens| == |drawn|
  {
    forall a <- acts :: a.Look? ==> Sees(n, drawn, a.off, a.size)
  }

  lemma ShapedFacts(n: Node, kinds: seq<Kind>)
    requires Shaped(n, kinds)
    ensures n.Struct? && |kinds| == |n.fields| == |n.offs| == |n.lens|
  {
  }

  lemma SameSlice(n: Node, kinds: seq<Kind>, f: nat, i: nat, was: Snap, now: Snap, lo: nat, hi: nat)
    requires Shaped(n, kinds) && Sized(n, was) && Sized(n, now) && f < |n.fields| && i < |n.fields| && i != f
    requires OnlyBytes(n, f, was, now) && Lo(n, i) <= lo <= hi <= Hi(n, i)
    ensures hi <= n.size && now.mem[lo..hi] == was.mem[lo..hi]
  {
    Regions(n, kinds);
    if !n.fields[i].Let? && !n.fields[f].Let? {
      assert Hi(n, i) <= Lo(n, f) || Hi(n, f) <= Lo(n, i) by { if i < f {} else {} }
    }
    hide Shaped;
  }

  /** Bytes written to one field leave those of the others. */
  lemma SlotsWrite(n: Node, kinds: seq<Kind>, f: nat, was: Snap, now: Snap, bytes: seq<byte>)
    requires Shaped(n, kinds) && Sized(n, was) && Sized(n, now) && f < |n.fields| && OnlyBytes(n, f, was, now)
    requires Lo(n, f) <= Hi(n, f) <= |now.mem| && now.mem[Lo(n, f)..Hi(n, f)] == bytes
    ensures |n.fields| == |n.offs| && Slots(n, now.mem) == Slots(n, was.mem)[f := bytes]
  {
    ShapedFacts(n, kinds);
    Regions(n, kinds);
    hide Lo, Hi, Shaped;
    forall i | 0 <= i < |n.fields| ensures Slots(n, now.mem)[i] == Slots(n, was.mem)[f := bytes][i] {
      if i != f { SameSlice(n, kinds, f, i, was, now, Lo(n, i), Hi(n, i)); }
    }
  }

  /** Writing a field that is not drawn leaves every read that was made as it was ... */
  lemma ReadKept(n: Node, kinds: seq<Kind>, f: nat, was: Snap, now: Snap, r: Read)
    requires Shaped(n, kinds) && Sized(n, was) && Sized(n, now) && f < |n.fields| && !was.drawn[f]
    requires OnlyBytes(n, f, was, now) && Held(n, was, r)
    ensures Held(n, now, r)
  {
    hide Lo, Hi, Shaped;
    ShapedFacts(n, kinds);
    var i :| 0 <= i < |n.fields| && was.drawn[i] && Lo(n, i) <= r.off && r.off + |r.bytes| <= Hi(n, i) <= |was.mem| &&
      r.bytes == was.mem[r.off..r.off + |r.bytes|];
    SameSlice(n, kinds, f, i, was, now, r.off, r.off + |r.bytes|);
  }

  /** ... and the lengths that are in place. */
  lemma LengthsKept(n: Node, kinds: seq<Kind>, f: nat, was: Snap, now: Snap, but: int)
    requires Shaped(n, kinds) && Sized(n, was) && Sized(n, now) && f < |n.fields| && !was.drawn[f]
    requires OnlyBytes(n, f, was, now) && Filled(n, kinds, was, but)
    ensures Filled(n, kinds, now, but)
  {
    ShapedFacts(n, kinds);
    hide Lo, Hi, Shaped, Names;
    forall e, g | 0 <= e < |n.fields| && e != but && 0 <= g < |n.fields| && now.drawn[e] && Names(n, kinds, g, e)
      ensures LengthAt(n, now, g, e)
    {
      assert LengthAt(n, was, g, e) && g != f;
      SameSlice(n, kinds, f, g, was, now, Lo(n, g), Hi(n, g));
    }
  }

  /** The LEN_OF fields of f among the first i are in place. */
  predicate Part(n: Node, kinds: seq<Kind>, s: Snap, f: nat, i: nat)
    requires Sized(n, s) && |n.offs| == |n.fields| && f < |n.fields| && i <= |n.fields|
  {
    forall g :: 0 <= g < i && Names(n, kinds, g, f) ==> LengthAt(n, s, g, f)
  }

  lemma PartKept(n: Node, kinds: seq<Kind>, g: nat, was: Snap, now: Snap, f: nat, i: nat)
    requires Shaped(n, kinds) && Sized(n, was) && Sized(n, now) && g < |n.fields| && !was.drawn[g] &&
        f < |n.fields| && i <= |n.fields|
    requires OnlyBytes(n, g, was, now) && Part(n, kinds, was, f, i)
    ensures Part(n, kinds, now, f, i)
  {
    ShapedFacts(n, kinds);
    hide Lo, Hi, Shaped, Names;
    forall h | 0 <= h < i && Names(n, kinds, h, f) ensures LengthAt(n, now, h, f) {
      assert LengthAt(n, was, h, f) && h != g;
      SameSlice(n, kinds, g, h, was, now, Lo(n, h), Hi(n, h));
    }
  }

  /** Only arrays are named. */
  lemma OnlyArraysNamed(n: Node, kinds: seq<Kind>, g: nat, f: nat)
    requires Shaped(n, kinds) && Names(n, kinds, g, f)
    ensures IsArray(n, kinds, f)
    ensures forall e :: Names(n, kinds, g, e) ==> e == f
  {
    ShapedFacts(n, kinds);
    var j :| 0 <= j < |kinds| && IsArray(n, kinds, j) && n.offs[j] == kinds[g].target;
    hide Shaped;
    SameOffset(n, kinds, f, j);
    forall e | Names(n, kinds, g, e) ensures e == f { SameOffset(n, kinds, e, f); }
  }

  lemma SameOffset(n: Node, kinds: seq<Kind>, i: nat, j: nat)
    requires Shaped(n, kinds) && i < |n.fields| && j < |n.fields| && !n.fields[i].Let? && !n.fields[j].Let? &&
        n.offs[i] == n.offs[j]
    ensures i == j
  {
    Regions(n, kinds);
    assert n.fields[i] in n.fields && n.fields[j] in n.fields;
    BuiltPositive(n.fields[i]);
    BuiltPositive(n.fields[j]);
    hide Size, Built, Lay;
  }

  /** Marking a field nobody names changes nothing for the lengths. */
  lemma MarkOther(n: Node, kinds: seq<Kind>, g: nat, was: Snap, len: Option<Count>, but: int)
    requires Shaped(n, kinds) && Sized(n, was) && g < |n.fields| && !was.drawn[g] && !IsArray(n, kinds, g)
    ensures var now := was.(drawn := was.drawn[g := true], lens := was.lens[g := len]);
      Filled(n, kinds, was, but) ==> Filled(n, kinds, now, but)
  {
    ShapedFacts(n, kinds);
    var now := was.(drawn := was.drawn[g := true], lens := was.lens[g := len]);
    forall h ensures !Names(n, kinds, h, g) { if Names(n, kinds, h, g) { OnlyArraysNamed(n, kinds, h, g); } }
    hide Lo, Hi, Shaped, Names;
    if Filled(n, kinds, was, but) {
      forall e, h | 0 <= e < |n.fields| && e != but && 0 <= h < |n.fields| && now.drawn[e] && Names(n, kinds, h, e)
        ensures LengthAt(n, now, h, e)
      {
        assert LengthAt(n, was, h, e);
      }
    }
  }

  lemma MarkKept(n: Node, kinds: seq<Kind>, f: nat, was: Snap, len: Option<Count>)
    requires Shaped(n, kinds) && Sized(n, was) && f < |n.fields| && !was.drawn[f]
    ensures var now := was.(drawn := was.drawn[f := true], lens := was.lens[f := len]);
      (forall r :: Held(n, was, r) ==> Held(n, now, r)) && (Filled(n, kinds, was, -1) ==> Filled(n, kinds, now, f))
  {
    ShapedFacts(n, kinds);
    hide Lo, Hi, Shaped, Names;
    var now := was.(drawn := was.drawn[f := true], lens := was.lens[f := len]);
    if Filled(n, kinds, was, -1) {
      forall e, g | 0 <= e < |n.fields| && e != f && 0 <= g < |n.fields| && now.drawn[e] && Names(n, kinds, g, e)
        ensures LengthAt(n, now, g, e)
      {
        assert LengthAt(n, was, g, e);
      }
    }
  }

  class StructDraw {
    const n: Node
    const kinds: seq<Kind>
    const mem: array<byte>
    const drawn: array<bool>
    const lens: array<Option<Count>>          // array_shape.len of each field's shape
    ghost var log: seq<Read>
    ghost var times: seq<nat>               // how often each field was drawn

    ghost function Now(): Snap
      reads mem, drawn, lens
    {
      Snap(mem[..], drawn[..], lens[..])
    }

    ghost predicate Valid()
      reads this, mem, drawn, lens
    {
      && Shaped(n, kinds) && Sized(n, Now()) && |times| == |n.fields|
      && (forall i :: 0 <= i < |times| ==> times[i] == if drawn[i] then 1 else 0)
      && (forall r <- log :: Held(n, Now(), r))
    }

    /** Nothing is drawn yet. */
    constructor (node: Node, k: seq<Kind>)
      requires Shaped(node, k)
      ensures Valid() && n == node && kinds == k && log == []
      ensures Filled(n, kinds, Now(), -1) && fresh(mem) && fresh(drawn) && fresh(lens)
      ensures forall i :: 0 <= i < drawn.Length ==> !drawn[i]
      ensures forall i :: 0 <= i < mem.Length ==> mem[i] == 0
    {
      n, kinds := node, k;
      mem := new byte[node.size](_ => 0);
      drawn := new bool[|node.fields|](_ => false);
      lens := new Option<Count>[|node.fields|](_ => None);
      log := [];
      times := seq(|node.fields|, _ => 0);
    }

    /** An effect fills its field, and its callback reads the count slots as ints. */
    ghost predicate Proper(e: Effect, f: nat)
      requires Shaped(n, kinds) && f < |n.fields|
    {
      forall a <- e.acts :: match a
        case Put(bytes) => |bytes| == Hi(n, f) - Lo(n, f)
        case Look(off, size) => TypedRead(n, off, size)
    }

    /** The bytes of one field, from `bytes`; nothing else changes. */
    method WriteField(f: nat, bytes: seq<byte>)
      requires Shaped(n, kinds) && Sized(n, Now()) && f < |n.fields| && |bytes| == Hi(n, f) - Lo(n, f)
      modifies mem
      ensures Sized(n, Now()) && OnlyBytes(n, f, old(Now()), Now())
      ensures Lo(n, f) <= Hi(n, f) <= mem.Length && mem[Lo(n, f)..Hi(n, f)] == bytes
    {
      Regions(n, kinds);
      hide Lo, Hi, Shaped;
      var lo := Lo(n, f);
      for k := 0 to |bytes|
        invariant forall j :: 0 <= j < k ==> mem[lo + j] == bytes[j]
        invariant forall j :: 0 <= j < mem.Length && !(lo <= j < lo + k) ==> mem[j] == old(mem[j])
      {
        mem[lo + k] := bytes[k];
      }
    }

    /** Bytes stored in a field that is not drawn disturb nothing. */
    method Store(f: nat, bytes: seq<byte>, ghost but: int)
      requires Valid() && f < |n.fields| && !drawn[f] && |bytes| == Hi(n, f) - Lo(n, f) && Filled(n, kinds, Now(), but)
      modifies mem
      ensures Valid() && Filled(n, kinds, Now(), but) && OnlyBytes(n, f, old(Now()), Now())
      ensures Lo(n, f) <= Hi(n, f) <= mem.Length && mem[Lo(n, f)..Hi(n, f)] == bytes
      ensures Slots(n, mem[..]) == old(Slots(n, mem[..]))[f := bytes]
    {
      ghost var was := Now();
      WriteField(f, bytes);
      ghost var now := Now();
      SlotsWrite(n, kinds, f, was, now, bytes);
      hide Shaped, Lo, Hi, Names, Held, Filled, OnlyBytes, Slots;
      forall r | r in log ensures Held(n, now, r) { ReadKept(n, kinds, f, was, now, r); }
      LengthsKept(n, kinds, f, was, now, but);
    }

    /** The field is drawn from here on. */
    method Mark(f: nat, len: Option<Count>)
      requires Valid() && f < |n.fields| && !drawn[f]
      modifies drawn, lens, `times
      ensures Valid() && (old(Filled(n, kinds, Now(), -1)) ==> Filled(n, kinds, Now(), f))
      ensures Now() == old(Now()).(drawn := old(drawn[..])[f := true], lens := old(lens[..])[f := len])
    {
      ghost var was := Now();
      hide Shaped, Lo, Hi, Names, Held, Filled;
      drawn[f] := true;
      lens[f] := len;
      times := times[f := times[f] + 1];
      MarkKept(n, kinds, f, was, len);
      assert Now() == was.(drawn := was.drawn[f := true], lens := was.lens[f := len]);
    }

    /** hegel__view_field; None: it aborts. */
    method ViewField(off: nat, size: nat) returns (r: Option<seq<byte>>)
      requires Valid() && TypedRead(n, off, size)
      modifies `log
      ensures Valid() && old(log) <= log
      ensures r.Some? ==> off + size <= mem.Length && r.value == mem[off..off + size] && log == old(log) + [Read(off, r.value)]
      ensures r.None? ==> log == old(log)
      ensures r.Some? <==> Sees(n, drawn[..], off, size)
    {
      hide Size, Built, Lay, Hit;
      for i := 0 to |n.fields|
        invariant log == old(log) && forall j :: 0 <= j < i ==> !Hit(n, j, off, size)
      {
        if Hit(n, i, off, size) {
          if !drawn[i] { return None; }
          HitInside(n, kinds, i, off, size);
          Regions(n, kinds);
          r := Some(mem[off..off + size]);
          assert mem[..][off..off + size] == r.value;
          assert Held(n, Now(), Read(off, r.value));
          log := log + [Read(off, r.value)];
          return;
        }
      }
      r := None;
    }

    /** One field: hegel__draw_field, or the callback of a computed field. */
    method DrawOne(f: nat, e: Effect) returns (ok: bool)
      requires Valid() && f < |n.fields| && !drawn[f] && Proper(e, f) && Filled(n, kinds, Now(), -1)
      modifies mem, drawn, lens, `log, `times
      ensures Valid() && old(log) <= log
      ensures ok ==> Filled(n, kinds, Now(), f)
      ensures ok ==> drawn[..] == old(drawn[..])[f := true] && lens[..] == old(lens[..])[f := e.len]
      ensures ok ==> Slots(n, mem[..]) == old(Slots(n, mem[..]))[f := LastPut(e.acts, old(Slots(n, mem[..]))[f])]
      ensures ok <==> AllSeen(n, old(drawn[..]), e.acts)
    {
      ShapedFacts(n, kinds);
      hide Shaped, Lo, Hi, Names, Held, Filled, Slots, Sees;
      ghost var slots := Slots(n, mem[..]);
      assert e.acts[..0] == [];
      for k := 0 to |e.acts|
        invariant Valid() && !drawn[f] && Filled(n, kinds, Now(), -1) && old(log) <= log
        invariant drawn[..] == old(drawn[..]) && lens[..] == old(lens[..])
        invariant AllSeen(n, old(drawn[..]), e.acts[..k])
        invariant Slots(n, mem[..]) == slots[f := LastPut(e.acts[..k], slots[f])]
      {
        assert e.acts[k] in e.acts;
        assert e.acts[..k + 1] == e.acts[..k] + [e.acts[k]];
        match e.acts[k] {
          case Put(bytes) => Store(f, bytes, -1);
          case Look(off, size) =>
            var r := ViewField(off, size);
            if r.None? { return false; }
        }
      }
      assert e.acts[..|e.acts|] == e.acts;
      Mark(f, e.len);
      ok := true;
    }

    /** hegel__draw_derived for a LEN_OF; false: the field it names is not an array, and it aborts. */
    method DrawLenOf(g: nat, ghost f: nat) returns (ok: bool)
      requires Valid() && g < |n.fields| && !drawn[g] && f < |n.fields| && Names(n, kinds, g, f) && drawn[f]
      requires Filled(n, kinds, Now(), f) && Part(n, kinds, Now(), f, g)
      modifies mem, drawn, lens, `times
      ensures ok ==> Valid() && Filled(n, kinds, Now(), f) && Part(n, kinds, Now(), f, g + 1)
      ensures ok ==> drawn[..] == old(drawn[..])[g := true] && lens[..] == old(lens[..])[g := None]
      ensures ok <==> old(lens[f]).Some?
      ensures ok ==> Slots(n, mem[..]) == old(Slots(n, mem[..]))[g := Buffers.Written(old(lens[f]).value, INT)]
    {
      ghost var was := Now();
      OnlyArraysNamed(n, kinds, g, f);
      var target := -1;
      for i := 0 to |n.fields|
        invariant target == if i <= f then -1 else f
      {
        if !n.fields[i].Let? && n.offs[i] == kinds[g].target {
          assert Names(n, kinds, g, i);
          target := i;
        }
      }
      if lens[target].None? { return false; }
      ghost var len := lens[f];
      IntSlot(n, kinds, g, lens[f].value);
      var bytes := Buffers.Written(lens[target].value, Hi(n, g) - Lo(n, g));
      Store(g, bytes, f);
      ghost var mid := Now();
      hide Shaped, Lo, Hi, Names, Held, Filled, OnlyBytes, IsArray, Part, Slots;
      PartKept(n, kinds, g, was, mid, f, g);
      assert !IsArray(n, kinds, g) by { LenOfIsNoArray(n, kinds, g, f); }
      MarkOther(n, kinds, g, mid, None, f);
      Mark(g, None);
      PartGrows(n, kinds, g, f, mid, None);
      ok := true;
    }

    /** hegel__fill_len_of: every LEN_OF naming field f. */
    method FillLenOf(f: nat) returns (ok: bool)
      requires Valid() && f < |n.fields| && drawn[f] && Filled(n, kinds, Now(), f)
      requires forall g :: 0 <= g < |n.fields| && Names(n, kinds, g, f) ==> !drawn[g]
      modifies mem, drawn, lens, `times
      ensures ok ==> Valid() && Filled(n, kinds, Now(), -1)
      ensures ok ==> forall i :: 0 <= i < drawn.Length ==> drawn[i] == (old(drawn[i]) || Names(n, kinds, i, f))
      ensures ok <==> forall g :: 0 <= g < |n.fields| && Names(n, kinds, g, f) ==> old(lens[f]).Some?
      ensures ok ==> LengthsIn(n, kinds, old(Slots(n, mem[..])), Slots(n, mem[..]), old(lens[f]), f, |n.fields|)
    {
      hide Shaped, Lo, Hi, Names, Held, Filled, Part, Slots;
      ShapedFacts(n, kinds);
      PartStart(n, kinds, Now(), f);
      ghost var slots := Slots(n, mem[..]);
      for g := 0 to |n.fields|
        invariant Valid() && drawn[f] && Filled(n, kinds, Now(), f) && Part(n, kinds, Now(), f, g)
        invariant lens[f] == old(lens[f]) && LengthsIn(n, kinds, slots, Slots(n, mem[..]), lens[f], f, g)
        invariant forall i :: 0 <= i < drawn.Length ==> drawn[i] == (old(drawn[i]) || (i < g && Names(n, kinds, i, f)))
      {
        if Names(n, kinds, g, f) && !drawn[g] {
          ghost var before := drawn[..];
          NotItself(n, kinds, g, f);
          ok := DrawLenOf(g, f);
          if !ok { return; }
          assert forall i :: 0 <= i < drawn.Length ==> drawn[i] == drawn[..][i];
        } else {
          PartSkip(n, kinds, Now(), f, g);
        }
      }
      PartFills(n, kinds, Now(), f);
      ok := true;
    }

    /** hegel__draw_struct_fields; false: a callback read too early, or a LEN_OF named no array. */
    method DrawStructFields(script: seq<Effect>) returns (ok: bool)
      requires Valid() && log == [] && Filled(n, kinds, Now(), -1) && forall i :: 0 <= i < drawn.Length ==> !drawn[i]
      requires |script| == |n.fields| && forall f :: 0 <= f < |n.fields| ==> Proper(script[f], f)
      modifies mem, drawn, lens, `log, `times
      ensures ok ==> Valid() && Filled(n, kinds, Now(), -1)
      ensures ok ==> forall i :: 0 <= i < drawn.Length ==> drawn[i] && times[i] == 1
      ensures ok ==> forall r <- log :: r.off + |r.bytes| <= mem.Length && mem[r.off..r.off + |r.bytes|] == r.bytes
      ensures ok ==> AsScripted(n, kinds, script, old(Slots(n, mem[..])), Slots(n, mem[..]))
      ensures ok <==> forall f :: 0 <= f < |n.fields| ==> Clear(n, kinds, script, f)
    {
      hide Valid, Shaped, Filled, FirstPass, Slots, Clear, FirstBytes, AsScripted, Proper, AllBut;
      Sizes();
      FirstStart(n, kinds, drawn[..]);
      ghost var slots := Slots(n, mem[..]);
      BytesStart(n, kinds, script, slots);
      for f := 0 to |n.fields|
        invariant Valid() && Filled(n, kinds, Now(), -1) && FirstPass(n, kinds, drawn[..], f)
        invariant FirstBytes(n, kinds, script, slots, Slots(n, mem[..]), f)
        invariant forall i :: 0 <= i < f && !kinds[i].Computed? ==> Clear(n, kinds, script, i)
      {
        ok := FirstEntry(f, script, slots);
        if !ok { return; }
        Sizes();
      }
      ok := SecondPass(script, slots);
      if ok {
        Sizes();
        AllDrawn(kinds, drawn[..]);
        assert forall i :: 0 <= i < drawn.Length ==> drawn[..][i];
        ReadsHold();
      }
    }

    lemma Sizes()
      requires Valid()
      ensures Shaped(n, kinds) && Sized(n, Now()) && |kinds| == |n.fields| == |n.offs| == |n.lens|
      ensures mem.Length == n.size && drawn.Length == lens.Length == |times| == |n.fields|
      ensures forall i :: 0 <= i < |times| ==> times[i] == if drawn[i] then 1 else 0
    {
      ShapedFacts(n, kinds);
    }

    /** An entry of the first pass. */
    method FirstEntry(f: nat, script: seq<Effect>, ghost slots: seq<seq<byte>>) returns (ok: bool)
      requires Valid() && Filled(n, kinds, Now(), -1) && f < |n.fields| == |script| && FirstPass(n, kinds, drawn[..], f)
      requires Proper(script[f], f) && FirstBytes(n, kinds, script, slots, Slots(n, mem[..]), f)
      modifies mem, drawn, lens, `log, `times
      ensures ok ==> Valid() && Filled(n, kinds, Now(), -1) && FirstPass(n, kinds, drawn[..], f + 1)
      ensures ok ==> FirstBytes(n, kinds, script, slots, Slots(n, mem[..]), f + 1)
      ensures if kinds[f].Computed? then ok else ok == Clear(n, kinds, script, f)
    {
      ShapedFacts(n, kinds);
      hide Shaped, Lo, Hi, Names, Held, Filled, FirstPass, IsArray, Proper, Slots, Clear, FirstBytes, LengthsIn, AllSeen, LastPut;
      ghost var before, sofar := drawn[..], Slots(n, mem[..]);
      FirstStep(n, kinds, before, f);
      ClearFirst(n, kinds, script, before, f);
      ok := true;
      if kinds[f].Binding? {
        MarkOther(n, kinds, f, Now(), None, -1);
        Mark(f, None);
      } else if kinds[f].Plain? {
        ok := DrawOne(f, script[f]);
        if !ok { return; }
        ghost var mid := drawn[..];
        ok := FillLenOf(f);
        if !ok { return; }
        FirstFilled(n, kinds, before, mid, drawn[..], f);
      }
      BytesStep(n, kinds, script, slots, sofar, Slots(n, mem[..]), f);
    }

    /** The other computed fields. */
    method SecondPass(script: seq<Effect>, ghost slots: seq<seq<byte>>) returns (ok: bool)
      requires Valid() && Filled(n, kinds, Now(), -1) && FirstPass(n, kinds, drawn[..], |n.fields|)
      requires |script| == |n.fields| && forall f :: 0 <= f < |n.fields| ==> Proper(script[f], f)
      requires FirstBytes(n, kinds, script, slots, Slots(n, mem[..]), |n.fields|)
      requires forall i :: 0 <= i < |n.fields| && !kinds[i].Computed? ==> Clear(n, kinds, script, i)
      modifies mem, drawn, lens, `log, `times
      ensures ok ==> Valid() && Filled(n, kinds, Now(), -1) && AllBut(kinds, drawn[..], |n.fields|)
      ensures ok ==> AsScripted(n, kinds, script, slots, Slots(n, mem[..]))
      ensures ok <==> forall f :: 0 <= f < |n.fields| ==> Clear(n, kinds, script, f)
    {
      hide Valid, Shaped, Filled, FirstPass, Slots, Clear, FirstBytes, AsScripted, SecondBytes, AllBut, Proper;
      Sizes();
      SecondStart(n, kinds, drawn[..]);
      ghost var first := Slots(n, mem[..]);
      SecondBytesStart(kinds, script, first);
      for f := 0 to |n.fields|
        invariant Valid() && Filled(n, kinds, Now(), -1) && AllBut(kinds, drawn[..], f)
        invariant forall i :: 0 <= i < f ==> Clear(n, kinds, script, i)
        invariant SecondBytes(kinds, script, first, Slots(n, mem[..]), f)
      {
        ok := SecondEntry(f, script, first);
        if !ok { return; }
        Sizes();
      }
      ok := true;
      BytesEnd(n, kinds, script, slots, first, Slots(n, mem[..]));
    }

    /** An entry of the second pass. */
    method SecondEntry(f: nat, script: seq<Effect>, ghost first: seq<seq<byte>>) returns (ok: bool)
      requires Valid() && Filled(n, kinds, Now(), -1) && f < |n.fields| == |script| && AllBut(kinds, drawn[..], f)
      requires Proper(script[f], f) && SecondBytes(kinds, script, first, Slots(n, mem[..]), f)
      modifies mem, drawn, lens, `log, `times
      ensures ok ==> Valid() && Filled(n, kinds, Now(), -1) && AllBut(kinds, drawn[..], f + 1)
      ensures ok ==> SecondBytes(kinds, script, first, Slots(n, mem[..]), f + 1)
      ensures if kinds[f].Computed? then ok == Clear(n, kinds, script, f) else ok
    {
      hide Valid, Shaped, Filled, Proper, Slots, Clear, SecondBytes, AllSeen, LastPut;
      Sizes();
      SecondBytesStep(kinds, script, first, Slots(n, mem[..]), f);
      ok := true;
      if kinds[f].Computed? {
        ClearSecond(n, kinds, script, drawn[..], f);
        assert !drawn[..][f];
        ok := DrawOne(f, script[f]);
        if ok { NothingToFill(n, kinds, Now(), f); }
      }
    }

    /** What was read is what the struct holds. */
    lemma ReadsHold()
      requires Valid()
      ensures forall r <- log :: r.off + |r.bytes| <= mem.Length && mem[r.off..r.off + |r.bytes|] == r.bytes
    {
      ShapedFacts(n, kinds);
      hide Shaped, Held;
      forall r | r in log ensures r.off + |r.bytes| <= mem.Length && mem[r.off..r.off + |r.bytes|] == r.bytes {
        HeldReads(n, Now(), r);
        assert Now().mem[r.off..r.off + |r.bytes|] == mem[r.off..r.off + |r.bytes|];
      }
    }
  }

  /** Drawn after the first f entries of the first pass: those in their place, the bindings, and
      the lengths of the arrays among them. */
  predicate FirstPass(n: Node, kinds: seq<Kind>, drawn: seq<bool>, f: nat)
    requires n.Struct? && |kinds| == |drawn| == |n.fields| && f <= |n.fields|
  {
    forall i :: 0 <= i < |drawn| ==>
      (drawn[i] <==> (i < f && (kinds[i].Plain? || kinds[i].Binding?)) || exists e :: 0 <= e < f && Names(n, kinds, i, e))
  }

  /** What is drawn when field f is. */
  function DrawnBefore(n: Node, kinds: seq<Kind>, f: nat): (d: seq<bool>)
    requires n.Struct? && |kinds| == |n.fields| && f < |n.fields|
    ensures |d| == |n.fields|
  {
    seq(|n.fields|, i requires 0 <= i < |n.fields| =>
      if kinds[f].Computed? then i < f || !kinds[i].Computed?
      else (i < f && (kinds[i].Plain? || kinds[i].Binding?)) || exists e :: 0 <= e < f && Names(n, kinds, i, e))
  }

  /** Drawing field f does not abort: its callbacks read what is drawn, and it has a length if
      one is asked for. */
  predicate Clear(n: Node, kinds: seq<Kind>, script: seq<Effect>, f: nat)
    requires n.Struct? && |kinds| == |script| == |n.fields| == |n.offs| == |n.lens| && f < |n.fields|
  {
    && (kinds[f].Plain? || kinds[f].Computed? ==> AllSeen(n, DrawnBefore(n, kinds, f), script[f].acts))
    && (kinds[f].Plain? ==> forall g :: 0 <= g < |n.fields| && Names(n, kinds, g, f) ==> script[f].len.Some?)
  }

  lemma ClearFirst(n: Node, kinds: seq<Kind>, script: seq<Effect>, drawn: seq<bool>, f: nat)
    requires Shaped(n, kinds) && |script| == |drawn| == |n.fields| && f < |n.fields| && FirstPass(n, kinds, drawn, f)
    ensures kinds[f].Plain? ==>
      (Clear(n, kinds, script, f) <==>
        (AllSeen(n, drawn, script[f].acts) &&
         forall g :: 0 <= g < |n.fields| && Names(n, kinds, g, f) ==> script[f].len.Some?))
    ensures kinds[f].Binding? || kinds[f].LenOf? ==> Clear(n, kinds, script, f)
  {
    ShapedFacts(n, kinds);
    hide Shaped, Names;
    if kinds[f].Plain? { assert drawn == DrawnBefore(n, kinds, f); }
  }

  lemma ClearSecond(n: Node, kinds: seq<Kind>, script: seq<Effect>, drawn: seq<bool>, f: nat)
    requires Shaped(n, kinds) && |script| == |drawn| == |n.fields| && f < |n.fields| && AllBut(kinds, drawn, f)
    requires kinds[f].Computed?
    ensures Clear(n, kinds, script, f) <==> AllSeen(n, drawn, script[f].acts)
  {
    ShapedFacts(n, kinds);
    hide Shaped, Names;
    assert drawn == DrawnBefore(n, kinds, f);
  }

  /** Every field holds what was put there last, every LEN_OF the length of its array, and the
      other slots what they held. */
  predicate AsScripted(n: Node, kinds: seq<Kind>, script: seq<Effect>, was: seq<seq<byte>>, now: seq<seq<byte>>)
    requires |kinds| == |script| == |was| == |now|
  {
    && (forall f :: 0 <= f < |now| && (kinds[f].Plain? || kinds[f].Computed?) ==> now[f] == LastPut(script[f].acts, was[f]))
    && (forall f :: 0 <= f < |now| && kinds[f].Binding? ==> now[f] == was[f])
    && (forall g, f :: 0 <= g < |now| && 0 <= f < |now| && Names(n, kinds, g, f) ==>
          script[f].len.Some? && now[g] == Buffers.Written(script[f].len.value, INT))
  }

  /** ... of the first f entries; the computed fields and what comes after are as they were. */
  predicate FirstBytes(n: Node, kinds: seq<Kind>, script: seq<Effect>, was: seq<seq<byte>>, now: seq<seq<byte>>, f: nat)
    requires |kinds| == |script| && f <= |kinds|
  {
    && |kinds| == |was| == |now|
    && (forall i :: 0 <= i < |now| && !kinds[i].LenOf? ==>
          now[i] == if i < f && kinds[i].Plain? then LastPut(script[i].acts, was[i]) else was[i])
    && (forall g, e :: 0 <= g < |now| && 0 <= e < f && Names(n, kinds, g, e) ==>
          script[e].len.Some? && now[g] == Buffers.Written(script[e].len.value, INT))
  }

  lemma BytesStart(n: Node, kinds: seq<Kind>, script: seq<Effect>, was: seq<seq<byte>>)
    requires |kinds| == |script| == |was|
    ensures FirstBytes(n, kinds, script, was, was, 0)
  {
  }

  /** One entry of the first pass. */
  lemma BytesStep(n: Node, kinds: seq<Kind>, script: seq<Effect>, was: seq<seq<byte>>, sofar: seq<seq<byte>>,
                  now: seq<seq<byte>>, f: nat)
    requires Shaped(n, kinds) && |script| == |n.fields| && f < |n.fields| && FirstBytes(n, kinds, script, was, sofar, f)
    requires if kinds[f].Plain? then
               LengthsIn(n, kinds, sofar[f := LastPut(script[f].acts, sofar[f])], now, script[f].len, f, |n.fields|)
             else now == sofar
    ensures FirstBytes(n, kinds, script, was, now, f + 1)
  {
    NamesFacts(n, kinds);
    NamedByOne(n, kinds, f);
    if !IsArray(n, kinds, f) { NobodyNames(n, kinds, f); }
    hide Shaped, Names, LastPut;
  }

  /** Of the computed fields, the first f. */
  predicate SecondBytes(kinds: seq<Kind>, script: seq<Effect>, was: seq<seq<byte>>, now: seq<seq<byte>>, f: nat)
    requires |kinds| == |script|
  {
    |kinds| == |was| == |now| && forall i :: 0 <= i < |now| ==>
      now[i] == if i < f && kinds[i].Computed? then LastPut(script[i].acts, was[i]) else was[i]
  }

  lemma SecondBytesStart(kinds: seq<Kind>, script: seq<Effect>, was: seq<seq<byte>>)
    requires |kinds| == |script| == |was|
    ensures SecondBytes(kinds, script, was, was, 0)
  {
  }

  lemma SecondBytesStep(kinds: seq<Kind>, script: seq<Effect>, was: seq<seq<byte>>, now: seq<seq<byte>>, f: nat)
    requires |kinds| == |script| && f < |kinds| && SecondBytes(kinds, script, was, now, f)
    ensures if kinds[f].Computed? then SecondBytes(kinds, script, was, now[f := LastPut(script[f].acts, now[f])], f + 1)
            else SecondBytes(kinds, script, was, now, f + 1)
  {
    hide LastPut;
  }

  lemma BytesEnd(n: Node, kinds: seq<Kind>, script: seq<Effect>, was: seq<seq<byte>>, first: seq<seq<byte>>, now: seq<seq<byte>>)
    requires n.Struct? && |script| == |kinds| == |n.fields|
    requires FirstBytes(n, kinds, script, was, first, |n.fields|) && SecondBytes(kinds, script, first, now, |n.fields|)
    ensures AsScripted(n, kinds, script, was, now)
  {
    NamesFacts(n, kinds);
    hide Names, LastPut;
  }

  lemma FirstStart(n: Node, kinds: seq<Kind>, drawn: seq<bool>)
    requires n.Struct? && |kinds| == |drawn| == |n.fields| && forall i :: 0 <= i < |drawn| ==> !drawn[i]
    ensures FirstPass(n, kinds, drawn, 0)
  {
  }

  lemma FirstStep(n: Node, kinds: seq<Kind>, drawn: seq<bool>, f: nat)
    requires Shaped(n, kinds) && |drawn| == |n.fields| && f < |n.fields| && FirstPass(n, kinds, drawn, f)
    ensures kinds[f].Binding? ==> !drawn[f] && !IsArray(n, kinds, f) && FirstPass(n, kinds, drawn[f := true], f + 1)
    ensures kinds[f].Plain? ==> !drawn[f] && forall g :: 0 <= g < |n.fields| && Names(n, kinds, g, f) ==> !drawn[g] && g != f
    ensures kinds[f].LenOf? || kinds[f].Computed? ==> FirstPass(n, kinds, drawn, f + 1)
  {
    NamesFacts(n, kinds);
    if !IsArray(n, kinds, f) { NobodyNames(n, kinds, f); }
    NamedByOne(n, kinds, f);
    hide Shaped, Names, IsArray;
  }

  lemma FirstFilled(n: Node, kinds: seq<Kind>, before: seq<bool>, mid: seq<bool>, now: seq<bool>, f: nat)
    requires Shaped(n, kinds) && |before| == |mid| == |now| == |n.fields| && f < |n.fields| &&
        FirstPass(n, kinds, before, f)
    requires kinds[f].Plain? && mid == before[f := true]
    requires forall i :: 0 <= i < |now| ==> now[i] == (mid[i] || Names(n, kinds, i, f))
    ensures FirstPass(n, kinds, now, f + 1)
  {
    ShapedFacts(n, kinds);
    hide Shaped, Names;
  }

  /** Everything is drawn but the computed fields from f on. */
  predicate AllBut(kinds: seq<Kind>, drawn: seq<bool>, f: nat)
    requires |kinds| == |drawn|
  {
    forall i :: 0 <= i < |drawn| ==> (drawn[i] <==> i < f || !kinds[i].Computed?)
  }

  lemma AllDrawn(kinds: seq<Kind>, drawn: seq<bool>)
    requires |kinds| == |drawn| && AllBut(kinds, drawn, |drawn|)
    ensures forall i :: 0 <= i < |drawn| ==> drawn[i]
  {
  }

  lemma SecondStart(n: Node, kinds: seq<Kind>, drawn: seq<bool>)
    requires Shaped(n, kinds) && |drawn| == |n.fields| && FirstPass(n, kinds, drawn, |n.fields|)
    ensures AllBut(kinds, drawn, 0)
  {
    LengthsAllDrawn(n, kinds);
    NamesFacts(n, kinds);
    hide Shaped, Names;
  }

  lemma NamesFacts(n: Node, kinds: seq<Kind>)
    ensures forall i: nat, e: nat :: Names(n, kinds, i, e) ==> n.Struct? && e < |n.fields| && i < |kinds| && kinds[i].LenOf?
  {
  }

  lemma NobodyNames(n: Node, kinds: seq<Kind>, f: nat)
    requires Shaped(n, kinds) && f < |n.fields| && !IsArray(n, kinds, f)
    ensures forall g :: !Names(n, kinds, g, f)
  {
    forall g ensures !Names(n, kinds, g, f) { if Names(n, kinds, g, f) { OnlyArraysNamed(n, kinds, g, f); } }
  }

  lemma NamedByOne(n: Node, kinds: seq<Kind>, f: nat)
    requires Shaped(n, kinds) && f < |n.fields|
    ensures forall g, e :: Names(n, kinds, g, f) && Names(n, kinds, g, e) ==> e == f
  {
    forall g, e | Names(n, kinds, g, f) && Names(n, kinds, g, e) ensures e == f { OnlyArraysNamed(n, kinds, g, f); }
  }

  /** Every LEN_OF names some field. */
  lemma LengthsAllDrawn(n: Node, kinds: seq<Kind>)
    requires Shaped(n, kinds)
    ensures forall g :: 0 <= g < |kinds| && kinds[g].LenOf? ==> exists e :: 0 <= e < |n.fields| && Names(n, kinds, g, e)
  {
    forall g | 0 <= g < |kinds| && kinds[g].LenOf? ensures exists e :: 0 <= e < |n.fields| && Names(n, kinds, g, e) {
      var j :| 0 <= j < |kinds| && IsArray(n, kinds, j) && n.offs[j] == kinds[g].target;
      assert Names(n, kinds, g, j);
    }
  }

  lemma NothingToFill(n: Node, kinds: seq<Kind>, s: Snap, f: nat)
    requires Shaped(n, kinds) && Sized(n, s) && f < |n.fields| && Filled(n, kinds, s, f) && kinds[f].Computed?
    ensures Filled(n, kinds, s, -1)
  {
    NobodyNames(n, kinds, f);
  }

  lemma HeldReads(n: Node, s: Snap, r: Read)
    requires Sized(n, s) && |n.offs| == |n.fields| && Held(n, s, r)
    ensures r.off + |r.bytes| <= |s.mem| && s.mem[r.off..r.off + |r.bytes|] == r.bytes
  {
  }

  lemma PartStart(n: Node, kinds: seq<Kind>, s: Snap, f: nat)
    requires Sized(n, s) && |n.offs| == |n.fields| && f < |n.fields|
    ensures Part(n, kinds, s, f, 0)
  {
  }

  lemma PartSkip(n: Node, kinds: seq<Kind>, s: Snap, f: nat, g: nat)
    requires Sized(n, s) && |n.offs| == |n.fields| && f < |n.fields| && g < |n.fields|
    requires Part(n, kinds, s, f, g) && !Names(n, kinds, g, f)
    ensures Part(n, kinds, s, f, g + 1)
  {
  }

  lemma PartFills(n: Node, kinds: seq<Kind>, s: Snap, f: nat)
    requires Sized(n, s) && |n.offs| == |n.fields| && f < |n.fields|
    requires Part(n, kinds, s, f, |n.fields|) && Filled(n, kinds, s, f)
    ensures Filled(n, kinds, s, -1)
  {
  }

  /** The length of field f is in place in g, and g is now drawn. */
  lemma PartGrows(n: Node, kinds: seq<Kind>, g: nat, f: nat, s: Snap, len: Option<Count>)
    requires Shaped(n, kinds) && Sized(n, s) && g < |n.fields| && f < |n.fields| && g != f && Part(n, kinds, s, f, g)
    requires s.lens[f].Some? && Lo(n, g) + INT == Hi(n, g) <= |s.mem|
    requires FromLE(s.mem[Lo(n, g)..Hi(n, g)]) == s.lens[f].value
    ensures Part(n, kinds, s.(drawn := s.drawn[g := true], lens := s.lens[g := len]), f, g + 1)
  {
    ShapedFacts(n, kinds);
    hide Shaped, Lo, Hi, Names;
    var now := s.(drawn := s.drawn[g := true], lens := s.lens[g := len]);
    forall h | 0 <= h < g + 1 && Names(n, kinds, h, f) ensures LengthAt(n, now, h, f) {
      if h < g { assert LengthAt(n, s, h, f); }
    }
  }

  /** The slot of a LEN_OF is an int, and an int holds every length. */
  lemma IntSlot(n: Node, kinds: seq<Kind>, g: nat, len: Count)
    requires Shaped(n, kinds) && g < |n.fields| && kinds[g].LenOf?
    ensures Hi(n, g) == Lo(n, g) + INT && FromLE(Buffers.Written(len, INT)) == len
  {
    Widths();
    Buffers.Widths();
    Buffers.WrittenBack(len, Buffers.Elem(4, true, 0, 0));
    hide Buffers.Written, FromLE, Pow256, Pow2;
  }

  lemma NotItself(n: Node, kinds: seq<Kind>, g: nat, f: nat)
    requires Shaped(n, kinds) && Names(n, kinds, g, f)
    ensures g != f
  {
    LenOfIsNoArray(n, kinds, g, f);
  }

  lemma LenOfIsNoArray(n: Node, kinds: seq<Kind>, g: nat, f: nat)
    requires Shaped(n, kinds) && Names(n, kinds, g, f)
    ensures !IsArray(n, kinds, g) && g != f
  {
    OnlyArraysNamed(n, kinds, g, f);
  }
}
