/**
  hegel_shape_get_offset: from offsetof(T, field) to the shape of what was drawn there, through
  inline sub-structs.
 */
module ShapeLookup {
  import opened Options
  import opened Layout

  /** The shape of a drawn struct: a Leaf per non-struct field, Absent where none was made. */
  datatype Shape = Leaf(id: nat) | Absent | Record(fields: seq<Shape>, offs: seq<nat>)

  /** sh is a shape a draw of n gives.  A pointer slot may have none: HEGEL_SELF or a one-of of
      structs placed directly in a struct is never drawn. */
  predicate Drawn(n: Node, sh: Shape)
    decreases n
  {
    && n.Struct? && sh.Record? && |sh.fields| == |sh.offs| == |n.fields| && sh.offs == n.offs
    && forall i :: 0 <= i < |n.fields| ==>
         match n.fields[i]
         case Let => sh.fields[i].Absent?
         case Struct(_, _, _, _, _) => Drawn(n.fields[i], sh.fields[i])
         case Pointer => !sh.fields[i].Record?
         case _ => sh.fields[i].Leaf?
  }

  /** Every positional field has a shape, at every level. */
  predicate Full(n: Node, sh: Shape)
    requires Drawn(n, sh)
    decreases n
  {
    forall i :: 0 <= i < |n.fields| ==>
      (n.fields[i].Pointer? ==> sh.fields[i].Leaf?) && (n.fields[i].Struct? ==> Full(n.fields[i], sh.fields[i]))
  }

  /** An inline struct starts at x. */
  predicate StructAt(sh: Shape, x: nat)
    decreases sh, 1
  {
    sh.Record? && |sh.fields| == |sh.offs| && exists i :: 0 <= i < |sh.fields| && StructVia(sh, x, i)
  }

  /** ... it is field i, or inside field i. */
  predicate StructVia(sh: Shape, x: nat, i: nat)
    requires sh.Record? && i < |sh.fields| == |sh.offs|
    decreases sh, 0
  {
    sh.fields[i].Record? && (sh.offs[i] == x || (x > sh.offs[i] && StructAt(sh.fields[i], x - sh.offs[i])))
  }

  /** p leads through inline structs to a leaf whose offsets add up to x. */
  predicate Path(sh: Shape, x: nat, p: seq<nat>)
    decreases |p|
  {
    sh.Record? && p != [] && p[0] < |sh.fields| == |sh.offs| &&
    var child, off := sh.fields[p[0]], sh.offs[p[0]];
    if |p| == 1 then child.Leaf? && off == x else child.Record? && off <= x && Path(child, x - off, p[1..])
  }

  function Follow(sh: Shape, p: seq<nat>): Shape
    decreases |p|
  {
    if p == [] then sh else if sh.Record? && p[0] < |sh.fields| then Follow(sh.fields[p[0]], p[1..]) else Absent
  }

  /* ---- Fields do not overlap ---- */

  predicate Positional(n: Node) { !n.Let? }

  lemma {:induction false} Ordered(fs: seq<Node>, i: nat, j: nat)
    requires forall f <- fs :: Built(f)
    requires i < j <= |fs| && Positional(fs[i]) && (j < |fs| ==> Positional(fs[j]))
    ensures var l := Lay(fs, false);
      l.offs[i] + Size(fs[i]) <= if j < |fs| then l.offs[j] else l.end
    decreases |fs|, j
  {
    hide Up, Built, Size;
    var k := |fs| - 1;
    PositionalSize(fs, i);
    if j < |fs| { PositionalSize(fs, j); }
    if j == |fs| {
      if i < k { EndGrows(fs); Ordered(fs[..k], i, k); }
    } else if j == k {
      Ordered(fs[..k], i, k);
    } else {
      Ordered(fs[..k], i, j);
    }
  }

  lemma PositionalSize(fs: seq<Node>, i: nat)
    requires (forall f <- fs :: Built(f)) && i < |fs| && Positional(fs[i])
    ensures Size(fs[i]) > 0
  {
    assert fs[i] in fs;
    BuiltPositive(fs[i]);
  }

  lemma EndGrows(fs: seq<Node>)
    requires fs != []
    ensures Lay(fs[..|fs|-1], false).end <= Lay(fs, false).end
  {
  }

  /** The first positional field is at offset 0. */
  lemma {:induction false} FirstAtZero(fs: seq<Node>) returns (i: nat)
    requires (forall f <- fs :: Built(f)) && Lay(fs, false).end > 0
    ensures i < |fs| && Positional(fs[i]) && Lay(fs, false).offs[i] == 0
    decreases |fs|
  {
    hide Up, Built;
    var k := |fs| - 1;
    var p := Lay(fs[..k], false);
    if p.end > 0 {
      i := FirstAtZero(fs[..k]);
    } else {
      i := k;
      AlignedZero(Lg(fs[k]));
      UpAligned(0, Lg(fs[k]));
      assert Positional(fs[k]);
    }
  }

  lemma Placed(n: Node, i: nat)
    requires n.Struct? && Built(n) && i < |n.fields| && Positional(n.fields[i])
    ensures n.offs[i] + Size(n.fields[i]) <= n.size
    ensures n.fields[i].Struct? ==> Size(n.fields[i]) == n.fields[i].size && Built(n.fields[i])
    ensures Size(n.fields[i]) > 0
  {
    Ordered(n.fields, i, |n.fields|);
    PositionalSize(n.fields, i);
  }

  lemma Between(n: Node, i: nat, j: nat)
    requires n.Struct? && Built(n) && i < j < |n.fields| && Positional(n.fields[i]) && Positional(n.fields[j])
    ensures n.offs[i] + Size(n.fields[i]) <= n.offs[j]
  {
    Ordered(n.fields, i, j);
  }

  /** A leaf lies inside its struct. */
  lemma {:induction false} PathInside(n: Node, sh: Shape, x: nat, p: seq<nat>)
    requires Built(n) && Drawn(n, sh) && Path(sh, x, p)
    ensures Positional(n.fields[p[0]]) && n.offs[p[0]] <= x < n.offs[p[0]] + Size(n.fields[p[0]]) && x < n.size
    decreases |p|
  {
    hide Built, Lay, Size;
    var i := p[0];
    assert Positional(n.fields[i]);
    Placed(n, i);
    if |p| > 1 {
      assert n.fields[i].Struct?;
      PathInside(n.fields[i], sh.fields[i], x - sh.offs[i], p[1..]);
    }
  }

  /** At most one leaf has the offset x. */
  lemma {:induction false} UniquePath(n: Node, sh: Shape, x: nat, p: seq<nat>, q: seq<nat>)
    requires Built(n) && Drawn(n, sh) && Path(sh, x, p) && Path(sh, x, q)
    ensures p == q
    decreases |p|
  {
    hide Built, Lay, Size;
    PathInside(n, sh, x, p);
    PathInside(n, sh, x, q);
    var i, j := p[0], q[0];
    if i < j { Between(n, i, j); } else if j < i { Between(n, j, i); }
    assert i == j;
    assert p == [i] + p[1..] && q == [i] + q[1..];
    if |p| > 1 {
      Placed(n, i);
      UniquePath(n.fields[i], sh.fields[i], x - sh.offs[i], p[1..], q[1..]);
    }
  }

  /** Offset 0 of a struct of positive size is a leaf, if every field has a shape. */
  lemma {:induction false} LeafAtZero(n: Node, sh: Shape) returns (p: seq<nat>)
    requires Built(n) && Drawn(n, sh) && Full(n, sh)
    ensures Path(sh, 0, p)
    decreases n
  {
    hide Up;
    if Lay(n.fields, false).end == 0 {
      AlignedZero(n.lg);
      AlignedZero(Lay(n.fields, false).lg);
      UpAligned(0, Lay(n.fields, false).lg);
      assert false;
    }
    var i := FirstAtZero(n.fields);
    if n.fields[i].Struct? {
      assert n.fields[i] in n.fields;
      var q := LeafAtZero(n.fields[i], sh.fields[i]);
      p := [i] + q;
      assert p[1..] == q;
    } else {
      p := [i];
    }
  }

  /* ---- The lookup ---- */

  /** The first field at x, or how many there are. */
  function FirstAt(offs: seq<nat>, x: nat, i: nat): (r: nat)
    requires i <= |offs|
    ensures i <= r <= |offs| && (r < |offs| ==> offs[r] == x) && forall j :: i <= j < r ==> offs[j] != x
    decreases |offs| - i
  {
    if i == |offs| || offs[i] == x then i else FirstAt(offs, x, i + 1)
  }

  /** What hegel_shape_get_offset gives for any shape tree; None is NULL. */
  function Lookup(sh: Shape, x: nat): Option<Shape>
    decreases sh, 0
  {
    if !sh.Record? || |sh.fields| != |sh.offs| then None
    else
      var i := FirstAt(sh.offs, x, 0);
      if i == |sh.fields| then Inside(sh, x, 0)
      else
        var child := sh.fields[i];
        if child.Record? && Lookup(child, 0).Some? then Lookup(child, 0)
        else if child.Absent? then None else Some(child)
  }

  /** The second pass, from field i on. */
  function Inside(sh: Shape, x: nat, i: nat): Option<Shape>
    requires sh.Record? && |sh.fields| == |sh.offs| && i <= |sh.fields|
    decreases sh, 0, |sh.fields| - i
  {
    if i == |sh.fields| then None
    else if sh.fields[i].Record? && x > sh.offs[i] && Lookup(sh.fields[i], x - sh.offs[i]).Some? then
      Lookup(sh.fields[i], x - sh.offs[i])
    else Inside(sh, x, i + 1)
  }

  method GetOffset(sh: Shape, x: nat) returns (r: Option<Shape>)
    ensures r == Lookup(sh, x)
    decreases sh
  {
    if !sh.Record? || |sh.fields| != |sh.offs| { return None; }
    for i := 0 to |sh.fields|
      invariant FirstAt(sh.offs, x, 0) == FirstAt(sh.offs, x, i)
    {
      if sh.offs[i] == x {
        var child := sh.fields[i];
        if child.Record? {
          var deeper := GetOffset(child, 0);
          if deeper.Some? { return deeper; }
        }
        return if child.Absent? then None else Some(child);
      }
    }
    for i := 0 to |sh.fields|
      invariant Inside(sh, x, 0) == Inside(sh, x, i)
    {
      var child := sh.fields[i];
      if child.Record? && x > sh.offs[i] {
        var deeper := GetOffset(child, x - sh.offs[i]);
        if deeper.Some? { return deeper; }
      }
    }
    r := None;
  }

  lemma ChildDrawn(n: Node, sh: Shape, i: nat)
    requires Built(n) && Drawn(n, sh) && i < |sh.fields| && sh.fields[i].Record? && n.size <= SIZE_MAX
    ensures i < |n.fields| && n.fields[i].Struct? && Positional(n.fields[i])
    ensures Built(n.fields[i]) && Drawn(n.fields[i], sh.fields[i]) && n.fields[i].size <= SIZE_MAX && n.fields[i] < n
    ensures |sh.fields| == |sh.offs| == |n.fields|
  {
    assert n.fields[i].Struct?;
    Placed(n, i);
    hide Lay, Size;
  }

  /** What a lookup result says about x. */
  ghost predicate Right(sh: Shape, x: nat, r: Option<Shape>, p: seq<nat>) {
    match r
    case Some(Leaf(_)) => Path(sh, x, p) && r.value == Follow(sh, p)
    case Some(Record(_, _)) => StructAt(sh, x) && forall q :: !Path(sh, x, q)
    case Some(Absent) => false
    case None => !StructAt(sh, x) && forall q :: !Path(sh, x, q)
  }

  lemma {:induction false} LookupRight(n: Node, sh: Shape, x: nat) returns (p: seq<nat>)
    requires Built(n) && Drawn(n, sh) && n.size <= SIZE_MAX
    ensures Right(sh, x, Lookup(sh, x), p)
    decreases n, 1
  {
    hide Built, Lay, Size, Drawn;
    DrawnFacts(n, sh);
    var i := FirstAt(sh.offs, x, 0);
    if i == |sh.fields| {
      p := InsideRight(n, sh, x, 0);
    } else {
      p := ExactRight(n, sh, x, i);
    }
  }

  /** Nothing but field i reaches x, if x is one of its bytes. */
  lemma OnlyField(n: Node, sh: Shape, x: nat, i: nat)
    requires Built(n) && Drawn(n, sh) && i < |n.fields| && Positional(n.fields[i])
    requires n.offs[i] <= x < n.offs[i] + Size(n.fields[i])
    ensures forall q :: Path(sh, x, q) ==> q[0] == i
    ensures forall j :: 0 <= j < |sh.fields| && StructVia(sh, x, j) ==> j == i
  {
    hide Built, Lay, Size;
    forall q | Path(sh, x, q) ensures q[0] == i {
      PathInside(n, sh, x, q);
      if q[0] < i { Between(n, q[0], i); } else if q[0] > i { Between(n, i, q[0]); }
    }
    forall j | 0 <= j < |sh.fields| && StructVia(sh, x, j) ensures j == i {
      StructInside(n, sh, x, j);
      if j < i { Between(n, j, i); } else if j > i { Between(n, i, j); }
    }
  }

  lemma {:induction false} StructInside(n: Node, sh: Shape, x: nat, j: nat)
    requires Built(n) && Drawn(n, sh) && j < |sh.fields| && StructVia(sh, x, j)
    ensures Positional(n.fields[j]) && n.offs[j] <= x < n.offs[j] + Size(n.fields[j])
    ensures x < n.size
    decreases n
  {
    hide Lay, Up;
    assert n.fields[j].Struct?;
    Placed(n, j);
    assert n.fields[j] in n.fields;
    if sh.offs[j] != x {
      var i :| 0 <= i < |sh.fields[j].fields| && StructVia(sh.fields[j], x - sh.offs[j], i);
      StructInside(n.fields[j], sh.fields[j], x - sh.offs[j], i);
    }
  }

  /** The first pass found field i at x. */
  lemma {:induction false} ExactRight(n: Node, sh: Shape, x: nat, i: nat) returns (p: seq<nat>)
    requires Built(n) && Drawn(n, sh) && n.size <= SIZE_MAX
    requires sh.Record? && i < |sh.fields| == |sh.offs| && i == FirstAt(sh.offs, x, 0)
    ensures Right(sh, x, Lookup(sh, x), p)
    decreases n, 0
  {
    hide Built, Lay, Size, Drawn;
    DrawnFacts(n, sh);
    if sh.fields[i].Absent? && n.fields[i].Let? {
      NothingAtMax(n, sh, i);
      p := [];
      return;
    }
    PositionalIf(n, sh, i);
    Placed(n, i);
    OnlyField(n, sh, x, i);
    if sh.fields[i].Record? {
      ChildDrawn(n, sh, i);
      var q := LookupRight(n.fields[i], sh.fields[i], 0);
      p := StructFound(sh, x, i, q);
    } else {
      p := FieldFound(sh, x, i);
    }
  }

  lemma StructFound(sh: Shape, x: nat, i: nat, q: seq<nat>) returns (p: seq<nat>)
    requires sh.Record? && i < |sh.fields| == |sh.offs| && i == FirstAt(sh.offs, x, 0) && sh.fields[i].Record?
    requires forall q :: Path(sh, x, q) ==> q[0] == i
    requires Right(sh.fields[i], 0, Lookup(sh.fields[i], 0), q)
    ensures Right(sh, x, Lookup(sh, x), p)
  {
    p := [i] + q;
    assert StructVia(sh, x, i) && StructAt(sh, x);
    var r := Lookup(sh.fields[i], 0);
    if r.Some? && r.value.Leaf? {
      PathVia(sh, x, i, q);
    } else {
      NoPathVia(sh, x, i, sh.fields[i], 0);
    }
  }

  lemma FieldFound(sh: Shape, x: nat, i: nat) returns (p: seq<nat>)
    requires sh.Record? && i < |sh.fields| == |sh.offs| && i == FirstAt(sh.offs, x, 0) && !sh.fields[i].Record?
    requires forall q :: Path(sh, x, q) ==> q[0] == i
    requires forall j :: 0 <= j < |sh.fields| && StructVia(sh, x, j) ==> j == i
    ensures Right(sh, x, Lookup(sh, x), p)
  {
    p := [i];
    assert p[1..] == [];
    if StructAt(sh, x) {
      var j := StructWitness(sh, x);
      assert false;
    }
  }

  lemma PathVia(sh: Shape, x: nat, i: nat, q: seq<nat>)
    requires sh.Record? && i < |sh.fields| == |sh.offs| && sh.fields[i].Record? && sh.offs[i] <= x
    requires Path(sh.fields[i], x - sh.offs[i], q)
    ensures Path(sh, x, [i] + q) && Follow(sh, [i] + q) == Follow(sh.fields[i], q)
  {
    assert ([i] + q)[1..] == q;
  }

  lemma NoPathVia(sh: Shape, x: nat, i: nat, child: Shape, y: nat)
    requires sh.Record? && i < |sh.fields| == |sh.offs| && sh.fields[i].Record? && sh.offs[i] <= x
    requires forall q :: Path(sh, x, q) ==> q[0] == i
    requires child == sh.fields[i] && y == x - sh.offs[i] && forall q :: !Path(child, y, q)
    ensures forall q :: !Path(sh, x, q)
  {
    forall q ensures !Path(sh, x, q) {
      if Path(sh, x, q) { assert !Path(child, y, q[1..]); }
    }
  }

  lemma PositionalIf(n: Node, sh: Shape, i: nat)
    requires Drawn(n, sh) && i < |n.fields| && (sh.fields[i].Absent? ==> !n.fields[i].Let?)
    ensures Positional(n.fields[i])
  {
  }

  /** A LET has no place in the struct. */
  lemma NothingAtMax(n: Node, sh: Shape, i: nat)
    requires Built(n) && Drawn(n, sh) && n.size <= SIZE_MAX && i < |sh.fields| && n.fields[i].Let?
    ensures !StructAt(sh, sh.offs[i]) && forall q :: !Path(sh, sh.offs[i], q)
  {
    LetAtMax(n.fields, i);
    var x := sh.offs[i];
    assert x == SIZE_MAX;
    hide Built, Lay, Size;
    forall q ensures !Path(sh, x, q) {
      if Path(sh, x, q) { PathInside(n, sh, x, q); }
    }
    if StructAt(sh, x) {
      var j := StructWitness(sh, x);
      StructInside(n, sh, x, j);
    }
  }

  lemma StructWitness(sh: Shape, x: nat) returns (j: nat)
    requires StructAt(sh, x)
    ensures sh.Record? && j < |sh.fields| == |sh.offs| && StructVia(sh, x, j)
  {
    j :| 0 <= j < |sh.fields| && StructVia(sh, x, j);
  }

  lemma {:induction false} LetAtMax(fs: seq<Node>, i: nat)
    requires i < |fs| && fs[i].Let?
    ensures Lay(fs, false).offs[i] == SIZE_MAX
    decreases |fs|
  {
    hide Up;
    if i < |fs| - 1 { LetAtMax(fs[..|fs|-1], i); }
  }

  /** The second pass, when no field is at x and none before i reaches it. */
  lemma {:induction false} InsideRight(n: Node, sh: Shape, x: nat, i: nat) returns (p: seq<nat>)
    requires Built(n) && Drawn(n, sh) && n.size <= SIZE_MAX && sh.Record? && i <= |sh.fields| == |sh.offs|
    requires forall j :: 0 <= j < |sh.offs| ==> sh.offs[j] != x
    requires forall q :: Path(sh, x, q) ==> q[0] >= i
    requires forall j :: 0 <= j < i ==> !StructVia(sh, x, j)
    ensures Right(sh, x, Inside(sh, x, i), p)
    decreases n, 0, |sh.fields| - i
  {
    hide Built, Lay, Size, Drawn;
    if i == |sh.fields| {
      if StructAt(sh, x) {
        var j := StructWitness(sh, x);
        assert false;
      }
      p := [];
      return;
    }
    DrawnFacts(n, sh);
    var child := sh.fields[i];
    if child.Record? && x > sh.offs[i] {
      ChildDrawn(n, sh, i);
      var q := LookupRight(n.fields[i], child, x - sh.offs[i]);
      if Lookup(child, x - sh.offs[i]).Some? {
        p := [i] + q;
        if Lookup(child, x - sh.offs[i]).value.Record? {
          assert StructVia(sh, x, i) && StructAt(sh, x);
          StructInside(n, sh, x, i);
          OnlyField(n, sh, x, i);
          NoPathVia(sh, x, i, child, x - sh.offs[i]);
        } else {
          PathVia(sh, x, i, q);
        }
        return;
      }
    }
    p := InsideRight(n, sh, x, i + 1);
  }

  /**
    On every shape of a built struct in which every field has a shape, the lookup finds the one
    leaf whose summed inline offset is x, and None exactly when there is none and no inline
    struct starts there; it never gives an inline struct itself.
   */
  lemma GetOffsetFinds(n: Node, sh: Shape, x: nat) returns (p: seq<nat>)
    requires Built(n) && Drawn(n, sh) && Full(n, sh) && n.size <= SIZE_MAX
    ensures match Lookup(sh, x)
      case Some(l) => l.Leaf? && l == Follow(sh, p) && forall q :: Path(sh, x, q) <==> q == p
      case None => forall q :: !Path(sh, x, q)
  {
    p := LookupRight(n, sh, x);
    hide Built, Lay, Size, Drawn, Full;
    var r := Lookup(sh, x);
    if r.Some? && r.value.Record? {
      var q := LeafUnder(n, sh, x);
      assert Path(sh, x, q);
    } else if r.Some? {
      forall q | Path(sh, x, q) ensures q == p { UniquePath(n, sh, x, p, q); }
    }
  }

  /** Where an inline struct starts there is a leaf. */
  lemma {:induction false} LeafUnder(n: Node, sh: Shape, x: nat) returns (p: seq<nat>)
    requires Built(n) && Drawn(n, sh) && Full(n, sh) && StructAt(sh, x)
    ensures Path(sh, x, p)
    decreases n
  {
    hide Lay, Up;
    var i :| 0 <= i < |sh.fields| && StructVia(sh, x, i);
    assert n.fields[i].Struct? && n.fields[i] in n.fields;
    var q;
    if sh.offs[i] == x {
      q := LeafAtZero(n.fields[i], sh.fields[i]);
    } else {
      q := LeafUnder(n.fields[i], sh.fields[i], x - sh.offs[i]);
    }
    p := [i] + q;
    assert p[1..] == q;
  }

  /** The exact condition when some slots have no shape: an inline struct itself comes back if
      and only if one starts at x and no leaf does. */
  lemma WrapperIff(n: Node, sh: Shape, x: nat)
    requires Built(n) && Drawn(n, sh) && n.size <= SIZE_MAX
    ensures Lookup(sh, x).Some? && Lookup(sh, x).value.Record? <==> StructAt(sh, x) && forall q :: !Path(sh, x, q)
  {
    var p := LookupRight(n, sh, x);
    hide Built, Lay, Size, Drawn;
    if Lookup(sh, x).Some? && Lookup(sh, x).value.Leaf? { assert Path(sh, x, p); }
  }

  lemma DrawnFacts(n: Node, sh: Shape)
    requires Drawn(n, sh)
    ensures n.Struct? && sh.Record? && |sh.fields| == |sh.offs| == |n.fields| && sh.offs == n.offs
    ensures forall i :: 0 <= i < |n.fields| && sh.fields[i].Leaf? ==> Positional(n.fields[i])
  {
  }

  /** A struct that starts with an inline struct whose only slot has no shape (a one-of of structs
      placed directly in it): a lookup at 0 gives the inline struct itself. */
  lemma WrapperComesBack()
    ensures var n := Word(Word(Pointer)); var sh := Record([Record([Absent], [0])], [0]);
      Built(n) && Drawn(n, sh) && Lookup(sh, 0) == Some(Record([Absent], [0]))
  {
    hide Lay, Up, Aligned, Pow2;
    WordIsBuilt(Pointer);
    WordIsBuilt(Word(Pointer));
    var inner := Record([Absent], [0]);
    assert Lookup(inner, 0).None?;
  }
}
