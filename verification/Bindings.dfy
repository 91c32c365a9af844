/**
  LET and USE: named values that live in a scope per struct instance, looked up from the
  innermost scope outwards.
 */
module Bindings {
  import opened Options

  const MAX_BINDINGS: nat := 16

  /** Kinds of bound values (HEGEL__BKIND_*). */
  datatype Kind = KInt | KI64 | KU64 | KFloat | KDouble | KArr

  /** What gives an array its length: an int-width field drawn into a local. */
  datatype Len =
    | Const(n: int)
    | Draw(width: nat, lo: int, hi: int)
    | LenUse(id: int, kind: Kind)
    | LenAt(id: int)
    | LenPath(skip: nat, id: int, index: bool)

  /** Entries of a struct, as far as bindings go.  `Nested` is every way to draw one of several
      structs under this one (inline, optional, union, variant); `Array` is HEGEL_ARR_OF. */
  datatype Field =
    | Scalar(lo: int, hi: int)
    | Let(id: int, kind: Kind, lo: int, hi: int)
    | LetArr(id: int, len: Len, lo: int, hi: int)
    | Use(id: int, kind: Kind)
    | UseAt(id: int)
    | UsePath(skip: nat, id: int, index: bool)
    | Nested(cases: seq<Record>)
    | Array(len: Len, elem: Elem)

  /** The entries of one struct. */
  datatype Record = Record(fields: seq<Field>)

  datatype Elem = Ints(lo: int, hi: int) | Structs(fields: seq<Field>)

  /* ---- What a draw means: an environment of scopes ---- */

  /** A bound value: a scalar, or an array of ints. */
  datatype Bound = Bound(kind: Kind, value: int, arr: seq<int>)

  /** The scope of one struct instance, and the index of the array it is drawing (-1: none). */
  datatype Scope = Scope(names: map<int, Bound>, index: int)

  /** Innermost last. */
  type Env = seq<Scope>

  datatype Found = Found(bound: Bound, index: int)

  /** The nearest enclosing binding of id. */
  function Find(env: Env, id: int): Option<Found> {
    if env == [] then None
    else
      var s := env[|env|-1];
      if id in s.names then Some(Found(s.names[id], s.index)) else Find(env[..|env|-1], id)
  }

  /** Answers of the engine still to come, and the values written so far, in order. */
  datatype State = State(answers: seq<int>, written: seq<int>)

  /** Done, or the process aborted, or the engine stopped the case. */
  datatype Out<+T> = Done(value: T, st: State) | Abort | Stop

  function Clamp(v: int, lo: int, hi: int): int { if v < lo then lo else if v > hi then hi else v }

  /** A draw from [lo, hi]. */
  function Engine(st: State, lo: int, hi: int): Out<int> {
    if st.answers == [] then Stop else Done(Clamp(st.answers[0], lo, hi), st.(answers := st.answers[1..]))
  }

  const INT_MAX: int := 0x7FFF_FFFF
  const INT_MIN: int := -0x8000_0000

  /** Four bytes stored in an int and read back: an unsigned value above INT_MAX comes back negative. */
  function Cell(v: int): (r: int)
    ensures INT_MIN <= r <= INT_MAX && (r - v) % 0x1_0000_0000 == 0
  {
    var u := v % 0x1_0000_0000;
    if u > INT_MAX then u - 0x1_0000_0000 else u
  }

  /** The low `width` bytes stored in a zeroed int: a narrow negative value comes back positive. */
  function Narrow(width: nat, v: int): (r: int)
    ensures INT_MIN <= r <= INT_MAX
  {
    if width == 1 then v % 0x100 else if width == 2 then v % 0x1_0000 else Cell(v)
  }

  function NarrowMin(width: nat): int { if width == 1 || width == 2 then 0 else INT_MIN }

  function NarrowMax(width: nat): int { if width == 1 then 0xFF else if width == 2 then 0xFFFF else INT_MAX }

  /** What a binding of this kind keeps of a drawn value. */
  function Kept(kind: Kind, v: int): int { if kind == KInt then Cell(v) else v }

  function Write(st: State, v: int): State { st.(written := st.written + [v]) }

  /** HEGEL_USE. */
  function ReadUse(env: Env, id: int, kind: Kind): Option<int> {
    var f := Find(env, id);
    if f.None? || f.value.bound.kind != kind || kind == KArr then None else Some(f.value.bound.value)
  }

  /** HEGEL_USE_AT. */
  function ReadAt(env: Env, id: int): Option<int> {
    var f := Find(env, id);
    if f.None? || f.value.bound.kind != KArr || f.value.index < 0 || f.value.index >= |f.value.bound.arr| then None
    else Some(f.value.bound.arr[f.value.index])
  }

  /** HEGEL_USE_PATH: skip scopes outwards first. */
  function ReadPath(env: Env, skip: nat, id: int, index: bool): Option<int> {
    if skip >= |env| then None
    else if index then ReadAt(env[..|env| - skip], id)
    else ReadUse(env[..|env| - skip], id, KInt)
  }

  function Give(o: Option<int>, st: State): Out<int> { if o.None? then Abort else Done(o.value, st) }

  function EvalLen(len: Len, env: Env, st: State): Out<int> {
    match len
    case Const(n) => Done(n, st)
    case Draw(width, lo, hi) =>
      var v := Engine(st, lo, hi);
      if v.Done? then Done(Narrow(width, v.value), v.st) else Stop
    case LenUse(id, kind) => if kind != KInt then Abort else Give(ReadUse(env, id, kind), st)
    case LenAt(id) => Give(ReadAt(env, id), st)
    case LenPath(skip, id, index) => Give(ReadPath(env, skip, id, index), st)
  }

  /** n ints from the engine. */
  function EvalInts(n: nat, lo: int, hi: int, st: State): Out<seq<int>>
    decreases n
  {
    if n == 0 then Done([], st)
    else
      var v := EvalInts(n - 1, lo, hi, st);
      if !v.Done? then v
      else
        var w := Engine(v.st, lo, hi);
        if w.Done? then Done(v.value + [Cell(w.value)], w.st) else if w.Stop? then Stop else Abort
  }

  /** hegel__draw_ctx_bind: at most once a scope, and at most 16. */
  function BindIn(env: Env, id: int, b: Bound): Option<Env>
    requires env != []
  {
    var s := env[|env|-1];
    if id in s.names || |s.names| >= MAX_BINDINGS then None
    else Some(env[..|env|-1] + [s.(names := s.names[id := b])])
  }

  function Bind(env: Env, id: int, b: Bound, st: State): Out<Env>
    requires env != []
  {
    var e := BindIn(env, id, b);
    if e.None? then Abort else Done(e.value, st)
  }

  function WithIndex(env: Env, i: int): (r: Env)
    requires env != []
    ensures |r| == |env|
  {
    env[..|env|-1] + [env[|env|-1].(index := i)]
  }

  function EvalField(f: Field, env: Env, st: State): (r: Out<Env>)
    requires env != []
    ensures r.Done? ==> |r.value| == |env|
    decreases f, 2, 0
  {
    match f
    case Scalar(lo, hi) =>
      var v := Engine(st, lo, hi);
      if v.Done? then Done(env, Write(v.st, v.value)) else Stop
    case Let(id, kind, lo, hi) =>
      var v := Engine(st, lo, hi);
      if v.Done? then Bind(env, id, Bound(kind, Kept(kind, v.value), []), v.st) else Stop
    case LetArr(id, len, lo, hi) =>
      var n := EvalLen(len, env, st);
      if n.Abort? || (n.Done? && n.value < 0) then Abort
      else if n.Stop? then Stop
      else
        var vs := EvalInts(n.value, lo, hi, n.st);
        if vs.Done? then Bind(env, id, Bound(KArr, 0, vs.value), vs.st) else if vs.Stop? then Stop else Abort
    case Use(id, kind) => Wrote(ReadUse(env, id, kind), env, st)
    case UseAt(id) => Wrote(ReadAt(env, id), env, st)
    case UsePath(skip, id, index) => Wrote(ReadPath(env, skip, id, index), env, st)
    case Nested(cases) =>
      if cases == [] then Done(env, st)
      else
        var c := Engine(st, 0, |cases| - 1);
        if !c.Done? then Stop
        else
          assert 0 <= c.value < |cases|;
          EvalStruct(cases[c.value].fields, env, c.st)
    case Array(len, elem) =>
      var n := EvalLen(len, env, st);
      if n.Abort? || (n.Done? && n.value < 0) then Abort
      else if n.Stop? then Stop
      else
        var r := EvalElems(elem, n.value, env, n.st);
        if r.Done? then Done(env, r.value) else if r.Stop? then Stop else Abort
  }

  function Wrote(v: Option<int>, env: Env, st: State): Out<Env> {
    if v.None? then Abort else Done(env, Write(st, v.value))
  }

  /** Elements 0 .. k - 1, each with its index visible in this scope. */
  function EvalElems(elem: Elem, k: nat, env: Env, st: State): Out<State>
    requires env != []
    decreases elem, 1, k
  {
    if k == 0 then Done(st, st)
    else
      var r := EvalElems(elem, k - 1, env, st);
      if !r.Done? then r else EvalElem(elem, WithIndex(env, k - 1), r.value)
  }

  function EvalElem(elem: Elem, env: Env, st: State): Out<State>
    decreases elem, 1, 0
  {
    match elem
    case Ints(lo, hi) =>
      var v := Engine(st, lo, hi);
      if v.Done? then Done(Write(v.st, v.value), Write(v.st, v.value)) else Stop
    case Structs(fs) =>
      var e := EvalStruct(fs, env, st);
      if e.Done? then Done(e.st, e.st) else if e.Stop? then Stop else Abort
  }

  /** A struct under env: a scope of its own, gone when it is drawn. */
  function EvalStruct(fs: seq<Field>, env: Env, st: State): (r: Out<Env>)
    ensures r.Done? ==> r.value == env
    decreases fs, 1, 0
  {
    var r := EvalFields(fs, env + [Scope(map[], -1)], st);
    if r.Done? then Done(env, r.st) else r
  }

  function EvalFields(fs: seq<Field>, env: Env, st: State): (r: Out<Env>)
    requires env != []
    ensures r.Done? ==> |r.value| == |env|
    decreases fs, 0, |fs|
  {
    if fs == [] then Done(env, st)
    else
      var r := EvalFields(fs[..|fs|-1], env, st);
      if !r.Done? then r else EvalField(fs[|fs|-1], r.value, r.st)
  }

  /* ---- The static check ---- */

  /** What is known of a length: bounds, and for a named one the scope and name it comes from. */
  datatype SLen = Range(lo: int, hi: int) | Named(depth: nat, id: int, lo: int, hi: int)

  datatype Ty = TScalar(kind: Kind, lo: int, hi: int) | TArr(len: SLen, lo: int, hi: int)

  /** `iter`: how long the array is that the scope is drawing, if it is drawing one. */
  datatype TScope = TScope(names: map<int, Ty>, iter: Option<SLen>)

  type TEnv = seq<TScope>

  datatype TFound = TFound(ty: Ty, iter: Option<SLen>, depth: nat)

  function TFind(t: TEnv, id: int): (r: Option<TFound>)
    ensures r.Some? ==> r.value.depth < |t| && id in t[r.value.depth].names && r.value.ty == t[r.value.depth].names[id]
  {
    if t == [] then None
    else
      var s := t[|t|-1];
      if id in s.names then Some(TFound(s.names[id], s.iter, |t| - 1)) else TFind(t[..|t|-1], id)
  }

  /** An array of length b is at least as long as an iteration of length a. */
  predicate Covers(a: SLen, b: SLen) {
    a.hi <= b.lo || (a.Named? && b.Named? && a.depth == b.depth && a.id == b.id)
  }

  predicate UseOk(t: TEnv, id: int, kind: Kind) {
    var f := TFind(t, id);
    f.Some? && f.value.ty.TScalar? && f.value.ty.kind == kind && kind != KArr
  }

  predicate AtOk(t: TEnv, id: int) {
    var f := TFind(t, id);
    f.Some? && f.value.ty.TArr? && f.value.iter.Some? && Covers(f.value.iter.value, f.value.ty.len)
  }

  predicate PathOk(t: TEnv, skip: nat, id: int, index: bool) {
    skip < |t| && if index then AtOk(t[..|t| - skip], id) else UseOk(t[..|t| - skip], id, KInt)
  }

  /** The length a schema gives, when it is sure not to be negative. */
  function CheckLen(len: Len, t: TEnv): (r: Option<SLen>)
    ensures r.Some? ==> 0 <= r.value.lo
  {
    match len
    case Const(n) => if n >= 0 then Some(Range(n, n)) else None
    case Draw(width, lo, hi) => if 0 <= lo <= hi <= NarrowMax(width) then Some(Range(lo, hi)) else None
    case LenUse(id, kind) => if kind == KInt && UseOk(t, id, KInt) then NamedLen(TFind(t, id).value, id) else None
    case LenAt(id) => if AtOk(t, id) then RangeLen(TFind(t, id).value.ty) else None
    case LenPath(skip, id, index) =>
      if !PathOk(t, skip, id, index) then None
      else
        var f := TFind(t[..|t| - skip], id).value;
        if index then RangeLen(f.ty) else NamedLen(f, id)
  }

  function NamedLen(f: TFound, id: int): (r: Option<SLen>)
    ensures r.Some? ==> 0 <= r.value.lo
  {
    if f.ty.lo >= 0 then Some(Named(f.depth, id, f.ty.lo, f.ty.hi)) else None
  }

  function RangeLen(ty: Ty): (r: Option<SLen>)
    ensures r.Some? ==> 0 <= r.value.lo
  {
    if ty.lo >= 0 then Some(Range(ty.lo, ty.hi)) else None
  }

  /** What an int holds when a value of [lo, hi] is stored in it. */
  function IntTy(lo: int, hi: int): (int, int) {
    if INT_MIN <= lo && hi <= INT_MAX then (lo, hi) else (INT_MIN, INT_MAX)
  }

  function ScalarTy(kind: Kind, lo: int, hi: int): Ty {
    if kind == KInt then TScalar(kind, IntTy(lo, hi).0, IntTy(lo, hi).1) else TScalar(kind, lo, hi)
  }

  function ArrTy(len: SLen, lo: int, hi: int): Ty { TArr(len, IntTy(lo, hi).0, IntTy(lo, hi).1) }

  function Declare(t: TEnv, id: int, ty: Ty): Option<TEnv>
    requires t != []
  {
    var s := t[|t|-1];
    if id in s.names || |s.names| >= MAX_BINDINGS then None
    else Some(t[..|t|-1] + [s.(names := s.names[id := ty])])
  }

  function Iterating(t: TEnv, len: SLen): TEnv
    requires t != []
  {
    t[..|t|-1] + [t[|t|-1].(iter := Some(len))]
  }

  /** The scopes after an entry; None: it is refused. */
  function CheckField(f: Field, t: TEnv): (r: Option<TEnv>)
    requires t != []
    ensures r.Some? ==> |r.value| == |t|
    decreases f, 2, 0
  {
    match f
    case Scalar(lo, hi) => if lo <= hi then Some(t) else None
    case Let(id, kind, lo, hi) => if lo <= hi && kind != KArr then Declare(t, id, ScalarTy(kind, lo, hi)) else None
    case LetArr(id, len, lo, hi) =>
      var n := CheckLen(len, t);
      if lo <= hi && n.Some? then Declare(t, id, ArrTy(n.value, lo, hi)) else None
    case Use(id, kind) => if UseOk(t, id, kind) then Some(t) else None
    case UseAt(id) => if AtOk(t, id) then Some(t) else None
    case UsePath(skip, id, index) => if PathOk(t, skip, id, index) then Some(t) else None
    case Nested(cases) => if forall c <- cases :: CheckRecord(c, t) then Some(t) else None
    case Array(len, elem) =>
      var n := CheckLen(len, t);
      if n.None? then None
      else
        match elem
        case Ints(lo, hi) => if lo <= hi then Some(t) else None
        case Structs(fs) => if CheckStruct(fs, Iterating(t, n.value)) then Some(t) else None
  }

  predicate CheckRecord(c: Record, t: TEnv)
    decreases c, 2, 0
  {
    CheckStruct(c.fields, t)
  }

  predicate CheckStruct(fs: seq<Field>, t: TEnv)
    decreases fs, 1, 0
  {
    CheckFields(fs, t + [TScope(map[], None)]).Some?
  }

  function CheckFields(fs: seq<Field>, t: TEnv): (r: Option<TEnv>)
    requires t != []
    ensures r.Some? ==> |r.value| == |t|
    decreases fs, 0, |fs|
  {
    if fs == [] then Some(t)
    else
      var r := CheckFields(fs[..|fs|-1], t);
      if r.None? then None else CheckField(fs[|fs|-1], r.value)
  }

  /* ---- Scopes that fit their static description ---- */

  predicate LenFits(l: SLen, n: int, top: Env) {
    l.lo <= n <= l.hi && (l.Named? ==> l.depth < |top| && l.id in top[l.depth].names && top[l.depth].names[l.id].value == n)
  }

  predicate IndexFits(l: SLen, i: int, top: Env) {
    0 <= i < l.hi && (l.Named? ==> l.depth < |top| && l.id in top[l.depth].names && i < top[l.depth].names[l.id].value)
  }

  predicate BoundFits(ty: Ty, b: Bound, top: Env) {
    match ty
    case TScalar(kind, lo, hi) => b.kind == kind && lo <= b.value <= hi
    case TArr(len, lo, hi) => b.kind == KArr && LenFits(len, |b.arr|, top) && forall v <- b.arr :: lo <= v <= hi
  }

  predicate ScopeFits(t: TScope, s: Scope, top: Env) {
    && t.names.Keys == s.names.Keys
    && (forall id <- t.names :: id in s.names && BoundFits(t.names[id], s.names[id], top))
    && (t.iter.Some? ==> IndexFits(t.iter.value, s.index, top))
  }

  predicate EnvFits(t: TEnv, env: Env, top: Env) {
    |t| == |env| && forall i :: 0 <= i < |t| ==> ScopeFits(t[i], env[i], top)
  }

  /** Later scopes keep every name and value of the earlier ones. */
  predicate Extends(env: Env, more: Env) {
    |env| <= |more| && forall d, id :: 0 <= d < |env| && id in env[d].names ==>
      id in more[d].names && more[d].names[id] == env[d].names[id]
  }

  lemma FitsMore(t: TEnv, env: Env, top: Env, more: Env)
    requires EnvFits(t, env, top) && Extends(top, more)
    ensures EnvFits(t, env, more)
  {
  }

  lemma {:induction false} FindFits(t: TEnv, env: Env, top: Env, id: int)
    requires EnvFits(t, env, top) && env <= top
    ensures Find(env, id).Some? <==> TFind(t, id).Some?
    ensures TFind(t, id).Some? ==>
      var f, g := Find(env, id).value, TFind(t, id).value;
      && BoundFits(g.ty, f.bound, top) && (g.iter.Some? ==> IndexFits(g.iter.value, f.index, top))
      && id in top[g.depth].names && top[g.depth].names[id] == f.bound
    decreases |env|
  {
    if env != [] {
      var k := |env| - 1;
      assert ScopeFits(t[k], env[k], top);
      assert top[k] == env[k];
      if id !in env[k].names { FindFits(t[..k], env[..k], top, id); }
    }
  }

  lemma UseFits(t: TEnv, env: Env, top: Env, id: int, kind: Kind)
    requires EnvFits(t, env, top) && env <= top && UseOk(t, id, kind)
    ensures var v := ReadUse(env, id, kind);
      v.Some? && var g := TFind(t, id).value;
      g.ty.lo <= v.value <= g.ty.hi && g.depth < |top| && id in top[g.depth].names && top[g.depth].names[id].value == v.value
  {
    FindFits(t, env, top, id);
  }

  lemma AtFits(t: TEnv, env: Env, top: Env, id: int)
    requires EnvFits(t, env, top) && env <= top && AtOk(t, id)
    ensures var v := ReadAt(env, id);
      v.Some? && var g := TFind(t, id).value; g.ty.lo <= v.value <= g.ty.hi
  {
    FindFits(t, env, top, id);
    var f, g := Find(env, id).value, TFind(t, id).value;
    assert f.index < |f.bound.arr|;
    assert f.bound.arr[f.index] in f.bound.arr;
  }

  lemma PathFits(t: TEnv, env: Env, skip: nat, id: int, index: bool)
    requires EnvFits(t, env, env) && PathOk(t, skip, id, index)
    ensures ReadPath(env, skip, id, index).Some?
    ensures var v := ReadPath(env, skip, id, index).value;
      var g := TFind(t[..|t| - skip], id).value;
      g.ty.lo <= v <= g.ty.hi && (!index ==> g.depth < |env| && id in env[g.depth].names && env[g.depth].names[id].value == v)
  {
    var k := |t| - skip;
    assert EnvFits(t[..k], env[..k], env);
    if index { AtFits(t[..k], env[..k], env, id); } else { UseFits(t[..k], env[..k], env, id, KInt); }
  }

  lemma LenSafe(len: Len, t: TEnv, env: Env, st: State)
    requires EnvFits(t, env, env) && CheckLen(len, t).Some?
    ensures var n := EvalLen(len, env, st);
      !n.Abort? && (n.Done? ==> LenFits(CheckLen(len, t).value, n.value, env))
  {
    hide EnvFits, Find, ReadUse, ReadAt, ReadPath;
    match len
    case Const(_) =>
    case Draw(width, lo, hi) =>
      var v := Engine(st, lo, hi);
      if v.Done? { NarrowIff(width, v.value); }
    case LenUse(id, kind) =>
      UseFits(t, env, env, id, kind);
    case LenAt(id) => AtFits(t, env, env, id);
    case LenPath(skip, id, index) =>
      PathFits(t, env, skip, id, index);
  }

  lemma {:induction false} IntsSafe(n: nat, lo: int, hi: int, st: State)
    requires lo <= hi
    ensures var r := EvalInts(n, lo, hi, st);
      !r.Abort? && (r.Done? ==> |r.value| == n && forall v <- r.value :: IntTy(lo, hi).0 <= v <= IntTy(lo, hi).1)
    decreases n
  {
    hide Cell, IntTy;
    if n > 0 {
      IntsSafe(n - 1, lo, hi, st);
      var r := EvalInts(n - 1, lo, hi, st);
      if r.Done? {
        var w := Engine(r.st, lo, hi);
        if w.Done? { CellIn(w.value, lo, hi); }
      }
    }
  }

  /** An int keeps exactly the values it can hold. */
  lemma CellIff(v: int)
    ensures Cell(v) == v <==> INT_MIN <= v <= INT_MAX
  {
  }

  /** A length drawn into the low bytes of a zeroed int is the one drawn exactly in this range. */
  lemma NarrowIff(width: nat, v: int)
    ensures Narrow(width, v) == v <==> NarrowMin(width) <= v <= NarrowMax(width)
  {
    CellIff(v);
  }

  lemma CellIn(v: int, lo: int, hi: int)
    requires lo <= v <= hi
    ensures IntTy(lo, hi).0 <= Cell(v) <= IntTy(lo, hi).1
  {
    CellIff(v);
  }

  lemma ScopeGrows(t: TScope, s: Scope, id: int, ty: Ty, b: Bound, top: Env)
    requires ScopeFits(t, s, top) && BoundFits(ty, b, top)
    ensures ScopeFits(t.(names := t.names[id := ty]), s.(names := s.names[id := b]), top)
  {
    hide BoundFits, IndexFits;
  }

  lemma SameCount(t: TScope, s: Scope, top: Env)
    requires ScopeFits(t, s, top)
    ensures |t.names| == |s.names| && forall id :: id in t.names <==> id in s.names
  {
    assert |t.names| == |t.names.Keys| && |s.names| == |s.names.Keys|;
    hide BoundFits, IndexFits;
  }

  lemma BoundMore(ty: Ty, b: Bound, top: Env, more: Env)
    requires BoundFits(ty, b, top) && Extends(top, more)
    ensures BoundFits(ty, b, more)
  {
  }

  lemma BindExtends(env: Env, id: int, b: Bound)
    requires env != [] && id !in env[|env|-1].names && BindIn(env, id, b).Some?
    ensures Extends(env, BindIn(env, id, b).value)
  {
  }

  lemma BindFits(t: TEnv, env: Env, id: int, ty: Ty, b: Bound)
    requires t != [] && EnvFits(t, env, env) && BoundFits(ty, b, env) && Declare(t, id, ty).Some?
    ensures BindIn(env, id, b).Some? && EnvFits(Declare(t, id, ty).value, BindIn(env, id, b).value, BindIn(env, id, b).value)
  {
    hide BoundFits, ScopeFits, Extends;
    var k := |env| - 1;
    assert ScopeFits(t[k], env[k], env);
    SameCount(t[k], env[k], env);
    var e := BindIn(env, id, b).value;
    BindExtends(env, id, b);
    FitsMore(t, env, env, e);
    BoundMore(ty, b, env, e);
    assert ScopeFits(t[k], env[k], e);
    ScopeGrows(t[k], env[k], id, ty, b, e);
  }

  /* ---- Binding soundness ---- */

  /** Evaluation did not abort, and what it leaves fits. */
  predicate Sound(r: Out<Env>, t: Option<TEnv>) {
    !r.Abort? && (r.Done? ==> t.Some? && EnvFits(t.value, r.value, r.value))
  }

  /** An entry that passes the check never aborts. */
  lemma {:induction false} FieldSafe(f: Field, t: TEnv, env: Env, st: State)
    requires t != [] && EnvFits(t, env, env) && CheckField(f, t).Some?
    ensures Sound(EvalField(f, env, st), CheckField(f, t))
    decreases f, 2, 0
  {
    hide EnvFits, UseOk, AtOk, PathOk, ReadUse, ReadAt, ReadPath, CheckLen, EvalLen, Declare, BindIn;
    assert |t| == |env| by { SameDepth(t, env); }
    match f
    case Scalar(lo, hi) =>
    case Let(id, kind, lo, hi) =>
      var v := Engine(st, lo, hi);
      if v.Done? {
        CellIn(v.value, lo, hi);
        LetSafe(t, env, id, ScalarTy(kind, lo, hi), Bound(kind, Kept(kind, v.value), []), v.st);
      }
    case LetArr(id, len, lo, hi) => LetArrSafe(f, t, env, st);
    case Use(id, kind) => UseFits(t, env, env, id, kind);
    case UseAt(id) => AtFits(t, env, env, id);
    case UsePath(skip, id, index) => PathFits(t, env, skip, id, index);
    case Nested(cases) =>
      if cases != [] {
        var c := Engine(st, 0, |cases| - 1);
        if c.Done? {
          assert cases[c.value] in cases;
          assert CheckRecord(cases[c.value], t);
          StructSafe(cases[c.value].fields, t, env, c.st);
        }
      }
    case Array(len, elem) =>
      LenSafe(len, t, env, st);
      var n := EvalLen(len, env, st);
      if n.Done? {
        LenNat(CheckLen(len, t).value, n.value, env);
        ElemsSafe(elem, n.value, n.value, CheckLen(len, t).value, t, env, n.st);
      }
  }

  lemma SameDepth(t: TEnv, env: Env)
    requires EnvFits(t, env, env)
    ensures |t| == |env|
  {
  }

  lemma LenNat(l: SLen, n: int, env: Env)
    requires LenFits(l, n, env) && 0 <= l.lo
    ensures 0 <= n
  {
  }

  lemma LetSafe(t: TEnv, env: Env, id: int, ty: Ty, b: Bound, st: State)
    requires t != [] && EnvFits(t, env, env) && BoundFits(ty, b, env) && Declare(t, id, ty).Some?
    ensures |env| == |t| && Sound(Bind(env, id, b, st), Declare(t, id, ty))
  {
    BindFits(t, env, id, ty, b);
  }

  lemma LetArrSafe(f: Field, t: TEnv, env: Env, st: State)
    requires f.LetArr? && t != [] && EnvFits(t, env, env) && CheckField(f, t).Some?
    ensures |env| == |t| && Sound(EvalField(f, env, st), CheckField(f, t))
  {
    LenSafe(f.len, t, env, st);
    var n := EvalLen(f.len, env, st);
    if n.Done? {
      var l := CheckLen(f.len, t).value;
      IntsSafe(n.value, f.lo, f.hi, n.st);
      var vs := EvalInts(n.value, f.lo, f.hi, n.st);
      if vs.Done? { LetSafe(t, env, f.id, ArrTy(l, f.lo, f.hi), Bound(KArr, 0, vs.value), vs.st); }
    }
  }

  lemma {:induction false} ElemsSafe(elem: Elem, k: nat, n: nat, l: SLen, t: TEnv, env: Env, st: State)
    requires t != [] && EnvFits(t, env, env) && LenFits(l, n, env) && k <= n && |env| == |t|
    requires match elem
             case Ints(lo, hi) => lo <= hi
             case Structs(fs) => CheckStruct(fs, Iterating(t, l))
    ensures !EvalElems(elem, k, env, st).Abort?
    decreases elem, 1, k
  {
    hide EnvFits, LenFits;
    if k > 0 {
      ElemsSafe(elem, k - 1, n, l, t, env, st);
      var r := EvalElems(elem, k - 1, env, st);
      if r.Done? && elem.Structs? {
        IndexSafe(t, env, l, n, k - 1);
        StructSafe(elem.fields, Iterating(t, l), WithIndex(env, k - 1), r.value);
      }
    }
  }

  lemma IndexSafe(t: TEnv, env: Env, l: SLen, n: nat, i: nat)
    requires t != [] && EnvFits(t, env, env) && LenFits(l, n, env) && i < n && |env| == |t|
    ensures EnvFits(Iterating(t, l), WithIndex(env, i), WithIndex(env, i))
  {
    var k := |env| - 1;
    var e := WithIndex(env, i);
    assert ScopeFits(t[k], env[k], env);
    assert Extends(env, e);
    FitsMore(t, env, env, e);
    assert EnvFits(t[..k], env[..k], e);
  }

  lemma {:induction false} StructSafe(fs: seq<Field>, t: TEnv, env: Env, st: State)
    requires EnvFits(t, env, env) && CheckStruct(fs, t)
    ensures !EvalStruct(fs, env, st).Abort?
    decreases fs, 1, 0
  {
    var inner := env + [Scope(map[], -1)];
    assert Extends(env, inner);
    FitsMore(t, env, env, inner);
    assert EnvFits(t + [TScope(map[], None)], inner, inner);
    FieldsSafe(fs, t + [TScope(map[], None)], inner, st);
  }

  lemma {:induction false} FieldsSafe(fs: seq<Field>, t: TEnv, env: Env, st: State)
    requires t != [] && EnvFits(t, env, env) && CheckFields(fs, t).Some? && env != []
    ensures Sound(EvalFields(fs, env, st), CheckFields(fs, t))
    decreases fs, 0, |fs|
  {
    hide EnvFits, EvalField, CheckField;
    if fs != [] {
      var k := |fs| - 1;
      FieldsSafe(fs[..k], t, env, st);
      var r := EvalFields(fs[..k], env, st);
      if r.Done? { FieldSafe(fs[k], CheckFields(fs[..k], t).value, r.value, r.st); }
    }
  }

  /**
    Binding soundness.  A top-level struct that passes the static check never aborts in a LET,
    USE, USE_AT or USE_PATH, whatever the engine answers.
   */
  lemma CheckedNeverAborts(fs: seq<Field>, st: State)
    requires CheckStruct(fs, [])
    ensures !EvalStruct(fs, [], st).Abort?
  {
    StructSafe(fs, [], [], st);
  }

  /* ---- What a USE writes ---- */

  lemma {:induction false} FieldsExtend(fs: seq<Field>, env: Env, st: State)
    requires env != []
    ensures var r := EvalFields(fs, env, st);
      r.Done? ==> Extends(env, r.value) && r.value[..|env|-1] == env[..|env|-1]
    decreases |fs|
  {
    hide EvalField;
    if fs != [] {
      var k := |fs| - 1;
      FieldsExtend(fs[..k], env, st);
      var r := EvalFields(fs[..k], env, st);
      if r.Done? { FieldExtends(fs[k], r.value, r.st); }
    }
  }

  lemma FieldExtends(f: Field, env: Env, st: State)
    requires env != []
    ensures var r := EvalField(f, env, st);
      r.Done? ==> Extends(env, r.value) && r.value[..|env|-1] == env[..|env|-1]
  {
    hide EvalStruct, EvalElems, EvalInts, EvalLen;
  }

  /** A name bound in a scope keeps its value while the rest of the struct is drawn, and every
      USE there, or in a struct below that does not bind the name itself, writes that value. */
  lemma UseWritesLet(gs: seq<Field>, env: Env, id: int, b: Bound, below: seq<Scope>, st: State)
    requires env != [] && id in env[|env|-1].names && env[|env|-1].names[id] == b
    requires EvalFields(gs, env, st).Done? && forall s <- below :: id !in s.names
    ensures var e := EvalFields(gs, env, st).value + below;
      && Find(e, id).Some? && Find(e, id).value.bound == b
      && (b.kind != KArr ==> ReadUse(e, id, b.kind) == Some(b.value))
  {
    FieldsExtend(gs, env, st);
    var e := EvalFields(gs, env, st).value;
    assert e[|e|-1].names[id] == b;
    SkipsUnbound(e, below, id);
  }

  /**
    A LET and a USE of its name: after the entries gs that follow the LET, in its struct or in
    one below that does not bind the name, the USE writes the value the LET drew if and only if
    the binding is not an int or the value fits one.
   */
  lemma LetThenUse(id: int, kind: Kind, lo: int, hi: int, gs: seq<Field>, env: Env, below: seq<Scope>, st: State)
    requires env != [] && kind != KArr && (forall s <- below :: id !in s.names)
    requires var r := EvalField(Let(id, kind, lo, hi), env, st);
      r.Done? && EvalFields(gs, r.value, r.st).Done?
    ensures var r := EvalField(Let(id, kind, lo, hi), env, st);
      var drawn := Engine(st, lo, hi).value;
      var read := ReadUse(EvalFields(gs, r.value, r.st).value + below, id, kind);
      read.Some? && (read.value == drawn <==> kind != KInt || INT_MIN <= drawn <= INT_MAX)
  {
    hide EvalFields, Cell;
    var r := EvalField(Let(id, kind, lo, hi), env, st);
    var drawn := Engine(st, lo, hi).value;
    CellIff(drawn);
    UseWritesLet(gs, r.value, id, Bound(kind, Kept(kind, drawn), []), below, r.st);
  }

  /** st with vs written at the end. */
  function Appended(st: State, vs: seq<int>): State { State(st.answers, st.written + vs) }

  /** A name bound in scope s, read as a value and as a length from a struct below that does not
      bind it: a scalar is what it is, an array its element at the index s is drawing; a name of
      another kind, or an index outside the array, aborts. */
  lemma NameWrites(up: Env, s: Scope, below: seq<Scope>, id: int, kind: Kind, st: State)
    requires id in s.names && forall t <- below :: id !in t.names
    ensures var e := up + [s] + below;
      var b := s.names[id];
      && EvalField(Use(id, kind), e, st) ==
         (if b.kind == kind && kind != KArr then Done(e, Appended(st, [b.value])) else Abort)
      && EvalField(UseAt(id), e, st) ==
         (if b.kind == KArr && 0 <= s.index < |b.arr| then Done(e, Appended(st, [b.arr[s.index]])) else Abort)
      && EvalLen(LenUse(id, KInt), e, st) == (if b.kind == KInt then Done(b.value, st) else Abort)
      && EvalLen(LenAt(id), e, st) ==
         (if b.kind == KArr && 0 <= s.index < |b.arr| then Done(b.arr[s.index], st) else Abort)
  {
    SkipsUnbound(up + [s], below, id);
    assert (up + [s])[|up + [s]| - 1] == s;
  }

  /** ... and a path names the scope it skips to, whatever the skipped scopes bind. */
  lemma PathWrites(up: Env, s: Scope, below: seq<Scope>, id: int, st: State)
    requires id in s.names
    ensures var e := up + [s] + below;
      var b := s.names[id];
      var k := |below|;
      && EvalField(UsePath(k, id, false), e, st) == (if b.kind == KInt then Done(e, Appended(st, [b.value])) else Abort)
      && EvalField(UsePath(k, id, true), e, st) ==
         (if b.kind == KArr && 0 <= s.index < |b.arr| then Done(e, Appended(st, [b.arr[s.index]])) else Abort)
      && EvalLen(LenPath(k, id, false), e, st) == (if b.kind == KInt then Done(b.value, st) else Abort)
      && EvalLen(LenPath(k, id, true), e, st) ==
         (if b.kind == KArr && 0 <= s.index < |b.arr| then Done(b.arr[s.index], st) else Abort)
  {
    var e := up + [s] + below;
    assert e[..|e| - |below|] == up + [s];
    assert (up + [s])[|up + [s]| - 1] == s;
  }

  /** The first n answers, each brought into [lo, hi]. */
  function Drawn(answers: seq<int>, n: nat, lo: int, hi: int): (vs: seq<int>)
    requires n <= |answers|
    ensures |vs| == n
  {
    seq(n, i requires 0 <= i < n => Clamp(answers[i], lo, hi))
  }

  /** What an int holds of each value. */
  function Cells(vs: seq<int>): (cs: seq<int>)
    ensures |cs| == |vs|
  {
    seq(|vs|, i requires 0 <= i < |vs| => Cell(vs[i]))
  }

  /** n ints take the next n answers, in order, or stop the case. */
  lemma {:induction false} IntsAre(n: nat, lo: int, hi: int, st: State)
    ensures EvalInts(n, lo, hi, st) ==
      if n <= |st.answers| then Done(Cells(Drawn(st.answers, n, lo, hi)), st.(answers := st.answers[n..])) else Stop
    decreases n
  {
    hide Cell, Clamp;
    if n > 0 {
      IntsAre(n - 1, lo, hi, st);
      if n <= |st.answers| {
        assert st.answers[n - 1..][0] == st.answers[n - 1] && st.answers[n - 1..][1..] == st.answers[n..];
        var a, b := Cells(Drawn(st.answers, n - 1, lo, hi)), Cells(Drawn(st.answers, n, lo, hi));
        assert b == a + [Cell(Clamp(st.answers[n - 1], lo, hi))];
      }
    } else {
      assert st.answers[0..] == st.answers;
    }
  }

  /** An array of ints writes the next answers, in order. */
  lemma {:induction false} IntElemsWrite(n: nat, lo: int, hi: int, env: Env, st: State)
    requires env != []
    ensures EvalElems(Ints(lo, hi), n, env, st) ==
      if n <= |st.answers| then
        var s := State(st.answers[n..], st.written + Drawn(st.answers, n, lo, hi));
        Done(s, s)
      else Stop
    decreases n
  {
    hide Clamp;
    if n > 0 {
      IntElemsWrite(n - 1, lo, hi, env, st);
      if n <= |st.answers| {
        assert st.answers[n - 1..][0] == st.answers[n - 1] && st.answers[n - 1..][1..] == st.answers[n..];
        var a, b := Drawn(st.answers, n - 1, lo, hi), Drawn(st.answers, n, lo, hi);
        assert b == a + [Clamp(st.answers[n - 1], lo, hi)];
        assert st.written + a + [Clamp(st.answers[n - 1], lo, hi)] == st.written + b;
      }
    } else {
      assert st.answers[0..] == st.answers && st.written + Drawn(st.answers, 0, lo, hi) == st.written;
    }
  }

  lemma ArrayWrites(n: nat, lo: int, hi: int, env: Env, st: State)
    requires env != []
    ensures EvalField(Array(Const(n), Ints(lo, hi)), env, st) ==
      if n <= |st.answers| then Done(env, State(st.answers[n..], st.written + Drawn(st.answers, n, lo, hi))) else Stop
  {
    IntElemsWrite(n, lo, hi, env, st);
  }

  /** One of several structs: the one the engine answers, and only that one. */
  lemma NestedWrites(cases: seq<Record>, env: Env, st: State)
    requires env != [] && cases != [] && |st.answers| >= 2
    requires forall c :: 0 <= c < |cases| ==> cases[c] == Record([Scalar(c, c)])
    ensures EvalField(Nested(cases), env, st) ==
      Done(env, State(st.answers[2..], st.written + [Clamp(st.answers[0], 0, |cases| - 1)]))
  {
    var c := Clamp(st.answers[0], 0, |cases| - 1);
    var s1 := State(st.answers[1..], st.written);
    assert Engine(st, 0, |cases| - 1) == Done(c, s1);
    var inner := env + [Scope(map[], -1)];
    var fs := [Scalar(c, c)];
    assert fs[..0] == [] && EvalFields(fs[..0], inner, s1) == Done(inner, s1);
    assert s1.answers[1..] == st.answers[2..] && s1.answers[0] == st.answers[1];
    assert EvalFields(fs, inner, s1) == EvalField(fs[0], inner, s1);
  }

  lemma {:induction false} UseAtElems(k: nat, id: int, env: Env, st: State)
    requires env != [] && id in env[|env|-1].names
    requires var b := env[|env|-1].names[id]; b.kind == KArr && k <= |b.arr|
    ensures var s := Appended(st, env[|env|-1].names[id].arr[..k]);
      EvalElems(Structs([UseAt(id)]), k, env, st) == Done(s, s)
    decreases k
  {
    var b := env[|env|-1].names[id];
    if k > 0 {
      UseAtElems(k - 1, id, env, st);
      var s := Appended(st, b.arr[..k - 1]);
      OneUseAt(id, WithIndex(env, k - 1), s);
      assert b.arr[..k] == b.arr[..k - 1] + [b.arr[k - 1]];
      assert st.written + b.arr[..k - 1] + [b.arr[k - 1]] == st.written + b.arr[..k];
    } else {
      assert st.written + b.arr[..0] == st.written;
    }
  }

  /** One element whose struct holds a USE_AT. */
  lemma OneUseAt(id: int, env: Env, st: State)
    requires env != [] && id in env[|env|-1].names
    requires var s := env[|env|-1]; s.names[id].kind == KArr && 0 <= s.index < |s.names[id].arr|
    ensures var top := env[|env|-1];
      var s := Appended(st, [top.names[id].arr[top.index]]);
      EvalElem(Structs([UseAt(id)]), env, st) == Done(s, s)
  {
    hide EvalField;
    var inner, fs := Scope(map[], -1), [UseAt(id)];
    var k := |env| - 1;
    assert env[..k] + [env[k]] == env;
    NameWrites(env[..k], env[k], [inner], id, KArr, st);
    assert fs[..0] == [] && EvalFields(fs[..0], env + [inner], st) == Done(env + [inner], st);
    assert EvalFields(fs, env + [inner], st) == EvalField(fs[0], env + [inner], st);
  }

  /**
    A LET_ARR and the array that reads it back: after the entries gs that follow the LET_ARR, an
    array of as many structs, each with a USE_AT of the name, writes the values that were drawn,
    all of them and in order, as an int holds them.
   */
  lemma LetArrThenUse(id: int, len: Len, lo: int, hi: int, gs: seq<Field>, env: Env, st: State)
    requires env != []
    requires var r := EvalField(LetArr(id, len, lo, hi), env, st);
      r.Done? && EvalFields(gs, r.value, r.st).Done?
    ensures var n := EvalLen(len, env, st); n.Done? && 0 <= n.value <= |n.st.answers|
    ensures var n := EvalLen(len, env, st);
      var r := EvalField(LetArr(id, len, lo, hi), env, st);
      var e := EvalFields(gs, r.value, r.st);
      EvalField(Array(Const(n.value), Structs([UseAt(id)])), e.value, e.st) ==
      Done(e.value, Appended(e.st, Cells(Drawn(n.st.answers, n.value, lo, hi))))
  {
    hide EvalFields, EvalElems, EvalInts, EvalElem, Cells, Drawn;
    var n := EvalLen(len, env, st);
    IntsAre(n.value, lo, hi, n.st);
    var vs := Cells(Drawn(n.st.answers, n.value, lo, hi));
    var r := EvalField(LetArr(id, len, lo, hi), env, st);
    var e := EvalFields(gs, r.value, r.st);
    FieldsExtend(gs, r.value, r.st);
    assert r.value[|r.value|-1].names[id] == Bound(KArr, 0, vs);
    assert e.value[|e.value|-1].names[id] == Bound(KArr, 0, vs);
    UseAtElems(n.value, id, e.value, e.st);
    assert vs[..n.value] == vs;
    ConstLength(n.value, e.value, e.st);
  }

  lemma ConstLength(n: int, env: Env, st: State)
    ensures EvalLen(Const(n), env, st) == Done(n, st)
  {
  }

  /** A LET is done exactly when the engine answers, the name is new in its struct and there is
      room for it; it then binds what its kind keeps of the answer, and changes nothing else. */
  lemma LetBinds(id: int, kind: Kind, lo: int, hi: int, up: Env, s: Scope, st: State)
    ensures var r := EvalField(Let(id, kind, lo, hi), up + [s], st);
      && (r.Done? <==> st.answers != [] && id !in s.names && |s.names| < 16)
      && (r.Stop? <==> st.answers == [])
      && (r.Done? ==>
            var v := Clamp(st.answers[0], lo, hi);
            var b := Bound(kind, if kind == KInt then Cell(v) else v, []);
            r == Done(up + [Scope(s.names[id := b], s.index)], State(st.answers[1..], st.written)))
  {
    assert (up + [s])[..|up|] == up && (up + [s])[|up|] == s;
  }

  /** Entries are drawn in the order they are declared: the first, and then the rest. */
  lemma {:induction false} FieldsInOrder(f: Field, gs: seq<Field>, env: Env, st: State)
    requires env != []
    ensures var r := EvalField(f, env, st);
      EvalFields([f] + gs, env, st) == if r.Done? then EvalFields(gs, r.value, r.st) else r
    decreases |gs|
  {
    hide EvalField;
    if gs == [] {
      assert [f] + gs == [f] && [f][..0] == [];
    } else {
      var k := |gs| - 1;
      assert ([f] + gs)[..|gs|] == [f] + gs[..k];
      FieldsInOrder(f, gs[..k], env, st);
    }
  }

  /** A struct has a scope of its own: whatever is bound around it, a LET in it is what a USE in it
      writes, and afterwards nothing around it has changed. */
  lemma StructScope(id: int, lo: int, hi: int, env: Env, st: State)
    requires st.answers != []
    ensures EvalStruct([Let(id, KI64, lo, hi), Use(id, KI64)], env, st) ==
      Done(env, State(st.answers[1..], st.written + [Clamp(st.answers[0], lo, hi)]))
  {
    hide EvalField;
    var let, use := Let(id, KI64, lo, hi), Use(id, KI64);
    var v := Clamp(st.answers[0], lo, hi);
    var s0, s1 := Scope(map[], -1), Scope(map[id := Bound(KI64, v, [])], -1);
    var st1 := State(st.answers[1..], st.written);
    LetBinds(id, KI64, lo, hi, env, s0, st);
    assert EvalField(let, env + [s0], st) == Done(env + [s1], st1);
    NameWrites(env, s1, [], id, KI64, st1);
    assert env + [s1] + [] == env + [s1];
    FieldsInOrder(let, [use], env + [s0], st);
    FieldsInOrder(use, [], env + [s1], st1);
    assert [let] + [use] == [let, use] && [use] + [] == [use];
    assert EvalFields([], env + [s1], Appended(st1, [v])) == Done(env + [s1], Appended(st1, [v]));
  }

  /** A LET and a USE, on what is written: the value drawn, as the binding's kind keeps it. */
  lemma LetUseWrites(id: int, kind: Kind, lo: int, hi: int, gs: seq<Field>, env: Env, below: seq<Scope>, st: State)
    requires env != [] && kind != KArr && (forall s <- below :: id !in s.names)
    requires var r := EvalField(Let(id, kind, lo, hi), env, st);
      r.Done? && EvalFields(gs, r.value, r.st).Done?
    ensures st.answers != []
    ensures var r := EvalField(Let(id, kind, lo, hi), env, st);
      var e := EvalFields(gs, r.value, r.st);
      var v := Clamp(st.answers[0], lo, hi);
      EvalField(Use(id, kind), e.value + below, e.st) ==
      Done(e.value + below, Appended(e.st, [if kind == KInt then Cell(v) else v]))
  {
    hide EvalFields, Cell;
    var r := EvalField(Let(id, kind, lo, hi), env, st);
    var v := Clamp(st.answers[0], lo, hi);
    UseWritesLet(gs, r.value, id, Bound(kind, Kept(kind, v), []), below, r.st);
  }

  /** An unsigned 32-bit LET that draws 2^31: the USE of it writes -2^31, and an array of that
      length aborts. */
  lemma WideLet()
    ensures var env := [Scope(map[], -1)]; var st := State([0x8000_0000], []);
      var r := EvalField(Let(1, KInt, 0, 0xFFFF_FFFF), env, st);
      && r.Done? && ReadUse(r.value, 1, KInt) == Some(INT_MIN)
      && EvalField(Array(LenUse(1, KInt), Ints(0, 9)), r.value, r.st).Abort?
  {
    var env, st := [Scope(map[], -1)], State([0x8000_0000], []);
    var r := EvalField(Let(1, KInt, 0, 0xFFFF_FFFF), env, st);
    assert Engine(st, 0, 0xFFFF_FFFF) == Done(0x8000_0000, State([], []));
    assert Cell(0x8000_0000) == INT_MIN;
    assert r.value[|r.value|-1].names[1] == Bound(KInt, INT_MIN, []);
  }

  /** A signed byte that draws -1 for the length of a LET_ARR: 255 elements are bound. */
  lemma ByteLength(answers: seq<int>)
    requires |answers| >= 255
    ensures var env := [Scope(map[], -1)]; var st := State([-1] + answers, []);
      var r := EvalField(LetArr(1, Draw(1, -1, 0), 0, 9), env, st);
      r.Done? && Find(r.value, 1).Some? && |Find(r.value, 1).value.bound.arr| == 255
  {
    hide EvalInts;
    var env, st := [Scope(map[], -1)], State([-1] + answers, []);
    assert Engine(st, -1, 0) == Done(-1, State(answers, [])) by { assert ([-1] + answers)[1..] == answers; }
    assert EvalLen(Draw(1, -1, 0), env, st) == Done(255, State(answers, []));
    EnoughAnswers(255, 0, 9, State(answers, []));
  }

  lemma {:induction false} EnoughAnswers(n: nat, lo: int, hi: int, st: State)
    requires n <= |st.answers|
    ensures var r := EvalInts(n, lo, hi, st);
      r.Done? && |r.value| == n && r.st.answers == st.answers[n..]
    decreases n
  {
    if n > 0 { EnoughAnswers(n - 1, lo, hi, st); }
  }

  lemma {:induction false} SkipsUnbound(env: Env, below: seq<Scope>, id: int)
    requires forall s <- below :: id !in s.names
    ensures Find(env + below, id) == Find(env, id)
    decreases |below|
  {
    if below == [] {
      assert env + below == env;
    } else {
      var k := |below| - 1;
      assert (env + below)[..|env| + k] == env + below[..k];
      assert below[k] in below;
      SkipsUnbound(env, below[..k], id);
    }
  }

  /* ---- The binding tables ---- */

  /** The table of a scope as a map: its first k rows. */
  function Table(ids: seq<int>, vals: seq<Bound>): map<int, Bound>
    requires |ids| == |vals|
  {
    if ids == [] then map[] else Table(ids[..|ids|-1], vals[..|ids|-1])[ids[|ids|-1] := vals[|ids|-1]]
  }

  predicate Distinct(ids: seq<int>) { forall i, j :: 0 <= i < j < |ids| ==> ids[i] != ids[j] }

  /** The map has exactly these rows. */
  predicate Rows(ids: seq<int>, vals: seq<Bound>, m: map<int, Bound>) {
    && |ids| == |vals| == |m|
    && (forall id <- m :: id in ids)
    && forall i :: 0 <= i < |ids| ==> ids[i] in m && m[ids[i]] == vals[i]
  }

  lemma {:induction false} TableFacts(ids: seq<int>, vals: seq<Bound>)
    requires |ids| == |vals| && Distinct(ids)
    ensures Rows(ids, vals, Table(ids, vals))
    decreases |ids|
  {
    hide Distinct, Rows;
    if ids == [] {
      NoRows(ids, vals);
    } else {
      var k := |ids| - 1;
      LastFresh(ids);
      TableFacts(ids[..k], vals[..k]);
      RowAdded(ids[..k], vals[..k], ids[k], vals[k], Table(ids[..k], vals[..k]));
      assert ids[..k] + [ids[k]] == ids && vals[..k] + [vals[k]] == vals;
    }
  }

  lemma NoRows(ids: seq<int>, vals: seq<Bound>)
    requires ids == [] && vals == []
    ensures Rows(ids, vals, map[])
  {
  }

  lemma LastFresh(ids: seq<int>)
    requires ids != [] && Distinct(ids)
    ensures ids[|ids|-1] !in ids[..|ids|-1] && Distinct(ids[..|ids|-1])
  {
  }

  lemma RowAdded(ids: seq<int>, vals: seq<Bound>, id: int, b: Bound, m: map<int, Bound>)
    requires Rows(ids, vals, m) && id !in ids
    ensures Rows(ids + [id], vals + [b], m[id := b])
  {
  }

  /** hegel__draw_ctx: a table of at most 16 rows, and the enclosing scope. */
  class Ctx {
    const ids: array<int>
    const vals: array<Bound>
    var n: nat
    var index: int
    const parent: Ctx?
    ghost const Repr: set<object>

    ghost predicate Valid()
      reads this, Repr
      decreases Repr
    {
      && this in Repr && ids in Repr && vals in Repr && n <= ids.Length == vals.Length == MAX_BINDINGS
      && Distinct(ids[..n])
      && (parent != null ==> parent in Repr && parent.Repr < Repr && this !in parent.Repr && ids !in parent.Repr &&
                             vals !in parent.Repr && parent.Valid())
    }

    ghost function Top(): Scope
      requires n <= ids.Length == vals.Length
      reads this, ids, vals
    {
      Scope(Table(ids[..n], vals[..n]), index)
    }

    ghost function Env(): (e: Env)
      requires Valid()
      reads this, Repr
      ensures e != [] && e[|e|-1] == Top()
      decreases Repr
    {
      (if parent == null then [] else parent.Env()) + [Top()]
    }

    /** hegel__draw_ctx_init. */
    constructor (up: Ctx?)
      requires up != null ==> up.Valid()
      ensures Valid() && parent == up && fresh(ids) && fresh(vals)
      ensures Repr == {this, ids, vals} + (if up == null then {} else up.Repr)
      ensures Env() == (if up == null then [] else up.Env()) + [Scope(map[], -1)]
    {
      ids := new int[MAX_BINDINGS](_ => 0);
      vals := new Bound[MAX_BINDINGS](_ => Bound(KInt, 0, []));
      n, index, parent := 0, -1, up;
      Repr := {this, ids, vals} + (if up == null then {} else up.Repr);
    }

    /** The row of id in this scope, or n. */
    method Row(id: int) returns (i: nat)
      requires Valid()
      ensures i <= n && (i < n ==> ids[i] == id) && (i == n ==> id !in ids[..n])
      ensures i < n ==> id in Top().names && Top().names[id] == vals[i]
      ensures i == n ==> id !in Top().names
    {
      TableFacts(ids[..n], vals[..n]);
      i := 0;
      while i < n
        invariant i <= n && forall j :: 0 <= j < i ==> ids[j] != id
      {
        if ids[i] == id {
          assert ids[..n][i] == id && vals[..n][i] == vals[i];
          return;
        }
        i := i + 1;
      }
    }

    /** hegel__draw_ctx_bind_full; false: it aborts. */
    method Bind(id: int, b: Bound) returns (ok: bool)
      requires Valid()
      modifies this`n, ids, vals
      ensures Valid() && ok == BindIn(old(Env()), id, b).Some?
      ensures Env() == if ok then BindIn(old(Env()), id, b).value else old(Env())
    {
      var i := Row(id);
      if i < n { return false; }
      assert |Top().names| == n by { TableFacts(ids[..n], vals[..n]); }
      if n >= MAX_BINDINGS { return false; }
      Append(id, b);
      ok := true;
    }

    /** A row for a name that has none. */
    method Append(id: int, b: Bound)
      requires Valid() && n < MAX_BINDINGS && id !in ids[..n]
      modifies this`n, ids, vals
      ensures Valid() && Top() == old(Top()).(names := old(Top()).names[id := b])
      ensures Env() == old(Env())[..|old(Env())| - 1] + [Top()]
    {
      hide Table, Distinct;
      ghost var ids0, vals0 := ids[..n], vals[..n];
      ids[n], vals[n] := id, b;
      n := n + 1;
      assert ids[..n] == ids0 + [id] && vals[..n] == vals0 + [b];
      TablePush(ids0, vals0, id, b);
    }
  }

  lemma TablePush(ids: seq<int>, vals: seq<Bound>, id: int, b: Bound)
    requires |ids| == |vals| && Distinct(ids) && id !in ids
    ensures Distinct(ids + [id]) && Table(ids + [id], vals + [b]) == Table(ids, vals)[id := b]
  {
    assert (ids + [id])[..|ids|] == ids && (vals + [b])[..|ids|] == vals;
  }

  ghost function EnvOf(c: Ctx?): Env
    requires c != null ==> c.Valid()
    reads c, if c == null then {} else c.Repr
  {
    if c == null then [] else c.Env()
  }

  /** hegel__draw_ctx_lookup_full: from scope c outwards. */
  method Lookup(c: Ctx?, id: int) returns (r: Option<Found>)
    requires c != null ==> c.Valid()
    ensures r == Find(EnvOf(c), id)
  {
    hide Table, Distinct, Ctx.Env, Ctx.Top;
    var s := c;
    while s != null
      invariant s != null ==> s.Valid()
      invariant Find(EnvOf(c), id) == Find(EnvOf(s), id)
      decreases if s == null then {} else s.Repr, s != null
    {
      UpEnv(s);
      TopIndex(s);
      var i := s.Row(id);
      if i < s.n { return Some(Found(s.vals[i], s.index)); }
      s := s.parent;
    }
    r := None;
  }

  lemma TopIndex(c: Ctx)
    requires c.Valid()
    ensures c.Env()[|c.Env()|-1] == c.Top() && c.Top().index == c.index
  {
  }

  lemma UpEnv(c: Ctx)
    requires c.Valid()
    ensures c.parent != null ==> c.parent.Valid() && c.parent.Env() == c.Env()[..|c.Env()| - 1] && |c.Env()| > 1
    ensures c.parent == null ==> |c.Env()| == 1 && c.Env()[..0] == []
  {
  }

  /* ---- The draw over the tables ---- */

  datatype Status = Fine | Aborted | Stopped

  /** The run did what the environment semantics says. */
  ghost predicate Follows(status: Status, out: Out<Env>, env: Env, st: State) {
    match out
    case Done(e, s) => status == Fine && env == e && st == s
    case Abort => status == Aborted
    case Stop => status == Stopped
  }

  class Drawing {
    var answers: seq<int>
    var written: seq<int>

    constructor (script: seq<int>)
      ensures answers == script && written == []
    {
      answers, written := script, [];
    }

    function Now(): State
      reads this
    {
      State(answers, written)
    }

    /** The next answer of the engine. */
    method Ask(lo: int, hi: int) returns (s: Status, v: int)
      modifies this`answers
      ensures s == Fine || s == Stopped
      ensures if s == Fine then Engine(old(Now()), lo, hi) == Done(v, Now()) else Engine(old(Now()), lo, hi) == Stop
    {
      if answers == [] { return Stopped, 0; }
      v := Clamp(answers[0], lo, hi);
      answers := answers[1..];
      s := Fine;
    }

    /** HEGEL_USE, HEGEL_USE_AT and HEGEL_USE_PATH from scope c. */
    method ReadName(c: Ctx?, id: int, kind: Kind) returns (v: Option<int>)
      requires c != null ==> c.Valid()
      ensures v == if kind == KArr then ReadAt(EnvOf(c), id) else ReadUse(EnvOf(c), id, kind)
    {
      hide Find;
      var f := Lookup(c, id);
      if f.None? { return None; }
      var b := f.value.bound;
      if b.kind != kind { return None; }
      if kind == KArr {
        if f.value.index < 0 || f.value.index >= |b.arr| { return None; }
        return Some(b.arr[f.value.index]);
      }
      v := Some(b.value);
    }

    method PathName(c: Ctx, skip: nat, id: int, index: bool) returns (v: Option<int>)
      requires c.Valid()
      ensures v == ReadPath(c.Env(), skip, id, index)
    {
      hide Find, ReadUse, ReadAt, Ctx.Env, Ctx.Top;
      ghost var env := c.Env();
      var start: Ctx := c;
      assert env[..|env|] == env;
      for i := 0 to skip
        invariant start.Valid() && i < |env| && start.Env() == env[..|env| - i]
      {
        UpEnv(start);
        if start.parent == null { return None; }
        start := start.parent;
        assert env[..|env| - i][..|env| - i - 1] == env[..|env| - (i + 1)];
      }
      v := ReadName(start, id, if index then KArr else KInt);
    }

    method Length(len: Len, c: Ctx) returns (s: Status, n: int)
      requires c.Valid()
      modifies this`answers
      ensures match EvalLen(len, old(c.Env()), old(Now()))
        case Done(v, st) => s == Fine && n == v && Now() == st
        case Abort => s == Aborted
        case Stop => s == Stopped
    {
      hide Find, ReadUse, ReadAt, ReadPath;
      match len {
        case Const(k) => return Fine, k;
        case Draw(width, lo, hi) =>
          s, n := Ask(lo, hi);
          n := Narrow(width, n);
          return;
        case LenUse(id, kind) =>
          if kind != KInt { return Aborted, 0; }
          var v := ReadName(c, id, kind);
          return if v.None? then Aborted else Fine, if v.None? then 0 else v.value;
        case LenAt(id) =>
          var v := ReadName(c, id, KArr);
          return if v.None? then Aborted else Fine, if v.None? then 0 else v.value;
        case LenPath(skip, id, index) =>
          var v := PathName(c, skip, id, index);
          return if v.None? then Aborted else Fine, if v.None? then 0 else v.value;
      }
    }

    /** The elements of a LET_ARR. */
    method IntsInto(n: nat, lo: int, hi: int) returns (s: Status, vs: seq<int>)
      modifies this`answers
      ensures match EvalInts(n, lo, hi, old(Now()))
        case Done(v, st) => s == Fine && vs == v && Now() == st
        case Abort => s == Aborted
        case Stop => s == Stopped
    {
      vs := [];
      for i := 0 to n
        invariant EvalInts(i, lo, hi, old(Now())) == Done(vs, Now())
      {
        var t, v := Ask(lo, hi);
        if t != Fine {
          StopsAt(i + 1, n, lo, hi, old(Now()));
          return t, [];
        }
        vs := vs + [Cell(v)];
      }
      s := Fine;
    }

    /** One value into the struct. */
    method Put(v: int)
      modifies this`written
      ensures Now() == Write(old(Now()), v)
    {
      written := written + [v];
    }

    /** hegel__draw_struct: a scope of its own under `up`. */
    method DrawStruct(fs: seq<Field>, up: Ctx?) returns (s: Status)
      requires up != null ==> up.Valid() && this !in up.Repr
      modifies this
      ensures Follows(s, EvalStruct(fs, old(EnvOf(up)), old(Now())), old(EnvOf(up)), Now())
      decreases fs, 1, 0
    {
      hide Find, Ctx.Valid, Ctx.Env, Ctx.Top, Table, EvalFields;
      var c := new Ctx(up);
      s := DrawFields(fs, c);
    }

    /** A top-level draw of a struct that passes the static check: no binding ever aborts it. */
    method DrawTop(fs: seq<Field>) returns (s: Status)
      requires CheckStruct(fs, [])
      modifies this
      ensures s != Aborted && Follows(s, EvalStruct(fs, [], old(Now())), [], Now())
    {
      CheckedNeverAborts(fs, Now());
      s := DrawStruct(fs, null);
    }

    /** The entries in order. */
    method DrawFields(fs: seq<Field>, c: Ctx) returns (s: Status)
      requires c.Valid() && this !in c.Repr
      modifies this, c`n, c`index, c.ids, c.vals
      ensures c.Valid() && Follows(s, EvalFields(fs, old(c.Env()), old(Now())), c.Env(), Now())
      decreases fs, 0, |fs|
    {
      hide Find, Ctx.Valid, Ctx.Env, Ctx.Top, Table, EvalField;
      ghost var env, st := c.Env(), Now();
      assert fs[..0] == [];
      for k := 0 to |fs|
        invariant c.Valid() && EvalFields(fs[..k], env, st) == Done(c.Env(), Now())
      {
        assert fs[..k + 1][..k] == fs[..k];
        s := DrawField(fs[k], c);
        if s != Fine {
          FailsAt(fs, k + 1, env, st);
          return;
        }
      }
      assert fs[..|fs|] == fs;
      s := Fine;
    }

    method DrawField(f: Field, c: Ctx) returns (s: Status)
      requires c.Valid() && this !in c.Repr
      modifies this, c`n, c`index, c.ids, c.vals
      ensures c.Valid() && Follows(s, EvalField(f, old(c.Env()), old(Now())), c.Env(), Now())
      decreases f, 2, 0
    {
      hide Find, Ctx.Valid, Ctx.Env, Ctx.Top, Table, BindIn, ReadUse, ReadAt, ReadPath, EvalLen, EvalInts;
      match f {
        case Scalar(lo, hi) =>
          var v;
          s, v := Ask(lo, hi);
          if s == Fine { Put(v); }
        case Let(id, kind, lo, hi) =>
          var v;
          s, v := Ask(lo, hi);
          if s == Fine {
            var ok := c.Bind(id, Bound(kind, Kept(kind, v), []));
            if !ok { s := Aborted; }
          }
        case LetArr(id, len, lo, hi) => s := DrawLetArr(f, c);
        case Use(id, kind) =>
          if kind == KArr {
            assert ReadUse(c.Env(), id, kind).None? by { NoArrayUse(c.Env(), id); }
            return Aborted;
          }
          var v := ReadName(c, id, kind);
          if v.None? { return Aborted; }
          Put(v.value);
          s := Fine;
        case UseAt(id) =>
          var v := ReadName(c, id, KArr);
          if v.None? { return Aborted; }
          Put(v.value);
          s := Fine;
        case UsePath(skip, id, index) =>
          var v := PathName(c, skip, id, index);
          if v.None? { return Aborted; }
          Put(v.value);
          s := Fine;
        case Nested(cases) =>
          if cases == [] { return Fine; }
          var v;
          s, v := Ask(0, |cases| - 1);
          if s == Fine { s := DrawStruct(cases[v].fields, c); }
        case Array(len, elem) => s := DrawArray(len, elem, c);
      }
    }

    method DrawLetArr(f: Field, c: Ctx) returns (s: Status)
      requires f.LetArr? && c.Valid() && this !in c.Repr
      modifies this, c`n, c.ids, c.vals
      ensures c.Valid() && Follows(s, EvalField(f, old(c.Env()), old(Now())), c.Env(), Now())
    {
      hide Find, Ctx.Valid, Ctx.Env, Ctx.Top, Table, BindIn, ReadUse, ReadAt, ReadPath, EvalLen, EvalInts;
      var n, vs;
      s, n := Length(f.len, c);
      if s != Fine { return; }
      if n < 0 { return Aborted; }
      s, vs := IntsInto(n, f.lo, f.hi);
      if s != Fine { return; }
      var ok := c.Bind(f.id, Bound(KArr, 0, vs));
      if !ok { s := Aborted; }
    }

    /** HEGEL_ARR_OF: the index is this scope's while its elements are drawn, and restored. */
    method DrawArray(len: Len, elem: Elem, c: Ctx) returns (s: Status)
      requires c.Valid() && this !in c.Repr
      modifies this, c`index
      ensures c.Valid() && Follows(s, EvalField(Array(len, elem), old(c.Env()), old(Now())), c.Env(), Now())
      decreases elem, 2
    {
      hide Find, Table, BindIn, ReadUse, ReadAt, ReadPath, EvalLen, EvalInts, EvalElems, EvalField, Ctx.Valid,
        Ctx.Env, Ctx.Top;
      ArrayIs(len, elem, c.Env(), Now());
      var n;
      s, n := Length(len, c);
      if s != Fine { return; }
      if n < 0 { return Aborted; }
      var saved := c.index;
      ghost var env := c.Env();
      TopIndex(c);
      s := DrawElems(elem, n, c);
      if s != Fine { return; }
      IndexTwice(c.Env(), saved, 0);
      SetIndex(c, saved);
      IndexBack(env, c.Env(), saved);
    }

    method SetIndex(c: Ctx, i: int)
      requires c.Valid()
      modifies c`index
      ensures c.Valid() && c.Env() == WithIndex(old(c.Env()), i) && c.Env()[|c.Env()|-1].index == i
    {
      hide Find, Table;
      c.index := i;
    }

    method DrawElem(elem: Elem, c: Ctx) returns (s: Status)
      requires c.Valid() && this !in c.Repr
      modifies this
      ensures c.Valid() && c.Env() == old(c.Env())
      ensures match EvalElem(elem, c.Env(), old(Now()))
        case Done(a, b) => s == Fine && Now() == a == b
        case Abort => s == Aborted
        case Stop => s == Stopped
      decreases elem, 0
    {
      hide Find, Ctx.Valid, Ctx.Env, Ctx.Top, Table, EvalStruct;
      match elem {
        case Ints(lo, hi) =>
          var v;
          s, v := Ask(lo, hi);
          if s == Fine { Put(v); }
        case Structs(fs) =>
          s := DrawStruct(fs, c);
      }
    }

    method DrawElems(elem: Elem, n: nat, c: Ctx) returns (s: Status)
      requires c.Valid() && this !in c.Repr
      modifies this, c`index
      ensures c.Valid() && |c.Env()| == |old(c.Env())| && WithIndex(c.Env(), 0) == WithIndex(old(c.Env()), 0)
      ensures match EvalElems(elem, n, old(c.Env()), old(Now()))
        case Done(st, _) => s == Fine && Now() == st
        case Abort => s == Aborted
        case Stop => s == Stopped
      decreases elem, 1
    {
      hide Find, Ctx.Valid, Ctx.Env, Ctx.Top, Table, EvalElem, WithIndex;
      ghost var env, st := c.Env(), Now();
      for i := 0 to n
        invariant c.Valid() && |c.Env()| == |env| && WithIndex(c.Env(), 0) == WithIndex(env, 0)
        invariant EvalElems(elem, i, env, st) == Done(Now(), Now())
      {
        ghost var before := c.Env();
        SetIndex(c, i);
        SameNames(env, before, i);
        s := DrawElem(elem, c);
        if s != Fine {
          ElemsFailAt(elem, i + 1, n, env, st);
          return;
        }
      }
      s := Fine;
    }
  }

  lemma ArrayIs(len: Len, elem: Elem, env: Env, st: State)
    requires env != []
    ensures var n := EvalLen(len, env, st);
      var out := EvalField(Array(len, elem), env, st);
      if n.Abort? || (n.Done? && n.value < 0) then out.Abort?
      else if n.Stop? then out.Stop?
      else
        match EvalElems(elem, n.value, env, n.st)
        case Done(s, _) => out == Done(env, s)
        case Abort => out.Abort?
        case Stop => out.Stop?
  {
  }

  lemma NoArrayUse(env: Env, id: int)
    ensures ReadUse(env, id, KArr).None?
  {
  }

  /** Environments that agree but for the innermost index. */
  lemma SameNames(env: Env, e: Env, i: int)
    requires env != [] && |e| == |env| && WithIndex(e, 0) == WithIndex(env, 0)
    ensures WithIndex(e, i) == WithIndex(env, i) && WithIndex(WithIndex(e, i), 0) == WithIndex(env, 0)
  {
    var k := |env| - 1;
    assert e[..k] == WithIndex(e, 0)[..k] == WithIndex(env, 0)[..k] == env[..k];
    assert WithIndex(e, 0)[k] == WithIndex(env, 0)[k];
  }

  lemma IndexBack(env: Env, e: Env, saved: int)
    requires env != [] && |e| == |env| && e[|e|-1].index == saved == env[|env|-1].index &&
        WithIndex(e, 0) == WithIndex(env, 0)
    ensures e == env
  {
    SameNames(env, e, saved);
    assert WithIndex(e, saved) == e && WithIndex(env, saved) == env;
  }

  lemma IndexTwice(e: Env, i: int, j: int)
    requires e != []
    ensures WithIndex(WithIndex(e, i), j) == WithIndex(e, j)
  {
  }

  lemma {:induction false} FailsAt(fs: seq<Field>, k: nat, env: Env, st: State)
    requires env != [] && k <= |fs| && !EvalFields(fs[..k], env, st).Done?
    ensures EvalFields(fs, env, st) == EvalFields(fs[..k], env, st)
    decreases |fs|
  {
    if k == |fs| {
      assert fs[..k] == fs;
    } else {
      assert fs[..|fs|-1][..k] == fs[..k];
      FailsAt(fs[..|fs|-1], k, env, st);
    }
  }

  lemma {:induction false} ElemsFailAt(elem: Elem, k: nat, n: nat, env: Env, st: State)
    requires env != [] && k <= n && !EvalElems(elem, k, env, st).Done?
    ensures EvalElems(elem, n, env, st) == EvalElems(elem, k, env, st)
    decreases n
  {
    if k < n { ElemsFailAt(elem, k, n - 1, env, st); }
  }

  lemma {:induction false} StopsAt(i: nat, n: nat, lo: int, hi: int, st: State)
    requires i <= n && EvalInts(i, lo, hi, st).Stop?
    ensures EvalInts(n, lo, hi, st).Stop?
    decreases n
  {
    if i < n { StopsAt(i, n - 1, lo, hi, st); }
  }
}
