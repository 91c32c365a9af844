/**
  The draw engine: how one top-level draw walks a schema, which heap blocks and engine
  spans it holds at every step, and what is left when it returns, is retried, or is
  jumped out of.  The layout of what is written and the values themselves are the
  business of Layout, Views, Bindings and Buffers.
 */
module DrawEngine {
  import opened Options
  import opened Schemas
  import opened Bags
  import opened EngineLog

  /** How a call ends: a value, the leaf-budget longjmp back to the top-level draw,
      a non-local exit out of the draw (overrun, assume, health failure), or abort(). */
  datatype Res<+T> = Done(value: T) | Unwound | Escaped | Aborted {
    predicate IsFailure() { !Done? }
    function PropagateFailure<U>(): (r: Res<U>)
      requires IsFailure()
    {
      match this case Unwound => Unwound case Escaped => Escaped case Aborted => Aborted
    }
    function Extract(): T requires Done? { value }
  }

  /** hegel__rec and its prev chain.  `attempts` and `leaves` are the engine's side of the
      recursion handle: attempts it still grants, leaf calls it accepted in this attempt. */
  datatype RecChain = Null | Rec(blk: Block, table: Option<Block>, cap: nat, allocs: seq<Block>,
                                 created: bool, maxDepth: nat, depth: nat, openSpans: nat,
                                 attempts: nat, leaves: nat, prev: RecChain)

  ghost function OptBlock(b: Option<Block>): multiset<Block> {
    if b.Some? then multiset{b.value} else multiset{}
  }

  /** Everything a record chain keeps alive: each record, its table, its tracked blocks. */
  ghost function Held(c: RecChain): multiset<Block> {
    match c
    case Null => multiset{}
    case Rec(blk, table, _, allocs, _, _, _, _, _, _, prev) =>
      multiset{blk} + OptBlock(table) + Bag(allocs) + Held(prev)
  }

  datatype Shape =
    | Scalar(blk: Block, schemaBlks: seq<Block>, owned: Option<Block>)
    | TextShape(blk: Block, schemaBlks: seq<Block>, owned: Option<Block>)
    | StructShape(blk: Block, schemaBlks: seq<Block>, owned: Option<Block>,
                  fieldsBlk: Block, fields: seq<Option<Shape>>)
    | OptionalShape(blk: Block, schemaBlks: seq<Block>, isSelf: bool, inner: Option<Shape>)
    | ArrayShape(blk: Block, schemaBlks: seq<Block>, owned: Option<Block>,
                 elemsBlk: Block, elems: seq<Option<Shape>>)
    | VariantShape(blk: Block, schemaBlks: seq<Block>, tag: int, inner: Option<Shape>)

  /** The blocks a shape owns, with multiplicity. */
  ghost function Owned(s: Shape): multiset<Block>
    decreases s, 1
  {
    multiset{s.blk} + Bag(s.schemaBlks) + PartsOwned(s)
  }

  ghost function PartsOwned(s: Shape): multiset<Block>
    decreases s, 0
  {
    match s
    case Scalar(_, _, owned) => OptBlock(owned)
    case TextShape(_, _, owned) => OptBlock(owned)
    case StructShape(_, _, owned, fb, fields) => OptBlock(owned) + multiset{fb} + OwnedAll(fields)
    case OptionalShape(_, _, _, inner) => OwnedOpt(inner)
    case ArrayShape(_, _, owned, eb, elems) => OptBlock(owned) + multiset{eb} + OwnedAll(elems)
    case VariantShape(_, _, _, inner) => OwnedOpt(inner)
  }

  ghost function OwnedOpt(o: Option<Shape>): multiset<Block> {
    if o.Some? then Owned(o.value) else multiset{}
  }

  ghost function OwnedAll(ss: seq<Option<Shape>>): multiset<Block> {
    if ss == [] then multiset{} else OwnedAll(ss[..|ss|-1]) + OwnedOpt(ss[|ss|-1])
  }

  function Max(a: nat, b: nat): nat { if a < b then b else a }

  /** How many HEGEL_SELF slots below (and at) this shape are NULL. */
  function NullSelfs(s: Shape): nat {
    match s
    case StructShape(_, _, _, _, fields) => NullSelfsAll(fields)
    case OptionalShape(_, _, isSelf, inner) =>
      if inner.Some? then NullSelfs(inner.value) else if isSelf then 1 else 0
    case ArrayShape(_, _, _, _, elems) => NullSelfsAll(elems)
    case VariantShape(_, _, _, inner) => if inner.Some? then NullSelfs(inner.value) else 0
    case _ => 0
  }

  function NullSelfsOpt(o: Option<Shape>): nat { if o.Some? then NullSelfs(o.value) else 0 }

  function NullSelfsAll(ss: seq<Option<Shape>>): nat {
    if ss == [] then 0
    else NullSelfsAll(ss[..|ss|-1]) + NullSelfsOpt(ss[|ss|-1])
  }

  /** Longest chain of HEGEL_SELF children below this shape. */
  function Nesting(s: Shape): nat {
    match s
    case StructShape(_, _, _, _, fields) => NestingAll(fields)
    case OptionalShape(_, _, isSelf, inner) =>
      if inner.Some? then Nesting(inner.value) + (if isSelf then 1 else 0) else 0
    case ArrayShape(_, _, _, _, elems) => NestingAll(elems)
    case VariantShape(_, _, _, inner) => if inner.Some? then Nesting(inner.value) else 0
    case _ => 0
  }

  function NestingOpt(o: Option<Shape>): nat { if o.Some? then Nesting(o.value) else 0 }

  function NestingAll(ss: seq<Option<Shape>>): nat {
    if ss == [] then 0
    else Max(NestingAll(ss[..|ss|-1]), NestingOpt(ss[|ss|-1]))
  }

  /* ---- The heap: blocks a record tracks, and blocks only their callers know ---- */

  ghost predicate HeapOk(live: multiset<Block>, callers: multiset<Block>, held: multiset<Block>, bound: nat) {
    live == callers + held && forall b :: b in live ==> live[b] == 1 && b < bound
  }

  lemma HeapAlloc(live: multiset<Block>, callers: multiset<Block>, held: multiset<Block>, bound: nat)
    requires HeapOk(live, callers, held, bound)
    ensures bound !in live
    ensures forall p: Block :: p !in live ==> HeapOk(live + multiset{p}, callers + multiset{p}, held, Max(bound, p + 1))
  {
  }

  lemma HeapFree(live: multiset<Block>, callers: multiset<Block>, held: multiset<Block>, bound: nat, p: Block)
    requires HeapOk(live, callers, held, bound) && p in callers
    ensures HeapOk(live - multiset{p}, callers - multiset{p}, held, bound)
    ensures (callers - multiset{p}) + multiset{p} == callers
    ensures (live - multiset{p}) + multiset{p} == live && p in live
  {
  }

  lemma HeapTrack(live: multiset<Block>, callers: multiset<Block>, c: RecChain, bound: nat, p: Block)
    requires c.Rec? && HeapOk(live, callers, Held(c), bound) && p in callers
    ensures Bag(c.allocs + [p]) == Bag(c.allocs) + multiset{p}
    ensures HeapOk(live, callers - multiset{p}, Held(c.(allocs := c.allocs + [p])), bound)
    ensures (callers - multiset{p}) + multiset{p} == callers
  {
    hide Bag;
    Push(c.allocs, p);
    var c' := c.(allocs := c.allocs + [p]);
    assert Held(c') == Held(c) + multiset{p};
    HeapEqual(live, callers, Held(c), callers - multiset{p}, Held(c'), bound);
  }

  lemma HeapRetable(live: multiset<Block>, callers: multiset<Block>, c: RecChain, bound: nat, p: Block, cap: nat)
    requires c.Rec? && HeapOk(live, callers + multiset{p}, Held(c), bound)
    ensures var c' := c.(table := Some(p), cap := cap);
      if c.table.Some? then HeapOk(live, callers + multiset{c.table.value}, Held(c'), bound)
      else HeapOk(live, callers, Held(c'), bound)
  {
    hide Bag;
  }

  lemma HeapUntrack(live: multiset<Block>, callers: multiset<Block>, c: RecChain, bound: nat, i: nat)
    requires c.Rec? && HeapOk(live, callers, Held(c), bound) && i < |c.allocs|
    ensures var last := |c.allocs| - 1; var rest := c.allocs[i := c.allocs[last]][..last];
            Bag(rest) + multiset{c.allocs[i]} == Bag(c.allocs) &&
            HeapOk(live, callers + multiset{c.allocs[i]}, Held(c.(allocs := rest)), bound)
  {
    hide Bag;
    SwapRemove(c.allocs, i);
    var last := |c.allocs| - 1;
    var rest := c.allocs[i := c.allocs[last]][..last];
    HeapEqual(live, callers, Held(c), callers + multiset{c.allocs[i]}, Held(c.(allocs := rest)), bound);
  }

  lemma HeapEqual(live: multiset<Block>, c0: multiset<Block>, h0: multiset<Block>, c1: multiset<Block>,
                  h1: multiset<Block>, bound: nat)
    requires HeapOk(live, c0, h0, bound) && c0 + h0 == c1 + h1
    ensures HeapOk(live, c1, h1, bound)
  {
  }

  lemma HeapPush(live: multiset<Block>, callers: multiset<Block>, c: RecChain, bound: nat, p: Block,
                 maxDepth: nat, attempts: nat)
    requires HeapOk(live, callers + multiset{p}, Held(c), bound)
    ensures HeapOk(live, callers, Held(Rec(p, None, 0, [], false, maxDepth, 0, 0, attempts, 0, c)), bound)
  {
    var d := Rec(p, None, 0, [], false, maxDepth, 0, 0, attempts, 0, c);
    assert Bag([]) == multiset{};
    assert Held(d) == multiset{p} + Held(c);
    HeapEqual(live, callers + multiset{p}, Held(c), callers, Held(d), bound);
  }

  lemma NoBlocks()
    ensures Bag([]) == multiset{}
  {
  }

  lemma HeapSurrender(live: multiset<Block>, callers: multiset<Block>, c: RecChain, bound: nat)
    requires c.Rec? && HeapOk(live, callers, Held(c), bound)
    ensures HeapOk(live, callers + Bag(c.allocs), Held(c.(allocs := [])), bound)
  {
    NoBlocks();
    hide Bag;
    HeapEqual(live, callers, Held(c), callers + Bag(c.allocs), Held(c.(allocs := [])), bound);
  }

  lemma HeapPop(live: multiset<Block>, callers: multiset<Block>, c: RecChain, bound: nat)
    requires c.Rec? && HeapOk(live, callers, Held(c), bound)
    ensures HeapOk(live, callers + Bag(c.allocs) + OptBlock(c.table) + multiset{c.blk}, Held(c.prev), bound)
  {
    hide Bag;
    HeapEqual(live, callers, Held(c), callers + Bag(c.allocs) + OptBlock(c.table) + multiset{c.blk},
              Held(c.prev), bound);
  }

  lemma HeapBare(live: multiset<Block>, callers: multiset<Block>, bound: nat)
    ensures HeapOk(live, callers, Held(Null), bound) ==> live == callers
  {
  }

  lemma HeapGrew(live0: multiset<Block>, live: multiset<Block>, callers0: multiset<Block>, callers: multiset<Block>,
                 held: multiset<Block>, bound0: nat, bound: nat, added: multiset<Block>)
    requires HeapOk(live0, callers0, held, bound0) && HeapOk(live, callers, held, bound)
    requires callers == callers0 + added
    ensures live == live0 + added
  {
  }

  lemma FromNothing(a: seq<Block>, b: seq<Block>, x: multiset<Block>)
    requires a == [] && Bag(b) == Bag(a) + x
    ensures Bag(b) == x
  {
  }

  /** A block a record tracks is not a caller's as well. */
  lemma HeapApart(live: multiset<Block>, callers: multiset<Block>, c: RecChain, bound: nat, p: Block)
    requires c.Rec? && HeapOk(live, callers, Held(c), bound) && p in callers
    ensures p !in c.allocs
  {
    hide Bag;
    Member(c.allocs, p);
    assert live[p] == callers[p] + Held(c)[p];
  }

  /** The recursion budget one HEGEL_SELF value gets from the engine. */
  const SELF_MAX_LEAVES: nat := 100

  /* ---- Steps of one attempt, as relations between snapshots ---- */

  datatype Snap = Snap(cur: RecChain, callers: multiset<Block>, calls: Log)

  /** Spans open besides those the running draw opened. */
  ghost function Outside(a: Snap): int
    requires a.cur.Rec?
  {
    SpansOpen(a.calls) - a.cur.openSpans
  }

  /** What every step inside one attempt keeps, however it ends. */
  ghost predicate Within(a: Snap, b: Snap) {
    && a.cur.Rec? && b.cur.Rec?
    && b.cur.blk == a.cur.blk && b.cur.prev == a.cur.prev
    && b.cur.maxDepth == a.cur.maxDepth && b.cur.attempts == a.cur.attempts
    && Goes(a.calls, b.calls, a.cur.created, b.cur.created, a.cur.maxDepth)
    && (a.cur.leaves <= SELF_MAX_LEAVES ==> b.cur.leaves <= SELF_MAX_LEAVES)
    && b.callers == a.callers
    && Outside(b) == Outside(a)
  }

  /** What a step gained: tracked blocks, leaves the engine accepted, nesting reached. */
  datatype Gain = Gain(blocks: multiset<Block>, nulls: int, nest: int)

  const NOTHING := Gain(multiset{}, 0, 0)

  ghost function One(p: Block): Gain { Gain(multiset{p}, 0, 0) }

  ghost function Many(ps: seq<Block>): Gain { Gain(Bag(ps), 0, 0) }

  ghost function Plus(g: Gain, h: Gain): Gain {
    Gain(g.blocks + h.blocks, g.nulls + h.nulls, if g.nest < h.nest then h.nest else g.nest)
  }

  ghost function Worth(o: Option<Shape>): Gain { Gain(OwnedOpt(o), NullSelfsOpt(o), NestingOpt(o)) }

  ghost function WorthAll(ss: seq<Option<Shape>>): Gain {
    Gain(OwnedAll(ss), NullSelfsAll(ss), NestingAll(ss))
  }

  /** A step that came back with `open` more spans open: it tracks exactly g.blocks more,
      the engine accepted g.nulls more leaves, and nesting g.nest below the current depth
      respects the depth cap. */
  ghost predicate Drew(a: Snap, b: Snap, g: Gain, open: int) {
    && Within(a, b)
    && b.cur.depth == a.cur.depth && b.cur.openSpans == a.cur.openSpans + open
    && Bag(b.cur.allocs) == Bag(a.cur.allocs) + g.blocks
    && b.cur.leaves == a.cur.leaves + g.nulls
    && (g.nest > 0 ==> b.cur.depth + g.nest < b.cur.maxDepth)
  }

  /** Freeing: tracked blocks (mine) leave the record alone otherwise; others leave it whole. */
  ghost predicate Freed(a: Snap, b: Snap, mine: bool) {
    if mine then
      Within(a, b) && b.cur.depth == a.cur.depth && b.cur.openSpans == a.cur.openSpans &&
      b.cur.leaves == a.cur.leaves && b.calls == a.calls
    else
      b.cur == a.cur && b.calls == a.calls
  }

  /** One span more (delta 1) or one fewer (delta -1) is open: the engine was told, nothing else moved. */
  ghost predicate Spanned(a: Snap, b: Snap, delta: int) {
    && (delta == 1 || delta == -1) && a.cur.Rec? && a.cur.openSpans + delta >= 0
    && b.cur == a.cur.(openSpans := a.cur.openSpans + delta) && b.callers == a.callers
    && a.calls < b.calls && |b.calls| == |a.calls| + 1
    && b.calls[|a.calls|].kind == (if delta == 1 then OpenSpan else CloseSpan(false)) && b.calls[|a.calls|].answer.Value?
  }

  /** The engine was asked something that moved nothing. */
  ghost predicate Talked(a: Snap, b: Snap) {
    a.cur.Rec? && b == a.(calls := b.calls) && SpansOpen(b.calls) == SpansOpen(a.calls) &&
    Goes(a.calls, b.calls, a.cur.created, a.cur.created, a.cur.maxDepth)
  }

  lemma SpannedWithin(a: Snap, b: Snap, d: int)
    requires Spanned(a, b, d)
    ensures Within(a, b)
  {
    hide Goes, SpansOpen;
    var e := b.calls[|a.calls|];
    assert b.calls == a.calls + [e];
    Pushed(a.calls, e);
    GoesOne(a.calls, e, a.cur.created, a.cur.maxDepth);
  }

  lemma SpannedKeeps(a: Snap, b: Snap, d: int)
    requires Spanned(a, b, d)
    ensures a.cur.Rec? && b.cur == a.cur.(openSpans := a.cur.openSpans + d)
  {
  }

  lemma TalkNone(a: Snap)
    requires a.cur.Rec?
    ensures Talked(a, a)
  {
    hide Goes, SpansOpen;
    GoesHere(a.calls, a.cur.created, a.cur.maxDepth);
  }

  lemma TalkOne(a: Snap, b: Snap, e: Asked)
    requires a.cur.Rec? && b == a.(calls := a.calls + [e]) && MarkOf(e) == [] && SpanOf(e) == 0 && !e.kind.More?
    ensures Talked(a, b)
  {
    hide Goes, SpansOpen;
    Pushed(a.calls, e);
    GoesOne(a.calls, e, a.cur.created, a.cur.maxDepth);
  }

  /** The handle is made. */
  lemma HandleMade(a: Snap, b: Snap, e: Asked)
    requires a.cur.Rec? && !a.cur.created && MarkOf(e) == [Made(a.cur.maxDepth)]
    requires b == Snap(a.cur.(created := true), a.callers, a.calls + [e])
    ensures Drew(a, b, NOTHING, 0)
  {
    hide Goes, SpansOpen, Bag;
    Pushed(a.calls, e);
    GoesOne(a.calls, e, false, a.cur.maxDepth);
    assert Bag(a.cur.allocs) == Bag(a.cur.allocs) + multiset{};
  }

  /** The engine accepted a leaf. */
  lemma LeafCounted(a: Snap, b: Snap, c: Snap)
    requires Drew(a, b, NOTHING, 0) && c == b.(cur := b.cur.(leaves := b.cur.leaves + 1)) && b.cur.leaves < SELF_MAX_LEAVES
    ensures Drew(a, c, Gain(multiset{}, 1, 0), 0)
  {
    hide Goes, SpansOpen, Bag;
  }

  /** The calls of one HEGEL_SELF slot: a handle if there is none, a branch one level down, and a
      leaf if it was refused; the answers say which of child, NULL and over budget it is. */
  ghost predicate SelfCalls(p: Log, q: Log, c: RecChain, child: bool, inBudget: bool)
    requires c.Rec?
  {
    var k := |p| + if c.created then 0 else 1;
    && p <= q && |q| == k + (if child then 1 else 2)
    && (!c.created ==> q[|p|].kind == NewRec(c.maxDepth))
    && q[k].kind == Branch(c.depth + 1) && q[k].answer.Value? && (child <==> q[k].answer.v != 0)
    && (!child ==> q[k + 1].kind == Leaf && q[k + 1].answer.Value? && (inBudget <==> q[k + 1].answer.v == 0))
  }

  /** p to p1: the handle is made, if there was none. */
  ghost predicate Handled(p: Log, p1: Log, c: RecChain)
    requires c.Rec?
  {
    if c.created then p1 == p else p < p1 && |p1| == |p| + 1 && p1[|p|].kind == NewRec(c.maxDepth)
  }

  lemma ChildCalls(p: Log, p1: Log, q: Log, c: RecChain)
    requires c.Rec? && Handled(p, p1, c)
    requires p1 < q && |q| == |p1| + 1 && q[|p1|].kind == Branch(c.depth + 1) && q[|p1|].answer.Value? && q[|p1|].answer.v != 0
    ensures SelfCalls(p, q, c, true, true)
  {
  }

  lemma NullCalls(p: Log, p1: Log, p2: Log, q: Log, c: RecChain, inBudget: bool)
    requires c.Rec? && Handled(p, p1, c)
    requires p1 < p2 && |p2| == |p1| + 1 && p2[|p1|].kind == Branch(c.depth + 1) && p2[|p1|].answer == Value(0)
    requires p2 < q && |q| == |p2| + 1 && q[|p2|].kind == Leaf && q[|p2|].answer.Value?
    requires inBudget <==> q[|p2|].answer.v == 0
    ensures SelfCalls(p, q, c, false, inBudget)
  {
  }

  lemma WithinThen(a: Snap, b: Snap, c: Snap)
    requires Within(a, b) && Within(b, c)
    ensures Within(a, c)
  {
    hide Goes, SpansOpen;
    GoesThen(a.calls, b.calls, c.calls, a.cur.created, b.cur.created, c.cur.created, a.cur.maxDepth);
  }

  lemma TalkedWithin(a: Snap, b: Snap)
    requires Talked(a, b)
    ensures Within(a, b) && Drew(a, b, NOTHING, 0)
  {
    hide Goes, SpansOpen, Bag;
    assert Bag(a.cur.allocs) == Bag(a.cur.allocs) + multiset{};
  }

  lemma DrewWithin(a: Snap, b: Snap, g: Gain, o: int)
    requires Drew(a, b, g, o)
    ensures Within(a, b)
  {
  }

  lemma FreedWithin(a: Snap, b: Snap)
    requires Freed(a, b, true)
    ensures Within(a, b)
  {
  }

  /** Whatever happens after snapshot a stays within its attempt. */
  lemma Steps(a: Snap)
    ensures forall b, c {:trigger Within(a, b), Within(b, c)} :: Within(a, b) && Within(b, c) ==> Within(a, c)
    ensures forall b, g, o :: Drew(a, b, g, o) ==> Within(a, b)
    ensures forall b, c, g, o {:trigger Within(a, b), Drew(b, c, g, o)} ::
              Within(a, b) && Drew(b, c, g, o) ==> Within(a, c)
    ensures forall b, c, d {:trigger Within(a, b), Spanned(b, c, d)} ::
              Within(a, b) && Spanned(b, c, d) ==> Within(a, c)
    ensures forall b, c {:trigger Within(a, b), Talked(b, c)} :: Within(a, b) && Talked(b, c) ==> Within(a, c)
    ensures forall b {:trigger Freed(a, b, true)} :: Freed(a, b, true) ==> Within(a, b)
    ensures forall b, d :: Spanned(a, b, d) ==> Within(a, b)
    ensures forall b :: Talked(a, b) ==> Within(a, b)
  {
    hide Within, Drew, Spanned, Talked, Freed;
    forall b, c {:trigger Within(a, b), Within(b, c)} | Within(a, b) && Within(b, c) ensures Within(a, c) { WithinThen(a, b, c); }
    forall b, c, g, o | Drew(b, c, g, o) ensures Within(b, c) { DrewWithin(b, c, g, o); }
    forall b, c, d | Spanned(b, c, d) ensures Within(b, c) { SpannedWithin(b, c, d); }
    forall b, c | Talked(b, c) ensures Within(b, c) { TalkedWithin(b, c); }
    forall b {:trigger Freed(a, b, true)} | Freed(a, b, true) ensures Within(a, b) { FreedWithin(a, b); }
  }

  lemma ThenFree(a: Snap, b: Snap, c: Snap, g: Gain, h: Gain, o: int)
    requires Drew(a, b, Plus(g, h), o) && h.nulls == h.nest == 0 && g.nest >= 0
    requires Freed(b, c, true) && Bag(c.cur.allocs) + h.blocks == Bag(b.cur.allocs)
    ensures Drew(a, c, g, o)
  {
    hide Bag, Within;
    WithinThen(a, b, c);
    WithinKeeps(a, c);
    WithinKeeps(b, c);
    TakenBack(Bag(a.cur.allocs), g.blocks, h.blocks, Bag(c.cur.allocs));
  }

  lemma TakenBack(a: multiset<Block>, g: multiset<Block>, h: multiset<Block>, c: multiset<Block>)
    requires c + h == a + (g + h)
    ensures c == a + g
  {
    forall k ensures c[k] == (a + g)[k] { assert (c + h)[k] == (a + (g + h))[k]; }
  }

  lemma Then(a: Snap, b: Snap, c: Snap, g: Gain, o: int, h: Gain)
    requires Drew(a, b, g, o) && Drew(b, c, h, 0)
    ensures Drew(a, c, Plus(g, h), o)
  {
    hide Bag, Goes, SpansOpen;
    WithinThen(a, b, c);
  }

  lemma ThenSpan(a: Snap, b: Snap, c: Snap, g: Gain, o: int, d: int)
    requires Drew(a, b, g, o) && Spanned(b, c, d)
    ensures Drew(a, c, g, o + d)
  {
    hide Bag, Goes, SpansOpen;
    SpannedWithin(b, c, d);
    WithinThen(a, b, c);
  }

  lemma ThenTalk(a: Snap, b: Snap, c: Snap, g: Gain, o: int)
    requires Drew(a, b, g, o) && Talked(b, c)
    ensures Drew(a, c, g, o)
  {
    hide Bag, Goes, SpansOpen;
    TalkedWithin(b, c);
    WithinThen(a, b, c);
  }

  lemma Idle(a: Snap)
    requires a.cur.Rec?
    ensures Drew(a, a, NOTHING, 0)
  {
    hide Bag, Goes, SpansOpen;
    GoesHere(a.calls, a.cur.created, a.cur.maxDepth);
    assert Bag(a.cur.allocs) == Bag(a.cur.allocs) + multiset{};
  }

  /** Composition of the steps taken since snapshot a. */
  lemma From(a: Snap)
    ensures forall b, c, g, h, o {:trigger Drew(a, b, g, o), Drew(b, c, h, 0)} ::
              Drew(a, b, g, o) && Drew(b, c, h, 0) ==> Drew(a, c, Plus(g, h), o)
    ensures forall b, c, g, o, d {:trigger Drew(a, b, g, o), Spanned(b, c, d)} ::
              Drew(a, b, g, o) && Spanned(b, c, d) ==> Drew(a, c, g, o + d)
    ensures forall b, c, g, o {:trigger Drew(a, b, g, o), Talked(b, c)} ::
              Drew(a, b, g, o) && Talked(b, c) ==> Drew(a, c, g, o)
  {
    hide Drew, Spanned, Talked, Plus;
    forall b, c, g, o {:trigger Drew(a, b, g, o), Talked(b, c)} | Drew(a, b, g, o) && Talked(b, c)
      ensures Drew(a, c, g, o)
    {
      ThenTalk(a, b, c, g, o);
    }
    forall b, c, g, h, o {:trigger Drew(a, b, g, o), Drew(b, c, h, 0)} | Drew(a, b, g, o) && Drew(b, c, h, 0)
      ensures Drew(a, c, Plus(g, h), o)
    {
      Then(a, b, c, g, o, h);
    }
    forall b, c, g, o, d {:trigger Drew(a, b, g, o), Spanned(b, c, d)} | Drew(a, b, g, o) && Spanned(b, c, d)
      ensures Drew(a, c, g, o + d)
    {
      ThenSpan(a, b, c, g, o, d);
    }
  }

  lemma Here(a: Snap)
    requires a.cur.Rec?
    ensures Within(a, a)
  {
    hide Goes, SpansOpen;
    GoesHere(a.calls, a.cur.created, a.cur.maxDepth);
  }

  lemma FlatMapSum(a0: Snap, a1: Snap, a2: Snap, a3: Snap, ps: seq<Block>)
    requires Drew(a0, a1, NOTHING, 0) && Drew(a1, a2, Many(ps), 0) && Drew(a2, a3, NOTHING, 0)
    ensures Drew(a0, a3, Many(ps), 0) && Bag(a3.cur.allocs) == Bag(a0.cur.allocs) + Bag(ps)
  {
    hide Bag, Goes, SpansOpen, Within;
    Then(a0, a1, a2, NOTHING, 0, Many(ps));
    Then(a0, a2, a3, Plus(NOTHING, Many(ps)), 0, NOTHING);
    assert multiset{} + Bag(ps) + multiset{} == Bag(ps);
  }

  lemma FlatMapDone(a0: Snap, a3: Snap, b: Snap, ps: seq<Block>)
    requires Drew(a0, a3, Many(ps), 0) && Freed(a3, b, true) && Bag(b.cur.allocs) == Bag(a0.cur.allocs)
    ensures Drew(a0, b, NOTHING, 0)
  {
    hide Bag, Goes, SpansOpen, Within;
    WithinThen(a0, a3, b);
    WithinKeeps(a0, b);
    WithinKeeps(a3, b);
    assert Bag(a0.cur.allocs) == Bag(a0.cur.allocs) + multiset{};
  }

  lemma FreedHere(a: Snap, mine: bool)
    requires mine ==> a.cur.Rec?
    ensures Freed(a, a, mine)
  {
    hide Within;
    if mine { Here(a); }
  }

  lemma FreedThen(a: Snap, b: Snap, c: Snap, mine: bool)
    requires Freed(a, b, mine) && Freed(b, c, mine)
    ensures Freed(a, c, mine)
  {
    hide Goes, SpansOpen;
    if mine { WithinThen(a, b, c); }
  }

  /** The first step of a draw opens a span. */
  lemma Opens(a: Snap, b: Snap)
    requires Spanned(a, b, 1)
    ensures Drew(a, b, NOTHING, 1)
  {
    Idle(a);
    ThenSpan(a, a, b, NOTHING, 0, 1);
  }

  lemma HeldSame(c: RecChain, d: RecChain)
    requires c.Rec? && d.Rec? && c.blk == d.blk && c.table == d.table && c.allocs == d.allocs && c.prev == d.prev
    ensures Held(c) == Held(d)
  {
  }

  lemma {:induction false} FillOwned(ss: seq<Option<Shape>>, i: nat, sh: Option<Shape>)
    requires i < |ss| && ss[i].None?
    ensures OwnedAll(ss[i := sh]) == OwnedAll(ss) + OwnedOpt(sh)
  {
    hide Owned;
    var n := |ss| - 1;
    if i < n {
      FillOwned(ss[..n], i, sh);
      assert ss[i := sh][..n] == ss[..n][i := sh];
    } else {
      assert ss[i := sh][..n] == ss[..n];
    }
  }

  lemma {:induction false} FillCounts(ss: seq<Option<Shape>>, i: nat, sh: Option<Shape>)
    requires i < |ss| && ss[i].None?
    ensures NullSelfsAll(ss[i := sh]) == NullSelfsAll(ss) + NullSelfsOpt(sh)
    ensures NestingAll(ss[i := sh]) == Max(NestingAll(ss), NestingOpt(sh))
  {
    hide NullSelfs, Nesting;
    var n := |ss| - 1;
    if i < n {
      FillCounts(ss[..n], i, sh);
      assert ss[i := sh][..n] == ss[..n][i := sh];
    } else {
      assert ss[i := sh][..n] == ss[..n];
    }
  }

  lemma FillNone(ss: seq<Option<Shape>>, i: nat, sh: Option<Shape>)
    requires i < |ss| && ss[i].None?
    ensures WorthAll(ss[i := sh]) == Plus(WorthAll(ss), Worth(sh))
  {
    FillOwned(ss, i, sh);
    FillCounts(ss, i, sh);
  }

  lemma {:induction false} AllNone(n: nat)
    ensures var ss := seq(n, _ => None);
      OwnedAll(ss) == multiset{} && NullSelfsAll(ss) == 0 && NestingAll(ss) == 0 && WorthAll(ss) == NOTHING
  {
    var ss := seq<Option<Shape>>(n, _ => None);
    if n > 0 {
      AllNone(n - 1);
      assert ss[..n-1] == seq<Option<Shape>>(n - 1, _ => None);
    }
  }

  lemma Appended(ss: seq<Option<Shape>>, sh: Option<Shape>)
    ensures WorthAll(ss + [sh]) == Plus(WorthAll(ss), Worth(sh))
  {
    assert (ss + [sh])[..|ss|] == ss;
  }

  /* ---- What each form of shape is worth ---- */

  lemma LeafWorth(b: Block, o: Option<Block>)
    ensures Worth(Some(Scalar(b, [], o))) == Gain(OptBlock(o) + multiset{b}, 0, 0)
    ensures Worth(Some(TextShape(b, [], o))) == Gain(OptBlock(o) + multiset{b}, 0, 0)
  {
    var s, t := Scalar(b, [], o), TextShape(b, [], o);
    assert Owned(s) == Owned(t) == OptBlock(o) + multiset{b};
    assert NullSelfs(s) == Nesting(s) == NullSelfs(t) == Nesting(t) == 0;
  }

  lemma StructWorth(b: Block, o: Option<Block>, fb: Block, fields: seq<Option<Shape>>)
    ensures Worth(Some(StructShape(b, [], o, fb, fields))) ==
            Plus(Gain(OptBlock(o) + multiset{b} + multiset{fb}, 0, 0), WorthAll(fields))
  {
    var s := StructShape(b, [], o, fb, fields);
    assert Owned(s) == OptBlock(o) + multiset{b} + multiset{fb} + OwnedAll(fields);
    assert NullSelfs(s) == NullSelfsAll(fields) && Nesting(s) == NestingAll(fields);
  }

  lemma ArrayWorth(b: Block, o: Option<Block>, eb: Block, elems: seq<Option<Shape>>)
    ensures Worth(Some(ArrayShape(b, [], o, eb, elems))) ==
            Plus(Gain(multiset{b} + OptBlock(o) + multiset{eb}, 0, 0), WorthAll(elems))
  {
    var s := ArrayShape(b, [], o, eb, elems);
    assert Owned(s) == multiset{b} + OptBlock(o) + multiset{eb} + OwnedAll(elems);
    assert NullSelfs(s) == NullSelfsAll(elems) && Nesting(s) == NestingAll(elems);
  }

  lemma OptionalWorth(b: Block, isSelf: bool, inner: Option<Shape>)
    ensures Worth(Some(OptionalShape(b, [], isSelf, inner))) ==
            Gain(multiset{b} + OwnedOpt(inner),
                 if inner.None? && isSelf then 1 else NullSelfsOpt(inner),
                 if inner.Some? && isSelf then NestingOpt(inner) + 1 else NestingOpt(inner))
  {
    var s := OptionalShape(b, [], isSelf, inner);
    assert Owned(s) == multiset{b} + OwnedOpt(inner);
    assert NullSelfs(s) == if inner.None? && isSelf then 1 else NullSelfsOpt(inner);
    assert Nesting(s) == if inner.Some? && isSelf then NestingOpt(inner) + 1 else NestingOpt(inner);
  }

  lemma VariantWorth(b: Block, tag: int, inner: Option<Shape>)
    ensures Worth(Some(VariantShape(b, [], tag, inner))) == Plus(One(b), Worth(inner))
  {
    var s := VariantShape(b, [], tag, inner);
    assert Owned(s) == multiset{b} + OwnedOpt(inner);
    assert NullSelfs(s) == NullSelfsOpt(inner) && Nesting(s) == NestingOpt(inner);
  }

  /* ---- Sums that come up in the draws ---- */

  lemma StructSum(ptr: Block, blk: Block, fb: Block, fields: seq<Option<Shape>>)
    ensures Plus(Plus(Plus(One(ptr), One(blk)), One(fb)), WorthAll(fields)) ==
            Worth(Some(StructShape(blk, [], Some(ptr), fb, fields)))
    ensures Plus(Plus(One(blk), One(fb)), WorthAll(fields)) ==
            Worth(Some(StructShape(blk, [], None, fb, fields)))
  {
    hide OwnedAll, NullSelfsAll, NestingAll, Bag;
    StructWorth(blk, Some(ptr), fb, fields);
    StructWorth(blk, None, fb, fields);
    assert multiset{ptr} + multiset{blk} + multiset{fb} + OwnedAll(fields) ==
           OptBlock(Some(ptr)) + multiset{blk} + multiset{fb} + OwnedAll(fields);
    assert multiset{blk} + multiset{fb} + OwnedAll(fields) ==
           OptBlock(None) + multiset{blk} + multiset{fb} + OwnedAll(fields);
  }

  lemma LeafSum(buf: Block, blk: Block)
    ensures Plus(One(buf), One(blk)) == Worth(Some(TextShape(blk, [], Some(buf))))
    ensures Plus(One(buf), One(blk)) == Worth(Some(Scalar(blk, [], Some(buf))))
    ensures One(blk) == Worth(Some(Scalar(blk, [], None)))
  {
    hide Bag;
    LeafWorth(blk, Some(buf));
    LeafWorth(blk, None);
    assert multiset{buf} + multiset{blk} == OptBlock(Some(buf)) + multiset{blk};
    assert multiset{blk} == OptBlock(None) + multiset{blk};
  }

  lemma ManyPush(ps: seq<Block>, p: Block)
    ensures Many(ps + [p]) == Plus(Many(ps), One(p)) && Many([p]) == One(p) && Many([]) == NOTHING
  {
    Push(ps, p);
    assert [] + [p] == [p];
    assert Bag([p]) == Bag([]) + multiset{p} by { Push([], p); }
    assert Bag([p]) == multiset{p};
  }

  lemma OnePositive(p: Block)
    ensures One(p).nest >= 0 && NOTHING.nest >= 0
  {
  }

  lemma PlusNothing(g: Gain)
    ensures g.nest >= 0 ==> Plus(g, NOTHING) == g && Plus(NOTHING, g) == g
  {
    assert g.blocks + multiset{} == g.blocks == multiset{} + g.blocks;
  }

  /** One struct being drawn: its shapes so far, the drawn[] flags, its LET_ARR buffers. */
  ghost function Gains(fields: seq<Option<Shape>>, drawn: Block, bufs: seq<Block>): Gain {
    Plus(WorthAll(fields), Plus(One(drawn), Many(bufs)))
  }

  lemma GainsStart(n: nat, drawn: Block)
    ensures Gains(seq(n, _ => None), drawn, []) == One(drawn)
  {
    AllNone(n);
    ManyPush([], drawn);
    PlusNothing(One(drawn));
  }

  lemma GainsFill(fields: seq<Option<Shape>>, i: nat, v: Option<Shape>, drawn: Block, bufs: seq<Block>)
    requires i < |fields| && fields[i].None?
    ensures Plus(Gains(fields, drawn, bufs), Worth(v)) == Gains(fields[i := v], drawn, bufs)
  {
    hide WorthAll, Worth, Many, One;
    FillNone(fields, i, v);
    PlusSwap(WorthAll(fields), Plus(One(drawn), Many(bufs)), Worth(v));
  }

  lemma GainsBuf(fields: seq<Option<Shape>>, drawn: Block, bufs: seq<Block>, p: Block)
    ensures Plus(Gains(fields, drawn, bufs), One(p)) == Gains(fields, drawn, bufs + [p])
  {
    hide WorthAll, Worth, Many, One;
    ManyPush(bufs, p);
    PlusAssoc(WorthAll(fields), Plus(One(drawn), Many(bufs)), One(p));
    PlusAssoc(One(drawn), Many(bufs), One(p));
  }

  lemma PlusSwap(g: Gain, h: Gain, k: Gain)
    ensures Plus(Plus(g, h), k) == Plus(Plus(g, k), h)
  {
    assert g.blocks + h.blocks + k.blocks == g.blocks + k.blocks + h.blocks;
  }

  lemma PlusAssoc(g: Gain, h: Gain, k: Gain)
    ensures Plus(Plus(g, h), k) == Plus(g, Plus(h, k))
  {
    assert g.blocks + h.blocks + k.blocks == g.blocks + (h.blocks + k.blocks);
  }

  lemma GainsNest(fields: seq<Option<Shape>>, drawn: Block, bufs: seq<Block>)
    ensures Gains(fields, drawn, bufs).nest >= 0
  {
  }

  lemma DrewTracks(a: Snap, b: Snap, g: Gain, o: int)
    requires Drew(a, b, g, o)
    ensures a.cur.Rec? && b.cur.Rec? && Bag(b.cur.allocs) == Bag(a.cur.allocs) + g.blocks
  {
  }

  lemma ScalarWorth(v: Option<Shape>)
    requires v.Some? && v.value.Scalar?
    ensures Worth(v) == Gain(OwnedOpt(v), 0, 0)
  {
    assert NullSelfs(v.value) == Nesting(v.value) == 0;
  }

  lemma LengthFreed(a: Snap, b: Snap, c: Snap, v: Option<Shape>)
    requires Drew(a, b, Gain(OwnedOpt(v), 0, 0), 0) && Freed(b, c, true)
    requires c.cur.Rec? && Bag(c.cur.allocs) == Bag(a.cur.allocs)
    ensures Drew(a, c, NOTHING, 0)
  {
    hide Bag, OwnedOpt, Within;
    WithinThen(a, b, c);
    WithinKeeps(a, c);
    WithinKeeps(b, c);
    assert Bag(a.cur.allocs) == Bag(a.cur.allocs) + multiset{};
  }

  lemma NestOpt(v: Option<Shape>)
    ensures Worth(v).nest >= 0
  {
  }

  lemma TableNest(blk: Block, arr: Block, eb: Block)
    ensures Table(blk, arr, eb).nest >= 0
    ensures Table(blk, arr, eb) == Plus(Plus(One(blk), One(arr)), One(eb))
  {
  }

  lemma WorthAllNest(elems: seq<Option<Shape>>)
    ensures WorthAll(elems).nest >= 0
  {
  }

  lemma GainNest(t: Gain, elems: seq<Option<Shape>>)
    ensures Plus(t, WorthAll(elems)).nest >= 0
  {
  }

  /** The blocks of a buffer, in the order the buffer draw allocates them. */
  lemma BufferStart(a0: Snap, a1: Snap, b: Snap, arr: Block, blk: Block, eb: Block)
    requires Drew(a0, a1, NOTHING, 0)
    ensures Drew(a1, b, Plus(Plus(One(arr), One(blk)), One(eb)), 1) ==> Drew(a0, b, Table(blk, arr, eb), 1)
  {
    hide Bag, Within;
    if Drew(a1, b, Plus(Plus(One(arr), One(blk)), One(eb)), 1) {
      WithinThen(a0, a1, b);
      WithinKeeps(a0, b);
      WithinKeeps(a0, a1);
      assert multiset{arr} + multiset{blk} + multiset{eb} == multiset{blk} + multiset{arr} + multiset{eb};
      assert Bag(a1.cur.allocs) == Bag(a0.cur.allocs) + multiset{};
    }
  }

  lemma ChildWorth(v: Option<Shape>)
    ensures Child(false, v) == Worth(v)
  {
  }

  lemma DeeperWithin(a: Snap, b: Snap, d: int)
    requires Deeper(a, b, d)
    ensures Within(a, b)
  {
    hide Goes, SpansOpen;
    GoesHere(a.calls, a.cur.created, a.cur.maxDepth);
  }

  lemma DeeperDepth(a: Snap, b: Snap, d: int)
    requires Deeper(a, b, d)
    ensures b.cur.Rec? && a.cur.Rec? && b.cur.depth == a.cur.depth + d
  {
  }

  lemma NestPositive(g: Gain, fields: seq<Option<Shape>>)
    ensures Plus(g, WorthAll(fields)).nest >= 0
  {
  }

  /** `drawn` flags say which shapes exist: nothing is drawn over a shape already there. */
  predicate FlagsOk(fields: seq<Option<Shape>>, flags: seq<bool>) {
    |fields| == |flags| && forall g :: 0 <= g < |flags| && !flags[g] ==> fields[g].None?
  }

  lemma NoneWorth()
    ensures Worth(None) == NOTHING && WorthAll([]) == NOTHING
  {
    assert OwnedAll([]) == multiset{} && NullSelfsAll([]) == NestingAll([]) == 0;
    assert OwnedOpt(None) == multiset{};
  }

  lemma VariantSum(blk: Block, tag: int, inner: Option<Shape>)
    ensures Plus(One(blk), Worth(inner)) == Worth(Some(VariantShape(blk, [], tag, inner)))
    ensures Plus(Worth(inner), One(blk)) == Worth(Some(VariantShape(blk, [], tag, inner)))
  {
    VariantWorth(blk, tag, inner);
    assert OwnedOpt(inner) + multiset{blk} == multiset{blk} + OwnedOpt(inner);
  }

  /** The gain of a HEGEL_SELF or HEGEL_OPTIONAL slot's presence decision. */
  ghost function Presence(isSelf: bool, present: bool): Gain {
    Gain(multiset{}, if isSelf && !present then 1 else 0, 0)
  }

  ghost function Child(isSelf: bool, inner: Option<Shape>): Gain {
    Gain(OwnedOpt(inner), NullSelfsOpt(inner), NestingOpt(inner) + if isSelf then 1 else 0)
  }

  lemma OptionalSum(blk: Block, isSelf: bool, present: bool, inner: Option<Shape>)
    requires if present then isSelf ==> inner.Some? else inner.None?
    ensures var v := Some(OptionalShape(blk, [], isSelf, inner));
      Plus(Plus(One(blk), Presence(isSelf, present)), if present then Child(isSelf, inner) else NOTHING) == Worth(v)
  {
    OptionalWorth(blk, isSelf, inner);
    assert multiset{blk} + multiset{} + OwnedOpt(inner) == multiset{blk} + OwnedOpt(inner);
  }

  ghost predicate Deeper(a: Snap, b: Snap, d: int) {
    a.cur.Rec? && a.cur.depth + d >= 0 &&
    b == a.(cur := a.cur.(depth := a.cur.depth + d))
  }

  lemma SelfChild(a: Snap, a1: Snap, b1: Snap, b: Snap, inner: Option<Shape>)
    requires Deeper(a, a1, 1) && Drew(a1, b1, Worth(inner), 0) && Deeper(b1, b, -1)
    requires a.cur.depth + 1 < a.cur.maxDepth
    ensures Drew(a, b, Child(true, inner), 0)
  {
    hide Bag, Goes, SpansOpen, Within;
    DeeperWithin(a, a1, 1);
    DeeperWithin(b1, b, -1);
    WithinThen(a, a1, b1);
    WithinThen(a, b1, b);
    WithinKeeps(a, b);
  }

  lemma WithinKeeps(a: Snap, b: Snap)
    requires Within(a, b)
    ensures a.cur.Rec? && b.cur.Rec? && b.cur.maxDepth == a.cur.maxDepth
  {
  }

  lemma DrewDepth(a: Snap, b: Snap, g: Gain, o: int)
    requires Drew(a, b, g, o)
    ensures a.cur.Rec? && b.cur.Rec? && b.cur.depth == a.cur.depth && b.cur.maxDepth == a.cur.maxDepth
  {
  }

  ghost function Table(blk: Block, arr: Block, eb: Block): Gain { Plus(Plus(One(blk), One(arr)), One(eb)) }

  lemma ArraySum(blk: Block, arr: Block, eb: Block, elems: seq<Option<Shape>>)
    ensures Plus(Table(blk, arr, eb), WorthAll(elems)) == Worth(Some(ArrayShape(blk, [], Some(arr), eb, elems)))
  {
    hide OwnedAll, NullSelfsAll, NestingAll, Bag;
    ArrayWorth(blk, Some(arr), eb, elems);
    assert multiset{blk} + multiset{arr} + multiset{eb} + OwnedAll(elems) ==
           multiset{blk} + OptBlock(Some(arr)) + multiset{eb} + OwnedAll(elems);
  }

  lemma ListStart(t: Gain)
    ensures t.nest >= 0 ==> Plus(t, WorthAll([])) == t
  {
    NoneWorth();
    PlusNothing(t);
  }

  lemma ListPush(t: Gain, elems: seq<Option<Shape>>, v: Option<Shape>)
    ensures Plus(Plus(t, WorthAll(elems)), Worth(v)) == Plus(t, WorthAll(elems + [v]))
  {
    hide WorthAll, Worth;
    Appended(elems, v);
    PlusAssoc(t, WorthAll(elems), Worth(v));
  }

  /** A bigger table in the place of the old one. */
  lemma Regroup(blk: Block, arr: Block, eb: Block, arr': Block, eb': Block, w: Gain)
    ensures Plus(Plus(Table(blk, arr, eb), w), One(arr')) == Plus(Plus(Table(blk, arr', eb), w), One(arr))
    ensures Plus(Plus(Table(blk, arr, eb), w), One(eb')) == Plus(Plus(Table(blk, arr, eb'), w), One(eb))
    ensures w.nest >= 0 ==> Plus(Table(blk, arr, eb), w).nest >= 0
  {
    assert multiset{blk} + multiset{arr} + multiset{eb} + w.blocks + multiset{arr'} ==
           multiset{blk} + multiset{arr'} + multiset{eb} + w.blocks + multiset{arr};
    assert multiset{blk} + multiset{arr} + multiset{eb} + w.blocks + multiset{eb'} ==
           multiset{blk} + multiset{arr} + multiset{eb'} + w.blocks + multiset{eb};
  }

  /** The schema a HEGEL_DEPENDS callback built goes with the shape it described. */
  lemma SchemaSum(ps: seq<Block>, v: Shape)
    requires v.schemaBlks == []
    ensures Plus(Many(ps), Worth(Some(v))) == Worth(Some(v.(schemaBlks := ps)))
  {
    hide Owned, NullSelfs, Nesting, Bag;
    var w := v.(schemaBlks := ps);
    CountsSame(v, ps);
    SchemaOwned(ps, v);
    assert Worth(Some(v)).nest >= 0;
    assert OwnedOpt(Some(v)) == Owned(v) && OwnedOpt(Some(w)) == Owned(w);
    assert NullSelfsOpt(Some(v)) == NullSelfs(v) && NullSelfsOpt(Some(w)) == NullSelfs(w);
    assert NestingOpt(Some(v)) == Nesting(v) && NestingOpt(Some(w)) == Nesting(w);
  }

  lemma SchemaOwned(ps: seq<Block>, v: Shape)
    requires v.schemaBlks == []
    ensures Bag(ps) + Owned(v) == Owned(v.(schemaBlks := ps))
  {
    hide PartsOwned, Bag;
    PartsSame(v, ps);
    var parts := PartsOwned(v);
    NoBlocks();
    var w := v.(schemaBlks := ps);
    assert Owned(v) == multiset{v.blk} + Bag([]) + parts;
    assert Owned(w) == multiset{v.blk} + Bag(ps) + parts;
  }

  lemma CountsSame(v: Shape, ps: seq<Block>)
    ensures NullSelfs(v.(schemaBlks := ps)) == NullSelfs(v) && Nesting(v.(schemaBlks := ps)) == Nesting(v)
  {
  }

  lemma PartsSame(v: Shape, ps: seq<Block>)
    ensures PartsOwned(v.(schemaBlks := ps)) == PartsOwned(v)
  {
  }

  /* ---- A shape mirrors the schema it was drawn from ---- */

  /** The depth an element of an array is drawn at, in place or not. */
  function ElemDepth(inPlace: bool, elem: Schema, d: int): int { if inPlace == elem.Struct? then d else d - 1 }

  /** The depth the struct of a case is drawn at: a case drawn in place leaves it as it is. */
  function CaseDepth(s: Schema, d: int): int { if s.Union? then d + 1 else d - 1 }

  /** `t` is what HEGEL_SELF stands for; a struct owns its memory exactly when it is boxed;
      `d` is the depth left, and a nullable slot other than a HEGEL_SELF has no child when it is 0. */
  ghost predicate Mirrors(s: Schema, t: Schema, sh: Shape, boxed: bool, d: int)
    decreases sh, s
  {
    match s
    case Text => sh.TextShape? && sh.owned.Some?
    case Regex => sh.TextShape? && sh.owned.Some?
    case OptionalPtr(inner) =>
      sh.OptionalShape? && sh.isSelf == inner.Self? &&
      (sh.inner.Some? ==> (inner.Self? || d != 0) && Mirrors(if inner.Self? then t else inner, t, sh.inner.value, true, d - 1))
    case ArrayInline(elem, _, lo, hi, _) =>
      sh.ArrayShape? && sh.owned.Some? && lo <= |sh.elems| <= hi &&
      forall e <- sh.elems :: e.Some? && Mirrors(elem, t, e.value, false, ElemDepth(true, elem, d))
    case Struct(_, _, children, _) =>
      sh.StructShape? && sh.owned.Some? == boxed && |sh.fields| == |children| &&
      forall i :: 0 <= i < |children| ==>
        if Placeless(children[i]) then sh.fields[i].None?
        else sh.fields[i].Some? && Mirrors(children[i], t, sh.fields[i].value, false, if boxed then d else d - 1)
    case Union(_, cases, _, _) => sh.VariantShape? && 0 <= sh.tag < |cases| && sh.inner.Some? &&
        Mirrors(cases[sh.tag], t, sh.inner.value, false, d + 1)
    case Variant(cases) => sh.VariantShape? && 0 <= sh.tag < |cases| && sh.inner.Some? &&
        Mirrors(cases[sh.tag], t, sh.inner.value, true, d - 1)
    case OneOfStruct(cases) => sh.VariantShape? && 0 <= sh.tag < |cases| && sh.inner.Some? &&
        Mirrors(cases[sh.tag], t, sh.inner.value, true, d - 1)
    case ArrOf(length, elem) =>
      sh.ArrayShape? && sh.owned.Some? && (length.EngineLen? ==> length.lo <= |sh.elems| <= length.hi) &&
      forall e <- sh.elems :: e.Some? && Mirrors(elem, t, e.value, elem.Struct?, ElemDepth(false, elem, d))
    case LenPrefixed(_, _) => sh.ArrayShape? && sh.owned.Some? && sh.elems != [] && forall e <- sh.elems :: e.Some? && e.value.Scalar?
    case Terminated(_, _) => sh.ArrayShape? && sh.owned.Some? && sh.elems != [] && forall e <- sh.elems :: e.Some? && e.value.Scalar?
    case Depends(_, _, produced) => exists c <- produced :: Mirrors(c, t, sh, false, d)
    case Self => false
    case Let(_) => false
    case LetArr(_, _) => false
    case EngineLen(_, _) => false
    case _ => sh.Scalar?
  }

  /** Entries that leave no shape in their struct: bindings, and a one-of that cannot be a field. */
  predicate Placeless(c: Schema) { c.Let? || c.LetArr? || c.OneOfStruct? }

  ghost predicate FieldMirrors(c: Schema, t: Schema, o: Option<Shape>, d: int) {
    if Placeless(c) then o.None? else o.Some? && Mirrors(c, t, o.value, false, d)
  }

  ghost predicate AllMirror(elem: Schema, t: Schema, es: seq<Option<Shape>>, boxed: bool, d: int) {
    forall e <- es :: e.Some? && Mirrors(elem, t, e.value, boxed, d)
  }

  ghost predicate FieldsMirror(cs: seq<Schema>, t: Schema, fields: seq<Option<Shape>>, d: int) {
    |fields| == |cs| && forall i :: 0 <= i < |cs| ==> FieldMirrors(cs[i], t, fields[i], d)
  }

  predicate Leaves(es: seq<Option<Shape>>) { forall e <- es :: e.Some? && e.value.Scalar? }

  /** What has been drawn so far: positional entries before f, and derived ones that are flagged. */
  ghost predicate PartlyMirror(cs: seq<Schema>, t: Schema, fields: seq<Option<Shape>>, flags: seq<bool>, f: nat, d: int) {
    |fields| == |flags| == |cs| && f <= |cs| &&
    forall i :: 0 <= i < |cs| ==>
      if cs[i].Derived? then (flags[i] ==> fields[i].Some? && fields[i].value.Scalar?)
      else if i < f then FieldMirrors(cs[i], t, fields[i], d) else fields[i].None?
  }

  lemma PartlyStart(cs: seq<Schema>, t: Schema, fields: seq<Option<Shape>>, flags: seq<bool>, d: int)
    requires |fields| == |flags| == |cs| && forall i :: 0 <= i < |cs| ==> fields[i].None? && !flags[i]
    ensures PartlyMirror(cs, t, fields, flags, 0, d)
  {
  }

  lemma PartlyNext(cs: seq<Schema>, t: Schema, fields: seq<Option<Shape>>, flags: seq<bool>, f: nat, v: Option<Shape>, d: int)
    requires PartlyMirror(cs, t, fields, flags, f, d) && f < |cs|
    ensures cs[f].Derived? ==> PartlyMirror(cs, t, fields, flags, f + 1, d)
    ensures cs[f].Let? || cs[f].LetArr? ==> PartlyMirror(cs, t, fields, flags[f := true], f + 1, d)
    ensures !cs[f].Derived? && FieldMirrors(cs[f], t, v, d) ==> PartlyMirror(cs, t, fields[f := v], flags[f := true], f + 1, d)
  {
    hide Mirrors;
  }

  lemma PartlyDerived(cs: seq<Schema>, t: Schema, fields: seq<Option<Shape>>, flags: seq<bool>, f: nat, g: nat, v: Option<Shape>, d: int)
    requires PartlyMirror(cs, t, fields, flags, f, d) && g < |cs| && cs[g].Derived? && v.Some? && v.value.Scalar?
    ensures PartlyMirror(cs, t, fields[g := v], flags[g := true], f, d)
  {
    hide Mirrors;
  }

  lemma PartlyAll(cs: seq<Schema>, t: Schema, fields: seq<Option<Shape>>, flags: seq<bool>, d: int)
    requires PartlyMirror(cs, t, fields, flags, |cs|, d) && forall i :: 0 <= i < |cs| && cs[i].Derived? ==> flags[i]
    ensures FieldsMirror(cs, t, fields, d)
  {
    forall i | 0 <= i < |cs| ensures FieldMirrors(cs[i], t, fields[i], d) {
      if cs[i].Derived? { assert Mirrors(cs[i], t, fields[i].value, false, d); }
    }
  }

  lemma StructMirrors(s: Schema, t: Schema, sh: Shape, boxed: bool, d: int)
    requires s.Struct? && sh.StructShape? && sh.owned.Some? == boxed
    requires FieldsMirror(s.children, t, sh.fields, if boxed then d else d - 1)
    ensures Mirrors(s, t, sh, boxed, d)
  {
    assert forall i :: 0 <= i < |s.children| ==> FieldMirrors(s.children[i], t, sh.fields[i], if boxed then d else d - 1);
  }

  lemma AllPush(elem: Schema, t: Schema, es: seq<Option<Shape>>, boxed: bool, v: Option<Shape>, d: int)
    requires AllMirror(elem, t, es, boxed, d) && v.Some? && Mirrors(elem, t, v.value, boxed, d)
    ensures AllMirror(elem, t, es + [v], boxed, d)
  {
    hide Mirrors;
  }

  lemma AllNothing(elem: Schema, t: Schema, boxed: bool, d: int)
    ensures AllMirror(elem, t, [], boxed, d)
  {
  }

  /** What the shape owns besides does not matter. */
  lemma {:induction false} MirrorsWith(s: Schema, t: Schema, sh: Shape, boxed: bool, ps: seq<Block>, d: int)
    requires Mirrors(s, t, sh, boxed, d)
    ensures Mirrors(s, t, sh.(schemaBlks := ps), boxed, d)
    decreases s
  {
    if s.Depends? {
      var c :| c in s.produced && Mirrors(c, t, sh, false, d);
      MirrorsWith(c, t, sh, false, ps, d);
    }
  }

  /** The kinds that draw one number mirror as a scalar. */
  lemma ScalarMirrors(s: Schema, t: Schema, sh: Shape, boxed: bool, d: int)
    requires (IntSource(s) || s.Float? || s.Derived?) && sh.Scalar?
    ensures Mirrors(s, t, sh, boxed, d)
  {
  }

  lemma TextMirrors(s: Schema, t: Schema, sh: Shape, boxed: bool, d: int)
    requires (s.Text? || s.Regex?) && sh.TextShape? && sh.owned.Some?
    ensures Mirrors(s, t, sh, boxed, d)
  {
  }

  lemma OptionalMirrors(s: Schema, t: Schema, blk: Block, inner: Option<Shape>, boxed: bool, d: int)
    requires s.OptionalPtr?
    requires inner.Some? ==> (s.inner.Self? || d != 0) && Mirrors(if s.inner.Self? then t else s.inner, t, inner.value, true, d - 1)
    ensures Mirrors(s, t, OptionalShape(blk, [], s.inner.Self?, inner), boxed, d)
  {
  }

  lemma VariantMirrors(s: Schema, t: Schema, blk: Block, tag: int, inner: Option<Shape>, boxed: bool, d: int)
    requires (s.Union? || s.Variant? || s.OneOfStruct?) && 0 <= tag < |s.cases| && inner.Some?
    requires Mirrors(s.cases[tag], t, inner.value, !s.Union?, CaseDepth(s, d))
    ensures Mirrors(s, t, VariantShape(blk, [], tag, inner), boxed, d)
  {
  }

  /** A one-of's slot is a pointer wherever it sits. */
  lemma OneOfAnyway(s: Schema, t: Schema, sh: Shape, boxed: bool, d: int)
    requires s.OneOfStruct? && Mirrors(s, t, sh, true, d)
    ensures Mirrors(s, t, sh, boxed, d)
  {
  }

  lemma ListMirrors(s: Schema, t: Schema, sh: Shape, boxed: bool, d: int)
    requires s.ArrayInline? || s.ArrOf?
    requires sh.ArrayShape? && sh.owned.Some?
    requires s.ArrayInline? ==> s.minLen <= |sh.elems| <= s.maxLen && AllMirror(s.elem, t, sh.elems, false, ElemDepth(true, s.elem, d))
    requires s.ArrOf? ==> AllMirror(s.elem, t, sh.elems, s.elem.Struct?, ElemDepth(false, s.elem, d)) &&
                          (s.length.EngineLen? ==> s.length.lo <= |sh.elems| <= s.length.hi)
    ensures Mirrors(s, t, sh, boxed, d)
  {
  }

  lemma BufferMirrors(s: Schema, t: Schema, sh: Shape, boxed: bool, d: int)
    requires s.LenPrefixed? || s.Terminated?
    requires sh.ArrayShape? && sh.owned.Some? && sh.elems != [] && Leaves(sh.elems)
    ensures Mirrors(s, t, sh, boxed, d)
  {
  }

  lemma DependsMirrors(s: Schema, t: Schema, i: nat, sh: Shape, ps: seq<Block>, boxed: bool, d: int)
    requires s.Depends? && i < |s.produced| && Mirrors(s.produced[i], t, sh, false, d)
    ensures Mirrors(s, t, sh.(schemaBlks := ps), boxed, d)
  {
    MirrorsWith(s.produced[i], t, sh, false, ps, d);
  }

  lemma FieldIs(s: Schema, t: Schema, v: Option<Shape>, d: int)
    requires !Placeless(s) && v.Some? && Mirrors(s, t, v.value, false, d)
    ensures FieldMirrors(s, t, v, d)
  {
  }

  lemma NoField(s: Schema, t: Schema, v: Option<Shape>, d: int)
    requires Placeless(s) && v.None?
    ensures FieldMirrors(s, t, v, d)
  {
  }

  lemma FieldGives(s: Schema, t: Schema, v: Option<Shape>, d: int)
    requires FieldMirrors(s, t, v, d) && !Placeless(s)
    ensures v.Some? && Mirrors(s, t, v.value, false, d)
  {
  }

  /* ---- What the engine was asked for a shape ---- */

  /** The first call opened a span, and the second was this one, with this answer. */
  predicate AskedAt(p: Log, q: Log, kind: Kind, v: int) {
    p < q && |q| >= |p| + 2 && q[|p|].kind == OpenSpan && q[|p| + 1] == Asked(kind, Value(v))
  }

  /** Everything was asked inside one span, which is kept. */
  predicate InSpan(p: Log, q: Log) {
    p < q && |q| >= |p| + 2 && q[|p|].kind == OpenSpan && q[|q|-1].kind == CloseSpan(false)
  }

  lemma SpanDone(p: Log, p1: Log, q: Log, r: Log)
    requires p < p1 && |p1| == |p| + 1 && p1[|p|].kind == OpenSpan && p1 <= q
    requires q < r && |r| == |q| + 1 && r[|q|].kind == CloseSpan(false)
    ensures InSpan(p, r)
  {
  }

  lemma AskedNow(p: Log, p1: Log, q: Log, kind: Kind, v: int)
    requires p < p1 && |p1| == |p| + 1 && p1[|p|].kind == OpenSpan && q == p1 + [Asked(kind, Value(v))]
    ensures AskedAt(p, q, kind, v)
  {
  }

  lemma AskedStays(p: Log, q: Log, r: Log, kind: Kind, v: int)
    requires AskedAt(p, q, kind, v) && q <= r
    ensures AskedAt(p, r, kind, v)
  {
  }

  /** Call k decided whether the nullable slot has a child: for HEGEL_SELF the branch call one
      level down, after the making of a handle if there was none, and then a leaf call unless
      there is a child; for the others a drawn 0 / 1. */
  predicate PresenceAt(p: Log, q: Log, isSelf: bool, c: RecChain, k: nat) {
    && p < q && |p| < k < |q| && q[|p|].kind == OpenSpan && q[k].answer.Value?
    && (if isSelf then
          c.Rec? && k == |p| + (if c.created then 1 else 2) && q[k].kind == Branch(c.depth + 1) &&
          (!c.created ==> q[|p| + 1].kind == NewRec(c.maxDepth)) &&
          (q[k].answer.v == 0 ==> k + 1 < |q| && q[k + 1] == Asked(Leaf, Value(0)))
        else k == |p| + 1 && q[k].kind == Int(0, 1))
  }

  /** The nullable slot's deciding call was answered so. */
  ghost predicate OptionalCalls(p: Log, q: Log, isSelf: bool, c: RecChain, present: bool) {
    exists k: nat :: PresenceAt(p, q, isSelf, c, k) && (present <==> q[k].answer.v != 0)
  }

  lemma DecisionStays(p: Log, q: Log, r: Log, isSelf: bool, c: RecChain, present: bool)
    requires OptionalCalls(p, q, isSelf, c, present) && q <= r
    ensures OptionalCalls(p, r, isSelf, c, present)
  {
    var k: nat :| PresenceAt(p, q, isSelf, c, k) && (present <==> q[k].answer.v != 0);
    assert PresenceAt(p, r, isSelf, c, k);
  }

  /** The calls that decide about a nullable slot. */
  ghost predicate PresenceCalls(p: Log, q: Log, c: RecChain, isSelf: bool, present: bool)
    requires c.Rec?
  {
    if isSelf then SelfCalls(p, q, c, present, true)
    else
      p < q && |q| == |p| + 1 && q[|p|].kind == Int(0, 1) && q[|p|].answer.Value? && (present <==> q[|p|].answer.v != 0)
  }

  lemma PresenceDecided(a0: Snap, b0: Snap, b1: Snap, isSelf: bool, present: bool, q: Log) returns (k: nat)
    requires a0.cur.Rec? && b0.cur.Rec? && b0.cur.created == a0.cur.created && b0.cur.depth == a0.cur.depth &&
        b0.cur.maxDepth == a0.cur.maxDepth
    requires a0.calls < b0.calls && |b0.calls| == |a0.calls| + 1 && b0.calls[|a0.calls|].kind == OpenSpan
    requires PresenceCalls(b0.calls, b1.calls, b0.cur, isSelf, present) && b1.calls <= q
    ensures PresenceAt(a0.calls, q, isSelf, a0.cur, k) && (present <==> q[k].answer.v != 0)
  {
    k := |b0.calls| + if isSelf && !b0.cur.created then 1 else 0;
  }

  /** Within an attempt only lists made meanwhile are asked about. */
  predicate Asking(p: Log, q: Log) { forall k :: |p| <= k < |q| && q[k].kind.More? ==> q[k].kind.list >= |p| }

  lemma WithinAsks(a: Snap)
    ensures forall b :: Within(a, b) ==> a.calls <= b.calls && Asking(a.calls, b.calls)
  {
  }

  lemma DrewGrows(a: Snap, b: Snap, g: Gain, o: int)
    requires Drew(a, b, g, o)
    ensures a.calls <= b.calls
  {
  }

  /** A list decided element by element: made by the second call, in [lo, hi]; the engine then
      answered 1 for each of its n elements, and 0. */
  predicate ListCalls(p: Log, q: Log, lo: int, hi: int, n: nat) {
    var list := |p| + 1;
    p < q && list < |q| && q[|p|].kind == OpenSpan && q[list].kind == NewList(lo, hi) &&
    Mores(q, list) == Mores(p, list) + Ones(n) + [0]
  }

  /** The list's span and the list were opened. */
  predicate ListOpened(p: Log, q: Log, lo: int, hi: int) {
    p < q && |q| == |p| + 2 && q[|p|].kind == OpenSpan && q[|p| + 1].kind == NewList(lo, hi)
  }

  /** n elements were granted, and then no more. */
  predicate ListAsked(p: Log, q: Log, list: nat, n: nat) { p <= q && Mores(q, list) == Mores(p, list) + Ones(n) + [0] }

  /** Two more calls, about nothing of the kind. */
  predicate ListClosed(p: Log, q: Log) { p < q && |q| == |p| + 2 && !q[|p|].kind.More? && !q[|p| + 1].kind.More? }

  lemma ListDone(p: Log, p2: Log, q: Log, q2: Log, lo: int, hi: int, n: nat)
    requires ListOpened(p, p2, lo, hi) && ListAsked(p2, q, |p| + 1, n) && ListClosed(q, q2)
    ensures ListCalls(p, q2, lo, hi, n)
  {
    hide Mores, Ones;
    var list := |p| + 1;
    OneMore(p, p2[..list], list);
    OneMore(p2[..list], p2, list);
    OneMore(q, q2[..|q| + 1], list);
    OneMore(q2[..|q| + 1], q2, list);
    Prefixes(p2, q, q2, q2);
  }

  lemma Prefixes(p: Log, q: Log, q1: Log, q2: Log)
    requires p <= q <= q1 <= q2
    ensures p <= q2 && forall i :: 0 <= i < |p| ==> q2[i] == p[i]
  {
  }

  /** The engine was asked for one more element of the draw's own list. */
  lemma ThenMore(a: Snap, b: Snap, c: Snap, g: Gain, o: int, list: nat)
    requires Drew(a, b, g, o) && |a.calls| <= list
    requires c == b.(calls := c.calls) && b.calls < c.calls && |c.calls| == |b.calls| + 1 && c.calls[|b.calls|].kind == More(list)
    ensures Drew(a, c, g, o)
  {
    hide Marks, SpansOpen, Bag;
    var e := c.calls[|b.calls|];
    assert c.calls == b.calls + [e];
    Pushed(b.calls, e);
  }

  /* ---- The recursion protocol of a top-level draw ---- */

  /** The marks since p. */
  function Since(p: Log, q: Log): seq<Mark> { if Marks(p) <= Marks(q) then Marks(q)[|Marks(p)|..] else [] }

  predicate UnsettledSince(p: Log, q: Log, depth: nat) { Marks(p) <= Marks(q) && Unsettled(Since(p, q), depth) }

  predicate SettledSince(p: Log, q: Log, depth: nat) { Marks(p) <= Marks(q) && Settled(Since(p, q), depth) }

  predicate FreedSince(p: Log, q: Log, depth: nat) { Marks(p) <= Marks(q) && SettledAndFreed(Since(p, q), depth) }

  lemma AttemptMarks(p: Log, q: Log, r: Log, had: bool, has: bool, depth: nat)
    requires Goes(q, r, had, has, depth)
    requires if had then UnsettledSince(p, q, depth) else Marks(q) == Marks(p)
    ensures if has then UnsettledSince(p, r, depth) else Marks(r) == Marks(p)
  {
    hide Marks;
    if has && !had { assert Since(p, r) == [Made(depth)]; }
    if has && had { assert Marks(r) == Marks(q); }
  }

  lemma FreedMarks(p: Log, q: Log, r: Log, depth: nat)
    requires SettledSince(p, q, depth) && Marks(q) != Marks(p) && Marks(r) == Marks(q) + [HandleFreed]
    ensures FreedSince(p, r, depth)
  {
    hide Marks;
    var ms := Since(p, q);
    assert Since(p, r) == ms + [HandleFreed];
    assert Marks(q) == Marks(p) + ms;
  }

  lemma NoMarks(p: Log, q: Log, depth: nat)
    requires Marks(q) == Marks(p)
    ensures FreedSince(p, q, depth)
  {
    hide Marks;
  }

  lemma VerdictMarks(p: Log, q: Log, r: Log, depth: nat)
    requires UnsettledSince(p, q, depth)
    ensures Marks(r) == Marks(q) + [Kept] ==> SettledSince(p, r, depth)
    ensures Marks(r) == Marks(q) + [Dropped] || Marks(r) == Marks(q) + [Retried] ==> UnsettledSince(p, r, depth)
  {
    hide Marks;
    var ms := Since(p, q);
    forall m | Marks(r) == Marks(q) + [m] ensures Since(p, r) == ms + [m] {}
  }

  /** n spans were closed, with discard set. */
  predicate Discarded(p: Log, q: Log, n: nat) {
    p <= q && |q| == |p| + n && forall k :: |p| <= k < |q| ==> q[k].kind == CloseSpan(true) && q[k].answer.Value?
  }

  lemma {:induction false} DiscardedMeans(p: Log, q: Log, n: nat)
    requires Discarded(p, q, n)
    ensures SpansOpen(q) == SpansOpen(p) - n && Marks(q) == Marks(p)
    decreases n
  {
    if n > 0 {
      DiscardedMeans(p, q[..|q|-1], n - 1);
      assert MarkOf(q[|q|-1]) == [] && SpanOf(q[|q|-1]) == -1;
    } else {
      assert p == q;
    }
  }

  /** What a top-level draw gives. */
  ghost predicate RootMirrors(s: Schema, t: Schema, v: Option<Shape>, asStruct: bool, d: int) {
    if asStruct then v.Some? && Mirrors(s, t, v.value, true, d) else FieldMirrors(s, t, v, d)
  }

  /**
    The state one process draws with: the heap, the record chain of running top-level
    draws, and the engine's open spans.  `answers` is an arbitrary engine (and arbitrary
    program data, where a drawn value decides how many allocations follow); only the
    stated contract limits it: lengths stay in their bounds (also one decided element by
    element), no branch at or past maxDepth, at most SELF_MAX_LEAVES accepted leaves an
    attempt, finitely many attempts.
   */
  class DrawState {
    const answers: nat -> Answer
    const grantedAttempts: nat
    const target: Schema             // what every HEGEL_SELF resolves to
    var tick: nat
    var cur: RecChain                // hegel__rec_cur
    var live: multiset<Block>        // allocated and not freed
    ghost var callers: multiset<Block>  // the part of `live` no record tracks
    ghost var calls: Log             // what the engine was asked so far
    ghost var limit: nat             // above every live address

    ghost predicate Valid() reads `cur, `live, `callers, `limit {
      HeapOk(live, callers, Held(cur), limit)
    }

    /** What the running draw tracks. */
    ghost function Mine(): multiset<Block>
      reads `cur requires cur.Rec?
    { Bag(cur.allocs) }

    ghost function Now(): Snap reads `cur, `callers, `calls { Snap(cur, callers, calls) }

    /** How much deeper HEGEL_SELF may still nest. */
    ghost function Room(): int reads `cur { if cur.Rec? then cur.maxDepth - cur.depth else 0 }

    /** Room and open spans: what a call that returns leaves as it was. */
    ghost function Level(): (int, int) reads `cur { (Room(), if cur.Rec? then cur.openSpans else 0) }

    /** The record differs from c0 at most in its table and tracked blocks. */
    ghost predicate SameButTable(c0: RecChain) reads `cur {
      c0.Rec? && cur.Rec? && cur == c0.(table := cur.table, cap := cur.cap, allocs := cur.allocs)
    }

    constructor (answers: nat -> Answer, grantedAttempts: nat, target: Schema)
      ensures Valid() && cur.Null? && live == multiset{} && calls == []
      ensures this.target == target
    {
      this.answers, this.grantedAttempts, this.target := answers, grantedAttempts, target;
      tick, limit, cur, calls := 0, 0, Null, [];
      live, callers := multiset{}, multiset{};
    }

    /* ---- Heap and trackers ---- */

    /** malloc of the C library: any address that is not live, freed before or not. */
    method RawAlloc() returns (p: Block)
      requires Valid()
      modifies `limit, `live, `callers
      ensures Valid() && p !in old(live)
      ensures callers == old(callers) + multiset{p}
    {
      hide HeapOk, Held;
      HeapAlloc(live, callers, Held(cur), limit);
      p :| p !in live;
      limit := Max(limit, p + 1);
      live, callers := live + multiset{p}, callers + multiset{p};
    }

    /** free (p) of the C library: only a live block may be freed, and only once. */
    method RawFree(p: Block)
      requires Valid() && p in callers
      modifies `live, `callers
      ensures Valid() && callers + multiset{p} == old(callers)
    {
      hide HeapOk, Held;
      HeapFree(live, callers, Held(cur), limit, p);
      assert p in live;
      live, callers := live - multiset{p}, callers - multiset{p};
    }

    /** hegel__rec_track: record p, doubling the table when it is full. */
    method Track(p: Block)
      requires Valid() && p in callers
      modifies `cur, `live, `callers, `limit
      ensures Valid()
      ensures old(cur).Null? ==> cur == old(cur) && callers == old(callers) && live == old(live)
      ensures old(cur).Rec? ==> SameButTable(old(cur)) && callers + multiset{p} == old(callers) &&
                                Mine() == Bag(old(cur).allocs) + multiset{p}
    {
      hide HeapOk, Held, Bag;
      if cur.Null? { return; }
      if |cur.allocs| == cur.cap { GrowTable(); }
      HeapTrack(live, callers, cur, limit, p);
      cur := cur.(allocs := cur.allocs + [p]);
      callers := callers - multiset{p};
    }

    method GrowTable()
      requires Valid() && cur.Rec?
      modifies `cur, `live, `callers, `limit
      ensures Valid() && SameButTable(old(cur)) && cur.allocs == old(cur).allocs
      ensures callers == old(callers)
    {
      hide HeapOk, Held, Bag;
      var bigger := RawAlloc();
      var was := cur.table;
      var cap := if cur.cap > 0 then 2 * cur.cap else 64;
      HeapRetable(live, old(callers), cur, limit, bigger, cap);
      cur := cur.(table := Some(bigger), cap := cap);
      callers := old(callers);
      if was.Some? {
        callers := callers + multiset{was.value};
        RawFree(was.value);
        Cancel(callers, old(callers), was.value);
      }
    }

    /** hegel__rec_untrack: the last slot fills the hole. */
    method Untrack(p: Block)
      requires Valid()
      modifies `cur, `callers
      ensures Valid()
      ensures old(cur).Rec? && p in old(cur).allocs ==>
                SameButTable(old(cur)) && Mine() + multiset{p} == Bag(old(cur).allocs) &&
                callers == old(callers) + multiset{p}
      ensures old(cur).Null? || p !in old(cur).allocs ==> cur == old(cur) && callers == old(callers)
    {
      hide HeapOk, Held, Bag;
      if cur.Null? { return; }
      var i := |cur.allocs|;
      while i > 0
        invariant 0 <= i <= |cur.allocs| && cur == old(cur) && callers == old(callers)
        invariant p !in cur.allocs[i..]
      {
        i := i - 1;
        if cur.allocs[i] == p {
          HeapUntrack(live, callers, cur, limit, i);
          var last := |cur.allocs| - 1;
          cur := cur.(allocs := cur.allocs[i := cur.allocs[last]][..last]);
          callers := callers + multiset{p};
          return;
        }
      }
    }

    /** The calloc / malloc of the draw code: allocate, then track. */
    method Alloc() returns (p: Block)
      requires Valid() && cur.Rec?
      modifies `cur, `live, `callers, `limit
      ensures Valid() && Drew(old(Now()), Now(), One(p), 0)
      ensures cur.Rec? && Level() == old(Level()) && SameButTable(old(cur))
    {
      hide HeapOk, Held, Bag;
      p := RawAlloc();
      Track(p);
      Cancel(callers, old(callers), p);
    }

    /** Where a block about to be freed is accounted for. */
    ghost function Pool(mine: bool): multiset<Block>
      reads `cur, `callers
    { if mine && cur.Rec? then Bag(cur.allocs) else callers }

    /** The free of the draw code: untrack, then free. */
    method Free(p: Block, ghost mine: bool, ghost rest: multiset<Block>)
      requires Valid() && (mine ==> cur.Rec?) && Pool(mine) == rest + multiset{p}
      modifies `cur, `live, `callers
      ensures Valid() && (mine ==> cur.Rec?) && Level() == old(Level()) && Pool(mine) == rest
      ensures Freed(old(Now()), Now(), mine)
    {
      hide HeapOk, Held, Bag;
      assert p in Pool(mine);
      if mine {
        Member(cur.allocs, p);
      } else if cur.Rec? {
        HeapApart(live, callers, cur, limit, p);
      }
      Untrack(p);
      RawFree(p);
      if mine { Cancel(callers, old(callers), p); }
      Cancel(Pool(mine), rest, p);
    }

    method FreeAll(ps: seq<Block>, ghost mine: bool, ghost rest: multiset<Block>)
      requires Valid() && (mine ==> cur.Rec?) && Pool(mine) == rest + Bag(ps)
      modifies `cur, `live, `callers
      ensures Valid() && (mine ==> cur.Rec?) && Level() == old(Level()) && Pool(mine) == rest
      ensures Freed(old(Now()), Now(), mine)
    {
      hide HeapOk, Held, Valid, Pool, Freed;
      FreedHere(Now(), mine);
      var n := |ps|;
      assert ps[..n] == ps;
      while n > 0
        invariant 0 <= n <= |ps|
        invariant Valid() && (mine ==> cur.Rec?) && Level() == old(Level()) && Pool(mine) == rest + Bag(ps[..n])
        invariant Freed(old(Now()), Now(), mine)
      {
        ghost var b := Now();
        n := n - 1;
        assert ps[..n+1][..n] == ps[..n];
        assert rest + Bag(ps[..n+1]) == rest + Bag(ps[..n]) + multiset{ps[n]};
        Free(ps[n], mine, rest + Bag(ps[..n]));
        FreedThen(old(Now()), b, Now(), mine);
      }
    }

    /** hegel_shape_free: children first, then what the node holds, then the node. */
    method ShapeFree(o: Option<Shape>, ghost mine: bool, ghost rest: multiset<Block>)
      requires Valid() && (mine ==> cur.Rec?) && Pool(mine) == rest + OwnedOpt(o)
      modifies `cur, `live, `callers
      ensures Valid() && (mine ==> cur.Rec?) && Level() == old(Level()) && Pool(mine) == rest
      ensures Freed(old(Now()), Now(), mine)
      decreases o
    {
      hide HeapOk, Held, Valid, Pool, Freed, Bag, OwnedAll;
      FreedHere(Now(), mine);
      if o.None? { return; }
      var s := o.value;
      ghost var node := rest + multiset{s.blk};
      ghost var own := node + Bag(s.schemaBlks);
      FreeParts(s, mine, own);
      ghost var b := Now();
      FreeAll(s.schemaBlks, mine, node);
      FreedThen(old(Now()), b, Now(), mine);
      b := Now();
      Free(s.blk, mine, rest);
      FreedThen(old(Now()), b, Now(), mine);
    }

    method FreeParts(s: Shape, ghost mine: bool, ghost own: multiset<Block>)
      requires Valid() && (mine ==> cur.Rec?) && Pool(mine) == own + PartsOwned(s)
      modifies `cur, `live, `callers
      ensures Valid() && (mine ==> cur.Rec?) && Level() == old(Level()) && Pool(mine) == own
      ensures Freed(old(Now()), Now(), mine)
      decreases s, 0
    {
      hide HeapOk, Held, Valid, Pool, Freed, Bag, OwnedAll, OwnedOpt, OptBlock;
      match s {
        case Scalar(_, _, owned) => FreeOpt(owned, mine, own);
        case TextShape(_, _, owned) => FreeOpt(owned, mine, own);
        case StructShape(_, _, owned, fb, fields) => FreeTable(owned, fb, fields, mine, own);
        case OptionalShape(_, _, _, inner) => ShapeFree(inner, mine, own);
        case ArrayShape(_, _, owned, eb, elems) => FreeTable(owned, eb, elems, mine, own);
        case VariantShape(_, _, _, inner) => ShapeFree(inner, mine, own);
      }
    }

    /** The children, their table, then the value memory. */
    method FreeTable(owned: Option<Block>, table: Block, kids: seq<Option<Shape>>, ghost mine: bool,
                     ghost own: multiset<Block>)
      requires Valid() && (mine ==> cur.Rec?)
      requires Pool(mine) == own + (OptBlock(owned) + multiset{table} + OwnedAll(kids))
      modifies `cur, `live, `callers
      ensures Valid() && (mine ==> cur.Rec?) && Level() == old(Level()) && Pool(mine) == own
      ensures Freed(old(Now()), Now(), mine)
      decreases kids, 1
    {
      hide HeapOk, Held, Valid, Pool, Freed, Bag, OwnedAll, OptBlock;
      ShapesFree(kids, mine, own + OptBlock(owned) + multiset{table});
      ghost var b := Now();
      Free(table, mine, own + OptBlock(owned));
      FreedThen(old(Now()), b, Now(), mine);
      b := Now();
      FreeOpt(owned, mine, own);
      FreedThen(old(Now()), b, Now(), mine);
    }

    method FreeOpt(p: Option<Block>, ghost mine: bool, ghost rest: multiset<Block>)
      requires Valid() && (mine ==> cur.Rec?) && Pool(mine) == rest + OptBlock(p)
      modifies `cur, `live, `callers
      ensures Valid() && (mine ==> cur.Rec?) && Level() == old(Level()) && Pool(mine) == rest
      ensures Freed(old(Now()), Now(), mine)
    {
      hide HeapOk, Held, Valid, Pool, Freed;
      FreedHere(Now(), mine);
      if p.Some? { Free(p.value, mine, rest); }
    }

    method ShapesFree(ss: seq<Option<Shape>>, ghost mine: bool, ghost rest: multiset<Block>)
      requires Valid() && (mine ==> cur.Rec?) && Pool(mine) == rest + OwnedAll(ss)
      modifies `cur, `live, `callers
      ensures Valid() && (mine ==> cur.Rec?) && Level() == old(Level()) && Pool(mine) == rest
      ensures Freed(old(Now()), Now(), mine)
      decreases ss, 0
    {
      hide HeapOk, Held, Valid, Pool, Freed, Bag, Owned;
      FreedHere(Now(), mine);
      if ss != [] {
        var n := |ss| - 1;
        assert rest + OwnedAll(ss) == rest + OwnedAll(ss[..n]) + OwnedOpt(ss[n]);
        ShapeFree(ss[n], mine, rest + OwnedAll(ss[..n]));
        ghost var b := Now();
        ShapesFree(ss[..n], mine, rest);
        FreedThen(old(Now()), b, Now(), mine);
      }
    }

    /* ---- Engine calls: each may jump out of the body ---- */

    method Ask(ghost kind: Kind) returns (r: Res<int>)
      modifies `tick, `calls
      ensures r.Done? || r.Escaped?
      ensures calls == old(calls) + [Asked(kind, if r.Done? then Value(r.value) else Escape)]
    {
      var a := answers(tick);
      tick := tick + 1;
      calls := calls + [Asked(kind, a)];
      r := if a.Escape? then Escaped else Done(a.v);
    }

    /** A call whose answer is one of lo .. hi. */
    method Choose(ghost kind: Kind, lo: int, hi: int) returns (r: Res<int>)
      requires lo <= hi
      modifies `tick, `calls
      ensures r.Done? || r.Escaped?
      ensures r.Done? ==> lo <= r.value <= hi
      ensures calls == old(calls) + [Asked(kind, if r.Done? then Value(r.value) else Escape)]
    {
      var a := answers(tick);
      tick := tick + 1;
      if a.Value? { a := Value(if a.v < lo then lo else if a.v > hi then hi else a.v); }
      calls := calls + [Asked(kind, a)];
      r := if a.Escape? then Escaped else Done(a.v);
    }

    /** A number, a letter: a value the model does not follow. */
    method Number() returns (r: Res<int>)
      requires cur.Rec?
      modifies `tick, `calls
      ensures r.Done? || r.Escaped?
      ensures Talked(old(Now()), Now())
    {
      r := Ask(Kind.Number);
      TalkOne(old(Now()), Now(), calls[|old(calls)|]);
    }

    /** A draw between bounds; the server refuses lo > hi, which ends the case. */
    method DrawInt(lo: int, hi: int) returns (r: Res<int>)
      requires cur.Rec?
      modifies `tick, `calls
      ensures r.Done? || r.Escaped?
      ensures r.Done? ==> lo <= r.value <= hi && calls == old(calls) + [Asked(Int(lo, hi), Value(r.value))]
      ensures Talked(old(Now()), Now())
    {
      if lo > hi {
        TalkNone(Now());
        return Escaped;
      }
      r := Choose(Int(lo, hi), lo, hi);
      TalkOne(old(Now()), Now(), calls[|old(calls)|]);
    }

    /** Data the model does not follow: a bound value, a callback's choice. */
    method Data() returns (v: int)
      modifies `tick
    {
      var a := answers(tick);
      tick := tick + 1;
      v := if a.Escape? then 0 else a.v;
    }

    method SpanStart() returns (r: Res<()>)
      requires Valid() && cur.Rec?
      modifies `tick, `cur, `calls
      ensures Valid() && (r.Done? || r.Escaped?)
      ensures if r.Done? then Spanned(old(Now()), Now(), 1) else Talked(old(Now()), Now())
      ensures |calls| == |old(calls)| + 1 && old(calls) < calls && calls[|old(calls)|].kind == OpenSpan
      ensures cur.Rec? && Level() == (old(Level()).0, old(Level()).1 + if r.Done? then 1 else 0)
    {
      hide HeapOk, Held, Goes, SpansOpen;
      var told := Ask(OpenSpan);
      if told.IsFailure() {
        TalkOne(old(Now()), Now(), calls[|old(calls)|]);
        return Escaped;
      }
      HeldSame(cur, cur.(openSpans := cur.openSpans + 1));
      cur := cur.(openSpans := cur.openSpans + 1);
      r := Done(());
    }

    method SpanStop() returns (r: Res<()>)
      requires Valid() && cur.Rec? && cur.openSpans > 0
      modifies `tick, `cur, `calls
      ensures Valid() && (r.Done? || r.Escaped?)
      ensures if r.Done? then Spanned(old(Now()), Now(), -1) else Talked(old(Now()), Now())
      ensures cur.Rec? && Level() == (old(Level()).0, old(Level()).1 - if r.Done? then 1 else 0)
      ensures |calls| == |old(calls)| + 1 && old(calls) < calls && calls[|old(calls)|].kind == CloseSpan(false)
    {
      hide HeapOk, Held, Goes, SpansOpen;
      var told := Ask(CloseSpan(false));
      if told.IsFailure() {
        TalkOne(old(Now()), Now(), calls[|old(calls)|]);
        return Escaped;
      }
      HeldSame(cur, cur.(openSpans := cur.openSpans - 1));
      cur := cur.(openSpans := cur.openSpans - 1);
      r := Done(());
    }

    /** hegel_recursion_new, at the first HEGEL_SELF slot of a draw. */
    method MakeHandle() returns (r: Res<()>)
      requires Valid() && cur.Rec?
      modifies `tick, `cur, `calls
      ensures Valid() && cur.Rec? && Level() == old(Level()) && (r.Done? || r.Escaped?)
      ensures r.Done? ==> Drew(old(Now()), Now(), NOTHING, 0) && cur.created
      ensures r.IsFailure() ==> Within(old(Now()), Now())
      ensures cur.Rec? && cur == old(cur).(created := cur.created)
      ensures if old(cur.created) then calls == old(calls)
              else |calls| == |old(calls)| + 1 && old(calls) < calls && calls[|old(calls)|].kind == NewRec(cur.maxDepth)
    {
      hide HeapOk, Held, Bag, Goes, SpansOpen;
      if cur.created {
        Idle(Now());
        return Done(());
      }
      var made := Ask(NewRec(cur.maxDepth));
      if made.IsFailure() {
        TalkOne(old(Now()), Now(), calls[|old(calls)|]);
        TalkedWithin(old(Now()), Now());
        return Escaped;
      }
      HeldSame(cur, cur.(created := true));
      cur := cur.(created := true);
      HandleMade(old(Now()), Now(), calls[|old(calls)|]);
      r := Done(());
    }

    /** hegel__self_present: true for a child, false for NULL, Unwound over the leaf budget.  The
        engine's branch call decides between the first two, its leaf call between the last two. */
    method SelfPresent() returns (r: Res<bool>)
      requires Valid() && cur.Rec?
      modifies `tick, `cur, `calls
      ensures Valid()
      ensures cur.Rec? && Level() == old(Level())
      ensures r.Done? ==> Drew(old(Now()), Now(), Gain(multiset{}, if r.value then 0 else 1, 0), 0)
      ensures r.Done? && r.value ==> cur.depth + 1 < cur.maxDepth
      ensures r.IsFailure() ==> Within(old(Now()), Now())
      ensures r.Unwound? ==> cur.created
      ensures r.Done? || r.Unwound? ==> cur.Rec? && SelfCalls(old(calls), calls, old(cur), r.Done? && r.value, r.Done?)
    {
      hide HeapOk, Held, Bag, Goes, SpansOpen, Drew, Within, Talked, SelfCalls, Valid;
      ghost var a0 := Now();
      Steps(a0);
      var _ :- MakeHandle();
      ghost var a1 := Now();
      var branch := Choose(Branch(cur.depth + 1), 0, if cur.depth + 1 < cur.maxDepth then 1 else 0);
      TalkOne(a1, Now(), calls[|a1.calls|]);
      ThenTalk(a0, a1, Now(), NOTHING, 0);
      ghost var a2 := Now();
      if branch.IsFailure() { return Escaped; }
      if branch.value != 0 {
        ChildCalls(a0.calls, a1.calls, calls, a0.cur);
        return Done(true);
      }
      r := LeafOrUnwind(a0);
      if r.Done? || r.Unwound? { NullCalls(a0.calls, a1.calls, a2.calls, calls, a0.cur, r.Done?); }
    }

    /** hegel_recursion_leaf: another NULL, or the attempt is over its budget. */
    method LeafOrUnwind(ghost a0: Snap) returns (r: Res<bool>)
      requires Valid() && cur.Rec? && cur.created && Drew(a0, Now(), NOTHING, 0)
      modifies `tick, `cur, `calls
      ensures Valid() && cur.Rec? && Level() == old(Level()) && cur.created
      ensures r.Done? ==> !r.value && Drew(a0, Now(), Gain(multiset{}, 1, 0), 0)
      ensures r.IsFailure() ==> Within(a0, Now())
      ensures |calls| == |old(calls)| + 1 && old(calls) < calls && calls[|old(calls)|].kind == Leaf
      ensures r.Done? || r.Unwound? ==>
        (calls[|old(calls)|].answer.Value? && (r.Done? <==> calls[|old(calls)|].answer.v == 0))
    {
      hide HeapOk, Held, Bag, Goes, SpansOpen, Drew, Within, Talked;
      Steps(a0);
      ghost var b := Now();
      var leaf := Choose(Leaf, if cur.leaves >= SELF_MAX_LEAVES then 1 else 0, 1);
      ghost var c := Now();
      TalkOne(b, c, calls[|b.calls|]);
      ThenTalk(a0, b, c, NOTHING, 0);
      if leaf.IsFailure() { return Escaped; }
      if leaf.value != 0 { return Unwound; }
      HeldSame(cur, cur.(leaves := cur.leaves + 1));
      cur := cur.(leaves := cur.leaves + 1);
      LeafCounted(a0, c, Now());
      r := Done(false);
    }

    /* ---- Draws that give a shape ---- */

    method NewLeaf() returns (v: Option<Shape>)
      requires Valid() && cur.Rec?
      modifies `cur, `live, `callers, `limit
      ensures Valid() && cur.Rec? && Level() == old(Level())
      ensures v.Some? && v.value.Scalar? && v.value.schemaBlks == []
      ensures Drew(old(Now()), Now(), Worth(v), 0)
    {
      hide HeapOk, Held, Bag, Drew;
      var b := Alloc();
      LeafWorth(b, None);
      v := Some(Scalar(b, [], None));
      assert Worth(v).blocks == multiset{b};
    }

    /** A schema a callback built: its nodes are tracked like everything else. */
    method AllocSchema() returns (ps: seq<Block>)
      requires Valid() && cur.Rec?
      modifies `cur, `live, `callers, `limit, `tick
      ensures Valid() && cur.Rec? && Level() == old(Level())
      ensures Drew(old(Now()), Now(), Many(ps), 0)
    {
      hide Mirrors, AllMirror, FieldMirrors, FieldsMirror, PartlyMirror, Valid, Drew, Within, Freed, Spanned, Talked, Plus,
        One, Many, Worth, WorthAll, Owned, HeapOk, Held, Bag;
      From(Now());
      var n := Data();
      var p := Alloc();
      ps := [p];
      ManyPush([], p);
      while n > 1
        invariant Valid() && cur.Rec? && Level() == old(Level())
        invariant Drew(old(Now()), Now(), Many(ps), 0)
      {
        p := Alloc();
        ManyPush(ps, p);
        ps := ps + [p];
        n := n - 1;
      }
    }

    /** hegel__draw_integer_into / hegel__draw_fp_into: draws only; a FLAT_MAP's schema is
        allocated by its callback and freed before the value is used. */
    method DrawNumInto(s: Schema) returns (r: Res<()>)
      requires Valid() && cur.Rec?
      modifies this
      ensures Valid() && cur.Rec? && !r.Unwound? && (r.Done? ==> Level() == old(Level()))
      ensures r.Done? ==> Drew(old(Now()), Now(), NOTHING, 0)
      ensures r.IsFailure() ==> Within(old(Now()), Now())
      decreases s
    {
      hide Mirrors, AllMirror, FieldMirrors, FieldsMirror, PartlyMirror, Valid, Drew, Within, Freed, Spanned, Talked, Plus,
        One, Many, Worth, WorthAll, Owned, HeapOk, Held, Bag;
      Here(Now());
      ghost var a0 := Now();
      Steps(a0);
      match s {
        case Integer(_) => var _ :- Number();
          TalkedWithin(a0, Now());
          return Done(());
        case Float(_) => var _ :- Number();
          TalkedWithin(a0, Now());
          return Done(());
        case MapNum(_, source) => var _ :- DrawNumInto(source);
          return Done(());
        case FilterNum(_, source) =>
          var _ :- DrawNumInto(source);
          var pass := Data();
          if pass == 0 { return Escaped; }       // hegel_assume (tc, 0)
          return Done(());
        case FlatMapNum(_, source, produced) => r := DrawFlatMap(s, false); return;
        case OneOfScalar(cases) => r := DrawOneOfScalar(s, false); return;
        case _ =>
      }
      Idle(a0);
      r := Done(());
    }

    /** As a struct field the callback's schema draws only if it is a plain INTEGER / FLOAT. */
    method DrawFlatMap(s: Schema, asField: bool) returns (r: Res<()>)
      requires Valid() && cur.Rec? && s.FlatMapNum?
      modifies this
      ensures Valid() && cur.Rec? && !r.Unwound? && (r.Done? ==> Level() == old(Level()))
      ensures r.Done? ==> Drew(old(Now()), Now(), NOTHING, 0)
      ensures r.IsFailure() ==> Within(old(Now()), Now())
      decreases s, 0
    {
      hide Mirrors, AllMirror, FieldMirrors, FieldsMirror, PartlyMirror, Valid, Drew, Within, Freed, Spanned, Talked, Plus,
        One, Many, Worth, WorthAll, Owned, HeapOk, Held, Bag;
      Here(Now());
      ghost var a0 := Now();
      Steps(a0);
      var _ :- DrawNumInto(s.source);
      if s.produced == [] { return Done(()); }  // the callback returned no schema
      ghost var a1 := Now();
      var pick := Data();
      var ps := AllocSchema();
      ghost var a2 := Now();
      var next := s.produced[pick % |s.produced|];
      if !asField || (if s.num == NumDouble then next.Float? else next.Integer?) {
        var _ :- DrawNumInto(next);
      } else {
        Idle(a2);
      }
      ghost var a3 := Now();
      FlatMapSum(a0, a1, a2, a3, ps);
      FreeAll(ps, true, Bag(a0.cur.allocs));
      FlatMapDone(a0, a3, Now(), ps);
      r := Done(());
    }

    /** One case of a ONE_OF_SCALAR, inside its two spans.  As a struct field only INTEGER
        and FLOAT cases draw. */
    method DrawOneOfScalar(s: Schema, asField: bool) returns (r: Res<()>)
      requires Valid() && cur.Rec? && s.OneOfScalar?
      modifies this
      ensures Valid() && cur.Rec? && !r.Unwound? && (r.Done? ==> Level() == old(Level()))
      ensures r.Done? ==> Drew(old(Now()), Now(), NOTHING, 0)
      ensures r.IsFailure() ==> Within(old(Now()), Now())
      decreases s, 0
    {
      hide Mirrors, AllMirror, FieldMirrors, FieldsMirror, PartlyMirror, Valid, Drew, Within, Freed, Spanned, Talked, Plus,
        One, Many, Worth, WorthAll, Owned, HeapOk, Held, Bag;
      Here(Now());
      ghost var a0 := Now();
      Steps(a0);
      From(a0);
      PlusNothing(NOTHING);
      var _ :- SpanStart();
      Opens(a0, Now());
      var choice :- DrawInt(0, |s.cases| - 1);
      var _ :- SpanStart();
      if !asField || s.cases[choice].Integer? || s.cases[choice].Float? {
        var _ :- DrawNumInto(s.cases[choice]);
      }
      var _ :- SpanStop();
      var _ :- SpanStop();
      r := Done(());
    }

    ghost predicate Ready(s: Schema) {
      WellFormed(s) && target.Struct? && WellFormed(target)
    }

    /** hegel__draw_text: the length, the buffer, then the letters. */
    method DrawText() returns (r: Res<Block>)
      requires Valid() && cur.Rec?
      modifies this
      ensures Valid() && cur.Rec? && !r.Unwound? && (r.Done? ==> Level() == old(Level()))
      ensures r.Done? ==> Drew(old(Now()), Now(), One(r.value), 0)
      ensures r.IsFailure() ==> Within(old(Now()), Now())
    {
      hide Mirrors, AllMirror, FieldMirrors, FieldsMirror, PartlyMirror, Valid, Drew, Within, Freed, Spanned, Talked, Plus,
        One, Many, Worth, WorthAll, Gains, Owned, HeapOk, Held, Bag;
      ghost var a0 := Now();
      Steps(a0);
      Here(a0);
      var len :- Number();
      ghost var a1 := Now();
      TalkedWithin(a0, a1);
      var buf := Alloc();
      Then(a0, a1, Now(), NOTHING, 0, One(buf));
      OnePositive(buf);
      PlusNothing(One(buf));
      var i := 0;
      while i < len
        invariant Valid() && cur.Rec? && Level() == old(Level())
        invariant Drew(a0, Now(), One(buf), 0)
      {
        ghost var b := Now();
        var _ :- Number();
        ThenTalk(a0, b, Now(), One(buf), 0);
        i := i + 1;
      }
      r := Done(buf);
    }

    method DrawTextShape() returns (r: Res<Option<Shape>>)
      requires Valid() && cur.Rec?
      modifies this
      ensures Valid() && cur.Rec? && !r.Unwound? && (r.Done? ==> Level() == old(Level()))
      ensures r.Done? ==> Drew(old(Now()), Now(), Worth(r.value), 0)
      ensures r.Done? ==> r.value.Some? && r.value.value.schemaBlks == []
      ensures r.Done? ==> r.value.value.TextShape? && r.value.value.owned.Some?
      ensures r.IsFailure() ==> Within(old(Now()), Now())
    {
      hide Mirrors, AllMirror, FieldMirrors, FieldsMirror, PartlyMirror, Valid, Drew, Within, Freed, Spanned, Talked, Plus,
        One, Many, Worth, WorthAll, Gains, Owned, HeapOk, Held, Bag;
      ghost var a0 := Now();
      Steps(a0);
      Here(a0);
      var buf :- DrawText();
      var blk := Alloc();
      LeafSum(buf, blk);
      assert Drew(a0, Now(), Plus(One(buf), One(blk)), 0) by { From(a0); }
      r := Done(Some(TextShape(blk, [], Some(buf))));
    }

    /** hegel__draw_struct: an allocated struct. */
    method DrawStruct(s: Schema, depth: int) returns (r: Res<Option<Shape>>)
      requires s.Struct?
      requires Valid() && cur.Rec? && Room() >= 0 && Ready(s)
      modifies this
      ensures Valid() && cur.Rec?
      ensures r.Done? ==> Drew(old(Now()), Now(), Worth(r.value), 0) && Level() == old(Level())
      ensures r.Done? && r.value.Some? ==> r.value.value.schemaBlks == []
      ensures r.Done? ==> InSpan(old(calls), calls)
      ensures r.IsFailure() ==> Within(old(Now()), Now())
      ensures r.Unwound? ==> cur.created
      ensures r.Done? ==> r.value.Some? && Mirrors(s, target, r.value.value, true, depth)
      decreases Room(), s, 3
    {
      hide Mirrors, AllMirror, FieldMirrors, FieldsMirror, PartlyMirror, Valid, Drew, Within, Freed, Spanned, Talked, Plus,
        One, Many, Worth, WorthAll, Gains, Owned, HeapOk, Held, Bag, InSpan;
      ghost var a0 := Now();
      Steps(a0);
      Here(a0);
      var ptr := Alloc();
      ghost var b := Now();
      var blk := Alloc();
      Then(a0, b, Now(), One(ptr), 0, One(blk));
      b := Now();
      var fb := Alloc();
      Then(a0, b, Now(), Plus(One(ptr), One(blk)), 0, One(fb));
      var fields :- DrawBody(s, depth, a0, Plus(Plus(One(ptr), One(blk)), One(fb)));
      StructSum(ptr, blk, fb, fields);
      StructMirrors(s, target, StructShape(blk, [], Some(ptr), fb, fields), true, depth);
      r := Done(Some(StructShape(blk, [], Some(ptr), fb, fields)));
    }

    /** hegel__draw_struct_into_slot: the struct lives in memory somebody else owns. */
    method DrawStructIntoSlot(s: Schema, depth: int) returns (r: Res<Option<Shape>>)
      requires s.Struct?
      requires Valid() && cur.Rec? && Room() >= 0 && Ready(s)
      modifies this
      ensures Valid() && cur.Rec?
      ensures r.Done? ==> Drew(old(Now()), Now(), Worth(r.value), 0) && Level() == old(Level())
      ensures r.Done? && r.value.Some? ==> r.value.value.schemaBlks == []
      ensures r.Done? ==> InSpan(old(calls), calls)
      ensures r.IsFailure() ==> Within(old(Now()), Now())
      ensures r.Unwound? ==> cur.created
      ensures r.Done? ==> r.value.Some? && Mirrors(s, target, r.value.value, false, depth)
      decreases Room(), s, 3
    {
      hide Mirrors, AllMirror, FieldMirrors, FieldsMirror, PartlyMirror, Valid, Drew, Within, Freed, Spanned, Talked, Plus,
        One, Many, Worth, WorthAll, Gains, Owned, HeapOk, Held, Bag, InSpan;
      ghost var a0 := Now();
      Steps(a0);
      Here(a0);
      var blk := Alloc();
      var fb := Alloc();
      assert Drew(a0, Now(), Plus(One(blk), One(fb)), 0) by { From(a0); }
      var fields :- DrawBody(s, depth - 1, a0, Plus(One(blk), One(fb)));
      StructSum(blk, blk, fb, fields);
      StructMirrors(s, target, StructShape(blk, [], None, fb, fields), false, depth);
      r := Done(Some(StructShape(blk, [], None, fb, fields)));
    }

    /** The fields of a struct in their span, and what is held while they are drawn given back. */
    method DrawBody(s: Schema, depth: int, ghost a0: Snap, ghost g: Gain) returns (r: Res<seq<Option<Shape>>>)
      requires s.Struct?
      requires Valid() && cur.Rec? && Room() >= 0 && Ready(s) && Drew(a0, Now(), g, 0)
      modifies this
      ensures Valid() && cur.Rec?
      ensures r.Done? ==> Drew(a0, Now(), Plus(g, WorthAll(r.value)), 0) && Level() == old(Level())
      ensures r.Done? ==> FieldsMirror(s.children, target, r.value, depth)
      ensures r.Done? ==> InSpan(old(calls), calls)
      ensures r.IsFailure() ==> Within(a0, Now())
      ensures r.Unwound? ==> cur.created
      decreases Room(), s, 2
    {
      hide Mirrors, AllMirror, FieldMirrors, FieldsMirror, PartlyMirror, Valid, Drew, Within, Freed, Spanned, Talked, Plus,
        One, Many, Worth, WorthAll, Gains, Owned, HeapOk, Held, Bag, InSpan;
      Steps(a0);
      ghost var b := Now();
      ghost var p := calls;
      var _ :- SpanStart();
      ThenSpan(a0, b, Now(), g, 0, 1);
      b := Now();
      var fields, drawn, bufs :- DrawFields(s, depth);
      Then(a0, b, Now(), g, 1, Gains(fields, drawn, bufs));
      DrewGrows(b, Now(), Gains(fields, drawn, bufs), 0);
      ghost var p1, q := b.calls, calls;
      b := Now();
      var _ :- SpanStop();
      SpanDone(p, p1, q, calls);
      ThenSpan(a0, b, Now(), Plus(g, Gains(fields, drawn, bufs)), 1, -1);
      Finalize(bufs, drawn, a0, g, fields);
      r := Done(fields);
    }

    /** hegel__draw_ctx_finalize: the LET_ARR buffers, then the flags. */
    method Finalize(bufs: seq<Block>, drawn: Block, ghost a0: Snap, ghost g: Gain, ghost fields: seq<Option<Shape>>)
      requires Valid() && cur.Rec? && Drew(a0, Now(), Plus(g, Gains(fields, drawn, bufs)), 0)
      modifies `cur, `live, `callers
      ensures Valid() && cur.Rec? && Level() == old(Level())
      ensures Drew(a0, Now(), Plus(g, WorthAll(fields)), 0)
    {
      hide Mirrors, AllMirror, FieldMirrors, FieldsMirror, PartlyMirror, Valid, Drew, Within, Freed, Spanned, Talked,
        WorthAll, HeapOk, Held, Bag;
      ghost var b := Now();
      ghost var keep := Plus(g, WorthAll(fields));
      ghost var gone := Plus(One(drawn), Many(bufs));
      PlusAssoc(g, WorthAll(fields), gone);
      NestPositive(g, fields);
      DrewTracks(a0, b, Plus(keep, gone), 0);
      ghost var rest := Bag(a0.cur.allocs) + keep.blocks;
      assert Bag(cur.allocs) == rest + multiset{drawn} + Bag(bufs);
      FreeAll(bufs, true, rest + multiset{drawn});
      ghost var c := Now();
      Free(drawn, true, rest);
      FreedThen(b, c, Now(), true);
      assert Bag(cur.allocs) + gone.blocks == Bag(b.cur.allocs);
      ThenFree(a0, b, Now(), keep, gone, 0);
    }

    /** hegel__draw_struct_fields: positional fields in declaration order, each HEGEL_LEN_OF
        right after its array, then the other derived fields. */
    method DrawFields(s: Schema, depth: int)
      returns (r: Res<seq<Option<Shape>>>, drawn: Block, bufs: seq<Block>)
      requires s.Struct?
      requires Valid() && cur.Rec? && Room() >= 0 && Ready(s)
      modifies this
      ensures Valid() && cur.Rec?
      ensures r.Done? ==> Drew(old(Now()), Now(), Gains(r.value, drawn, bufs), 0) && Level() == old(Level())
      ensures r.Done? ==> FieldsMirror(s.children, target, r.value, depth)
      ensures r.IsFailure() ==> Within(old(Now()), Now())
      ensures r.Unwound? ==> cur.created
      decreases Room(), s, 1
    {
      hide Mirrors, AllMirror, FieldMirrors, FieldsMirror, PartlyMirror, Valid, Drew, Within, Freed, Spanned, Talked, Plus,
        One, Many, Worth, WorthAll, Gains, Owned, HeapOk, Held, Bag;
      ghost var a0 := Now();
      Steps(a0);
      Here(a0);
      bufs := [];
      drawn := Alloc();
      var nf := |s.children|;
      var fields: seq<Option<Shape>> := seq(nf, _ => None);
      var flags := seq(nf, _ => false);
      GainsStart(nf, drawn);
      PartlyStart(s.children, target, fields, flags, depth);
      var f := 0;
      while f < nf
        invariant 0 <= f <= nf == |fields| && FlagsOk(fields, flags)
        invariant forall g :: f <= g < nf && !s.children[g].Derived? ==> !flags[g]
        invariant PartlyMirror(s.children, target, fields, flags, f, depth)
        invariant Valid() && cur.Rec? && Level() == old(Level())
        invariant Drew(a0, Now(), Gains(fields, drawn, bufs), 0)
      {
        var child := s.children[f];
        ghost var b := Now();
        if child.Derived? || child.Let? || child.LetArr? { PartlyNext(s.children, target, fields, flags, f, None, depth); }
        if child.Derived? {
        } else if child.Let? {
          var let := DrawLet(child);
          if let.IsFailure() { r := let.PropagateFailure(); return; }
          Then(a0, b, Now(), Gains(fields, drawn, bufs), 0, NOTHING);
          GainsNest(fields, drawn, bufs);
          PlusNothing(Gains(fields, drawn, bufs));
          flags := flags[f := true];
        } else if child.LetArr? {
          var arr := DrawLetArr(child);
          if arr.IsFailure() { r := arr.PropagateFailure(); return; }
          Then(a0, b, Now(), Gains(fields, drawn, bufs), 0, One(arr.value));
          GainsBuf(fields, drawn, bufs, arr.value);
          bufs := bufs + [arr.value];
          flags := flags[f := true];
        } else {
          var went;
          went, fields, flags := DrawPositional(s, f, depth, fields, flags, a0, drawn, bufs);
          if went.IsFailure() { r := went.PropagateFailure(); return; }
        }
        f := f + 1;
      }
      var rest;
      rest, fields, flags := DrawRest(s, depth, fields, flags, a0, drawn, bufs);
      if rest.IsFailure() { r := rest.PropagateFailure(); return; }
      PartlyAll(s.children, target, fields, flags, depth);
      r := Done(fields);
    }

    /** The derived entries that nobody filled. */
    method DrawRest(s: Schema, ghost depth: int, fields: seq<Option<Shape>>, flags: seq<bool>,
                    ghost a0: Snap, ghost drawn: Block, ghost bufs: seq<Block>)
      returns (r: Res<()>, fields': seq<Option<Shape>>, flags': seq<bool>)
      requires s.Struct? && Ready(s) && |s.children| == |fields| && FlagsOk(fields, flags)
      requires PartlyMirror(s.children, target, fields, flags, |s.children|, depth)
      requires Valid() && cur.Rec? && Drew(a0, Now(), Gains(fields, drawn, bufs), 0)
      modifies this
      ensures Valid() && cur.Rec? && Level() == old(Level()) && (r.Done? || r.Aborted?)
      ensures |fields'| == |fields| && FlagsOk(fields', flags') &&
          PartlyMirror(s.children, target, fields', flags', |s.children|, depth)
      ensures r.Done? ==> forall g :: 0 <= g < |fields| && s.children[g].Derived? ==> flags'[g]
      ensures Drew(a0, Now(), Gains(fields', drawn, bufs), 0)
    {
      hide Mirrors, AllMirror, FieldMirrors, FieldsMirror, PartlyMirror, Valid, Drew, Within, Freed, Spanned, Talked, Plus,
        One, Many, Worth, WorthAll, Gains, Owned, HeapOk, Held, Bag;
      fields', flags' := fields, flags;
      var f, nf := 0, |s.children|;
      while f < nf
        invariant 0 <= f <= nf == |fields'| && FlagsOk(fields', flags')
        invariant PartlyMirror(s.children, target, fields', flags', nf, depth)
        invariant forall g :: 0 <= g < f && s.children[g].Derived? ==> flags'[g]
        invariant Valid() && cur.Rec? && Level() == old(Level())
        invariant Drew(a0, Now(), Gains(fields', drawn, bufs), 0)
      {
        if s.children[f].Derived? && !flags'[f] {
          ghost var b := Now();
          var v := DrawDerived(s, s.children[f], fields');
          if v.IsFailure() { r := v.PropagateFailure(); return; }
          Then(a0, b, Now(), Gains(fields', drawn, bufs), 0, Worth(v.value));
          GainsFill(fields', f, v.value, drawn, bufs);
          PartlyDerived(s.children, target, fields', flags', nf, f, v.value, depth);
          fields' := fields'[f := v.value];
          flags' := flags'[f := true];
        }
        f := f + 1;
      }
      r := Done(());
    }

    /** One positional field, then the lengths that name it. */
    method DrawPositional(s: Schema, f: nat, depth: int, fields: seq<Option<Shape>>, flags: seq<bool>,
                          ghost a0: Snap, ghost drawn: Block, ghost bufs: seq<Block>)
      returns (r: Res<()>, fields': seq<Option<Shape>>, flags': seq<bool>)
      requires s.Struct? && Ready(s) && f < |s.children| == |fields| && FlagsOk(fields, flags) && !flags[f]
      requires !s.children[f].Derived? && !s.children[f].Let? && !s.children[f].LetArr?
      requires PartlyMirror(s.children, target, fields, flags, f, depth)
      requires Valid() && cur.Rec? && Room() >= 0 && Drew(a0, Now(), Gains(fields, drawn, bufs), 0)
      modifies this
      ensures Valid() && cur.Rec?
      ensures r.Done? ==> |fields'| == |fields| && FlagsOk(fields', flags') && Level() == old(Level())
      ensures r.Done? ==> PartlyMirror(s.children, target, fields', flags', f + 1, depth)
      ensures r.Done? ==> forall g :: 0 <= g < |fields| && g != f && !s.children[g].Derived? ==> flags'[g] == flags[g]
      ensures r.Done? ==> Drew(a0, Now(), Gains(fields', drawn, bufs), 0)
      ensures r.IsFailure() ==> Within(a0, Now())
      ensures r.Unwound? ==> cur.created
      decreases Room(), s, 0
    {
      hide Mirrors, AllMirror, FieldMirrors, FieldsMirror, PartlyMirror, Valid, Drew, Within, Freed, Spanned, Talked, Deeper,
        Plus, One, Many, Worth, WorthAll, Gains, Table, Owned, HeapOk, Held, Bag;
      Steps(a0);
      fields', flags' := fields, flags;
      ghost var b := Now();
      var v := DrawField(s.children[f], depth);
      if v.IsFailure() { r := v.PropagateFailure(); return; }
      Then(a0, b, Now(), Gains(fields, drawn, bufs), 0, Worth(v.value));
      GainsFill(fields, f, v.value, drawn, bufs);
      PartlyNext(s.children, target, fields, flags, f, v.value, depth);
      fields' := fields[f := v.value];
      flags' := flags[f := true];
      r, fields', flags' := FillLenOf(s, f, fields', flags', depth, a0, drawn, bufs);
    }

    /** hegel__fill_len_of: every undrawn HEGEL_LEN_OF naming field f. */
    method FillLenOf(s: Schema, f: nat, fields: seq<Option<Shape>>, flags: seq<bool>, ghost depth: int,
                     ghost a0: Snap, ghost drawn: Block, ghost bufs: seq<Block>)
      returns (r: Res<()>, fields': seq<Option<Shape>>, flags': seq<bool>)
      requires s.Struct? && Ready(s) && f < |s.children| == |fields| && FlagsOk(fields, flags)
      requires PartlyMirror(s.children, target, fields, flags, f + 1, depth)
      requires Valid() && cur.Rec? && Drew(a0, Now(), Gains(fields, drawn, bufs), 0)
      modifies this
      ensures Valid() && cur.Rec? && Level() == old(Level())
      ensures r.Done? || r.Aborted?
      ensures |fields'| == |fields| && FlagsOk(fields', flags') &&
          PartlyMirror(s.children, target, fields', flags', f + 1, depth)
      ensures forall g :: 0 <= g < |fields| && !s.children[g].Derived? ==> flags'[g] == flags[g]
      ensures Drew(a0, Now(), Gains(fields', drawn, bufs), 0)
    {
      hide Mirrors, AllMirror, FieldMirrors, FieldsMirror, PartlyMirror, Valid, Drew, Within, Freed, Spanned, Talked, Plus,
        One, Many, Worth, WorthAll, Gains, Owned, HeapOk, Held, Bag;
      fields', flags' := fields, flags;
      var g := 0;
      while g < |s.children|
        invariant 0 <= g <= |s.children| == |fields'| && FlagsOk(fields', flags')
        invariant PartlyMirror(s.children, target, fields', flags', f + 1, depth)
        invariant forall g :: 0 <= g < |fields| && !s.children[g].Derived? ==> flags'[g] == flags[g]
        invariant Valid() && cur.Rec? && Level() == old(Level())
        invariant Drew(a0, Now(), Gains(fields', drawn, bufs), 0)
      {
        var c := s.children[g];
        if c.Derived? && c.lenOf.Some? && !flags'[g] && c.lenOf.value == s.offsets[f] {
          ghost var b := Now();
          var v := DrawDerived(s, c, fields');
          if v.IsFailure() { r := v.PropagateFailure(); return; }
          Then(a0, b, Now(), Gains(fields', drawn, bufs), 0, Worth(v.value));
          GainsFill(fields', g, v.value, drawn, bufs);
          PartlyDerived(s.children, target, fields', flags', f + 1, g, v.value, depth);
          fields' := fields'[g := v.value];
          flags' := flags'[g := true];
        }
        g := g + 1;
      }
      r := Done(());
    }

    /** hegel__draw_derived: HEGEL_LEN_OF aborts unless its target is an array by now. */
    method DrawDerived(s: Schema, c: Schema, fields: seq<Option<Shape>>) returns (r: Res<Option<Shape>>)
      requires Valid() && cur.Rec?
      requires s.Struct? && |s.children| == |s.offsets| == |fields| && c.Derived?
      modifies `cur, `live, `callers, `limit
      ensures Valid() && cur.Rec? && Level() == old(Level()) && (r.Done? || r.Aborted?)
      ensures if r.Done? then Drew(old(Now()), Now(), Worth(r.value), 0) else Now() == old(Now())
      ensures r.Done? ==> r.value.Some? && r.value.value.Scalar?
    {
      hide Mirrors, AllMirror, FieldMirrors, FieldsMirror, PartlyMirror, Valid, Drew, Within, Freed, Spanned, Talked, Plus,
        One, Many, Worth, WorthAll, Gains, Owned, HeapOk, Held, Bag;
      if c.lenOf.Some? {
        var found: Option<Shape> := None;
        var i := 0;
        while i < |s.children|
          invariant 0 <= i <= |s.children|
        {
          if s.offsets[i] == c.lenOf.value { found := fields[i]; }
          i := i + 1;
        }
        if found.None? || !found.value.ArrayShape? { return Aborted; }
      }
      var v := NewLeaf();
      r := Done(v);
    }

    /** hegel__draw_let_side_effect: draws, binds, owns nothing.  Binding may abort. */
    method DrawLet(s: Schema) returns (r: Res<()>)
      requires Valid() && cur.Rec? && s.Let?
      modifies this
      ensures Valid() && cur.Rec? && !r.Unwound? && (r.Done? ==> Level() == old(Level()))
      ensures r.Done? ==> Drew(old(Now()), Now(), NOTHING, 0)
      ensures r.IsFailure() ==> Within(old(Now()), Now())
    {
      hide Mirrors, AllMirror, FieldMirrors, FieldsMirror, PartlyMirror, Valid, Drew, Within, Freed, Spanned, Talked, Plus,
        One, Many, Worth, WorthAll, Gains, Owned, HeapOk, Held, Bag;
      Steps(Now());
      Here(Now());
      var _ :- DrawNumInto(s.inner);
      var duplicate := Data();
      if duplicate == 1 { return Aborted; }
      r := Done(());
    }

    /** hegel__draw_let_arr_side_effect: the buffer stays with the struct's scope. */
    method DrawLetArr(s: Schema) returns (r: Res<Block>)
      requires s.LetArr?
      requires Valid() && cur.Rec? && Room() >= 0 && Ready(s)
      modifies this
      ensures Valid() && cur.Rec?
      ensures r.Done? ==> Drew(old(Now()), Now(), One(r.value), 0) && Level() == old(Level())
      ensures r.IsFailure() ==> Within(old(Now()), Now())
      ensures r.Unwound? ==> cur.created
      decreases Room(), s, 1
    {
      hide Mirrors, AllMirror, FieldMirrors, FieldsMirror, PartlyMirror, Valid, Drew, Within, Freed, Spanned, Talked, Plus,
        One, Many, Worth, WorthAll, Gains, Owned, HeapOk, Held, Bag;
      ghost var a0 := Now();
      Steps(a0);
      Here(a0);
      var n :- DrawLength(s.length, 0);
      if n < 0 { return Aborted; }
      ghost var b := Now();
      var arr := Alloc();
      OnePositive(arr);
      Then(a0, b, Now(), NOTHING, 0, One(arr));
      PlusNothing(One(arr));
      var _ :- LetArrElems(s.elem, n, a0, arr);
      var duplicate := Data();
      if duplicate == 1 { return Aborted; }
      r := Done(arr);
    }

    /** The elements of the bound array, in its span. */
    method LetArrElems(elem: Schema, n: int, ghost a0: Snap, ghost arr: Block) returns (r: Res<()>)
      requires Valid() && cur.Rec? && Drew(a0, Now(), One(arr), 0)
      modifies this
      ensures Valid() && cur.Rec? && !r.Unwound? && (r.Done? ==> Level() == old(Level()))
      ensures if r.Done? then Drew(a0, Now(), One(arr), 0) else Within(a0, Now())
    {
      hide Mirrors, AllMirror, FieldMirrors, FieldsMirror, PartlyMirror, Valid, Drew, Within, Freed, Spanned, Talked, Plus,
        One, Many, Worth, WorthAll, Gains, Owned, HeapOk, Held, Bag;
      Steps(a0);
      ghost var b := Now();
      var _ :- SpanStart();
      ThenSpan(a0, b, Now(), One(arr), 0, 1);
      var _ :- DrawLetElems(elem, n, a0, arr);
      b := Now();
      var _ :- SpanStop();
      ThenSpan(a0, b, Now(), One(arr), 1, -1);
      r := Done(());
    }

    /** Each element of the bound array, in a span of its own. */
    method DrawLetElems(elem: Schema, n: int, ghost a0: Snap, ghost arr: Block) returns (r: Res<()>)
      requires Valid() && cur.Rec? && Drew(a0, Now(), One(arr), 1)
      modifies this
      ensures Valid() && cur.Rec? && !r.Unwound? && (r.Done? ==> Level() == old(Level()))
      ensures if r.Done? then Drew(a0, Now(), One(arr), 1) else Within(a0, Now())
      decreases elem, 1
    {
      hide Mirrors, AllMirror, FieldMirrors, FieldsMirror, PartlyMirror, Valid, Drew, Within, Freed, Spanned, Talked, Plus,
        One, Many, Worth, WorthAll, Gains, Owned, HeapOk, Held, Bag;
      Steps(a0);
      OnePositive(arr);
      PlusNothing(One(arr));
      var i := 0;
      while i < n
        invariant Valid() && cur.Rec? && Level() == old(Level())
        invariant Drew(a0, Now(), One(arr), 1)
      {
        ghost var b := Now();
        var _ :- SpanStart();
        ThenSpan(a0, b, Now(), One(arr), 1, 1);
        b := Now();
        var _ :- DrawNumInto(elem);
        Then(a0, b, Now(), One(arr), 2, NOTHING);
        b := Now();
        var _ :- SpanStop();
        ThenSpan(a0, b, Now(), One(arr), 2, -1);
        i := i + 1;
      }
      r := Done(());
    }

    /** A length is drawn as a field into a local int; its shape is freed at once. */
    method DrawLength(s: Schema, depth: int) returns (r: Res<int>)
      requires Valid() && cur.Rec? && Room() >= 0 && Ready(s) && IntSource(s)
      modifies this
      ensures Valid() && cur.Rec?
      ensures r.Done? ==> Drew(old(Now()), Now(), NOTHING, 0) && Level() == old(Level())
      ensures r.IsFailure() ==> Within(old(Now()), Now())
      ensures r.Unwound? ==> cur.created
      decreases Room(), s, 9
    {
      hide Mirrors, AllMirror, FieldMirrors, FieldsMirror, PartlyMirror, Valid, Drew, Within, Freed, Spanned, Talked, Deeper,
        Plus, One, Many, Worth, WorthAll, Gains, Owned, HeapOk, Held, Bag;
      ghost var a0 := Now();
      Steps(a0);
      Here(a0);
      var v :- DrawField(s, depth);
      ghost var b := Now();
      ScalarWorth(v);
      DrewTracks(a0, b, Worth(v), 0);
      ShapeFree(v, true, Bag(a0.cur.allocs));
      LengthFreed(a0, b, Now(), v);
      var n := Data();
      r := Done(n);
    }

    /** Frees one tracked block in the middle of a draw. */
    method FreeTracked(p: Block, ghost a0: Snap, ghost g: Gain, ghost o: int)
      requires Valid() && cur.Rec? && Drew(a0, Now(), Plus(g, One(p)), o) && g.nest >= 0
      modifies `cur, `live, `callers
      ensures Valid() && cur.Rec? && Level() == old(Level())
      ensures Drew(a0, Now(), g, o)
    {
      hide Mirrors, AllMirror, FieldMirrors, FieldsMirror, PartlyMirror, Valid, Drew, Within, Freed, Spanned, Talked, HeapOk,
        Held, Bag;
      ghost var b := Now();
      DrewTracks(a0, b, Plus(g, One(p)), o);
      ghost var rest := Bag(a0.cur.allocs) + g.blocks;
      assert Bag(cur.allocs) == rest + multiset{p};
      Free(p, true, rest);
      ThenFree(a0, b, Now(), g, One(p), o);
    }

    /** The schemas hegel__draw_alloc draws a value of. */
    predicate Standalone(s: Schema) { s.Self? || s.Struct? || s.Text? || s.Integer? || s.OneOfStruct? }

    /** hegel__draw_alloc: a standalone value behind a pointer. */
    method DrawAlloc(s: Schema, depth: int) returns (r: Res<Option<Shape>>)
      requires Valid() && cur.Rec? && Room() >= 0 && (s.Self? || WellFormed(s))
      requires target.Struct? && WellFormed(target)
      modifies this
      ensures Valid() && cur.Rec?
      ensures r.Done? ==> Drew(old(Now()), Now(), Worth(r.value), 0) && Level() == old(Level())
      ensures r.Done? && r.value.Some? ==> r.value.value.schemaBlks == []
      ensures r.Done? ==> (r.value.Some? <==> Standalone(s))
      ensures r.Done? && r.value.Some? ==> Mirrors(if s.Self? then target else s, target, r.value.value, true, depth)
      ensures r.IsFailure() ==> Within(old(Now()), Now())
      ensures r.Unwound? ==> cur.created
      decreases Room() + (if s.Self? then 1 else 0), s, 5
    {
      hide Mirrors, AllMirror, FieldMirrors, FieldsMirror, PartlyMirror, Valid, Drew, Within, Freed, Spanned, Talked, Deeper,
        Plus, One, Many, Worth, WorthAll, Gains, Owned, HeapOk, Held, Bag;
      ghost var a0 := Now();
      Steps(a0);
      Here(a0);
      match s {
        case Self => r := DrawStruct(target, depth);
        case Struct(_, _, _, _) => r := DrawStruct(s, depth);
        case Text =>
          r := DrawTextShape();
          if r.Done? { TextMirrors(s, target, r.value.value, true, depth); }
        case Integer(_) =>
          var p := Alloc();
          var _ :- DrawNumInto(s);
          var blk := Alloc();
          LeafSum(p, blk);
          assert Drew(a0, Now(), Plus(One(p), One(blk)), 0) by {
            From(a0);
            OnePositive(p);
            PlusNothing(One(p));
          }
          ScalarMirrors(s, target, Scalar(blk, [], Some(p)), true, depth);
          r := Done(Some(Scalar(blk, [], Some(p))));
        case OneOfStruct(_) =>
          var inner, tag :- DrawCase(s, depth);
          ghost var b := Now();
          var blk := Alloc();
          Then(a0, b, Now(), Worth(inner), 0, One(blk));
          VariantSum(blk, tag, inner);
          VariantMirrors(s, target, blk, tag, inner, true, depth);
          r := Done(Some(VariantShape(blk, [], tag, inner)));
        case _ =>
          NoneWorth();
          Idle(a0);
          r := Done(None);
      }
    }

    method EnterSelf()
      requires Valid() && cur.Rec?
      modifies `cur
      ensures Valid() && cur.Rec? && Level() == (old(Level()).0 - 1, old(Level()).1)
      ensures Deeper(old(Now()), Now(), 1)
    {
      hide HeapOk, Held, Bag;
      HeldSame(cur, cur.(depth := cur.depth + 1));
      cur := cur.(depth := cur.depth + 1);
    }

    method LeaveSelf()
      requires Valid() && cur.Rec? && cur.depth > 0
      modifies `cur
      ensures Valid() && cur.Rec? && Level() == (old(Level()).0 + 1, old(Level()).1)
      ensures Deeper(old(Now()), Now(), -1)
    {
      hide HeapOk, Held, Bag;
      HeldSame(cur, cur.(depth := cur.depth - 1));
      cur := cur.(depth := cur.depth - 1);
    }

    /** The child of a present optional slot; a HEGEL_SELF child is one level deeper. */
    method DrawChild(s: Schema, depth: int) returns (r: Res<Option<Shape>>)
      requires s.OptionalPtr? && (s.inner.Self? ==> cur.Rec? && cur.depth + 1 < cur.maxDepth)
      requires Valid() && cur.Rec? && Room() >= 0 && Ready(s)
      modifies this
      ensures Valid() && cur.Rec?
      ensures r.Done? ==> Drew(old(Now()), Now(), Child(s.inner.Self?, r.value), 0) && Level() == old(Level())
      ensures r.Done? ==> (r.value.Some? <==> Standalone(s.inner))
      ensures r.Done? && r.value.Some? ==> Mirrors(if s.inner.Self? then target else s.inner, target, r.value.value, true, depth - 1)
      ensures r.IsFailure() ==> Within(old(Now()), Now())
      ensures r.Unwound? ==> cur.created
      decreases Room(), s, 3
    {
      hide Mirrors, AllMirror, FieldMirrors, FieldsMirror, PartlyMirror, Valid, Drew, Within, Freed, Spanned, Talked, Deeper,
        Plus, One, Many, Worth, WorthAll, Gains, Owned, HeapOk, Held, Bag;
      ghost var a0 := Now();
      Steps(a0);
      Here(a0);
      if !s.inner.Self? {
        r := DrawAlloc(s.inner, depth - 1);
        if r.Done? { ChildWorth(r.value); }
      } else {
        EnterSelf();
        ghost var a1 := Now();
        DeeperWithin(a0, a1, 1);
        var inner :- DrawAlloc(s.inner, depth - 1);
        ghost var b1 := Now();
        DrewDepth(a1, b1, Worth(inner), 0);
        DeeperDepth(a0, a1, 1);
        LeaveSelf();
        SelfChild(a0, a1, b1, Now(), inner);
        r := Done(inner);
      }
    }

    /** Does the nullable slot have a child?  For HEGEL_SELF the engine decides, otherwise a drawn 0 / 1. */
    method Present(isSelf: bool) returns (r: Res<bool>)
      requires Valid() && cur.Rec?
      modifies `tick, `cur, `calls
      ensures Valid() && cur.Rec? && Level() == old(Level())
      ensures r.Done? ==> Drew(old(Now()), Now(), Presence(isSelf, r.value), 0)
      ensures r.Done? && isSelf && r.value ==> cur.depth + 1 < cur.maxDepth
      ensures r.Done? ==> PresenceCalls(old(calls), calls, old(cur), isSelf, r.value)
      ensures r.IsFailure() ==> Within(old(Now()), Now())
      ensures r.Unwound? ==> cur.created
    {
      hide Valid, Drew, Within, Talked, SelfCalls, HeapOk, Held, Bag;
      ghost var a0 := Now();
      Steps(a0);
      if isSelf {
        r := SelfPresent();
        return;
      }
      var bit :- DrawInt(0, 1);
      TalkedWithin(a0, Now());
      r := Done(bit == 1);
    }

    /** The slot's shape, its span, and the decision. */
    method OpenOptional(isSelf: bool) returns (r: Res<(Block, bool)>)
      requires Valid() && cur.Rec?
      modifies this
      ensures Valid() && cur.Rec?
      ensures r.Done? ==> Level() == (old(Level()).0, old(Level()).1 + 1) && old(calls) <= calls
      ensures r.Done? ==> Drew(old(Now()), Now(), Plus(One(r.value.0), Presence(isSelf, r.value.1)), 1)
      ensures r.Done? && isSelf && r.value.1 ==> cur.depth + 1 < cur.maxDepth
      ensures r.Done? ==> OptionalCalls(old(calls), calls, isSelf, old(cur), r.value.1)
      ensures r.IsFailure() ==> Within(old(Now()), Now())
      ensures r.Unwound? ==> cur.created
    {
      hide Valid, Drew, Within, Spanned, Talked, Plus, One, HeapOk, Held, Bag, PresenceAt, PresenceCalls, Presence;
      ghost var a0 := Now();
      Steps(a0);
      var blk := Alloc();
      ghost var a1 := Now();
      var _ :- SpanStart();
      ghost var b0 := Now();
      SpannedKeeps(a1, b0, 1);
      ThenSpan(a0, a1, b0, One(blk), 0, 1);
      var present :- Present(isSelf);
      ghost var b1 := Now();
      Then(a0, b0, b1, One(blk), 1, Presence(isSelf, present));
      DrewGrows(a0, b1, Plus(One(blk), Presence(isSelf, present)), 1);
      ghost var k := PresenceDecided(a0, b0, b1, isSelf, present, calls);
      r := Done((blk, present));
    }

    /** A nullable slot: its child is there exactly when the deciding call said so (and its schema
        has values of its own).  Drawing a child at depth 0 is a health failure. */
    method DrawOptional(s: Schema, depth: int) returns (r: Res<Option<Shape>>)
      requires s.OptionalPtr?
      requires Valid() && cur.Rec? && Room() >= 0 && Ready(s)
      modifies this
      ensures Valid() && cur.Rec?
      ensures r.Done? ==> Drew(old(Now()), Now(), Worth(r.value), 0) && Level() == old(Level())
      ensures r.Done? && r.value.Some? ==> r.value.value.schemaBlks == []
      ensures r.IsFailure() ==> Within(old(Now()), Now())
      ensures r.Unwound? ==> cur.created
      ensures r.Done? ==> r.value.Some? && Mirrors(s, target, r.value.value, false, depth)
      ensures r.Done? ==> r.value.value.OptionalShape?
      ensures r.Done? ==> exists present :: OptionalCalls(old(calls), calls, s.inner.Self?, old(cur), present) &&
                                            (r.value.value.inner.Some? <==> present && Standalone(s.inner))
      decreases Room(), s, 4
    {
      hide Mirrors, AllMirror, FieldMirrors, FieldsMirror, PartlyMirror, Valid, Drew, Within, Freed, Spanned, Talked, Deeper,
        Plus, One, Many, Worth, WorthAll, Gains, Owned, HeapOk, Held, Bag, OptionalCalls, Presence, Child;
      ghost var a0 := Now();
      Steps(a0);
      var isSelf := s.inner.Self?;
      var start :- OpenOptional(isSelf);
      var blk, present := start.0, start.1;
      ghost var b1 := Now();
      if present && depth == 0 && !isSelf { return Escaped; }
      var inner: Option<Shape> := None;
      if present {
        inner :- DrawChild(s, depth);
      } else {
        Idle(b1);
      }
      OptionalSum(blk, isSelf, present, inner);
      ghost var c := if present then Child(isSelf, inner) else NOTHING;
      Then(a0, b1, Now(), Plus(One(blk), Presence(isSelf, present)), 1, c);
      ghost var b2 := Now();
      DrewGrows(b1, b2, c, 0);
      var _ :- SpanStop();
      ThenSpan(a0, b2, Now(), Plus(Plus(One(blk), Presence(isSelf, present)), c), 1, -1);
      OptionalMirrors(s, target, blk, inner, false, depth);
      DecisionStays(a0.calls, b1.calls, calls, isSelf, a0.cur, present);
      r := Done(Some(OptionalShape(blk, [], isSelf, inner)));
    }

    /** One array element: in place for ARRAY_INLINE, hegel__draw_arr_of_elem otherwise. */
    method DrawElem(s: Schema, inPlace: bool, depth: int) returns (r: Res<Option<Shape>>)
      requires Valid() && cur.Rec? && Room() >= 0 && Ready(s) && (inPlace ==> s.Struct? || s.Union?)
      modifies this
      ensures Valid() && cur.Rec?
      ensures r.Done? ==> Drew(old(Now()), Now(), Worth(r.value), 0) && Level() == old(Level())
      ensures r.Done? ==> r.value.Some? && Mirrors(s, target, r.value.value, !inPlace && s.Struct?, ElemDepth(inPlace, s, depth))
      ensures r.IsFailure() ==> Within(old(Now()), Now())
      ensures r.Unwound? ==> cur.created
      decreases Room(), s, 7
    {
      hide Mirrors, AllMirror, FieldMirrors, FieldsMirror, PartlyMirror, Valid, Drew, Within, Freed, Spanned, Talked, Deeper,
        Plus, One, Many, Worth, WorthAll, Gains, Table, Owned, HeapOk, Held, Bag;
      ghost var a0 := Now();
      Steps(a0);
      Here(a0);
      if inPlace {
        if s.Struct? { r := DrawStructIntoSlot(s, depth); }
        else {
          r := DrawField(s, depth - 1);
          if r.Done? { FieldGives(s, target, r.value, depth - 1); }
        }
      } else if s.Integer? || ((s.MapNum? || s.FilterNum? || s.FlatMapNum?) && s.num == NumInt) {
        var _ :- DrawNumInto(s);
        ghost var a1 := Now();
        var v := NewLeaf();
        NestOpt(v);
        assert Drew(a0, Now(), Worth(v), 0) by { Then(a0, a1, Now(), NOTHING, 0, Worth(v)); PlusNothing(Worth(v)); }
        ScalarMirrors(s, target, v.value, false, depth);
        r := Done(v);
      } else if s.Struct? {
        r := DrawStruct(s, depth - 1);
      } else if s.OneOfStruct? {
        r := DrawAlloc(s, depth);
        if r.Done? { OneOfAnyway(s, target, r.value.value, false, depth); }
      } else if s.OptionalPtr? {
        r := DrawOptional(s, depth);
      } else if s.Depends? {
        r := DrawField(s, depth);
        if r.Done? { FieldGives(s, target, r.value, depth); }
      } else {
        r := Aborted;
      }
    }

    /** n elements, each in its own span, inside the span of the list. */
    method DrawElems(n: int, s: Schema, inPlace: bool, depth: int, ghost a0: Snap, ghost t: Gain)
      returns (r: Res<seq<Option<Shape>>>)
      requires Valid() && cur.Rec? && Room() >= 0 && Ready(s)
      requires Drew(a0, Now(), t, 1) && t.nest >= 0 && (inPlace ==> s.Struct? || s.Union?)
      modifies this
      ensures Valid() && cur.Rec?
      ensures r.Done? ==> Drew(a0, Now(), Plus(t, WorthAll(r.value)), 1) && Level() == old(Level())
      ensures r.Done? ==> |r.value| == if n < 0 then 0 else n
      ensures old(calls) <= calls
      ensures r.Done? ==> AllMirror(s, target, r.value, !inPlace && s.Struct?, ElemDepth(inPlace, s, depth))
      ensures r.IsFailure() ==> Within(a0, Now())
      ensures r.Unwound? ==> cur.created
      decreases Room(), s, 9
    {
      hide Mirrors, AllMirror, FieldMirrors, FieldsMirror, PartlyMirror, Valid, Drew, Within, Freed, Spanned, Talked, Deeper,
        Plus, One, Many, Worth, WorthAll, Gains, Table, Owned, HeapOk, Held, Bag;
      Steps(a0);
      ListStart(t);
      AllNothing(s, target, !inPlace && s.Struct?, ElemDepth(inPlace, s, depth));
      var elems: seq<Option<Shape>> := [];
      while |elems| < n
        invariant n >= 0 ==> |elems| <= n
        invariant n < 0 ==> |elems| == 0
        invariant AllMirror(s, target, elems, !inPlace && s.Struct?, ElemDepth(inPlace, s, depth))
        invariant Valid() && cur.Rec? && Level() == old(Level())
        invariant Drew(a0, Now(), Plus(t, WorthAll(elems)), 1) && old(calls) <= calls
      {
        var v :- DrawElemInSpan(s, inPlace, depth, a0, t, elems);
        AllPush(s, target, elems, !inPlace && s.Struct?, v, ElemDepth(inPlace, s, depth));
        elems := elems + [v];
      }
      r := Done(elems);
    }

    method DrawElemInSpan(s: Schema, inPlace: bool, depth: int, ghost a0: Snap, ghost t: Gain,
                          ghost elems: seq<Option<Shape>>)
      returns (r: Res<Option<Shape>>)
      requires Valid() && cur.Rec? && Room() >= 0 && Ready(s) && (inPlace ==> s.Struct? || s.Union?)
      requires Drew(a0, Now(), Plus(t, WorthAll(elems)), 1)
      modifies this
      ensures Valid() && cur.Rec?
      ensures r.Done? ==> Drew(a0, Now(), Plus(t, WorthAll(elems + [r.value])), 1) && Level() == old(Level())
      ensures old(calls) <= calls && Asking(old(calls), calls)
      ensures r.Done? ==> r.value.Some? && Mirrors(s, target, r.value.value, !inPlace && s.Struct?, ElemDepth(inPlace, s, depth))
      ensures r.Done? ==> InSpan(old(calls), calls)
      ensures r.IsFailure() ==> Within(a0, Now())
      ensures r.Unwound? ==> cur.created
      decreases Room(), s, 8
    {
      hide Mirrors, AllMirror, FieldMirrors, FieldsMirror, PartlyMirror, Valid, Drew, Within, Freed, Spanned, Talked, Deeper,
        Plus, One, Many, Worth, WorthAll, Gains, Table, Owned, HeapOk, Held, Bag, InSpan;
      Steps(a0);
      ghost var g := Plus(t, WorthAll(elems));
      ghost var b := Now();
      Steps(b);
      WithinAsks(b);
      var _ :- SpanStart();
      ThenSpan(a0, b, Now(), g, 1, 1);
      ghost var c := Now();
      var v :- DrawElem(s, inPlace, depth);
      Then(a0, c, Now(), g, 2, Worth(v));
      ListPush(t, elems, v);
      ghost var d := Now();
      DrewGrows(c, d, Worth(v), 0);
      var _ :- SpanStop();
      SpanDone(b.calls, c.calls, d.calls, calls);
      ThenSpan(a0, d, Now(), Plus(t, WorthAll(elems + [v])), 2, -1);
      r := Done(v);
    }

    method CloseList(blk: Block, arr: Block, eb: Block, elems: seq<Option<Shape>>, ghost a0: Snap)
      returns (r: Res<Option<Shape>>)
      requires Valid() && cur.Rec? && cur.openSpans > 0 && Drew(a0, Now(), Plus(Table(blk, arr, eb), WorthAll(elems)), 1)
      modifies `tick, `cur, `calls
      ensures Valid() && cur.Rec? && (r.Done? || r.Escaped?)
      ensures r.Done? ==> Level() == (old(Level()).0, old(Level()).1 - 1)
      ensures r.Done? ==> Drew(a0, Now(), Worth(r.value), 0)
      ensures r.Done? ==> r.value == Some(ArrayShape(blk, [], Some(arr), eb, elems))
      ensures |calls| == |old(calls)| + 1 && old(calls) < calls && calls[|old(calls)|].kind == CloseSpan(false)
      ensures r.IsFailure() ==> Within(a0, Now())
    {
      hide Mirrors, AllMirror, FieldMirrors, FieldsMirror, PartlyMirror, Valid, Drew, Within, Freed, Spanned, Talked, Deeper,
        Plus, One, Many, Worth, WorthAll, Gains, Table, Owned, HeapOk, Held, Bag;
      Steps(a0);
      ghost var b := Now();
      var _ :- SpanStop();
      ThenSpan(a0, b, Now(), Plus(Table(blk, arr, eb), WorthAll(elems)), 1, -1);
      ArraySum(blk, arr, eb, elems);
      r := Done(Some(ArrayShape(blk, [], Some(arr), eb, elems)));
    }

    /** The buffer of a list and the table of its element shapes. */
    method NewTable(blk: Block, ghost a0: Snap, ghost o: int) returns (arr: Block, eb: Block)
      requires Valid() && cur.Rec? && Drew(a0, Now(), One(blk), o)
      modifies `cur, `live, `callers, `limit
      ensures Valid() && cur.Rec? && Level() == old(Level())
      ensures Drew(a0, Now(), Table(blk, arr, eb), o)
    {
      hide Mirrors, AllMirror, FieldMirrors, FieldsMirror, PartlyMirror, Valid, Drew, Within, Freed, Spanned, Talked, Deeper,
        Plus, One, Many, Worth, WorthAll, Gains, Table, Owned, HeapOk, Held, Bag;
      ghost var b := Now();
      arr := Alloc();
      Then(a0, b, Now(), One(blk), o, One(arr));
      b := Now();
      eb := Alloc();
      Then(a0, b, Now(), Plus(One(blk), One(arr)), o, One(eb));
      TableNest(blk, arr, eb);
    }

    /** A span, and in it a draw between bounds. */
    method OpenAndDraw(lo: int, hi: int, ghost a0: Snap, ghost g: Gain) returns (r: Res<int>)
      requires Valid() && cur.Rec? && Drew(a0, Now(), g, 0)
      modifies `tick, `cur, `calls
      ensures Valid() && cur.Rec? && (r.Done? || r.Escaped?)
      ensures r.Done? ==> lo <= r.value <= hi && Drew(a0, Now(), g, 1) && Level() == (old(Level()).0, old(Level()).1 + 1)
      ensures r.Done? ==> AskedAt(old(calls), calls, Int(lo, hi), r.value)
      ensures r.IsFailure() ==> Within(a0, Now())
    {
      hide Valid, Drew, Within, Spanned, Talked, HeapOk, Held, Bag, AskedAt;
      Steps(a0);
      ghost var b := Now();
      var _ :- SpanStart();
      ThenSpan(a0, b, Now(), g, 0, 1);
      ghost var b1 := Now();
      r := DrawInt(lo, hi);
      ThenTalk(a0, b1, Now(), g, 1);
      if r.Done? { AskedNow(b.calls, b1.calls, calls, Int(lo, hi), r.value); }
    }

    method DrawArrayInline(s: Schema, depth: int) returns (r: Res<Option<Shape>>)
      requires s.ArrayInline?
      requires Valid() && cur.Rec? && Room() >= 0 && Ready(s)
      modifies this
      ensures Valid() && cur.Rec?
      ensures r.Done? ==> Drew(old(Now()), Now(), Worth(r.value), 0) && Level() == old(Level())
      ensures r.Done? && r.value.Some? ==> r.value.value.schemaBlks == []
      ensures r.IsFailure() ==> Within(old(Now()), Now())
      ensures r.Unwound? ==> cur.created
      ensures r.Done? ==> r.value.Some? && Mirrors(s, target, r.value.value, false, depth)
      ensures r.Done? ==> r.value.value.ArrayShape? && AskedAt(old(calls), calls, Int(s.minLen, s.maxLen), |r.value.value.elems|)
      decreases Room(), s, 5
    {
      hide Mirrors, AllMirror, FieldMirrors, FieldsMirror, PartlyMirror, Valid, Drew, Within, Freed, Spanned, Talked, Deeper,
        Plus, One, Many, Worth, WorthAll, Gains, Table, Owned, HeapOk, Held, Bag, AskedAt;
      ghost var a0 := Now();
      Steps(a0);
      Here(a0);
      var blk := Alloc();
      var n :- OpenAndDraw(s.minLen, s.maxLen, a0, One(blk));
      ghost var p := calls;
      var arr, eb := NewTable(blk, a0, 1);
      TableNest(blk, arr, eb);
      var elems :- DrawElems(n, s.elem, true, depth, a0, Table(blk, arr, eb));
      r := CloseList(blk, arr, eb, elems, a0);
      AskedStays(old(calls), p, calls, Int(s.minLen, s.maxLen), n);
      if r.Done? { ListMirrors(s, target, r.value.value, false, depth); }
    }

    /** HEGEL_ARR_OF: the engine decides element by element (HEGEL_LEN), or the length
        is read first. */
    method DrawArrOf(s: Schema, depth: int) returns (r: Res<Option<Shape>>)
      requires s.ArrOf?
      requires Valid() && cur.Rec? && Room() >= 0 && Ready(s)
      modifies this
      ensures Valid() && cur.Rec?
      ensures r.Done? ==> Drew(old(Now()), Now(), Worth(r.value), 0) && Level() == old(Level())
      ensures r.Done? && r.value.Some? ==> r.value.value.schemaBlks == []
      ensures r.IsFailure() ==> Within(old(Now()), Now())
      ensures r.Unwound? ==> cur.created
      ensures r.Done? ==> r.value.Some? && Mirrors(s, target, r.value.value, false, depth)
      ensures r.Done? && s.length.EngineLen? ==>
        (r.value.value.ArrayShape? && ListCalls(old(calls), calls, s.length.lo, s.length.hi, |r.value.value.elems|))
      decreases Room(), s, 5
    {
      hide Mirrors, AllMirror, FieldMirrors, FieldsMirror, PartlyMirror, Valid, Drew, Within, Freed, Spanned, Talked, Deeper,
        Plus, One, Many, Worth, WorthAll, Gains, Table, Owned, HeapOk, Held, Bag;
      ghost var a0 := Now();
      Steps(a0);
      Here(a0);
      var blk := Alloc();
      if s.length.EngineLen? {
        r := DrawEngineLen(s, depth, blk, a0);
      } else {
        r := DrawSizedList(s, depth, blk, a0);
      }
    }

    /** A list whose length is drawn first. */
    method DrawSizedList(s: Schema, depth: int, blk: Block, ghost a0: Snap) returns (r: Res<Option<Shape>>)
      requires s.ArrOf? && !s.length.EngineLen?
      requires Valid() && cur.Rec? && Room() >= 0 && Ready(s) && Drew(a0, Now(), One(blk), 0)
      modifies this
      ensures Valid() && cur.Rec?
      ensures r.Done? ==> Drew(a0, Now(), Worth(r.value), 0) && Level() == old(Level())
      ensures r.Done? ==> r.value.Some? && r.value.value.schemaBlks == [] && Mirrors(s, target, r.value.value, false, depth)
      ensures r.IsFailure() ==> Within(a0, Now())
      ensures r.Unwound? ==> cur.created
      decreases Room(), s, 4
    {
      hide Mirrors, AllMirror, FieldMirrors, FieldsMirror, PartlyMirror, Valid, Drew, Within, Freed, Spanned, Talked, Deeper,
        Plus, One, Many, Worth, WorthAll, Gains, Table, Owned, HeapOk, Held, Bag;
      Steps(a0);
      ghost var a1 := Now();
      var n :- DrawLength(s.length, depth);
      OnePositive(blk);
      Then(a0, a1, Now(), One(blk), 0, NOTHING);
      PlusNothing(One(blk));
      if n < 0 { return Aborted; }
      r := SizedElems(n, s, depth, blk, a0);
    }

    /** The table of a list, and n elements in its span. */
    method SizedElems(n: int, s: Schema, depth: int, blk: Block, ghost a0: Snap) returns (r: Res<Option<Shape>>)
      requires s.ArrOf? && !s.length.EngineLen?
      requires Valid() && cur.Rec? && Room() >= 0 && Ready(s) && Drew(a0, Now(), One(blk), 0)
      modifies this
      ensures Valid() && cur.Rec?
      ensures r.Done? ==> Drew(a0, Now(), Worth(r.value), 0) && Level() == old(Level())
      ensures r.Done? ==> r.value.Some? && r.value.value.schemaBlks == [] && Mirrors(s, target, r.value.value, false, depth)
      ensures r.Done? ==> r.value.value.ArrayShape? && |r.value.value.elems| == if n < 0 then 0 else n
      ensures r.IsFailure() ==> Within(a0, Now())
      ensures r.Unwound? ==> cur.created
      decreases Room(), s, 3
    {
      hide Mirrors, AllMirror, FieldMirrors, FieldsMirror, PartlyMirror, Valid, Drew, Within, Freed, Spanned, Talked, Deeper,
        Plus, One, Many, Worth, WorthAll, Gains, Table, Owned, HeapOk, Held, Bag;
      Steps(a0);
      var arr, eb := NewTable(blk, a0, 0);
      TableNest(blk, arr, eb);
      ghost var b := Now();
      var _ :- SpanStart();
      ThenSpan(a0, b, Now(), Table(blk, arr, eb), 0, 1);
      var elems :- DrawElems(n, s.elem, false, depth, a0, Table(blk, arr, eb));
      r := CloseList(blk, arr, eb, elems, a0);
      if r.Done? { ListMirrors(s, target, r.value.value, false, depth); }
    }

    method DrawEngineLen(s: Schema, depth: int, blk: Block, ghost a0: Snap) returns (r: Res<Option<Shape>>)
      requires s.ArrOf? && s.length.EngineLen?
      requires Valid() && cur.Rec? && Room() >= 0 && Ready(s) && Drew(a0, Now(), One(blk), 0)
      modifies this
      ensures Valid() && cur.Rec?
      ensures r.Done? ==> Drew(a0, Now(), Worth(r.value), 0) && Level() == old(Level())
      ensures r.Done? ==> r.value.Some? && r.value.value.schemaBlks == [] && Mirrors(s, target, r.value.value, false, depth)
      ensures r.IsFailure() ==> Within(a0, Now())
      ensures r.Unwound? ==> cur.created
      ensures r.Done? ==> r.value.value.ArrayShape? && ListCalls(old(calls), calls, s.length.lo, s.length.hi, |r.value.value.elems|)
      decreases Room(), s, 4
    {
      hide Mirrors, AllMirror, FieldMirrors, FieldsMirror, PartlyMirror, Valid, Drew, Within, Freed, Spanned, Talked, Deeper,
        Plus, One, Many, Worth, WorthAll, Gains, Table, Owned, HeapOk, Held, Bag, ListCalls, ListOpened, ListAsked, ListClosed;
      var tables :- OpenList(s, blk, a0);
      var arr, eb := tables.0, tables.1;
      ghost var p := calls;
      var more :- MoreElems(s, depth, blk, arr, eb, a0, |old(calls)| + 1);
      ghost var q := calls;
      r := CloseMade(blk, more.0, more.1, more.2, a0, |old(calls)| + 1);
      if r.Done? {
        ListMirrors(s, target, r.value.value, false, depth);
        ListDone(old(calls), p, q, calls, s.length.lo, s.length.hi, |more.2|);
      }
    }

    /** The list and its span are closed. */
    method CloseMade(blk: Block, arr: Block, eb: Block, elems: seq<Option<Shape>>, ghost a0: Snap, ghost list: nat)
      returns (r: Res<Option<Shape>>)
      requires Valid() && cur.Rec? && cur.openSpans > 0 && Drew(a0, Now(), Plus(Table(blk, arr, eb), WorthAll(elems)), 1)
      modifies `tick, `cur, `calls
      ensures Valid() && cur.Rec? && (r.Done? || r.Escaped?)
      ensures r.Done? ==> Level() == (old(Level()).0, old(Level()).1 - 1)
      ensures r.Done? ==> Drew(a0, Now(), Worth(r.value), 0)
      ensures r.Done? ==> r.value == Some(ArrayShape(blk, [], Some(arr), eb, elems)) && ListClosed(old(calls), calls)
      ensures r.IsFailure() ==> Within(a0, Now())
    {
      hide Valid, Drew, Within, Plus, Worth, WorthAll, Table, HeapOk, Held, Bag;
      Steps(a0);
      var _ :- ListCall(FreeList(list), a0, Plus(Table(blk, arr, eb), WorthAll(elems)));    // hegel_collection_free
      r := CloseList(blk, arr, eb, elems, a0);
    }

    /** A list is made, in its span. */
    method OpenList(s: Schema, blk: Block, ghost a0: Snap) returns (r: Res<(Block, Block)>)
      requires s.ArrOf? && s.length.EngineLen? && Valid() && cur.Rec? && Drew(a0, Now(), One(blk), 0)
      modifies this
      ensures Valid() && cur.Rec? && (r.Done? || r.Escaped?)
      ensures r.Done? ==> Drew(a0, Now(), Table(blk, r.value.0, r.value.1), 1) && Level() == (old(Level()).0, old(Level()).1 + 1)
      ensures r.Done? ==> ListOpened(old(calls), calls, s.length.lo, s.length.hi)
      ensures r.Done? ==> |calls| == |old(calls)| + 2 && |a0.calls| <= |old(calls)|
      ensures r.IsFailure() ==> Within(a0, Now())
    {
      hide Valid, Drew, Within, Spanned, Talked, Plus, One, Table, HeapOk, Held, Bag;
      Steps(a0);
      DrewGrows(a0, Now(), One(blk), 0);
      var arr, eb := NewTable(blk, a0, 0);
      ghost var b := Now();
      var _ :- SpanStart();
      ThenSpan(a0, b, Now(), Table(blk, arr, eb), 0, 1);
      var _ :- ListCall(NewList(s.length.lo, s.length.hi), a0, Table(blk, arr, eb));     // hegel_collection_new
      r := Done((arr, eb));
    }

    /** A call about a list that moves nothing. */
    method ListCall(ghost kind: Kind, ghost a0: Snap, ghost g: Gain) returns (r: Res<()>)
      requires cur.Rec? && (kind.NewList? || kind.FreeList?) && Drew(a0, Now(), g, 1)
      modifies `tick, `calls
      ensures (r.Done? || r.Escaped?) && Drew(a0, Now(), g, 1)
      ensures |calls| == |old(calls)| + 1 && old(calls) < calls && calls[|old(calls)|].kind == kind
    {
      hide Drew, Talked;
      ghost var b := Now();
      var told := Ask(kind);
      TalkOne(b, Now(), calls[|b.calls|]);
      ThenTalk(a0, b, Now(), g, 1);
      r := if told.Done? then Done(()) else Escaped;
    }

    /** hegel_collection_more: the bounds of the list are kept by the engine. */
    method AskMore(lo: nat, hi: nat, n: nat, ghost a0: Snap, ghost g: Gain, ghost list: nat) returns (r: Res<bool>)
      requires cur.Rec? && lo <= hi && n <= hi && |a0.calls| <= list && Drew(a0, Now(), g, 1)
      modifies `tick, `calls
      ensures (r.Done? || r.Escaped?) && Drew(a0, Now(), g, 1) && old(calls) < calls
      ensures r.Done? ==> Mores(calls, list) == Mores(old(calls), list) + [if r.value then 1 else 0]
      ensures r.Done? ==> if r.value then n < hi else lo <= n
    {
      hide Drew, Mores;
      ghost var c := Now();
      var more := Choose(More(list), if n < lo then 1 else 0, if n == hi then 0 else 1);
      ThenMore(a0, c, Now(), g, 1, list);
      Pushed(c.calls, calls[|c.calls|]);
      r := if more.Done? then Done(more.value == 1) else Escaped;
    }

    /** Elements until the engine has enough; a full buffer moves to one twice the size. */
    method MoreElems(s: Schema, depth: int, blk: Block, arr: Block, eb: Block, ghost a0: Snap, ghost list: nat)
      returns (r: Res<(Block, Block, seq<Option<Shape>>)>)
      requires s.ArrOf? && s.length.EngineLen?
      requires Valid() && cur.Rec? && Room() >= 0 && Ready(s) && |a0.calls| <= list < |calls|
      requires Drew(a0, Now(), Table(blk, arr, eb), 1)
      modifies this
      ensures Valid() && cur.Rec?
      ensures r.Done? ==> Drew(a0, Now(), Plus(Table(blk, r.value.0, r.value.1), WorthAll(r.value.2)), 1) && Level() == old(Level())
      ensures r.Done? ==> s.length.lo <= |r.value.2| <= s.length.hi
      ensures r.Done? ==> AllMirror(s.elem, target, r.value.2, s.elem.Struct?, ElemDepth(false, s.elem, depth))
      ensures r.Done? ==> ListAsked(old(calls), calls, list, |r.value.2|)
      ensures r.IsFailure() ==> Within(a0, Now())
      ensures r.Unwound? ==> cur.created
      decreases Room(), s, 3
    {
      hide Mirrors, AllMirror, FieldMirrors, FieldsMirror, PartlyMirror, Valid, Drew, Within, Freed, Spanned, Talked, Deeper,
        Plus, One, Many, Worth, WorthAll, Gains, Table, Owned, HeapOk, Held, Bag, Mores, InSpan, ElemDepth;
      Steps(a0);
      ListStart(Table(blk, arr, eb));
      TableNest(blk, arr, eb);
      AllNothing(s.elem, target, s.elem.Struct?, ElemDepth(false, s.elem, depth));
      var arr, eb, cap := arr, eb, 4;
      var elems: seq<Option<Shape>> := [];
      ghost var asked := Mores(calls, list);
      while true
        invariant |elems| <= s.length.hi && AllMirror(s.elem, target, elems, s.elem.Struct?, ElemDepth(false, s.elem, depth))
        invariant Valid() && cur.Rec? && Level() == old(Level())
        invariant Drew(a0, Now(), Plus(Table(blk, arr, eb), WorthAll(elems)), 1)
        invariant old(calls) <= calls && Mores(calls, list) == asked + Ones(|elems|)
        decreases s.length.hi - |elems|
      {
        var more :- AskMore(s.length.lo, s.length.hi, |elems|, a0, Plus(Table(blk, arr, eb), WorthAll(elems)), list);
        if !more { return Done((arr, eb, elems)); }
        if |elems| == cap {
          cap := 2 * cap;
          arr, eb := GrowList(blk, arr, eb, elems, a0);
        }
        ghost var d := calls;
        var v :- DrawElemInSpan(s.elem, false, depth, a0, Table(blk, arr, eb), elems);
        OthersAsk(d, calls, list);
        assert Ones(|elems| + 1) == Ones(|elems|) + [1];
        AllPush(s.elem, target, elems, s.elem.Struct?, v, ElemDepth(false, s.elem, depth));
        elems := elems + [v];
      }
    }

    /** A full buffer and its shape table move to blocks twice the size. */
    method GrowList(blk: Block, arr: Block, eb: Block, elems: seq<Option<Shape>>, ghost a0: Snap)
      returns (arr': Block, eb': Block)
      requires Valid() && cur.Rec? && Drew(a0, Now(), Plus(Table(blk, arr, eb), WorthAll(elems)), 1)
      modifies `cur, `live, `callers, `limit
      ensures Valid() && cur.Rec? && Level() == old(Level())
      ensures Drew(a0, Now(), Plus(Table(blk, arr', eb'), WorthAll(elems)), 1)
    {
      hide Mirrors, AllMirror, FieldMirrors, FieldsMirror, PartlyMirror, Valid, Drew, Within, Freed, Spanned, Talked, Deeper,
        Plus, One, Many, Worth, WorthAll, Gains, Table, Owned, HeapOk, Held, Bag;
      ghost var w := WorthAll(elems);
      WorthAllNest(elems);
      ghost var b := Now();
      arr' := Alloc();
      Then(a0, b, Now(), Plus(Table(blk, arr, eb), w), 1, One(arr'));
      Regroup(blk, arr, eb, arr', eb, w);
      Regroup(blk, arr', eb, arr, eb, w);
      FreeTracked(arr, a0, Plus(Table(blk, arr', eb), w), 1);
      b := Now();
      eb' := Alloc();
      Then(a0, b, Now(), Plus(Table(blk, arr', eb), w), 1, One(eb'));
      Regroup(blk, arr', eb, arr', eb', w);
      Regroup(blk, arr', eb', arr', eb, w);
      FreeTracked(eb, a0, Plus(Table(blk, arr', eb'), w), 1);
    }

    /** HEGEL_LEN_PREFIXED_ARRAY / HEGEL_TERMINATED_ARRAY: n drawn slots and one synthetic. */
    method DrawBuffer(s: Schema, depth: int) returns (r: Res<Option<Shape>>)
      requires s.LenPrefixed? || s.Terminated?
      requires Valid() && cur.Rec? && Room() >= 0 && Ready(s)
      modifies this
      ensures Valid() && cur.Rec?
      ensures r.Done? ==> Drew(old(Now()), Now(), Worth(r.value), 0) && Level() == old(Level())
      ensures r.Done? && r.value.Some? ==> r.value.value.schemaBlks == []
      ensures r.IsFailure() ==> Within(old(Now()), Now())
      ensures r.Unwound? ==> cur.created
      ensures r.Done? ==> r.value.Some? && Mirrors(s, target, r.value.value, false, depth)
      decreases Room(), s, 5
    {
      hide Mirrors, AllMirror, FieldMirrors, FieldsMirror, PartlyMirror, Valid, Drew, Within, Freed, Spanned, Talked, Deeper,
        Plus, One, Many, Worth, WorthAll, Gains, Table, Owned, HeapOk, Held, Bag;
      ghost var a0 := Now();
      Steps(a0);
      Here(a0);
      var n :- DrawLength(s.length, depth);
      ghost var a1 := Now();
      var tooLong := Data();
      if n < 0 || (s.LenPrefixed? && tooLong == 1) { return Aborted; }
      var ready, blk, arr, eb := OpenBuffer();
      if ready.IsFailure() { return ready.PropagateFailure(); }
      BufferStart(a0, a1, Now(), arr, blk, eb);
      TableNest(blk, arr, eb);
      var elems :- DrawSlots(n, s, a0, Table(blk, arr, eb));
      r := CloseList(blk, arr, eb, elems, a0);
      if r.Done? { BufferMirrors(s, target, r.value.value, false, depth); }
    }

    /** A buffer's blocks, and the span its slots are drawn in. */
    method OpenBuffer() returns (r: Res<()>, blk: Block, arr: Block, eb: Block)
      requires Valid() && cur.Rec?
      modifies this
      ensures Valid() && cur.Rec? && (r.Done? || r.Escaped?)
      ensures r.Done? ==> Level() == (old(Level()).0, old(Level()).1 + 1)
      ensures r.Done? ==> Drew(old(Now()), Now(), Plus(Plus(One(arr), One(blk)), One(eb)), 1)
      ensures r.IsFailure() ==> Within(old(Now()), Now())
    {
      hide Mirrors, AllMirror, FieldMirrors, FieldsMirror, PartlyMirror, Valid, Drew, Within, Freed, Spanned, Talked, Deeper,
        Plus, One, Many, Worth, WorthAll, Gains, Table, Owned, HeapOk, Held, Bag;
      ghost var a0 := Now();
      Steps(a0);
      arr := Alloc();
      ghost var b := Now();
      blk := Alloc();
      Then(a0, b, Now(), One(arr), 0, One(blk));
      b := Now();
      eb := Alloc();
      Then(a0, b, Now(), Plus(One(arr), One(blk)), 0, One(eb));
      b := Now();
      var _ :- SpanStart();
      ThenSpan(a0, b, Now(), Plus(Plus(One(arr), One(blk)), One(eb)), 0, 1);
      r := Done(());
    }

    method DrawSlots(n: int, s: Schema, ghost a0: Snap, ghost t: Gain) returns (r: Res<seq<Option<Shape>>>)
      requires s.LenPrefixed? || s.Terminated?
      requires Valid() && cur.Rec? && Drew(a0, Now(), t, 1) && t.nest >= 0
      modifies this
      ensures Valid() && cur.Rec? && !r.Unwound? && (r.Done? ==> Level() == old(Level()))
      ensures r.Done? ==> Drew(a0, Now(), Plus(t, WorthAll(r.value)), 1)
      ensures r.Done? && n >= 0 ==> |r.value| == n + 1 && Leaves(r.value)
      ensures r.IsFailure() ==> Within(a0, Now())
    {
      hide Mirrors, AllMirror, FieldMirrors, FieldsMirror, PartlyMirror, Valid, Drew, Within, Freed, Spanned, Talked, Deeper,
        Plus, One, Many, Worth, WorthAll, Gains, Table, Owned, HeapOk, Held, Bag;
      Steps(a0);
      ListStart(t);
      var elems: seq<Option<Shape>> := [];
      ghost var b := Now();
      if s.LenPrefixed? {
        var v := NewLeaf();
        Then(a0, b, Now(), Plus(t, WorthAll(elems)), 1, Worth(v));
        ListPush(t, elems, v);
        elems := elems + [v];
      }
      var i := 0;
      while i < n
        invariant |elems| == i + if s.LenPrefixed? then 1 else 0
        invariant (n >= 0 ==> i <= n) && Leaves(elems)
        invariant Valid() && cur.Rec? && Level() == old(Level())
        invariant Drew(a0, Now(), Plus(t, WorthAll(elems)), 1)
      {
        var v :- DrawSlot(s, a0, t, elems);
        elems := elems + [v];
        i := i + 1;
      }
      if s.Terminated? {
        b := Now();
        var v := NewLeaf();
        Then(a0, b, Now(), Plus(t, WorthAll(elems)), 1, Worth(v));
        ListPush(t, elems, v);
        elems := elems + [v];
      }
      r := Done(elems);
    }

    /** One drawn buffer slot; an element equal to the sentinel aborts. */
    method DrawSlot(s: Schema, ghost a0: Snap, ghost t: Gain, ghost elems: seq<Option<Shape>>)
      returns (r: Res<Option<Shape>>)
      requires s.LenPrefixed? || s.Terminated?
      requires Valid() && cur.Rec? && Drew(a0, Now(), Plus(t, WorthAll(elems)), 1)
      modifies this
      ensures Valid() && cur.Rec? && !r.Unwound? && (r.Done? ==> Level() == old(Level()))
      ensures r.Done? ==> Drew(a0, Now(), Plus(t, WorthAll(elems + [r.value])), 1)
      ensures r.Done? ==> r.value.Some? && r.value.value.Scalar?
      ensures r.IsFailure() ==> Within(a0, Now())
    {
      hide Mirrors, AllMirror, FieldMirrors, FieldsMirror, PartlyMirror, Valid, Drew, Within, Freed, Spanned, Talked, Deeper,
        Plus, One, Many, Worth, WorthAll, Gains, Table, Owned, HeapOk, Held, Bag;
      Steps(a0);
      ghost var g := Plus(t, WorthAll(elems));
      GainNest(t, elems);
      ghost var b := Now();
      var _ :- SpanStart();
      ThenSpan(a0, b, Now(), g, 1, 1);
      b := Now();
      var _ :- DrawNumInto(s.elem);
      Then(a0, b, Now(), g, 2, NOTHING);
      PlusNothing(g);
      var collides := Data();
      if s.Terminated? && collides == 1 { return Aborted; }
      b := Now();
      var v := NewLeaf();
      Then(a0, b, Now(), g, 2, Worth(v));
      ListPush(t, elems, v);
      b := Now();
      var _ :- SpanStop();
      ThenSpan(a0, b, Now(), Plus(t, WorthAll(elems + [v])), 2, -1);
      r := Done(v);
    }

    method DrawUnion(s: Schema, depth: int) returns (r: Res<Option<Shape>>)
      requires s.Union? || s.Variant?
      requires Valid() && cur.Rec? && Room() >= 0 && Ready(s)
      modifies this
      ensures Valid() && cur.Rec?
      ensures r.Done? ==> Drew(old(Now()), Now(), Worth(r.value), 0) && Level() == old(Level())
      ensures r.Done? ==> r.value.Some? && r.value.value.schemaBlks == [] && Mirrors(s, target, r.value.value, false, depth)
      ensures r.IsFailure() ==> Within(old(Now()), Now())
      ensures r.Unwound? ==> cur.created
      ensures r.Done? ==> r.value.value.VariantShape? && AskedAt(old(calls), calls, Int(0, |s.cases| - 1), r.value.value.tag)
      decreases Room(), s, 5
    {
      hide Mirrors, AllMirror, FieldMirrors, FieldsMirror, PartlyMirror, Valid, Drew, Within, Freed, Spanned, Talked, Deeper,
        Plus, One, Many, Worth, WorthAll, Gains, Table, Owned, HeapOk, Held, Bag, AskedAt;
      ghost var a0 := Now();
      Steps(a0);
      var blk := Alloc();
      ghost var b := Now();
      var inner, tag :- DrawCase(s, depth);
      Then(a0, b, Now(), One(blk), 0, Worth(inner));
      VariantSum(blk, tag, inner);
      VariantMirrors(s, target, blk, tag, inner, false, depth);
      r := Done(Some(VariantShape(blk, [], tag, inner)));
    }

    /** Pick a case by index and draw its struct, in two spans: in place for a union,
        behind a pointer otherwise. */
    method DrawCase(s: Schema, depth: int) returns (r: Res<Option<Shape>>, tag: int)
      requires s.Union? || s.Variant? || s.OneOfStruct?
      requires Valid() && cur.Rec? && Room() >= 0 && Ready(s)
      modifies this
      ensures Valid() && cur.Rec?
      ensures r.Done? ==> Drew(old(Now()), Now(), Worth(r.value), 0) && Level() == old(Level())
      ensures r.Done? ==> 0 <= tag < |s.cases| && r.value.Some?
      ensures r.Done? ==> Mirrors(s.cases[tag], target, r.value.value, !s.Union?, CaseDepth(s, depth))
      ensures r.Done? ==> AskedAt(old(calls), calls, Int(0, |s.cases| - 1), tag)
      ensures r.IsFailure() ==> Within(old(Now()), Now())
      ensures r.Unwound? ==> cur.created
      decreases Room(), s, 4
    {
      hide Mirrors, AllMirror, FieldMirrors, FieldsMirror, PartlyMirror, Valid, Drew, Within, Freed, Spanned, Talked, Deeper,
        Plus, One, Many, Worth, WorthAll, Gains, Table, Owned, HeapOk, Held, Bag, AskedAt;
      ghost var a0 := Now();
      Steps(a0);
      Here(a0);
      tag := 0;
      Idle(a0);
      tag :- OpenAndDraw(0, |s.cases| - 1, a0, NOTHING);
      ghost var p := calls;
      ghost var b := Now();
      var inner :- DrawPicked(s, tag, depth);
      Then(a0, b, Now(), NOTHING, 1, Worth(inner));
      NestOpt(inner);
      PlusNothing(Worth(inner));
      DrewGrows(b, Now(), Worth(inner), 0);
      b := Now();
      var _ :- SpanStop();
      ThenSpan(a0, b, Now(), Worth(inner), 1, -1);
      AskedStays(old(calls), p, calls, Int(0, |s.cases| - 1), tag);
      r := Done(inner);
    }

    /** The picked case's struct, in a span of its own. */
    method DrawPicked(s: Schema, tag: int, depth: int) returns (r: Res<Option<Shape>>)
      requires (s.Union? || s.Variant? || s.OneOfStruct?) && 0 <= tag < |s.cases|
      requires Valid() && cur.Rec? && Room() >= 0 && Ready(s)
      modifies this
      ensures Valid() && cur.Rec?
      ensures r.Done? ==> Drew(old(Now()), Now(), Worth(r.value), 0) && Level() == old(Level())
      ensures r.Done? ==> r.value.Some? && Mirrors(s.cases[tag], target, r.value.value, !s.Union?, CaseDepth(s, depth))
      ensures r.Done? ==> InSpan(old(calls), calls)
      ensures r.IsFailure() ==> Within(old(Now()), Now())
      ensures r.Unwound? ==> cur.created
      decreases Room(), s, 3
    {
      hide Mirrors, AllMirror, FieldMirrors, FieldsMirror, PartlyMirror, Valid, Drew, Within, Freed, Spanned, Talked, Deeper,
        Plus, One, Many, Worth, WorthAll, Gains, Table, Owned, HeapOk, Held, Bag, InSpan;
      ghost var a0 := Now();
      Steps(a0);
      Here(a0);
      var _ :- SpanStart();
      Opens(a0, Now());
      ghost var b := Now();
      var inner: Option<Shape> := None;
      if s.Union? {
        inner :- DrawStructIntoSlot(s.cases[tag], depth + 1);
      } else {
        inner :- DrawStruct(s.cases[tag], depth - 1);
      }
      Then(a0, b, Now(), NOTHING, 1, Worth(inner));
      NestOpt(inner);
      PlusNothing(Worth(inner));
      DrewGrows(b, Now(), Worth(inner), 0);
      ghost var p1, q := b.calls, calls;
      b := Now();
      var _ :- SpanStop();
      SpanDone(a0.calls, p1, q, calls);
      ThenSpan(a0, b, Now(), Worth(inner), 1, -1);
      r := Done(inner);
    }

    /** HEGEL_DEPENDS: draw the schema the callback returned; the shape takes it over. */
    method DrawDepends(s: Schema, depth: int) returns (r: Res<Option<Shape>>)
      requires s.Depends?
      requires Valid() && cur.Rec? && Room() >= 0 && Ready(s)
      modifies this
      ensures Valid() && cur.Rec?
      ensures r.Done? ==> Drew(old(Now()), Now(), Worth(r.value), 0) && Level() == old(Level())
      ensures r.IsFailure() ==> Within(old(Now()), Now())
      ensures r.Unwound? ==> cur.created
      ensures r.Done? ==> r.value.Some? && Mirrors(s, target, r.value.value, false, depth)
      decreases Room(), s, 5
    {
      hide Mirrors, AllMirror, FieldMirrors, FieldsMirror, PartlyMirror, Valid, Drew, Within, Freed, Spanned, Talked, Deeper,
        Plus, One, Many, Worth, WorthAll, Gains, Table, Owned, HeapOk, Held, Bag;
      ghost var a0 := Now();
      Steps(a0);
      Here(a0);
      if s.produced == [] { return Aborted; }
      var pick := Data();
      var next := s.produced[pick % |s.produced|];
      var ps := AllocSchema();
      if next.ArrayInline? || next.Self? || next.OneOfStruct? || next.Let? || next.LetArr? ||
         next.Depends? || next.Derived? || next.EngineLen? { return Aborted; }
      var misfit := Data();
      if misfit == 1 { return Aborted; }
      var v :- DrawField(next, depth);
      SchemaSum(ps, v.value);
      FieldGives(next, target, v, depth);
      DependsMirrors(s, target, pick % |s.produced|, v.value, ps, false, depth);
      assert Drew(a0, Now(), Plus(Many(ps), Worth(v)), 0) by { From(a0); }
      r := Done(Some(v.value.(schemaBlks := ps)));
    }

    /** A scalar that draws a number, or reads one that is already there. */
    method DrawScalar(s: Schema) returns (r: Res<Option<Shape>>)
      requires IntSource(s) || s.Float?
      requires Valid() && cur.Rec?
      modifies this
      ensures Valid() && cur.Rec? && !r.Unwound? && (r.Done? ==> Level() == old(Level()))
      ensures r.Done? ==> Drew(old(Now()), Now(), Worth(r.value), 0)
      ensures r.Done? ==> r.value.Some? && r.value.value.Scalar? && r.value.value.schemaBlks == []
      ensures r.IsFailure() ==> Within(old(Now()), Now())
    {
      hide Mirrors, AllMirror, FieldMirrors, FieldsMirror, PartlyMirror, Valid, Drew, Within, Freed, Spanned, Talked, Deeper,
        Plus, One, Many, Worth, WorthAll, Gains, Table, Owned, HeapOk, Held, Bag;
      ghost var a0 := Now();
      Steps(a0);
      Here(a0);
      if s.Use? || s.UseAt? || s.UsePath? {
        var found := Data();
        if found == 0 { return Aborted; }
        Idle(a0);
      } else if s.ConstInt? {
        Idle(a0);
      } else if s.FlatMapNum? {
        var _ :- DrawFlatMap(s, true);
      } else if s.OneOfScalar? {
        var _ :- DrawOneOfScalar(s, true);
      } else {
        var _ :- DrawNumInto(s);
      }
      ghost var a1 := Now();
      var v := NewLeaf();
      NestOpt(v);
      Then(a0, a1, Now(), NOTHING, 0, Worth(v));
      PlusNothing(Worth(v));
      r := Done(v);
    }

    method DrawRegex() returns (r: Res<Option<Shape>>)
      requires Valid() && cur.Rec?
      modifies this
      ensures Valid() && cur.Rec? && !r.Unwound? && (r.Done? ==> Level() == old(Level()))
      ensures r.Done? ==> Drew(old(Now()), Now(), Worth(r.value), 0)
      ensures r.Done? ==> r.value.Some? && r.value.value.schemaBlks == []
      ensures r.Done? ==> r.value.value.TextShape? && r.value.value.owned.Some?
      ensures r.IsFailure() ==> Within(old(Now()), Now())
    {
      hide Mirrors, AllMirror, FieldMirrors, FieldsMirror, PartlyMirror, Valid, Drew, Within, Freed, Spanned, Talked, Deeper,
        Plus, One, Many, Worth, WorthAll, Gains, Table, Owned, HeapOk, Held, Bag;
      ghost var a0 := Now();
      Steps(a0);
      var buf := Alloc();
      ghost var b0 := Now();
      var _ :- Number();
      ThenTalk(a0, b0, Now(), One(buf), 0);
      ghost var b := Now();
      var blk := Alloc();
      Then(a0, b, Now(), One(buf), 0, One(blk));
      LeafSum(buf, blk);
      r := Done(Some(TextShape(blk, [], Some(buf))));
    }

    /** hegel__draw_field. */
    method DrawField(s: Schema, depth: int) returns (r: Res<Option<Shape>>)
      requires Valid() && cur.Rec? && Room() >= 0 && Ready(s)
      modifies this
      ensures Valid() && cur.Rec?
      ensures r.Done? ==> Drew(old(Now()), Now(), Worth(r.value), 0) && Level() == old(Level())
      ensures r.Done? && r.value.Some? && !s.Depends? ==> r.value.value.schemaBlks == []
      ensures r.Done? && !s.OneOfStruct? ==> r.value.Some?
      ensures r.Done? && IntSource(s) ==> r.value.Some? && r.value.value.Scalar?
      ensures r.Done? ==> FieldMirrors(s, target, r.value, depth)
      ensures r.IsFailure() ==> Within(old(Now()), Now())
      ensures r.Unwound? ==> cur.created
      decreases Room(), s, 6
    {
      hide Mirrors, AllMirror, FieldMirrors, FieldsMirror, PartlyMirror, Valid, Drew, Within, Freed, Spanned, Talked, Deeper,
        Plus, One, Many, Worth, WorthAll, Gains, Table, Owned, HeapOk, Held, Bag, InSpan, AskedAt, ListCalls, OptionalCalls;
      ghost var a0 := Now();
      Steps(a0);
      Here(a0);
      if IntSource(s) || s.Float? {
        r := DrawScalar(s);
        if r.Done? {
          ScalarMirrors(s, target, r.value.value, false, depth);
          FieldIs(s, target, r.value, depth);
        }
        return;
      }
      match s {
        case Text =>
          r := DrawTextShape();
          if r.Done? { TextMirrors(s, target, r.value.value, false, depth); }
        case Regex =>
          r := DrawRegex();
          if r.Done? { TextMirrors(s, target, r.value.value, false, depth); }
        case OptionalPtr(_) => r := DrawOptional(s, depth);
        case ArrayInline(_, _, _, _, _) => r := DrawArrayInline(s, depth);
        case Struct(_, _, _, _) => r := DrawStructIntoSlot(s, depth);
        case Union(_, _, _, _) => r := DrawUnion(s, depth);
        case Variant(_) => r := DrawUnion(s, depth);
        case ArrOf(_, _) => r := DrawArrOf(s, depth);
        case LenPrefixed(_, _) => r := DrawBuffer(s, depth);
        case Terminated(_, _) => r := DrawBuffer(s, depth);
        case Depends(_, _, _) => r := DrawDepends(s, depth);
        case OneOfStruct(_) =>
          NoneWorth();
          Idle(a0);
          NoField(s, target, None, depth);
          r := Done(None);
        case _ => r := Aborted;
      }
      if r.Done? && !s.OneOfStruct? { FieldIs(s, target, r.value, depth); }
    }

    /* ---- The top-level draw ---- */

    /** A record is pushed; its own block is not the caller's to see. */
    method PushRecord(maxDepth: nat)
      requires Valid()
      modifies `cur, `limit, `live, `callers
      ensures Valid() && callers == old(callers)
      ensures cur.Rec? && cur.prev == old(cur) && cur.allocs == [] && !cur.created && cur.depth == 0 &&
              cur.openSpans == 0 && cur.maxDepth == maxDepth && cur.leaves == 0
    {
      hide HeapOk, Held, Bag;
      var blk := RawAlloc();
      HeapPush(live, old(callers), cur, limit, blk, maxDepth, grantedAttempts);
      cur := Rec(blk, None, 0, [], false, maxDepth, 0, 0, grantedAttempts, 0, cur);
      callers := old(callers);
    }

    /** n_allocs = 0: what the record tracked is nobody's but the caller's now. */
    method Surrender() returns (ps: seq<Block>)
      requires Valid() && cur.Rec?
      modifies `cur, `callers
      ensures Valid() && cur == old(cur).(allocs := []) && ps == old(cur).allocs
      ensures callers == old(callers) + Bag(ps)
    {
      hide HeapOk, Held, Bag;
      HeapSurrender(live, callers, cur, limit);
      ps := cur.allocs;
      callers := callers + Bag(ps);
      cur := cur.(allocs := []);
    }

    /** The record leaves the chain; its block, table and tracked blocks stay allocated. */
    method PopRecord() returns (blk: Block, table: Option<Block>, ps: seq<Block>)
      requires Valid() && cur.Rec?
      modifies `cur, `callers
      ensures Valid() && cur == old(cur).prev && ps == old(cur).allocs
      ensures callers == old(callers) + Bag(ps) + OptBlock(table) + multiset{blk}
    {
      hide HeapOk, Held, Bag;
      HeapPop(live, callers, cur, limit);
      blk, table, ps := cur.blk, cur.table, cur.allocs;
      callers := callers + Bag(ps) + OptBlock(table) + multiset{blk};
      cur := cur.prev;
    }

    method RawFreeAll(ps: seq<Block>, ghost rest: multiset<Block>)
      requires Valid() && callers == rest + Bag(ps)
      modifies `live, `callers
      ensures Valid() && callers == rest
    {
      hide Valid;
      var n := |ps|;
      assert ps[..n] == ps;
      while n > 0
        invariant 0 <= n <= |ps| && Valid() && callers == rest + Bag(ps[..n])
      {
        n := n - 1;
        assert ps[..n+1][..n] == ps[..n];
        assert callers == rest + Bag(ps[..n]) + multiset{ps[n]};
        RawFree(ps[n]);
        Cancel(callers, rest + Bag(ps[..n]), ps[n]);
      }
    }

    /** Closes, with discard set, every span the attempt left open. */
    method CloseSpans() returns (r: Res<()>)
      requires Valid() && cur.Rec?
      modifies `tick, `cur, `calls
      ensures Valid() && (r.Done? || r.Escaped?)
      ensures cur.Rec? && cur == old(cur).(openSpans := cur.openSpans)
      ensures r.Done? ==> cur.openSpans == 0 && Discarded(old(calls), calls, old(cur.openSpans))
    {
      hide HeapOk, Held, Bag;
      ghost var open := cur.openSpans;
      while cur.openSpans > 0
        invariant Valid() && cur.Rec? && cur == old(cur).(openSpans := cur.openSpans)
        invariant cur.openSpans <= open && Discarded(old(calls), calls, open - cur.openSpans)
        decreases if cur.Rec? then cur.openSpans else 0
      {
        var _ :- Ask(CloseSpan(true));
        HeldSame(cur, cur.(openSpans := cur.openSpans - 1));
        cur := cur.(openSpans := cur.openSpans - 1);
      }
      r := Done(());
    }

    /** What the draw of one attempt starts from, and what it leaves for the loop to decide. */
    method Attempt(s: Schema, asStruct: bool, depth: int) returns (r: Res<Option<Shape>>)
      requires Valid() && Ready(s) && (asStruct ==> s.Struct?)
      requires cur.Rec? && cur.allocs == [] && cur.depth == cur.openSpans == cur.leaves == 0
      modifies this
      ensures Valid() && cur.Rec? && cur.prev == old(cur.prev) && callers == old(callers)
      ensures cur.maxDepth == old(cur.maxDepth) && cur.attempts == old(cur.attempts)
      ensures SpansOpen(calls) - cur.openSpans == SpansOpen(old(calls))
      ensures Goes(old(calls), calls, old(cur.created), cur.created, cur.maxDepth)
      ensures r.Unwound? ==> cur.created
      ensures r.Done? ==> cur.openSpans == 0 && Bag(cur.allocs) == OwnedOpt(r.value)
      ensures r.Done? ==> NullSelfsOpt(r.value) <= SELF_MAX_LEAVES && RootMirrors(s, target, r.value, asStruct, depth)
      ensures r.Done? && NestingOpt(r.value) > 0 ==> NestingOpt(r.value) < cur.maxDepth
    {
      hide Valid, HeapOk, Held, Bag, WellFormed, Mirrors, FieldMirrors;
      if asStruct { r := DrawStruct(s, depth); } else { r := DrawField(s, depth); }
      if r.Done? { FromNothing(old(cur.allocs), cur.allocs, OwnedOpt(r.value)); }
    }

    /** The engine judged a finished value mispriced: free it, forget it, start over. */
    method DropValue(v: Option<Shape>)
      requires Valid() && cur.Rec? && cur.attempts > 0 && Bag(cur.allocs) == OwnedOpt(v)
      modifies `cur, `live, `callers
      ensures Valid() && callers == old(callers) && NextAttempt(old(cur))
    {
      hide HeapOk, Held, Bag, Owned, OwnedOpt;
      var _ := Surrender();
      ShapeFree(v, false, old(callers));
      Again();
    }

    /** Over the leaf budget: free what was drawn, close its spans, ask for another attempt. */
    method Retry() returns (r: Res<()>)
      requires Valid() && cur.Rec?
      modifies `tick, `cur, `live, `callers, `calls
      ensures Valid() && callers == old(callers) && (r.Done? || r.Escaped?)
      ensures cur.Rec? && cur.prev == old(cur.prev)
      ensures r.Done? ==> old(cur.attempts) > 0 && NextAttempt(old(cur))
      ensures r.Done? ==> SpansOpen(calls) == SpansOpen(old(calls)) - old(cur.openSpans)
      ensures r.Done? ==> Marks(calls) == Marks(old(calls)) + [Retried]
      ensures r.Done? ==> Discarded(old(calls), calls[..|calls|-1], old(cur.openSpans)) && calls[|calls|-1].kind == Kind.Retry
    {
      hide HeapOk, Held, Bag, Marks, SpansOpen, Discarded;
      var ps := Surrender();
      RawFreeAll(ps, old(callers));
      var _ :- CloseSpans();
      ghost var p := calls;
      DiscardedMeans(old(calls), p, old(cur.openSpans));
      var _ :- Ask(Kind.Retry);                              // hegel_recursion_retry
      Pushed(p, calls[|p|]);
      assert calls[..|calls|-1] == p;
      if cur.attempts == 0 { return Escaped; }
      Again();
      r := Done(());
    }

    ghost predicate NextAttempt(c: RecChain) reads `cur {
      && c.Rec? && cur.Rec? && cur.prev == c.prev && cur.allocs == [] && cur.maxDepth == c.maxDepth
      && cur.depth == cur.openSpans == cur.leaves == 0 && cur.attempts == c.attempts - 1 && cur.created == c.created
    }

    method Again()
      requires Valid() && cur.Rec? && cur.attempts > 0
      modifies `cur
      ensures Valid() && cur == old(cur).(depth := 0, openSpans := 0, leaves := 0, attempts := old(cur).attempts - 1)
    {
      hide HeapOk, Held, Bag;
      var c := cur.(depth := 0, openSpans := 0, leaves := 0, attempts := cur.attempts - 1);
      HeldSame(cur, c);
      cur := c;
    }

    /**
      Attempts until the engine accepts one: the value that comes back is the one after which
      hegel_recursion_finish answered 0; every value before it was answered otherwise, or was
      over its leaf budget.  A schema without HEGEL_SELF never makes a handle, and is not asked.
     */
    method Settle(s: Schema, asStruct: bool, depth: int) returns (r: Res<Option<Shape>>)
      requires Valid() && Ready(s) && (asStruct ==> s.Struct?)
      requires cur.Rec? && cur.allocs == [] && cur.depth == cur.openSpans == cur.leaves == 0 && !cur.created
      modifies this
      ensures Valid() && cur.Rec? && cur.prev == old(cur.prev) && callers == old(callers) && !r.Unwound?
      ensures r.Done? ==> SpansOpen(calls) == SpansOpen(old(calls)) && Bag(cur.allocs) == OwnedOpt(r.value)
      ensures r.Done? ==> NullSelfsOpt(r.value) <= SELF_MAX_LEAVES && RootMirrors(s, target, r.value, asStruct, depth)
      ensures r.Done? && NestingOpt(r.value) > 0 ==> NestingOpt(r.value) < old(cur.maxDepth)
      ensures r.Done? ==> SettledSince(old(calls), calls, old(cur.maxDepth)) && (cur.created <==> Marks(calls) != Marks(old(calls)))
    {
      hide HeapOk, Held, Bag, WellFormed, Owned, NullSelfs, Nesting, Drew, Within, Valid, Ready, RootMirrors, Mirrors,
        Marks, SpansOpen, Goes;
      while true
        invariant Valid() && cur.Rec? && cur.prev == old(cur.prev) && callers == old(callers)
        invariant SpansOpen(calls) == SpansOpen(old(calls))
        invariant cur.allocs == [] && cur.maxDepth == old(cur.maxDepth)
        invariant cur.depth == cur.openSpans == cur.leaves == 0
        invariant if cur.created then UnsettledSince(old(calls), calls, cur.maxDepth) else Marks(calls) == Marks(old(calls))
        decreases if cur.Rec? then cur.attempts else 0
      {
        ghost var p := calls;
        ghost var had := cur.created;
        r := Attempt(s, asStruct, depth);
        AttemptMarks(old(calls), p, calls, had, cur.created, cur.maxDepth);
        if r.Done? {
          if !cur.created { return; }
          p := calls;
          var verdict := Ask(Finish);                        // hegel_recursion_finish
          Pushed(p, calls[|p|]);
          if verdict.IsFailure() { r := Escaped; return; }
          VerdictMarks(old(calls), p, calls, cur.maxDepth);
          if verdict.value == 0 { return; }
          if cur.attempts == 0 { r := Escaped; return; }     // no attempt left: the case is discarded
          DropValue(r.value);
        } else if r.Unwound? {
          p := calls;
          var retry := Retry();
          if retry.IsFailure() { r := Escaped; return; }
          VerdictMarks(old(calls), p, calls, cur.maxDepth);
        } else {
          return;
        }
      }
    }

    /**
      hegel__draw_root.  A value that comes back is the caller's, and the heap grew by
      exactly the blocks it owns, however many attempts were abandoned; the engine's span
      depth is what it was.  A draw that is jumped out of leaves its record for the runtime.
     */
    method DrawRoot(s: Schema, asStruct: bool, maxDepth: int) returns (r: Res<Option<Shape>>)
      requires Valid() && Ready(s) && (asStruct ==> s.Struct?)
      modifies this
      ensures Valid() && !r.Unwound?
      ensures r.Done? ==> cur == old(cur) && callers == old(callers) + OwnedOpt(r.value)
      ensures r.Done? ==> live == old(live) + OwnedOpt(r.value) && SpansOpen(calls) == SpansOpen(old(calls))
      ensures r.Done? ==> FreedSince(old(calls), calls, if maxDepth > 0 then maxDepth else 0)
      ensures r.Done? ==> NullSelfsOpt(r.value) <= SELF_MAX_LEAVES && RootMirrors(s, target, r.value, asStruct, maxDepth)
      ensures r.Done? && NestingOpt(r.value) > 0 ==> NestingOpt(r.value) < maxDepth
      ensures r.Escaped? || r.Aborted? ==> cur.Rec? && cur.prev == old(cur) && callers == old(callers)
    {
      hide HeapOk, Held, Bag, WellFormed, Owned, OwnedOpt, NullSelfs, Nesting, RootMirrors, Mirrors, Marks, SpansOpen,
        SettledSince, FreedSince, Since;
      PushRecord(if maxDepth > 0 then maxDepth else 0);
      ghost var deepest := cur.maxDepth;
      var v :- Settle(s, asStruct, maxDepth);
      if cur.created {
        ghost var p := calls;
        var _ :- Ask(FreeRec);                               // hegel_recursion_free
        Pushed(p, calls[|p|]);
        FreedMarks(old(calls), p, calls, deepest);
      } else {
        NoMarks(old(calls), calls, deepest);
      }
      ReleaseRecord(v, old(callers));
      HeapGrew(old(live), live, old(callers), callers, Held(cur), old(limit), limit, OwnedOpt(v));
      r := Done(v);
    }

    /** The value is the caller's now; the record and its table are freed. */
    method ReleaseRecord(v: Option<Shape>, ghost before: multiset<Block>)
      requires Valid() && cur.Rec? && Bag(cur.allocs) == OwnedOpt(v) && callers == before
      modifies `cur, `live, `callers
      ensures Valid() && cur == old(cur).prev && callers == before + OwnedOpt(v)
    {
      hide HeapOk, Held, Bag, OwnedOpt, Valid;
      var blk, table, _ := PopRecord();
      ghost var rest := before + OwnedOpt(v) + multiset{blk};
      assert callers == rest + OptBlock(table);
      FreeOpt(table, false, rest);
      RawFree(blk);
      Cancel(callers, before + OwnedOpt(v), blk);
    }

    /** hegel__rec_abandon_all: every record still set, innermost first, with all it tracks. */
    method AbandonAll()
      requires Valid()
      modifies `cur, `live, `callers
      ensures Valid() && cur.Null? && callers == old(callers) && live == callers
    {
      hide HeapOk, Bag;
      while cur.Rec?
        invariant Valid() && callers == old(callers)
        decreases cur
      {
        ghost var keep := callers;
        var blk, table, ps := PopRecord();
        assert callers == keep + OptBlock(table) + multiset{blk} + Bag(ps);
        RawFreeAll(ps, keep + OptBlock(table) + multiset{blk});
        assert callers == keep + multiset{blk} + OptBlock(table);
        if table.Some? {
          RawFree(table.value);
          Cancel(callers, keep + multiset{blk}, table.value);
        }
        RawFree(blk);
        Cancel(callers, keep, blk);
      }
      HeapBare(live, callers, limit);
    }

    /** One value's whole life: drawn and released, or abandoned with its case.  Either way
        nothing is left behind and nothing was freed twice. */
    method DrawAndRelease(s: Schema, asStruct: bool, maxDepth: int) returns (r: Res<()>)
      requires Valid() && cur.Null? && Ready(s) && (asStruct ==> s.Struct?)
      modifies this
      ensures !r.Aborted? ==> Valid() && cur.Null? && live == old(live)
      ensures r.Done? ==> SpansOpen(calls) == SpansOpen(old(calls))
    {
      hide HeapOk, Bag, WellFormed, Owned;
      HeapBare(live, callers, limit);
      var v := DrawRoot(s, asStruct, maxDepth);
      match v {
        case Done(shape) =>
          ShapeFree(shape, false, old(callers));
          HeapBare(live, callers, limit);
          r := Done(());
        case Escaped =>
          AbandonAll();
          r := Escaped;
        case _ => r := Aborted;
      }
    }
  }
}
