/**
  What a draw asks of the engine, call by call, with the answers: the branch, leaf, finish and
  retry calls of the recursion protocol, the spans, the numbers and the element-by-element
  decisions of a list.
 */
module EngineLog {
  /** An answer, or "jump out of the test body". */
  datatype Answer = Value(v: int) | Escape

  /** `list` names a collection by the place of the call that made it. */
  datatype Kind =
    | NewRec(maxDepth: nat)
    | Branch(depth: nat)
    | Leaf
    | Finish
    | Retry
    | FreeRec
    | OpenSpan
    | CloseSpan(discard: bool)
    | Int(lo: int, hi: int)
    | Number
    | NewList(lo: int, hi: int)
    | More(list: nat)
    | FreeList(list: nat)

  datatype Asked = Asked(kind: Kind, answer: Answer)

  type Log = seq<Asked>

  /** Spans open in the engine. */
  function SpansOpen(l: Log): int {
    if l == [] then 0 else SpansOpen(l[..|l|-1]) + SpanOf(l[|l|-1])
  }

  function SpanOf(e: Asked): int {
    match e
    case Asked(OpenSpan, Value(_)) => 1
    case Asked(CloseSpan(_), Value(_)) => -1
    case _ => 0
  }

  /** The recursion protocol of a top-level draw: a handle made, a value kept or dropped, an
      attempt over its budget, the handle freed. */
  datatype Mark = Made(maxDepth: nat) | Kept | Dropped | Retried | HandleFreed

  function MarkOf(e: Asked): seq<Mark> {
    match e
    case Asked(NewRec(m), Value(_)) => [Made(m)]
    case Asked(Finish, Value(v)) => [if v == 0 then Kept else Dropped]
    case Asked(Retry, Value(_)) => [Retried]
    case Asked(FreeRec, Value(_)) => [HandleFreed]
    case _ => []
  }

  function Marks(l: Log): seq<Mark> { if l == [] then [] else Marks(l[..|l|-1]) + MarkOf(l[|l|-1]) }

  /** What the engine answered when asked for more elements of this list. */
  function Mores(l: Log, list: nat): seq<int> {
    if l == [] then [] else Mores(l[..|l|-1], list) + MoreOf(l[|l|-1], list)
  }

  function MoreOf(e: Asked, list: nat): seq<int> { if e.kind == More(list) && e.answer.Value? then [e.answer.v] else [] }

  /** From log p on to q, inside one attempt: a handle for this depth is made at most once, when
      there is none, no verdict is asked for, and only lists made meanwhile are asked about. */
  predicate Goes(p: Log, q: Log, had: bool, has: bool, depth: nat) {
    && p <= q && (had ==> has)
    && Marks(q) == Marks(p) + (if has && !had then [Made(depth)] else [])
    && forall k :: |p| <= k < |q| && q[k].kind.More? ==> q[k].kind.list >= |p|
  }

  lemma GoesHere(p: Log, had: bool, depth: nat)
    ensures Goes(p, p, had, had, depth)
  {
  }

  lemma GoesThen(p: Log, q: Log, r: Log, a: bool, b: bool, c: bool, depth: nat)
    requires Goes(p, q, a, b, depth) && Goes(q, r, b, c, depth)
    ensures Goes(p, r, a, c, depth)
  {
    hide Marks;
  }

  lemma Pushed(p: Log, e: Asked)
    ensures Marks(p + [e]) == Marks(p) + MarkOf(e)
    ensures forall list :: Mores(p + [e], list) == Mores(p, list) + MoreOf(e, list)
    ensures SpansOpen(p + [e]) == SpansOpen(p) + SpanOf(e)
  {
    assert (p + [e])[..|p|] == p;
  }

  /** One call that is no verdict. */
  lemma GoesOne(p: Log, e: Asked, had: bool, depth: nat)
    requires MarkOf(e) == [] || (MarkOf(e) == [Made(depth)] && !had)
    requires !e.kind.More?
    ensures Goes(p, p + [e], had, had || MarkOf(e) != [], depth)
  {
    Pushed(p, e);
    hide Marks;
  }

  /** Nobody else asks about a list that is already there. */
  lemma {:induction false} OthersAsk(p: Log, q: Log, list: nat)
    requires p <= q && list < |p| && forall k :: |p| <= k < |q| && q[k].kind.More? ==> q[k].kind.list >= |p|
    ensures Mores(q, list) == Mores(p, list)
    decreases |q|
  {
    if |q| > |p| {
      var n := |q| - 1;
      OthersAsk(p, q[..n], list);
      assert q[n].kind != More(list);
    } else {
      assert p == q;
    }
  }

  /** A call about something else. */
  lemma OneMore(p: Log, q: Log, list: nat)
    requires p < q && |q| == |p| + 1 && q[|p|].kind != More(list)
    ensures Mores(q, list) == Mores(p, list)
  {
    assert q == p + [q[|p|]];
    Pushed(p, q[|p|]);
  }

  /** n elements, then the engine had enough. */
  function Ones(n: nat): (r: seq<int>)
    ensures |r| == n
  {
    seq(n, _ => 1)
  }

  /** A draw that was finished: without a handle, or with one for this depth, any number of values
      dropped and attempts over budget, and the last value kept. */
  predicate Settled(ms: seq<Mark>, depth: nat) {
    ms == [] || (|ms| >= 2 && ms[|ms|-1] == Kept && Unsettled(ms[..|ms|-1], depth))
  }

  /** ... or not yet. */
  predicate Unsettled(ms: seq<Mark>, depth: nat) {
    |ms| >= 1 && ms[0] == Made(depth) && forall i :: 0 < i < |ms| ==> ms[i] == Dropped || ms[i] == Retried
  }

  /** ... and the handle, if one was made, is freed last. */
  predicate SettledAndFreed(ms: seq<Mark>, depth: nat) {
    ms == [] || (|ms| > 1 && ms[|ms|-1] == HandleFreed && Settled(ms[..|ms|-1], depth))
  }
}
