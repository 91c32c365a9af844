/**
  The oracle of the scatterlist split harness: cut a list of entry lengths, read as one byte
  stream, into consecutive splits.
 */
module SplitOracle {
  const MAXN: nat := 48
  const MAXS: nat := 16
  const U64: nat := 0x1_0000_0000_0000_0000

  type u32 = x: nat | x < 0x1_0000_0000
  type u64 = x: nat | x < U64

  /** Entry lengths of the input. */
  type Lens = s: seq<u32> | |s| <= MAXN

  datatype Request = Request(skip: int, sizes: seq<u64>)

  /** Entry indices a split starts and ends in; `mid`: it ends strictly inside `end`. */
  datatype Segm = Segm(start: nat, end: nat, mid: bool, nents: nat)

  predicate Drawable(c: Request) { 1 <= |c.sizes| <= MAXS }

  /* ---- The byte stream ---- */

  /** Where entry i starts in the stream. */
  function Cum(lens: Lens, i: nat): (r: nat)
    requires i <= |lens|
    ensures r <= i * 0xFFFF_FFFF
  {
    if i == 0 then 0 else Cum(lens, i - 1) + lens[i - 1]
  }

  function Total(lens: Lens): nat { Cum(lens, |lens|) }

  /** Where split k starts in the stream. */
  function At(c: Request, k: nat): int
    requires k <= |c.sizes|
  {
    if k == 0 then c.skip else At(c, k - 1) + c.sizes[k - 1]
  }

  function End(c: Request): int { At(c, |c.sizes|) }

  lemma {:induction false} CumMono(lens: Lens, i: nat, j: nat)
    requires i <= j <= |lens|
    ensures Cum(lens, i) <= Cum(lens, j)
  {
    if i < j { CumMono(lens, i, j - 1); }
  }

  lemma {:induction false} AtMono(c: Request, i: nat, j: nat)
    requires i <= j <= |c.sizes|
    ensures At(c, i) <= At(c, j)
  {
    if i < j { AtMono(c, i, j - 1); }
  }

  /** The documented rule: the splits stay inside the input. */
  predicate InRange(lens: Lens, c: Request) { 0 <= c.skip && End(c) <= Total(lens) }

  /** spec_valid: the sum is an unsigned long and may wrap. */
  method SpecValid(lens: Lens, c: Request) returns (ok: bool)
    ensures ok <==> 0 <= c.skip && End(c) % U64 <= Total(lens)
  {
    var end := c.skip % U64;
    for k := 0 to |c.sizes|
      invariant 0 <= end < U64 && end == At(c, k) % U64
    {
      end := (end + c.sizes[k]) % U64;
      assert (At(c, k) % U64 + c.sizes[k]) % U64 == At(c, k + 1) % U64;
    }
    ok := c.skip >= 0 && end <= Total(lens);
  }

  /* ---- What a split is ---- */

  /** Bytes of entry i that fall into split k. */
  function Share(lens: Lens, c: Request, k: nat, i: nat): nat
    requires k < |c.sizes| && i < |lens|
  {
    var lo := if Cum(lens, i) > At(c, k) then Cum(lens, i) else At(c, k);
    var hi := if Cum(lens, i + 1) < At(c, k + 1) then Cum(lens, i + 1) else At(c, k + 1);
    if lo < hi then hi - lo else 0
  }

  /** Split k of a request that starts in entry `from` (from == N: nothing is left). */
  predicate IsSplit(lens: Lens, c: Request, k: nat, from: nat, g: Segm)
    requires k < |c.sizes|
  {
    g.start == from &&
    if from >= |lens| then g == Segm(|lens|, |lens|, false, 0) && At(c, k) == At(c, k + 1) == Total(lens)
    else
      && from <= g.end < |lens|
      && Cum(lens, from) <= At(c, k) <= Cum(lens, from + 1)
      && Cum(lens, g.end) <= At(c, k + 1) <= Cum(lens, g.end + 1)
      && (if c.sizes[k] == 0 then g.end == from else Cum(lens, g.end) < At(c, k + 1))
      && (g.mid <==> At(c, k + 1) < Cum(lens, g.end + 1))
      && g.nents == g.end - g.start + 1
  }

  /** The entry the next split starts in. */
  function Next(g: Segm, n: nat): nat {
    if g.start >= n then n else if g.mid then g.end else g.end + 1
  }

  /** The entry the first split starts in: the first that reaches `skip`. */
  predicate IsFirst(lens: Lens, skip: int, i: nat) {
    i < |lens| && skip <= Cum(lens, i + 1) && forall j :: 0 < j <= i ==> Cum(lens, j) < skip
  }

  predicate Splits(lens: Lens, c: Request, gs: seq<Segm>) {
    |gs| <= |c.sizes| &&
    (forall k :: 0 <= k < |gs| ==> IsSplit(lens, c, k, gs[k].start, gs[k])) &&
    (forall k :: 0 < k < |gs| ==> gs[k].start == Next(gs[k - 1], |lens|)) &&
    (gs != [] ==> IsFirst(lens, c.skip, gs[0].start))
  }

  /* ---- model_split ---- */

  function AsLong(x: u64): int { if x >= 0x8000_0000_0000_0000 then x - U64 else x }

  class SplitModel {
    var s: array<Segm>
    var anyEmpty: bool
    var firstEmpty: int
    var overshoot: bool
    var multiEntry: bool
    var insufficient: bool
    var noFirst: bool

    constructor ()
      ensures fresh(s) && s.Length == MAXS
    {
      s := new Segm[MAXS](_ => Segm(0, 0, false, 0));
    }

    /** model_split.  For a request in range it finds every split. */
    method ModelSplit(lens: Lens, c: Request)
      requires s.Length == MAXS && Drawable(c)
      modifies this, s
      ensures s == old(s)
      ensures noFirst <==> lens == [] || c.skip > Total(lens)
      ensures lens != [] && InRange(lens, c) ==>
        && !noFirst && !insufficient && Splits(lens, c, s[..|c.sizes|])
        && Flags(s[..|c.sizes|], |lens|, anyEmpty, firstEmpty, multiEntry)
        && (overshoot <==> !anyEmpty && s[|c.sizes| - 1].mid && s[|c.sizes| - 1].end < |lens| - 1)
      ensures !noFirst && Signed(c) ==> (insufficient <==> exists k: nat :: Short(lens, c, s[..], k))
    {
      hide Splits, IsSplit, Flags, Standing, At, Cum, IsFirst, Total, Upto, CutMade, Next, Signed, Short;
      anyEmpty, overshoot, multiEntry, insufficient, noFirst := false, false, false, false, false;
      forall i | 0 <= i < s.Length { s[i] := Segm(0, 0, false, 0); }
      firstEmpty := -1;
      var n := |lens|;
      SkipInRange(lens, c);
      var start: nat, pos := FindFirst(lens, c.skip);
      if start == n {
        noFirst := true;
        return;
      }
      ghost var gs := [];
      StartOut(lens, c, start, pos);
      for k := 0 to |c.sizes|
        invariant s == old(s) && !noFirst && !insufficient && !overshoot && gs == s[..k]
        invariant Sofar(lens, c, gs, start, pos)
        invariant Flags(gs, n, anyEmpty, firstEmpty, multiEntry)
      {
        ghost var any, was, multi := anyEmpty, firstEmpty, multiEntry;
        var g;
        if start >= n {
          g := Segm(n, n, false, 0);
          if !anyEmpty { firstEmpty := k; }
          anyEmpty := true;
          SofarEmpty(lens, c, gs, start, pos);
        } else {
          var found, pos' := Cut(lens, c, k, start, pos);
          SofarCut(lens, c, gs, start, pos, found, pos', s[..]);
          if found.None? {
            insufficient := true;
            assert Signed(c) ==> Short(lens, c, s[..], k);
            return;
          }
          g := found.value;
          pos := pos';
          if g.nents >= 2 { multiEntry := true; }
          start := if g.mid then g.end else g.end + 1;
        }
        s[k] := g;
        FlagsPush(gs, g, n, any, was, multi);
        gs := gs + [g];
      }
      SofarEnds(lens, c, gs, start, pos, s[..]);
      var last := s[|c.sizes| - 1];
      overshoot := !anyEmpty && last.mid && last.end < n - 1;
    }
  }

  /** No negative skip, and no size the C code takes for a negative long. */
  predicate Signed(c: Request) { c.skip >= 0 && forall x <- c.sizes :: x < 0x8000_0000_0000_0000 }

  /** The first k splits are made and an entry is left, but not the bytes of the next one. */
  predicate Short(lens: Lens, c: Request, gs: seq<Segm>, k: nat) {
    && k < |c.sizes| && k <= |gs| && Splits(lens, c, gs[..k])
    && At(c, k) <= Total(lens) < At(c, k + 1) && (k > 0 ==> Next(gs[k - 1], |lens|) < |lens|)
  }

  /** While the request is within the input its splits are as they should be; once it is beyond,
      every entry was used up, and no split so far was short. */
  predicate Sofar(lens: Lens, c: Request, gs: seq<Segm>, start: nat, pos: int) {
    && |gs| <= |c.sizes|
    && (c.skip >= 0 && At(c, |gs|) <= Total(lens) ==> Upto(lens, c, gs, start, pos))
    && (Signed(c) ==> (At(c, |gs|) > Total(lens) ==> start >= |lens|) && (|gs| == 0 ==> start < |lens|) &&
                      forall k: nat :: k < |gs| ==> !Short(lens, c, gs, k))
  }

  lemma ShortSame(lens: Lens, c: Request, gs: seq<Segm>, hs: seq<Segm>, k: nat)
    requires k <= |gs| && k <= |hs| && gs[..k] == hs[..k]
    ensures Short(lens, c, gs, k) <==> Short(lens, c, hs, k)
  {
    hide Splits, At, Total, Next;
    assert k > 0 ==> gs[k - 1] == gs[..k][k - 1] == hs[..k][k - 1] == hs[k - 1];
  }

  /** One more split, and it is not short. */
  lemma SofarPush(lens: Lens, c: Request, gs: seq<Segm>, g: Segm)
    requires (forall k: nat :: k < |gs| ==> !Short(lens, c, gs, k)) && !Short(lens, c, gs, |gs|)
    ensures forall k: nat :: k < |gs| + 1 ==> !Short(lens, c, gs + [g], k)
  {
    hide Short;
    forall k: nat | k < |gs| + 1 ensures !Short(lens, c, gs + [g], k) {
      assert (gs + [g])[..k] == gs[..k];
      ShortSame(lens, c, gs + [g], gs, k);
    }
  }

  lemma SofarEmpty(lens: Lens, c: Request, gs: seq<Segm>, start: nat, pos: int)
    requires |gs| < |c.sizes| && Sofar(lens, c, gs, start, pos) && start >= |lens|
    ensures Sofar(lens, c, gs + [Segm(|lens|, |lens|, false, 0)], start, pos)
  {
    hide Upto, Splits, Total, Standing, Signed, Next;
    var g := Segm(|lens|, |lens|, false, 0);
    AtMono(c, |gs|, |gs| + 1);
    if c.skip >= 0 && At(c, |gs| + 1) <= Total(lens) { EmptySplit(lens, c, gs, start, pos); }
    if Signed(c) {
      assert !Short(lens, c, gs, |gs|) by { NotShort(lens, c, gs, start, pos); }
      hide Short;
      SofarPush(lens, c, gs, g);
    }
  }

  lemma NotShort(lens: Lens, c: Request, gs: seq<Segm>, start: nat, pos: int)
    requires |gs| < |c.sizes| && Sofar(lens, c, gs, start, pos) && start >= |lens| && Signed(c)
    ensures !Short(lens, c, gs, |gs|)
  {
    hide Splits, At, Total, Standing;
  }

  lemma SofarCut(lens: Lens, c: Request, gs: seq<Segm>, start: nat, pos: int, found: Found, pos': int, all: seq<Segm>)
    requires |gs| < |c.sizes| && Sofar(lens, c, gs, start, pos) && start < |lens| && gs <= all
    requires CutMade(lens, c, |gs|, start, pos, found, pos')
    ensures found.Some? ==> var g := found.value; Sofar(lens, c, gs + [g], if g.mid then g.end else g.end + 1, pos')
    ensures found.None? && Signed(c) ==> Short(lens, c, all, |gs|)
    ensures found.None? && InRange(lens, c) ==> false
  {
    AtMono(c, |gs|, |gs| + 1);
    AtMono(c, |gs| + 1, |c.sizes|);
    assert Signed(c) ==> c.sizes[|gs|] in c.sizes;
    hide Splits, At, Total, Next;
    if c.skip >= 0 && At(c, |gs| + 1) <= Total(lens) { CutSplit(lens, c, gs, start, pos, found, pos'); }
    if found.Some? {
      if Signed(c) {
        assert !Short(lens, c, gs, |gs|);
        SofarPush(lens, c, gs, found.value);
      }
    } else {
      assert all[..|gs|] == gs && gs[..|gs|] == gs;
    }
  }

  /** Every split was made. */
  lemma SofarEnds(lens: Lens, c: Request, gs: seq<Segm>, start: nat, pos: int, all: seq<Segm>)
    requires Sofar(lens, c, gs, start, pos) && |gs| == |c.sizes| && gs <= all
    ensures InRange(lens, c) ==> Splits(lens, c, gs)
    ensures Signed(c) ==> forall k: nat :: !Short(lens, c, all, k)
  {
    hide Splits, Total, Next, Standing, IsFirst;
    forall k: nat | Signed(c) ensures !Short(lens, c, all, k) {
      if k < |gs| {
        assert all[..k] == gs[..k];
        ShortSame(lens, c, gs, all, k);
      }
    }
  }

  /** The flags say what the splits look like. */
  predicate Flags(gs: seq<Segm>, n: nat, anyEmpty: bool, firstEmpty: int, multiEntry: bool) {
    && (anyEmpty <==> exists g :: g in gs && g.start >= n)
    && (multiEntry <==> exists g :: g in gs && g.nents >= 2)
    && (if anyEmpty then 0 <= firstEmpty < |gs| && gs[firstEmpty].start >= n &&
                         forall j :: 0 <= j < firstEmpty ==> gs[j].start < n
        else firstEmpty == -1)
  }

  lemma FlagsPush(gs: seq<Segm>, g: Segm, n: nat, any: bool, first: int, multi: bool)
    requires Flags(gs, n, any, first, multi)
    ensures Flags(gs + [g], n, any || g.start >= n, if any || g.start < n then first else |gs|, multi || g.nents >= 2)
  {
    var hs := gs + [g];
    assert forall h :: h in hs <==> h in gs || h == g;
    if !any { assert forall j :: 0 <= j < |gs| ==> gs[j] in gs; }
  }

  /** The splits found so far, and where the next one starts. */
  predicate Upto(lens: Lens, c: Request, gs: seq<Segm>, start: nat, pos: int) {
    && Splits(lens, c, gs) && Standing(lens, c, |gs|, start, pos)
    && if gs == [] then IsFirst(lens, c.skip, start) else start == Next(gs[|gs|-1], |lens|)
  }

  lemma StartOut(lens: Lens, c: Request, start: nat, pos: int)
    requires start < |lens| && IsFirst(lens, c.skip, start) && Cum(lens, start) + pos == c.skip <= Cum(lens, start + 1)
    requires c.skip >= 0 ==> pos >= 0
    ensures Sofar(lens, c, [], start, pos)
    ensures Flags([], |lens|, false, -1, false)
  {
    CumMono(lens, start + 1, |lens|);
  }

  lemma SkipInRange(lens: Lens, c: Request)
    ensures InRange(lens, c) ==> c.skip <= Total(lens)
  {
    AtMono(c, 0, |c.sizes|);
  }

  lemma EmptySplit(lens: Lens, c: Request, gs: seq<Segm>, start: nat, pos: int)
    requires |gs| < |c.sizes| && Upto(lens, c, gs, start, pos) && start >= |lens|
    requires c.skip >= 0 && At(c, |gs| + 1) <= Total(lens)
    ensures Upto(lens, c, gs + [Segm(|lens|, |lens|, false, 0)], start, pos)
  {
    AtMono(c, |gs|, |gs| + 1);
    SplitsPush(lens, c, gs, Segm(|lens|, |lens|, false, 0));
  }

  lemma CutSplit(lens: Lens, c: Request, gs: seq<Segm>, start: nat, pos: int, found: Found, pos': int)
    requires |gs| < |c.sizes| && Upto(lens, c, gs, start, pos) && start < |lens|
    requires c.skip >= 0 && At(c, |gs| + 1) <= Total(lens)
    requires CutMade(lens, c, |gs|, start, pos, found, pos')
    ensures found.Some?
    ensures var g := found.value; Upto(lens, c, gs + [g], if g.mid then g.end else g.end + 1, pos')
  {
    hide IsFirst, At, Cum;
    SplitsPush(lens, c, gs, found.value);
  }

  lemma SplitsPush(lens: Lens, c: Request, gs: seq<Segm>, g: Segm)
    requires |gs| < |c.sizes| && Splits(lens, c, gs) && IsSplit(lens, c, |gs|, g.start, g)
    requires if gs == [] then IsFirst(lens, c.skip, g.start) else g.start == Next(gs[|gs|-1], |lens|)
    ensures Splits(lens, c, gs + [g])
  {
    hide IsSplit, IsFirst, Next;
  }

  /** Cut found split k if the request reaches that far. */
  predicate CutMade(lens: Lens, c: Request, k: nat, start: nat, pos: int, g: Found, next: int)
    requires k < |c.sizes|
  {
    && (Standing(lens, c, k, start, pos) && At(c, k + 1) <= Total(lens) ==>
          g.Some? && IsSplit(lens, c, k, start, g.value) && Standing(lens, c, k + 1, Next(g.value, |lens|), next))
    && (Standing(lens, c, k, start, pos) && At(c, k + 1) > Total(lens) && c.sizes[k] < 0x8000_0000_0000_0000 ==> g.None?)
  }

  /** Where the first split begins: entry and position in it, or N when skip is beyond the input. */
  method FindFirst(lens: Lens, skip: int) returns (start: nat, pos: int)
    ensures start <= |lens|
    ensures start == |lens| <==> lens == [] || skip > Total(lens)
    ensures start < |lens| ==> IsFirst(lens, skip, start) && Cum(lens, start) + pos == skip <= Cum(lens, start + 1)
    ensures start < |lens| && skip >= 0 ==> pos >= 0
  {
    hide Cum;
    var n := |lens|;
    var cum := PrefixSums(lens);
    CumZero(lens);
    start, pos := n, 0;
    for i := 0 to n
      invariant forall j :: 0 < j <= i ==> Cum(lens, j) < skip
      invariant start == n
    {
      if skip <= cum[i + 1] {
        CumMono(lens, i + 1, n);
        start, pos := i, skip - cum[i];
        return;
      }
    }
  }

  method PrefixSums(lens: Lens) returns (cum: array<int>)
    ensures fresh(cum) && cum.Length == MAXN + 1 && forall j :: 0 <= j <= |lens| ==> cum[j] == Cum(lens, j)
  {
    hide Cum;
    cum := new int[MAXN + 1](_ => 0);
    CumZero(lens);
    for i := 0 to |lens|
      invariant forall j :: 0 <= j <= i ==> cum[j] == Cum(lens, j)
    {
      CumStep(lens, i);
      cum[i + 1] := cum[i] + lens[i];
    }
  }

  lemma CumStep(lens: Lens, i: nat)
    requires i < |lens|
    ensures Cum(lens, i + 1) == Cum(lens, i) + lens[i]
  {
  }

  lemma CumZero(lens: Lens)
    ensures Cum(lens, 0) == 0
  {
  }

  datatype Found = None | Some(value: Segm)

  /** Position `pos` inside entry `start` is where split k begins. */
  predicate Standing(lens: Lens, c: Request, k: nat, start: nat, pos: int) {
    k <= |c.sizes| && start <= |lens| &&
    if start == |lens| then At(c, k) == Total(lens)
    else 0 <= pos <= lens[start] && Cum(lens, start) + pos == At(c, k)
  }

  /** One split: the body of the loop over k, when some entry is left. */
  method Cut(lens: Lens, c: Request, k: nat, start: nat, pos: int) returns (g: Found, next: int)
    requires k < |c.sizes| && start < |lens|
    ensures g.Some? ==> g.value.start == start <= g.value.end < |lens|
    ensures CutMade(lens, c, k, start, pos, g, next)
  {
    ghost var ok := Standing(lens, c, k, start, pos) && c.sizes[k] < 0x8000_0000_0000_0000;
    var need := AsLong(c.sizes[k]);
    var i, at := start, pos;
    var avail := lens[i] - at;
    CumMono(lens, start, |lens|);
    CumMono(lens, start + 1, |lens|);
    if need == 0 {
      assert Cum(lens, start + 1) == Cum(lens, start) + lens[start];
      var mid := at < lens[i];
      g := Some(Segm(start, i, mid, 1));
      next := if mid then at else 0;
      return;
    }
    while need > avail
      invariant start <= i < |lens| && avail == lens[i] - at
      invariant ok ==> need > 0 && 0 <= at <= lens[i] && Cum(lens, i) + at + need == At(c, k + 1)
      decreases |lens| - i
    {
      need := need - avail;
      i := i + 1;
      if i >= |lens| { return None, 0; }
      avail := lens[i];
      at := 0;
    }
    CumMono(lens, i + 1, |lens|);
    at := at + need;
    var mid := at < lens[i];
    g := Some(Segm(start, i, mid, i - start + 1));
    next := if mid then at else 0;
  }

  /* ---- model_nents_v3 ---- */

  /** The first entry of a split of positive size that has bytes after the split's start. */
  function FirstCounted(lens: Lens, p: int, j: nat, end: nat): (r: nat)
    requires j <= end < |lens|
    ensures j <= r <= end
    decreases end - j
  {
    if j < end && Cum(lens, j + 1) <= p then FirstCounted(lens, p, j + 1, end) else j
  }

  function V3Count(lens: Lens, c: Request, k: nat, g: Segm): nat
    requires k < |c.sizes| && (g.start < |lens| ==> g.start <= g.end < |lens|)
  {
    if g.start >= |lens| then 1
    else if c.sizes[k] == 0 then g.nents
    else g.end - FirstCounted(lens, At(c, k), g.start, g.end) + 1
  }

  method ModelNentsV3(lens: Lens, c: Request, s: array<Segm>, k: nat) returns (n: nat)
    requires Drawable(c) && s.Length == MAXS && k < |c.sizes|
    requires InRange(lens, c) && IsSplit(lens, c, k, s[k].start, s[k])
    ensures n == V3Count(lens, c, k, s[k])
  {
    var g := s[k];
    if g.start >= |lens| { return 1; }
    if c.sizes[k] == 0 { return g.nents; }
    var cum: int, p := 0, c.skip;
    for j := 0 to k
      invariant p == At(c, j)
    {
      AtMono(c, j + 1, |c.sizes|);
      AtMono(c, 0, j);
      p := p + AsLong(c.sizes[j]);
    }
    for j := 0 to g.start
      invariant cum == Cum(lens, j)
    {
      cum := cum + lens[j];
    }
    var j := g.start;
    var avail := lens[j] - (p - cum);
    while avail == 0 && j < g.end
      invariant g.start <= j <= g.end
      invariant if j == g.start then avail == Cum(lens, j + 1) - p else avail == lens[j] && Cum(lens, j) == p
      invariant FirstCounted(lens, p, g.start, g.end) == FirstCounted(lens, p, j, g.end)
    {
      j := j + 1;
      avail := lens[j];
    }
    n := g.end - j + 1;
  }

  /* ---- What the oracle promises ---- */

  function Sum(lens: Lens, c: Request, k: nat, i: nat, j: nat): nat
    requires k < |c.sizes| && i <= j <= |lens|
    decreases j - i
  {
    if i == j then 0 else Sum(lens, c, k, i, j - 1) + Share(lens, c, k, j - 1)
  }

  /** Bytes of split k found in entries i .. j - 1: the overlap of the two stretches. */
  lemma {:induction false} SumIsOverlap(lens: Lens, c: Request, k: nat, i: nat, j: nat)
    requires k < |c.sizes| && i <= j <= |lens| && Cum(lens, i) <= At(c, k)
    ensures Sum(lens, c, k, i, j) ==
      (if Cum(lens, j) <= At(c, k) then 0
       else (if Cum(lens, j) < At(c, k + 1) then Cum(lens, j) else At(c, k + 1)) - At(c, k))
    decreases j - i
  {
    if i < j { SumIsOverlap(lens, c, k, i, j - 1); }
  }

  /** Tiling.  The entries of split k supply exactly its bytes [At(k), At(k+1)), and no other
      entry has any of them; the next split starts where this one ends. */
  lemma SplitTiles(lens: Lens, c: Request, k: nat, g: Segm)
    requires k < |c.sizes| && IsSplit(lens, c, k, g.start, g)
    ensures g.start < |lens| ==> Sum(lens, c, k, g.start, g.end + 1) == c.sizes[k] == At(c, k + 1) - At(c, k)
    ensures g.start >= |lens| ==> c.sizes[k] == 0
    ensures forall i :: 0 <= i < |lens| && !(g.start <= i <= g.end) ==> Share(lens, c, k, i) == 0
  {
    if g.start < |lens| { SumIsOverlap(lens, c, k, g.start, g.end + 1); }
    forall i | 0 <= i < |lens| && !(g.start <= i <= g.end) ensures Share(lens, c, k, i) == 0 {
      if i < g.start { CumMono(lens, i + 1, g.start); } else { CumMono(lens, g.end + 1, i); }
    }
  }

  /** A split of positive size takes bytes from its first counted entry and from its last. */
  lemma EndsContribute(lens: Lens, c: Request, k: nat, g: Segm)
    requires k < |c.sizes| && IsSplit(lens, c, k, g.start, g) && c.sizes[k] > 0
    ensures g.start < |lens|
    ensures var j := FirstCounted(lens, At(c, k), g.start, g.end);
      Share(lens, c, k, j) > 0 && Share(lens, c, k, g.end) > 0 &&
      forall i :: g.start <= i < j ==> Share(lens, c, k, i) == 0
  {
    CountedFacts(lens, At(c, k), g.start, g.end);
    var j := FirstCounted(lens, At(c, k), g.start, g.end);
    CumMono(lens, j, g.end);
    if j < g.end { CumMono(lens, j + 1, g.end); }
    forall i | g.start <= i < j ensures Share(lens, c, k, i) == 0 {
      assert Cum(lens, i + 1) <= At(c, k);
    }
  }

  lemma {:induction false} CountedFacts(lens: Lens, p: int, j: nat, end: nat)
    requires j <= end < |lens|
    ensures var r := FirstCounted(lens, p, j, end);
      (forall i :: j < i <= r ==> Cum(lens, i) <= p) && (r < end ==> Cum(lens, r + 1) > p)
    decreases end - j
  {
    if j < end && Cum(lens, j + 1) <= p { CountedFacts(lens, p, j + 1, end); }
  }

  function CountAll(lens: Lens, c: Request, gs: seq<Segm>): nat
    requires Splits(lens, c, gs)
  {
    if gs == [] then 0
    else CountAll(lens, c, gs[..|gs|-1]) + V3Count(lens, c, |gs| - 1, gs[|gs|-1])
  }

  /** The entry after the last one the splits have used up entirely, or N. */
  function Reached(lens: Lens, gs: seq<Segm>): nat
    requires lens != []
  {
    if gs == [] then 0 else if gs[|gs|-1].start >= |lens| then |lens| - 1 else gs[|gs|-1].end
  }

  /** Every split has an entry, and splits share at most one entry with their neighbours:
      N entries make at most N + nb - 1 output entries. */
  lemma {:induction false} CountBound(lens: Lens, c: Request, gs: seq<Segm>)
    requires lens != [] && Splits(lens, c, gs)
    ensures gs != [] ==> V3Count(lens, c, |gs| - 1, gs[|gs|-1]) >= 1
    ensures CountAll(lens, c, gs) <= |gs| + Reached(lens, gs) <= |gs| + |lens| - 1
    decreases |gs|
  {
    if gs != [] { CountBound(lens, c, gs[..|gs|-1]); }
  }

  /** The splits of a request are determined: two lists of splits of it agree. */
  lemma {:induction false} SplitsUnique(lens: Lens, c: Request, gs: seq<Segm>, hs: seq<Segm>)
    requires Splits(lens, c, gs) && Splits(lens, c, hs) && |gs| == |hs|
    ensures gs == hs
    decreases |gs|
  {
    if gs != [] {
      var k := |gs| - 1;
      SplitsUnique(lens, c, gs[..k], hs[..k]);
      assert gs[k].start == hs[k].start by {
        if k == 0 { FirstUnique(lens, c.skip, gs[0].start, hs[0].start); }
        else { assert gs[..k][k - 1] == hs[..k][k - 1]; }
      }
      SplitUnique(lens, c, k, gs[k], hs[k]);
      assert gs == gs[..k] + [gs[k]] && hs == hs[..k] + [hs[k]];
    }
  }

  lemma FirstUnique(lens: Lens, skip: int, i: nat, j: nat)
    requires IsFirst(lens, skip, i) && IsFirst(lens, skip, j)
    ensures i == j
  {
  }

  lemma SplitUnique(lens: Lens, c: Request, k: nat, g: Segm, h: Segm)
    requires k < |c.sizes| && g.start == h.start
    requires IsSplit(lens, c, k, g.start, g) && IsSplit(lens, c, k, h.start, h)
    ensures g == h
  {
    if g.start < |lens| && g.end < h.end { CumMono(lens, g.end + 1, h.end); }
    if g.start < |lens| && h.end < g.end { CumMono(lens, h.end + 1, g.end); }
  }

  /** What spec_valid accepts can be split exactly when the unsigned sum did not wrap. */
  lemma AcceptedIff(lens: Lens, c: Request, gs: seq<Segm>)
    requires Drawable(c) && 0 <= c.skip && End(c) % U64 <= Total(lens)
    requires |gs| == |c.sizes|
    ensures Splits(lens, c, gs) ==> End(c) < U64
    ensures End(c) < U64 ==> InRange(lens, c)
  {
    if Splits(lens, c, gs) {
      var k := |gs| - 1;
      var g := gs[k];
      if g.start < |lens| { CumMono(lens, g.end + 1, |lens|); }
    }
    AtMono(c, 0, |c.sizes|);
  }

  /** ... and it does wrap for two sizes of 2^63. */
  lemma WrappedSum()
    ensures var c := Request(0, [0x8000_0000_0000_0000, 0x8000_0000_0000_0000]);
      End(c) % U64 == 0 && !InRange([1], c)
  {
    var c := Request(0, [0x8000_0000_0000_0000, 0x8000_0000_0000_0000]);
    assert At(c, 1) == 0x8000_0000_0000_0000;
    assert At(c, 2) == U64;
  }
}
