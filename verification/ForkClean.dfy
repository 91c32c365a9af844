/**
  Fork-clean mode: each case's child re-executes the test binary, so main() runs again from the
  top.  Runs before the target are answered from the parent's results, which travel in an
  environment variable; at the target the process becomes the child.
 */
module ForkClean {
  import opened Options
  import Fdesc

  /** sizeof g_results: one character a run, and a NUL. */
  const CAP: nat := 4096

  /** A deterministic main(): from the results of its earlier runs (true: the run failed), the
      test function of the next run, or None to exit. */
  type Program = seq<bool> -> Option<nat>

  function Mark(failed: bool): char { if failed then '1' else '0' }

  /** What fits in g_results of the results so far. */
  function Kept(rs: seq<bool>): (s: string)
    ensures |s| == if |rs| < CAP then |rs| else CAP - 1
    ensures forall i :: 0 <= i < |s| ==> s[i] == Mark(rs[i])
  {
    var n := if |rs| < CAP then |rs| else CAP - 1;
    seq(n, i requires 0 <= i < n => Mark(rs[i]))
  }

  /* ---- The parent ---- */

  class Runner {
    var runIndex: nat
    var results: array<char>
    ghost var past: seq<bool>           // every result, in order

    /** g_results is a C string: what is kept of the past. */
    ghost predicate Stored()
      reads this, results
    {
      results.Length == CAP && results[..|Kept(past)|] == Kept(past) && results[|Kept(past)|] == '\0'
    }

    ghost predicate Valid()
      reads this, results
    {
      Stored() && runIndex == |past|
    }

    constructor ()
      ensures Valid() && past == [] && fresh(results)
    {
      runIndex := 0;
      results := new char[CAP](_ => '\0');
      past := [];
    }

    method StrLen() returns (n: nat)
      requires Stored()
      ensures n == |Kept(past)|
    {
      n := 0;
      while results[n] != '\0'
        invariant n <= |Kept(past)|
        decreases |Kept(past)| - n
      {
        n := n + 1;
      }
    }

    /** g_results as it is passed on. */
    method Text() returns (s: string)
      requires Valid()
      ensures s == Kept(past)
    {
      var n := StrLen();
      s := results[..n];
    }

    /** run_property: `inner` is what running the property would give; a run is skipped when
        another one is to be replayed. */
    method RunProperty(replay: Option<nat>, inner: bool) returns (failed: bool)
      requires Valid()
      modifies this, results
      ensures Valid() && results == old(results)
      ensures failed == Result(replay, inner, |old(past)| + 1)
      ensures past == old(past) + [failed]
    {
      runIndex := runIndex + 1;
      if replay.Some? && replay.value != runIndex {
        failed := false;
      } else {
        failed := inner;
      }
      var n := StrLen();
      if n + 1 < CAP {
        results[n] := Mark(failed);
        results[n + 1] := '\0';
      }
      past := past + [failed];
    }
  }

  predicate Result(replay: Option<nat>, inner: bool, index: nat) {
    if replay.Some? && replay.value != index then false else inner
  }

  /* ---- The re-executed child ---- */

  class CleanChild {
    var active: bool
    var runIndex: nat
    const target: nat
    const results: string

    constructor (t: nat, rs: string)
      ensures active && runIndex == 0 && target == t && results == rs
    {
      active, runIndex, target, results := true, 0, t, rs;
    }

    /** run_property and clean_child_run: the parent's result, or None: this process is now
        the child. */
    method RunProperty() returns (failed: Option<bool>)
      requires active
      modifies this
      ensures runIndex == old(runIndex) + 1
      ensures failed == Answer(target, results, runIndex)
      ensures active <==> failed.Some?
    {
      runIndex := runIndex + 1;
      if runIndex != target {
        return Some(runIndex <= |results| && results[runIndex - 1] == '1');
      }
      active := false;
      failed := None;
    }

    /** main() in the re-executed process, from the top: until it exits, or this process is the
        child of the run main() starts for the test function fn. */
    method RunMain(main: Program) returns (seen: seq<bool>, fn: Option<nat>)
      requires active && runIndex == 0 && target > 0
      modifies this
      ensures seen == ChildRuns(main, target, results, target - 1)
      ensures fn.Some? <==> |seen| == target - 1 && main(seen).Some?
      ensures fn.Some? ==> fn == main(seen) && Becomes(main, target, results, fn.value)
    {
      seen := [];
      while true
        invariant active && runIndex == |seen| < target
        invariant seen == ChildRuns(main, target, results, |seen|)
        decreases target - |seen|
      {
        fn := main(seen);
        if fn.None? {
          ChildStops(main, target, results, |seen|, target - 1);
          return;
        }
        var failed := RunProperty();
        if failed.None? { return; }
        seen := seen + [failed.value];
      }
    }
  }

  function Answer(target: nat, results: string, index: nat): Option<bool>
    requires index > 0
  {
    if index == target then None else Some(index <= |results| && results[index - 1] == '1')
  }

  /* ---- Two executions of main() ---- */

  /** Results of the first k runs in the parent; shorter if main() exits before. */
  function ParentRuns(main: Program, replay: Option<nat>, inner: nat -> bool, k: nat): (r: seq<bool>)
    ensures |r| <= k
  {
    if k == 0 then []
    else
      var rs := ParentRuns(main, replay, inner, k - 1);
      if |rs| < k - 1 || main(rs).None? then rs else rs + [Result(replay, inner(k), k)]
  }

  /** Results main() sees in the child for its first k runs, until it exits or is the child. */
  function ChildRuns(main: Program, target: nat, results: string, k: nat): (r: seq<bool>)
    ensures |r| <= k
  {
    if k == 0 then []
    else
      var rs := ChildRuns(main, target, results, k - 1);
      if |rs| < k - 1 || main(rs).None? || Answer(target, results, k).None? then rs
      else rs + [Answer(target, results, k).value]
  }

  /** The child becomes the child of run `target`: main() starts that run, for test function fn. */
  predicate Becomes(main: Program, target: nat, results: string, fn: nat) {
    target > 0 &&
    var rs := ChildRuns(main, target, results, target - 1);
    |rs| == target - 1 && main(rs) == Some(fn)
  }

  /** The parent is in run t, for test function fn. */
  predicate InRun(main: Program, replay: Option<nat>, inner: nat -> bool, t: nat, fn: nat) {
    t > 0 &&
    var rs := ParentRuns(main, replay, inner, t - 1);
    |rs| == t - 1 && main(rs) == Some(fn)
  }

  lemma {:induction false} ParentPrefix(main: Program, replay: Option<nat>, inner: nat -> bool, j: nat, k: nat)
    requires j <= k && |ParentRuns(main, replay, inner, k)| == k
    ensures ParentRuns(main, replay, inner, j) == ParentRuns(main, replay, inner, k)[..j]
    ensures j < k ==> main(ParentRuns(main, replay, inner, j)).Some?
    decreases k - j
  {
    if j < k {
      ParentPrefix(main, replay, inner, j, k - 1);
    }
  }

  /** No failed run is past what g_results can hold. */
  predicate NothingLost(rs: seq<bool>) { forall j :: CAP - 1 <= j < |rs| ==> !rs[j] }

  /** Where nothing is lost the child answers what the parent recorded. */
  lemma AnswerKept(past: seq<bool>, t: nat, k: nat)
    requires NothingLost(past) && 0 < k <= |past| < t
    ensures Answer(t, Kept(past), k) == Some(past[k - 1])
  {
  }

  /** The child sees the parent's results for as long as none it lacks is a failure. */
  lemma {:induction false} SameResults(main: Program, replay: Option<nat>, inner: nat -> bool, t: nat, k: nat)
    requires k < t && |ParentRuns(main, replay, inner, t - 1)| == t - 1
    requires NothingLost(ParentRuns(main, replay, inner, t - 1))
    ensures ChildRuns(main, t, Kept(ParentRuns(main, replay, inner, t - 1)), k) == ParentRuns(main, replay, inner, k)
  {
    hide Kept, Answer, NothingLost;
    if k > 0 {
      AnswerKept(ParentRuns(main, replay, inner, t - 1), t, k);
      SameResults(main, replay, inner, t, k - 1);
      ParentPrefix(main, replay, inner, k, t - 1);
      ParentPrefix(main, replay, inner, k - 1, t - 1);
    }
  }

  /**
    Replay.  If the parent is in run t for fn and nothing was lost, the child that gets the
    parent's results sees the same results for runs 1 .. t - 1 (skipped runs included) and
    becomes the child of exactly that run.  Up to run 4096 nothing can be lost.
   */
  lemma Replay(main: Program, replay: Option<nat>, inner: nat -> bool, t: nat, fn: nat)
    requires InRun(main, replay, inner, t, fn)
    ensures var past := ParentRuns(main, replay, inner, t - 1);
      && (t <= CAP ==> NothingLost(past))
      && (NothingLost(past) ==> ChildRuns(main, t, Kept(past), t - 1) == past && Becomes(main, t, Kept(past), fn))
  {
    var past := ParentRuns(main, replay, inner, t - 1);
    if NothingLost(past) { SameResults(main, replay, inner, t, t - 1); }
  }

  /** The exact condition: the child sees what the parent saw if and only if nothing was lost. */
  lemma ReplayExactly(main: Program, replay: Option<nat>, inner: nat -> bool, t: nat, fn: nat)
    requires InRun(main, replay, inner, t, fn)
    ensures var past := ParentRuns(main, replay, inner, t - 1);
      ChildRuns(main, t, Kept(past), t - 1) == past <==> NothingLost(past)
  {
    var past := ParentRuns(main, replay, inner, t - 1);
    if NothingLost(past) {
      SameResults(main, replay, inner, t, t - 1);
    } else if ChildRuns(main, t, Kept(past), t - 1) == past {
      var j :| CAP - 1 <= j < |past| && past[j];
      ChildSees(main, t, Kept(past), j, t - 1);
    }
  }

  /** Result j of the child is what the results string says. */
  lemma {:induction false} ChildSees(main: Program, target: nat, results: string, j: nat, k: nat)
    requires j < |ChildRuns(main, target, results, k)|
    ensures Answer(target, results, j + 1) == Some(ChildRuns(main, target, results, k)[j])
  {
    if j < |ChildRuns(main, target, results, k - 1)| { ChildSees(main, target, results, j, k - 1); }
  }

  /** After main() has exited there are no more results. */
  lemma {:induction false} ChildStops(main: Program, target: nat, results: string, j: nat, k: nat)
    requires j <= k && |ChildRuns(main, target, results, j)| == j && main(ChildRuns(main, target, results, j)).None?
    ensures ChildRuns(main, target, results, k) == ChildRuns(main, target, results, j)
    decreases k - j
  {
    if j < k { ChildStops(main, target, results, j, k - 1); }
  }

  /** The parent up to run t: what it hands over. */
  method Record(main: Program, replay: Option<nat>, inner: nat -> bool, t: nat, ghost fn: nat) returns (text: string)
    requires InRun(main, replay, inner, t, fn)
    ensures text == Kept(ParentRuns(main, replay, inner, t - 1))
  {
    hide Kept, Runner.Valid;
    var parent := new Runner();
    for k := 0 to t - 1
      invariant parent.Valid() && fresh(parent) && fresh(parent.results)
      invariant |parent.past| == k && parent.past == ParentRuns(main, replay, inner, k)
    {
      ParentPrefix(main, replay, inner, k, t - 1);
      ParentPrefix(main, replay, inner, k + 1, t - 1);
      var _ := parent.RunProperty(replay, inner(k + 1));
    }
    text := parent.Text();
  }

  /**
    Both executions: the parent runs main() up to run t and hands over its g_results; the
    re-executed process sees the parent's results and becomes the child of that very run if and
    only if no failure fell beyond what g_results keeps.
   */
  method ForkAt(main: Program, replay: Option<nat>, inner: nat -> bool, t: nat, fn: nat)
    returns (seen: seq<bool>, became: Option<nat>)
    requires InRun(main, replay, inner, t, fn)
    ensures seen == ParentRuns(main, replay, inner, t - 1) && became == Some(fn) <==>
            NothingLost(ParentRuns(main, replay, inner, t - 1))
    ensures t <= CAP ==> NothingLost(ParentRuns(main, replay, inner, t - 1))
  {
    hide Kept, ChildRuns, ParentRuns, NothingLost;
    var text := Record(main, replay, inner, t, fn);
    var child := new CleanChild(t, text);
    Replay(main, replay, inner, t, fn);
    ReplayExactly(main, replay, inner, t, fn);
    seen, became := child.RunMain(main);
  }

  /** A main() that runs on and on sees in order what its runs give. */
  lemma {:induction false} AllRun(main: Program, inner: nat -> bool, k: nat)
    requires forall rs :: main(rs).Some?
    ensures var past := ParentRuns(main, None, inner, k);
      |past| == k && forall i :: 0 <= i < k ==> past[i] == inner(i + 1)
  {
    if k > 0 { AllRun(main, inner, k - 1); }
  }

  /** When run n is replayed every other run is a pass, whatever it would give. */
  lemma {:induction false} OthersSkipped(main: Program, n: nat, inner: nat -> bool, k: nat)
    ensures var past := ParentRuns(main, Some(n), inner, k);
      |past| <= k && forall i :: 0 <= i < |past| ==> past[i] == (i + 1 == n && inner(n))
  {
    if k > 0 { OthersSkipped(main, n, inner, k - 1); }
  }

  /** A failure at run 4096 is the first that is lost: main() in the child of run 4097 sees a pass. */
  lemma FailureLost()
    ensures var main: Program := _ => Some(0);
      var inner := (k: nat) => k == CAP;
      var past := ParentRuns(main, None, inner, CAP);
      InRun(main, None, inner, CAP + 1, 0) && ChildRuns(main, CAP + 1, Kept(past), CAP) != past
  {
    var main: Program := _ => Some(0);
    var inner := (k: nat) => k == CAP;
    AllRun(main, inner, CAP);
    ReplayExactly(main, None, inner, CAP + 1, 0);
    assert ParentRuns(main, None, inner, CAP)[CAP - 1];
  }

  /* ---- The environment variable ---- */

  /** target:req:resp:capture:results */
  function EnvText(target: nat, req: int, resp: int, capture: int, results: string): string {
    Fdesc.Decimal(target) + (":" + (Fdesc.Decimal(req) + (":" + (Fdesc.Decimal(resp) + (":" +
    (Fdesc.Decimal(capture) + (":" + results)))))))
  }

  /** A child to be of run 12, on descriptors 5 and 6, not capturing, after a pass and a failure. */
  lemma EnvSample()
    ensures EnvText(12, 5, 6, 0, Kept([false, true])) == "12:5:6:0:01"
  {
    assert Kept([false, true]) == "01";
    assert Fdesc.Decimal(12) == "12" && Fdesc.Decimal(5) == "5" && Fdesc.Decimal(6) == "6" && Fdesc.Decimal(0) == "0";
  }

  /** One number and the colon after it. */
  function Field(s: string): Option<(int, string)> {
    var r := Fdesc.ReadInt(s);
    if r.None? || r.value.1 == "" || r.value.1[0] != ':' then None else Some((r.value.0, r.value.1[1..]))
  }

  datatype Env = Env(target: int, req: int, resp: int, capture: int, results: string)

  /** clean_child_init: sscanf, then the rest is the results, as far as they fit. */
  function ParseEnv(s: string): Option<Env> {
    var a := Field(s);
    if a.None? then None
    else
      var b := Field(a.value.1);
      if b.None? then None
      else
        var c := Field(b.value.1);
        if c.None? then None
        else
          var d := Field(c.value.1);
          if d.None? then None
          else
            var rest := d.value.1;
            Some(Env(a.value.0, b.value.0, c.value.0, d.value.0, if |rest| < CAP then rest else rest[..CAP - 1]))
  }

  lemma FieldBack(x: int, rest: string)
    ensures Field(Fdesc.Decimal(x) + (":" + rest)) == Some((x, rest))
  {
    Fdesc.ReadBack(x, ":" + rest);
    hide Fdesc.ReadInt, Fdesc.Decimal;
    assert (":" + rest)[1..] == rest;
  }

  /** What the parent passes on is what the child starts from. */
  lemma EnvRoundTrip(target: nat, req: int, resp: int, capture: int, rs: seq<bool>)
    ensures ParseEnv(EnvText(target, req, resp, capture, Kept(rs))) == Some(Env(target, req, resp, capture, Kept(rs)))
  {
    hide Fdesc.Decimal, Field, Kept;
    var d := Fdesc.Decimal(capture) + (":" + Kept(rs));
    var c := Fdesc.Decimal(resp) + (":" + d);
    var b := Fdesc.Decimal(req) + (":" + c);
    FieldBack(target, b);
    FieldBack(req, c);
    FieldBack(resp, d);
    FieldBack(capture, Kept(rs));
  }
}
