/**
  The stateful driver: one test case of a machine of rules and invariants, as a trace of the
  requests it makes and the user functions it calls.  What the engine and the user functions
  answer is arbitrary; a run whose answers end early is a prefix of a longer one.
 */
module Stateful {
  import opened Options

  const SM_DONE: int := -0x8000_0000_0000_0000
  const MAX_SLOTS: nat := 64

  /** Codes a test body escapes with. */
  datatype Code = EscFail | EscAssume | EscStop | EscHealth

  datatype Op = New | Group | Pick | Reject | CheckInv | OpenSpan | CloseSpan

  /** How a user function ends. */
  datatype Ending = Finished | Raised(code: Code)

  /** The state of the machine under test is a number. */
  datatype Event =
    | Call(op: Op, arg: int, answer: Option<int>)      // no answer: the call escaped
    | Cond(rule: int, state: int, holds: bool)         // a precondition
    | CondLeft(rule: int, state: int, code: Code)      // a precondition that escaped
    | StepNote(step: int)
    | Body(rule: int, state: int, out: Ending, after: int)
    | Inv(index: int, state: int, out: Ending)

  /** What happens next outside the driver: a value, an escape, and the state a rule leaves. */
  datatype Answer = Answer(value: int, esc: Option<Code>, state: int)

  datatype Machine = Machine(rules: seq<bool>, invs: nat)    // per rule: has it a precondition?

  predicate Ok(m: Machine) { |m.rules| <= MAX_SLOTS && m.invs <= MAX_SLOTS }

  predicate IsRule(m: Machine, r: int) { 0 <= r < |m.rules| }

  /** The engine picked something that is neither a rule nor SM_DONE. */
  predicate Stray(m: Machine, e: Event) {
    e.Call? && e.op == Pick && e.answer.Some? && e.answer.value != SM_DONE && !IsRule(m, e.answer.value)
  }

  /* ---- What a trace must look like: one monitor for each promise ---- */

  /** Picks: a body runs after a pick that was cleared; a pick that failed is rejected once; a
      round ends when the engine has no more.  NoMore: no more groups, or rules in this one;
      Astray: the engine picked what is not a rule. */
  datatype PickMon = Free | Picked(rule: int) | Cleared(rule: int) | Announced(rule: int) | Owes | NoMore | Astray

  function PickStep(m: Machine, q: PickMon, e: Event): Option<PickMon> {
    match e
    case Call(Pick, _, Some(r)) =>
      if !q.Free? then None
      else if !IsRule(m, r) then Some(if r == SM_DONE then NoMore else Astray)
      else Some(if m.rules[r] then Picked(r) else Cleared(r))
    case Call(Group, _, Some(g)) => if q.Free? then Some(if g == SM_DONE then NoMore else Free) else None
    case Call(CloseSpan, _, _) => if q.NoMore? then Some(Free) else None
    case Call(Reject, _, _) => if q.Owes? then Some(Free) else None
    case Cond(r, _, holds) => if q == Picked(r) then Some(if holds then Cleared(r) else Owes) else None
    case CondLeft(r, _, _) => if q == Picked(r) then Some(q) else None
    case StepNote(_) => if q.Cleared? then Some(Announced(q.rule)) else None
    case Body(r, _, out, _) =>
      if q == Announced(r) then Some(if out == Raised(EscAssume) then Owes else Free) else None
    case _ => if q.Free? then Some(Free) else None
  }

  /** Rounds: one span each, discarded iff something in it was rejected. */
  datatype RoundMon = Closed | Open(rejected: bool)

  function RoundStep(q: RoundMon, e: Event): Option<RoundMon> {
    match e
    case Call(OpenSpan, _, _) => if q.Closed? then Some(Open(false)) else None
    case Call(CloseSpan, d, _) => if q.Open? && d == (if q.rejected then 1 else 0) then Some(Closed) else None
    case Call(Reject, _, _) => if q.Open? then Some(Open(true)) else None
    case Call(Pick, _, _) => if q.Open? then Some(q) else None
    case Body(_, _, _, _) => if q.Open? then Some(q) else None
    case Inv(_, _, _) => if q.Closed? then Some(q) else None
    case _ => Some(q)
  }

  /** Invariants: each in order, at the start, after every round and at the end.  `wanted`: the
      engine has asked for this one, `plain`: it is not asked (before the first and after the
      last round); `last`: there is no group left. */
  datatype InvMon = Setup | Checking(next: nat, wanted: bool, plain: bool, last: bool) | Ready | Round(over: bool) | Done

  function InvStep(m: Machine, q: InvMon, e: Event): Option<InvMon> {
    match e
    case Call(New, _, _) => if q.Setup? then Some(Arrive(m, 0, true, false)) else None
    case Call(CheckInv, i, a) =>
      if q.Checking? && !q.plain && !q.wanted && i == q.next then
        Some(match a
             case Some(v) => if v != 0 then q.(wanted := true) else Arrive(m, q.next + 1, q.plain, q.last)
             case None => q)
      else None
    case Inv(i, _, _) =>
      if q.Checking? && (q.plain || q.wanted) && i == q.next then Some(Arrive(m, q.next + 1, q.plain, q.last)) else None
    case Call(OpenSpan, _, _) => if q == Ready then Some(Round(false)) else None
    case Call(Group, _, a) => if q == Round(false) then Some(Round(a == Some(SM_DONE))) else None
    case Call(CloseSpan, _, _) => if q.Round? then Some(Arrive(m, 0, q.over, q.over)) else None
    case _ => if q == Round(false) then Some(q) else None
  }

  /** Invariant i is next, or all have been dealt with. */
  function Arrive(m: Machine, i: nat, plain: bool, last: bool): InvMon {
    if i < m.invs then Checking(i, false, plain, last) else if last then Done else Ready
  }

  /** State: every user function gets the state the last finished or raised rule left. */
  function StateStep(st: int, e: Event): Option<int> {
    match e
    case Cond(_, s, _) => if s == st then Some(st) else None
    case CondLeft(_, s, _) => if s == st then Some(st) else None
    case Body(_, s, _, after) => if s == st then Some(after) else None
    case Inv(_, s, _) => if s == st then Some(st) else None
    case _ => Some(st)
  }

  function CountStep(n: nat, e: Event): Option<nat> {
    match e
    case StepNote(k) => if k == n + 1 then Some(n + 1) else None
    case _ => Some(n)
  }

  /** A code that is not caught at a rule leaves the case. */
  predicate Leaves(e: Event) {
    match e
    case Call(_, _, a) => a.None?
    case CondLeft(_, _, _) => true
    case Body(_, _, out, _) => out.Raised? && out.code != EscAssume
    case Inv(_, _, out) => out.Raised?
    case _ => false
  }

  /** The event left the case with this code. */
  predicate LeavesWith(e: Event, code: Code) {
    match e
    case Call(_, _, a) => a.None?
    case CondLeft(_, _, c) => c == code
    case Body(_, _, out, _) => out == Raised(code) && code != EscAssume
    case Inv(_, _, out) => out == Raised(code)
    case _ => false
  }

  datatype Mon = Mon(pick: PickMon, round: RoundMon, inv: InvMon, state: int, steps: nat, over: bool)

  function Step(m: Machine, q: Mon, e: Event): Option<Mon> {
    var p := PickStep(m, q.pick, e);
    var r := RoundStep(q.round, e);
    var i := InvStep(m, q.inv, e);
    var s := StateStep(q.state, e);
    var n := CountStep(q.steps, e);
    if !q.over && p.Some? && r.Some? && i.Some? && s.Some? && n.Some? then
      Some(Mon(p.value, r.value, i.value, s.value, n.value, Leaves(e)))
    else None
  }

  function Start(st: int): Mon { Mon(Free, Closed, Setup, st, 0, false) }

  /** Where the monitors are after the trace t; None: one of them objected. */
  function Watch(m: Machine, st: int, t: seq<Event>): Option<Mon> {
    if t == [] then Some(Start(st))
    else
      var q := Watch(m, st, t[..|t|-1]);
      if q.None? then None else Step(m, q.value, t[|t|-1])
  }

  /* ---- The driver ---- */

  /** What a call or a user function does to the driver: go on, or leave with a code. */
  datatype Res<+T> = Value(value: T) | Left(code: Code) {
    predicate IsFailure() { Left? }
    function PropagateFailure<U>(): Res<U>
      requires Left?
    {
      Left(code)
    }
    function Extract(): T
      requires Value?
    {
      value
    }
  }

  class Driver {
    const m: Machine
    const setup: int
    var answers: seq<Answer>
    var trace: seq<Event>
    var state: int
    var ruleEscape: Option<int>        // tc->rule_escape: the rule that catches an ASSUME
    ghost var mon: Mon

    ghost predicate Valid()
      reads this
    {
      Ok(m) && Watch(m, setup, trace) == Some(mon) && state == mon.state
    }

    /** Why the case is left: its last event escaped, or the engine picked what is not a rule. */
    ghost predicate LeftAs(code: Code)
      reads this
    {
      trace != [] && if mon.pick.Astray? then code == EscHealth && Stray(m, trace[|trace|-1]) else LeavesWith(trace[|trace|-1], code)
    }

    constructor (machine: Machine, initial: int, script: seq<Answer>)
      requires Ok(machine)
      ensures Valid() && m == machine && setup == initial && trace == [] && answers == script
      ensures ruleEscape == None && mon == Start(initial)
    {
      m, setup, answers, trace, state, ruleEscape := machine, initial, script, [], initial, None;
      mon := Start(initial);
    }

    /** The next answer; when there is none left the run stops here. */
    method Next() returns (a: Answer)
      modifies `answers
      ensures |answers| <= |old(answers)|
      ensures a.esc.None? ==> |answers| < |old(answers)|
    {
      if answers == [] { return Answer(0, Some(EscStop), 0); }
      a := answers[0];
      answers := answers[1..];
    }

    /** One entry in the trace that the monitors accept. */
    ghost method Follow(e: Event)
      requires Ok(m) && trace != [] && trace[|trace|-1] == e
      requires Watch(m, setup, trace[..|trace|-1]) == Some(mon) && Step(m, mon, e).Some?
      modifies `mon
      ensures Some(mon) == Step(m, old(mon), e) && Watch(m, setup, trace) == Some(mon)
    {
      mon := Step(m, mon, e).value;
    }

    /** A request to the engine. */
    method Request(op: Op, arg: int) returns (r: Res<int>)
      requires Valid() && forall a :: Step(m, mon, Call(op, arg, a)).Some?
      modifies `answers, `trace, `mon
      ensures Valid() && |answers| <= |old(answers)|
      ensures if r.Value? then |answers| < |old(answers)| && Some(mon) == Step(m, old(mon), Call(op, arg, Some(r.value)))
              else Some(mon) == Step(m, old(mon), Call(op, arg, None))
      ensures trace == old(trace) + [Call(op, arg, if r.Value? then Some(r.value) else None)]
      ensures r.Left? && !mon.pick.Astray? ==> LeftAs(r.code)
    {
      hide Step, Watch;
      var a := Next();
      var e := Call(op, arg, if a.esc.Some? then None else Some(a.value));
      trace := trace + [e];
      assert trace[..|trace|-1] == old(trace);
      Follow(e);
      StateKept(m, old(mon), e);
      r := if a.esc.Some? then Left(a.esc.value) else Value(a.value);
    }

    /** A user function is called with the present state, and may leave another. */
    ghost method Record(e: Event)
      requires Ok(m) && trace != [] && trace[|trace|-1] == e && state == (if e.Body? then e.after else mon.state)
      requires Watch(m, setup, trace[..|trace|-1]) == Some(mon) && Step(m, mon, e).Some?
      modifies `mon
      ensures Valid() && Some(mon) == Step(m, old(mon), e)
    {
      hide Step, Watch;
      StateKept(m, mon, e);
      Follow(e);
    }

    /** hegel__escape from a rule: only an ASSUME is caught there. */
    predicate Caught(code: Code)
      reads this
    {
      ruleEscape.Some? && code == EscAssume
    }

    method RunInvariant(i: nat) returns (r: Res<()>)
      requires Valid() && forall out :: Step(m, mon, Inv(i, state, out)).Some?
      modifies `answers, `trace, `mon
      ensures Valid() && |answers| <= |old(answers)|
      ensures exists out :: Some(mon) == Step(m, old(mon), Inv(i, state, out)) && r.Left? == out.Raised?
      ensures r.Left? && !mon.pick.Astray? ==> LeftAs(r.code)
    {
      hide Step, Watch;
      var a := Next();
      var e := Inv(i, state, if a.esc.Some? then Raised(a.esc.value) else Finished);
      trace := trace + [e];
      assert trace[..|trace|-1] == old(trace);
      Record(e);
      r := if a.esc.Some? then Left(a.esc.value) else Value(());
    }

    /** check_invariants; `plain`: without asking the engine. */
    method CheckInvariants(plain: bool, ghost last: bool) returns (r: Res<()>)
      requires Valid() && mon.pick.Free? && mon.round.Closed? && mon.inv == Arrive(m, 0, plain, last) && !mon.over
      modifies `answers, `trace, `mon
      ensures Valid() && |answers| <= |old(answers)|
      ensures r.Value? ==> mon == old(mon).(inv := if last then Done else Ready)
      ensures r.Left? ==> LeftAs(r.code)
    {
      hide Watch;
      for i := 0 to m.invs
        invariant Valid() && |answers| <= |old(answers)| && mon == old(mon).(inv := Arrive(m, i, plain, last))
      {
        var wanted := true;
        if !plain {
          var v :- Request(CheckInv, i);
          wanted := v != 0;
        }
        if wanted {
          var _ :- RunInvariant(i);
        }
      }
      r := Value(());
    }

    /** run_rule: false if the rule was left by an assume. */
    method RunRule(rule: int) returns (r: Res<bool>)
      requires Valid() && mon.pick == Announced(rule) && mon.round.Open? && mon.inv == Round(false) && !mon.over
      modifies `answers, `trace, `mon, `state, `ruleEscape
      ensures Valid() && |answers| <= |old(answers)|
      ensures r.Value? ==> ruleEscape == old(ruleEscape)
      ensures r.Value? ==> mon == old(mon).(pick := if r.value then Free else Owes, state := state)
      ensures r == Value(true) ==> |answers| < |old(answers)|
      ensures r.Left? ==> r.code != EscAssume && LeftAs(r.code)
    {
      hide Watch;
      var saved := ruleEscape;
      ruleEscape := Some(rule);
      var a := Next();
      var e := Body(rule, state, if a.esc.Some? then Raised(a.esc.value) else Finished, a.state);
      trace := trace + [e];
      state := a.state;
      assert trace[..|trace|-1] == old(trace);
      Record(e);
      if a.esc.Some? {
        if !Caught(a.esc.value) { return Left(a.esc.value); }
        ruleEscape := saved;
        return Value(false);
      }
      ruleEscape := saved;
      r := Value(true);
    }

    /** The precondition of a picked rule; a rule without one is always allowed.  No rule catches
        what it escapes with. */
    method Allowed(rule: int) returns (r: Res<bool>)
      requires Valid() && IsRule(m, rule) && mon.round.Open? && mon.inv == Round(false) && !mon.over
      requires mon.pick == if m.rules[rule] then Picked(rule) else Cleared(rule)
      modifies `answers, `trace, `mon
      ensures Valid() && |answers| <= |old(answers)|
      ensures r.Value? ==> mon == old(mon).(pick := if r.value then Cleared(rule) else Owes)
      ensures r.Left? ==> mon == old(mon).(over := true) && LeftAs(r.code)
    {
      hide Watch;
      if !m.rules[rule] { return Value(true); }
      var a := Next();
      var ok := a.value != 0;
      var e := if a.esc.Some? then CondLeft(rule, state, a.esc.value) else Cond(rule, state, ok);
      trace := trace + [e];
      assert trace[..|trace|-1] == old(trace);
      Record(e);
      r := if a.esc.Some? then Left(a.esc.value) else Value(ok);
    }

    /** A picked rule, to its end: was it rejected, and the last step's number. */
    method Try(rule: int, ghost rejected: bool, step: nat) returns (r: Res<(bool, nat)>)
      requires Valid() && IsRule(m, rule)
      requires mon == Mon(if m.rules[rule] then Picked(rule) else Cleared(rule), Open(rejected), Round(false), state, step, false)
      modifies `answers, `trace, `mon, `state, `ruleEscape
      ensures Valid() && |answers| <= |old(answers)|
      ensures r.Value? ==> ruleEscape == old(ruleEscape)
      ensures r.Value? ==> mon == Mon(Free, Open(rejected || r.value.0), Round(false), state, r.value.1, false)
      ensures r.Left? ==> LeftAs(r.code)
    {
      hide Watch;
      var ok :- Allowed(rule);
      if !ok {
        var _ :- Request(Reject, 0);
        return Value((true, step));
      }
      ghost var before := trace;
      trace := trace + [StepNote(step + 1)];
      assert trace[..|trace|-1] == before;
      Record(StepNote(step + 1));
      var finished :- RunRule(rule);
      if !finished {
        var _ :- Request(Reject, 0);
      }
      r := Value((!finished, step + 1));
    }

    /** One round: rules until the engine has no more; true if one was rejected.  A round that ends
        got SM_DONE for its last pick. */
    method Rules(step0: nat) returns (r: Res<(bool, nat)>)
      requires Valid() && mon.pick.Free? && mon.round == Open(false) && mon.inv == Round(false) &&
          mon.steps == step0 && !mon.over
      modifies `answers, `trace, `mon, `state, `ruleEscape
      ensures Valid() && |answers| <= |old(answers)|
      ensures r.Value? ==> mon == Mon(NoMore, Open(r.value.0), Round(false), state, r.value.1, false) && ruleEscape == old(ruleEscape)
      ensures r.Value? ==> trace != [] && trace[|trace|-1] == Call(Pick, 0, Some(SM_DONE))
      ensures r.Left? ==> LeftAs(r.code)
    {
      hide Watch;
      var rejected, step := false, step0;
      while true
        invariant Valid() && |answers| <= |old(answers)| && ruleEscape == old(ruleEscape)
        invariant mon == Mon(Free, Open(rejected), Round(false), state, step, false)
        decreases |answers|
      {
        var rule :- Request(Pick, 0);
        if rule == SM_DONE { return Value((rejected, step)); }
        if rule < 0 || rule >= |m.rules| { return Left(EscHealth); }
        var done :- Try(rule, rejected, step);
        rejected, step := rejected || done.0, done.1;
      }
    }

    /** One turn of the outer loop: a round and its invariants, or None when there is no group left. */
    method Turn(step: nat) returns (r: Res<Option<nat>>)
      requires Valid() && mon == Mon(Free, Closed, Ready, state, step, false)
      modifies `answers, `trace, `mon, `state, `ruleEscape
      ensures Valid() && |answers| <= |old(answers)| && (r.Value? ==> |answers| < |old(answers)|)
      ensures r.Value? ==> ruleEscape == old(ruleEscape)
      ensures r.Value? ==> mon == match r.value
                                  case Some(n) => Mon(Free, Closed, Ready, state, n, false)
                                  case None => Mon(Free, Closed, Arrive(m, 0, true, true), state, step, false)
      ensures r.Left? ==> LeftAs(r.code)
    {
      hide Watch;
      var _ :- Request(OpenSpan, 0);
      var group :- Request(Group, 0);
      if group == SM_DONE {
        var _ :- Request(CloseSpan, 0);
        return Value(None);
      }
      var round :- Rules(step);
      var _ :- Request(CloseSpan, if round.0 then 1 else 0);
      var _ :- CheckInvariants(false, false);
      r := Value(Some(round.1));
    }

    /** run_one_case, after the machine was set up. */
    method RunOneCase() returns (r: Res<()>)
      requires Valid() && trace == [] && mon == Start(setup)
      modifies `answers, `trace, `mon, `state, `ruleEscape
      ensures Valid()
      ensures r.Value? ==> mon.pick.Free? && mon.round.Closed? && mon.inv == Done && !mon.over && ruleEscape == old(ruleEscape)
      ensures r.Left? ==> if m.rules == [] then r.code == EscHealth && trace == [] else LeftAs(r.code)
    {
      hide Watch;
      if |m.rules| == 0 { return Left(EscHealth); }
      var _ :- Request(New, 0);
      var _ :- CheckInvariants(true, false);
      var step := 0;
      while true
        invariant Valid() && ruleEscape == old(ruleEscape) && mon == Mon(Free, Closed, Ready, state, step, false)
        decreases |answers|
      {
        var next :- Turn(step);
        if next.None? { break; }
        step := next.value;
      }
      var _ :- CheckInvariants(true, true);
      r := Value(());
    }
  }

  lemma StateKept(m: Machine, q: Mon, e: Event)
    requires Step(m, q, e).Some?
    ensures Step(m, q, e).value.state == if e.Body? then e.after else q.state
  {
  }

  /* ---- What the monitors promise, about every trace and every prefix of one ---- */

  lemma {:induction false} Watched(m: Machine, st: int, t: seq<Event>, k: nat)
    requires Watch(m, st, t).Some? && k <= |t|
    ensures Watch(m, st, t[..k]).Some?
    ensures k < |t| ==> Step(m, Watch(m, st, t[..k]).value, t[k]) == Watch(m, st, t[..k + 1]) && Watch(m, st, t[..k + 1]).Some?
    decreases |t|
  {
    if k == |t| {
      assert t[..k] == t;
    } else if k == |t| - 1 {
      assert t[..k + 1] == t;
    } else {
      Watched(m, st, t[..|t|-1], k);
      assert t[..|t|-1][..k] == t[..k] && t[..|t|-1][..k + 1] == t[..k + 1];
    }
  }

  /** The monitors just before event i. */
  function Before(m: Machine, st: int, t: seq<Event>, i: nat): Mon
    requires Watch(m, st, t).Some? && i <= |t|
  {
    Watched(m, st, t, i);
    Watch(m, st, t[..i]).value
  }

  lemma StepAt(m: Machine, st: int, t: seq<Event>, i: nat)
    requires Watch(m, st, t).Some? && i < |t|
    ensures Step(m, Before(m, st, t, i), t[i]) == Some(Before(m, st, t, i + 1))
  {
    Watched(m, st, t, i);
    Watched(m, st, t, i + 1);
  }

  /** A rule body runs only right after a pick of that rule whose precondition, if it has one,
      held in the state the body gets. */
  lemma BodyAfterPick(m: Machine, st: int, t: seq<Event>, i: nat)
    requires Watch(m, st, t).Some? && i < |t| && t[i].Body?
    ensures var r := t[i].rule;
      && IsRule(m, r) && i >= 2 && t[i - 1].StepNote?
      && if m.rules[r] then
           i >= 3 && t[i - 2] == Cond(r, t[i].state, true) && t[i - 3].Call? && t[i - 3].op == Pick && t[i - 3].answer == Some(r)
         else t[i - 2].Call? && t[i - 2].op == Pick && t[i - 2].answer == Some(r)
  {
    hide Watch;
    StepAt(m, st, t, i);
    assert i > 0 by { BeforeFirst(m, st, t); }
    StepAt(m, st, t, i - 1);
    assert i > 1 by { BeforeFirst(m, st, t); }
    StepAt(m, st, t, i - 2);
    if t[i - 2].Cond? {
      assert i > 2 by { BeforeFirst(m, st, t); }
      StepAt(m, st, t, i - 3);
    }
  }

  lemma BeforeFirst(m: Machine, st: int, t: seq<Event>)
    requires Watch(m, st, t).Some?
    ensures Before(m, st, t, 0) == Start(st)
  {
    assert t[..0] == [];
  }

  /** A pick that came to nothing: its precondition failed, or its body assumed. */
  predicate Failed(e: Event) { (e.Cond? && !e.holds) || (e.Body? && e.out == Raised(EscAssume)) }

  predicate IsCall(e: Event, op: Op) { e.Call? && e.op == op }

  /** REJECTED is sent right after every failed pick, and never otherwise. */
  lemma RejectedExactly(m: Machine, st: int, t: seq<Event>, i: nat)
    requires Watch(m, st, t).Some? && i < |t|
    ensures Failed(t[i]) && i + 1 < |t| ==> IsCall(t[i + 1], Reject)
    ensures IsCall(t[i], Reject) ==> i > 0 && Failed(t[i - 1])
  {
    hide Watch;
    StepAt(m, st, t, i);
    BeforeFirst(m, st, t);
    if i > 0 { StepAt(m, st, t, i - 1); }
    if i + 1 < |t| { StepAt(m, st, t, i + 1); }
  }

  /** A span is closed right after the engine said that it has no more rules for the round, or no
      more groups, and never otherwise. */
  lemma SpanClosedIff(m: Machine, st: int, t: seq<Event>, i: nat)
    requires Watch(m, st, t).Some? && i < |t|
    ensures IsCall(t[i], CloseSpan) ==> i > 0 && SaidDone(t[i - 1])
    ensures SaidDone(t[i]) && i + 1 < |t| ==> IsCall(t[i + 1], CloseSpan)
  {
    hide Watch;
    StepAt(m, st, t, i);
    BeforeFirst(m, st, t);
    if i > 0 { StepAt(m, st, t, i - 1); }
    if i + 1 < |t| { StepAt(m, st, t, i + 1); }
  }

  predicate SaidDone(e: Event) { e.Call? && (e.op == Pick || e.op == Group) && e.answer == Some(SM_DONE) }

  /** Nothing follows a pick of something that is not a rule. */
  lemma StrayIsLast(m: Machine, st: int, t: seq<Event>, i: nat)
    requires Watch(m, st, t).Some? && i < |t| && Stray(m, t[i])
    ensures i == |t| - 1
  {
    hide Watch;
    StepAt(m, st, t, i);
    if i + 1 < |t| { StepAt(m, st, t, i + 1); }
  }

  /** A run that came to its end closed its last span because the engine had no more groups. */
  lemma EndsWithoutGroups(m: Machine, st: int, t: seq<Event>) returns (i: nat)
    requires Watch(m, st, t).Some? && Watch(m, st, t).value.inv == Done
    ensures 0 < i < |t| && IsCall(t[i], CloseSpan) && t[i - 1].Call? && t[i - 1].op == Group && t[i - 1].answer == Some(SM_DONE)
    ensures forall k :: i < k < |t| ==> !IsCall(t[k], OpenSpan)
  {
    assert t[..|t|] == t;
    i := LastGroup(m, st, t, |t|);
  }

  lemma {:induction false} LastGroup(m: Machine, st: int, t: seq<Event>, n: nat) returns (i: nat)
    requires Watch(m, st, t).Some? && n <= |t| && Settled(Before(m, st, t, n).inv, true)
    ensures 0 < i < n && IsCall(t[i], CloseSpan) && t[i - 1].Call? && t[i - 1].op == Group && t[i - 1].answer == Some(SM_DONE)
    ensures forall k :: i < k < n ==> !IsCall(t[k], OpenSpan)
    decreases n
  {
    hide Watch;
    BeforeFirst(m, st, t);
    StepAt(m, st, t, n - 1);
    if IsCall(t[n - 1], CloseSpan) {
      i := n - 1;
      assert i > 0;
      StepAt(m, st, t, i - 1);
    } else {
      i := LastGroup(m, st, t, n - 1);
    }
  }

  /** Each span is one round, and it is discarded if and only if a pick in it was rejected. */
  lemma {:induction false} SpanDiscardedIff(m: Machine, st: int, t: seq<Event>, i: nat) returns (j: nat)
    requires Watch(m, st, t).Some? && i <= |t| && Before(m, st, t, i).round.Open?
    ensures j < i && IsCall(t[j], OpenSpan)
    ensures forall k :: j < k < i ==> !IsCall(t[k], OpenSpan) && !IsCall(t[k], CloseSpan)
    ensures Before(m, st, t, i).round.rejected <==> exists k :: j < k < i && IsCall(t[k], Reject)
    ensures i < |t| && IsCall(t[i], CloseSpan) ==> t[i].arg == if exists k :: j < k < i && IsCall(t[k], Reject) then 1 else 0
  {
    hide Watch;
    BeforeFirst(m, st, t);
    if i < |t| { StepAt(m, st, t, i); }
    StepAt(m, st, t, i - 1);
    if IsCall(t[i - 1], OpenSpan) {
      j := i - 1;
    } else {
      j := SpanDiscardedIff(m, st, t, i - 1);
    }
  }

  /** What lies between a round and the next: every invariant in order, run if the engine
      asked for it, in the state the round left. */
  predicate Checks(m: Machine, seg: seq<Event>, i: nat, st: int)
    decreases |seg|
  {
    if i >= m.invs then seg == []
    else
      && seg != [] && IsCall(seg[0], CheckInv) && seg[0].arg == i && seg[0].answer.Some?
      && if seg[0].answer.value == 0 then Checks(m, seg[1..], i + 1, st)
         else |seg| > 1 && seg[1].Inv? && seg[1].index == i && seg[1].state == st && Checks(m, seg[2..], i + 1, st)
  }

  /** ... and before the first round and after the last: every invariant, unasked. */
  predicate PlainChecks(m: Machine, seg: seq<Event>, i: nat, st: int)
    decreases |seg|
  {
    if i >= m.invs then seg == []
    else seg != [] && seg[0].Inv? && seg[0].index == i && seg[0].state == st && PlainChecks(m, seg[1..], i + 1, st)
  }

  lemma {:induction false} SegmentChecks(m: Machine, st: int, t: seq<Event>, a: nat, b: nat, i: nat, plain: bool, last: bool)
    requires Watch(m, st, t).Some? && a <= b <= |t| && i <= m.invs && !Before(m, st, t, b).over
    requires Before(m, st, t, a).inv == Arrive(m, i, plain, last) &&
        Before(m, st, t, b).inv == Arrive(m, m.invs, plain, last)
    requires forall k :: a <= k < b ==> !IsCall(t[k], OpenSpan)
    ensures if plain then PlainChecks(m, t[a..b], i, Before(m, st, t, a).state) else Checks(m, t[a..b], i, Before(m, st, t, a).state)
    decreases b - a
  {
    hide Watch;
    var seg := t[a..b];
    if a == b {
      return;
    }
    StepAt(m, st, t, a);
    if i == m.invs {
      assert false;
    }
    assert seg[1..] == t[a + 1..b];
    if plain || t[a].answer == Some(0) {
      SegmentChecks(m, st, t, a + 1, b, i + 1, plain, last);
    } else {
      StepAt(m, st, t, a + 1);
      assert seg[2..] == t[a + 2..b];
      SegmentChecks(m, st, t, a + 2, b, i + 1, plain, last);
    }
  }

  /** While no span is opened, whether these are the last invariants does not change. */
  lemma {:induction false} LastFixed(m: Machine, st: int, t: seq<Event>, a: nat, b: nat, last: bool)
    requires Watch(m, st, t).Some? && a <= b <= |t|
    requires Settled(Before(m, st, t, a).inv, last) && forall k :: a <= k < b ==> !IsCall(t[k], OpenSpan)
    ensures Settled(Before(m, st, t, b).inv, last)
    decreases b - a
  {
    hide Watch;
    if a < b {
      StepAt(m, st, t, a);
      LastFixed(m, st, t, a + 1, b, last);
    }
  }

  predicate Settled(q: InvMon, last: bool) { (q.Checking? && q.last == last) || q == if last then Done else Ready }

  /** Between the span of one round and that of the next lie exactly the invariant checks. */
  lemma InvariantsFollow(m: Machine, st: int, t: seq<Event>, i: nat, j: nat)
    requires Watch(m, st, t).Some? && i < j < |t| && IsCall(t[i], CloseSpan) && IsCall(t[j], OpenSpan)
    requires forall k :: i < k < j ==> !IsCall(t[k], OpenSpan)
    ensures Checks(m, t[i + 1..j], 0, Before(m, st, t, i + 1).state)
  {
    hide Watch;
    StepAt(m, st, t, i);
    StepAt(m, st, t, j);
    var last := Before(m, st, t, i).inv.over;
    LastFixed(m, st, t, i + 1, j, last);
    SegmentChecks(m, st, t, i + 1, j, 0, last, last);
  }

  /** Before the first span: the machine is created and every invariant runs, unasked. */
  lemma InvariantsFirst(m: Machine, st: int, t: seq<Event>, j: nat)
    requires Watch(m, st, t).Some? && j < |t| && IsCall(t[j], OpenSpan)
    requires forall k :: 0 <= k < j ==> !IsCall(t[k], OpenSpan)
    ensures j > 0 && IsCall(t[0], New) && PlainChecks(m, t[1..j], 0, st)
  {
    hide Watch;
    BeforeFirst(m, st, t);
    StepAt(m, st, t, 0);
    StepAt(m, st, t, j);
    SegmentChecks(m, st, t, 1, j, 0, true, false);
  }

  /** A run that came to its end finished with every invariant on the final state, unasked. */
  lemma InvariantsLast(m: Machine, st: int, t: seq<Event>, i: nat)
    requires Watch(m, st, t).Some? && Watch(m, st, t).value.inv == Done && !Watch(m, st, t).value.over
    requires i < |t| && IsCall(t[i], CloseSpan) && forall k :: i < k < |t| ==> !IsCall(t[k], OpenSpan)
    ensures PlainChecks(m, t[i + 1..], 0, Before(m, st, t, i + 1).state)
  {
    assert t[..|t|] == t;
    hide Watch;
    StepAt(m, st, t, i);
    var last := Before(m, st, t, i).inv.over;
    LastFixed(m, st, t, i + 1, |t|, last);
    SegmentChecks(m, st, t, i + 1, |t|, 0, last, last);
    assert t[i + 1..|t|] == t[i + 1..];
  }

  function Notes(t: seq<Event>): nat {
    if t == [] then 0 else Notes(t[..|t|-1]) + if t[|t|-1].StepNote? then 1 else 0
  }

  /** Steps are numbered 1, 2, 3 ...: a step's number is how many were announced by then. */
  lemma {:induction false} StepsNumbered(m: Machine, st: int, t: seq<Event>)
    requires Watch(m, st, t).Some?
    ensures Watch(m, st, t).value.steps == Notes(t)
    ensures t != [] && t[|t|-1].StepNote? ==> t[|t|-1].step == Notes(t)
    decreases |t|
  {
    if t != [] { StepsNumbered(m, st, t[..|t|-1]); }
  }

  /** Nothing follows an escape that left the case. */
  lemma LeavingIsLast(m: Machine, st: int, t: seq<Event>, i: nat)
    requires Watch(m, st, t).Some? && i < |t| && Leaves(t[i])
    ensures i == |t| - 1
  {
    hide Watch;
    StepAt(m, st, t, i);
    if i + 1 < |t| { StepAt(m, st, t, i + 1); }
  }
}
