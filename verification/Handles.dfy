/** What the handle table and the generator cache keep over any sequence of requests. */
module Handles {
  import opened Options
  import opened Wire
  import opened Server

  /* ---- Facts about the engine log ---- */

  /** Call number obj created an object of this kind. */
  predicate Created(log: seq<Event>, obj: Obj, kind: HKind) {
    obj < |log| && log[obj].rc == OK && log[obj].call.Create? && log[obj].call.kind == kind
  }

  predicate FreesObj(e: Event, obj: Obj) { e.call.FreeObj? && e.call.obj == obj }

  /** How often the object was freed. */
  function Frees(log: seq<Event>, obj: Obj): nat {
    if log == [] then 0
    else Frees(log[..|log|-1], obj) + if FreesObj(log[|log|-1], obj) then 1 else 0
  }

  /** Created with this kind, and not freed yet. */
  predicate Usable(log: seq<Event>, obj: Obj, kind: HKind) {
    Created(log, obj, kind) && Frees(log, obj) == 0
  }

  /** Event k touches an object only while it is live, and as the kind it was created with. */
  predicate EventOk(log: seq<Event>, k: nat)
    requires k < |log|
  {
    match log[k].call
    case UseObj(kind, obj, _, _) => Usable(log[..k], obj, kind)
    case FreeObj(kind, obj) => Usable(log[..k], obj, kind)
    case Create(kind, _) => kind != HFree
    case _ => true
  }

  predicate LogOk(log: seq<Event>) { forall k :: 0 <= k < |log| ==> EventOk(log, k) }

  lemma FreesPush(log: seq<Event>, e: Event, obj: Obj)
    ensures Frees(log + [e], obj) == Frees(log, obj) + if FreesObj(e, obj) then 1 else 0
  {
    assert (log + [e])[..|log|] == log;
  }

  lemma LogPush(log: seq<Event>, e: Event)
    requires LogOk(log)
    requires EventOk(log + [e], |log|)
    ensures LogOk(log + [e])
  {
    forall k | 0 <= k < |log| + 1 ensures EventOk(log + [e], k) {
      if k < |log| {
        assert (log + [e])[..k] == log[..k];
        assert EventOk(log, k);
      }
    }
  }

  lemma {:induction false} FreedAtMostOnce(log: seq<Event>, obj: Obj)
    requires LogOk(log)
    ensures Frees(log, obj) <= 1
  {
    if log != [] {
      var n := |log| - 1;
      assert LogOk(log[..n]) by {
        forall k | 0 <= k < n ensures EventOk(log[..n], k) {
          assert log[..n][..k] == log[..k];
          assert EventOk(log, k);
        }
      }
      FreedAtMostOnce(log[..n], obj);
      assert EventOk(log, n);
    }
  }

  /* ---- The handle table ---- */

  predicate SlotOk(s: Srv, i: nat)
    requires i < |s.handles|
  {
    s.handles[i].kind != HFree ==> Usable(s.log, s.handles[i].obj, s.handles[i].kind)
  }

  predicate Held(s: Srv, obj: Obj, kind: HKind) { Handle(kind, obj) in s.handles }

  /** The table holds exactly the live objects, each once. */
  ghost predicate TableOk(s: Srv) {
    && (forall i :: 0 <= i < |s.handles| ==> SlotOk(s, i))
    && (forall i, j :: 0 <= i < j < |s.handles| && s.handles[i].kind != HFree && s.handles[j].kind != HFree ==>
          s.handles[i].obj != s.handles[j].obj)
    && (forall obj, kind {:trigger Usable(s.log, obj, kind)} :: Usable(s.log, obj, kind) ==> Held(s, obj, kind))
  }

  ghost predicate Sound(s: Srv) { LogOk(s.log) && TableOk(s) }

  /** Slots are only added and cleared: an id means one object for ever. */
  predicate Grows(a: Srv, b: Srv) {
    |a.handles| <= |b.handles| &&
    forall i :: 0 <= i < |a.handles| ==> b.handles[i] == a.handles[i] || b.handles[i].kind == HFree
  }

  /** A call that creates and frees nothing. */
  lemma NeutralCall(s: Srv, t: Srv, e: Event)
    requires Sound(s) && t.log == s.log + [e] && t.handles == s.handles
    requires !e.call.FreeObj? && EventOk(s.log + [e], |s.log|)
    requires !(e.call.Create? && e.rc == OK)
    ensures Sound(t)
  {
    LogPush(s.log, e);
    forall obj, kind ensures Usable(t.log, obj, kind) == Usable(s.log, obj, kind) { FreesPush(s.log, e, obj); }
    forall i | 0 <= i < |t.handles| ensures SlotOk(t, i) { assert SlotOk(s, i); }
    forall obj, kind | Usable(t.log, obj, kind) ensures Held(t, obj, kind) {
      assert Usable(s.log, obj, kind) && Held(s, obj, kind);
    }
  }

  lemma CreateCall(s: Srv, t: Srv, kind: HKind, args: seq<byte>)
    requires Sound(s) && kind != HFree
    requires t.log == s.log + [Event(Create(kind, args), OK)]
    requires t.handles == s.handles + [Handle(kind, |s.log|)]
    ensures Sound(t) && Grows(s, t)
  {
    var e := Event(Create(kind, args), OK);
    LogPush(s.log, e);
    NeverFreed(s.log);
    forall obj, k | k != HFree ensures Usable(t.log, obj, k) <==>
      Usable(s.log, obj, k) || (obj == |s.log| && k == kind)
    {
      FreesPush(s.log, e, obj);
    }
    forall i | 0 <= i < |t.handles|
      ensures SlotOk(t, i)
      ensures i < |s.handles| && t.handles[i].kind != HFree ==> t.handles[i].obj < |s.log|
    {
      if i < |s.handles| { assert SlotOk(s, i); }
    }
    forall obj, k | Usable(t.log, obj, k) ensures Held(t, obj, k) {
      assert k != HFree by { assert EventOk(t.log, obj); }
      if Usable(s.log, obj, k) {
        assert Held(s, obj, k);
        var i :| 0 <= i < |s.handles| && s.handles[i] == Handle(k, obj);
        assert t.handles[i] == Handle(k, obj);
      } else {
        assert t.handles[|s.handles|] == Handle(k, obj);
      }
    }
  }

  /** What is yet to be created was never freed. */
  lemma {:induction false} NeverFreed(log: seq<Event>)
    requires LogOk(log)
    ensures Frees(log, |log|) == 0
  {
    NeverFreedAbove(log, |log|);
  }

  lemma {:induction false} NeverFreedAbove(log: seq<Event>, obj: Obj)
    requires LogOk(log) && obj >= |log|
    ensures Frees(log, obj) == 0
  {
    if log != [] {
      var n := |log| - 1;
      assert LogOk(log[..n]) by {
        forall k | 0 <= k < n ensures EventOk(log[..n], k) {
          assert log[..n][..k] == log[..k];
          assert EventOk(log, k);
        }
      }
      NeverFreedAbove(log[..n], obj);
      assert EventOk(log, n);
    }
  }

  lemma FreeCall(s: Srv, i: nat)
    requires Sound(s) && i < |s.handles| && s.handles[i].kind != HFree
    ensures Sound(DoFree(s, i)) && Grows(s, DoFree(s, i))
  {
    var h := s.handles[i];
    var e := Event(FreeObj(h.kind, h.obj), OK);
    var t := DoFree(s, i);
    assert SlotOk(s, i);
    assert (s.log + [e])[..|s.log|] == s.log;
    LogPush(s.log, e);
    forall obj, k ensures Usable(t.log, obj, k) == (Usable(s.log, obj, k) && obj != h.obj) {
      FreesPush(s.log, e, obj);
    }
    forall j | 0 <= j < |t.handles| ensures SlotOk(t, j) {
      assert SlotOk(s, j);
      if j != i && s.handles[j].kind != HFree { assert s.handles[j].obj != h.obj; }
    }
    forall obj, k | Usable(t.log, obj, k) ensures Held(t, obj, k) {
      assert Held(s, obj, k);
      var j :| 0 <= j < |s.handles| && s.handles[j] == Handle(k, obj);
      assert j != i && t.handles[j] == Handle(k, obj);
    }
  }

  /* ---- Every request keeps it ---- */

  lemma PlainKeeps(eng: Engine, s: Srv, op: nat, args: seq<byte>)
    requires Sound(s)
    ensures Sound(DoPlain(eng, s, op, args).srv) && Grows(s, DoPlain(eng, s, op, args).srv)
  {
    var c := Plain(op, args);
    NeutralCall(s, DoPlain(eng, s, op, args).srv, Event(c, eng(s.log, c).rc));
  }

  lemma CreateKeeps(eng: Engine, s: Srv, kind: HKind, args: seq<byte>)
    requires Sound(s) && kind != HFree
    ensures Sound(DoCreate(eng, s, kind, args).srv) && Grows(s, DoCreate(eng, s, kind, args).srv)
  {
    var c := Create(kind, args);
    var a := eng(s.log, c);
    if a.rc == OK {
      CreateCall(s, DoCreate(eng, s, kind, args).srv, kind, args);
    } else {
      NeutralCall(s, DoCreate(eng, s, kind, args).srv, Event(c, a.rc));
    }
  }

  lemma HandleKeeps(eng: Engine, s: Srv, op: nat, r: Rd)
    requires Sound(s) && HandleKind(op) != HFree
    ensures Sound(ServeHandle(eng, s, op, r).srv) && Grows(s, ServeHandle(eng, s, op, r).srv)
  {
    var (idb, r1) := Get(r, 8);
    var id := Signed64(idb);
    var kind := HandleKind(op);
    var obj := Lookup(s, id, kind);
    if obj.Some? {
      assert SlotOk(s, id);
      if FreesHandle(op) {
        FreeCall(s, id);
      } else {
        var c := UseObj(kind, obj.value, op, Get(r1, ExtraArgs(op)).0);
        var e := Event(c, eng(s.log, c).rc);
        assert (s.log + [e])[..|s.log|] == s.log;
        NeutralCall(s, DoUse(eng, s, kind, obj.value, op, Get(r1, ExtraArgs(op)).0).srv, e);
      }
    }
  }

  lemma GenCallKeeps(eng: Engine, s: Srv, t: Srv, c: Call)
    requires Sound(s) && (c.MakeTextGen? || c.MakeRegexGen? || c.DrawString? || c.FreeGen?)
    requires t.log == s.log + [Event(c, eng(s.log, c).rc)] && t.handles == s.handles
    ensures Sound(t) && Grows(s, t)
  {
    NeutralCall(s, t, Event(c, eng(s.log, c).rc));
  }

  lemma StringKeeps(eng: Engine, s: Srv, g: GenReply)
    requires Sound(s) && Sound(g.srv) && g.srv.handles == s.handles
    ensures Sound(DoString(eng, g).srv) && Grows(s, DoString(eng, g).srv)
  {
    if g.rc == OK { GenCallKeeps(eng, g.srv, DoString(eng, g).srv, DrawString(g.gen)); }
  }

  lemma TextGenKeeps(eng: Engine, s: Srv, min: nat, max: nat)
    requires Sound(s)
    ensures Sound(TextGenFor(eng, s, min, max).srv) && TextGenFor(eng, s, min, max).srv.handles == s.handles
  {
    if FindText(s.gens, min, max).None? {
      GenCallKeeps(eng, s, TextGenFor(eng, s, min, max).srv, MakeTextGen(min, max));
    }
  }

  lemma RegexGenKeeps(eng: Engine, s: Srv, pat: seq<byte>)
    requires Sound(s)
    ensures Sound(RegexGenFor(eng, s, pat).srv) && RegexGenFor(eng, s, pat).srv.handles == s.handles
  {
    if FindRegex(s.gens, pat).None? {
      var alpha := AlphabetFor(eng, s);
      if s.noNul.None? { GenCallKeeps(eng, s, alpha.srv, MakeTextGen(0, 1)); }
      if alpha.rc == OK {
        GenCallKeeps(eng, alpha.srv, RegexGenFor(eng, s, pat).srv, MakeRegexGen(pat, alpha.gen));
      }
    }
  }

  lemma DrawKeeps(eng: Engine, s: Srv, op: nat, payload: Payload)
    requires Sound(s) && IsDraw(op)
    ensures Sound(ServeDraw(eng, s, op, payload).srv) && Grows(s, ServeDraw(eng, s, op, payload).srv)
  {
    hide LogOk, TableOk, Sound, DoPlain, DoString, TextGenFor, RegexGenFor;
    var (a, r1) := Get(Rd(payload, false), 8);
    var (b, r2) := Get(r1, 8);
    if op == DRAW_TEXT {
      TextGenKeeps(eng, s, FromLE(a), FromLE(b));
      StringKeeps(eng, s, TextGenFor(eng, s, FromLE(a), FromLE(b)));
    } else if op == DRAW_REGEX {
      RegexGenKeeps(eng, s, payload);
      StringKeeps(eng, s, RegexGenFor(eng, s, payload));
    } else {
      SameTable(s, s);
      forall args ensures Sound(DoPlain(eng, s, op, args).srv) && Grows(s, DoPlain(eng, s, op, args).srv) {
        PlainKeeps(eng, s, op, args);
      }
    }
  }

  lemma CreatesKeep(eng: Engine, s: Srv, op: nat, payload: Payload)
    requires Sound(s) && IsCreate(op)
    ensures Sound(ServeCreate(eng, s, op, payload).srv) && Grows(s, ServeCreate(eng, s, op, payload).srv)
  {
    hide LogOk, TableOk, Sound, DoCreate;
    SameTable(s, s);
    forall kind, args | kind != HFree
      ensures Sound(DoCreate(eng, s, kind, args).srv) && Grows(s, DoCreate(eng, s, kind, args).srv)
    {
      CreateKeeps(eng, s, kind, args);
    }
  }

  lemma ServeKeeps(eng: Engine, s: Srv, op: nat, payload: Payload)
    requires Sound(s)
    ensures Sound(Serve(eng, s, op, payload).srv) && Grows(s, Serve(eng, s, op, payload).srv)
  {
    hide LogOk, TableOk, Sound, ServeTerminal, ServeDraw, ServeCreate, ServeHandle;
    if IsDraw(op) {
      DrawKeeps(eng, s, op, payload);
    } else if IsCreate(op) {
      CreatesKeep(eng, s, op, payload);
    } else if HandleKind(op) != HFree {
      HandleKeeps(eng, s, op, Rd(payload, false));
    } else {
      SameTable(s, Serve(eng, s, op, payload).srv);
    }
  }

  lemma SameTable(s: Srv, t: Srv)
    requires Sound(s) && t.log == s.log && t.handles == s.handles
    ensures Sound(t) && Grows(s, t)
  {
    forall i | 0 <= i < |t.handles| ensures SlotOk(t, i) { assert SlotOk(s, i); }
    forall obj, kind | Usable(t.log, obj, kind) ensures Held(t, obj, kind) { assert Held(s, obj, kind); }
  }

  /* ---- Whole cases ---- */

  datatype Request = Request(op: nat, payload: Payload)

  function Requests(eng: Engine, s: Srv, rs: seq<Request>): Srv
    decreases |rs|
  {
    if rs == [] then s else Requests(eng, Serve(eng, s, rs[0].op, rs[0].payload).srv, rs[1..])
  }

  lemma {:induction false} RequestsKeep(eng: Engine, s: Srv, rs: seq<Request>)
    requires Sound(s)
    ensures Sound(Requests(eng, s, rs))
    decreases |rs|
  {
    if rs != [] {
      ServeKeeps(eng, s, rs[0].op, rs[0].payload);
      RequestsKeep(eng, Serve(eng, s, rs[0].op, rs[0].payload).srv, rs[1..]);
    }
  }

  lemma {:induction false} CaseFreeKeeps(s: Srv, i: nat)
    requires Sound(s) && i <= |s.handles|
    requires forall j :: 0 <= j < i ==> s.handles[j].kind == HFree
    ensures var t := CaseFree(s, i); Sound(t) && forall j :: 0 <= j < |t.handles| ==> t.handles[j].kind == HFree
    ensures CaseFree(s, i).gens == s.gens && CaseFree(s, i).noNul == s.noNul
    decreases |s.handles| - i
  {
    if i < |s.handles| {
      if s.handles[i].kind != HFree {
        FreeCall(s, i);
        CaseFreeKeeps(DoFree(s, i), i + 1);
      } else {
        CaseFreeKeeps(s, i + 1);
      }
    }
  }

  /** The engine's log and the generator cache outlive a case; the rest starts over. */
  function NewCase(s: Srv, capture: bool): Srv {
    s.(capture := capture, stopSeen := false, handles := [], lines := [], isoSite := [])
  }

  /** One test case: whether the engine captures it, and what its body asks. */
  datatype CaseBody = CaseBody(capture: bool, requests: seq<Request>)

  function RunCase(eng: Engine, s: Srv, c: CaseBody): Srv {
    CaseFree(Requests(eng, NewCase(s, c.capture), c.requests), 0)
  }

  function RunCases(eng: Engine, s: Srv, cases: seq<CaseBody>): Srv
    decreases |cases|
  {
    if cases == [] then s else RunCases(eng, RunCase(eng, s, cases[0]), cases[1..])
  }

  function FreshSrv(): Srv { Srv([], false, false, [], [], [], [], None) }

  ghost predicate AllFreed(s: Srv) { LogOk(s.log) && forall obj, kind {:trigger Usable(s.log, obj, kind)} :: !Usable(s.log, obj, kind) }

  lemma CaseEnds(eng: Engine, s: Srv, c: CaseBody)
    requires AllFreed(s)
    ensures AllFreed(RunCase(eng, s, c))
  {
    var s0 := NewCase(s, c.capture);
    assert Sound(s0);
    RequestsKeep(eng, s0, c.requests);
    var s1 := Requests(eng, s0, c.requests);
    CaseFreeKeeps(s1, 0);
    var t := CaseFree(s1, 0);
    forall obj, kind | Created(t.log, obj, kind) ensures kind != HFree {
      assert EventOk(t.log, obj);
    }
    forall obj, kind ensures !Usable(t.log, obj, kind) {
      assert Usable(t.log, obj, kind) ==> Held(t, obj, kind) && kind != HFree;
    }
  }

  lemma {:induction false} CasesEnd(eng: Engine, s: Srv, cases: seq<CaseBody>)
    requires AllFreed(s)
    ensures AllFreed(RunCases(eng, s, cases))
    decreases |cases|
  {
    if cases != [] {
      CaseEnds(eng, s, cases[0]);
      CasesEnd(eng, RunCase(eng, s, cases[0]), cases[1..]);
    }
  }

  /**
    Handle conservation.  Whatever requests the cases of a run send, in whatever order and
    however malformed: every object the engine created is freed exactly once, every call on
    an object reaches the engine only while that object is live, and as its own kind.
   */
  lemma EveryHandleFreedOnce(eng: Engine, cases: seq<CaseBody>, obj: Obj, kind: HKind)
    ensures var log := RunCases(eng, FreshSrv(), cases).log;
      LogOk(log) && (Created(log, obj, kind) ==> Frees(log, obj) == 1)
  {
    var s := FreshSrv();
    CasesEnd(eng, s, cases);
    var log := RunCases(eng, s, cases).log;
    FreedAtMostOnce(log, obj);
    assert !Usable(log, obj, kind);
  }
}
