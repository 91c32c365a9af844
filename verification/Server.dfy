/**
  hegel__serve_op: one wire request executed against the engine.  The engine is an arbitrary
  function of the calls made so far; every object it creates is a fresh one, named here by
  the position of the creating call.
 */
module Server {
  import opened Options
  import opened Wire

  /* ---- The engine's side ---- */

  datatype HKind = HFree | HColl | HRec | HPool | HSm

  /** An engine object: the index of the call that created it. */
  type Obj = nat

  datatype Call =
    | Plain(op: nat, args: seq<byte>)                        // draws, spans, targeting
    | Create(kind: HKind, args: seq<byte>)
    | UseObj(kind: HKind, obj: Obj, op: nat, args: seq<byte>)
    | FreeObj(kind: HKind, obj: Obj)
    | MakeTextGen(min: nat, max: nat)
    | MakeRegexGen(pattern: seq<byte>, alphabet: Obj)
    | DrawString(gen: Obj)
    | FreeGen(gen: Obj)

  /** Return code, and the bytes of the value (or of the diagnostic). */
  datatype Answer = Answer(rc: int, out: Payload)

  datatype Event = Event(call: Call, rc: int)

  type Engine = (seq<Event>, Call) -> Answer

  const OK: int := 0
  const E_STOP_TEST: int := -1
  const E_ASSUME: int := -2
  const E_RETRY: int := -10

  /* ---- Responses and outcomes ---- */

  datatype RespStatus = RespOk | RespStop | RespAssume | RespRetry | RespError

  datatype Status = Valid | Invalid | Overrun | Interesting

  datatype Outcome = Outcome(status: Status, health: bool, origin: seq<byte>, msg: seq<byte>)

  /** Answered: a response goes back.  Silent: fire-and-forget.  Ended: a terminal message. */
  datatype Served = Answered(status: RespStatus, resp: Payload) | Silent | Ended(outcome: Outcome)

  datatype Handle = Handle(kind: HKind, obj: Obj)

  /** A cached string generator: `pattern` for regex, the bounds for text. */
  datatype Gen = TextGen(min: nat, max: nat, gen: Obj) | RegexGen(pattern: seq<byte>, gen: Obj)

  datatype Srv = Srv(log: seq<Event>, capture: bool, stopSeen: bool, handles: seq<Handle>,
                     lines: seq<byte>, isoSite: seq<byte>, gens: seq<Gen>, noNul: Option<Obj>)

  datatype Reply = Reply(srv: Srv, served: Served)

  /* ---- Request decoding: the rd cursor ---- */

  datatype Rd = Rd(left: seq<byte>, bad: bool)

  function Zeros(n: nat): (s: seq<byte>)
    ensures |s| == n
  {
    seq(n, _ => 0)
  }

  /** rd_get: a field that is not there reads as zeros and leaves the cursor. */
  function Get(r: Rd, n: nat): (res: (seq<byte>, Rd))
    ensures |res.0| == n
    ensures |r.left| >= n ==> res == (r.left[..n], Rd(r.left[n..], r.bad))
    ensures |r.left| < n ==> res == (Zeros(n), Rd(r.left, true))
  {
    if |r.left| < n then (Zeros(n), Rd(r.left, true)) else (r.left[..n], Rd(r.left[n..], r.bad))
  }

  /** Fields of these widths, one after the other. */
  function GetAll(r: Rd, widths: seq<nat>): (seq<seq<byte>>, Rd)
    decreases |widths|
  {
    if widths == [] then ([], r)
    else
      var (b, r1) := Get(r, widths[0]);
      var (bs, r2) := GetAll(r1, widths[1..]);
      ([b] + bs, r2)
  }

  function Total(widths: seq<nat>): nat { if widths == [] then 0 else widths[0] + Total(widths[1..]) }

  function Joined(bs: seq<seq<byte>>): seq<byte> { if bs == [] then [] else bs[0] + Joined(bs[1..]) }

  /** A request is marked bad exactly when it is shorter than its fields together; otherwise the
      fields are its first bytes, and what follows them is left. */
  lemma {:induction false} TruncatedIff(r: Rd, widths: seq<nat>)
    ensures var (bs, r') := GetAll(r, widths);
      && (r'.bad <==> r.bad || |r.left| < Total(widths))
      && (|r.left| >= Total(widths) ==> Joined(bs) + r'.left == r.left && r'.bad == r.bad)
    decreases |widths|
  {
    if widths != [] {
      var (b, r1) := Get(r, widths[0]);
      TruncatedIff(r1, widths[1..]);
      var (bs, r2) := GetAll(r1, widths[1..]);
      assert ([b] + bs)[1..] == bs;
      if |r.left| >= Total(widths) {
        assert b + (Joined(bs) + r2.left) == b + Joined(bs) + r2.left;
      }
    }
  }

  /** The int64 with these eight bytes. */
  function Signed64(b: seq<byte>): int
    requires |b| == 8
  {
    var n := FromLE(b);
    if n >= 0x8000_0000_0000_0000 then n - 0x1_0000_0000_0000_0000 else n
  }

  /** A C string kept in a char[cap]: up to the first NUL, at most cap - 1 bytes. */
  function CStr(s: seq<byte>, cap: nat): (r: seq<byte>)
    requires cap > 0
    ensures |r| < cap && 0 !in r && r <= s
    ensures |s| < cap && 0 !in s ==> r == s
  {
    if s == [] || s[0] == 0 || cap == 1 then []
    else
      var t := CStr(s[1..], cap - 1);
      assert s == [s[0]] + s[1..];
      [s[0]] + t
  }

  lemma {:induction false} CStrWhole(s: seq<byte>, cap: nat)
    requires cap > 0 && 0 !in s
    ensures CStr(s, cap) == if |s| < cap then s else s[..cap - 1]
    decreases |s|
  {
    if s != [] && cap > 1 {
      CStrWhole(s[1..], cap - 1);
      assert s == [s[0]] + s[1..];
    }
  }

  function Cut(s: seq<byte>, n: nat): (r: seq<byte>)
    ensures |r| <= n && r <= s && (|s| <= n ==> r == s)
  {
    if |s| <= n then s else s[..n]
  }

  function Ascii(s: string): (r: seq<byte>)
    ensures |r| == |s|
  {
    seq(|s|, i requires 0 <= i < |s| => s[i] as int % 256)
  }

  function UsageError(msg: string): Served
    requires |msg| < 100
  {
    Answered(RespError, Ascii(msg))
  }

  /* ---- Calling the engine ---- */

  function Record(s: Srv, c: Call, a: Answer): Srv {
    s.(log := s.log + [Event(c, a.rc)], stopSeen := s.stopSeen || a.rc == E_STOP_TEST)
  }

  function StatusOf(rc: int): RespStatus {
    if rc == OK then RespOk
    else if rc == E_STOP_TEST then RespStop
    else if rc == E_ASSUME then RespAssume
    else if rc == E_RETRY then RespRetry
    else RespError
  }

  /** Status and payload of a call: the value when it succeeded, the diagnostic on an error. */
  function Result(a: Answer): Served {
    Answered(StatusOf(a.rc), if StatusOf(a.rc).RespOk? then a.out
                             else if StatusOf(a.rc).RespError? then Cut(a.out, 2299) else [])
  }

  /** A request that was cut short is refused, if nothing else went wrong. */
  function Checked(r: Reply, bad: bool): Reply {
    if bad && r.served.Answered? && r.served.status.RespOk? then
      Reply(r.srv, UsageError("hegel-c: truncated request"))
    else r
  }

  function DoPlain(eng: Engine, s: Srv, op: nat, args: seq<byte>): Reply {
    var c := Plain(op, args);
    var a := eng(s.log, c);
    Reply(Record(s, c, a), Result(a))
  }

  /** A created object gets the next handle id. */
  function DoCreate(eng: Engine, s: Srv, kind: HKind, args: seq<byte>): Reply {
    var c := Create(kind, args);
    var a := eng(s.log, c);
    var s' := Record(s, c, a);
    if a.rc == OK then
      Reply(s'.(handles := s.handles + [Handle(kind, |s.log|)]), Answered(RespOk, LE(|s.handles|, 8)))
    else Reply(s', Result(a))
  }

  /** get_handle: the live object behind an id of the right kind. */
  function Lookup(s: Srv, id: int, kind: HKind): Option<Obj> {
    if id < 0 || id >= |s.handles| || s.handles[id].kind != kind then None
    else Some(s.handles[id].obj)
  }

  function DoFree(s: Srv, id: int): Srv
    requires 0 <= id < |s.handles| && s.handles[id].kind != HFree
  {
    var h := s.handles[id];
    s.(log := s.log + [Event(FreeObj(h.kind, h.obj), OK)], handles := s.handles[id := Handle(HFree, 0)])
  }

  function DoUse(eng: Engine, s: Srv, kind: HKind, obj: Obj, op: nat, args: seq<byte>): Reply {
    var c := UseObj(kind, obj, op, args);
    var a := eng(s.log, c);
    Reply(Record(s, c, a), Result(a))
  }

  /* ---- The run's string generators ---- */

  function FindText(gens: seq<Gen>, min: nat, max: nat): (r: Option<Obj>)
    ensures r.Some? ==> TextGen(min, max, r.value) in gens
  {
    if gens == [] then None
    else if gens[0].TextGen? && gens[0].min == min && gens[0].max == max then Some(gens[0].gen)
    else FindText(gens[1..], min, max)
  }

  /** strlen of a malloc'd copy of the pattern. */
  function StrLen(p: seq<byte>): (n: nat)
    ensures n <= |p| && 0 !in p[..n] && (n < |p| ==> p[n] == 0)
  {
    if p == [] || p[0] == 0 then 0
    else
      var k := StrLen(p[1..]);
      assert p[..k+1] == [p[0]] + p[1..][..k];
      1 + k
  }

  function FindRegex(gens: seq<Gen>, pat: seq<byte>): (r: Option<Obj>)
    ensures r.Some? ==> exists p :: RegexGen(p, r.value) in gens && StrLen(p) == |pat| && pat <= p
  {
    if gens == [] then None
    else if gens[0].RegexGen? && StrLen(gens[0].pattern) == |pat| && pat <= gens[0].pattern then
      assert RegexGen(gens[0].pattern, gens[0].gen) in gens;
      Some(gens[0].gen)
    else FindRegex(gens[1..], pat)
  }

  datatype GenReply = GenReply(srv: Srv, rc: int, diag: Payload, gen: Obj)

  function TextGenFor(eng: Engine, s: Srv, min: nat, max: nat): GenReply {
    var hit := FindText(s.gens, min, max);
    if hit.Some? then GenReply(s, OK, [], hit.value)
    else
      var c := MakeTextGen(min, max);
      var a := eng(s.log, c);
      var s' := Record(s, c, a);
      if a.rc == OK then GenReply(s'.(gens := s.gens + [TextGen(min, max, |s.log|)]), OK, [], |s.log|)
      else GenReply(s', a.rc, a.out, 0)
  }

  /** The alphabet without NUL, built once a run. */
  function AlphabetFor(eng: Engine, s: Srv): GenReply {
    if s.noNul.Some? then GenReply(s, OK, [], s.noNul.value)
    else
      var c := MakeTextGen(0, 1);
      var a := eng(s.log, c);
      var s' := Record(s, c, a);
      if a.rc == OK then GenReply(s'.(noNul := Some(|s.log|)), OK, [], |s.log|)
      else GenReply(s', a.rc, a.out, 0)
  }

  function RegexGenFor(eng: Engine, s: Srv, pat: seq<byte>): GenReply {
    var hit := FindRegex(s.gens, pat);
    if hit.Some? then GenReply(s, OK, [], hit.value)
    else
      var alpha := AlphabetFor(eng, s);
      if alpha.rc != OK then alpha
      else
        var c := MakeRegexGen(pat, alpha.gen);
        var s1 := alpha.srv;
        var a := eng(s1.log, c);
        var s2 := Record(s1, c, a);
        if a.rc == OK then GenReply(s2.(gens := s1.gens + [RegexGen(pat, |s1.log|)]), OK, [], |s1.log|)
        else GenReply(s2, a.rc, a.out, 0)
  }

  function DoString(eng: Engine, g: GenReply): Reply {
    if g.rc != OK then Reply(g.srv, Result(Answer(g.rc, g.diag)))
    else
      var c := DrawString(g.gen);
      var a := eng(g.srv.log, c);
      Reply(Record(g.srv, c, a), Result(a))
  }

  /* ---- One request ---- */

  const DRAW_INT: nat := 1
  const DRAW_U64: nat := 2
  const DRAW_FLOAT: nat := 3
  const DRAW_BOOL: nat := 4
  const DRAW_TEXT: nat := 5
  const DRAW_BYTES: nat := 6
  const DRAW_REGEX: nat := 7
  const SPAN_START: nat := 10
  const SPAN_STOP: nat := 11
  const COLL_NEW: nat := 12
  const COLL_FREE: nat := 15
  const REC_NEW: nat := 16
  const REC_BRANCH: nat := 17
  const REC_FREE: nat := 21
  const POOL_NEW: nat := 30
  const POOL_DRAW: nat := 32
  const POOL_RESTORE: nat := 33
  const POOL_FREE: nat := 34
  const SM_NEW: nat := 35
  const SM_CHECK_INV: nat := 39
  const SM_FREE: nat := 40
  const TARGET: nat := 50
  const NOTE: nat := 51
  const ISO_SITE: nat := 52
  const DONE: nat := 60
  const STOPPED: nat := 61
  const ASSUME: nat := 62
  const FAIL: nat := 63
  const HEALTH: nat := 64

  /** The kind of object an op on a handle works on. */
  function HandleKind(op: nat): HKind {
    if 13 <= op <= 15 then HColl
    else if 17 <= op <= 21 then HRec
    else if 31 <= op <= 34 then HPool
    else if 36 <= op <= 40 then HSm
    else HFree
  }

  predicate FreesHandle(op: nat) { op == COLL_FREE || op == REC_FREE || op == POOL_FREE || op == SM_FREE }

  /** Bytes of argument an op reads after the handle id. */
  function ExtraArgs(op: nat): nat {
    if op == REC_BRANCH || op == POOL_RESTORE || op == SM_CHECK_INV then 8
    else if op == POOL_DRAW then 1 else 0
  }

  function StaleHandle(kind: HKind): Served {
    match kind
    case HColl => UsageError("hegel-c: stale or invalid collection handle")
    case HRec => UsageError("hegel-c: stale or invalid recursion handle")
    case HPool => UsageError("hegel-c: stale or invalid pool handle")
    case _ => UsageError("hegel-c: stale or invalid state machine handle")
  }

  /** An op on a handle: a stale or wrong-kind id is refused before the engine sees it. */
  function ServeHandle(eng: Engine, s: Srv, op: nat, r: Rd): Reply
    requires HandleKind(op) != HFree
  {
    var (idb, r1) := Get(r, 8);
    var id := Signed64(idb);
    var kind := HandleKind(op);
    var obj := Lookup(s, id, kind);
    if obj.None? then Checked(Reply(s, StaleHandle(kind)), r1.bad)
    else if FreesHandle(op) then Checked(Reply(DoFree(s, id), Answered(RespOk, [])), r1.bad)
    else
      var (args, r2) := Get(r1, ExtraArgs(op));
      Checked(DoUse(eng, s, kind, obj.value, op, args), r2.bad)
  }

  /** add_line: captured lines, each ended by a newline. */
  function AddLine(s: Srv, line: seq<byte>): Srv {
    if s.capture then s.(lines := s.lines + line + [10]) else s
  }

  function DecodeFail(r: Rd): Outcome {
    var (ob, r1) := Get(r, 4);
    var olen := FromLE(ob);
    var o := if olen > |r1.left| then |r1.left| else olen;
    Outcome(Interesting, false, CStr(r1.left[..o], 512), CStr(r1.left[o..], 1024))
  }

  function ServeTerminal(s: Srv, op: nat, payload: seq<byte>): Outcome
    requires 60 <= op <= 64
  {
    if op == DONE then Outcome(if s.stopSeen then Overrun else Valid, false, [], [])
    else if op == STOPPED then Outcome(Overrun, false, [], [])
    else if op == ASSUME then Outcome(Invalid, false, [], [])
    else if op == FAIL then DecodeFail(Rd(payload, false))
    else Outcome(Invalid, true, [], CStr(payload, 1024))
  }

  /** The names of a SM_NEW request: n length-prefixed strings. */
  function GetNames(r: Rd, n: nat): (seq<seq<byte>>, Rd)
    decreases n
  {
    if n == 0 || r.bad then ([], r)
    else
      var (lb, r1) := Get(r, 4);
      var l := FromLE(lb);
      if r1.bad || |r1.left| < l then ([], Rd(r1.left, true))
      else
        var (rest, r2) := GetNames(Rd(r1.left[l..], r1.bad), n - 1);
        ([r1.left[..l]] + rest, r2)
  }

  function Field(r: Rd, k: nat): nat { FromLE(Get(r, k).0) }

  function After(r: Rd, k: nat): Rd { Get(r, k).1 }

  /** The fields of a SM_NEW request. */
  datatype Unpacked = Unpacked(rules: nat, invs: nat, steps: nat, names: seq<seq<byte>>, left: Rd)

  function Unpack(r0: Rd): Unpacked {
    var r1 := After(r0, 4);
    var r2 := After(r1, 4);
    var names := GetNames(After(r2, 8), (Field(r0, 4) + Field(r1, 4)) % U32);
    Unpacked(Field(r0, 4), Field(r1, 4), Field(r2, 8), names.0, names.1)
  }

  function ServeMachine(eng: Engine, s: Srv, payload: seq<byte>): Reply {
    if Unpack(Rd(payload, false)).left.bad then Reply(s, UsageError("hegel-c: malformed state machine request"))
    else DoCreate(eng, s, HSm, payload)
  }

  predicate IsDraw(op: nat) {
    1 <= op <= 7 || op == SPAN_START || op == SPAN_STOP || op == TARGET
  }

  predicate IsCreate(op: nat) { op == COLL_NEW || op == REC_NEW || op == POOL_NEW || op == SM_NEW }

  /** Draws, spans and targeting. */
  function ServeDraw(eng: Engine, s: Srv, op: nat, payload: Payload): Reply
    requires IsDraw(op)
  {
    var r := Rd(payload, false);
    var (a, r1) := Get(r, 8);
    var (b, r2) := Get(r1, 8);
    var (w, r3) := Get(r2, 4);
    var (d, q1) := Get(r, 1);
    if op == DRAW_INT && Signed64(a) > Signed64(b) then Reply(s, UsageError("hegel-c: integer draw with min > max"))
    else if op == DRAW_U64 && FromLE(a) > FromLE(b) then Reply(s, UsageError("hegel-c: u64 draw with min > max"))
    else if op == DRAW_INT || op == DRAW_U64 || op == DRAW_BYTES then Checked(DoPlain(eng, s, op, a + b), r2.bad)
    else if op == DRAW_FLOAT then Checked(DoPlain(eng, s, op, a + b + w), r3.bad)
    else if op == DRAW_BOOL || op == SPAN_START then Checked(DoPlain(eng, s, op, a), r1.bad)
    else if op == SPAN_STOP then Checked(DoPlain(eng, s, op, d), q1.bad)
    else if op == TARGET then Checked(DoPlain(eng, s, op, a + r1.left), r1.bad)
    else if op == DRAW_TEXT then Checked(DoString(eng, TextGenFor(eng, s, FromLE(a), FromLE(b))), r2.bad)
    else DoString(eng, RegexGenFor(eng, s, payload))
  }

  /** Requests that open a collection, a recursion, a pool or a state machine. */
  function ServeCreate(eng: Engine, s: Srv, op: nat, payload: Payload): Reply
    requires IsCreate(op)
  {
    var (a, r1) := Get(Rd(payload, false), 8);
    var (b, r2) := Get(r1, 8);
    if op == SM_NEW then ServeMachine(eng, s, payload)
    else if op == POOL_NEW then DoCreate(eng, s, HPool, [])
    else if op == REC_NEW then Checked(DoCreate(eng, s, HRec, a + b), r2.bad)
    else if FromLE(a) > FromLE(b) then Reply(s, UsageError("hegel-c: collection with min > max"))
    else Checked(DoCreate(eng, s, HColl, a + b), r2.bad)
  }

  /** hegel__serve_op. */
  function Serve(eng: Engine, s: Srv, op: nat, payload: Payload): Reply {
    if IsDraw(op) then ServeDraw(eng, s, op, payload)
    else if IsCreate(op) then ServeCreate(eng, s, op, payload)
    else if HandleKind(op) != HFree then ServeHandle(eng, s, op, Rd(payload, false))
    else if op == NOTE then Reply(AddLine(s, payload), Silent)
    else if op == ISO_SITE then Reply(s.(isoSite := Cut(payload, 255)), Silent)
    else if 60 <= op <= 64 then Reply(s, Ended(ServeTerminal(s, op, payload)))
    else Reply(s, UsageError("hegel-c: unknown request op"))
  }

  /* ---- What a request means, from its bytes ---- */

  /** What the caller hears of an engine call. */
  predicate Reports(a: Answer, served: Served) {
    served.Answered? &&
    if a.rc == 0 then served.status.RespOk? && served.resp == a.out
    else if a.rc == -1 then served.status.RespStop? && served.resp == []
    else if a.rc == -2 then served.status.RespAssume? && served.resp == []
    else if a.rc == -10 then served.status.RespRetry? && served.resp == []
    else served.status.RespError? && served.resp <= a.out
  }

  /** The engine was called once, and nothing else changed. */
  predicate OneCall(eng: Engine, s: Srv, c: Call, r: Reply) {
    var a := eng(s.log, c);
    Reports(a, r.served) && r.srv == s.(log := s.log + [Event(c, a.rc)], stopSeen := s.stopSeen || a.rc == -1)
  }

  /** The engine was not called. */
  predicate RefusedBy(s: Srv, r: Reply) { r.srv == s && r.served.Answered? && r.served.status.RespError? }

  /** Bytes of the fields of a request that draws. */
  function FieldBytes(op: nat): nat {
    if op == DRAW_FLOAT then 20
    else if op == DRAW_INT || op == DRAW_U64 || op == DRAW_BYTES || op == DRAW_TEXT then 16
    else if op == SPAN_STOP then 1
    else if op == DRAW_REGEX then 0 else 8
  }

  /** min above max: signed in an integer draw, unsigned in the others that check. */
  predicate BadRange(op: nat, payload: Payload)
    requires |payload| >= 16
  {
    || (op == DRAW_INT && Signed64(payload[..8]) > Signed64(payload[8..16]))
    || ((op == DRAW_U64 || op == COLL_NEW) && FromLE(payload[..8]) > FromLE(payload[8..16]))
  }

  lemma FieldsAre(payload: Payload)
    ensures var (a, r1) := Get(Rd(payload, false), 8);
      var (b, r2) := Get(r1, 8);
      var (w, r3) := Get(r2, 4);
      && (|payload| >= 8 ==> a == payload[..8] && a + r1.left == payload && !r1.bad)
      && (|payload| >= 16 ==> b == payload[8..16] && a + b == payload[..16] && !r2.bad)
      && (|payload| >= 20 ==> a + b + w == payload[..20] && !r3.bad)
      && (|payload| < 8 ==> r1.bad) && (|payload| < 16 ==> r2.bad) && (|payload| < 20 ==> r3.bad)
  {
    if |payload| >= 20 { assert payload[8..][8..][..4] == payload[16..20]; }
    if |payload| >= 16 {
      assert payload[8..][..8] == payload[8..16];
      assert payload[..8] + payload[8..16] == payload[..16];
    }
  }

  lemma PlainIsOneCall(eng: Engine, s: Srv, op: nat, args: seq<byte>)
    ensures OneCall(eng, s, Plain(op, args), DoPlain(eng, s, op, args))
  {
  }

  /**
    A draw, span or target request that has its fields: refused without an engine call exactly
    when its range is empty, and otherwise one call with the request's own bytes.
   */
  lemma DrawServed(eng: Engine, s: Srv, op: nat, payload: Payload)
    requires IsDraw(op) && op != DRAW_TEXT && op != DRAW_REGEX && |payload| >= FieldBytes(op)
    ensures var r := Serve(eng, s, op, payload);
      if FieldBytes(op) == 16 && BadRange(op, payload) then RefusedBy(s, r)
      else OneCall(eng, s, Plain(op, if op == TARGET then payload else payload[..FieldBytes(op)]), r)
  {
    FieldsAre(payload);
    forall args ensures OneCall(eng, s, Plain(op, args), DoPlain(eng, s, op, args)) { PlainIsOneCall(eng, s, op, args); }
    hide DoPlain, OneCall, Signed64, FromLE, Get;
    var _ := Get(Rd(payload, false), 1);
  }

  /** One that is too short never succeeds. */
  lemma DrawTruncated(eng: Engine, s: Srv, op: nat, payload: Payload)
    requires IsDraw(op) && |payload| < FieldBytes(op)
    ensures var r := Serve(eng, s, op, payload); r.served.Answered? && !r.served.status.RespOk?
  {
    FieldsAre(payload);
    hide Signed64, FromLE, Get, TextGenFor;
    var _ := Get(Rd(payload, false), 1);
  }

  /**
    A text draw uses a generator of its own bounds: the one the run has, or one made now; a
    generator the engine refuses ends the request.
   */
  lemma TextServed(eng: Engine, s: Srv, payload: Payload)
    requires |payload| >= 16
    ensures var r := Serve(eng, s, DRAW_TEXT, payload);
      var min, max := FromLE(payload[..8]), FromLE(payload[8..16]);
      var m := eng(s.log, MakeTextGen(min, max));
      var s1 := s.(log := s.log + [Event(MakeTextGen(min, max), m.rc)]);
      || (exists g :: TextGen(min, max, g) in s.gens && OneCall(eng, s, DrawString(g), r))
      || ((forall g :: TextGen(min, max, g) !in s.gens) &&
          if m.rc != 0 then OneCall(eng, s, MakeTextGen(min, max), r)
          else OneCall(eng, s1.(gens := s.gens + [TextGen(min, max, |s.log|)]), DrawString(|s.log|), r))
  {
    FieldsAre(payload);
    var min, max := FromLE(payload[..8]), FromLE(payload[8..16]);
    FindTextMisses(s.gens, min, max);
    hide Signed64, FromLE, Get, FindText;
  }

  lemma {:induction false} FindTextMisses(gens: seq<Gen>, min: nat, max: nat)
    ensures FindText(gens, min, max).None? ==> forall g :: TextGen(min, max, g) !in gens
  {
    if gens != [] { FindTextMisses(gens[1..], min, max); }
  }

  /** A cached regex generator whose pattern, as a C string, is this one. */
  ghost predicate HasRegex(gens: seq<Gen>, pat: seq<byte>, g: Obj) {
    exists p :: RegexGen(p, g) in gens && StrLen(p) == |pat| && pat <= p
  }

  lemma {:induction false} FindRegexMisses(gens: seq<Gen>, pat: seq<byte>)
    ensures FindRegex(gens, pat).None? ==> forall g :: !HasRegex(gens, pat, g)
    ensures FindRegex(gens, pat).Some? ==> HasRegex(gens, pat, FindRegex(gens, pat).value)
  {
    if gens != [] {
      FindRegexMisses(gens[1..], pat);
      if FindRegex(gens, pat).None? {
        forall g ensures !HasRegex(gens, pat, g) {
          assert !HasRegex(gens[1..], pat, g);
          assert forall e :: e in gens ==> e == gens[0] || e in gens[1..];
        }
      }
    }
  }

  /**
    A regex draw uses a cached generator for its pattern, or makes one from all the bytes of the
    request over the alphabet without NUL, which is itself made once; a refusal of either ends
    the request.
   */
  lemma RegexServed(eng: Engine, s: Srv, pat: Payload)
    ensures var r := Serve(eng, s, DRAW_REGEX, pat);
      var a := eng(s.log, MakeTextGen(0, 1));
      var s1 := if s.noNul.Some? then s else s.(log := s.log + [Event(MakeTextGen(0, 1), a.rc)], noNul := Some(|s.log|));
      var make := MakeRegexGen(pat, if s.noNul.Some? then s.noNul.value else |s.log|);
      var m := eng(s1.log, make);
      || (exists g :: HasRegex(s.gens, pat, g) && OneCall(eng, s, DrawString(g), r))
      || ((forall g :: !HasRegex(s.gens, pat, g)) &&
          if s.noNul.None? && a.rc != 0 then OneCall(eng, s, MakeTextGen(0, 1), r)
          else if m.rc != 0 then OneCall(eng, s1, make, r)
          else
            OneCall(eng, s1.(log := s1.log + [Event(make, 0)], gens := s.gens + [RegexGen(pat, |s1.log|)]), DrawString(|s1.log|), r))
  {
    hide Signed64, FromLE, Get, FindRegex, HasRegex;
    FindRegexMisses(s.gens, pat);
  }

  lemma SmallSigned(n: nat)
    requires n < 0x8000_0000_0000_0000
    ensures Signed64(LE(n, 8)) == n
  {
    assert Pow256(8) == 0x1_0000_0000_0000_0000 by { Pow256Four(); assert Pow256(8) == 256 * (256 * (256 * (256 * Pow256(4)))); }
    LERoundTrip(n, 8);
  }

  /** Nothing changed for any id but this one. */
  ghost predicate OthersStay(s: Srv, s': Srv, id: int) {
    forall j, k :: j != id ==> Lookup(s', j, k) == Lookup(s, j, k)
  }

  /** The kind and the arguments of a request that creates an object. */
  function Creates(op: nat, payload: Payload): Call
    requires IsCreate(op) && (op == COLL_NEW || op == REC_NEW ==> |payload| >= 16)
  {
    if op == COLL_NEW then Create(HColl, payload[..16])
    else if op == REC_NEW then Create(HRec, payload[..16])
    else if op == POOL_NEW then Create(HPool, [])
    else Create(HSm, payload)
  }

  /**
    A request that creates an object: refused without an engine call when it is malformed or its
    range is empty; when the engine agrees, the answer is an id that was free and now stands for
    the new object, and no other id changes.
   */
  lemma CreateServed(eng: Engine, s: Srv, op: nat, payload: Payload)
    requires IsCreate(op) && (op == COLL_NEW || op == REC_NEW ==> |payload| >= 16)
    requires |s.handles| < 0x8000_0000_0000_0000
    ensures var r := Serve(eng, s, op, payload);
      var c := Creates(op, payload);
      if (op == COLL_NEW && BadRange(op, payload)) || (op == SM_NEW && Unpack(Rd(payload, false)).left.bad) then RefusedBy(s, r)
      else if eng(s.log, c).rc != 0 then OneCall(eng, s, c, r)
      else
        && r.served.Answered? && r.served.status.RespOk? && |r.served.resp| == 8
        && r.srv.log == s.log + [Event(c, 0)]
        && var id := Signed64(r.served.resp);
           Lookup(r.srv, id, c.kind) == Some(|s.log|) && (forall k :: Lookup(s, id, k).None?) && OthersStay(s, r.srv, id)
  {
    FieldsAre(payload);
    SmallSigned(|s.handles|);
    hide Signed64, FromLE, Get, Unpack, LE;
  }

  /** How many bytes of a request on a handle are read. */
  function HandleBytes(op: nat): nat { if FreesHandle(op) then 8 else 8 + ExtraArgs(op) }

  /**
    A request on a handle: refused without an engine call when the id does not stand for a live
    object of the op's kind; a free closes that id and no other; anything else is one call on
    that very object.
   */
  lemma HandleServed(eng: Engine, s: Srv, op: nat, payload: Payload)
    requires HandleKind(op) != HFree && |payload| >= HandleBytes(op)
    ensures var r := Serve(eng, s, op, payload);
      var id, kind := Signed64(payload[..8]), HandleKind(op);
      var obj := Lookup(s, id, kind);
      if obj.None? then RefusedBy(s, r)
      else if FreesHandle(op) then
        && r.served == Answered(RespOk, []) && r.srv.log == s.log + [Event(FreeObj(kind, obj.value), 0)]
        && (forall k :: k != HFree ==> Lookup(r.srv, id, k).None?) && OthersStay(s, r.srv, id)
      else OneCall(eng, s, UseObj(kind, obj.value, op, payload[8..8 + ExtraArgs(op)]), r)
  {
    hide Signed64;
    var r1 := Get(Rd(payload, false), 8).1;
    assert r1 == Rd(payload[8..], false);
    if !FreesHandle(op) { assert payload[8..][..ExtraArgs(op)] == payload[8..8 + ExtraArgs(op)]; }
  }

  lemma StaleRefused()
    ensures forall kind {:trigger StaleHandle(kind)} :: StaleHandle(kind).Answered? && StaleHandle(kind).status.RespError?
  {
  }

  /** ... and one that is too short never succeeds, nor does a short request that creates. */
  lemma HandleTruncated(eng: Engine, s: Srv, op: nat, payload: Payload)
    requires HandleKind(op) != HFree && |payload| < HandleBytes(op)
    ensures var r := Serve(eng, s, op, payload); r.served.Answered? && !r.served.status.RespOk?
  {
    hide Signed64, FromLE, StaleHandle, DoFree;
    assert forall kind :: StaleHandle(kind).Answered? && StaleHandle(kind).status.RespError? by { StaleRefused(); }
    var r1 := Get(Rd(payload, false), 8).1;
    assert r1 == if |payload| < 8 then Rd(payload, true) else Rd(payload[8..], false);
  }

  lemma CreateTruncated(eng: Engine, s: Srv, op: nat, payload: Payload)
    requires (op == COLL_NEW || op == REC_NEW) && |payload| < 16
    ensures var r := Serve(eng, s, op, payload); r.served.Answered? && !r.served.status.RespOk?
  {
    FieldsAre(payload);
    hide Signed64, FromLE, Get;
  }

  /** hegel__srv_case_free: whatever the body left open, in id order. */
  function CaseFree(s: Srv, i: nat): Srv
    requires i <= |s.handles|
    decreases |s.handles| - i
  {
    if i == |s.handles| then s
    else if s.handles[i].kind != HFree then CaseFree(DoFree(s, i), i + 1)
    else CaseFree(s, i + 1)
  }
}
