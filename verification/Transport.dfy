/**
  The two ways a test body reaches the server: direct calls with longjmp (INPROC), and a
  forked child over a pair of pipes (CHILD), where parent and child take turns in any order
  and every read and write may move any number of bytes.
 */
module Transport {
  import opened Options
  import opened Wire
  import opened Server

  /* ---- Test bodies ---- */

  datatype Action =
    | DoCall(op: byte, payload: Payload)
    | DoNote(line: Payload)
    | DoAssume
    | DoFail(origin: seq<byte>, msg: seq<byte>)
    | DoHealth(msg: seq<byte>)
    | EnterRule
    | LeaveRule
    | Return

  /** What the body has seen so far. */
  datatype Seen = Response(retry: bool, bytes: Payload) | NoteDone | RuleEntered | RuleLeft | RuleAssumed | BlockPassed

  /** A body that does not crash: its next action is a function of what it has seen. */
  type Body = seq<Seen> -> Action

  /** Ops a body sends through hegel__call: those the server answers. */
  predicate IsRequest(op: nat) { !(op == NOTE || op == ISO_SITE || 60 <= op <= 64) }

  ghost predicate GoodBody(body: Body) {
    forall h :: body(h).DoCall? ==> IsRequest(body(h).op)
  }

  /* ---- The runtime's side, shared by both transports ---- */

  /** `rules`: how many rule-level escapes are in force. */
  datatype Tc = Tc(hist: seq<Seen>, rules: nat, stopSeen: bool)

  datatype Exit = ExitFail(origin: seq<byte>, msg: seq<byte>) | ExitAssume | ExitStop | ExitHealth(msg: seq<byte>) | ExitReturn

  datatype Next = Go(tc: Tc) | Leave(tc: Tc, exit: Exit)

  function Saw(tc: Tc, e: Seen): Tc { tc.(hist := tc.hist + [e]) }

  /** hegel__escape with ASSUME: the innermost rule catches it, in both modes. */
  function OnAssume(tc: Tc): Next {
    if tc.rules > 0 then Go(Saw(tc.(rules := tc.rules - 1), RuleAssumed)) else Leave(tc, ExitAssume)
  }

  /** hegel__call after the response: STOP, ASSUME and ERROR escape the body. */
  function OnResponse(tc: Tc, st: RespStatus, bytes: Payload): Next {
    match st
    case RespStop => Leave(tc.(stopSeen := true), ExitStop)
    case RespAssume => OnAssume(tc)
    case RespError => Leave(tc, ExitHealth(CStr(bytes, 1024)))
    case RespOk => Go(Saw(tc, Response(false, bytes)))
    case RespRetry => Go(Saw(tc, Response(true, bytes)))
  }

  /** What an action other than a call or a note leads to. */
  function OnAction(tc: Tc, a: Action): Next
    requires !a.DoCall? && !a.DoNote?
  {
    match a
    case DoAssume => OnAssume(tc)
    case DoFail(origin, msg) => Leave(tc, ExitFail(CStr(origin, 512), CStr(msg, 1024)))
    case DoHealth(msg) => Leave(tc, ExitHealth(CStr(msg, 1024)))
    case EnterRule => Go(Saw(tc.(rules := tc.rules + 1), RuleEntered))
    case LeaveRule => Go(Saw(tc.(rules := if tc.rules > 0 then tc.rules - 1 else 0), RuleLeft))
    case Return => Leave(tc, ExitReturn)
  }

  /** The line a failing capture case emits before it escapes. */
  function FailLine(msg: seq<byte>): (l: Payload)
    requires |msg| < 1024
  {
    Ascii("Property test failed: ") + msg
  }

  /* ---- In process ---- */

  datatype In = Live(tc: Tc, srv: Srv) | Over(outcome: Outcome, srv: Srv)

  function Note(s: Srv, line: Payload): Srv { if s.capture then AddLine(s, line) else s }

  /** run_case_inproc after the setjmp: the outcome of an escape code. */
  function ExitOutcome(tc: Tc, e: Exit): Outcome {
    match e
    case ExitFail(origin, msg) => Outcome(Interesting, false, CStr(origin, 512), CStr(msg, 1024))
    case ExitAssume => Outcome(Invalid, false, [], [])
    case ExitStop => Outcome(Overrun, false, [], [])
    case ExitHealth(msg) => Outcome(Invalid, true, [], CStr(msg, 1024))
    case ExitReturn => Outcome(if tc.stopSeen then Overrun else Valid, false, [], [])
  }

  function InAfter(n: Next, s: Srv): In {
    match n
    case Go(tc) => Live(tc, s)
    case Leave(tc, e) => Over(ExitOutcome(tc, e), if e.ExitFail? && |e.msg| < 1024 then Note(s, FailLine(e.msg)) else s)
  }

  /** One action of a live in-process case. */
  function InAct(eng: Engine, a: Action, tc: Tc, srv: Srv): In {
    match a
    case DoCall(op, payload) =>
      var r := Serve(eng, srv, op, payload);
      if r.served.Answered? then InAfter(OnResponse(tc, r.served.status, r.served.resp), r.srv)
      else Live(tc, srv)                           // not a request: GoodBody rules it out
    case DoNote(line) => Live(Saw(tc, NoteDone), Note(srv, line))
    case _ => InAfter(OnAction(tc, a), srv)
  }

  function InStep(eng: Engine, body: Body, i: In): In {
    match i
    case Over(_, _) => i
    case Live(tc, srv) => InAct(eng, body(tc.hist), tc, srv)
  }

  function InRun(eng: Engine, body: Body, s: Srv, n: nat): In {
    if n == 0 then Live(Tc([], 0, false), s) else InStep(eng, body, InRun(eng, body, s, n - 1))
  }

  /* ---- Over the pipes ---- */

  datatype Child = Running(tc: Tc) | Waiting(tc: Tc) | Exited

  /** How many bytes a pipe holds: a write into a full one waits. */
  type Capacity = x: int | 1 <= x witness 1

  /** Bytes flow child.out -> req -> pbuf, and pout -> resp -> cbuf; req and resp are pipes. */
  datatype Sys = Sys(child: Child, capture: bool, out: seq<byte>, req: seq<byte>, pbuf: seq<byte>, srv: Srv,
                     pout: seq<byte>, resp: seq<byte>, cbuf: seq<byte>, done: Option<Outcome>, room: Capacity)

  datatype Move = Act | ChildWrite(k: nat) | ParentRead(k: nat) | Dispatch | ParentWrite(k: nat)
                | ChildRead(k: nat) | Receive

  function StatusByte(st: RespStatus): byte {
    match st case RespOk => 0 case RespStop => 1 case RespAssume => 2 case RespRetry => 3 case RespError => 4
  }

  function ByteStatus(b: byte): RespStatus {
    if b == 1 then RespStop else if b == 2 then RespAssume else if b == 3 then RespRetry
    else if b == 4 then RespError else RespOk
  }

  /** Texts as the runtime's buffers hold them. */
  predicate ExitOk(e: Exit) {
    && (e.ExitFail? ==> |e.origin| < 512 && |e.msg| < 1024 && 0 !in e.origin && 0 !in e.msg)
    && (e.ExitHealth? ==> |e.msg| < 1024 && 0 !in e.msg)
  }

  predicate ExitFits(n: Next) { n.Leave? ==> ExitOk(n.exit) }

  /** hegel__send_terminal. */
  function TerminalFrame(tc: Tc, e: Exit): Frame
    requires ExitOk(e)
  {
    match e
    case ExitFail(origin, msg) => Frame(FAIL, LE(|origin|, 4) + origin + msg)
    case ExitAssume => Frame(ASSUME, [])
    case ExitStop => Frame(STOPPED, [])
    case ExitHealth(msg) => Frame(HEALTH, msg)
    case ExitReturn => Frame(if tc.stopSeen then STOPPED else DONE, [])
  }

  /** The child goes on, or writes its last frames and exits. */
  function ChildAfter(z: Sys, n: Next): Sys
    requires ExitFits(n)
  {
    match n
    case Go(tc) => z.(child := Running(tc))
    case Leave(tc, e) =>
      var note := if e.ExitFail? && z.capture then [Frame(NOTE, FailLine(e.msg))] else [];
      z.(child := Exited, out := EncodeAll(note + [TerminalFrame(tc, e)]))
  }

  /** One move of the parent or the child, if it is enabled. */
  function Apply(eng: Engine, body: Body, z: Sys, m: Move): Option<Sys> {
    match m
    case Act =>
      if !z.child.Running? || z.out != [] then None
      else
        var tc := z.child.tc;
        var a := body(tc.hist);
        (match a
         case DoCall(op, payload) => Some(z.(child := Waiting(tc), out := Encode(Frame(op, payload))))
         case DoNote(line) =>
           Some(z.(child := Running(Saw(tc, NoteDone)), out := if z.capture then Encode(Frame(NOTE, line)) else []))
         case _ => Some(ChildAfter(z, OnAction(tc, a))))
    case ChildWrite(k) =>
      if !(1 <= k <= |z.out| && |z.req| + k <= z.room) then None else Some(z.(out := z.out[k..], req := z.req + z.out[..k]))
    case ParentRead(k) =>
      if z.done.Some? || z.pout != [] || !(1 <= k <= |z.req| && k <= Need(z.pbuf)) then None
      else Some(z.(req := z.req[k..], pbuf := z.pbuf + z.req[..k]))
    case Dispatch =>
      var f := Decode(z.pbuf);
      if z.done.Some? || z.pout != [] || f.None? then None
      else
        var r := Serve(eng, z.srv, f.value.op, f.value.payload);
        var z' := z.(srv := r.srv, pbuf := []);
        Some(match r.served
             case Answered(st, bytes) => z'.(pout := Encode(Frame(StatusByte(st), bytes)))
             case Silent => z'
             case Ended(o) => z'.(done := Some(o)))
    case ParentWrite(k) =>
      if !(1 <= k <= |z.pout| && |z.resp| + k <= z.room) then None else Some(z.(pout := z.pout[k..], resp := z.resp + z.pout[..k]))
    case ChildRead(k) =>
      if !z.child.Waiting? || z.out != [] || !(1 <= k <= |z.resp| && k <= Need(z.cbuf)) then None
      else Some(z.(resp := z.resp[k..], cbuf := z.cbuf + z.resp[..k]))
    case Receive =>
      var f := Decode(z.cbuf);
      if !z.child.Waiting? || z.out != [] || f.None? then None
      else
        Some(ChildAfter(z.(cbuf := []), OnResponse(z.child.tc, ByteStatus(f.value.op), f.value.payload)))
  }

  function Start(s: Srv, room: Capacity): Sys {
    Sys(Running(Tc([], 0, false)), s.capture, [], [], [], s, [], [], [], None, room)
  }

  /** A run under any schedule; moves that are not enabled do nothing. */
  function Run(eng: Engine, body: Body, s: Srv, room: Capacity, moves: seq<Move>): Sys {
    if moves == [] then Start(s, room)
    else
      var z := Run(eng, body, s, room, moves[..|moves|-1]);
      var next := Apply(eng, body, z, moves[|moves|-1]);
      if next.Some? then next.value else z
  }

  /* ---- The simulation ---- */

  function Absorb(s: Srv, fs: seq<Frame>): Srv
    decreases |fs|
  {
    if fs == [] then s else Absorb(AddLine(s, fs[0].payload), fs[1..])
  }

  predicate Notes(fs: seq<Frame>) { forall f <- fs :: f.op == NOTE }

  predicate Quiet(z: Sys) { z.pout == [] && z.resp == [] && z.cbuf == [] }

  /** The frames on their way are fs, and the parent holds part of the first. */
  predicate InFlight(z: Sys, fs: seq<Frame>) {
    z.pbuf + z.req + z.out == EncodeAll(fs) && z.pbuf <= if fs == [] then [] else Encode(fs[0])
  }

  predicate RunningRel(z: Sys, i: In, fs: seq<Frame>)
    requires z.child.Running?
  {
    z.done.None? && Quiet(z) && Notes(fs) && i == Live(z.child.tc, Absorb(z.srv, fs))
  }

  predicate AskedRel(body: Body, z: Sys, i: In, fs: seq<Frame>)
    requires z.child.Waiting?
  {
    var a := body(z.child.tc.hist);
    z.done.None? && a.DoCall? && Quiet(z) && fs != [] && Notes(fs[..|fs|-1]) &&
    fs[|fs|-1] == Frame(a.op, a.payload) && i == Live(z.child.tc, Absorb(z.srv, fs[..|fs|-1]))
  }

  predicate AnsweredRel(eng: Engine, body: Body, z: Sys, i: In, fs: seq<Frame>)
    requires z.child.Waiting?
  {
    var a := body(z.child.tc.hist);
    z.done.None? && a.DoCall? && fs == [] && i.Live? && i.tc == z.child.tc &&
    var r := Serve(eng, i.srv, a.op, a.payload);
    r.served.Answered? && z.srv == r.srv &&
    var e := Encode(Frame(StatusByte(r.served.status), r.served.resp));
    z.cbuf + z.resp + z.pout == e && z.cbuf <= e
  }

  predicate ExitedRel(z: Sys, i: In, fs: seq<Frame>) {
    Quiet(z) && i.Over? &&
    match z.done
    case Some(o) => fs == [] && o == i.outcome && z.srv == i.srv
    case None =>
      fs != [] && Notes(fs[..|fs|-1]) && 60 <= fs[|fs|-1].op <= 64 &&
      Absorb(z.srv, fs[..|fs|-1]) == i.srv &&
      ServeTerminal(i.srv, fs[|fs|-1].op, fs[|fs|-1].payload) == i.outcome
  }

  /** The piped run z is where the in-process run i is, give or take what is in flight. */
  predicate Related(eng: Engine, body: Body, z: Sys, i: In, fs: seq<Frame>) {
    && InFlight(z, fs) && z.capture == z.srv.capture
    && (i.Live? ==> !i.tc.stopSeen && !i.srv.stopSeen)
    && match z.child
       case Running(_) => RunningRel(z, i, fs)
       case Waiting(_) => AskedRel(body, z, i, fs) || AnsweredRel(eng, body, z, i, fs)
       case Exited => ExitedRel(z, i, fs)
  }

  /* ---- Facts about the server ---- */

  /** Answered; and the server saw a stop only if the answer says so. */
  predicate Fine(s: Srv, r: Reply) {
    r.served.Answered? && r.srv.capture == s.capture && r.srv.isoSite == s.isoSite &&
    (r.srv.stopSeen ==> s.stopSeen || r.served.status.RespStop?)
  }

  lemma FinePieces(eng: Engine, s: Srv)
    ensures forall r, bad :: Fine(s, r) ==> Fine(s, Checked(r, bad))
    ensures forall op, args :: Fine(s, DoPlain(eng, s, op, args))
    ensures forall kind, args :: Fine(s, DoCreate(eng, s, kind, args))
    ensures forall g: GenReply {:trigger DoString(eng, g)} ::
      g.srv.capture == s.capture && g.srv.isoSite == s.isoSite && (g.srv.stopSeen ==> s.stopSeen || g.rc == E_STOP_TEST) ==> Fine(s, DoString(eng, g))
  {
  }

  lemma CheckedFine(s: Srv, r: Reply, bad: bool)
    requires Fine(s, r)
    ensures Fine(s, Checked(r, bad))
  {
  }

  lemma UseFine(eng: Engine, s: Srv, kind: HKind, obj: Obj, op: nat, args: seq<byte>)
    ensures Fine(s, DoUse(eng, s, kind, obj, op, args))
  {
  }

  lemma RefusalFine(s: Srv, served: Served)
    requires served.Answered?
    ensures Fine(s, Reply(s, served))
  {
  }

  lemma FreeFine(s: Srv, id: int)
    requires 0 <= id < |s.handles| && s.handles[id].kind != HFree
    ensures Fine(s, Reply(DoFree(s, id), Answered(RespOk, [])))
  {
  }

  lemma HandleFine(eng: Engine, s: Srv, op: nat, r: Rd)
    requires HandleKind(op) != HFree
    ensures Fine(s, ServeHandle(eng, s, op, r))
  {
    assert forall kind :: StaleHandle(kind).Answered?;
    hide Checked, DoUse, DoFree, StaleHandle, Get, Signed64, Fine;
    forall r, bad | Fine(s, r) ensures Fine(s, Checked(r, bad)) { CheckedFine(s, r, bad); }
    forall kind, obj, args ensures Fine(s, DoUse(eng, s, kind, obj, op, args)) { UseFine(eng, s, kind, obj, op, args); }
    forall served: Served | served.Answered? ensures Fine(s, Reply(s, served)) { RefusalFine(s, served); }
    forall id | 0 <= id < |s.handles| && s.handles[id].kind != HFree
      ensures Fine(s, Reply(DoFree(s, id), Answered(RespOk, [])))
    {
      FreeFine(s, id);
    }
  }

  lemma DrawFine(eng: Engine, s: Srv, op: nat, payload: Payload)
    requires IsDraw(op)
    ensures Fine(s, ServeDraw(eng, s, op, payload))
  {
    if op == DRAW_TEXT || op == DRAW_REGEX { StringFine(eng, s, op, payload); } else { PlainFine(eng, s, op, payload); }
  }

  lemma StringFine(eng: Engine, s: Srv, op: nat, payload: Payload)
    requires op == DRAW_TEXT || op == DRAW_REGEX
    ensures Fine(s, ServeDraw(eng, s, op, payload))
  {
    var (a, r1) := Get(Rd(payload, false), 8);
    var (b, r2) := Get(r1, 8);
    FinePieces(eng, s);
    TextGenCarries(eng, s, FromLE(a), FromLE(b));
    RegexGenCarries(eng, s, payload);
    hide DoPlain, DoString, Checked, TextGenFor, RegexGenFor, Signed64, FromLE;
  }

  lemma PlainFine(eng: Engine, s: Srv, op: nat, payload: Payload)
    requires IsDraw(op) && op != DRAW_TEXT && op != DRAW_REGEX
    ensures Fine(s, ServeDraw(eng, s, op, payload))
  {
    FinePieces(eng, s);
    hide DoPlain, DoString, Checked, TextGenFor, RegexGenFor, Signed64, FromLE, Get;
  }

  lemma CreateFine(eng: Engine, s: Srv, op: nat, payload: Payload)
    requires IsCreate(op)
    ensures Fine(s, ServeCreate(eng, s, op, payload))
  {
    FinePieces(eng, s);
    hide DoCreate, Checked, GetNames;
  }

  lemma RequestsAreAnswered(eng: Engine, s: Srv, op: nat, payload: Payload)
    requires IsRequest(op)
    ensures Fine(s, Serve(eng, s, op, payload))
  {
    hide ServeDraw, ServeCreate, ServeHandle, ServeTerminal;
    if IsDraw(op) { DrawFine(eng, s, op, payload); }
    else if IsCreate(op) { CreateFine(eng, s, op, payload); }
    else if HandleKind(op) != HFree { HandleFine(eng, s, op, Rd(payload, false)); }
  }

  lemma TextGenCarries(eng: Engine, s: Srv, min: nat, max: nat)
    ensures var g := TextGenFor(eng, s, min, max);
      g.srv.capture == s.capture && g.srv.isoSite == s.isoSite && (g.srv.stopSeen ==> s.stopSeen || g.rc == E_STOP_TEST)
  {
  }

  lemma RegexGenCarries(eng: Engine, s: Srv, pat: seq<byte>)
    ensures var g := RegexGenFor(eng, s, pat);
      g.srv.capture == s.capture && g.srv.isoSite == s.isoSite && (g.srv.stopSeen ==> s.stopSeen || g.rc == E_STOP_TEST)
  {
  }

  lemma TerminalsEnd(eng: Engine, s: Srv, op: nat, payload: Payload)
    requires 60 <= op <= 64
    ensures Serve(eng, s, op, payload) == Reply(s, Ended(ServeTerminal(s, op, payload)))
  {
    hide ServeTerminal, ServeDraw, ServeCreate, ServeHandle;
  }

  lemma NotesAreSilent(eng: Engine, s: Srv, payload: Payload)
    ensures Serve(eng, s, NOTE, payload) == Reply(AddLine(s, payload), Silent)
  {
    hide ServeTerminal, ServeDraw, ServeCreate, ServeHandle;
  }

  /** The parent reads out of the terminal frame what the in-process run reads out of the
      runtime's buffers. */
  lemma SameOutcome(tc: Tc, e: Exit, s: Srv)
    requires ExitOk(e) && (e.ExitReturn? ==> !tc.stopSeen && !s.stopSeen)
    ensures var f := TerminalFrame(tc, e);
      60 <= f.op <= 64 && ServeTerminal(s, f.op, f.payload) == ExitOutcome(tc, e)
  {
    if e.ExitFail? {
      var p := LE(|e.origin|, 4) + e.origin + e.msg;
      Pow256Four();
      LERoundTrip(|e.origin|, 4);
      assert p[..4] == LE(|e.origin|, 4);
      var rest := p[4..];
      assert rest == e.origin + e.msg;
      assert rest[..|e.origin|] == e.origin && rest[|e.origin|..] == e.msg;
    }
  }

  lemma ActionFits(tc: Tc, a: Action)
    requires !a.DoCall? && !a.DoNote?
    ensures ExitFits(OnAction(tc, a))
    ensures OnAction(tc, a).Go? ==> OnAction(tc, a).tc.stopSeen == tc.stopSeen
    ensures OnAction(tc, a).Leave? ==> OnAction(tc, a).tc == tc
  {
  }

  lemma ResponseFits(tc: Tc, st: RespStatus, bytes: Payload)
    ensures ExitFits(OnResponse(tc, st, bytes))
    ensures OnResponse(tc, st, bytes).Go? ==> !st.RespStop? && OnResponse(tc, st, bytes).tc.stopSeen == tc.stopSeen
    ensures OnResponse(tc, st, bytes).Leave? ==> !OnResponse(tc, st, bytes).exit.ExitFail? && !OnResponse(tc, st, bytes).exit.ExitReturn?
  {
  }

  lemma {:induction false} AbsorbPush(s: Srv, fs: seq<Frame>, f: Frame)
    ensures Absorb(s, fs + [f]) == AddLine(Absorb(s, fs), f.payload)
    decreases |fs|
  {
    if fs == [] {
      assert [f][1..] == [];
      assert Absorb(s, [f]) == Absorb(AddLine(s, f.payload), []);
    } else {
      AbsorbPush(AddLine(s, fs[0].payload), fs[1..], f);
      assert (fs + [f])[1..] == fs[1..] + [f];
    }
  }

  lemma {:induction false} AbsorbKeeps(s: Srv, fs: seq<Frame>)
    ensures Absorb(s, fs).capture == s.capture && Absorb(s, fs).stopSeen == s.stopSeen
    ensures Absorb(s, fs).isoSite == s.isoSite
    decreases |fs|
  {
    if fs != [] { AbsorbKeeps(AddLine(s, fs[0].payload), fs[1..]); }
  }

  /* ---- One move ---- */

  lemma FlightPush(z: Sys, fs: seq<Frame>, add: seq<Frame>, z': Sys)
    requires InFlight(z, fs) && z.out == [] && z'.pbuf == z.pbuf && z'.req == z.req && z'.out == EncodeAll(add)
    ensures InFlight(z', fs + add)
  {
    EncodeAllConcat(fs, add);
    assert fs == [] ==> EncodeAll(fs) == [];
    hide Encode, EncodeAll;
    assert z.pbuf + z.req + z.out == z.pbuf + z.req;
    assert z'.pbuf + z'.req + z'.out == EncodeAll(fs + add);
    if fs == [] {
      assert z.pbuf == [];
    } else {
      assert (fs + add)[0] == fs[0];
    }
  }

  lemma CancelPrefix(a: seq<byte>, b: seq<byte>, c: seq<byte>)
    requires a + b == a + c
    ensures b == c
  {
    assert (a + b)[|a|..] == b && (a + c)[|a|..] == c;
  }

  lemma {:induction false} EncodeAllConcat(fs: seq<Frame>, gs: seq<Frame>)
    ensures EncodeAll(fs + gs) == EncodeAll(fs) + EncodeAll(gs)
  {
    hide Encode;
    if fs == [] {
      assert fs + gs == gs;
    } else {
      EncodeAllConcat(fs[1..], gs);
      assert (fs + gs)[1..] == fs[1..] + gs && (fs + gs)[0] == fs[0];
      Regroup(Encode(fs[0]), EncodeAll(fs[1..]), EncodeAll(gs));
    }
  }

  lemma Regroup(a: seq<byte>, b: seq<byte>, c: seq<byte>)
    ensures a + (b + c) == a + b + c
  {
  }

  lemma EncodeAllOne(f: Frame)
    ensures EncodeAll([f]) == Encode(f)
  {
    assert [f][1..] == [];
  }

  lemma ChildLeaves(z: Sys, i: In, fs: seq<Frame>, tc: Tc, e: Exit, z': Sys, i': In) returns (fs': seq<Frame>)
    requires InFlight(z, fs) && z.out == [] && z.capture == z.srv.capture && Notes(fs) && Quiet(z) && z.done.None?
    requires ExitOk(e) && (e.ExitReturn? ==> !tc.stopSeen) && !z.srv.stopSeen
    requires z' == ChildAfter(z, Leave(tc, e)) && i' == InAfter(Leave(tc, e), Absorb(z.srv, fs))
    ensures InFlight(z', fs') && ExitedRel(z', i', fs')
  {
    var note := if e.ExitFail? && z.capture then [Frame(NOTE, FailLine(e.msg))] else [];
    var t := TerminalFrame(tc, e);
    var add := note + [t];
    fs' := fs + add;
    FlightPush(z, fs, add, z');
    AbsorbKeeps(z.srv, fs);
    var notes := fs + note;
    assert fs' == notes + [t] && fs'[..|fs'|-1] == notes;
    if note == [] {
      assert notes == fs;
    } else {
      AbsorbPush(z.srv, fs, note[0]);
    }
    AbsorbKeeps(z.srv, notes);
    assert i'.srv == Absorb(z.srv, notes);
    SameOutcome(tc, e, i'.srv);
  }

  lemma ActCall(eng: Engine, body: Body, z: Sys, i: In, fs: seq<Frame>, z': Sys) returns (fs': seq<Frame>)
    requires Related(eng, body, z, i, fs) && Apply(eng, body, z, Act) == Some(z') && body(z.child.tc.hist).DoCall?
    ensures Related(eng, body, z', i, fs') && z'.child.Waiting?
  {
    hide Serve, Encode, OnAction;
    var a := body(z.child.tc.hist);
    var f := Frame(a.op, a.payload);
    EncodeAllOne(f);
    FlightPush(z, fs, [f], z');
    fs' := fs + [f];
    assert fs'[..|fs'|-1] == fs;
  }

  lemma ActNote(eng: Engine, body: Body, z: Sys, i: In, fs: seq<Frame>, z': Sys) returns (fs': seq<Frame>)
    requires Related(eng, body, z, i, fs) && Apply(eng, body, z, Act) == Some(z') && body(z.child.tc.hist).DoNote?
    ensures Related(eng, body, z', InStep(eng, body, i), fs') && z'.child.Running?
  {
    hide Serve, Encode, OnAction;
    AbsorbKeeps(z.srv, fs);
    fs' := fs;
    if z.capture {
      var f := Frame(NOTE, body(z.child.tc.hist).line);
      EncodeAllOne(f);
      FlightPush(z, fs, [f], z');
      AbsorbPush(z.srv, fs, f);
      fs' := fs + [f];
    }
  }

  lemma ActStep(eng: Engine, body: Body, z: Sys, i: In, fs: seq<Frame>, z': Sys) returns (adv: bool, fs': seq<Frame>)
    requires GoodBody(body) && Related(eng, body, z, i, fs) && Apply(eng, body, z, Act) == Some(z')
    ensures Related(eng, body, z', if adv then InStep(eng, body, i) else i, fs')
    ensures adv == !z'.child.Waiting?
  {
    hide Serve, Encode, OnAction;
    var tc := z.child.tc;
    var a := body(tc.hist);
    adv := !a.DoCall?;
    if a.DoCall? {
      fs' := ActCall(eng, body, z, i, fs, z');
    } else if a.DoNote? {
      fs' := ActNote(eng, body, z, i, fs, z');
    } else {
      AbsorbKeeps(z.srv, fs);
      ActionFits(tc, a);
      match OnAction(tc, a) {
        case Go(tc') => fs' := fs;
        case Leave(tc', e) => fs' := ChildLeaves(z, i, fs, tc', e, z', InStep(eng, body, i));
      }
    }
  }

  lemma FlightPop(z: Sys, fs: seq<Frame>, z': Sys)
    requires InFlight(z, fs) && fs != [] && z.pbuf == Encode(fs[0])
    requires z'.pbuf == [] && z'.req == z.req && z'.out == z.out
    ensures InFlight(z', fs[1..])
  {
    hide Encode, EncodeAll;
    EncodeAllHead(fs);
    Pop(z.pbuf, z.req, z.out, EncodeAll(fs[1..]));
  }

  lemma Pop(a: seq<byte>, b: seq<byte>, c: seq<byte>, d: seq<byte>)
    requires a + b + c == a + d
    ensures [] + b + c == d
  {
    assert a + b + c == a + (b + c);
    CancelPrefix(a, b + c, d);
    assert [] + b + c == b + c;
  }

  lemma DispatchMove(eng: Engine, body: Body, z: Sys, i: In, fs: seq<Frame>, z': Sys) returns (fs': seq<Frame>)
    requires GoodBody(body) && Related(eng, body, z, i, fs) && Apply(eng, body, z, Dispatch) == Some(z')
    ensures Related(eng, body, z', i, fs')
  {
    hide Serve, Encode, EncodeAll, ServeTerminal;
    assert fs != [];
    NeedPrefix(fs[0], z.pbuf);
    DecodeEncode(fs[0]);
    assert z.pbuf == Encode(fs[0]);
    fs' := fs[1..];
    FlightPop(z, fs, z');
    if |fs| > 1 || z.child.Running? {
      NoteArrives(eng, body, z, i, fs, z');
    } else {
      assert fs == [fs[0]];
      LastArrives(eng, body, z, i, fs[0], z');
    }
  }

  lemma NoteArrives(eng: Engine, body: Body, z: Sys, i: In, fs: seq<Frame>, z': Sys)
    requires Related(eng, body, z, i, fs) && Apply(eng, body, z, Dispatch) == Some(z')
    requires fs != [] && (|fs| > 1 || z.child.Running?) && Decode(z.pbuf) == Some(fs[0]) && InFlight(z', fs[1..])
    ensures Related(eng, body, z', i, fs[1..])
  {
    hide Serve, Encode, EncodeAll, ServeTerminal, InFlight, Decode;
    var fs' := fs[1..];
    assert fs[0].op == NOTE by { if !z.child.Running? { assert fs[0] == fs[..|fs|-1][0]; } }
    NotesAreSilent(eng, z.srv, fs[0].payload);
    if !z.child.Running? {
      assert fs'[..|fs'|-1] == fs[..|fs|-1][1..];
      assert fs'[|fs'|-1] == fs[|fs|-1];
      assert Absorb(z.srv, fs[..|fs|-1]) == Absorb(z'.srv, fs'[..|fs'|-1]);
    }
  }

  lemma LastArrives(eng: Engine, body: Body, z: Sys, i: In, f: Frame, z': Sys)
    requires GoodBody(body) && Related(eng, body, z, i, [f]) && Apply(eng, body, z, Dispatch) == Some(z')
    requires !z.child.Running? && Decode(z.pbuf) == Some(f) && InFlight(z', [])
    ensures Related(eng, body, z', i, [])
  {
    hide Serve, Encode, EncodeAll, ServeTerminal, InFlight, Decode;
    assert [f][..0] == [];
    if z.child.Waiting? {
      RequestsAreAnswered(eng, z.srv, f.op, f.payload);
    } else {
      TerminalsEnd(eng, z.srv, f.op, f.payload);
    }
  }

  /** The response the child has read is the one the server gave. */
  lemma AnswerRead(eng: Engine, body: Body, z: Sys, i: In, fs: seq<Frame>, z': Sys) returns (r: Reply)
    requires GoodBody(body) && Related(eng, body, z, i, fs) && Apply(eng, body, z, Receive) == Some(z')
    ensures r.served.Answered? && Fine(i.srv, r) && z.srv == r.srv && fs == [] && z.done.None? &&
        z.capture == z.srv.capture
    ensures i.Live? && i.tc == z.child.tc && z.out == z.pout == z.resp == [] && !i.tc.stopSeen && !i.srv.stopSeen
    ensures InFlight(z.(cbuf := []), [])
    ensures var n := OnResponse(i.tc, r.served.status, r.served.resp);
      ExitFits(n) && z' == ChildAfter(z.(cbuf := []), n) && InStep(eng, body, i) == InAfter(n, r.srv)
  {
    hide Serve, Encode, EncodeAll, OnResponse, ChildAfter, InAfter, Need;
    assert AnsweredRel(eng, body, z, i, fs);
    var a := body(z.child.tc.hist);
    r := Serve(eng, i.srv, a.op, a.payload);
    var f := Frame(StatusByte(r.served.status), r.served.resp);
    NeedPrefix(f, z.cbuf);
    DecodeEncode(f);
    assert z.cbuf == Encode(f) && z.resp == [] && z.pout == [];
    assert ByteStatus(StatusByte(r.served.status)) == r.served.status;
    RequestsAreAnswered(eng, i.srv, a.op, a.payload);
    ResponseFits(i.tc, r.served.status, r.served.resp);
  }

  lemma ReceiveMove(eng: Engine, body: Body, z: Sys, i: In, fs: seq<Frame>, z': Sys) returns (fs': seq<Frame>)
    requires GoodBody(body) && Related(eng, body, z, i, fs) && Apply(eng, body, z, Receive) == Some(z')
    ensures Related(eng, body, z', InStep(eng, body, i), fs')
  {
    var r := AnswerRead(eng, body, z, i, fs, z');
    ResponseFits(i.tc, r.served.status, r.served.resp);
    hide Serve, Encode, EncodeAll, OnResponse, Apply, InStep, InFlight;
    match OnResponse(i.tc, r.served.status, r.served.resp) {
      case Go(tc') =>
        fs' := [];
        FlightSame(z.(cbuf := []), [], z');
      case Leave(tc', e) =>
        fs' := StopLeaves(z.(cbuf := []), tc', e, z', InStep(eng, body, i));
    }
  }

  /** Leaving on a response: no note, and STOPPED even when the server saw the stop. */
  lemma StopLeaves(z: Sys, tc: Tc, e: Exit, z': Sys, i': In) returns (fs': seq<Frame>)
    requires InFlight(z, []) && z.out == [] && Quiet(z) && z.done.None?
    requires ExitOk(e) && !e.ExitFail? && !e.ExitReturn?
    requires z' == ChildAfter(z, Leave(tc, e)) && i' == InAfter(Leave(tc, e), z.srv)
    ensures InFlight(z', fs') && ExitedRel(z', i', fs')
  {
    var t := TerminalFrame(tc, e);
    fs' := [t];
    assert [] + [t] == [t];
    FlightPush(z, [], [t], z');
  }

  lemma RequestBytes(z: Sys, fs: seq<Frame>, k: nat, z': Sys)
    requires InFlight(z, fs) && 1 <= k <= |z.out|
    requires z' == z.(out := z.out[k..], req := z.req + z.out[..k])
    ensures InFlight(z', fs)
  {
    hide Encode, EncodeAll;
    assert z.out == z.out[..k] + z.out[k..];
    assert z.pbuf + z.req + z.out == z'.pbuf + z'.req + z'.out;
  }

  lemma ParentBytes(z: Sys, fs: seq<Frame>, k: nat, z': Sys)
    requires InFlight(z, fs) && 1 <= k <= |z.req| && k <= Need(z.pbuf)
    requires z' == z.(req := z.req[k..], pbuf := z.pbuf + z.req[..k])
    ensures InFlight(z', fs)
  {
    hide Encode, EncodeAll, Need;
    assert fs != [] by { NothingIsEmpty(z, fs); }
    NeedPrefix(fs[0], z.pbuf);
    EncodeAllHead(fs);
    assert z.req == z.req[..k] + z.req[k..];
    assert z.pbuf + z.req + z.out == z'.pbuf + (z'.req + z'.out);
    PrefixOfFirst(z'.pbuf, z'.req + z'.out, Encode(fs[0]), EncodeAll(fs[1..]));
    assert z'.pbuf + z'.req + z'.out == z'.pbuf + (z'.req + z'.out);
  }

  lemma NothingIsEmpty(z: Sys, fs: seq<Frame>)
    requires InFlight(z, fs) && z.req != []
    ensures fs != []
  {
    assert |z.pbuf + z.req + z.out| > 0;
  }

  lemma EncodeAllHead(fs: seq<Frame>)
    requires fs != []
    ensures EncodeAll(fs) == Encode(fs[0]) + EncodeAll(fs[1..])
  {
    hide Encode;
  }

  lemma PrefixOfFirst(a: seq<byte>, b: seq<byte>, c: seq<byte>, d: seq<byte>)
    requires a + b == c + d && |a| <= |c|
    ensures a <= c
  {
    assert a == (a + b)[..|a|] == (c + d)[..|a|] == c[..|a|];
  }

  lemma ResponseBytes(e: seq<byte>, z: Sys, k: nat, z': Sys)
    requires z.cbuf + z.resp + z.pout == e && z.cbuf <= e
    requires (1 <= k <= |z.pout| && z' == z.(pout := z.pout[k..], resp := z.resp + z.pout[..k])) ||
             (1 <= k <= |z.resp| && z' == z.(resp := z.resp[k..], cbuf := z.cbuf + z.resp[..k]))
    ensures z'.cbuf + z'.resp + z'.pout == e && z'.cbuf <= e
  {
    if z'.cbuf == z.cbuf {
      assert z.pout == z.pout[..k] + z.pout[k..];
      assert z.cbuf + z.resp + z.pout == z'.cbuf + z'.resp + z'.pout;
    } else {
      assert z.resp == z.resp[..k] + z.resp[k..];
      assert z.cbuf + z.resp + z.pout == z'.cbuf + z'.resp + z'.pout;
    }
  }

  lemma ByteMove(eng: Engine, body: Body, z: Sys, i: In, fs: seq<Frame>, m: Move, z': Sys)
    requires m.ChildWrite? || m.ParentRead? || m.ParentWrite? || m.ChildRead?
    requires Related(eng, body, z, i, fs) && Apply(eng, body, z, m) == Some(z')
    ensures Related(eng, body, z', i, fs)
  {
    hide Serve, Encode, EncodeAll, Need, InFlight;
    match m {
      case ChildWrite(k) => RequestBytes(z, fs, k, z');
      case ParentRead(k) => ParentBytes(z, fs, k, z');
      case ParentWrite(k) =>
        FlightSame(z, fs, z');
        AnswerBytes(eng, body, z, i, fs, k, z');
      case ChildRead(k) =>
        FlightSame(z, fs, z');
        AnswerBytes(eng, body, z, i, fs, k, z');
    }
  }

  lemma FlightSame(z: Sys, fs: seq<Frame>, z': Sys)
    requires InFlight(z, fs) && z'.pbuf == z.pbuf && z'.req == z.req && z'.out == z.out
    ensures InFlight(z', fs)
  {
  }

  lemma AnswerBytes(eng: Engine, body: Body, z: Sys, i: In, fs: seq<Frame>, k: nat, z': Sys)
    requires z.child.Waiting? && AnsweredRel(eng, body, z, i, fs)
    requires (1 <= k <= |z.pout| && z' == z.(pout := z.pout[k..], resp := z.resp + z.pout[..k])) ||
             (1 <= k <= |z.resp| && z' == z.(resp := z.resp[k..], cbuf := z.cbuf + z.resp[..k]))
    ensures AnsweredRel(eng, body, z', i, fs)
  {
    hide Serve, Encode;
    var a := body(z.child.tc.hist);
    var r := Serve(eng, i.srv, a.op, a.payload);
    ResponseBytes(Encode(Frame(StatusByte(r.served.status), r.served.resp)), z, k, z');
  }

  /** One enabled move keeps the two runs related; `adv` tells whether the in-process run moved too. */
  lemma Step(eng: Engine, body: Body, z: Sys, i: In, fs: seq<Frame>, m: Move, z': Sys) returns (adv: bool, fs': seq<Frame>)
    requires GoodBody(body) && Related(eng, body, z, i, fs) && Apply(eng, body, z, m) == Some(z')
    ensures Related(eng, body, z', if adv then InStep(eng, body, i) else i, fs')
    ensures adv == (m.Receive? || (m.Act? && !z'.child.Waiting?))
  {
    hide Apply, InStep, Related;
    match m {
      case Act => adv, fs' := ActStep(eng, body, z, i, fs, z');
      case Dispatch =>
        adv := false;
        fs' := DispatchMove(eng, body, z, i, fs, z');
      case Receive =>
        adv := true;
        fs' := ReceiveMove(eng, body, z, i, fs, z');
      case _ =>
        adv, fs' := false, fs;
        ByteMove(eng, body, z, i, fs, m, z');
    }
  }

  /** Every schedule keeps the two runs related. */
  lemma {:induction false} Simulates(eng: Engine, body: Body, s: Srv, room: Capacity, moves: seq<Move>)
    returns (n: nat, fs: seq<Frame>)
    requires GoodBody(body) && !s.stopSeen
    ensures Related(eng, body, Run(eng, body, s, room, moves), InRun(eng, body, s, n), fs)
  {
    hide Apply, InStep, Related;
    if moves == [] {
      n, fs := 0, [];
      StartRelated(eng, body, s, room);
      return;
    }
    var m := moves[|moves|-1];
    var before := moves[..|moves|-1];
    n, fs := Simulates(eng, body, s, room, before);
    var z := Run(eng, body, s, room, before);
    var next := Apply(eng, body, z, m);
    if next.Some? {
      var adv;
      adv, fs := Step(eng, body, z, InRun(eng, body, s, n), fs, m, next.value);
      if adv { n := n + 1; }
    }
  }

  lemma StartRelated(eng: Engine, body: Body, s: Srv, room: Capacity)
    requires !s.stopSeen
    ensures Related(eng, body, Start(s, room), InRun(eng, body, s, 0), [])
  {
  }

  lemma {:induction false} InStays(eng: Engine, body: Body, s: Srv, n: nat, m: nat)
    requires n <= m && InRun(eng, body, s, n).Over?
    ensures InRun(eng, body, s, m) == InRun(eng, body, s, n)
  {
    if n < m { InStays(eng, body, s, n, m - 1); }
  }

  /**
    Transport refinement.  For every body that does not crash, every engine and every
    schedule of the piped run: when the parent has a verdict, the in-process run ends too,
    with the same status, health flag, origin and message, after the same engine calls in the
    same order (srv.log), with the same captured lines (srv.lines) and the same handles.
   */
  lemma TransportsAgree(eng: Engine, body: Body, s: Srv, room: Capacity, moves: seq<Move>)
    requires GoodBody(body) && !s.stopSeen
    ensures var z := Run(eng, body, s, room, moves);
      z.done.Some? ==> exists n: nat :: InRun(eng, body, s, n) == Over(z.done.value, z.srv)
  {
    hide InRun, Run, Serve, Apply;
    var n, _ := Simulates(eng, body, s, room, moves);
    var z := Run(eng, body, s, room, moves);
    if z.done.Some? { assert InRun(eng, body, s, n) == Over(z.done.value, z.srv); }
  }

  /** ... so no two schedules, and no schedule and the in-process run, can disagree. */
  lemma OneVerdict(eng: Engine, body: Body, s: Srv, room: Capacity, moves: seq<Move>, n: nat)
    requires GoodBody(body) && !s.stopSeen
    requires Run(eng, body, s, room, moves).done.Some? && InRun(eng, body, s, n).Over?
    ensures var z := Run(eng, body, s, room, moves);
      InRun(eng, body, s, n) == Over(z.done.value, z.srv)
  {
    TransportsAgree(eng, body, s, room, moves);
    var z := Run(eng, body, s, room, moves);
    var m: nat :| InRun(eng, body, s, m) == Over(z.done.value, z.srv);
    if n <= m { InStays(eng, body, s, n, m); } else { InStays(eng, body, s, m, n); }
  }

  /* ---- What a run means, written out without the runtime ---- */

  function RulesAfter(before: nat, e: Seen): nat {
    match e
    case RuleEntered => before + 1
    case RuleLeft | RuleAssumed => if before > 0 then before - 1 else 0
    case _ => before
  }

  /** The rule-level escapes in force after this much of the body. */
  function InForce(h: seq<Seen>): nat {
    if h == [] then 0 else RulesAfter(InForce(h[..|h|-1]), h[|h|-1])
  }

  function Captured(s: Srv, line: Payload): Srv {
    s.(lines := if s.capture then s.lines + line + [10] else s.lines)
  }

  /** The body goes on, having seen e: the value of its draw, as the server answered it. */
  predicate Sees(eng: Engine, a: Action, rules: nat, s: Srv, e: Seen, s': Srv) {
    match a
    case DoCall(op, payload) =>
      var r := Serve(eng, s, op, payload);
      s' == r.srv && r.served.Answered? && (
        (r.served.status == RespOk && e == Response(false, r.served.resp)) ||
        (r.served.status == RespRetry && e == Response(true, r.served.resp)) ||
        (r.served.status == RespAssume && rules > 0 && e == RuleAssumed))
    case DoNote(line) => e == NoteDone && s' == Captured(s, line)
    case DoAssume => rules > 0 && e == RuleAssumed && s' == s
    case EnterRule => e == RuleEntered && s' == s
    case LeaveRule => e == RuleLeft && s' == s
    case _ => false
  }

  /** The case is over, with this verdict. */
  predicate Decides(eng: Engine, a: Action, rules: nat, s: Srv, o: Outcome, s': Srv) {
    match a
    case DoCall(op, payload) =>
      var r := Serve(eng, s, op, payload);
      s' == r.srv && r.served.Answered? && (
        (r.served.status == RespStop && o == Outcome(Overrun, false, [], [])) ||
        (r.served.status == RespError && o == Outcome(Invalid, true, [], CStr(r.served.resp, 1024))) ||
        (r.served.status == RespAssume && rules == 0 && o == Outcome(Invalid, false, [], [])))
    case DoAssume => rules == 0 && o == Outcome(Invalid, false, [], []) && s' == s
    case DoFail(origin, msg) =>
      o == Outcome(Interesting, false, CStr(origin, 512), CStr(msg, 1024)) &&
      s' == Captured(s, Ascii("Property test failed: ") + CStr(msg, 1024))
    case DoHealth(msg) => o == Outcome(Invalid, true, [], CStr(msg, 1024)) && s' == s
    case Return => o == Outcome(Valid, false, [], []) && s' == s
    case _ => false
  }

  /** A live case that saw no stop goes on or is decided, in exactly this way. */
  lemma StepMeans(eng: Engine, a: Action, tc: Tc, s: Srv)
    requires (a.DoCall? ==> IsRequest(a.op)) && !tc.stopSeen && !s.stopSeen
    ensures match InAct(eng, a, tc, s)
      case Live(tc', s') =>
        && |tc'.hist| == |tc.hist| + 1 && tc'.hist[..|tc.hist|] == tc.hist
        && Sees(eng, a, tc.rules, s, tc'.hist[|tc.hist|], s') && !tc'.stopSeen && !s'.stopSeen
        && tc'.rules == RulesAfter(tc.rules, tc'.hist[|tc.hist|])
      case Over(o, s') => Decides(eng, a, tc.rules, s, o, s')
  {
    hide Serve, CStr, Ascii;
    if a.DoCall? { RequestsAreAnswered(eng, s, a.op, a.payload); }
  }

  /** Step k of the run saw e, and left this server. */
  ghost predicate SawAt(eng: Engine, body: Body, s: Srv, k: nat, h: seq<Seen>)
    requires k < |h|
  {
    var i, i' := InRun(eng, body, s, k), InRun(eng, body, s, k + 1);
    && i.Live? && i.tc.hist == h[..k] && i'.Live?
    && Sees(eng, body(h[..k]), InForce(h[..k]), i.srv, h[k], i'.srv)
  }

  /**
    What a test body sees and how its case ends, from the engine's answers alone.  A case still
    live after n steps has seen n things, each what its own action at that point asked for; one
    that is over was decided by the action of its last live step.
   */
  lemma {:induction false} RunMeans(eng: Engine, body: Body, s: Srv, n: nat)
    requires GoodBody(body) && !s.stopSeen
    ensures var i := InRun(eng, body, s, n); i.Live? ==>
      && |i.tc.hist| == n && i.tc.rules == InForce(i.tc.hist) && !i.tc.stopSeen && !i.srv.stopSeen
      && forall k :: 0 <= k < n ==> SawAt(eng, body, s, k, i.tc.hist)
    ensures var i := InRun(eng, body, s, n); i.Over? ==>
      exists k: nat :: k < n && DecidedAt(eng, body, s, k, i.outcome, i.srv)
  {
    hide InAct, Sees, Decides;
    if n > 0 {
      RunMeans(eng, body, s, n - 1);
      var i := InRun(eng, body, s, n - 1);
      if i.Live? {
        StepMeans(eng, body(i.tc.hist), i.tc, i.srv);
        var i' := InRun(eng, body, s, n);
        if i'.Live? {
          assert i'.tc.hist[..n - 1] == i.tc.hist;
          forall k | 0 <= k < n ensures SawAt(eng, body, s, k, i'.tc.hist) {
            assert i'.tc.hist[..k] == i.tc.hist[..k];
            assert k < n - 1 ==> SawAt(eng, body, s, k, i.tc.hist);
          }
        } else {
          assert DecidedAt(eng, body, s, n - 1, i'.outcome, i'.srv);
        }
      }
    }
  }

  ghost predicate DecidedAt(eng: Engine, body: Body, s: Srv, k: nat, o: Outcome, s': Srv) {
    var i := InRun(eng, body, s, k);
    i.Live? && Decides(eng, body(i.tc.hist), InForce(i.tc.hist), i.srv, o, s')
  }

  /**
    ... and so over the pipes: whatever the schedule, the parent's verdict is the one the body's
    last action decides, after everything it saw before.
   */
  lemma PipedRunMeans(eng: Engine, body: Body, s: Srv, room: Capacity, moves: seq<Move>) returns (k: nat)
    requires GoodBody(body) && !s.stopSeen && Run(eng, body, s, room, moves).done.Some?
    ensures var z := Run(eng, body, s, room, moves); DecidedAt(eng, body, s, k, z.done.value, z.srv)
    ensures var h := InRun(eng, body, s, k).tc.hist; |h| == k && forall j :: 0 <= j < k ==> SawAt(eng, body, s, j, h)
  {
    hide InRun, Run, SawAt, Decides;
    var z := Run(eng, body, s, room, moves);
    TransportsAgree(eng, body, s, room, moves);
    var n: nat :| InRun(eng, body, s, n) == Over(z.done.value, z.srv);
    RunMeans(eng, body, s, n);
    k :| k < n && DecidedAt(eng, body, s, k, z.done.value, z.srv);
    RunMeans(eng, body, s, k);
  }

  /* ---- Progress ---- */

  /** A move that is enabled while there is no verdict. */
  lemma NoDeadlock(eng: Engine, body: Body, z: Sys, i: In, fs: seq<Frame>) returns (m: Move)
    requires Related(eng, body, z, i, fs) && z.done.None?
    ensures Apply(eng, body, z, m).Some?
  {
    hide Serve, Encode, EncodeAll, Need;
    if z.out != [] {
      if |z.req| < z.room {
        m := ChildWrite(1);
      } else {
        assert z.pout == [] by { if z.pout != [] { AnswersFollowRequests(eng, body, z, i, fs); } }
        NothingIsEmpty(z, fs);
        m := ParentMoves(z, fs);
      }
    } else if z.child.Running? {
      m := Act;
    } else if z.child.Waiting? && AnsweredRel(eng, body, z, i, fs) {
      var a := body(z.child.tc.hist);
      var r := Serve(eng, i.srv, a.op, a.payload);
      var f := Frame(StatusByte(r.served.status), r.served.resp);
      NeedPrefix(f, z.cbuf);
      DecodeEncode(f);
      if z.pout != [] && |z.resp| < z.room {
        m := ParentWrite(1);
      } else if z.cbuf == Encode(f) {
        m := Receive;
      } else {
        assert z.cbuf + z.resp + z.pout == Encode(f);
        m := ChildRead(1);
      }
    } else {
      assert fs != [] && z.pout == [];
      m := ParentMoves(z, fs);
    }
  }

  lemma ParentMoves(z: Sys, fs: seq<Frame>) returns (m: Move)
    requires InFlight(z, fs) && fs != [] && (z.out == [] || z.req != [])
    ensures (m == Dispatch && Decode(z.pbuf).Some?) || (m == ParentRead(1) && 1 <= |z.req| && 1 <= Need(z.pbuf))
  {
    hide Encode, Need, Decode;
    NeedPrefix(fs[0], z.pbuf);
    DecodeEncode(fs[0]);
    EncodeAllHead(fs);
    if z.pbuf == Encode(fs[0]) {
      m := Dispatch;
    } else {
      assert |z.pbuf + z.req + z.out| >= |Encode(fs[0])| > |z.pbuf|;
      m := ParentRead(1);
    }
  }

  function Stage(z: Sys): nat {
    if z.child.Running? then 2
    else if z.child.Waiting? && |z.pbuf| + |z.req| + |z.out| > 0 then 1 else 0
  }

  function Flow(z: Sys): nat {
    3 * |z.out| + 2 * |z.req| + |z.pbuf| + 3 * |z.pout| + 2 * |z.resp| + |z.cbuf|
  }

  lemma AnswersFollowRequests(eng: Engine, body: Body, z: Sys, i: In, fs: seq<Frame>)
    requires Related(eng, body, z, i, fs) && z.pout != []
    ensures |z.pbuf| + |z.req| + |z.out| == 0
  {
    hide Serve, EncodeAll, Encode;
    EncodeAllNone();
    assert |z.pbuf + z.req + z.out| == 0;
  }

  /** A move the in-process run does not follow brings the pipes nearer to rest. */
  lemma FlowFalls(eng: Engine, body: Body, z: Sys, i: In, fs: seq<Frame>, m: Move, z': Sys, fs': seq<Frame>)
    requires Related(eng, body, z, i, fs) && Apply(eng, body, z, m) == Some(z') && Related(eng, body, z', i, fs')
    requires !m.Receive? && !(m.Act? && !z'.child.Waiting?)
    ensures Stage(z') < Stage(z) || (Stage(z') == Stage(z) && Flow(z') < Flow(z))
  {
    hide Serve, EncodeAll, Encode, Need, Related;
    if m.Dispatch? {
      assert z.pout == [] && |z.pbuf| >= 8;
      if z'.pout != [] {
        assert z'.child == z.child && (z.child.Running? || z.child.Waiting? || z.child.Exited?);
        AnswersFollowRequests(eng, body, z', i, fs');
        assert z'.child.Waiting? by { PoutMeansWaiting(eng, body, z', i, fs'); }
      }
    }
  }

  lemma PoutMeansWaiting(eng: Engine, body: Body, z: Sys, i: In, fs: seq<Frame>)
    requires Related(eng, body, z, i, fs) && z.pout != []
    ensures z.child.Waiting?
  {
    hide Serve, EncodeAll, Encode;
  }

  lemma EncodeAllNone()
    ensures EncodeAll([]) == []
  {
  }

  /** The first k moves of an endless schedule. */
  function Prefix(sched: nat -> Move, k: nat): (r: seq<Move>)
    ensures |r| == k
  {
    if k == 0 then [] else Prefix(sched, k - 1) + [sched(k - 1)]
  }

  /** A schedule that never idles while there is no verdict. */
  ghost predicate Busy(eng: Engine, body: Body, s: Srv, room: Capacity, sched: nat -> Move) {
    forall k: nat {:trigger Prefix(sched, k)} ::
      var z := Run(eng, body, s, room, Prefix(sched, k));
      z.done.Some? || Apply(eng, body, z, sched(k)).Some?
  }

  lemma OverMeansExited(eng: Engine, body: Body, z: Sys, i: In, fs: seq<Frame>)
    requires Related(eng, body, z, i, fs) && i.Over?
    ensures z.child.Exited?
  {
    hide Serve, EncodeAll, Encode;
  }

  lemma {:induction false} Inevitable(eng: Engine, body: Body, s: Srv, room: Capacity, sched: nat -> Move, n: nat, k: nat, m: nat, fs: seq<Frame>)
    returns (j: nat)
    requires GoodBody(body) && Busy(eng, body, s, room, sched) && InRun(eng, body, s, n).Over? && m <= n
    requires Related(eng, body, Run(eng, body, s, room, Prefix(sched, k)), InRun(eng, body, s, m), fs)
    ensures Run(eng, body, s, room, Prefix(sched, j)).done.Some?
    decreases n - m, Stage(Run(eng, body, s, room, Prefix(sched, k))), Flow(Run(eng, body, s, room, Prefix(sched, k)))
  {
    hide Apply, InStep, Related, Stage, Flow;
    var z := Run(eng, body, s, room, Prefix(sched, k));
    var i := InRun(eng, body, s, m);
    if z.done.Some? { return k; }
    var move := sched(k);
    var z' := Apply(eng, body, z, move).value;
    var adv, fs' := Step(eng, body, z, i, fs, move, z');
    assert Prefix(sched, k + 1)[..k] == Prefix(sched, k);
    assert Run(eng, body, s, room, Prefix(sched, k + 1)) == z';
    if adv {
      if i.Over? {
        OverMeansExited(eng, body, z, i, fs);
        assert false by { NobodyMoves(eng, body, z, move); }
      }
      j := Inevitable(eng, body, s, room, sched, n, k + 1, m + 1, fs');
    } else {
      FlowFalls(eng, body, z, i, fs, move, z', fs');
      j := Inevitable(eng, body, s, room, sched, n, k + 1, m, fs');
    }
  }

  lemma NobodyMoves(eng: Engine, body: Body, z: Sys, m: Move)
    requires z.child.Exited? && (m.Act? || m.Receive?)
    ensures Apply(eng, body, z, m).None?
  {
  }

  /**
    The converse of TransportsAgree: when the in-process run ends, every schedule of the piped
    run that does not idle reaches a verdict, and it is the in-process one.
   */
  lemma EveryScheduleEnds(eng: Engine, body: Body, s: Srv, room: Capacity, sched: nat -> Move, n: nat)
    requires GoodBody(body) && !s.stopSeen && Busy(eng, body, s, room, sched) && InRun(eng, body, s, n).Over?
    ensures exists k: nat ::
      var z := Run(eng, body, s, room, Prefix(sched, k));
      z.done.Some? && InRun(eng, body, s, n) == Over(z.done.value, z.srv)
  {
    hide Related, Apply, InStep;
    StartRelated(eng, body, s, room);
    assert Run(eng, body, s, room, Prefix(sched, 0)) == Start(s, room);
    var k := Inevitable(eng, body, s, room, sched, n, 0, 0, []);
    OneVerdict(eng, body, s, room, Prefix(sched, k), n);
  }

  /** While a piped run has no verdict some move is enabled, whatever was scheduled before. */
  lemma NeverStuck(eng: Engine, body: Body, s: Srv, room: Capacity, moves: seq<Move>) returns (m: Move)
    requires GoodBody(body) && !s.stopSeen
    ensures var z := Run(eng, body, s, room, moves);
      z.done.None? ==> Apply(eng, body, z, m).Some?
  {
    hide Related, Apply, InStep;
    var n, fs := Simulates(eng, body, s, room, moves);
    var z := Run(eng, body, s, room, moves);
    if z.done.None? {
      m := NoDeadlock(eng, body, z, InRun(eng, body, s, n), fs);
    } else {
      m := Act;
    }
  }
}
