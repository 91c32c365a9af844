/**
  HEGEL_ISOLATED blocks.  Without fork (INPROC) the block runs in a process of its own that
  sends notes and one verdict back; in a forked case (CHILD) it runs inline, after telling the
  server which block it is in.  What the block does to the body's memory is not part of the
  comparison: after the block a body sees only that it was passed.
 */
module Isolated {
  import opened Options
  import opened Wire
  import opened Server
  import opened Transport
  import Fdesc

  /** How a process ends without a verdict. */
  datatype Death = Signal(sig: nat, name: seq<byte>) | ExitCode(code: nat)

  datatype Outer = Core(a: Action) | Enter(site: Payload)

  datatype Inner =
    | BNote(line: Payload)
    | BEnd
    | BAssume
    | BFail(msg: seq<byte>)
    | BHealth(msg: seq<byte>)
    | BCall(op: byte)
    | BEnter(site: Payload)
    | BDie(how: Death)

  /** The body outside its blocks, and inside the block it is in. */
  datatype Body = Body(outer: seq<Seen> -> Outer, inner: (seq<Seen>, seq<Seen>) -> Inner)

  /** A file:line string the server can hold. */
  predicate GoodSite(site: seq<byte>) { 1 <= |site| <= 255 && 0 !in site }

  ghost predicate GoodBlocks(b: Body) {
    forall h :: match b.outer(h)
      case Core(a) => a.DoCall? ==> IsRequest(a.op)
      case Enter(site) => GoodSite(site)
  }

  /* ---- Texts ---- */

  /** The block is the origin of every failure inside it. */
  function IsoOrigin(site: seq<byte>): (r: seq<byte>)
    ensures |r| < 512 && 0 !in r
  {
    CStr(Ascii("HEGEL_ISOLATED at ") + site, 512)
  }

  function Number(n: nat): seq<byte> { Ascii(Fdesc.Digits(n)) }

  function EngineCallMsg(op: byte, site: seq<byte>): (r: seq<byte>)
    ensures |r| < 512 && 0 !in r
  {
    CStr(Ascii("hegel-c: engine call (op ") + Number(op) + Ascii(") inside HEGEL_ISOLATED at ") + site +
         Ascii(" ") + [0xE2, 0x80, 0x94] +
         Ascii(" draw everything before the block (or control left the block via break/return)"), 512)
  }

  function NestedMsg(site: seq<byte>, outer: seq<byte>): (r: seq<byte>)
    ensures |r| < 512 && 0 !in r
  {
    CStr(Ascii("hegel-c: nested HEGEL_ISOLATED at ") + site + Ascii(" (outer block: ") + outer + Ascii(")"), 512)
  }

  /** hegel_fail inside a block. */
  function FailedIn(site: seq<byte>, msg: seq<byte>): (e: Exit)
    ensures ExitOk(e) && e.ExitFail?
  {
    ExitFail(IsoOrigin(site), CStr(msg, 1024))
  }

  /** escape_health. */
  function Refused(msg: seq<byte>): (e: Exit)
    ensures ExitOk(e) && e.ExitHealth?
  {
    ExitHealth(CStr(msg, 1024))
  }

  /** report_iso_crash. */
  function BlockCrashMsg(site: seq<byte>, how: Death): (r: seq<byte>)
    ensures |r| < 1024 && 0 !in r
  {
    var at := Ascii("HEGEL_ISOLATED block at ") + site;
    CStr(match how
         case Signal(sig, name) => at + Ascii(" crashed with signal ") + Number(sig) + Ascii(" (") + name + Ascii(")")
         case ExitCode(code) => at + Ascii(" exited without a verdict (exit code ") + Number(code) + Ascii(")"), 1024)
  }

  /** crash_outcome, with the site the server was told. */
  function ChildCrashMsg(site: seq<byte>, how: Death): (r: seq<byte>)
    ensures |r| < 1024 && 0 !in r
  {
    var suffix := if site == [] then [] else Ascii(" in HEGEL_ISOLATED at ") + site;
    CStr(match how
         case Signal(sig, name) =>
           Ascii("test case crashed with signal ") + Number(sig) + Ascii(" (") + name + Ascii(")") + CStr(suffix, 300)
         case ExitCode(code) =>
           Ascii("test case exited without a verdict (exit code ") + Number(code) + Ascii(")") + CStr(suffix, 300), 1024)
  }

  function ChildCrashOrigin(site: seq<byte>, how: Death): (r: seq<byte>)
    ensures |r| < 512 && 0 !in r
  {
    if site != [] then IsoOrigin(site)
    else
      CStr(match how
           case Signal(sig, name) => Ascii("crash: signal ") + Number(sig) + Ascii(" (") + name + Ascii(")")
           case ExitCode(code) => Ascii("crash: exit ") + Number(code), 512)
  }

  /* ---- Without fork: the block in a process of its own ---- */

  datatype NoFork =
    | NLive(tc: Tc, srv: Srv)
    | NBlock(tc: Tc, srv: Srv, site: Payload, local: seq<Seen>, sent: seq<Frame>)
    | NOver(out: Outcome, srv: Srv, died: bool)

  /** The frames with which the block's process ends, in mode ISO; none when it dies. */
  function LastFrames(capture: bool, tc: Tc, site: Payload, a: Inner): seq<Frame>
    requires !a.BNote?
  {
    match a
    case BEnd => [Frame(DONE, [])]
    case BAssume => [TerminalFrame(tc, ExitAssume)]
    case BFail(msg) =>
      var e := FailedIn(site, msg);
      (if capture then [Frame(NOTE, FailLine(e.msg))] else []) + [TerminalFrame(tc, e)]
    case BHealth(msg) => [TerminalFrame(tc, Refused(msg))]
    case BCall(op) => [TerminalFrame(tc, Refused(EngineCallMsg(op, site)))]
    case BEnter(site') => [TerminalFrame(tc, Refused(NestedMsg(site', site)))]
    case BDie(_) => []
  }

  /** The waiting parent: notes and verdicts go to the server, anything else is dropped. */
  function Relay(eng: Engine, s: Srv, fs: seq<Frame>): (Srv, Option<Outcome>)
    decreases |fs|
  {
    if fs == [] then (s, None)
    else if fs[0].op == NOTE || fs[0].op >= DONE then
      var r := Serve(eng, s, fs[0].op, fs[0].payload);
      if r.served.Ended? then (r.srv, Some(r.served.outcome)) else Relay(eng, r.srv, fs[1..])
    else Relay(eng, s, fs[1..])
  }

  function NAfter(n: Next, s: Srv): NoFork {
    match n
    case Go(tc) => NLive(tc, s)
    case Leave(tc, e) => NOver(ExitOutcome(tc, e), s, false)
  }

  /** The parent re-raises the verdict, or reports the crash. */
  function AfterBlock(tc: Tc, s: Srv, site: Payload, verdict: Option<Outcome>, how: Death): NoFork {
    match verdict
    case None =>
      var msg := BlockCrashMsg(site, how);
      NOver(ExitOutcome(tc, ExitFail(IsoOrigin(site), msg)), Note(s, FailLine(msg)), true)
    case Some(o) =>
      match o.status
      case Valid => NLive(Saw(tc, BlockPassed), s)
      case Interesting => NAfter(Leave(tc, ExitFail(CStr(o.origin, 512), CStr(o.msg, 1024))), s)
      case _ => NAfter(if o.health then Leave(tc, ExitHealth(CStr(o.msg, 1024))) else OnAssume(tc), s)
  }

  function NStep(eng: Engine, b: Body, i: NoFork): NoFork {
    match i
    case NOver(_, _, _) => i
    case NLive(tc, srv) =>
      (match b.outer(tc.hist)
       case Core(a) =>
         (match InAct(eng, a, tc, srv)
          case Live(tc', srv') => NLive(tc', srv')
          case Over(o, srv') => NOver(o, srv', false))
       case Enter(site) => NBlock(tc, srv, site, [], []))
    case NBlock(tc, srv, site, local, sent) =>
      var a := b.inner(tc.hist, local);
      if a.BNote? then
        i.(local := local + [NoteDone], sent := sent + if srv.capture then [Frame(NOTE, a.line)] else [])
      else
        var (srv', verdict) := Relay(eng, srv, sent + LastFrames(srv.capture, tc, site, a));
        AfterBlock(tc, srv', site, verdict, if a.BDie? then a.how else ExitCode(0))
  }

  function NRun(eng: Engine, b: Body, s: Srv, n: nat): NoFork {
    if n == 0 then NLive(Tc([], 0, false), s) else NStep(eng, b, NRun(eng, b, s, n - 1))
  }

  /* ---- Forked case: the block inline ---- */

  /** `iso`: the runtime's iso_site; `local`: what the block has seen, while the body is in it. */
  datatype Inline =
    | CLive(tc: Tc, srv: Srv, iso: Option<Payload>, local: Option<seq<Seen>>)
    | COver(out: Outcome, srv: Srv, died: bool)

  /** The last frames of the child, served. */
  function CLeave(eng: Engine, s: Srv, tc: Tc, e: Exit): Inline
    requires ExitOk(e)
  {
    var s' := if e.ExitFail? && s.capture then Serve(eng, s, NOTE, FailLine(e.msg)).srv else s;
    var f := TerminalFrame(tc, e);
    var r := Serve(eng, s', f.op, f.payload);
    if r.served.Ended? then COver(r.served.outcome, r.srv, false) else CLive(tc, r.srv, None, None)
  }

  function CAfter(eng: Engine, n: Next, s: Srv, iso: Option<Payload>): Inline
    requires ExitFits(n)
  {
    match n
    case Go(tc) => CLive(tc, s, iso, None)
    case Leave(tc, e) => CLeave(eng, s, tc, e)
  }

  /** An action outside a block; `iso` is set if a block was left through a rule. */
  function COuter(eng: Engine, a: Action, tc: Tc, srv: Srv, iso: Option<Payload>): Inline {
    match a
    case DoCall(op, payload) =>
      if iso.Some? then CLeave(eng, srv, tc, Refused(EngineCallMsg(op, iso.value)))
      else
        var r := Serve(eng, srv, op, payload);
        if r.served.Answered? then CAfter(eng, OnResponse(tc, r.served.status, r.served.resp), r.srv, iso)
        else CLive(tc, srv, iso, None)
    case DoNote(line) =>
      CLive(Saw(tc, NoteDone), if srv.capture then Serve(eng, srv, NOTE, line).srv else srv, iso, None)
    case DoFail(origin, msg) =>
      CLeave(eng, srv, tc, if iso.Some? then FailedIn(iso.value, msg) else ExitFail(CStr(origin, 512), CStr(msg, 1024)))
    case _ => CAfter(eng, OnAction(tc, a), srv, iso)
  }

  function CInner(eng: Engine, a: Inner, tc: Tc, srv: Srv, site: Payload, local: seq<Seen>): Inline {
    match a
    case BNote(line) =>
      CLive(tc, if srv.capture then Serve(eng, srv, NOTE, line).srv else srv, Some(site), Some(local + [NoteDone]))
    case BEnd => CLive(Saw(tc, BlockPassed), Serve(eng, srv, ISO_SITE, []).srv, None, None)
    case BAssume => CAfter(eng, OnAssume(tc), srv, Some(site))
    case BFail(msg) => CLeave(eng, srv, tc, FailedIn(site, msg))
    case BHealth(msg) => CLeave(eng, srv, tc, Refused(msg))
    case BCall(op) => CLeave(eng, srv, tc, Refused(EngineCallMsg(op, site)))
    case BEnter(site') => CLeave(eng, srv, tc, Refused(NestedMsg(site', site)))
    case BDie(how) =>
      var msg := ChildCrashMsg(srv.isoSite, how);
      COver(Outcome(Interesting, false, ChildCrashOrigin(srv.isoSite, how), msg), AddLine(srv, FailLine(msg)), true)
  }

  function CStep(eng: Engine, b: Body, c: Inline): Inline {
    match c
    case COver(_, _, _) => c
    case CLive(tc, srv, iso, local) =>
      if iso.Some? && local.Some? then CInner(eng, b.inner(tc.hist, local.value), tc, srv, iso.value, local.value)
      else
        match b.outer(tc.hist)
        case Core(a) => COuter(eng, a, tc, srv, iso)
        case Enter(site) =>
          if iso.Some? then CLeave(eng, srv, tc, Refused(NestedMsg(site, iso.value)))
          else CLive(tc, Serve(eng, srv, ISO_SITE, site).srv, Some(site), Some([]))
  }

  function CRun(eng: Engine, b: Body, s: Srv, n: nat): Inline {
    if n == 0 then CLive(Tc([], 0, false), s, None, None) else CStep(eng, b, CRun(eng, b, s, n - 1))
  }

  /* ---- The two are alike ---- */

  /** Same status, health flag, origin, engine calls and handles; same message and captured
      lines too, unless the block died (each side words a crash in its own way). */
  predicate SameEnd(o: Outcome, s: Srv, died: bool, o': Outcome, s': Srv, died': bool) {
    && o.status == o'.status && o.health == o'.health && o.origin == o'.origin
    && s.log == s'.log && s.handles == s'.handles && died == died'
    && (!died ==> o.msg == o'.msg && s.lines == s'.lines)
  }

  predicate Alike(i: NoFork, c: Inline) {
    match i
    case NLive(tc, srv) => c == CLive(tc, srv, None, None) && !srv.stopSeen && !tc.stopSeen && srv.isoSite == []
    case NBlock(tc, srv, site, local, sent) =>
      && c == CLive(tc, Absorb(srv, sent).(isoSite := site), Some(site), Some(local))
      && GoodSite(site) && Notes(sent) && (!srv.capture ==> sent == [])
      && !srv.stopSeen && !tc.stopSeen && srv.isoSite == []
    case NOver(o, s, died) => c.COver? && SameEnd(o, s, died, c.out, c.srv, c.died)
  }

  /** The one case in which they part: the block assumes while a rule is running. */
  predicate AssumesInRule(b: Body, i: NoFork) {
    i.NBlock? && b.inner(i.tc.hist, i.local).BAssume? && i.tc.rules > 0
  }

  lemma {:induction false} RelayNotes(eng: Engine, s: Srv, sent: seq<Frame>, last: seq<Frame>)
    requires Notes(sent)
    ensures Relay(eng, s, sent + last) == Relay(eng, Absorb(s, sent), last)
    decreases |sent|
  {
    hide Serve;
    if sent == [] {
      assert sent + last == last;
    } else {
      NotesAreSilent(eng, s, sent[0].payload);
      RelayNotes(eng, AddLine(s, sent[0].payload), sent[1..], last);
      assert (sent + last)[1..] == sent[1..] + last;
    }
  }

  /** The child's way out is the in-process way out. */
  lemma LeaveSame(eng: Engine, s: Srv, tc: Tc, e: Exit)
    requires ExitOk(e) && (e.ExitReturn? ==> !s.stopSeen && !tc.stopSeen)
    ensures CLeave(eng, s, tc, e) == COver(ExitOutcome(tc, e), if e.ExitFail? then Note(s, FailLine(e.msg)) else s, false)
  {
    hide Serve, TerminalFrame, ExitOutcome, ServeTerminal;
    if e.ExitFail? { NotesAreSilent(eng, s, FailLine(e.msg)); }
    var s' := if e.ExitFail? && s.capture then AddLine(s, FailLine(e.msg)) else s;
    SameOutcome(tc, e, s');
    var f := TerminalFrame(tc, e);
    TerminalsEnd(eng, s', f.op, f.payload);
  }

  /** ... and the block's process reports the same way out to the waiting parent. */
  lemma RelayLeave(eng: Engine, s: Srv, tc: Tc, e: Exit)
    requires ExitOk(e) && !e.ExitReturn?
    ensures var f := TerminalFrame(tc, e);
      Relay(eng, s, [f]) == (s, Some(ExitOutcome(tc, e)))
  {
    hide Serve, TerminalFrame, ExitOutcome, ServeTerminal;
    SameOutcome(tc, e, s);
    var f := TerminalFrame(tc, e);
    TerminalsEnd(eng, s, f.op, f.payload);
  }

  /** A live step outside any block. */
  lemma OuterAlike(eng: Engine, a: Action, tc: Tc, srv: Srv, i: NoFork)
    requires (a.DoCall? ==> IsRequest(a.op)) && !srv.stopSeen && !tc.stopSeen && srv.isoSite == []
    requires i == match InAct(eng, a, tc, srv)
                  case Live(tc', srv') => NLive(tc', srv')
                  case Over(o, srv') => NOver(o, srv', false)
    ensures Alike(i, COuter(eng, a, tc, srv, None))
  {
    hide Serve, CLeave, ExitOutcome;
    match a
    case DoCall(op, payload) =>
      RequestsAreAnswered(eng, srv, op, payload);
      var r := Serve(eng, srv, op, payload);
      ResponseFits(tc, r.served.status, r.served.resp);
      match OnResponse(tc, r.served.status, r.served.resp) {
        case Go(_) =>
        case Leave(tc', e) => LeaveSame(eng, r.srv, tc', e);
      }
    case DoNote(line) => NotesAreSilent(eng, srv, line);
    case _ =>
      ActionFits(tc, a);
      match OnAction(tc, a) {
        case Go(_) =>
        case Leave(tc', e) => LeaveSame(eng, srv, tc', e);
      }
  }

  lemma SiteSet(eng: Engine, s: Srv, site: Payload)
    requires |site| <= 255
    ensures Serve(eng, s, ISO_SITE, site) == Reply(s.(isoSite := site), Silent)
  {
    hide ServeTerminal, ServeDraw, ServeCreate, ServeHandle;
  }

  /** The way the block ends, seen as a way out of the case; none if it passes or dies. */
  function EndExit(a: Inner, site: Payload): (e: Exit)
    requires !a.BNote? && !a.BEnd? && !a.BDie?
    ensures ExitOk(e) && !e.ExitReturn? && !e.ExitStop?
  {
    match a
    case BAssume => ExitAssume
    case BFail(msg) => FailedIn(site, msg)
    case BHealth(msg) => Refused(msg)
    case BCall(op) => Refused(EngineCallMsg(op, site))
    case BEnter(site') => Refused(NestedMsg(site', site))
  }

  lemma EndFrames(capture: bool, tc: Tc, site: Payload, a: Inner)
    requires !a.BNote? && !a.BEnd? && !a.BDie?
    ensures var e := EndExit(a, site);
      LastFrames(capture, tc, site, a) ==
      (if e.ExitFail? && capture then [Frame(NOTE, FailLine(e.msg))] else []) + [TerminalFrame(tc, e)]
  {
    hide TerminalFrame, FailLine, FailedIn, Refused;
  }

  lemma EndInline(eng: Engine, a: Inner, tc: Tc, srv: Srv, site: Payload, local: seq<Seen>)
    requires !a.BNote? && !a.BEnd? && !a.BDie? && !(a.BAssume? && tc.rules > 0)
    ensures CInner(eng, a, tc, srv, site, local) == CLeave(eng, srv, tc, EndExit(a, site))
  {
    hide TerminalFrame, FailLine, FailedIn, Refused, CLeave;
  }

  /** The verdict of the block's process, relayed. */
  lemma RelayEnd(eng: Engine, s: Srv, tc: Tc, site: Payload, a: Inner)
    requires !a.BNote? && !a.BEnd? && !a.BDie?
    ensures var e := EndExit(a, site);
      Relay(eng, s, LastFrames(s.capture, tc, site, a)) ==
      (if e.ExitFail? then Note(s, FailLine(e.msg)) else s, Some(ExitOutcome(tc, e)))
  {
    EndFrames(s.capture, tc, site, a);
    var e := EndExit(a, site);
    hide Serve, TerminalFrame, ExitOutcome, ServeTerminal, LastFrames, EndExit, FailLine;
    if e.ExitFail? && s.capture {
      var note := Frame(NOTE, FailLine(e.msg));
      var s' := AddLine(s, FailLine(e.msg));
      RelayNotes(eng, s, [note], [TerminalFrame(tc, e)]);
      assert [note][1..] == [];
      assert Absorb(s, [note]) == Absorb(s', []);
      RelayLeave(eng, s', tc, e);
    } else {
      assert [] + [TerminalFrame(tc, e)] == [TerminalFrame(tc, e)];
      RelayLeave(eng, s, tc, e);
    }
  }

  /** What the parent makes of that verdict is what the exit itself leads to. */
  lemma Reraised(tc: Tc, s: Srv, site: Payload, e: Exit, how: Death)
    requires ExitOk(e) && !e.ExitReturn? && !e.ExitStop? && !(e.ExitAssume? && tc.rules > 0)
    ensures AfterBlock(tc, s, site, Some(ExitOutcome(tc, e)), how) == NOver(ExitOutcome(tc, e), s, false)
  {
  }

  lemma EndAlike(eng: Engine, tc: Tc, srv: Srv, site: Payload, local: seq<Seen>, sent: seq<Frame>, a: Inner, how: Death)
    requires Alike(NBlock(tc, srv, site, local, sent), CLive(tc, Absorb(srv, sent).(isoSite := site), Some(site), Some(local)))
    requires !a.BNote? && !a.BEnd? && !a.BDie? && !(a.BAssume? && tc.rules > 0)
    ensures var (srv', verdict) := Relay(eng, srv, sent + LastFrames(srv.capture, tc, site, a));
      Alike(AfterBlock(tc, srv', site, verdict, how), CInner(eng, a, tc, Absorb(srv, sent).(isoSite := site), site, local))
  {
    hide *;
    var s1 := Absorb(srv, sent);
    assert Notes(sent) && !s1.stopSeen && s1.capture == srv.capture by { BlockFacts(tc, srv, site, local, sent); }
    RelayNotes(eng, srv, sent, LastFrames(srv.capture, tc, site, a));
    RelayEnd(eng, s1, tc, site, a);
    EndsAlike(eng, tc, s1, site, local, a, how);
  }

  lemma BlockFacts(tc: Tc, srv: Srv, site: Payload, local: seq<Seen>, sent: seq<Frame>)
    requires Alike(NBlock(tc, srv, site, local, sent), CLive(tc, Absorb(srv, sent).(isoSite := site), Some(site), Some(local)))
    ensures Notes(sent) && !Absorb(srv, sent).stopSeen && Absorb(srv, sent).capture == srv.capture
  {
    AbsorbKeeps(srv, sent);
  }

  lemma SameEndRefl(o: Outcome)
    ensures forall s: Srv, s': Srv, died {:trigger SameEnd(o, s, died, o, s', died)} ::
      s.log == s'.log && s.handles == s'.handles && s.lines == s'.lines ==> SameEnd(o, s, died, o, s', died)
  {
  }

  lemma EndsAlike(eng: Engine, tc: Tc, s: Srv, site: Payload, local: seq<Seen>, a: Inner, how: Death)
    requires !a.BNote? && !a.BEnd? && !a.BDie? && !(a.BAssume? && tc.rules > 0) && !s.stopSeen
    ensures var e := EndExit(a, site);
      Alike(AfterBlock(tc, if e.ExitFail? then Note(s, FailLine(e.msg)) else s, site, Some(ExitOutcome(tc, e)), how),
            CInner(eng, a, tc, s.(isoSite := site), site, local))
  {
    hide Serve, LastFrames, EndExit, FailLine, ExitOutcome, CInner, CLeave, AfterBlock, OnAssume, Absorb, Notes,
      SameEnd;
    var e := EndExit(a, site);
    AssumeOnly(a, site);
    SameEndRefl(ExitOutcome(tc, e));
    Reraised(tc, if e.ExitFail? then Note(s, FailLine(e.msg)) else s, site, e, how);
    EndInline(eng, a, tc, s.(isoSite := site), site, local);
    LeaveSame(eng, s.(isoSite := site), tc, e);
  }

  lemma AssumeOnly(a: Inner, site: Payload)
    requires !a.BNote? && !a.BEnd? && !a.BDie?
    ensures EndExit(a, site).ExitAssume? ==> a.BAssume?
  {
  }

  lemma DeathEnds(eng: Engine, tc: Tc, s: Srv, site: Payload, local: seq<Seen>, how: Death)
    requires GoodSite(site)
    ensures Alike(AfterBlock(tc, s, site, None, how), CInner(eng, BDie(how), tc, s.(isoSite := site), site, local))
  {
    hide Serve, ChildCrashMsg, BlockCrashMsg, FailLine, IsoOrigin;
  }

  lemma RelayDeath(eng: Engine, tc: Tc, srv: Srv, site: Payload, sent: seq<Frame>, how: Death)
    requires Notes(sent)
    ensures Relay(eng, srv, sent + LastFrames(srv.capture, tc, site, BDie(how))) == (Absorb(srv, sent), None)
  {
    RelayNotes(eng, srv, sent, []);
    hide Serve, Absorb, Notes;
    assert sent + [] == sent + LastFrames(srv.capture, tc, site, BDie(how));
  }

  /** The block dies: both report it under the block's origin. */
  lemma DeathAlike(eng: Engine, tc: Tc, srv: Srv, site: Payload, local: seq<Seen>, sent: seq<Frame>, how: Death)
    requires Alike(NBlock(tc, srv, site, local, sent), CLive(tc, Absorb(srv, sent).(isoSite := site), Some(site), Some(local)))
    ensures var (srv', verdict) := Relay(eng, srv, sent + LastFrames(srv.capture, tc, site, BDie(how)));
      Alike(AfterBlock(tc, srv', site, verdict, how), CInner(eng, BDie(how), tc, Absorb(srv, sent).(isoSite := site), site, local))
  {
    hide Serve, Absorb, Notes, CInner, AfterBlock, Relay, LastFrames, SameEnd;
    RelayDeath(eng, tc, srv, site, sent, how);
    DeathEnds(eng, tc, Absorb(srv, sent), site, local, how);
  }

  lemma PassAlike(eng: Engine, tc: Tc, srv: Srv, site: Payload, local: seq<Seen>, sent: seq<Frame>, how: Death)
    requires Alike(NBlock(tc, srv, site, local, sent), CLive(tc, Absorb(srv, sent).(isoSite := site), Some(site), Some(local)))
    ensures var (srv', verdict) := Relay(eng, srv, sent + LastFrames(srv.capture, tc, site, BEnd));
      Alike(AfterBlock(tc, srv', site, verdict, how), CInner(eng, BEnd, tc, Absorb(srv, sent).(isoSite := site), site, local))
  {
    var s1 := Absorb(srv, sent);
    AbsorbKeeps(srv, sent);
    RelayNotes(eng, srv, sent, [Frame(DONE, [])]);
    SiteSet(eng, s1.(isoSite := site), []);
    TerminalsEnd(eng, s1, DONE, []);
    hide Serve, Absorb, Notes;
    assert Relay(eng, s1, [Frame(DONE, [])]) == (s1, Some(Outcome(Valid, false, [], [])));
    assert s1.(isoSite := site).(isoSite := []) == s1;
  }

  lemma NoteAlike(eng: Engine, tc: Tc, srv: Srv, site: Payload, local: seq<Seen>, sent: seq<Frame>, line: Payload)
    requires Alike(NBlock(tc, srv, site, local, sent), CLive(tc, Absorb(srv, sent).(isoSite := site), Some(site), Some(local)))
    ensures Alike(NBlock(tc, srv, site, local + [NoteDone], sent + if srv.capture then [Frame(NOTE, line)] else []),
                  CInner(eng, BNote(line), tc, Absorb(srv, sent).(isoSite := site), site, local))
  {
    var s1 := Absorb(srv, sent);
    AbsorbKeeps(srv, sent);
    NotesAreSilent(eng, s1.(isoSite := site), line);
    if srv.capture {
      AbsorbPush(srv, sent, Frame(NOTE, line));
    } else {
      assert sent + [] == sent;
    }
    hide Serve, Absorb;
  }

  lemma StepAlike(eng: Engine, b: Body, i: NoFork, c: Inline)
    requires GoodBlocks(b) && Alike(i, c) && !AssumesInRule(b, i)
    ensures Alike(NStep(eng, b, i), CStep(eng, b, c))
  {
    hide Serve, InAct, COuter, CInner, Relay, LastFrames, AfterBlock, Absorb;
    match i
    case NOver(_, _, _) =>
    case NLive(tc, srv) =>
      match b.outer(tc.hist) {
        case Core(a) => OuterAlike(eng, a, tc, srv, NStep(eng, b, i));
        case Enter(site) =>
          SiteSet(eng, srv, site);
          assert Absorb(srv, []) == srv by { AbsorbNone(srv); }
      }
    case NBlock(tc, srv, site, local, sent) =>
      var a := b.inner(tc.hist, local);
      var how := if a.BDie? then a.how else ExitCode(0);
      match a {
        case BNote(line) => NoteAlike(eng, tc, srv, site, local, sent, line);
        case BEnd => PassAlike(eng, tc, srv, site, local, sent, how);
        case BDie(_) => DeathAlike(eng, tc, srv, site, local, sent, how);
        case _ => EndAlike(eng, tc, srv, site, local, sent, a, how);
      }
  }

  lemma AbsorbNone(s: Srv)
    ensures Absorb(s, []) == s
  {
  }

  /**
    HEGEL_ISOLATED means the same in both modes: step by step the two runs stay alike, and a
    run that ends in one mode ends in the other with the same status, health flag and origin,
    after the same engine calls — as long as no block assumes while a rule is running.
   */
  lemma {:induction false} IsolatedAgrees(eng: Engine, b: Body, s: Srv, n: nat)
    requires GoodBlocks(b) && !s.stopSeen && s.isoSite == []
    requires forall k: nat :: k < n ==> !AssumesInRule(b, NRun(eng, b, s, k))
    ensures Alike(NRun(eng, b, s, n), CRun(eng, b, s, n))
  {
    hide NStep, CStep;
    if n > 0 {
      IsolatedAgrees(eng, b, s, n - 1);
      StepAlike(eng, b, NRun(eng, b, s, n - 1), CRun(eng, b, s, n - 1));
    }
  }

  /* ---- What a run means, written out without the runtime ---- */

  /** How a block's process ends a case, and the line it is captured with. */
  predicate BlockDecides(a: Inner, rules: nat, site: Payload, s: Srv, o: Outcome, s': Srv) {
    match a
    case BAssume => rules == 0 && o == Outcome(Invalid, false, [], []) && s' == s
    case BFail(msg) =>
      o == Outcome(Interesting, false, IsoOrigin(site), CStr(msg, 1024)) &&
      s' == Captured(s, Ascii("Property test failed: ") + CStr(msg, 1024))
    case BHealth(msg) => o == Outcome(Invalid, true, [], CStr(msg, 1024)) && s' == s
    case BCall(op) => o == Outcome(Invalid, true, [], EngineCallMsg(op, site)) && s' == s
    case BEnter(site') => o == Outcome(Invalid, true, [], NestedMsg(site', site)) && s' == s
    case BDie(how) =>
      o == Outcome(Interesting, false, IsoOrigin(site), BlockCrashMsg(site, how)) &&
      s' == Captured(s, Ascii("Property test failed: ") + BlockCrashMsg(site, how))
    case _ => false
  }

  /** The step of the body outside its blocks, of a block's process, or of neither. */
  predicate Meant(eng: Engine, b: Body, i: NoFork, i': NoFork) {
    match i
    case NOver(_, _, _) => i' == i
    case NLive(tc, srv) =>
      (match b.outer(tc.hist)
       case Enter(site) => i' == NBlock(tc, srv, site, [], [])
       case Core(a) =>
         match i'
         case NLive(tc', srv') =>
           |tc'.hist| == |tc.hist| + 1 && tc'.hist[..|tc.hist|] == tc.hist &&
           Sees(eng, a, tc.rules, srv, tc'.hist[|tc.hist|], srv') && tc'.rules == RulesAfter(tc.rules, tc'.hist[|tc.hist|])
         case NOver(o, srv', died) => !died && Decides(eng, a, tc.rules, srv, o, srv')
         case NBlock(_, _, _, _, _) => false)
    case NBlock(tc, srv, site, local, sent) =>
      var a := b.inner(tc.hist, local);
      var noted := Absorb(srv, sent);
      if a.BNote? then
        i' == NBlock(tc, srv, site, local + [NoteDone], if srv.capture then sent + [Frame(NOTE, a.line)] else sent)
      else if a.BEnd? then i' == NLive(tc.(hist := tc.hist + [BlockPassed]), noted)
      else if a.BAssume? && tc.rules > 0 then
        i' == NLive(Tc(tc.hist + [RuleAssumed], tc.rules - 1, tc.stopSeen), noted)
      else i'.NOver? && i'.died == a.BDie? && BlockDecides(a, tc.rules, site, noted, i'.out, i'.srv)
  }

  /** No stop seen, and only notes sent, in a run without fork. */
  predicate Calm(i: NoFork) {
    match i
    case NOver(_, _, _) => true
    case NLive(tc, srv) => !tc.stopSeen && !srv.stopSeen
    case NBlock(tc, srv, _, _, sent) => !tc.stopSeen && !srv.stopSeen && Notes(sent)
  }

  /** The verdict of a block that passes, or that dies. */
  lemma RelayPass(eng: Engine, srv: Srv, tc: Tc, site: Payload, sent: seq<Frame>)
    requires Notes(sent) && !srv.stopSeen
    ensures Relay(eng, srv, sent + LastFrames(srv.capture, tc, site, BEnd)) ==
      (Absorb(srv, sent), Some(Outcome(Valid, false, [], [])))
  {
    AbsorbKeeps(srv, sent);
    RelayNotes(eng, srv, sent, [Frame(DONE, [])]);
    TerminalsEnd(eng, Absorb(srv, sent), DONE, []);
    hide Serve, Absorb, Notes;
  }

  /** What the parent makes of the exit of a block's process. */
  lemma EndMeans(eng: Engine, tc: Tc, s: Srv, site: Payload, a: Inner, how: Death)
    requires !a.BNote? && !a.BEnd? && !a.BDie?
    ensures var e := EndExit(a, site);
      var i' := AfterBlock(tc, if e.ExitFail? then Note(s, FailLine(e.msg)) else s, site, Some(ExitOutcome(tc, e)), how);
      if a.BAssume? && tc.rules > 0 then i' == NLive(Tc(tc.hist + [RuleAssumed], tc.rules - 1, tc.stopSeen), s)
      else i'.NOver? && !i'.died && BlockDecides(a, tc.rules, site, s, i'.out, i'.srv)
  {
    hide IsoOrigin, EngineCallMsg, NestedMsg, BlockCrashMsg;
  }

  lemma DeathMeans(tc: Tc, s: Srv, site: Payload, how: Death)
    ensures var i' := AfterBlock(tc, s, site, None, how);
      i'.NOver? && i'.died && BlockDecides(BDie(how), tc.rules, site, s, i'.out, i'.srv)
  {
    hide IsoOrigin, EngineCallMsg, NestedMsg, BlockCrashMsg;
  }

  lemma BlockMeans(eng: Engine, b: Body, i: NoFork)
    requires i.NBlock? && Calm(i)
    ensures Meant(eng, b, i, NStep(eng, b, i)) && Calm(NStep(eng, b, i))
  {
    var NBlock(tc, srv, site, local, sent) := i;
    var a := b.inner(tc.hist, local);
    AbsorbKeeps(srv, sent);
    hide Serve, Relay, LastFrames, Absorb, AfterBlock, BlockDecides, EndExit, ExitOutcome, FailLine;
    match a {
      case BNote(_) => assert sent + [] == sent;
      case BEnd =>
        RelayPass(eng, srv, tc, site, sent);
        PassMeans(tc, Absorb(srv, sent), site);
      case BDie(how) =>
        RelayDeath(eng, tc, srv, site, sent, how);
        DeathMeans(tc, Absorb(srv, sent), site, how);
      case _ =>
        RelayNotes(eng, srv, sent, LastFrames(srv.capture, tc, site, a));
        RelayEnd(eng, Absorb(srv, sent), tc, site, a);
        EndMeans(eng, tc, Absorb(srv, sent), site, a, ExitCode(0));
    }
  }

  lemma PassMeans(tc: Tc, s: Srv, site: Payload)
    ensures AfterBlock(tc, s, site, Some(Outcome(Valid, false, [], [])), ExitCode(0)) == NLive(tc.(hist := tc.hist + [BlockPassed]), s)
  {
  }

  /**
    What a body with blocks sees and how its case ends: outside its blocks as in a run without
    any, at the end of a block as the block's own last action decides.
   */
  lemma {:induction false} IsolatedMeans(eng: Engine, b: Body, s: Srv, n: nat)
    requires GoodBlocks(b) && !s.stopSeen
    ensures Calm(NRun(eng, b, s, n)) && Meant(eng, b, NRun(eng, b, s, n), NRun(eng, b, s, n + 1))
  {
    hide NStep, Meant, Calm;
    if n > 0 {
      IsolatedMeans(eng, b, s, n - 1);
      StepIsMeant(eng, b, NRun(eng, b, s, n - 1));
    } else {
      StartCalm(s);
    }
    StepIsMeant(eng, b, NRun(eng, b, s, n));
    assert NRun(eng, b, s, n + 1) == NStep(eng, b, NRun(eng, b, s, n));
  }

  lemma StartCalm(s: Srv)
    requires !s.stopSeen
    ensures Calm(NLive(Tc([], 0, false), s))
  {
  }

  lemma StepIsMeant(eng: Engine, b: Body, i: NoFork)
    requires GoodBlocks(b) && Calm(i)
    ensures Meant(eng, b, i, NStep(eng, b, i)) && Calm(NStep(eng, b, i))
  {
    match i
    case NOver(_, _, _) =>
    case NBlock(_, _, _, _, _) => BlockMeans(eng, b, i);
    case NLive(tc, srv) =>
      hide Serve, InAct, Sees, Decides;
      var x := b.outer(tc.hist);
      if x.Core? { StepMeans(eng, x.a, tc, srv); }
  }

  /* ---- Where they part ---- */

  /** An assume in a block inside a rule: without fork the block is over, inline the runtime
      still believes to be in it. */
  lemma AssumeInRule(eng: Engine, b: Body, i: NoFork, c: Inline)
    requires Alike(i, c) && AssumesInRule(b, i)
    ensures var tc := Saw(i.tc.(rules := i.tc.rules - 1), RuleAssumed);
      && NStep(eng, b, i) == NLive(tc, Absorb(i.srv, i.sent))
      && CStep(eng, b, c) == CLive(tc, c.srv, Some(i.site), None)
  {
    hide Serve, Absorb, Notes, InAct, COuter, Relay, LastFrames, ExitOutcome;
    var a := b.inner(i.tc.hist, i.local);
    RelayNotes(eng, i.srv, i.sent, LastFrames(i.srv.capture, i.tc, i.site, a));
    RelayAssume(eng, Absorb(i.srv, i.sent), i.tc, i.site);
  }

  lemma RelayAssume(eng: Engine, s: Srv, tc: Tc, site: Payload)
    ensures forall capture :: Relay(eng, s, LastFrames(capture, tc, site, BAssume)) == (s, Some(Outcome(Invalid, false, [], [])))
  {
    RelayLeave(eng, s, tc, ExitAssume);
  }

  /** ... so the body's next engine call, which is served without fork, is a health failure
      inline. */
  lemma NextCallRefused(eng: Engine, b: Body, i: NoFork, c: Inline, op: byte, payload: Payload)
    requires Alike(i, c) && AssumesInRule(b, i)
    requires b.outer(Saw(i.tc.(rules := i.tc.rules - 1), RuleAssumed).hist) == Core(DoCall(op, payload))
    ensures var c2 := CStep(eng, b, CStep(eng, b, c));
      c2.COver? && c2.out.status == Invalid && c2.out.health && c2.srv.log == i.srv.log
    ensures var tc := Saw(i.tc.(rules := i.tc.rules - 1), RuleAssumed);
      NStep(eng, b, NStep(eng, b, i)) ==
      match InAct(eng, DoCall(op, payload), tc, Absorb(i.srv, i.sent))
      case Live(tc', s') => NLive(tc', s')
      case Over(o, s') => NOver(o, s', false)
  {
    AssumeInRule(eng, b, i, c);
    AbsorbLog(i.srv, i.sent);
    hide Serve, Absorb, Notes, InAct, Relay, LastFrames, EngineCallMsg, CLeave;
    var e := Refused(EngineCallMsg(op, i.site));
    LeaveSame(eng, c.srv, Saw(i.tc.(rules := i.tc.rules - 1), RuleAssumed), e);
  }

  lemma {:induction false} AbsorbLog(s: Srv, fs: seq<Frame>)
    ensures Absorb(s, fs).log == s.log
    decreases |fs|
  {
    if fs != [] { AbsorbLog(AddLine(s, fs[0].payload), fs[1..]); }
  }

  /** The two runs are alike after n steps. */
  predicate AlikeAt(eng: Engine, b: Body, s: Srv, n: nat) {
    Alike(NRun(eng, b, s, n), CRun(eng, b, s, n))
  }

  /** The exact condition: the two runs stay alike if and only if no block assumes in a rule. */
  lemma AgreesExactly(eng: Engine, b: Body, s: Srv, n: nat)
    requires GoodBlocks(b) && !s.stopSeen && s.isoSite == []
    ensures (forall m: nat :: m <= n ==> AlikeAt(eng, b, s, m)) <==>
            (forall k: nat :: k < n ==> !AssumesInRule(b, NRun(eng, b, s, k)))
  {
    if forall k: nat :: k < n ==> !AssumesInRule(b, NRun(eng, b, s, k)) {
      forall m: nat | m <= n ensures AlikeAt(eng, b, s, m) {
        IsolatedAgrees(eng, b, s, m);
      }
    } else {
      hide AlikeAt, AssumesInRule, NRun;
      var k: nat :| k < n && AssumesInRule(b, NRun(eng, b, s, k));
      PartsHere(eng, b, s, k);
      assert !AlikeAt(eng, b, s, k) || !AlikeAt(eng, b, s, k + 1);
    }
  }

  lemma PartsHere(eng: Engine, b: Body, s: Srv, k: nat)
    requires AssumesInRule(b, NRun(eng, b, s, k))
    ensures !(AlikeAt(eng, b, s, k) && AlikeAt(eng, b, s, k + 1))
  {
    hide NStep, CStep, AssumesInRule, Absorb;
    if AlikeAt(eng, b, s, k) {
      AssumeInRule(eng, b, NRun(eng, b, s, k), CRun(eng, b, s, k));
      assert !AlikeAt(eng, b, s, k + 1);
    }
  }

  /* ---- What becomes of the verdict then ---- */

  /** The body is outside every block, but inline the runtime believes it is still in this one. */
  predicate Stuck(i: NoFork, c: Inline, site: Payload) {
    && i.NLive? && c == CLive(i.tc, i.srv.(isoSite := site), Some(site), None)
    && GoodSite(site) && !i.srv.stopSeen && !i.tc.stopSeen && i.srv.isoSite == []
  }

  /** Only an engine call, a block and a failure look at where the runtime believes to be. */
  predicate Loud(x: Outer) { x.Enter? || x.a.DoCall? || x.a.DoFail? }

  function NFrom(eng: Engine, b: Body, i: NoFork, n: nat): NoFork
    decreases n
  {
    if n == 0 then i else NFrom(eng, b, NStep(eng, b, i), n - 1)
  }

  function CFrom(eng: Engine, b: Body, c: Inline, n: nat): Inline
    decreases n
  {
    if n == 0 then c else CFrom(eng, b, CStep(eng, b, c), n - 1)
  }

  /** The first loud thing the body does in n steps without fork. */
  function FirstLoud(eng: Engine, b: Body, i: NoFork, n: nat): Option<Outer>
    decreases n
  {
    if n == 0 || !i.NLive? then None
    else if Loud(b.outer(i.tc.hist)) then Some(b.outer(i.tc.hist))
    else FirstLoud(eng, b, NStep(eng, b, i), n - 1)
  }

  /** What is reported of a case: status, health flag and origin. */
  predicate SameVerdict(o: Outcome, o': Outcome) {
    o.status == o'.status && o.health == o'.health && o.origin == o'.origin
  }

  /** Nothing loud; or a failure under the block's own origin; or a case that is a health failure anyway. */
  predicate Harmless(first: Option<Outer>, site: Payload, out: Outcome) {
    match first
    case None => true
    case Some(Core(DoFail(origin, _))) => CStr(origin, 512) == IsoOrigin(site)
    case Some(_) => out.health
  }

  lemma AssumeSticks(eng: Engine, b: Body, i: NoFork, c: Inline)
    requires Alike(i, c) && AssumesInRule(b, i)
    ensures Stuck(NStep(eng, b, i), CStep(eng, b, c), i.site)
  {
    AssumeInRule(eng, b, i, c);
    hide Serve, NStep, CStep;
    AbsorbKeeps(i.srv, i.sent);
  }

  /** A quiet step: both go on, or both end with the same verdict. */
  lemma QuietStep(eng: Engine, b: Body, i: NoFork, c: Inline, site: Payload)
    requires Stuck(i, c, site) && !Loud(b.outer(i.tc.hist))
    ensures var i' := NStep(eng, b, i); var c' := CStep(eng, b, c);
      Stuck(i', c', site) || (i'.NOver? && c'.COver? && SameVerdict(i'.out, c'.out))
  {
    hide Serve, CLeave;
    var a := b.outer(i.tc.hist).a;
    if !a.DoNote? {
      var n := OnAction(i.tc, a);
      ActionFits(i.tc, a);
      if n.Leave? { LeaveSame(eng, c.srv, n.tc, n.exit); }
    } else {
      NotesAreSilent(eng, c.srv, a.line);
    }
  }

  /** An engine call or a block: a health failure inline, at once. */
  lemma RefusedAtOnce(eng: Engine, b: Body, i: NoFork, c: Inline, site: Payload)
    requires Stuck(i, c, site)
    requires var x := b.outer(i.tc.hist); x.Enter? || x.a.DoCall?
    ensures var c' := CStep(eng, b, c);
      c'.COver? && c'.out.status == Invalid && c'.out.health && c'.out.origin == []
  {
    hide Serve, CLeave, EngineCallMsg, NestedMsg;
    match b.outer(i.tc.hist)
    case Enter(s) => LeaveSame(eng, c.srv, c.tc, Refused(NestedMsg(s, site)));
    case Core(a) => LeaveSame(eng, c.srv, c.tc, Refused(EngineCallMsg(a.op, site)));
  }

  /** A failure: over in both modes, inline under the block's origin. */
  lemma FailsBoth(eng: Engine, b: Body, i: NoFork, c: Inline, site: Payload)
    requires Stuck(i, c, site)
    requires var x := b.outer(i.tc.hist); x.Core? && x.a.DoFail?
    ensures var i' := NStep(eng, b, i); var c' := CStep(eng, b, c);
      i'.NOver? && c'.COver? &&
      (SameVerdict(i'.out, c'.out) <==> CStr(b.outer(i.tc.hist).a.origin, 512) == IsoOrigin(site))
  {
    hide Serve, CLeave, IsoOrigin;
    LeaveSame(eng, c.srv, c.tc, FailedIn(site, b.outer(i.tc.hist).a.msg));
  }

  lemma HealthIsInvalid(eng: Engine, b: Body, i: NoFork)
    requires !i.NOver? && NStep(eng, b, i).NOver? && NStep(eng, b, i).out.health
    ensures NStep(eng, b, i).out.status == Invalid && NStep(eng, b, i).out.origin == []
  {
    hide Serve, Relay, IsoOrigin, BlockCrashMsg;
  }

  lemma {:induction false} HealthFrom(eng: Engine, b: Body, i: NoFork, n: nat)
    requires !i.NOver? && NFrom(eng, b, i, n).NOver? && NFrom(eng, b, i, n).out.health
    ensures NFrom(eng, b, i, n).out.status == Invalid && NFrom(eng, b, i, n).out.origin == []
    decreases n
  {
    hide NStep;
    var i' := NStep(eng, b, i);
    if i'.NOver? {
      OverStays(eng, b, i', n - 1);
      HealthIsInvalid(eng, b, i);
    } else {
      HealthFrom(eng, b, i', n - 1);
    }
  }

  lemma {:induction false} OverStays(eng: Engine, b: Body, i: NoFork, n: nat)
    requires i.NOver?
    ensures NFrom(eng, b, i, n) == i
    decreases n
  {
    if n > 0 { OverStays(eng, b, i, n - 1); }
  }

  lemma {:induction false} InlineOverStays(eng: Engine, b: Body, c: Inline, n: nat)
    requires c.COver?
    ensures CFrom(eng, b, c, n) == c
    decreases n
  {
    if n > 0 { InlineOverStays(eng, b, c, n - 1); }
  }

  /** From a stuck pair on: if the case ends without fork it ends inline, and the verdicts agree
      if and only if the first loud thing the body does is harmless. */
  lemma {:induction false} StuckVerdicts(eng: Engine, b: Body, i: NoFork, c: Inline, site: Payload, n: nat)
    requires Stuck(i, c, site) && NFrom(eng, b, i, n).NOver?
    ensures var o := NFrom(eng, b, i, n).out; var d := CFrom(eng, b, c, n);
      d.COver? && (SameVerdict(o, d.out) <==> Harmless(FirstLoud(eng, b, i, n), site, o))
    decreases n
  {
    hide NStep, CStep, IsoOrigin;
    var x := b.outer(i.tc.hist);
    var i', c' := NStep(eng, b, i), CStep(eng, b, c);
    if !Loud(x) {
      QuietStep(eng, b, i, c, site);
      if i'.NLive? {
        StuckVerdicts(eng, b, i', c', site, n - 1);
      } else {
        OverStays(eng, b, i', n - 1);
        InlineOverStays(eng, b, c', n - 1);
      }
    } else if x.Core? && x.a.DoFail? {
      FailsBoth(eng, b, i, c, site);
      OverStays(eng, b, i', n - 1);
      InlineOverStays(eng, b, c', n - 1);
    } else {
      RefusedAtOnce(eng, b, i, c, site);
      InlineOverStays(eng, b, c', n - 1);
      if NFrom(eng, b, i, n).out.health { HealthFrom(eng, b, i, n); }
    }
  }

  lemma {:induction false} RunsOn(eng: Engine, b: Body, s: Srv, k: nat, m: nat)
    ensures NRun(eng, b, s, k + m) == NFrom(eng, b, NRun(eng, b, s, k), m)
    ensures CRun(eng, b, s, k + m) == CFrom(eng, b, CRun(eng, b, s, k), m)
    decreases m
  {
    hide NStep, CStep;
    if m > 0 { RunsOn(eng, b, s, k + 1, m - 1); }
  }

  /**
    When the verdicts differ.  If the first assume of a block in a rule is at step k, a case that
    ends without fork ends in the forked case too, and status, health flag and origin agree if
    and only if what the body first does after it that is loud is harmless: it fails under the
    block's own origin, or it calls the engine or enters a block and the case is a health
    failure without fork as well.
   */
  lemma VerdictsAgreeIff(eng: Engine, b: Body, s: Srv, k: nat, m: nat)
    requires GoodBlocks(b) && !s.stopSeen && s.isoSite == []
    requires AssumesInRule(b, NRun(eng, b, s, k)) && forall j: nat :: j < k ==> !AssumesInRule(b, NRun(eng, b, s, j))
    requires NRun(eng, b, s, k + 1 + m).NOver?
    ensures var i := NRun(eng, b, s, k + 1 + m); var c := CRun(eng, b, s, k + 1 + m);
      c.COver? && (SameVerdict(i.out, c.out) <==>
                   Harmless(FirstLoud(eng, b, NRun(eng, b, s, k + 1), m), NRun(eng, b, s, k).site, i.out))
  {
    hide NStep, CStep, Stuck, SameVerdict, Harmless, FirstLoud, GoodBlocks;
    IsolatedAgrees(eng, b, s, k);
    var i, c := NRun(eng, b, s, k), CRun(eng, b, s, k);
    AssumeSticks(eng, b, i, c);
    RunsOn(eng, b, s, k + 1, m);
    assert NRun(eng, b, s, k + 1) == NStep(eng, b, i) && CRun(eng, b, s, k + 1) == CStep(eng, b, c);
    StuckVerdicts(eng, b, NRun(eng, b, s, k + 1), CRun(eng, b, s, k + 1), i.site, m);
  }

  /** A body that enters a rule, assumes in a block there, draws a boolean and returns. */
  function RuleBody(): Body {
    Body((h: seq<Seen>) =>
           if h == [] then Core(EnterRule)
           else if h == [RuleEntered] then Enter([97])
           else if h == [RuleEntered, RuleAssumed] then Core(DoCall(4, Zeros(8)))
           else Core(Return),
         (_, _) => BAssume)
  }

  lemma RuleBodyRun(eng: Engine, s: Srv)
    requires forall log, c :: eng(log, c).rc == OK
    requires !s.stopSeen && s.isoSite == []
    ensures var b := RuleBody();
      && NRun(eng, b, s, 0).NLive? && NRun(eng, b, s, 1).NLive?
      && NRun(eng, b, s, 2) == NBlock(Tc([RuleEntered], 1, false), s, [97], [], [])
      && NRun(eng, b, s, 3) == NLive(Tc([RuleEntered, RuleAssumed], 0, false), s)
      && NRun(eng, b, s, 5).NOver? && NRun(eng, b, s, 5).out == Outcome(Valid, false, [], [])
  {
    hide Relay, LastFrames;
    var b := RuleBody();
    var t1 := Tc([RuleEntered], 1, false);
    var t2 := Tc([RuleEntered, RuleAssumed], 0, false);
    assert NRun(eng, b, s, 1) == NLive(t1, s);
    assert NRun(eng, b, s, 2) == NBlock(t1, s, [97], [], []);
    RelayAssume(eng, s, t1, [97]);
    assert [] + LastFrames(s.capture, t1, [97], BAssume) == LastFrames(s.capture, t1, [97], BAssume);
    assert t2.hist == [RuleEntered] + [RuleAssumed];
    assert NRun(eng, b, s, 3) == NLive(t2, s);
    var r := Serve(eng, s, 4, Zeros(8));
    assert r.served.Answered? && r.served.status == RespOk && !r.srv.stopSeen;
    var i4 := NRun(eng, b, s, 4);
    assert i4.NLive? && !i4.tc.stopSeen && i4.tc.hist == t2.hist + [Response(false, r.served.resp)];
    assert |i4.tc.hist| == 3;
  }

  /** ... passes without fork and is a health failure in a forked case. */
  lemma RuleBodyParts(eng: Engine, s: Srv)
    requires forall log, c :: eng(log, c).rc == OK
    requires !s.stopSeen && s.isoSite == []
    ensures NRun(eng, RuleBody(), s, 5).NOver? && NRun(eng, RuleBody(), s, 5).out.status == Valid
    ensures CRun(eng, RuleBody(), s, 5).COver? && !SameVerdict(NRun(eng, RuleBody(), s, 5).out, CRun(eng, RuleBody(), s, 5).out)
  {
    var b := RuleBody();
    RuleBodyRun(eng, s);
    VerdictsAgreeIff(eng, b, s, 2, 2);
  }

  /** A crash gets the same origin in both modes exactly when the server can hold the site. */
  lemma CrashOriginIff(site: seq<byte>, how: Death)
    requires 0 !in site
    ensures IsoOrigin(site) == ChildCrashOrigin(Cut(site, 255), how) <==> 1 <= |site| <= 255
  {
    var prefix := Ascii("HEGEL_ISOLATED at ");
    assert |prefix| == 18 && 0 !in prefix && prefix[0] == 72;
    CStrWhole(prefix + site, 512);
    CStrWhole(prefix + Cut(site, 255), 512);
    if site == [] {
      assert IsoOrigin(site)[0] == 72;
      CrashPrefix(how);
    }
  }

  lemma CrashPrefix(how: Death)
    ensures ChildCrashOrigin([], how) == [] || ChildCrashOrigin([], how)[0] == 99
  {
    assert Ascii("crash: signal ")[0] == 99 && Ascii("crash: exit ")[0] == 99;
  }
}
