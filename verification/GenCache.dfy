/** The run-scoped string generators: what a hit returns, and when each one is freed. */
module GenCache {
  import opened Options
  import opened Wire
  import opened Server
  import opened Handles

  predicate MadeText(log: seq<Event>, gen: Obj, min: nat, max: nat) {
    gen < |log| && log[gen] == Event(MakeTextGen(min, max), OK)
  }

  predicate MadeRegex(log: seq<Event>, gen: Obj, pattern: seq<byte>) {
    gen < |log| && log[gen].rc == OK && log[gen].call.MakeRegexGen? && log[gen].call.pattern == pattern
  }

  predicate Made(log: seq<Event>, gen: Obj) {
    gen < |log| && log[gen].rc == OK && (log[gen].call.MakeTextGen? || log[gen].call.MakeRegexGen?)
  }

  predicate EntryOk(log: seq<Event>, g: Gen) {
    match g
    case TextGen(min, max, gen) => MadeText(log, gen, min, max)
    case RegexGen(pattern, gen) => MadeRegex(log, gen, pattern)
  }

  /** Some entry, or the run's alphabet. */
  predicate Cached(s: Srv, gen: Obj) {
    s.noNul == Some(gen) || exists i :: 0 <= i < |s.gens| && s.gens[i].gen == gen
  }

  /** Every entry says what its generator was built for; no generator is entered twice, and
      none is forgotten; none is freed while the run lasts. */
  ghost predicate CacheOk(s: Srv) {
    && (forall i :: 0 <= i < |s.gens| ==> EntryOk(s.log, s.gens[i]))
    && (s.noNul.Some? ==> MadeText(s.log, s.noNul.value, 0, 1))
    && (forall i, j :: 0 <= i < j < |s.gens| ==> s.gens[i].gen != s.gens[j].gen)
    && (forall i :: 0 <= i < |s.gens| ==> s.noNul != Some(s.gens[i].gen))
    && (forall k: nat :: Made(s.log, k) ==> Cached(s, k))
    && (forall k :: 0 <= k < |s.log| ==> !s.log[k].call.FreeGen?)
  }

  /** t's log is s's and calls that have nothing to do with generators. */
  predicate LogGrew(a: seq<Event>, b: seq<Event>) {
    a <= b && forall k :: |a| <= k < |b| ==> !b[k].call.FreeGen? && !Made(b, k)
  }

  lemma CacheUntouched(s: Srv, t: Srv)
    requires CacheOk(s) && LogGrew(s.log, t.log) && t.gens == s.gens && t.noNul == s.noNul
    ensures CacheOk(t)
  {
    forall i | 0 <= i < |t.gens| ensures EntryOk(t.log, t.gens[i]) { assert EntryOk(s.log, s.gens[i]); }
    forall k: nat | Made(t.log, k) ensures Cached(t, k) {
      assert k < |s.log| && Made(s.log, k);
      assert Cached(s, k);
      assert forall i :: 0 <= i < |s.gens| ==> t.gens[i] == s.gens[i];
    }
  }

  lemma CacheAdds(s: Srv, t: Srv, c: Call, g: Gen)
    requires CacheOk(s) && t.log == s.log + [Event(c, OK)] && t.gens == s.gens + [g] && t.noNul == s.noNul
    requires g.gen == |s.log| && EntryOk(t.log, g)
    ensures CacheOk(t)
  {
    forall i | 0 <= i < |t.gens|
      ensures EntryOk(t.log, t.gens[i])
      ensures i < |s.gens| ==> t.gens[i].gen < |s.log|
    {
      if i < |s.gens| { assert EntryOk(s.log, s.gens[i]); }
    }
    forall k: nat | Made(t.log, k) ensures Cached(t, k) {
      if k < |s.log| {
        assert Made(s.log, k) && Cached(s, k);
        if s.noNul != Some(k) {
          var i :| 0 <= i < |s.gens| && s.gens[i].gen == k;
          assert t.gens[i].gen == k;
        }
      } else {
        assert t.gens[|s.gens|].gen == k;
      }
    }
  }

  lemma CacheAlphabet(s: Srv, t: Srv)
    requires CacheOk(s) && s.noNul.None? && t.noNul == Some(|s.log|)
    requires t.log == s.log + [Event(MakeTextGen(0, 1), OK)] && t.gens == s.gens
    ensures CacheOk(t)
  {
    forall i | 0 <= i < |t.gens|
      ensures EntryOk(t.log, t.gens[i]) && t.gens[i].gen < |s.log|
    {
      assert EntryOk(s.log, s.gens[i]);
    }
    forall k: nat | Made(t.log, k) ensures Cached(t, k) {
      if k < |s.log| {
        assert Made(s.log, k) && Cached(s, k);
        assert forall i :: 0 <= i < |s.gens| ==> t.gens[i] == s.gens[i];
      }
    }
  }

  /* ---- Lookups ---- */

  /** text_gen: for every request, hit or miss, a generator built for exactly these bounds. */
  lemma TextGenExact(eng: Engine, s: Srv, min: nat, max: nat)
    requires CacheOk(s)
    ensures var g := TextGenFor(eng, s, min, max);
      CacheOk(g.srv) && s.log <= g.srv.log && (g.rc == OK ==> MadeText(g.srv.log, g.gen, min, max))
  {
    var hit := FindText(s.gens, min, max);
    var g := TextGenFor(eng, s, min, max);
    if hit.Some? {
      var i :| 0 <= i < |s.gens| && s.gens[i] == TextGen(min, max, hit.value);
      assert EntryOk(s.log, s.gens[i]);
    } else if g.rc == OK {
      CacheAdds(s, g.srv, MakeTextGen(min, max), TextGen(min, max, |s.log|));
    } else {
      CacheUntouched(s, g.srv);
    }
  }

  predicate NulFree(gens: seq<Gen>) {
    forall i :: 0 <= i < |gens| && gens[i].RegexGen? ==> 0 !in gens[i].pattern
  }

  lemma RegexGenKeepsCache(eng: Engine, s: Srv, pat: seq<byte>)
    requires CacheOk(s)
    ensures var g := RegexGenFor(eng, s, pat);
      CacheOk(g.srv) && s.log <= g.srv.log &&
      (FindRegex(s.gens, pat).None? && g.rc == OK ==> MadeRegex(g.srv.log, g.gen, pat))
    ensures NulFree(s.gens) && 0 !in pat ==> NulFree(RegexGenFor(eng, s, pat).srv.gens)
  {
    if FindRegex(s.gens, pat).None? {
      var alpha := AlphabetFor(eng, s);
      if s.noNul.None? {
        if alpha.rc == OK { CacheAlphabet(s, alpha.srv); } else { CacheUntouched(s, alpha.srv); }
      }
      if alpha.rc == OK {
        var g := RegexGenFor(eng, s, pat);
        var c := MakeRegexGen(pat, alpha.gen);
        if g.rc == OK {
          CacheAdds(alpha.srv, g.srv, c, RegexGen(pat, |alpha.srv.log|));
        } else {
          CacheUntouched(alpha.srv, g.srv);
        }
      }
    }
  }

  predicate MatchesRegex(g: Gen, pat: seq<byte>) {
    g.RegexGen? && StrLen(g.pattern) == |pat| && pat <= g.pattern
  }

  /** Entry i is the one a lookup of pat finds. */
  predicate FirstHit(gens: seq<Gen>, pat: seq<byte>, i: nat) {
    i < |gens| && MatchesRegex(gens[i], pat) && forall j :: 0 <= j < i ==> !MatchesRegex(gens[j], pat)
  }

  /** What a lookup of pat finds, if anything, was entered for a pattern without a NUL. */
  predicate HitNulFree(gens: seq<Gen>, pat: seq<byte>) {
    forall i :: 0 <= i < |gens| && FirstHit(gens, pat, i) ==> 0 !in gens[i].pattern
  }

  /** The exact condition: a regex request gets a generator built for its pattern if and only if
      the entry it hits, if it hits one, is of a pattern without a NUL. */
  lemma RegexGenExact(eng: Engine, s: Srv, pat: seq<byte>)
    requires CacheOk(s)
    ensures var g := RegexGenFor(eng, s, pat);
      g.rc == OK ==> (MadeRegex(g.srv.log, g.gen, pat) <==> HitNulFree(s.gens, pat))
  {
    RegexGenKeepsCache(eng, s, pat);
    if exists i: nat :: FirstHit(s.gens, pat, i) {
      var i: nat :| FirstHit(s.gens, pat, i);
      FirstMatch(s.gens, i, pat);
      assert EntryOk(s.log, s.gens[i]);
      WholeIff(s.gens[i].pattern, pat);
      forall k: nat | FirstHit(s.gens, pat, k) ensures k == i {
        assert !(k < i) && !(i < k);
      }
    } else {
      NoMatch(s.gens, pat);
    }
  }

  /** A pattern that matches as a C string is the same pattern exactly when it has no NUL. */
  lemma WholeIff(p: seq<byte>, pat: seq<byte>)
    requires StrLen(p) == |pat| && pat <= p
    ensures p == pat <==> 0 !in p
  {
    if 0 in p { StrLenStops(p); }
  }

  lemma NoMatch(gens: seq<Gen>, pat: seq<byte>)
    requires forall i: nat :: !FirstHit(gens, pat, i)
    ensures FindRegex(gens, pat).None?
  {
    if FindRegex(gens, pat).Some? { var _ := LeastMatch(gens, pat); }
  }

  lemma {:induction false} LeastMatch(gens: seq<Gen>, pat: seq<byte>) returns (i: nat)
    requires FindRegex(gens, pat).Some?
    ensures FirstHit(gens, pat, i)
  {
    if MatchesRegex(gens[0], pat) {
      i := 0;
    } else {
      i := LeastMatch(gens[1..], pat);
      i := i + 1;
      assert forall j :: 0 < j < i ==> gens[j] == gens[1..][j - 1];
    }
  }

  /**
    Once a pattern with a NUL is the first entry its part before the NUL matches, a request
    for that part is answered with the longer pattern's generator.
   */
  lemma NulPatternMisleads(eng: Engine, s: Srv, i: nat)
    requires CacheOk(s) && i < |s.gens| && s.gens[i].RegexGen? && 0 in s.gens[i].pattern
    requires FirstHit(s.gens, s.gens[i].pattern[..StrLen(s.gens[i].pattern)], i)
    ensures var p := s.gens[i].pattern; var pat := p[..StrLen(p)];
      pat != p && RegexGenFor(eng, s, pat) == GenReply(s, OK, [], s.gens[i].gen) &&
      !MadeRegex(s.log, s.gens[i].gen, pat)
  {
    var p := s.gens[i].pattern;
    var pat := p[..StrLen(p)];
    assert EntryOk(s.log, s.gens[i]);
    StrLenStops(p);
    FirstMatch(s.gens, i, pat);
  }

  /** One run that gets there: a draw of the pattern a, NUL, b and then of the pattern a. */
  lemma NulPatternRun(eng: Engine)
    requires forall log, c :: eng(log, c).rc == OK
    ensures var s := RunCases(eng, FreshSrv(), [CaseBody(false, [Request(DRAW_REGEX, [97, 0, 98])])]);
      var g := RegexGenFor(eng, s, [97]);
      g.rc == OK && !MadeRegex(g.srv.log, g.gen, [97])
  {
    var c := CaseBody(false, [Request(DRAW_REGEX, [97, 0, 98])]);
    CasesKeepCache(eng, FreshSrv(), [c]);
    var s0 := NewCase(FreshSrv(), false);
    var r := Serve(eng, s0, DRAW_REGEX, [97, 0, 98]).srv;
    assert r.gens == [RegexGen([97, 0, 98], 1)] && r.handles == [];
    assert c.requests[1..] == [];
    assert Requests(eng, s0, c.requests) == r;
    assert RunCase(eng, FreshSrv(), c) == CaseFree(r, 0) == r;
    assert [c][1..] == [];
    assert RunCases(eng, FreshSrv(), [c]) == r;
    NulAfterFirst();
    assert FirstHit(r.gens, [97], 0);
    RegexGenExact(eng, r, [97]);
    FirstMatch(r.gens, 0, [97]);
    assert 0 in r.gens[0].pattern by { assert r.gens[0].pattern[1] == 0; }
  }

  lemma NulAfterFirst()
    ensures StrLen([97, 0, 98]) == 1
  {
    assert [97, 0, 98][1..] == [0, 98];
    assert StrLen([0, 98]) == 0;
  }

  lemma {:induction false} StrLenStops(p: seq<byte>)
    requires 0 in p
    ensures StrLen(p) < |p|
  {
    if p[0] != 0 { StrLenStops(p[1..]); }
  }

  lemma {:induction false} FirstMatch(gens: seq<Gen>, i: nat, pat: seq<byte>)
    requires FirstHit(gens, pat, i)
    ensures FindRegex(gens, pat) == Some(gens[i].gen)
  {
    if i > 0 {
      assert !MatchesRegex(gens[0], pat);
      assert forall j :: 0 <= j < i - 1 ==> gens[1..][j] == gens[j + 1];
      FirstMatch(gens[1..], i - 1, pat);
    }
  }

  /* ---- The cache over a whole run ---- */

  lemma ServeKeepsCache(eng: Engine, s: Srv, op: nat, payload: Payload)
    requires CacheOk(s)
    ensures CacheOk(Serve(eng, s, op, payload).srv)
  {
    hide CacheOk, ServeDraw, ServeCreate, ServeHandle, ServeTerminal;
    if IsDraw(op) {
      DrawKeepsCache(eng, s, op, payload);
    } else if IsCreate(op) {
      CreatesKeepCache(eng, s, op, payload);
    } else if HandleKind(op) != HFree {
      HandleKeepsCache(eng, s, op, Rd(payload, false));
    } else {
      CacheUntouched(s, Serve(eng, s, op, payload).srv);
    }
  }

  lemma DrawKeepsCache(eng: Engine, s: Srv, op: nat, payload: Payload)
    requires CacheOk(s) && IsDraw(op)
    ensures CacheOk(ServeDraw(eng, s, op, payload).srv)
  {
    hide CacheOk, DoPlain, DoString, TextGenFor, RegexGenFor;
    var (a, r1) := Get(Rd(payload, false), 8);
    var (b, r2) := Get(r1, 8);
    if op == DRAW_TEXT {
      TextGenExact(eng, s, FromLE(a), FromLE(b));
      StringKeepsCache(eng, TextGenFor(eng, s, FromLE(a), FromLE(b)));
    } else if op == DRAW_REGEX {
      RegexGenKeepsCache(eng, s, payload);
      StringKeepsCache(eng, RegexGenFor(eng, s, payload));
    } else {
      forall args ensures CacheOk(DoPlain(eng, s, op, args).srv) { PlainKeepsCache(eng, s, op, args); }
    }
  }

  lemma CreatesKeepCache(eng: Engine, s: Srv, op: nat, payload: Payload)
    requires CacheOk(s) && IsCreate(op)
    ensures CacheOk(ServeCreate(eng, s, op, payload).srv)
  {
    hide CacheOk, DoCreate;
    forall kind, args ensures CacheOk(DoCreate(eng, s, kind, args).srv) { CreateKeepsCache(eng, s, kind, args); }
  }

  lemma HandleKeepsCache(eng: Engine, s: Srv, op: nat, r: Rd)
    requires CacheOk(s) && HandleKind(op) != HFree
    ensures CacheOk(ServeHandle(eng, s, op, r).srv)
  {
    hide CacheOk, DoUse, DoFree, Checked, StaleHandle;
    forall r, bad ensures Checked(r, bad).srv == r.srv { CheckedSrv(r, bad); }
    forall kind, obj, args ensures CacheOk(DoUse(eng, s, kind, obj, op, args).srv) { UseKeepsCache(eng, s, kind, obj, op, args); }
    forall id | 0 <= id < |s.handles| && s.handles[id].kind != HFree ensures CacheOk(DoFree(s, id)) { FreeKeepsCache(s, id); }
  }

  lemma CheckedSrv(r: Reply, bad: bool)
    ensures Checked(r, bad).srv == r.srv
  {
  }

  lemma UseKeepsCache(eng: Engine, s: Srv, kind: HKind, obj: Obj, op: nat, args: seq<byte>)
    requires CacheOk(s)
    ensures CacheOk(DoUse(eng, s, kind, obj, op, args).srv)
  {
    CacheUntouched(s, DoUse(eng, s, kind, obj, op, args).srv);
  }

  lemma FreeKeepsCache(s: Srv, id: int)
    requires CacheOk(s) && 0 <= id < |s.handles| && s.handles[id].kind != HFree
    ensures CacheOk(DoFree(s, id))
  {
    CacheUntouched(s, DoFree(s, id));
  }

  lemma CreateKeepsCache(eng: Engine, s: Srv, kind: HKind, args: seq<byte>)
    requires CacheOk(s)
    ensures CacheOk(DoCreate(eng, s, kind, args).srv)
  {
    CacheUntouched(s, DoCreate(eng, s, kind, args).srv);
  }

  lemma PlainKeepsCache(eng: Engine, s: Srv, op: nat, args: seq<byte>)
    requires CacheOk(s)
    ensures CacheOk(DoPlain(eng, s, op, args).srv)
  {
    CacheUntouched(s, DoPlain(eng, s, op, args).srv);
  }

  lemma StringKeepsCache(eng: Engine, g: GenReply)
    requires CacheOk(g.srv)
    ensures CacheOk(DoString(eng, g).srv)
  {
    if g.rc == OK { CacheUntouched(g.srv, DoString(eng, g).srv); }
  }

  lemma {:induction false} RequestsKeepCache(eng: Engine, s: Srv, rs: seq<Request>)
    requires CacheOk(s)
    ensures CacheOk(Requests(eng, s, rs))
    decreases |rs|
  {
    if rs != [] {
      ServeKeepsCache(eng, s, rs[0].op, rs[0].payload);
      RequestsKeepCache(eng, Serve(eng, s, rs[0].op, rs[0].payload).srv, rs[1..]);
    }
  }

  lemma {:induction false} CaseFreeKeepsCache(s: Srv, i: nat)
    requires CacheOk(s) && i <= |s.handles|
    ensures CacheOk(CaseFree(s, i))
    decreases |s.handles| - i
  {
    if i < |s.handles| {
      if s.handles[i].kind != HFree {
        CacheUntouched(s, DoFree(s, i));
        CaseFreeKeepsCache(DoFree(s, i), i + 1);
      } else {
        CaseFreeKeepsCache(s, i + 1);
      }
    }
  }

  lemma {:induction false} CasesKeepCache(eng: Engine, s: Srv, cases: seq<CaseBody>)
    requires CacheOk(s)
    ensures CacheOk(RunCases(eng, s, cases))
    decreases |cases|
  {
    if cases != [] {
      var s0 := NewCase(s, cases[0].capture);
      CacheUntouched(s, s0);
      RequestsKeepCache(eng, s0, cases[0].requests);
      CaseFreeKeepsCache(Requests(eng, s0, cases[0].requests), 0);
      CasesKeepCache(eng, RunCase(eng, s, cases[0]), cases[1..]);
    }
  }

  /* ---- Runs whose regex requests come from hegel_draw_regex ---- */

  /** hegel_draw_regex sends the pattern's strlen bytes. */
  function DrawRegex(pattern: Payload): (r: Request)
    ensures r.op == DRAW_REGEX && 0 !in r.payload && r.payload <= pattern
  {
    Request(DRAW_REGEX, pattern[..StrLen(pattern)])
  }

  /** No regex request carries a NUL. */
  predicate CleanRequests(rs: seq<Request>) { forall r <- rs :: r.op == DRAW_REGEX ==> 0 !in r.payload }

  predicate CleanCases(cases: seq<CaseBody>) { forall c <- cases :: CleanRequests(c.requests) }

  lemma ServeKeepsNulFree(eng: Engine, s: Srv, op: nat, payload: Payload)
    requires CacheOk(s) && NulFree(s.gens) && (op == DRAW_REGEX ==> 0 !in payload)
    ensures NulFree(Serve(eng, s, op, payload).srv.gens)
  {
    hide CacheOk, NulFree, ServeDraw, ServeCreate, ServeHandle;
    if IsDraw(op) {
      DrawKeepsNulFree(eng, s, op, payload);
    } else if IsCreate(op) {
      CreateKeepsGens(eng, s, op, payload);
    } else if HandleKind(op) != HFree {
      HandleKeepsGens(eng, s, op, Rd(payload, false));
    }
  }

  lemma DrawKeepsNulFree(eng: Engine, s: Srv, op: nat, payload: Payload)
    requires CacheOk(s) && NulFree(s.gens) && IsDraw(op) && (op == DRAW_REGEX ==> 0 !in payload)
    ensures NulFree(ServeDraw(eng, s, op, payload).srv.gens)
  {
    hide CacheOk, RegexGenFor, TextGenFor;
    var (a, r1) := Get(Rd(payload, false), 8);
    var (b, r2) := Get(r1, 8);
    if op == DRAW_REGEX {
      RegexGenKeepsCache(eng, s, payload);
    } else if op == DRAW_TEXT {
      TextKeepsNulFree(eng, s, FromLE(a), FromLE(b));
    }
  }

  lemma TextKeepsNulFree(eng: Engine, s: Srv, min: nat, max: nat)
    requires NulFree(s.gens)
    ensures NulFree(TextGenFor(eng, s, min, max).srv.gens)
  {
  }

  lemma CreateKeepsGens(eng: Engine, s: Srv, op: nat, payload: Payload)
    requires IsCreate(op)
    ensures ServeCreate(eng, s, op, payload).srv.gens == s.gens
  {
    hide Unpack;
  }

  lemma HandleKeepsGens(eng: Engine, s: Srv, op: nat, r: Rd)
    requires HandleKind(op) != HFree
    ensures ServeHandle(eng, s, op, r).srv.gens == s.gens
  {
  }

  lemma {:induction false} RequestsKeepNulFree(eng: Engine, s: Srv, rs: seq<Request>)
    requires CacheOk(s) && NulFree(s.gens) && CleanRequests(rs)
    ensures NulFree(Requests(eng, s, rs).gens)
    decreases |rs|
  {
    hide CacheOk, Serve, NulFree;
    if rs != [] {
      ServeKeepsCache(eng, s, rs[0].op, rs[0].payload);
      ServeKeepsNulFree(eng, s, rs[0].op, rs[0].payload);
      RequestsKeepNulFree(eng, Serve(eng, s, rs[0].op, rs[0].payload).srv, rs[1..]);
    }
  }

  lemma {:induction false} CaseFreeKeepsGens(s: Srv, i: nat)
    requires i <= |s.handles|
    ensures CaseFree(s, i).gens == s.gens
    decreases |s.handles| - i
  {
    if i < |s.handles| { CaseFreeKeepsGens(if s.handles[i].kind != HFree then DoFree(s, i) else s, i + 1); }
  }

  lemma {:induction false} CasesKeepNulFree(eng: Engine, s: Srv, cases: seq<CaseBody>)
    requires CacheOk(s) && NulFree(s.gens) && CleanCases(cases)
    ensures NulFree(RunCases(eng, s, cases).gens)
    decreases |cases|
  {
    if cases != [] {
      var s0 := NewCase(s, cases[0].capture);
      CacheUntouched(s, s0);
      RequestsKeepNulFree(eng, s0, cases[0].requests);
      CaseFreeKeepsGens(Requests(eng, s0, cases[0].requests), 0);
      CasesKeepCache(eng, s, [cases[0]]);
      assert RunCases(eng, s, [cases[0]]) == RunCase(eng, s, cases[0]) by { assert [cases[0]][1..] == []; }
      CasesKeepNulFree(eng, RunCase(eng, s, cases[0]), cases[1..]);
    }
  }

  /**
    Over a whole run in which no regex request carries a NUL, as none from hegel_draw_regex
    does: at any point of any case the next regex request that is served draws from a generator
    the engine built for exactly its pattern.
   */
  lemma EveryRegexExact(eng: Engine, cases: seq<CaseBody>, capture: bool, before: seq<Request>, pattern: Payload)
    requires CleanCases(cases) && CleanRequests(before)
    ensures var s := Requests(eng, NewCase(RunCases(eng, FreshSrv(), cases), capture), before);
      var pat := DrawRegex(pattern).payload;
      var g := RegexGenFor(eng, s, pat);
      var t := Serve(eng, s, DRAW_REGEX, pat).srv;
      g.rc == OK ==> t.log == g.srv.log + [Event(DrawString(g.gen), t.log[|t.log|-1].rc)] && MadeRegex(t.log, g.gen, pat)
  {
    var s0 := RunCases(eng, FreshSrv(), cases);
    CasesKeepCache(eng, FreshSrv(), cases);
    CasesKeepNulFree(eng, FreshSrv(), cases);
    var s1 := NewCase(s0, capture);
    CacheUntouched(s0, s1);
    RequestsKeepCache(eng, s1, before);
    RequestsKeepNulFree(eng, s1, before);
    RegexServed(eng, Requests(eng, s1, before), DrawRegex(pattern).payload);
  }

  lemma RegexServed(eng: Engine, s: Srv, pat: Payload)
    requires CacheOk(s) && NulFree(s.gens)
    ensures var g := RegexGenFor(eng, s, pat);
      var t := Serve(eng, s, DRAW_REGEX, pat).srv;
      g.rc == OK ==> t.log == g.srv.log + [Event(DrawString(g.gen), t.log[|t.log|-1].rc)] && MadeRegex(t.log, g.gen, pat)
  {
    assert HitNulFree(s.gens, pat);
    RegexGenExact(eng, s, pat);
    hide CacheOk, RegexGenFor;
  }

  function FreeGens(log: seq<Event>, gens: seq<Gen>): seq<Event>
    decreases |gens|
  {
    if gens == [] then log else FreeGens(log + [Event(FreeGen(gens[0].gen), OK)], gens[1..])
  }

  /** hegel__srv_run_end: the cached generators, then the alphabet. */
  function RunEnd(s: Srv): seq<Event> {
    var log := FreeGens(s.log, s.gens);
    if s.noNul.Some? then log + [Event(FreeGen(s.noNul.value), OK)] else log
  }

  function GenFrees(log: seq<Event>, gen: Obj): nat {
    if log == [] then 0
    else GenFrees(log[..|log|-1], gen) + if log[|log|-1].call == FreeGen(gen) then 1 else 0
  }

  function Entries(gens: seq<Gen>, gen: Obj): nat {
    if gens == [] then 0 else Entries(gens[1..], gen) + if gens[0].gen == gen then 1 else 0
  }

  lemma GenFreesPush(log: seq<Event>, e: Event, gen: Obj)
    ensures GenFrees(log + [e], gen) == GenFrees(log, gen) + if e.call == FreeGen(gen) then 1 else 0
  {
    assert (log + [e])[..|log|] == log;
  }

  lemma {:induction false} FreeGensCounts(log: seq<Event>, gens: seq<Gen>, gen: Obj)
    ensures GenFrees(FreeGens(log, gens), gen) == GenFrees(log, gen) + Entries(gens, gen)
    decreases |gens|
  {
    if gens != [] {
      var e := Event(FreeGen(gens[0].gen), OK);
      GenFreesPush(log, e, gen);
      FreeGensCounts(log + [e], gens[1..], gen);
    }
  }

  lemma {:induction false} NoGenFrees(log: seq<Event>, gen: Obj)
    requires forall k :: 0 <= k < |log| ==> !log[k].call.FreeGen?
    ensures GenFrees(log, gen) == 0
  {
    if log != [] { NoGenFrees(log[..|log|-1], gen); }
  }

  lemma {:induction false} EntriesOf(gens: seq<Gen>, gen: Obj)
    requires forall i, j :: 0 <= i < j < |gens| ==> gens[i].gen != gens[j].gen
    ensures Entries(gens, gen) == if exists i :: 0 <= i < |gens| && gens[i].gen == gen then 1 else 0
  {
    if gens != [] {
      EntriesOf(gens[1..], gen);
      if gens[0].gen == gen {
        assert forall i :: 0 <= i < |gens[1..]| ==> gens[1..][i].gen != gen;
      } else if exists i :: 0 <= i < |gens| && gens[i].gen == gen {
        var i :| 0 <= i < |gens| && gens[i].gen == gen;
        assert gens[1..][i-1].gen == gen;
      } else {
        assert forall i :: 0 <= i < |gens[1..]| ==> gens[1..][i] == gens[i+1];
      }
    }
  }

  /** Over a whole run of any cases: each generator the engine built is freed exactly once,
      at the end of the run. */
  lemma EveryGeneratorFreedOnce(eng: Engine, cases: seq<CaseBody>, gen: Obj)
    ensures var s := RunCases(eng, FreshSrv(), cases);
      Made(s.log, gen) ==> GenFrees(s.log, gen) == 0 && GenFrees(RunEnd(s), gen) == 1
  {
    var s := RunCases(eng, FreshSrv(), cases);
    CasesKeepCache(eng, FreshSrv(), cases);
    if Made(s.log, gen) {
      NoGenFrees(s.log, gen);
      FreeGensCounts(s.log, s.gens, gen);
      EntriesOf(s.gens, gen);
      assert Cached(s, gen);
      if s.noNul.Some? { GenFreesPush(FreeGens(s.log, s.gens), Event(FreeGen(s.noNul.value), OK), gen); }
    }
  }
}
