/** A whole request (`run` and `try_fatal` in `dispatch/mod.rs`): passes over freshly
    built plans, the exhaustion hook between them, the last-resort pass, and the
    response made of the failures. Proxy health may change arbitrarily between two
    looks at it; attempts, schedules and hook verdicts are arbitrary. */
module Run {
  import opened Prelude
  import opened Wire
  import opened Attempt
  import opened Dispatch
  import opened Plan
  import PlanLaws
  import Health

  datatype ExhaustedVerdict = TryFatal | WaitProbe | RetryAll | ReturnError(status: nat, text: string)

  /** The pool as one look at it finds it. */
  datatype World = World(snap: seq<Health.EntryView>, now: nat)

  datatype FallbackReply = NoAnswer | Replied(status: nat, html: bool, body: seq<Piece>)

  /** Everything the request does not decide itself: `out(r)(i)` ends the attempt on place
      `i` of round `r`, `fallback(j)` the last-resort attempt number `j`. */
  datatype Script = Script(
    worlds: nat -> World, lastWorld: World, hash: nat, rnd: nat -> (nat -> nat),
    out: nat -> (nat -> AttemptResult), sched: nat -> seq<Event>,
    verdict: nat -> ExhaustedVerdict, fallback: nat -> FallbackReply)

  /** A planned attempt that was started. */
  datatype Made = Made(round: nat, place: nat, url: string)

  datatype Answer =
    | FromAttempt(round: nat, place: nat, ok: AttemptOk)
    | FromFallback(url: string, status: nat, body: seq<Piece>)
    | FromHook(status: nat, text: string)
    | MostCommon(response: FailedResponse)
    | BadGateway
    | StillRacing

  // ---- The most common failure ----

  function CountStatus(s: seq<FailedResponse>, status: nat): nat {
    if s == [] then 0
    else CountStatus(s[..|s| - 1], status) + (if s[|s| - 1].status == status then 1 else 0)
  }

  /** `r` is the first failure carrying a status that occurs most often. */
  ghost predicate IsMostCommon(s: seq<FailedResponse>, r: FailedResponse) {
    && (exists i :: 0 <= i < |s| && s[i] == r && forall j :: 0 <= j < i ==> s[j].status != r.status)
    && forall f :: f in s ==> CountStatus(s, f.status) <= CountStatus(s, r.status)
  }

  lemma {:induction false} MaxExists(m: map<nat, nat>)
    requires m.Keys != {}
    ensures exists k :: k in m && forall l :: l in m ==> m[l] <= m[k]
  {
    var k := MaxAmong(m, m.Keys);
  }

  lemma {:induction false} MaxAmong(m: map<nat, nat>, keys: set<nat>) returns (k: nat)
    requires keys != {} && keys <= m.Keys
    ensures k in keys && forall l :: l in keys ==> m[l] <= m[k]
    decreases keys
  {
    k :| k in keys;
    if keys != {k} {
      var j := MaxAmong(m, keys - {k});
      if m[j] > m[k] { k := j; }
    }
  }

  lemma {:induction false} CountPositive(s: seq<FailedResponse>, status: nat)
    ensures CountStatus(s, status) > 0 <==> exists i :: 0 <= i < |s| && s[i].status == status
  {
    if s != [] {
      var front, last := s[..|s| - 1], s[|s| - 1];
      CountPositive(front, status);
      if CountStatus(front, status) > 0 {
        var i :| 0 <= i < |front| && front[i].status == status;
        assert s[i].status == status;
      }
      if i :| 0 <= i < |s| && s[i].status == status {
        if i < |front| { assert front[i].status == status; }
      }
    }
  }

  method CountStatuses(failures: seq<FailedResponse>) returns (counts: map<nat, nat>)
    ensures forall s: nat :: s in counts <==> CountStatus(failures, s) > 0
    ensures forall s: nat :: s in counts ==> counts[s] == CountStatus(failures, s)
  {
    counts := map[];
    for i := 0 to |failures|
      invariant forall s: nat :: s in counts <==> CountStatus(failures[..i], s) > 0
      invariant forall s: nat :: s in counts ==> counts[s] == CountStatus(failures[..i], s)
    {
      assert failures[..i + 1][..i] == failures[..i];
      var s := failures[i].status;
      counts := counts[s := if s in counts then counts[s] + 1 else 1];
    }
    assert failures[..|failures|] == failures;
  }

  /** Counts statuses, takes one that occurs most (any one, on a tie), and its first response. */
  method BuildMostCommon(failures: seq<FailedResponse>) returns (r: Option<FailedResponse>)
    ensures r.None? <==> failures == []
    ensures r.Some? ==> IsMostCommon(failures, r.value)
  {
    hide CountStatus;
    if failures == [] { return None; }
    var counts := CountStatuses(failures);
    CountPositive(failures, failures[0].status);
    MaxExists(counts);
    var best :| best in counts && forall l :: l in counts ==> counts[l] <= counts[best];
    CountPositive(failures, best);
    var i := 0;
    while failures[i].status != best
      invariant 0 <= i < |failures| && forall j :: 0 <= j < i ==> failures[j].status != best
      invariant exists j :: i <= j < |failures| && failures[j].status == best
      decreases |failures| - i
    {
      i := i + 1;
    }
    r := Some(failures[i]);
    forall f | f in failures ensures CountStatus(failures, f.status) <= CountStatus(failures, best) {
      CountPositive(failures, f.status);
      assert f.status in counts;
    }
  }

  // ---- The last-resort pass ----

  /** A reply the last-resort pass passes on instead of trying further. */
  predicate Accepted(r: FallbackReply) {
    r.Replied? && !(500 <= r.status <= 599) && r.status !in {429, 421, 403}
  }

  function KeptFrom(r: FallbackReply): seq<FailedResponse> {
    if r.Replied? && !Accepted(r) && !r.html then [FailedResponse(r.status, Cap(Payload(r.body), FAILED_BODY_CAP))]
    else []
  }

  function KeptFromAll(n: nat, replies: nat -> FallbackReply): seq<FailedResponse> {
    if n == 0 then [] else KeptFromAll(n - 1, replies) + KeptFrom(replies(n - 1))
  }

  function UrlsOf(s: seq<Candidate>): seq<string> { seq(|s|, i requires 0 <= i < |s| => s[i].url) }

  method TryFatalPass(cfg: RouteCfg, world: World, pool: Pool, tried: set<string>, failures0: seq<FailedResponse>,
          replies: nat -> FallbackReply)
    returns (answer: Option<Answer>, failures: seq<FailedResponse>, touched: seq<string>)
    ensures touched <= UrlsOf(FallbackOf(cfg, world.snap, pool, tried, world.now))
    ensures answer.None? ==> touched == UrlsOf(FallbackOf(cfg, world.snap, pool, tried, world.now))
    ensures answer.Some? ==>
              && touched != [] && Accepted(replies(|touched| - 1))
              && answer.value == FromFallback(touched[|touched| - 1], replies(|touched| - 1).status,
                   replies(|touched| - 1).body)
    ensures forall j :: 0 <= j < |touched| - (if answer.Some? then 1 else 0) ==> !Accepted(replies(j))
    ensures failures == failures0 + KeptFromAll(|touched| - (if answer.Some? then 1 else 0), replies)
  {
    hide FallbackOf, Payload, Cap;
    var fb := FallbackPool(cfg, world.snap, pool, tried, world.now);
    ghost var all := UrlsOf(fb);
    failures, touched, answer := failures0, [], None;
    for i := 0 to |fb|
      invariant touched == all[..i]
      invariant failures == failures0 + KeptFromAll(i, replies)
      invariant forall j :: 0 <= j < i ==> !Accepted(replies(j))
    {
      touched := touched + [fb[i].url];
      assert all[..i + 1] == all[..i] + [all[i]];
      match replies(i) {
        case NoAnswer => continue;
        case Replied(status, html, body) =>
          if (500 <= status <= 599) || status == 429 || status == 421 {
            if !html { var b := BufferFailed(body); failures := failures + [FailedResponse(status, b)]; }
            continue;
          }
          if status == 403 {
            if !html { var b := BufferFailed(body); failures := failures + [FailedResponse(status, b)]; }
            continue;
          }
          return Some(FromFallback(fb[i].url, status, body)), failures, touched;
      }
    }
  }

  // ---- Whole requests ----

  datatype PassEnd = PassWon(place: nat) | PassLost | PassRunning

  /** One pass over one plan: what it was given, the places it attempted and those that
      ended without an answer, each in order, and what it left. */
  datatype Pass = Pass(plan: seq<string>, cursor: nat, tried: set<string>, failures: seq<FailedResponse>,
                       places: seq<nat>, lost: seq<nat>, triedAfter: set<string>, failuresAfter: seq<FailedResponse>,
                               end: PassEnd)

  /** What a request has done so far. `sinceClear` lists the URLs attempted since the last
      `retry_all` (or the start), `fallback` those the last-resort pass tried. */
  datatype Trace = Trace(rounds: nat, attempts: seq<Made>, sinceClear: seq<string>, fallback: seq<string>,
                         failures: seq<FailedResponse>, passes: seq<Pass>)

  const NOTHING_YET := Trace(0, [], [], [], [], [])

  function MadeIn(round: nat, plan: seq<string>, places: seq<nat>): seq<Made>
    requires Within(places, |plan|)
  {
    seq(|places|, i requires 0 <= i < |places| => Made(round, places[i], plan[places[i]]))
  }

  /** What either kind of pass guarantees. */
  ghost predicate PassDone(hedged: bool, plan: seq<string>, tried0: set<string>, out: nat -> AttemptResult,
                           tried: set<string>, places: seq<nat>, end: PassEnd) {
    && |places| <= |plan| && Within(places, |plan|)
    && tried == tried0 + Elems(Urls(plan, places))
    && (hedged ==> NoDup(Urls(plan, places)) && Elems(Urls(plan, places)) !! tried0)
    && (end.PassWon? ==> end.place in places && out(end.place).Answered?)
    && (end.PassLost? ==> AllNext(places, out))
    && (end.PassRunning? ==> hedged)
  }

  function EndOfRace(e: RaceEnd): PassEnd {
    match e
    case Won(i) => PassWon(i)
    case Lost => PassLost
    case Running => PassRunning
  }

  /** The pass is the one its kind makes of its plan: the race, or the walk. */
  ghost predicate PassIs(cfg: RouteCfg, out: nat -> AttemptResult, sched: seq<Event>, p: Pass) {
    && Within(p.places, |p.plan|)
    && p.triedAfter == p.tried + Elems(Urls(p.plan, p.places))
    && p.failuresAfter == p.failures + Bodies(p.lost, out)
    && if cfg.selector.Hedge? then
         var (v, end) := RaceRun(RaceSetup(p.plan, cfg.maxParallel, p.tried, p.failures, out), sched);
         p.places == v.launched && p.lost == v.lost && p.end == EndOfRace(end)
       else
         var winner := WinnerOf(p.places, out);
         && p.places == Walk(Places(|p.plan|), out)
         && p.end == (if winner.Some? then PassWon(winner.value) else PassLost)
         && p.lost == if winner.Some? then p.places[..|p.places| - 1] else p.places
  }

  lemma {:induction false} RaceIsPass(cfg: RouteCfg, g: RaceSetup, sched: seq<Event>)
    requires cfg.selector.Hedge? && g.maxPar == cfg.maxParallel
    ensures var (v, e) := RaceRun(g, sched);
            && PassDone(true, g.plan, g.tried, g.out, v.tried, v.launched, EndOfRace(e))
            && Within(v.launched, |g.plan|) && v.tried == g.tried + Elems(Urls(g.plan, v.launched))
            && v.failures == g.failures + Bodies(v.lost, g.out)
  {
    hide RaceRun, Bodies, Urls;
    RaceIsSafe(g, sched);
    FreshFacts(g.plan, |g.plan|, g.tried);
    var (v, e) := RaceRun(g, sched);
    if e.Won? { assert e.i in Elems(v.launched); }
    if e.Lost? {
      forall i: nat | i in v.launched ensures g.out(i).Next? { assert i in Elems(v.launched); }
    }
  }

  method HedgedPass(cfg: RouteCfg, plan: seq<string>, cursor: nat, tried0: set<string>, failures0: seq<FailedResponse>,
          out: nat -> AttemptResult, sched: seq<Event>)
    returns (p: Pass)
    requires cfg.selector.Hedge?
    ensures PassDone(true, plan, tried0, out, p.triedAfter, p.places, p.end) && PassIs(cfg, out, sched, p)
    ensures p.plan == plan && p.cursor == cursor && p.tried == tried0 && p.failures == failures0
  {
    hide RaceRun, PassDone, Within, Bodies, Urls;
    var v, e := DispatchHedged(plan, cfg.maxParallel, tried0, failures0, out, sched);
    RaceIsPass(cfg, RaceSetup(plan, cfg.maxParallel, tried0, failures0, out), sched);
    p := Pass(plan, cursor, tried0, failures0, v.launched, v.lost, v.tried, v.failures, EndOfRace(e));
  }

  method SequentialPass(cfg: RouteCfg, plan: seq<string>, cursor: nat, tried0: set<string>,
          failures0: seq<FailedResponse>, out: nat -> AttemptResult, sched: seq<Event>)
    returns (p: Pass)
    requires !cfg.selector.Hedge?
    ensures PassDone(false, plan, tried0, out, p.triedAfter, p.places, p.end) && PassIs(cfg, out, sched, p)
    ensures p.plan == plan && p.cursor == cursor && p.tried == tried0 && p.failures == failures0
  {
    hide Within, Urls, Walk, RaceRun, Bodies, Elems, NoDup;
    var tried, failures, places, winner := DispatchSequential(plan, tried0, failures0, out);
    WalkFacts(Places(|plan|), out);
    PlacesFacts(|plan|);
    var lost := if winner.Some? then places[..|places| - 1] else places;
    if winner.Some? {
      assert places == lost + [winner.value] && out(winner.value).Answered?;
      hide WinnerOf;
      BodiesStep(lost, winner.value, out);
      assert Bodies(lost, out) + [] == Bodies(lost, out);
    }
    hide WinnerOf, Places;
    p := Pass(plan, cursor, tried0, failures0, places, lost, tried, failures,
              if winner.Some? then PassWon(winner.value) else PassLost);
  }

  method RunPass(cfg: RouteCfg, plan: seq<string>, cursor: nat, tried0: set<string>, failures0: seq<FailedResponse>,
          out: nat -> AttemptResult, sched: seq<Event>)
    returns (p: Pass)
    ensures PassDone(cfg.selector.Hedge?, plan, tried0, out, p.triedAfter, p.places, p.end)
    ensures PassIs(cfg, out, sched, p)
    ensures p.plan == plan && p.cursor == cursor && p.tried == tried0 && p.failures == failures0
  {
    hide PassDone, PassIs;
    if cfg.selector.Hedge? {
      p := HedgedPass(cfg, plan, cursor, tried0, failures0, out, sched);
    } else {
      p := SequentialPass(cfg, plan, cursor, tried0, failures0, out, sched);
    }
  }

  function UrlsMade(made: seq<Made>): seq<string> { seq(|made|, i requires 0 <= i < |made| => made[i].url) }

  lemma {:induction false} UrlsOfMadeIn(round: nat, plan: seq<string>, places: seq<nat>)
    requires Within(places, |plan|)
    ensures UrlsMade(MadeIn(round, plan, places)) == Urls(plan, places)
  {
    if places != [] {
      var front := places[..|places| - 1];
      UrlsOfMadeIn(round, plan, front);
      assert MadeIn(round, plan, places)
        == MadeIn(round, plan, front) + [Made(round, places[|places| - 1], plan[places[|places| - 1]])];
    }
  }

  /** The plan of a round: the live eligible proxies of that moment, behind the forced
      proxy, if there is one and the pool knows it, in the first round only. */
  ghost predicate IsPlan(cfg: RouteCfg, pool: Pool, world: World, forced: Option<string>, plan: seq<string>) {
    && |plan| <= cfg.maxAttempts + (if forced.Some? then 1 else 0)
    && forall i :: 0 <= i < |plan| ==>
         (i == 0 && forced == Some(plan[i])) || HasUrl(Live(cfg, world.snap, pool, world.now), plan[i])
  }

  ghost predicate HasUrl(s: seq<Candidate>, url: string) { exists c :: c in s && c.url == url }

  /** Every attempt went to a proxy that was live and eligible when its round was planned, or to the forced one. */
  ghost predicate Sourced(cfg: RouteCfg, pool: Pool, s: Script, forced: Option<string>, attempts: seq<Made>) {
    forall m :: m in attempts ==>
      || (m.round == 0 && m.place == 0 && forced == Some(m.url))
      || exists c :: c in Live(cfg, s.worlds(m.round).snap, pool, s.worlds(m.round).now) && c.url == m.url
  }

  /** The first round after the last `retry_all` among the first `rounds` verdicts. */
  function ClearedAt(verdict: nat -> ExhaustedVerdict, rounds: nat): (c: nat)
    ensures c <= rounds
  {
    if rounds == 0 then 0 else if verdict(rounds - 1).RetryAll? then rounds else ClearedAt(verdict, rounds - 1)
  }

  /** `sinceClear` lists the URLs of exactly the attempts from round `c` on; a hedged route
      never repeats a URL in it. */
  ghost predicate Remembered(cfg: RouteCfg, t: Trace, c: nat) {
    && |t.sinceClear| <= |t.attempts| && (c == 0 ==> |t.sinceClear| == |t.attempts|)
    && t.sinceClear == UrlsMade(t.attempts)[|t.attempts| - |t.sinceClear|..]
    && (forall i :: 0 <= i < |t.attempts| ==> (t.attempts[i].round >= c <==> i >= |t.attempts| - |t.sinceClear|))
    && (cfg.selector.Hedge? ==> NoDup(t.sinceClear))
  }

  ghost predicate AllFailed(s: Script, attempts: seq<Made>) {
    forall m :: m in attempts ==> s.out(m.round)(m.place).Next?
  }

  /** The state between two rounds. */
  ghost predicate Between(cfg: RouteCfg, pool: Pool, s: Script, forced: Option<string>, t: Trace, tried: set<string>) {
    && |t.attempts| <= t.rounds * cfg.maxAttempts + (if forced.Some? then 1 else 0)
    && (t.rounds == 0 ==> t.attempts == [])
    && Sourced(cfg, pool, s, forced, t.attempts) && Remembered(cfg, t, ClearedAt(s.verdict, t.rounds))
    && AllFailed(s, t.attempts)
    && (forall m :: m in t.attempts ==> m.round < t.rounds)
    && tried == Elems(t.sinceClear) && t.fallback == []
  }

  function Grown(t: Trace, p: Pass): Trace
    requires Within(p.places, |p.plan|)
  {
    t.(rounds := t.rounds + 1, attempts := t.attempts + MadeIn(t.rounds, p.plan, p.places),
       sinceClear := t.sinceClear + Urls(p.plan, p.places), failures := p.failuresAfter, passes := t.passes + [p])
  }

  lemma {:induction false} GrownRemembers(cfg: RouteCfg, t: Trace, p: Pass, c: nat)
    requires c <= t.rounds && Remembered(cfg, t, c) && Within(p.places, |p.plan|)
    requires cfg.selector.Hedge? ==>
               NoDup(Urls(p.plan, p.places)) && Elems(Urls(p.plan, p.places)) !! Elems(t.sinceClear)
    ensures Remembered(cfg, Grown(t, p), c)
    ensures Elems(t.sinceClear + Urls(p.plan, p.places)) == Elems(t.sinceClear) + Elems(Urls(p.plan, p.places))
  {
    UrlsOfMadeIn(t.rounds, p.plan, p.places);
    var made := MadeIn(t.rounds, p.plan, p.places);
    assert UrlsMade(t.attempts + made) == UrlsMade(t.attempts) + Urls(p.plan, p.places);
    if cfg.selector.Hedge? { AppendNoDup(t.sinceClear, Urls(p.plan, p.places)); }
  }

  lemma {:induction false} AppendNoDup(a: seq<string>, b: seq<string>)
    requires NoDup(a) && NoDup(b) && Elems(a) !! Elems(b)
    ensures NoDup(a + b)
  {
    forall i, j | 0 <= i < j < |a + b| ensures (a + b)[i] != (a + b)[j] {
      if i < |a| <= j { assert a[i] in Elems(a) && b[j - |a|] in Elems(b); }
    }
  }

  /** What a round adds to the record of attempts. */
  lemma {:induction false} MadeFacts(cfg: RouteCfg, pool: Pool, s: Script, forced: Option<string>, round: nat,
          plan: seq<string>, places: seq<nat>, end: PassEnd)
    requires Within(places, |plan|)
    requires IsPlan(cfg, pool, s.worlds(round), if round == 0 then forced else None, plan)
    requires (end.PassWon? ==> end.place in places) && (end.PassLost? ==> AllNext(places, s.out(round)))
    ensures var made := MadeIn(round, plan, places);
            && |made| == |places|
            && Sourced(cfg, pool, s, forced, made)
            && (forall m :: m in made ==> m.round == round)
            && (end.PassLost? ==> AllFailed(s, made))
            && (end.PassWon? ==> exists m :: m in made && m.place == end.place)
  {
    hide Live;
    var made := MadeIn(round, plan, places);
    forall m | m in made
      ensures m.round == round && m.place in places
      ensures (m.round == 0 && m.place == 0 && forced == Some(m.url))
              || exists c :: c in Live(cfg, s.worlds(round).snap, pool, s.worlds(round).now) && c.url == m.url
    {
      var i :| 0 <= i < |made| && made[i] == m;
      assert plan[places[i]] == m.url;
    }
    if end.PassWon? {
      var i :| 0 <= i < |places| && places[i] == end.place;
      assert made[i] in made;
    }
  }

  lemma SourcedJoin(cfg: RouteCfg, pool: Pool, s: Script, forced: Option<string>, a: seq<Made>, b: seq<Made>)
    requires Sourced(cfg, pool, s, forced, a) && Sourced(cfg, pool, s, forced, b)
    ensures Sourced(cfg, pool, s, forced, a + b)
    ensures AllFailed(s, a) && AllFailed(s, b) ==> AllFailed(s, a + b)
  {
  }

  lemma {:induction false} RoundBound(cfg: RouteCfg, pool: Pool, s: Script, forced: Option<string>, t: Trace,
          plan: seq<string>)
    requires |t.attempts| <= t.rounds * cfg.maxAttempts + (if forced.Some? then 1 else 0)
    requires t.rounds == 0 ==> t.attempts == []
    requires IsPlan(cfg, pool, s.worlds(t.rounds), if t.rounds == 0 then forced else None, plan)
    ensures |t.attempts| + |plan| <= (t.rounds + 1) * cfg.maxAttempts + (if forced.Some? then 1 else 0)
  {
    assert (t.rounds + 1) * cfg.maxAttempts == t.rounds * cfg.maxAttempts + cfg.maxAttempts;
  }

  /** The state after the pass of a round, before its verdict. */
  ghost predicate AfterPass(cfg: RouteCfg, pool: Pool, s: Script, forced: Option<string>, u: Trace, tried: set<string>,
          end: PassEnd) {
    && u.rounds > 0 && |u.attempts| <= u.rounds * cfg.maxAttempts + (if forced.Some? then 1 else 0)
    && Sourced(cfg, pool, s, forced, u.attempts)
    && Remembered(cfg, u, ClearedAt(s.verdict, u.rounds - 1))
    && tried == Elems(u.sinceClear) && u.fallback == []
    && (forall m :: m in u.attempts ==> m.round < u.rounds)
    && (forall m :: m in u.attempts ==> m.round < u.rounds - 1 ==> s.out(m.round)(m.place).Next?)
    && (end.PassLost? ==> AllFailed(s, u.attempts))
    && (end.PassRunning? ==> cfg.selector.Hedge?)
    && (end.PassWon? ==> s.out(u.rounds - 1)(end.place).Answered?
                         && exists m :: m in u.attempts && m.round == u.rounds - 1 && m.place == end.place)
  }

  /** A round leaves a request as a round should. */
  lemma {:induction false} RoundGrows(cfg: RouteCfg, pool: Pool, s: Script, forced: Option<string>, t: Trace,
          tried: set<string>, p: Pass)
    requires Between(cfg, pool, s, forced, t, tried)
    requires IsPlan(cfg, pool, s.worlds(t.rounds), if t.rounds == 0 then forced else None, p.plan)
    requires PassDone(cfg.selector.Hedge?, p.plan, tried, s.out(t.rounds), p.triedAfter, p.places, p.end)
    ensures Within(p.places, |p.plan|) && AfterPass(cfg, pool, s, forced, Grown(t, p), p.triedAfter, p.end)
  {
    hide Remembered, Sourced, ClearedAt, Live, IsPlan, Elems, NoDup, Urls, Within;
    var made := MadeIn(t.rounds, p.plan, p.places);
    GrownRemembers(cfg, t, p, ClearedAt(s.verdict, t.rounds));
    RoundBound(cfg, pool, s, forced, t, p.plan);
    MadeFacts(cfg, pool, s, forced, t.rounds, p.plan, p.places, p.end);
    SourcedJoin(cfg, pool, s, forced, t.attempts, made);
    if p.end.PassWon? {
      var m :| m in made && m.place == p.end.place;
      assert m in t.attempts + made;
    }
  }

  lemma {:induction false} StartsBetween(cfg: RouteCfg, pool: Pool, s: Script, forced: Option<string>)
    ensures Between(cfg, pool, s, forced, NOTHING_YET, {})
  {
    assert ClearedAt(s.verdict, 0) == 0;
    assert 0 * cfg.maxAttempts == 0 && Elems<string>([]) == {};
    hide Sourced, AllFailed, Remembered, ClearedAt, Elems;
    NothingSourced(cfg, pool, s, forced);
    NothingRemembered(cfg);
  }

  lemma NothingSourced(cfg: RouteCfg, pool: Pool, s: Script, forced: Option<string>)
    ensures Sourced(cfg, pool, s, forced, []) && AllFailed(s, [])
  {
  }

  lemma {:induction false} NothingRemembered(cfg: RouteCfg)
    ensures Remembered(cfg, NOTHING_YET, 0)
  {
    assert UrlsMade([])[0..] == [];
  }

  /** Waiting for probes keeps what was tried; `retry_all` forgets it. */
  lemma {:induction false} NextRoundBetween(cfg: RouteCfg, pool: Pool, s: Script, forced: Option<string>, u: Trace,
          tried: set<string>)
    requires AfterPass(cfg, pool, s, forced, u, tried, PassLost)
    ensures s.verdict(u.rounds - 1).WaitProbe? ==> Between(cfg, pool, s, forced, u, tried)
    ensures s.verdict(u.rounds - 1).RetryAll? ==> Between(cfg, pool, s, forced, u.(sinceClear := []), {})
  {
    hide Sourced, AllFailed;
    var w := u.(sinceClear := []);
    assert UrlsMade(w.attempts)[|w.attempts|..] == [];
    forall i | 0 <= i < |w.attempts| ensures w.attempts[i].round < u.rounds { assert w.attempts[i] in u.attempts; }
    assert Remembered(cfg, w, u.rounds);
  }

  /** `pool.find` and `build_plan` at the head of a round. */
  method PlanRound(route: Route, pool: Pool, world: World, forced: Option<string>, hash: nat, rnd: nat -> nat)
    returns (plan: seq<string>)
    requires forall k :: rnd(k) <= k
    modifies route`cursor
    ensures IsPlan(route.cfg, pool, world, forced, plan)
    ensures plan == (if forced.Some? && Known(world, forced.value) then [forced.value] else [])
                    + UrlsOf(PlanOf(route.cfg, Live(route.cfg, world.snap, pool, world.now), old(route.cursor), hash,
                      rnd))
    ensures route.cursor == old(route.cursor)
              + (if route.cfg.selector.RoundRobin? && |Live(route.cfg, world.snap, pool, world.now)| > 1 then 1 else 0)
  {
    hide PlanOf, Live, Eligible, UrlsOf, Known, IsPlan;
    var cands := BuildPlan(route, world.snap, pool, hash, rnd, world.now);
    PlanLaws.PlanIsLive(route.cfg, world.snap, pool, world.now, old(route.cursor), hash, rnd);
    forall c | c in cands ensures c in Live(route.cfg, world.snap, pool, world.now) { assert c in multiset(cands); }
    var urls := UrlsOf(cands);
    plan := if forced.Some? && Known(world, forced.value) then [forced.value] + urls else urls;
    assert [] + urls == urls;
    MakesPlan(route.cfg, pool, world, forced, cands);
  }

  lemma MakesPlan(cfg: RouteCfg, pool: Pool, world: World, forced: Option<string>, cands: seq<Candidate>)
    requires |cands| <= cfg.maxAttempts && forall c :: c in cands ==> c in Live(cfg, world.snap, pool, world.now)
    ensures IsPlan(cfg, pool, world, forced, UrlsOf(cands))
    ensures forced.Some? ==> IsPlan(cfg, pool, world, forced, [forced.value] + UrlsOf(cands))
  {
    UrlsAreFound(cands, Live(cfg, world.snap, pool, world.now));
  }

  lemma UrlsAreFound(cands: seq<Candidate>, live: seq<Candidate>)
    requires forall c :: c in cands ==> c in live
    ensures forall i :: 0 <= i < |cands| ==> HasUrl(live, UrlsOf(cands)[i])
  {
    forall i | 0 <= i < |cands| ensures HasUrl(live, UrlsOf(cands)[i]) {
      assert cands[i] in live && cands[i].url == UrlsOf(cands)[i];
    }
  }

  predicate Known(world: World, url: string) { exists e | e in world.snap :: e.url == url }

  /** Why a request without an answer stopped. */
  ghost predicate Stopped(cfg: RouteCfg, pool: Pool, maxHard: nat, s: Script, t: Trace)
    requires t.rounds > 0
  {
    || (s.verdict(t.rounds - 1).TryFatal?
        && t.fallback == UrlsOf(FallbackOf(cfg, s.lastWorld.snap, pool, Elems(t.sinceClear), s.lastWorld.now))
        && forall j :: 0 <= j < |t.fallback| ==> !Accepted(s.fallback(j)))
    || ((s.verdict(t.rounds - 1).WaitProbe? || s.verdict(t.rounds - 1).RetryAll?) && t.rounds >= maxHard
    && t.fallback == [])
  }

  /** The answer is what the script makes it. */
  ghost predicate AnswerIsDue(cfg: RouteCfg, pool: Pool, maxHard: nat, s: Script, answer: Answer, t: Trace)
    requires t.rounds > 0
  {
    var last := t.rounds - 1;
    match answer
    case FromAttempt(r, p, ok) =>
      && r == last && s.out(r)(p) == Answered(ok) && (exists m :: m in t.attempts && m.round == r && m.place == p)
      && (forall m :: m in t.attempts ==> m.round < last ==> s.out(m.round)(m.place).Next?) && t.fallback == []
    case FromFallback(url, status, body) =>
      && AllFailed(s, t.attempts) && s.verdict(last).TryFatal? && t.fallback != []
      && url == t.fallback[|t.fallback| - 1]
      && (var r := s.fallback(|t.fallback| - 1); r.Replied? && r.status == status && r.body == body)
      && (forall j :: 0 <= j < |t.fallback| ==> (Accepted(s.fallback(j)) <==> j == |t.fallback| - 1))
    case FromHook(status, text) =>
      && AllFailed(s, t.attempts) && s.verdict(last).ReturnError? && t.fallback == []
      && status == ValidStatus(s.verdict(last).status) && text == s.verdict(last).text
    case MostCommon(response) =>
      AllFailed(s, t.attempts) && IsMostCommon(t.failures, response) && Stopped(cfg, pool, maxHard, s, t)
    case BadGateway => AllFailed(s, t.attempts) && t.failures == [] && Stopped(cfg, pool, maxHard, s, t)
    case StillRacing => cfg.selector.Hedge? && t.fallback == []
  }

  /** What every request keeps to, for any hook verdicts, attempts, races and health. */
  ghost predicate GoodRequest(cfg: RouteCfg, pool: Pool, forced: Option<string>, maxHard: nat, s: Script,
          answer: Answer, t: Trace) {
    && 1 <= t.rounds <= Max(1, maxHard)
    && |t.attempts| <= t.rounds * cfg.maxAttempts + (if forced.Some? then 1 else 0)
    && Sourced(cfg, pool, s, forced, t.attempts)
    && Remembered(cfg, t, ClearedAt(s.verdict, t.rounds - 1))
    && t.fallback <= UrlsOf(FallbackOf(cfg, s.lastWorld.snap, pool, Elems(t.sinceClear), s.lastWorld.now))
    && (forall r: nat :: r < t.rounds - 1 ==> s.verdict(r).WaitProbe? || s.verdict(r).RetryAll?)
    && AnswerIsDue(cfg, pool, maxHard, s, answer, t)
  }

  // ---- What exactly a request does ----

  function PlanAt(cfg: RouteCfg, pool: Pool, s: Script, forced: Option<string>, r: nat, cursor: nat): seq<string>
    requires forall r, k :: s.rnd(r)(k) <= k
  {
    var world := s.worlds(r);
    (if r == 0 && forced.Some? && Known(world, forced.value) then [forced.value] else [])
    + UrlsOf(PlanOf(cfg, Live(cfg, world.snap, pool, world.now), cursor, s.hash, s.rnd(r)))
  }

  /** How far planning round `r` moves the cursor. */
  function Bump(cfg: RouteCfg, pool: Pool, s: Script, r: nat): nat {
    if cfg.selector.RoundRobin? && |Live(cfg, s.worlds(r).snap, pool, s.worlds(r).now)| > 1 then 1 else 0
  }

  /** The pass of round `r` over exactly its plan, from what the passes before it left. */
  ghost predicate PassFollows(cfg: RouteCfg, pool: Pool, s: Script, forced: Option<string>, c0: nat, before: seq<Pass>,
          p: Pass)
    requires forall r, k :: s.rnd(r)(k) <= k
  {
    var r := |before|;
    && PassIs(cfg, s.out(r), s.sched(r), p)
    && p.plan == PlanAt(cfg, pool, s, forced, r, p.cursor)
    && p.cursor == (if r == 0 then c0 else before[r - 1].cursor + Bump(cfg, pool, s, r - 1))
    && p.tried == (if r == 0 || s.verdict(r - 1).RetryAll? then {} else before[r - 1].triedAfter)
    && p.failures == (if r == 0 then [] else before[r - 1].failuresAfter)
    && (r > 0 ==> before[r - 1].end.PassLost?)
  }

  ghost predicate Replayed(cfg: RouteCfg, pool: Pool, s: Script, forced: Option<string>, c0: nat, passes: seq<Pass>)
    requires forall r, k :: s.rnd(r)(k) <= k
  {
    passes != [] ==>
      var last := |passes| - 1;
      Replayed(cfg, pool, s, forced, c0, passes[..last])
      && PassFollows(cfg, pool, s, forced, c0, passes[..last], passes[last])
  }

  /** The attempts of all passes, in order. */
  function AllMade(passes: seq<Pass>): seq<Made> {
    if passes == [] then []
    else
      var last := |passes| - 1;
      var p := passes[last];
      AllMade(passes[..last]) + (if Within(p.places, |p.plan|) then MadeIn(last, p.plan, p.places) else [])
  }

  /** The trace is the replay of its passes; `cursor` is where they left the route's. */
  ghost predicate OnTrack(cfg: RouteCfg, pool: Pool, s: Script, forced: Option<string>, c0: nat, t: Trace, cursor: nat)
    requires forall r, k :: s.rnd(r)(k) <= k
  {
    var n := |t.passes|;
    && Replayed(cfg, pool, s, forced, c0, t.passes) && n == t.rounds && t.attempts == AllMade(t.passes)
    && cursor == (if n == 0 then c0 else t.passes[n - 1].cursor + Bump(cfg, pool, s, n - 1))
    && t.failures == (if n == 0 then [] else t.passes[n - 1].failuresAfter)
  }

  /** What the next pass starts from. */
  ghost predicate ReadyAgain(s: Script, t: Trace, tried: set<string>) {
    var n := |t.passes|;
    && (n > 0 ==> t.passes[n - 1].end.PassLost?)
    && tried == (if n == 0 || s.verdict(n - 1).RetryAll? then {} else t.passes[n - 1].triedAfter)
  }

  lemma StartsOnTrack(cfg: RouteCfg, pool: Pool, s: Script, forced: Option<string>, c0: nat)
    requires forall r, k :: s.rnd(r)(k) <= k
    ensures OnTrack(cfg, pool, s, forced, c0, NOTHING_YET, c0) && ReadyAgain(s, NOTHING_YET, {})
  {
  }

  lemma {:induction false} ReplayGrows(cfg: RouteCfg, pool: Pool, s: Script, forced: Option<string>, c0: nat,
          passes: seq<Pass>, p: Pass)
    requires forall r, k :: s.rnd(r)(k) <= k
    requires Replayed(cfg, pool, s, forced, c0, passes) && PassFollows(cfg, pool, s, forced, c0, passes, p)
    requires Within(p.places, |p.plan|)
    ensures Replayed(cfg, pool, s, forced, c0, passes + [p])
    ensures AllMade(passes + [p]) == AllMade(passes) + MadeIn(|passes|, p.plan, p.places)
  {
    hide PassFollows, Within;
    var next := passes + [p];
    assert next[..|passes|] == passes && next[|passes|] == p;
  }

  lemma {:induction false} StaysOnTrack(cfg: RouteCfg, pool: Pool, s: Script, forced: Option<string>, c0: nat, t: Trace,
          tried: set<string>, p: Pass)
    requires forall r, k :: s.rnd(r)(k) <= k
    requires OnTrack(cfg, pool, s, forced, c0, t, p.cursor) && ReadyAgain(s, t, tried)
    requires PassIs(cfg, s.out(t.rounds), s.sched(t.rounds), p)
             && p.plan == PlanAt(cfg, pool, s, forced, t.rounds, p.cursor)
    requires p.tried == tried && p.failures == t.failures
    ensures Within(p.places, |p.plan|)
    ensures OnTrack(cfg, pool, s, forced, c0, Grown(t, p), p.cursor + Bump(cfg, pool, s, t.rounds))
  {
    hide PlanAt, Bump, Replayed, AllMade, Bodies, Walk, RaceRun, Urls, WinnerOf, Within;
    assert PassFollows(cfg, pool, s, forced, c0, t.passes, p);
    assert Within(p.places, |p.plan|);
    hide PassIs, PassFollows;
    ReplayGrows(cfg, pool, s, forced, c0, t.passes, p);
  }

  /** A request, from beginning to end: every pass over exactly the plan of its round, each
      from what the last one left, all but the last one lost; the failures kept are those
      of the lost attempts, in order, and of the last-resort pass; the tried set is what
      was attempted since the last `retry_all`. */
  ghost predicate ExactRequest(cfg: RouteCfg, pool: Pool, forced: Option<string>, s: Script, c0: nat, answer: Answer,
          t: Trace)
    requires forall r, k :: s.rnd(r)(k) <= k
  {
    var last := |t.passes| - 1;
    && t.passes != [] && |t.passes| == t.rounds && t.passes[last].triedAfter == Elems(t.sinceClear)
    && Replayed(cfg, pool, s, forced, c0, t.passes) && t.attempts == AllMade(t.passes)
    && t.failures == t.passes[last].failuresAfter
                     + KeptFromAll(if answer.FromFallback? && t.fallback != [] then |t.fallback| - 1
                     else |t.fallback|, s.fallback)
    && t.passes[last].end == EndFor(answer)
  }

  function EndFor(answer: Answer): PassEnd {
    match answer
    case FromAttempt(_, place, _) => PassWon(place)
    case StillRacing => PassRunning
    case _ => PassLost
  }

  /** The trace `u` of the last pass, and `w` with what the last-resort pass adds to it. */
  lemma {:induction false} EndsExactly(cfg: RouteCfg, pool: Pool, forced: Option<string>, s: Script, c0: nat, u: Trace,
          cursor: nat, w: Trace, answer: Answer)
    requires forall r, k :: s.rnd(r)(k) <= k
    requires OnTrack(cfg, pool, s, forced, c0, u, cursor) && u.passes != []
    requires u.passes[|u.passes| - 1].triedAfter == Elems(u.sinceClear)
             && u.passes[|u.passes| - 1].end == EndFor(answer)
    requires w == u.(fallback := w.fallback, failures := w.failures) && (answer.FromFallback? ==> w.fallback != [])
    requires (w == u && w.fallback == [])
             || w.failures == u.failures
                  + KeptFromAll(|w.fallback| - (if answer.FromFallback? then 1 else 0), s.fallback)
    ensures ExactRequest(cfg, pool, forced, s, c0, answer, w)
  {
    hide Replayed, AllMade, Bump;
    assert KeptFromAll(0, s.fallback) == [] && u.failures + [] == u.failures;
  }

  lemma TriedIsRemembered(cfg: RouteCfg, pool: Pool, s: Script, forced: Option<string>, u: Trace, tried: set<string>,
          end: PassEnd)
    requires AfterPass(cfg, pool, s, forced, u, tried, end)
    ensures tried == Elems(u.sinceClear)
  {
  }

  /** One round: plan, then one pass over the plan. */
  method Round(route: Route, pool: Pool, forced0: Option<string>, s: Script, t: Trace, tried: set<string>,
          ghost c0: nat)
    returns (u: Trace, tried': set<string>, end: PassEnd)
    requires forall r, k :: s.rnd(r)(k) <= k
    requires Between(route.cfg, pool, s, forced0, t, tried)
    requires OnTrack(route.cfg, pool, s, forced0, c0, t, route.cursor) && ReadyAgain(s, t, tried)
    modifies route`cursor
    ensures AfterPass(route.cfg, pool, s, forced0, u, tried', end) && u.rounds == t.rounds + 1
            && u.fallback == t.fallback
    ensures OnTrack(route.cfg, pool, s, forced0, c0, u, route.cursor)
    ensures u.passes != [] && u.passes[|u.passes| - 1].end == end && u.passes[|u.passes| - 1].triedAfter == tried'
    ensures tried' == Elems(u.sinceClear)
  {
    hide PassDone, IsPlan, Between, AfterPass, OnTrack, ReadyAgain, PassIs, PlanOf, Live, Known, UrlsOf, Within;
    var forced := if t.rounds == 0 then forced0 else None;
    var cursor := route.cursor;
    var plan := PlanRound(route, pool, s.worlds(t.rounds), forced, s.hash, s.rnd(t.rounds));
    var p := RunPass(route.cfg, plan, cursor, tried, t.failures, s.out(t.rounds), s.sched(t.rounds));
    RoundGrows(route.cfg, pool, s, forced0, t, tried, p);
    StaysOnTrack(route.cfg, pool, s, forced0, c0, t, tried, p);
    TriedIsRemembered(route.cfg, pool, s, forced0, Grown(t, p), p.triedAfter, p.end);
    u, tried', end := Grown(t, p), p.triedAfter, p.end;
  }

  /** A round that brings an answer, or is still racing, ends the request properly. */
  lemma PassAnswerIsDue(cfg: RouteCfg, pool: Pool, forced: Option<string>, maxHard: nat, s: Script, u: Trace,
          tried: set<string>, end: PassEnd)
    requires AfterPass(cfg, pool, s, forced, u, tried, end) && u.rounds <= Max(1, maxHard)
    requires forall r: nat :: r < u.rounds - 1 ==> s.verdict(r).WaitProbe? || s.verdict(r).RetryAll?
    ensures end.PassWon? ==>
              var last := u.rounds - 1;
              s.out(last)(end.place).Answered?
              && GoodRequest(cfg, pool, forced, maxHard, s, FromAttempt(last, end.place, s.out(last)(end.place).ok), u)
    ensures end.PassRunning? ==> GoodRequest(cfg, pool, forced, maxHard, s, StillRacing, u)
    ensures end.PassLost? && s.verdict(u.rounds - 1).ReturnError? ==>
              var v := s.verdict(u.rounds - 1);
              GoodRequest(cfg, pool, forced, maxHard, s, FromHook(ValidStatus(v.status), v.text), u)
  {
    hide Sourced, Remembered, ClearedAt, FallbackOf;
  }

  /** After the last-resort pass `w`, or at the cap, the request ends properly. */
  lemma StopIsDue(cfg: RouteCfg, pool: Pool, forced: Option<string>, maxHard: nat, s: Script, u: Trace,
          tried: set<string>, w: Trace, answer: Answer)
    requires AfterPass(cfg, pool, s, forced, u, tried, PassLost) && u.rounds <= Max(1, maxHard)
    requires forall r: nat :: r < u.rounds - 1 ==> s.verdict(r).WaitProbe? || s.verdict(r).RetryAll?
    requires w == u.(fallback := w.fallback, failures := w.failures)
    requires w.fallback <= UrlsOf(FallbackOf(cfg, s.lastWorld.snap, pool, tried, s.lastWorld.now))
    requires AnswerIsDue(cfg, pool, maxHard, s, answer, w)
    ensures GoodRequest(cfg, pool, forced, maxHard, s, answer, w)
  {
    hide Sourced, ClearedAt, FallbackOf, AnswerIsDue, AllFailed;
  }

  method Run(route: Route, pool: Pool, forced: Option<string>, maxHard: nat, s: Script)
    returns (answer: Answer, t: Trace)
    requires forall r, k :: s.rnd(r)(k) <= k
    modifies route`cursor
    ensures GoodRequest(route.cfg, pool, forced, maxHard, s, answer, t)
    ensures ExactRequest(route.cfg, pool, forced, s, old(route.cursor), answer, t)
  {
    hide AfterPass, Between, GoodRequest, ExactRequest, FallbackOf, AllFailed, IsMostCommon, Replayed, Live,
      KeptFromAll, Elems, AllMade, Bump;
    var cfg := route.cfg;
    ghost var c0 := route.cursor;
    var tried: set<string> := {};
    t := NOTHING_YET;
    StartsBetween(cfg, pool, s, forced);
    StartsOnTrack(cfg, pool, s, forced, c0);
    while true
      invariant Between(cfg, pool, s, forced, t, tried)
      invariant OnTrack(cfg, pool, s, forced, c0, t, route.cursor) && ReadyAgain(s, t, tried)
      invariant t.rounds < Max(1, maxHard) && t.fallback == []
      invariant forall r: nat :: r < t.rounds ==> s.verdict(r).WaitProbe? || s.verdict(r).RetryAll?
      decreases Max(1, maxHard) - t.rounds
    {
      var end;
      t, tried, end := Round(route, pool, forced, s, t, tried, c0);
      PassAnswerIsDue(cfg, pool, forced, maxHard, s, t, tried, end);
      var last := t.rounds - 1;
      match end {
        case PassWon(place) =>
          answer := FromAttempt(last, place, s.out(last)(place).ok);
          EndsExactly(cfg, pool, forced, s, c0, t, route.cursor, t, answer);
          return;
        case PassRunning =>
          answer := StillRacing;
          EndsExactly(cfg, pool, forced, s, c0, t, route.cursor, t, answer);
          return;
        case PassLost =>
      }
      NextRoundBetween(cfg, pool, s, forced, t, tried);
      match s.verdict(last) {
        case TryFatal =>
          ghost var u := t;
          answer, t := Exhaust(cfg, pool, forced, maxHard, s, t, tried);
          EndsExactly(cfg, pool, forced, s, c0, u, route.cursor, t, answer);
          return;
        case WaitProbe =>
          if t.rounds >= maxHard {
            answer := FromFailures(cfg, pool, forced, maxHard, s, t, tried);
            EndsExactly(cfg, pool, forced, s, c0, t, route.cursor, t, answer);
            return;
          }
        case RetryAll =>
          if t.rounds >= maxHard {
            answer := FromFailures(cfg, pool, forced, maxHard, s, t, tried);
            EndsExactly(cfg, pool, forced, s, c0, t, route.cursor, t, answer);
            return;
          }
          tried := {};
          t := t.(sinceClear := []);
        case ReturnError(status, text) =>
          answer := FromHook(ValidStatus(status), text);
          EndsExactly(cfg, pool, forced, s, c0, t, route.cursor, t, answer);
          return;
      }
    }
  }

  /** The cap on rounds was reached. */
  method FromFailures(cfg: RouteCfg, pool: Pool, forced: Option<string>, maxHard: nat, s: Script, t: Trace,
          tried: set<string>)
    returns (answer: Answer)
    requires AfterPass(cfg, pool, s, forced, t, tried, PassLost) && maxHard <= t.rounds <= Max(1, maxHard)
    requires s.verdict(t.rounds - 1).WaitProbe? || s.verdict(t.rounds - 1).RetryAll?
    requires forall r: nat :: r < t.rounds - 1 ==> s.verdict(r).WaitProbe? || s.verdict(r).RetryAll?
    ensures GoodRequest(cfg, pool, forced, maxHard, s, answer, t) && (answer.MostCommon? || answer.BadGateway?)
  {
    hide GoodRequest, FallbackOf, AllFailed, IsMostCommon, Sourced, Remembered;
    var common := BuildMostCommon(t.failures);
    answer := if common.Some? then MostCommon(common.value) else BadGateway;
    StopIsDue(cfg, pool, forced, maxHard, s, t, tried, t, answer);
  }

  /** The hook asked for the last-resort pass. */
  method Exhaust(cfg: RouteCfg, pool: Pool, forced: Option<string>, maxHard: nat, s: Script, t: Trace,
          tried: set<string>)
    returns (answer: Answer, w: Trace)
    requires AfterPass(cfg, pool, s, forced, t, tried, PassLost) && t.rounds <= Max(1, maxHard)
    requires s.verdict(t.rounds - 1).TryFatal?
    requires forall r: nat :: r < t.rounds - 1 ==> s.verdict(r).WaitProbe? || s.verdict(r).RetryAll?
    ensures GoodRequest(cfg, pool, forced, maxHard, s, answer, w)
    ensures w == t.(fallback := w.fallback, failures := w.failures)
            && (answer.FromFallback? || answer.MostCommon? || answer.BadGateway?)
    ensures answer.FromFallback? ==> w.fallback != []
    ensures w.failures == t.failures + KeptFromAll(|w.fallback| - (if answer.FromFallback? then 1 else 0), s.fallback)
  {
    hide GoodRequest, FallbackOf, AllFailed, IsMostCommon, Sourced, Remembered, Elems, Untried, UrlsOf, ClearedAt;
    var found, failures, touched := TryFatalPass(cfg, s.lastWorld, pool, tried, t.failures, s.fallback);
    w := t.(fallback := touched, failures := failures);
    if found.Some? {
      answer := found.value;
    } else {
      var common := BuildMostCommon(failures);
      answer := if common.Some? then MostCommon(common.value) else BadGateway;
    }
    StopIsDue(cfg, pool, forced, maxHard, s, t, tried, w, answer);
  }
}
