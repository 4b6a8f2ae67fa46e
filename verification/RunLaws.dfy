/** What a whole request guarantees across planning, passes and answers. */
module RunLaws {
  import opened Prelude
  import opened Attempt
  import opened Dispatch
  import opened Plan
  import opened Run
  import opened TriedLaws
  import PlanLaws
  import Sorting
  import Health
  import Stream
  import Wire

  /** Each pass of a replay follows from those before it. */
  lemma {:induction false} ReplayedAt(cfg: RouteCfg, pool: Pool, s: Script, forced: Option<string>, c0: nat,
          passes: seq<Pass>, r: nat)
    requires forall r, k :: s.rnd(r)(k) <= k
    requires Replayed(cfg, pool, s, forced, c0, passes) && r < |passes|
    ensures PassFollows(cfg, pool, s, forced, c0, passes[..r], passes[r])
  {
    hide PassFollows;
    var last := |passes| - 1;
    if r < last {
      ReplayedAt(cfg, pool, s, forced, c0, passes[..last], r);
      assert passes[..last][..r] == passes[..r];
    }
  }

  /** The pass may try place `i` of its plan: a walk any, a race one with a new URL. */
  predicate Offered(cfg: RouteCfg, p: Pass, i: nat)
    requires i < |p.plan|
  {
    cfg.selector.Hedge? ==> IsFresh(p.plan, i, p.tried)
  }

  /** A pass is lost only if every candidate it may try has failed. */
  lemma {:induction false} LostPassAllFailed(cfg: RouteCfg, out: nat -> AttemptResult, sched: seq<Event>, p: Pass)
    requires PassIs(cfg, out, sched, p) && p.end.PassLost?
    ensures forall i: nat :: i < |p.plan| && Offered(cfg, p, i) ==> out(i).Next?
  {
    hide RaceRun;
    if cfg.selector.Hedge? {
      var g := RaceSetup(p.plan, cfg.maxParallel, p.tried, p.failures, out);
      var v := RaceRun(g, sched).0;
      RaceIsSafe(g, sched);
      FreshFacts(p.plan, |p.plan|, p.tried);
      forall i: nat | i < |p.plan| && IsFresh(p.plan, i, p.tried) ensures out(i).Next? {
        assert i in Elems(v.launched) && i in Elems(v.lost);
      }
    } else {
      WalkFacts(Places(|p.plan|), out);
      PlacesFacts(|p.plan|);
    }
  }

  /** A request reports a failure only if every candidate that the plans of all its rounds
      let it try has failed. */
  lemma {:induction false} FailureMeansAllFailed(cfg: RouteCfg, pool: Pool, forced: Option<string>, s: Script, c0: nat,
          answer: Answer, t: Trace)
    requires forall r, k :: s.rnd(r)(k) <= k
    requires ExactRequest(cfg, pool, forced, s, c0, answer, t) && !answer.FromAttempt? && !answer.StillRacing?
    ensures forall r: nat, i: nat :: r < t.rounds && i < |t.passes[r].plan| && Offered(cfg, t.passes[r], i) ==>
              s.out(r)(i).Next?
  {
    hide Replayed, PassIs, Offered, PlanAt, Bump, AllMade;
    forall r: nat, i: nat | r < t.rounds && i < |t.passes[r].plan| && Offered(cfg, t.passes[r], i)
      ensures s.out(r)(i).Next?
    {
      ReplayedAt(cfg, pool, s, forced, c0, t.passes, r);
      if r + 1 < |t.passes| {
        ReplayedAt(cfg, pool, s, forced, c0, t.passes, r + 1);
        assert t.passes[..r + 1][r] == t.passes[r];
      }
      LostPassAllFailed(cfg, s.out(r), s.sched(r), t.passes[r]);
    }
  }

  /** The proxies a best-latency or hedged plan leaves out for want of room are none of them
      better than any it takes. */
  lemma {:induction false} NothingBetterLeftOut(cfg: RouteCfg, live: seq<Candidate>, cursor: nat, hash: nat,
          rnd: nat -> nat, c: Candidate, d: Candidate)
    requires forall k :: rnd(k) <= k
    requires cfg.selector.BestLatency? || cfg.selector.Hedge?
    requires c in PlanOf(cfg, live, cursor, hash, rnd)
    requires d in multiset(live) - multiset(PlanOf(cfg, live, cursor, hash, rnd))
    ensures PlanLaws.KeyLe(PlanLaws.KeyOf(cfg, c), PlanLaws.KeyOf(cfg, d))
  {
    hide PlanOf, Sorting.StableSort;
    PlanLaws.PlanIsOneSort(cfg, live, cursor, hash, rnd);
    PlanLaws.OrdersAreTotal(cfg);
    Sorting.SortContents(live, PlanLaws.ByKey(cfg));
    TakenAreBest(Sorting.StableSort(live, PlanLaws.ByKey(cfg)), cfg.maxAttempts, PlanLaws.ByKey(cfg), c, d);
  }

  lemma {:induction false} TakenAreBest(o: seq<Candidate>, n: nat, le: (Candidate, Candidate) -> bool, c: Candidate,
          d: Candidate)
    requires Sorting.SortedBy(o, le)
    requires c in Take(o, n) && d in multiset(o) - multiset(Take(o, n))
    ensures le(c, d)
  {
    if |o| > n {
      var front, back := o[..n], o[n..];
      assert o == front + back && Take(o, n) == front;
      hide Take;
      InBack(front, back, d);
      FrontBeforeBack(front, back, le, c, d);
    }
  }

  lemma FrontBeforeBack(front: seq<Candidate>, back: seq<Candidate>, le: (Candidate, Candidate) -> bool, c: Candidate,
          d: Candidate)
    requires Sorting.SortedBy(front + back, le) && c in front && d in back
    ensures le(c, d)
  {
    var i :| 0 <= i < |front| && front[i] == c;
    var j :| 0 <= j < |back| && back[j] == d;
    assert (front + back)[i] == c && (front + back)[|front| + j] == d;
  }

  lemma InBack(front: seq<Candidate>, back: seq<Candidate>, d: Candidate)
    requires d in multiset(front + back) - multiset(front)
    ensures d in back
  {
    assert multiset(front + back) == multiset(front) + multiset(back);
  }

  /** The first attempt of a best-latency request without a forced proxy goes to a live
      eligible proxy that no other live one beats. */
  lemma {:induction false} FirstChoiceIsBest(cfg: RouteCfg, pool: Pool, forced: Option<string>, s: Script, c0: nat,
          answer: Answer, t: Trace)
    requires forall r, k :: s.rnd(r)(k) <= k
    requires ExactRequest(cfg, pool, forced, s, c0, answer, t)
    requires cfg.selector.BestLatency? && forced.None? && cfg.maxAttempts > 0
    requires Live(cfg, s.worlds(0).snap, pool, s.worlds(0).now) != []
    ensures t.attempts != [] && t.attempts[0].round == 0 && t.attempts[0].place == 0
    ensures var live := Live(cfg, s.worlds(0).snap, pool, s.worlds(0).now);
            exists c :: c in live && c.url == t.attempts[0].url
                        && forall d :: d in live ==> PlanLaws.KeyLe(PlanLaws.KeyOf(cfg, c), PlanLaws.KeyOf(cfg, d))
  {
    hide Replayed, Live;
    var live := Live(cfg, s.worlds(0).snap, pool, s.worlds(0).now);
    ReplayedAt(cfg, pool, s, forced, c0, t.passes, 0);
    var p := t.passes[0];
    var c := BestComesFirst(cfg, live, p.cursor, s.hash, s.rnd(0));
    assert p.plan == UrlsOf(PlanOf(cfg, live, p.cursor, s.hash, s.rnd(0))) by {
      assert [] + UrlsOf(PlanOf(cfg, live, p.cursor, s.hash, s.rnd(0)))
        == UrlsOf(PlanOf(cfg, live, p.cursor, s.hash, s.rnd(0)));
    }
    WalkStarts(|p.plan|, s.out(0));
    FirstOfAll(t.passes);
  }

  lemma {:induction false} BestComesFirst(cfg: RouteCfg, live: seq<Candidate>, cursor: nat, hash: nat, rnd: nat -> nat)
    returns (c: Candidate)
    requires forall k :: rnd(k) <= k
    requires cfg.selector.BestLatency? && live != [] && cfg.maxAttempts > 0
    ensures PlanOf(cfg, live, cursor, hash, rnd) != [] && PlanOf(cfg, live, cursor, hash, rnd)[0] == c && c in live
    ensures forall d :: d in live ==> PlanLaws.KeyLe(PlanLaws.KeyOf(cfg, c), PlanLaws.KeyOf(cfg, d))
  {
    hide PlanOf, Sorting.StableSort, Sorting.SortedBy, Sorting.TotalPreorder, PlanLaws.KeyLe, PlanLaws.KeyOf;
    var le := PlanLaws.ByKey(cfg);
    PlanLaws.PlanIsOneSort(cfg, live, cursor, hash, rnd);
    PlanLaws.OrdersAreTotal(cfg);
    Sorting.SortContents(live, le);
    var o := Sorting.StableSort(live, le);
    c := o[0];
    assert c in multiset(o) && c in live;
    forall d | d in live ensures le(c, d) {
      assert d in multiset(o);
      HeadIsLeast(o, le, d);
    }
  }

  lemma HeadIsLeast(o: seq<Candidate>, le: (Candidate, Candidate) -> bool, d: Candidate)
    requires Sorting.SortedBy(o, le) && Sorting.TotalPreorder(le) && d in o
    ensures le(o[0], d)
  {
    var j :| 0 <= j < |o| && o[j] == d;
    if j > 0 { assert le(o[0], o[j]); }
  }

  lemma {:induction false} WalkStarts(n: nat, out: nat -> AttemptResult)
    requires n > 0
    ensures Walk(Places(n), out) != [] && Walk(Places(n), out)[0] == 0
  {
    PlacesFacts(n);
  }

  lemma {:induction false} FirstOfAll(passes: seq<Pass>)
    requires passes != [] && Within(passes[0].places, |passes[0].plan|) && passes[0].places != []
    ensures AllMade(passes) != []
    ensures AllMade(passes)[0] == Made(0, passes[0].places[0], passes[0].plan[passes[0].places[0]])
  {
    var last := |passes| - 1;
    if last > 0 { FirstOfAll(passes[..last]); } else { assert AllMade(passes[..0]) == []; }
  }

  /** Who is eligible: a proxy of the snapshot that carries all the tags asked for, one of
      the alternatives if there are any, and none that is excluded. */
  lemma {:induction false} EligibleIff(cfg: RouteCfg, snap: seq<Health.EntryView>, pool: Pool, now: nat, c: Candidate)
    ensures c in Eligible(cfg, snap, pool, now) <==>
              exists e :: e in snap
                          && c == Candidate(e.url, e.tags, EntryTier(e, cfg, now), Health.RouteOf(e, cfg.id).avg)
                          && (forall x :: x in pool.all ==> x in e.tags)
                          && (pool.any == [] || exists x :: x in pool.any && x in e.tags)
                          && !exists x :: x in cfg.excludeTags && x in e.tags
  {
    if snap != [] {
      var front, last := snap[..|snap| - 1], snap[|snap| - 1];
      EligibleIff(cfg, front, pool, now, c);
      assert snap == front + [last];
    }
  }

  // ---- The forced proxy ----

  /** A forced proxy comes first in the first round, and nowhere on that account in a later one,
      if the pool knows it; if not, it changes nothing. */
  lemma {:induction false} ForcedGoesFirst(cfg: RouteCfg, pool: Pool, forced: Option<string>, s: Script, c0: nat,
          answer: Answer, t: Trace, r: nat)
    requires forall r, k :: s.rnd(r)(k) <= k
    requires ExactRequest(cfg, pool, forced, s, c0, answer, t) && r < t.rounds
    ensures var w, p := s.worlds(r), t.passes[r];
            var planned := UrlsOf(PlanOf(cfg, Live(cfg, w.snap, pool, w.now), p.cursor, s.hash, s.rnd(r)));
            p.plan == if r == 0 && forced.Some? && exists e :: e in w.snap && e.url == forced.value
                      then [forced.value] + planned else planned
  {
    hide Replayed, Live, PlanOf, PassIs;
    ReplayedAt(cfg, pool, s, forced, c0, t.passes, r);
    var w, p := s.worlds(r), t.passes[r];
    var planned := UrlsOf(PlanOf(cfg, Live(cfg, w.snap, pool, w.now), p.cursor, s.hash, s.rnd(r)));
    assert [] + planned == planned;
  }

  // ---- The last resort ----

  /** A reply the last resort does not pass on: none at all, or one of these statuses. */
  predicate Refused(r: FallbackReply) { r.NoAnswer? || r.status in {403, 421, 429} || 500 <= r.status <= 599 }

  /** What is kept of the first `n` replies: of each refused one that is no page the first
      64 KiB that arrived. */
  function RefusedBodies(n: nat, replies: nat -> FallbackReply): seq<FailedResponse> {
    if n == 0 then []
    else
      var r := replies(n - 1);
      RefusedBodies(n - 1, replies)
      + if r.Replied? && Refused(r) && !r.html then
          var p := Wire.Payload(r.body);
          [FailedResponse(r.status, if |p| <= 65536 then p else p[..65536])]
        else []
  }

  lemma {:induction false} KeptAreRefused(n: nat, replies: nat -> FallbackReply)
    ensures KeptFromAll(n, replies) == RefusedBodies(n, replies)
  {
    hide Wire.Payload;
    if n > 0 { KeptAreRefused(n - 1, replies); }
  }

  /** The last resort passes on the first reply that is not refused, and nothing else: whoever
      was asked before gave no answer or a refused one, and without such a reply so did the
      whole pool. What it kept of the refused ones joins the failures. */
  lemma {:induction false} LastResortPassesOn(cfg: RouteCfg, pool: Pool, forced: Option<string>, maxHard: nat,
          s: Script, c0: nat, answer: Answer, t: Trace)
    requires forall r, k :: s.rnd(r)(k) <= k
    requires GoodRequest(cfg, pool, forced, maxHard, s, answer, t)
    requires ExactRequest(cfg, pool, forced, s, c0, answer, t)
    ensures answer.FromFallback? ==>
              && answer.status !in {403, 421, 429} && !(500 <= answer.status <= 599)
              && forall j :: 0 <= j < |t.fallback| - 1 ==> Refused(s.fallback(j))
    ensures s.verdict(t.rounds - 1).TryFatal? && (answer.MostCommon? || answer.BadGateway?) ==>
              && t.fallback == UrlsOf(FallbackOf(cfg, s.lastWorld.snap, pool, Elems(t.sinceClear), s.lastWorld.now))
              && forall j :: 0 <= j < |t.fallback| ==> Refused(s.fallback(j))
    ensures t.failures == t.passes[|t.passes| - 1].failuresAfter
              + RefusedBodies(if answer.FromFallback? then |t.fallback| - 1 else |t.fallback|, s.fallback)
  {
    hide Replayed, Sourced, Remembered, FallbackOf, AllMade;
    KeptAreRefused(if answer.FromFallback? && t.fallback != [] then |t.fallback| - 1 else |t.fallback|, s.fallback);
  }

  // ---- Excluded proxies ----

  /** A proxy of the pool that carries the tags asked for, and none that is excluded. */
  ghost predicate Allowed(cfg: RouteCfg, pool: Pool, snap: seq<Health.EntryView>, url: string) {
    exists e :: e in snap && e.url == url && !IsExcluded(e.tags, cfg.excludeTags) && TagMatch(e.tags, pool)
  }

  /** Everybody who sees the request, in a planned attempt, the last resort or a takeover, is
      one the route's tags allow. */
  ghost predicate EverybodyAllowed(cfg: RouteCfg, pool: Pool, s: Script, t: Trace, o: Stream.Outside,
          asks: seq<Stream.Ask>) {
    && (forall m :: m in t.attempts ==> Allowed(cfg, pool, s.worlds(m.round).snap, m.url))
    && (forall u :: u in t.fallback ==> Allowed(cfg, pool, s.lastWorld.snap, u))
    && (forall a :: a in asks ==> Allowed(cfg, pool, o.looks(a.round).list, a.url))
  }

  /** The documented "never eligible for this route" holds of a request and its takeovers if and
      only if it holds of the forced proxy and of everybody asked to take over. */
  lemma {:induction false} EverybodyAllowedIff(cfg: RouteCfg, pool: Pool, forced: Option<string>, maxHard: nat,
          s: Script, answer: Answer, t: Trace, o: Stream.Outside, asks: seq<Stream.Ask>)
    requires GoodRequest(cfg, pool, forced, maxHard, s, answer, t)
    ensures EverybodyAllowed(cfg, pool, s, t, o, asks) <==>
              && (forall m :: m in t.attempts && m.round == 0 && m.place == 0 && forced == Some(m.url) ==>
                    Allowed(cfg, pool, s.worlds(0).snap, m.url))
              && (forall a :: a in asks ==> Allowed(cfg, pool, o.looks(a.round).list, a.url))
  {
    LastResortIsNew(cfg, pool, forced, maxHard, s, answer, t);
    assert Sourced(cfg, pool, s, forced, t.attempts);
    hide GoodRequest, Allowed, Eligible;
    forall u | u in t.fallback ensures Allowed(cfg, pool, s.lastWorld.snap, u) {
      var c :| c in Eligible(cfg, s.lastWorld.snap, pool, s.lastWorld.now) && c.url == u;
      EligibleIsAllowed(cfg, pool, s.lastWorld, c);
    }
    forall m | m in t.attempts && !(m.round == 0 && m.place == 0 && forced == Some(m.url))
      ensures Allowed(cfg, pool, s.worlds(m.round).snap, m.url)
    {
      var w := s.worlds(m.round);
      var c :| c in Live(cfg, w.snap, pool, w.now) && c.url == m.url;
      PlanLaws.KeepPartitions(Eligible(cfg, w.snap, pool, w.now));
      EligibleIsAllowed(cfg, pool, w, c);
    }
  }

  lemma {:induction false} EligibleIsAllowed(cfg: RouteCfg, pool: Pool, w: World, c: Candidate)
    requires c in Eligible(cfg, w.snap, pool, w.now)
    ensures Allowed(cfg, pool, w.snap, c.url)
  {
    hide Eligible;
    EligibleIff(cfg, w.snap, pool, w.now, c);
  }

  /** From place `i` on the recovery gets to place `k`, which is live and has that URL: no live
      untried proxy in between opens. */
  ghost predicate ReachedAt(cfg: RouteCfg, look: Stream.Look, i: nat, tried: set<string>, total: nat,
                            net: (string, nat) -> Stream.RecoveryReply, url: string, k: nat) {
    && i <= k < |look.list| && look.list[k].url == url && !Dead(EntryTier(look.list[k], cfg, look.now))
    && forall j :: i <= j < k && !Dead(EntryTier(look.list[j], cfg, look.now)) && look.list[j].url !in tried ==>
         !Stream.Opens(net(look.list[j].url, total))
  }

  ghost predicate Reached(cfg: RouteCfg, look: Stream.Look, i: nat, tried: set<string>, total: nat,
                          net: (string, nat) -> Stream.RecoveryReply, url: string) {
    exists k :: ReachedAt(cfg, look, i, tried, total, net, url, k)
  }

  /** Who is asked to take over at a break does not depend on tags: an untried proxy is asked
      if and only if it is live and no live untried one in front of it opens. */
  lemma {:induction false} AskedIff(cfg: RouteCfg, look: Stream.Look, i: nat, tried: set<string>, asked: seq<string>,
          log: seq<Stream.Record>, total: nat, net: (string, nat) -> Stream.RecoveryReply, url: string)
    requires i <= |look.list| && url !in tried && url !in asked
    ensures url in Stream.Recovery(cfg, look, i, tried, asked, log, total, net).1 <==>
              Reached(cfg, look, i, tried, total, net, url)
    decreases |look.list| - i
  {
    if i < |look.list| {
      var e := look.list[i];
      var tried', asked' := tried + {e.url}, asked + [e.url];
      var log' := log + [Stream.ReplyRecord(cfg, e.url, net(e.url, total))];
      if Dead(EntryTier(e, cfg, look.now)) || e.url in tried {
        PassedBy(cfg, look, i, i + 1, tried, tried, total, net, url);
        hide EntryTier, Reached;
        AskedIff(cfg, look, i + 1, tried, asked, log, total, net, url);
      } else if e.url == url {
        hide EntryTier;
        assert ReachedAt(cfg, look, i, tried, total, net, url, i) && asked'[|asked|] == url;
        if !Stream.Opens(net(e.url, total)) { AskedStay(cfg, look, i + 1, tried', asked', log', total, net); }
      } else if Stream.Opens(net(e.url, total)) {
        hide EntryTier;
        assert forall k :: !ReachedAt(cfg, look, i, tried, total, net, url, k);
      } else {
        PassedBy(cfg, look, i, i + 1, tried, tried', total, net, url);
        hide EntryTier, Reached;
        AskedIff(cfg, look, i + 1, tried', asked', log', total, net, url);
      }
    }
  }

  /** The recovery goes on past a proxy that it does not ask, or that does not open. */
  lemma {:induction false} PassedBy(cfg: RouteCfg, look: Stream.Look, i: nat, next: nat, tried: set<string>,
          tried': set<string>, total: nat, net: (string, nat) -> Stream.RecoveryReply, url: string)
    requires i < |look.list| && next == i + 1 && url !in tried'
    requires var e := look.list[i];
             if Dead(EntryTier(e, cfg, look.now)) || e.url in tried then tried' == tried
             else tried' == tried + {e.url} && !Stream.Opens(net(e.url, total))
    requires !Dead(EntryTier(look.list[i], cfg, look.now)) ==> look.list[i].url != url
    ensures Reached(cfg, look, i, tried, total, net, url) <==> Reached(cfg, look, next, tried', total, net, url)
  {
    hide EntryTier;
    forall k
      ensures ReachedAt(cfg, look, i, tried, total, net, url, k) <==>
                ReachedAt(cfg, look, next, tried', total, net, url, k)
    {
    }
  }

  lemma {:induction false} AskedStay(cfg: RouteCfg, look: Stream.Look, i: nat, tried: set<string>, asked: seq<string>,
          log: seq<Stream.Record>, total: nat, net: (string, nat) -> Stream.RecoveryReply)
    requires i <= |look.list|
    ensures asked <= Stream.Recovery(cfg, look, i, tried, asked, log, total, net).1
    decreases |look.list| - i
  {
    if i < |look.list| {
      var e := look.list[i];
      if Dead(EntryTier(e, cfg, look.now)) || e.url in tried {
        AskedStay(cfg, look, i + 1, tried, asked, log, total, net);
      } else if !Stream.Opens(net(e.url, total)) {
        AskedStay(cfg, look, i + 1, tried + {e.url}, asked + [e.url],
                  log + [Stream.ReplyRecord(cfg, e.url, net(e.url, total))], total, net);
      }
    }
  }

  /** A takeover by an excluded proxy. */
  lemma {:induction false} ExcludedTakesOver(cfg: RouteCfg, total: nat, body: seq<Wire.Piece>)
    requires cfg.excludeTags != [] && cfg.failStreak > 0
    ensures var e := Health.FreshEntry("s://e", cfg.excludeTags[..1]);
            var net := (url: string, n: nat) => Stream.Opened(206, body, 0);
            && IsExcluded(e.tags, cfg.excludeTags)
            && Stream.Recovery(cfg, Stream.Look([e], 0), 0, {}, [], [], total, net).3
                 == Some(Stream.Source("s://e", 206, body))
  {
    var e := Health.FreshEntry("s://e", cfg.excludeTags[..1]);
    assert e.tags[0] in cfg.excludeTags && e.tags[0] in e.tags;
  }

  /** From dispatch to the end of a resumed response no proxy sees the request again: who is
      asked to take over was not attempted since the last `retry_all`, least of all the
      proxy whose response broke; and a hedged request asks nobody twice at all. */
  lemma {:induction false} TakeoversAreNew(cfg: RouteCfg, pool: Pool, forced: Option<string>, maxHard: nat, s: Script,
          c0: nat, answer: Answer, t: Trace, first: Stream.Source, canRecover: bool, o: Stream.Outside,
          universe: set<string>, delivered: seq<Wire.byte>, used: seq<Stream.Source>, asks: seq<Stream.Ask>,
          log: seq<Stream.Record>, end: Stream.StreamEnd)
    requires forall r, k :: s.rnd(r)(k) <= k
    requires GoodRequest(cfg, pool, forced, maxHard, s, answer, t) && ExactRequest(cfg, pool, forced, s, c0, answer, t)
    requires answer.FromAttempt? && answer.place < |t.passes[t.rounds - 1].plan|
             && first.url == t.passes[t.rounds - 1].plan[answer.place]
    requires Stream.GoodResponse(cfg, first, canRecover, t.passes[t.rounds - 1].triedAfter, o, universe, delivered,
               used, asks, log, end)
    ensures Elems(Stream.AskedUrls(asks)) !! Elems(t.sinceClear) && first.url in t.sinceClear
    ensures cfg.selector.Hedge? ==> NoDup(t.sinceClear + Stream.AskedUrls(asks))
    ensures cfg.selector.Hedge? && (forall r: nat :: r < t.rounds - 1 ==> !s.verdict(r).RetryAll?) ==>
              NoDup(UrlsMade(t.attempts) + Stream.AskedUrls(asks))
  {
    hide Replayed, AllMade, KeptFromAll, GoodRequest, Stream.GoodResponse, NoDup, Elems, Stream.AskedUrls, UrlsMade;
    var tried := t.passes[t.rounds - 1].triedAfter;
    hide ExactRequest;
    WinnerIsTried(cfg, pool, forced, s, c0, answer, t);
    RequestRemembers(cfg, pool, forced, maxHard, s, c0, answer, t);
    AskedAreNew(cfg, first, canRecover, tried, o, universe, delivered, used, asks, log, end);
    InElems(first.url, t.sinceClear);
    if cfg.selector.Hedge? { AppendNoDup(t.sinceClear, Stream.AskedUrls(asks)); }
  }

  lemma InElems(x: string, s: seq<string>)
    ensures x in Elems(s) <==> x in s
  {
  }

  lemma {:induction false} RequestRemembers(cfg: RouteCfg, pool: Pool, forced: Option<string>, maxHard: nat, s: Script,
          c0: nat, answer: Answer, t: Trace)
    requires forall r, k :: s.rnd(r)(k) <= k
    requires GoodRequest(cfg, pool, forced, maxHard, s, answer, t) && ExactRequest(cfg, pool, forced, s, c0, answer, t)
    ensures t.passes[t.rounds - 1].triedAfter == Elems(t.sinceClear)
    ensures cfg.selector.Hedge? ==> NoDup(t.sinceClear)
    ensures (forall r: nat :: r < t.rounds - 1 ==> !s.verdict(r).RetryAll?) ==> t.sinceClear == UrlsMade(t.attempts)
  {
    hide Replayed, Sourced, AnswerIsDue, ClearedAt;
    SinceIsAll(cfg, t, s.verdict);
  }

  lemma AskedAreNew(cfg: RouteCfg, first: Stream.Source, canRecover: bool, tried0: set<string>, o: Stream.Outside,
          universe: set<string>, delivered: seq<Wire.byte>, used: seq<Stream.Source>, asks: seq<Stream.Ask>,
          log: seq<Stream.Record>, end: Stream.StreamEnd)
    requires Stream.GoodResponse(cfg, first, canRecover, tried0, o, universe, delivered, used, asks, log, end)
    ensures NoDup(Stream.AskedUrls(asks)) && Elems(Stream.AskedUrls(asks)) !! tried0
  {
    hide Stream.Chained, Stream.LogOf, Stream.Outcomes, Stream.Delivered, Stream.Breaks, Stream.Exhausted,
      Stream.AskedUrls, Elems, NoDup;
  }

  lemma {:induction false} WinnerIsTried(cfg: RouteCfg, pool: Pool, forced: Option<string>, s: Script, c0: nat,
          answer: Answer, t: Trace)
    requires forall r, k :: s.rnd(r)(k) <= k
    requires ExactRequest(cfg, pool, forced, s, c0, answer, t) && answer.FromAttempt?
    ensures var p := t.passes[t.rounds - 1];
            answer.place < |p.plan| && p.plan[answer.place] in p.triedAfter
  {
    hide Replayed, PlanAt, Bump, AllMade, RaceRun;
    var r: nat := t.rounds - 1;
    var p := t.passes[r];
    ReplayedAt(cfg, pool, s, forced, c0, t.passes, r);
    if cfg.selector.Hedge? {
      var g := RaceSetup(p.plan, cfg.maxParallel, p.tried, p.failures, s.out(r));
      RaceIsSafe(g, s.sched(r));
      assert answer.place in Elems(p.places);
    } else {
      assert answer.place in p.places;
    }
    UrlOfPlace(p.plan, p.places, answer.place);
  }

  lemma {:induction false} UrlOfPlace(plan: seq<string>, places: seq<nat>, i: nat)
    requires Within(places, |plan|) && i in places
    ensures i < |plan| && plan[i] in Elems(Urls(plan, places))
  {
    var front, last := places[..|places| - 1], places[|places| - 1];
    if i != last { UrlOfPlace(plan, front, i); }
  }
}
