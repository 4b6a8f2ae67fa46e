/** Who a request asks again: nobody between two `retry_all`s on a hedged route, and in the
    last resort nobody it has tried. */
module TriedLaws {
  import opened Prelude
  import opened Dispatch
  import opened Plan
  import opened Run
  import PlanLaws
  import Sorting
  import Health

  /** The pool lists every URL once. */
  ghost predicate DistinctUrls(snap: seq<Health.EntryView>) {
    forall i, j :: 0 <= i < j < |snap| ==> snap[i].url != snap[j].url
  }

  /** The last-resort pass tries only dead eligible proxies not attempted since the last `retry_all`. */
  lemma {:induction false} LastResortIsNew(cfg: RouteCfg, pool: Pool, forced: Option<string>, maxHard: nat, s: Script,
          answer: Answer, t: Trace)
    requires GoodRequest(cfg, pool, forced, maxHard, s, answer, t)
    ensures Elems(t.fallback) !! Elems(t.sinceClear)
    ensures forall u :: u in t.fallback ==>
              exists c :: c in Eligible(cfg, s.lastWorld.snap, pool, s.lastWorld.now) && c.url == u && Dead(c.tier)
    ensures t.fallback != [] ==> s.verdict(t.rounds - 1).TryFatal?
  {
    hide FallbackOf, Eligible, Sourced, Remembered;
    var tried, w := Elems(t.sinceClear), s.lastWorld;
    var fb := FallbackOf(cfg, w.snap, pool, tried, w.now);
    forall u | u in t.fallback
      ensures u !in tried && exists c :: c in Eligible(cfg, w.snap, pool, w.now) && c.url == u && Dead(c.tier)
    {
      var i :| 0 <= i < |t.fallback| && t.fallback[i] == u;
      assert UrlsOf(fb)[i] == fb[i].url == u;
      FallbackMember(cfg, w, pool, tried, fb[i]);
    }
    hide AnswerIsDue;
  }

  lemma {:induction false} FallbackMember(cfg: RouteCfg, w: World, pool: Pool, tried: set<string>, c: Candidate)
    requires c in FallbackOf(cfg, w.snap, pool, tried, w.now)
    ensures c in Eligible(cfg, w.snap, pool, w.now) && Dead(c.tier) && c.url !in tried
  {
    hide Eligible, Keep, Sorting.StableSort;
    var all := Eligible(cfg, w.snap, pool, w.now);
    Sorting.SortContents(Keep(all, Untried(tried)), ByFallbackLatency());
    PlanLaws.KeepHolds(all, Untried(tried));
    assert c in multiset(FallbackOf(cfg, w.snap, pool, tried, w.now));
    assert c in Keep(all, Untried(tried));
  }

  lemma {:induction false} EligibleDistinct(cfg: RouteCfg, snap: seq<Health.EntryView>, pool: Pool, now: nat)
    requires DistinctUrls(snap)
    ensures forall i, j :: 0 <= i < j < |Eligible(cfg, snap, pool, now)| ==>
              Eligible(cfg, snap, pool, now)[i].url != Eligible(cfg, snap, pool, now)[j].url
    ensures forall c :: c in Eligible(cfg, snap, pool, now) ==> exists e :: e in snap && e.url == c.url
  {
    if snap != [] {
      var front, last := snap[..|snap| - 1], snap[|snap| - 1];
      EligibleDistinct(cfg, front, pool, now);
      assert snap == front + [last];
      var before := Eligible(cfg, front, pool, now);
      forall c | c in before ensures c.url != last.url {
        var e :| e in front && e.url == c.url;
        var i :| 0 <= i < |front| && front[i] == e;
        assert snap[i].url != snap[|snap| - 1].url;
      }
      forall c | c in Eligible(cfg, snap, pool, now) ensures exists e :: e in snap && e.url == c.url {
        if c in before {
          var e :| e in front && e.url == c.url;
          assert e in snap;
        } else {
          assert last in snap && c.url == last.url;
        }
      }
    }
  }

  lemma {:induction false} KeepDistinct(s: seq<Candidate>, p: Candidate -> bool)
    requires forall i, j :: 0 <= i < j < |s| ==> s[i].url != s[j].url
    ensures forall i, j :: 0 <= i < j < |Keep(s, p)| ==> Keep(s, p)[i].url != Keep(s, p)[j].url
  {
    if s != [] {
      var front := s[..|s| - 1];
      KeepDistinct(front, p);
      PlanLaws.KeepHolds(front, p);
      forall i | 0 <= i < |Keep(front, p)| ensures Keep(front, p)[i].url != s[|s| - 1].url {
        assert Keep(front, p)[i] in front;
      }
    }
  }

  /** Distinct URLs stay distinct under any reordering. */
  lemma {:induction false} ReorderDistinct(s: seq<Candidate>, t: seq<Candidate>)
    requires multiset(s) == multiset(t)
    requires forall i, j :: 0 <= i < j < |s| ==> s[i].url != s[j].url
    ensures NoDup(UrlsOf(t))
  {
    assert NoDup(s);
    NoDupIsMultiset(s);
    forall x | x in t ensures multiset(t)[x] == 1 { assert x in multiset(t); assert x in s; }
    NoDupIsMultiset(t);
    forall i, j | 0 <= i < j < |t| ensures t[i].url != t[j].url {
      assert t[i] in multiset(t) && t[j] in multiset(t);
      var a :| 0 <= a < |s| && s[a] == t[i];
      var b :| 0 <= b < |s| && s[b] == t[j];
      assert t[i] != t[j];
    }
  }

  /** A hedged request asks no proxy twice between two `retry_all`s, not even across
      rounds that waited for probes, and not in the last-resort pass either. */
  lemma {:induction false} HedgedRequestNeverRepeats(cfg: RouteCfg, pool: Pool, forced: Option<string>, maxHard: nat,
          s: Script, answer: Answer, t: Trace)
    requires GoodRequest(cfg, pool, forced, maxHard, s, answer, t)
    requires cfg.selector.Hedge? && DistinctUrls(s.lastWorld.snap)
    ensures NoDup(t.sinceClear + t.fallback)
    ensures (forall r: nat :: r < t.rounds - 1 ==> !s.verdict(r).RetryAll?) ==> NoDup(UrlsMade(t.attempts) + t.fallback)
  {
    LastResortIsNew(cfg, pool, forced, maxHard, s, answer, t);
    FallbackDistinct(cfg, pool, s.lastWorld, Elems(t.sinceClear));
    SinceIsAll(cfg, t, s.verdict);
    hide FallbackOf, Sourced, AnswerIsDue, DistinctUrls, ClearedAt;
    PrefixNoDup(t.fallback, UrlsOf(FallbackOf(cfg, s.lastWorld.snap, pool, Elems(t.sinceClear), s.lastWorld.now)));
    AppendNoDup(t.sinceClear, t.fallback);
  }

  lemma {:induction false} PrefixNoDup(a: seq<string>, b: seq<string>)
    requires a <= b && NoDup(b)
    ensures NoDup(a)
  {
    forall i, j | 0 <= i < j < |a| ensures a[i] != a[j] { assert b[i] != b[j]; }
  }

  lemma {:induction false} FallbackDistinct(cfg: RouteCfg, pool: Pool, world: World, tried: set<string>)
    requires DistinctUrls(world.snap)
    ensures NoDup(UrlsOf(FallbackOf(cfg, world.snap, pool, tried, world.now)))
  {
    var all := Eligible(cfg, world.snap, pool, world.now);
    EligibleDistinct(cfg, world.snap, pool, world.now);
    KeepDistinct(all, Untried(tried));
    Sorting.SortContents(Keep(all, Untried(tried)), ByFallbackLatency());
    ReorderDistinct(Keep(all, Untried(tried)), FallbackOf(cfg, world.snap, pool, tried, world.now));
  }

  /** Without a `retry_all` the memory of a request is everything it attempted. */
  lemma {:induction false} SinceIsAll(cfg: RouteCfg, t: Trace, verdict: nat -> ExhaustedVerdict)
    requires t.rounds > 0 && Remembered(cfg, t, ClearedAt(verdict, t.rounds - 1))
    ensures (forall r: nat :: r < t.rounds - 1 ==> !verdict(r).RetryAll?) ==> t.sinceClear == UrlsMade(t.attempts)
  {
    if forall r: nat :: r < t.rounds - 1 ==> !verdict(r).RetryAll? {
      NeverCleared(verdict, t.rounds - 1);
      assert UrlsMade(t.attempts)[0..] == UrlsMade(t.attempts);
    }
  }

  lemma {:induction false} NeverCleared(verdict: nat -> ExhaustedVerdict, rounds: nat)
    requires forall r: nat :: r < rounds ==> !verdict(r).RetryAll?
    ensures ClearedAt(verdict, rounds) == 0
  {
    if rounds > 0 { NeverCleared(verdict, rounds - 1); }
  }
}
