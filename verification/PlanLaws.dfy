/** What the plan of a route guarantees: one lexicographic order behind the
    successive sorts, no proxy lost or invented, reserve proxies last, and what
    the rotating and random selectors can reach. */
module PlanLaws {
  import opened Prelude
  import opened Sorting
  import opened Plan
  import opened Turns
  import Health

  // ---- The successive sorts are one sort ----

  /** A candidate's place in the plan: preferred, then not reserve, then tier, then latency. */
  datatype Key = Key(notPreferred: nat, reserve: nat, tier: nat, latency: nat)

  function KeyOf(cfg: RouteCfg, c: Candidate): Key {
    Key(if cfg.preferTags != [] && !IsPreferred(cfg, c) then 1 else 0,
        if cfg.preferNonReserve && IsReserve(c) then 1 else 0,
        Rank(c.tier), LatKey(c.latency))
  }

  predicate KeyLe(a: Key, b: Key) {
    if a.notPreferred != b.notPreferred then a.notPreferred < b.notPreferred
    else if a.reserve != b.reserve then a.reserve < b.reserve
    else if a.tier != b.tier then a.tier < b.tier
    else a.latency <= b.latency
  }

  function ByKey(cfg: RouteCfg): (Candidate, Candidate) -> bool {
    (a: Candidate, b: Candidate) => KeyLe(KeyOf(cfg, a), KeyOf(cfg, b))
  }

  lemma OrdersAreTotal(cfg: RouteCfg)
    ensures TotalPreorder(ByTier()) && TotalPreorder(ByTierLatency()) && TotalPreorder(ReserveLast())
    ensures TotalPreorder(PreferredFirst(cfg)) && TotalPreorder(ByFallbackLatency()) && TotalPreorder(ByKey(cfg))
  {
    hide IsReserve, IsPreferred;
    KeyIsTotal(cfg);
    hide KeyLe, KeyOf;
    TierIsTotal();
  }

  lemma KeyIsTotal(cfg: RouteCfg)
    ensures TotalPreorder(ByKey(cfg))
  {
    hide KeyOf;
  }

  lemma TierIsTotal()
    ensures TotalPreorder(ByTier()) && TotalPreorder(ByTierLatency())
  {
  }

  lemma {:induction false} SameOrderSameSort(s: seq<Candidate>, le: (Candidate, Candidate) -> bool,
          le': (Candidate, Candidate) -> bool)
    requires forall a, b :: le(a, b) == le'(a, b)
    ensures StableSort(s, le) == StableSort(s, le')
  {
    if s != [] {
      SameOrderSameSort(s[1..], le, le');
      SameOrderSameInsert(s[0], StableSort(s[1..], le), le, le');
    }
  }

  lemma {:induction false} SameOrderSameInsert(x: Candidate, s: seq<Candidate>, le: (Candidate, Candidate) -> bool,
          le': (Candidate, Candidate) -> bool)
    requires forall a, b :: le(a, b) == le'(a, b)
    ensures Insert(x, s, le) == Insert(x, s, le')
  {
    if s != [] && !le(x, s[0]) { SameOrderSameInsert(x, s[1..], le, le'); }
  }

  /** Best-latency and hedged orders: the sorts in a row, each present only when
      configured, are one stable lexicographic sort. */
  lemma {:induction false} OrderIsOneSort(cfg: RouteCfg, live: seq<Candidate>, cursor: nat, hash: nat, rnd: nat -> nat)
    requires forall k :: rnd(k) <= k
    requires cfg.selector.BestLatency? || cfg.selector.Hedge?
    ensures Floated(cfg, SelectorOrder(cfg.selector, live, cursor, hash, rnd)) == StableSort(live, ByKey(cfg))
  {
    OrdersAreTotal(cfg);
    var le0 := ByTierLatency();
    var le1 := if cfg.preferNonReserve then Lex(ReserveLast(), le0) else le0;
    var le2 := if cfg.preferTags != [] then Lex(PreferredFirst(cfg), le1) else le1;
    TwoPassesAreLex(live, ReserveLast(), le0);
    TwoPassesAreLex(live, PreferredFirst(cfg), le1);
    forall a, b ensures le2(a, b) == ByKey(cfg)(a, b) {
      RankIsInjective(a.tier, b.tier);
    }
    SameOrderSameSort(live, le2, ByKey(cfg));
  }

  /** So a best-latency or hedged plan is the first `maxAttempts` of that sort. */
  lemma {:induction false} PlanIsOneSort(cfg: RouteCfg, live: seq<Candidate>, cursor: nat, hash: nat, rnd: nat -> nat)
    requires forall k :: rnd(k) <= k
    requires cfg.selector.BestLatency? || cfg.selector.Hedge?
    ensures PlanOf(cfg, live, cursor, hash, rnd) == Take(StableSort(live, ByKey(cfg)), cfg.maxAttempts)
  {
    hide StableSort, Floated, SelectorOrder;
    OrderIsOneSort(cfg, live, cursor, hash, rnd);
  }

  /** What the floats compare: preferred first, then not reserve, each if configured. */
  function FloatClass(cfg: RouteCfg, c: Candidate): nat {
    2 * KeyOf(cfg, c).notPreferred + KeyOf(cfg, c).reserve
  }

  function ByFloat(cfg: RouteCfg): (Candidate, Candidate) -> bool {
    (a: Candidate, b: Candidate) => FloatClass(cfg, a) <= FloatClass(cfg, b)
  }

  lemma FloatIsTotal(cfg: RouteCfg)
    ensures TotalPreorder(ByFloat(cfg))
  {
    hide FloatClass;
  }

  /** Whatever the selector made, the floats are one stable sort of it. */
  lemma {:induction false} FloatedIsOneSort(cfg: RouteCfg, s: seq<Candidate>)
    ensures Floated(cfg, s) == StableSort(s, ByFloat(cfg))
  {
    OrdersAreTotal(cfg);
    FloatIsTotal(cfg);
    hide StableSort, TotalPreorder, IsReserve, IsPreferred;
    if cfg.preferTags == [] {
      if cfg.preferNonReserve {
        SameOrderSameSort(s, ReserveLast(), ByFloat(cfg));
      } else {
        AlreadySorted(s, ByFloat(cfg));
      }
    } else if cfg.preferNonReserve {
      TwoPassesAreLex(s, PreferredFirst(cfg), ReserveLast());
      SameOrderSameSort(s, Lex(PreferredFirst(cfg), ReserveLast()), ByFloat(cfg));
    } else {
      SameOrderSameSort(s, PreferredFirst(cfg), ByFloat(cfg));
    }
  }

  lemma AlreadySorted(s: seq<Candidate>, le: (Candidate, Candidate) -> bool)
    requires forall a, b :: le(a, b)
    ensures StableSort(s, le) == s
  {
    SortSortedIsIdentity(s, le);
  }

  lemma RankIsInjective(t: Tier, u: Tier)
    ensures Rank(t) == Rank(u) <==> t == u
  {
  }

  // ---- Nothing lost, nothing invented ----

  lemma {:induction false} ShuffleKeeps(s: seq<Candidate>, i: nat, rnd: nat -> nat)
    requires forall k :: rnd(k) <= k
    requires i < |s| || i == 0
    ensures multiset(Shuffle(s, i, rnd)) == multiset(s) && |Shuffle(s, i, rnd)| == |s|
    decreases i
  {
    if i > 0 { ShuffleKeeps(Swap(s, i, rnd(i)), i - 1, rnd); }
  }

  /** Every selector and every float orders exactly the live proxies. */
  lemma {:induction false} OrderKeepsLive(cfg: RouteCfg, live: seq<Candidate>, cursor: nat, hash: nat, rnd: nat -> nat)
    requires forall k :: rnd(k) <= k
    ensures var o := Floated(cfg, SelectorOrder(cfg.selector, live, cursor, hash, rnd));
            multiset(o) == multiset(live) && |o| == |live|
  {
    SelectorKeeps(cfg.selector, live, cursor, hash, rnd);
    var s := SelectorOrder(cfg.selector, live, cursor, hash, rnd);
    SortContents(s, ReserveLast());
    SortContents(if cfg.preferNonReserve then StableSort(s, ReserveLast()) else s, PreferredFirst(cfg));
  }

  lemma {:induction false} SelectorKeeps(sel: Selector, live: seq<Candidate>, cursor: nat, hash: nat, rnd: nat -> nat)
    requires forall k :: rnd(k) <= k
    ensures var o := SelectorOrder(sel, live, cursor, hash, rnd);
            multiset(o) == multiset(live) && |o| == |live|
  {
    hide StableSort, Shuffle, Rotate, ByTier, ByTierLatency;
    SortContents(live, ByTierLatency());
    SortContents(live, ByTier());
    var sorted, t := StableSort(live, ByTierLatency()), StableSort(live, ByTier());
    if sel.Random? {
      ShuffleKeeps(t, if t == [] then 0 else |t| - 1, rnd);
      SortContents(Shuffle(t, if t == [] then 0 else |t| - 1, rnd), ByTier());
    } else if |sorted| > 1 {
      RotateKeeps(sorted, cursor % |sorted|);
      RotateKeeps(sorted, hash % |sorted|);
    }
  }

  lemma {:induction false} KeepPartitions(s: seq<Candidate>)
    ensures multiset(Keep(s, IS_LIVE)) + multiset(Keep(s, Untried({}))) == multiset(s)
    ensures forall c :: c in Keep(s, IS_LIVE) <==> c in s && !Dead(c.tier)
  {
    hide Keep;
    PartsAddUp(s);
    KeepHolds(s, IS_LIVE);
  }

  lemma {:induction false} PartsAddUp(s: seq<Candidate>)
    ensures multiset(Keep(s, IS_LIVE)) + multiset(Keep(s, Untried({}))) == multiset(s)
  {
    if s != [] {
      var front, x := s[..|s| - 1], s[|s| - 1];
      assert s == front + [x];
      hide Keep, Dead;
      PartsAddUp(front);
      PartsSnoc(front, x);
    } else {
      assert Keep(s, IS_LIVE) == [] && Keep(s, Untried({})) == [];
    }
  }

  lemma PartsSnoc(front: seq<Candidate>, x: Candidate)
    requires multiset(Keep(front, IS_LIVE)) + multiset(Keep(front, Untried({}))) == multiset(front)
    ensures multiset(Keep(front + [x], IS_LIVE)) + multiset(Keep(front + [x], Untried({}))) == multiset(front + [x])
  {
    hide Keep;
    KeepSnoc(front, x, IS_LIVE);
    KeepSnoc(front, x, Untried({}));
    JoinsOne(Keep(front, IS_LIVE), Keep(front, Untried({})), front, x);
  }

  lemma JoinsOne(a: seq<Candidate>, b: seq<Candidate>, s: seq<Candidate>, x: Candidate)
    requires multiset(a) + multiset(b) == multiset(s)
    ensures multiset(a + [x]) + multiset(b) == multiset(s + [x])
    ensures multiset(a) + multiset(b + [x]) == multiset(s + [x])
  {
  }

  lemma KeepSnoc(front: seq<Candidate>, x: Candidate, p: Candidate -> bool)
    ensures Keep(front + [x], p) == if p(x) then Keep(front, p) + [x] else Keep(front, p)
  {
    assert (front + [x])[..|front|] == front;
  }

  /** At one instant, the uncapped plan and the fallback pool with nothing tried are
      the tag-eligible proxies, each exactly once; only dead ones fall back. */
  lemma {:induction false} PlanAndFallbackPartition(cfg: RouteCfg, snap: seq<Health.EntryView>, pool: Pool, now: nat,
          cursor: nat, hash: nat, rnd: nat -> nat)
    requires forall k :: rnd(k) <= k
    ensures var plan := PlanOf(cfg.(maxAttempts := |snap|), Live(cfg, snap, pool, now), cursor, hash, rnd);
            var fallback := FallbackOf(cfg, snap, pool, {}, now);
            && multiset(plan) + multiset(fallback) == multiset(Eligible(cfg, snap, pool, now))
            && (forall c :: c in plan ==> !Dead(c.tier))
            && (forall c :: c in fallback ==> Dead(c.tier))
  {
    var live, all := Live(cfg, snap, pool, now), Eligible(cfg, snap, pool, now);
    var plan := PlanOf(cfg.(maxAttempts := |snap|), live, cursor, hash, rnd);
    var fallback := FallbackOf(cfg, snap, pool, {}, now);
    OrderKeepsLive(cfg.(maxAttempts := |snap|), live, cursor, hash, rnd);
    SortContents(Keep(all, Untried({})), ByFallbackLatency());
    KeepPartitions(all);
    EligibleLength(cfg, snap, pool, now);
    KeepLength(all, IS_LIVE);
    assert multiset(plan) == multiset(live);
    forall c | c in plan ensures !Dead(c.tier) { assert c in multiset(plan); assert c in live; }
    KeepHolds(all, Untried({}));
    forall c | c in fallback
      ensures Dead(c.tier)
    {
      assert c in multiset(fallback);
      assert c in Keep(all, Untried({}));
    }
  }

  lemma {:induction false} EligibleLength(cfg: RouteCfg, snap: seq<Health.EntryView>, pool: Pool, now: nat)
    ensures |Eligible(cfg, snap, pool, now)| <= |snap|
  {
    if snap != [] { EligibleLength(cfg, snap[..|snap| - 1], pool, now); }
  }

  lemma {:induction false} KeepLength(s: seq<Candidate>, p: Candidate -> bool)
    ensures |Keep(s, p)| <= |s|
  {
    if s != [] { KeepLength(s[..|s| - 1], p); }
  }

  lemma {:induction false} KeepHolds(s: seq<Candidate>, p: Candidate -> bool)
    ensures forall c :: c in Keep(s, p) <==> c in s && p(c)
  {
    if s != [] {
      KeepHolds(s[..|s| - 1], p);
      assert s == s[..|s| - 1] + [s[|s| - 1]];
    }
  }

  /** Every candidate of the plan is a live eligible proxy, and the plan is capped. */
  lemma {:induction false} PlanIsLive(cfg: RouteCfg, snap: seq<Health.EntryView>, pool: Pool, now: nat, cursor: nat,
          hash: nat, rnd: nat -> nat)
    requires forall k :: rnd(k) <= k
    ensures var plan := PlanOf(cfg, Live(cfg, snap, pool, now), cursor, hash, rnd);
            && |plan| <= cfg.maxAttempts
            && multiset(plan) <= multiset(Live(cfg, snap, pool, now))
            && forall c :: c in plan ==> c in Eligible(cfg, snap, pool, now) && !Dead(c.tier)
  {
    var live := Live(cfg, snap, pool, now);
    OrderKeepsLive(cfg, live, cursor, hash, rnd);
    var o := Floated(cfg, SelectorOrder(cfg.selector, live, cursor, hash, rnd));
    var plan := PlanOf(cfg, live, cursor, hash, rnd);
    TakeIsPart(o, cfg.maxAttempts);
    KeepPartitions(Eligible(cfg, snap, pool, now));
    forall c | c in plan ensures c in live { assert c in multiset(plan); }
  }

  lemma {:induction false} TakeIsPart(s: seq<Candidate>, n: nat)
    ensures multiset(Take(s, n)) <= multiset(s) && |Take(s, n)| <= n
  {
    if |s| > n { assert s == s[..n] + s[n..]; }
  }

  // ---- Who goes first, in the proxies' own terms ----

  /** In a best-latency or hedged plan whoever carries a preferred tag goes before who carries
      none; of those alike, if so configured, who is no reserve before who is; of those alike
      the healthy before the slow before the failed; and of those the faster, an unmeasured
      proxy counting as 1 ms. */
  lemma {:induction false} BetterFirst(cfg: RouteCfg, live: seq<Candidate>, cursor: nat, hash: nat, rnd: nat -> nat,
          i: nat, j: nat)
    requires forall k :: rnd(k) <= k
    requires cfg.selector.BestLatency? || cfg.selector.Hedge?
    requires i < j < |PlanOf(cfg, live, cursor, hash, rnd)|
    ensures var a, b := PlanOf(cfg, live, cursor, hash, rnd)[i], PlanOf(cfg, live, cursor, hash, rnd)[j];
            var better := exists x :: x in cfg.preferTags && x in a.tags;
            var preferred := exists x :: x in cfg.preferTags && x in b.tags;
            var held := cfg.preferNonReserve && "reserve" in a.tags;
            var reserve := cfg.preferNonReserve && "reserve" in b.tags;
            && (preferred ==> better)
            && (preferred == better && held ==> reserve)
            && (preferred == better && held == reserve ==>
                  && (a.tier == Failed ==> b.tier != Healthy && b.tier != Slow)
                  && (a.tier == Slow ==> b.tier != Healthy)
                  && (a.tier == b.tier ==> Max(1, a.latency) <= Max(1, b.latency)))
  {
    hide PlanOf, StableSort, TotalPreorder;
    PlanIsOneSort(cfg, live, cursor, hash, rnd);
    OrdersAreTotal(cfg);
    SortContents(live, ByKey(cfg));
    var a, b := PlanOf(cfg, live, cursor, hash, rnd)[i], PlanOf(cfg, live, cursor, hash, rnd)[j];
    assert KeyLe(KeyOf(cfg, a), KeyOf(cfg, b));
  }

  /** The last resort asks measured proxies first, the faster before the slower, and those
      nobody has measured last. */
  lemma {:induction false} FallbackOrder(cfg: RouteCfg, snap: seq<Health.EntryView>, pool: Pool, tried: set<string>,
          now: nat, i: nat, j: nat)
    requires i < j < |FallbackOf(cfg, snap, pool, tried, now)|
    ensures var a, b := FallbackOf(cfg, snap, pool, tried, now)[i], FallbackOf(cfg, snap, pool, tried, now)[j];
            0 < b.latency < 18446744073709551615 ==> 0 < a.latency <= b.latency
  {
    hide StableSort, Eligible, Keep;
    OrdersAreTotal(cfg);
    SortContents(Keep(Eligible(cfg, snap, pool, now), Untried(tried)), ByFallbackLatency());
  }

  // ---- Unmeasured proxies ----

  ghost predicate Before(s: seq<Candidate>, a: Candidate, b: Candidate) {
    exists i, j :: 0 <= i < j < |s| && s[i] == a && s[j] == b
  }

  /** Alike in everything that is compared before latency. */
  predicate SameClass(cfg: RouteCfg, a: Candidate, b: Candidate) {
    KeyOf(cfg, a).(latency := 0) == KeyOf(cfg, b).(latency := 0)
  }

  lemma {:induction false} BeforeCons(x: Candidate, s: seq<Candidate>, a: Candidate, b: Candidate)
    ensures Before([x] + s, a, b) <==> (x == a && b in s) || Before(s, a, b)
  {
    var t := [x] + s;
    if Before(t, a, b) {
      var i, j :| 0 <= i < j < |t| && t[i] == a && t[j] == b;
      assert s[j - 1] == b;
      if i > 0 { assert s[i - 1] == a; }
    }
    if x == a && b in s {
      var j :| 0 <= j < |s| && s[j] == b;
      assert t[0] == a && t[j + 1] == b;
    }
    if Before(s, a, b) {
      var i, j :| 0 <= i < j < |s| && s[i] == a && s[j] == b;
      assert t[i + 1] == a && t[j + 1] == b;
    }
  }

  /** Of candidates that tie, the ties alone tell which stands before which. */
  lemma {:induction false} BeforeInTies(s: seq<Candidate>, a: Candidate, b: Candidate,
          le: (Candidate, Candidate) -> bool)
    requires TotalPreorder(le) && le(a, b) && le(b, a)
    ensures Before(s, a, b) <==> Before(Ties(s, b, le), a, b)
    ensures b in s <==> b in Ties(s, b, le)
  {
    if s != [] {
      var rest := s[1..];
      assert s == [s[0]] + rest;
      BeforeInTies(rest, a, b, le);
      hide Before, TotalPreorder;
      BeforeCons(s[0], rest, a, b);
      if le(s[0], b) && le(b, s[0]) {
        BeforeCons(s[0], Ties(rest, b, le), a, b);
      } else {
        assert [] + Ties(rest, b, le) == Ties(rest, b, le);
      }
    }
  }

  /** In a best-latency or hedged order a measured proxy stands before an unmeasured one of
      its class if and only if its average is 1 ms and it comes first in the snapshot. */
  lemma {:induction false} BeforeUnmeasuredIff(cfg: RouteCfg, live: seq<Candidate>, cursor: nat, hash: nat,
          rnd: nat -> nat, d: Candidate, c: Candidate)
    requires forall k :: rnd(k) <= k
    requires cfg.selector.BestLatency? || cfg.selector.Hedge?
    requires SameClass(cfg, c, d) && c.latency == 0 && d.latency > 0
    ensures var o := Floated(cfg, SelectorOrder(cfg.selector, live, cursor, hash, rnd));
            Before(o, d, c) <==> d.latency == 1 && Before(live, d, c)
  {
    var le := ByKey(cfg);
    OrdersAreTotal(cfg);
    OrderIsOneSort(cfg, live, cursor, hash, rnd);
    SortContents(live, le);
    hide StableSort, Floated, SelectorOrder;
    if d.latency == 1 {
      hide Ties;
      SortIsStable(live, c, le);
      BeforeInTies(live, d, c, le);
      BeforeInTies(StableSort(live, le), d, c, le);
    } else {
      assert !le(d, c);
    }
  }

  /** What the comment on `lat_key` promises of an unmeasured proxy: of the measured ones of
      its class exactly the fastest stand before it. */
  ghost predicate RightAfterFastest(cfg: RouteCfg, live: seq<Candidate>, o: seq<Candidate>, c: Candidate) {
    forall d :: d in live && SameClass(cfg, c, d) && d.latency > 0 ==>
      (Before(o, d, c) <==> forall e :: e in live && SameClass(cfg, c, e) && e.latency > 0 ==> d.latency <= e.latency)
  }

  /** The promise holds if and only if its class has no measured proxy, or has some of 1 ms
      and all of those come before it in the snapshot. */
  lemma {:induction false} RightAfterFastestIff(cfg: RouteCfg, live: seq<Candidate>, cursor: nat, hash: nat,
          rnd: nat -> nat, c: Candidate)
    requires forall k :: rnd(k) <= k
    requires cfg.selector.BestLatency? || cfg.selector.Hedge?
    requires c in live && c.latency == 0
    ensures var o := Floated(cfg, SelectorOrder(cfg.selector, live, cursor, hash, rnd));
            RightAfterFastest(cfg, live, o, c) <==>
              || (forall d :: d in live && SameClass(cfg, c, d) ==> d.latency == 0)
              || ((exists d :: d in live && SameClass(cfg, c, d) && d.latency == 1)
                  && forall d :: d in live && SameClass(cfg, c, d) && d.latency == 1 ==> Before(live, d, c))
  {
    hide SameClass, Before, Floated, SelectorOrder;
    var o := Floated(cfg, SelectorOrder(cfg.selector, live, cursor, hash, rnd));
    forall d | d in live && SameClass(cfg, c, d) && d.latency > 0
      ensures Before(o, d, c) <==> d.latency == 1 && Before(live, d, c)
    {
      BeforeUnmeasuredIff(cfg, live, cursor, hash, rnd, d, c);
    }
    if d :| d in live && SameClass(cfg, c, d) && d.latency > 0 {
      var f := FastestOf(cfg, live, c, d);
      assert RightAfterFastest(cfg, live, o, c) ==> f.latency == 1;
    }
  }

  /** A class with a measured proxy has a fastest one. */
  lemma {:induction false} FastestOf(cfg: RouteCfg, live: seq<Candidate>, c: Candidate, d: Candidate)
    returns (f: Candidate)
    requires d in live && SameClass(cfg, c, d) && d.latency > 0
    ensures f in live && SameClass(cfg, c, f) && f.latency > 0
    ensures forall e :: e in live && SameClass(cfg, c, e) && e.latency > 0 ==> f.latency <= e.latency
    decreases d.latency
  {
    hide SameClass;
    if e :| e in live && SameClass(cfg, c, e) && 0 < e.latency < d.latency {
      f := FastestOf(cfg, live, c, e);
    } else {
      f := d;
    }
  }

  /** An order that breaks the promise: the unmeasured proxy goes before the only measured one. */
  lemma {:induction false} UnmeasuredGoesFirst(cfg: RouteCfg, cursor: nat, hash: nat, rnd: nat -> nat)
    requires forall k :: rnd(k) <= k
    requires (cfg.selector.BestLatency? || cfg.selector.Hedge?) && cfg.maxAttempts >= 2
    ensures var a, b := Candidate("a", [], Healthy, 20), Candidate("b", [], Healthy, 0);
            PlanOf(cfg, [a, b], cursor, hash, rnd) == [b, a]
  {
    var a, b := Candidate("a", [], Healthy, 20), Candidate("b", [], Healthy, 0);
    PlanIsOneSort(cfg, [a, b], cursor, hash, rnd);
    assert [a, b][1..] == [b] && [b][1..] == [];
    assert StableSort([b], ByKey(cfg)) == Insert(b, [], ByKey(cfg)) == [b];
    assert StableSort([a, b], ByKey(cfg)) == Insert(a, [b], ByKey(cfg)) == [b] + Insert(a, [], ByKey(cfg)) == [b, a];
  }

  // ---- Reserve proxies ----

  ghost predicate UsesReserve(plan: seq<Candidate>) { exists c :: c in plan && IsReserve(c) }

  function CountIf(s: seq<Candidate>, p: Candidate -> bool): nat {
    if s == [] then 0 else CountIf(s[..|s| - 1], p) + (if p(s[|s| - 1]) then 1 else 0)
  }

  lemma {:induction false} CountIfOfMultiset(s: seq<Candidate>, t: seq<Candidate>, p: Candidate -> bool)
    requires multiset(s) == multiset(t)
    ensures CountIf(s, p) == CountIf(t, p)
  {
    if s == [] {
      assert |multiset(t)| == 0;
    } else {
      var x := s[|s| - 1];
      assert x in multiset(t);
      var i :| 0 <= i < |t| && t[i] == x;
      assert s == s[..|s| - 1] + [x];
      CountIfRemove(t, i, p);
      CountIfOfMultiset(s[..|s| - 1], t[..i] + t[i + 1..], p);
    }
  }

  lemma {:induction false} CountIfRemove(t: seq<Candidate>, i: nat, p: Candidate -> bool)
    requires i < |t|
    ensures multiset(t[..i] + t[i + 1..]) == multiset(t) - multiset{t[i]}
    ensures CountIf(t, p) == CountIf(t[..i] + t[i + 1..], p) + (if p(t[i]) then 1 else 0)
  {
    RemoveOne(t, i);
    CountIfAppend(t[..i] + [t[i]], t[i + 1..], p);
    CountIfAppend(t[..i], t[i + 1..], p);
    assert (t[..i] + [t[i]])[..i] == t[..i];
  }

  lemma {:induction false} RemoveOne(t: seq<Candidate>, i: nat)
    requires i < |t|
    ensures t == t[..i] + [t[i]] + t[i + 1..]
    ensures multiset(t[..i] + t[i + 1..]) == multiset(t) - multiset{t[i]}
  {
    assert t == t[..i] + [t[i]] + t[i + 1..];
  }

  lemma {:induction false} CountIfAppend(a: seq<Candidate>, b: seq<Candidate>, p: Candidate -> bool)
    ensures CountIf(a + b, p) == CountIf(a, p) + CountIf(b, p)
  {
    if b == [] {
      assert a + b == a;
    } else {
      assert (a + b)[..|a + b| - 1] == a + b[..|b| - 1];
      CountIfAppend(a, b[..|b| - 1], p);
    }
  }

  /** If whoever satisfies `p` stands before whoever does not, those who do fill exactly the
      first places. */
  lemma {:induction false} FrontLoaded(s: seq<Candidate>, p: Candidate -> bool)
    requires forall i, j :: 0 <= i < j < |s| && p(s[j]) ==> p(s[i])
    ensures CountIf(s, p) <= |s|
    ensures forall i :: 0 <= i < |s| ==> (p(s[i]) <==> i < CountIf(s, p))
  {
    if s != [] { FrontLoaded(s[..|s| - 1], p); }
  }

  function PreferredFree(cfg: RouteCfg): Candidate -> bool { (c: Candidate) => IsPreferred(cfg, c) && !IsReserve(c) }

  function PreferredReserve(cfg: RouteCfg): Candidate -> bool { (c: Candidate) => IsPreferred(cfg, c) && IsReserve(c) }

  function OtherReserve(cfg: RouteCfg): Candidate -> bool { (c: Candidate) => !IsPreferred(cfg, c) && IsReserve(c) }

  function Preferred(cfg: RouteCfg): Candidate -> bool { (c: Candidate) => IsPreferred(cfg, c) }

  function PreferredOrFree(cfg: RouteCfg): Candidate -> bool { (c: Candidate) => IsPreferred(cfg, c) || !IsReserve(c) }

  const FREE := (c: Candidate) => !IsReserve(c)

  lemma {:induction false} CountIfSplits(cfg: RouteCfg, s: seq<Candidate>)
    ensures CountIf(s, Preferred(cfg)) == CountIf(s, PreferredFree(cfg)) + CountIf(s, PreferredReserve(cfg))
    ensures CountIf(s, PreferredOrFree(cfg)) + CountIf(s, OtherReserve(cfg)) == |s|
  {
    hide IsPreferred, IsReserve;
    if s != [] { CountIfSplits(cfg, s[..|s| - 1]); }
  }

  /** Preferred before others, and within each group reserve proxies last. */
  lemma {:induction false} FloatedOrder(cfg: RouteCfg, s: seq<Candidate>)
    requires cfg.preferNonReserve
    ensures SortedBy(Floated(cfg, s), Lex(PreferredFirst(cfg), ReserveLast()))
  {
    hide StableSort, TotalPreorder, IsReserve;
    OrdersAreTotal(cfg);
    TwoPassesAreLex(s, PreferredFirst(cfg), ReserveLast());
    SortContents(s, Lex(PreferredFirst(cfg), ReserveLast()));
    SortContents(s, ReserveLast());
  }

  /** Where the reserve proxies stand in an order: behind the preferred free ones if they are
      preferred, at the very end if not. */
  lemma {:induction false} ReserveOrder(cfg: RouteCfg, live: seq<Candidate>, cursor: nat, hash: nat, rnd: nat -> nat)
    requires forall k :: rnd(k) <= k
    requires cfg.preferNonReserve
    ensures var o := Floated(cfg, SelectorOrder(cfg.selector, live, cursor, hash, rnd));
            var pf, pr, nr :=
              CountIf(live, PreferredFree(cfg)), CountIf(live, PreferredReserve(cfg)), CountIf(live, OtherReserve(cfg));
            && PlanOf(cfg, live, cursor, hash, rnd) == Take(o, cfg.maxAttempts)
            && |o| == |live| && multiset(o) == multiset(live)
            && pf + pr + nr <= |live|
            && (forall i :: 0 <= i < |o| ==> (IsReserve(o[i]) <==> pf <= i < pf + pr || i >= |live| - nr))
            && (forall i :: 0 <= i < |o| ==> (IsPreferred(cfg, o[i]) <==> i < pf + pr))
  {
    OrderKeepsLive(cfg, live, cursor, hash, rnd);
    var s := SelectorOrder(cfg.selector, live, cursor, hash, rnd);
    FloatedOrder(cfg, s);
    var o := Floated(cfg, s);
    hide SelectorOrder, Floated, IsPreferred, IsReserve, CountIf;
    FrontLoaded(o, PreferredFree(cfg));
    FrontLoaded(o, Preferred(cfg));
    FrontLoaded(o, PreferredOrFree(cfg));
    CountIfSplits(cfg, live);
    CountIfOfMultiset(o, live, PreferredFree(cfg));
    CountIfOfMultiset(o, live, Preferred(cfg));
    CountIfOfMultiset(o, live, PreferredOrFree(cfg));
    hide SortedBy;
    forall i | 0 <= i < |o|
      ensures IsReserve(o[i]) <==> !PreferredOrFree(cfg)(o[i]) || (Preferred(cfg)(o[i]) && !PreferredFree(cfg)(o[i]))
    {
    }
    CountsAreOrdered(cfg, live);
  }

  lemma {:induction false} CountsAreOrdered(cfg: RouteCfg, s: seq<Candidate>)
    ensures CountIf(s, Preferred(cfg)) <= CountIf(s, PreferredOrFree(cfg))
  {
    hide IsPreferred, IsReserve;
    if s != [] { CountsAreOrdered(cfg, s[..|s| - 1]); }
  }

  /** A reserve proxy is planned only behind every live non-reserve proxy, whatever the
      selector, unless it is preferred and that other one is not. */
  lemma {:induction false} ReserveOnlyBehindAllOthers(cfg: RouteCfg, live: seq<Candidate>, cursor: nat, hash: nat,
          rnd: nat -> nat, i: nat, c: Candidate)
    requires forall k :: rnd(k) <= k
    requires cfg.preferNonReserve
    requires i < |PlanOf(cfg, live, cursor, hash, rnd)| && IsReserve(PlanOf(cfg, live, cursor, hash, rnd)[i])
    requires c in live && !IsReserve(c)
             && (IsPreferred(cfg, PlanOf(cfg, live, cursor, hash, rnd)[i]) ==> IsPreferred(cfg, c))
    ensures c in PlanOf(cfg, live, cursor, hash, rnd)[..i]
  {
    ReserveOrder(cfg, live, cursor, hash, rnd);
    var o, plan := Floated(cfg, SelectorOrder(cfg.selector, live, cursor, hash, rnd)),
      PlanOf(cfg, live, cursor, hash, rnd);
    hide SelectorOrder, Floated, PlanOf, IsPreferred, IsReserve, CountIf;
    assert plan[i] == o[i];
    assert c in multiset(o);
    var j :| 0 <= j < |o| && o[j] == c;
    assert j < i;
    assert plan[..i][j] == c;
  }

  /** With the option on, a plan holds a reserve proxy exactly when a preferred one is live and the preferred
      others leave room under the cap, or another one is live and everybody else does. */
  lemma {:induction false} ReserveUsedByCounts(cfg: RouteCfg, live: seq<Candidate>, cursor: nat, hash: nat,
          rnd: nat -> nat)
    requires forall k :: rnd(k) <= k
    requires cfg.preferNonReserve
    ensures var pf, pr, nr :=
              CountIf(live, PreferredFree(cfg)), CountIf(live, PreferredReserve(cfg)), CountIf(live, OtherReserve(cfg));
            UsesReserve(PlanOf(cfg, live, cursor, hash, rnd)) <==>
              (pr > 0 && pf < cfg.maxAttempts) || (nr > 0 && |live| - nr < cfg.maxAttempts)
  {
    ReserveOrder(cfg, live, cursor, hash, rnd);
    var pf, pr, nr :=
      CountIf(live, PreferredFree(cfg)), CountIf(live, PreferredReserve(cfg)), CountIf(live, OtherReserve(cfg));
    var o, plan := Floated(cfg, SelectorOrder(cfg.selector, live, cursor, hash, rnd)),
      PlanOf(cfg, live, cursor, hash, rnd);
    hide SelectorOrder, Floated, PlanOf, IsPreferred, IsReserve, CountIf;
    if UsesReserve(plan) {
      var c :| c in plan && IsReserve(c);
      var i :| 0 <= i < |plan| && plan[i] == c;
      assert o[i] == c;
    }
    if pr > 0 && pf < cfg.maxAttempts { assert plan[pf] == o[pf]; }
    if nr > 0 && |live| - nr < cfg.maxAttempts { assert plan[|live| - nr] == o[|live| - nr]; }
  }

  lemma {:induction false} NoFreeIff(s: seq<Candidate>)
    ensures CountIf(s, FREE) == 0 <==> forall c :: c in s ==> IsReserve(c)
  {
    if s != [] {
      NoFreeIff(s[..|s| - 1]);
      assert s == s[..|s| - 1] + [s[|s| - 1]];
    }
  }

  const HEALTHY_FREE := Candidate("socks5://a:1", [], Healthy, 10)

  const HEALTHY_RESERVE := Candidate("socks5://b:1", ["reserve"], Healthy, 10)

  const PREFERRED_RESERVE := Candidate("socks5://c:1", ["reserve", "x"], Healthy, 10)

  lemma {:induction false} WhoIsReserve()
    ensures !IsReserve(HEALTHY_FREE) && IsReserve(HEALTHY_RESERVE) && IsReserve(PREFERRED_RESERVE)
  {
    assert "reserve" in ["reserve"] && "reserve" in ["reserve", "x"];
  }

  /** A plan in which the documented promise fails: one healthy proxy, one reserve, room for two. */
  lemma {:induction false} ReserveUsedBesideHealthy(cfg: RouteCfg, rnd: nat -> nat)
    requires forall k :: rnd(k) <= k
    requires cfg.preferNonReserve && cfg.preferTags == [] && cfg.maxAttempts >= 2
    ensures var live := [HEALTHY_FREE, HEALTHY_RESERVE];
            && UsesReserve(PlanOf(cfg, live, 0, 0, rnd))
            && exists c :: c in live && !IsReserve(c)
  {
    hide PlanOf, UsesReserve;
    var live := [HEALTHY_FREE, HEALTHY_RESERVE];
    WhoIsReserve();
    assert !IsPreferred(cfg, HEALTHY_FREE) && !IsPreferred(cfg, HEALTHY_RESERVE);
    hide IsReserve, IsPreferred;
    assert live[..1] == [HEALTHY_FREE] && [HEALTHY_FREE][..0] == [];
    assert CountIf([HEALTHY_FREE], OtherReserve(cfg)) == 0;
    assert CountIf(live, OtherReserve(cfg)) == 1;
    ReserveUsedByCounts(cfg, live, 0, 0, rnd);
    assert HEALTHY_FREE in live;
  }

  /** And one in which it fails worst: a preferred reserve proxy takes the only place from a
      healthy proxy. */
  lemma {:induction false} PreferredReserveDisplacesHealthy(cfg: RouteCfg, rnd: nat -> nat)
    requires forall k :: rnd(k) <= k
    requires cfg.preferNonReserve && cfg.preferTags == ["x"] && cfg.maxAttempts == 1
    ensures PlanOf(cfg, [HEALTHY_FREE, PREFERRED_RESERVE], 0, 0, rnd) == [PREFERRED_RESERVE]
  {
    var live := [HEALTHY_FREE, PREFERRED_RESERVE];
    WhoIsReserve();
    ReserveOrder(cfg, live, 0, 0, rnd);
    var o := Floated(cfg, SelectorOrder(cfg.selector, live, 0, 0, rnd));
    assert "x" in cfg.preferTags && "x" in ["reserve", "x"];
    assert IsPreferred(cfg, PREFERRED_RESERVE) && !IsPreferred(cfg, HEALTHY_FREE);
    hide SelectorOrder, Floated, PlanOf, IsPreferred, IsReserve;
    assert live[..1] == [HEALTHY_FREE] && [HEALTHY_FREE][..0] == [];
    assert CountIf([HEALTHY_FREE], PreferredReserve(cfg)) == 0;
    assert CountIf(live, PreferredReserve(cfg)) == 1;
    assert o[0] in multiset(o);
    assert o[0] in live;
  }

  // ---- Random ----

  /** The random selector gives the live proxies, tiers in order. */
  lemma {:induction false} RandomIsTierSorted(live: seq<Candidate>, cursor: nat, hash: nat, rnd: nat -> nat)
    requires forall k :: rnd(k) <= k
    ensures var o := SelectorOrder(Random, live, cursor, hash, rnd);
            SortedBy(o, ByTier()) && multiset(o) == multiset(live)
  {
    SelectorKeeps(Random, live, cursor, hash, rnd);
    var t := StableSort(live, ByTier());
    SortContents(Shuffle(t, if t == [] then 0 else |t| - 1, rnd), ByTier());
  }

  predicate IsDraws(f: seq<nat>) { forall k :: 0 <= k < |f| ==> f[k] <= k }

  function Draws(f: seq<nat>): nat -> nat
    requires IsDraws(f)
  {
    (k: nat) => if k < |f| then f[k] else 0
  }

  /** Any arrangement of the first `i + 1` elements comes out of some draws. */
  lemma {:induction false} ShuffleReaches(s: seq<Candidate>, i: nat, goal: seq<Candidate>) returns (f: seq<nat>)
    requires |s| == |goal| && (i < |s| || i == 0)
    requires multiset(s) == multiset(goal) && s[Min(i + 1, |s|)..] == goal[Min(i + 1, |s|)..]
    ensures |f| == i + 1 && IsDraws(f)
    ensures Shuffle(s, i, Draws(f)) == goal
    decreases i
  {
    if i == 0 {
      f := [0];
      if |s| > 0 { HeadOf(s, goal); }
    } else {
      assert Min(i + 1, |s|) == i + 1 && Min(i, |s|) == i;
      hide Shuffle, Draws, Min;
      var j := FindInPrefix(s, goal, i);
      var t := Swap(s, i, j);
      SwapFixes(s, goal, i, j);
      hide Swap;
      var g := ShuffleReaches(t, i - 1, goal);
      f := g + [j];
      OneMoreDraw(s, i, j, g);
    }
  }

  lemma {:induction false} OneMoreDraw(s: seq<Candidate>, i: nat, j: nat, g: seq<nat>)
    requires 0 < i < |s| && j <= i == |g| && IsDraws(g)
    ensures IsDraws(g + [j])
    ensures Shuffle(s, i, Draws(g + [j])) == Shuffle(Swap(s, i, j), i - 1, Draws(g))
  {
    var f := g + [j];
    assert Draws(f)(i) == j;
    SameDraws(Swap(s, i, j), i - 1, Draws(g), Draws(f));
  }

  lemma {:induction false} SwapFixes(s: seq<Candidate>, goal: seq<Candidate>, i: nat, j: nat)
    requires j <= i < |s| == |goal| && s[i + 1..] == goal[i + 1..] && s[j] == goal[i]
    ensures multiset(Swap(s, i, j)) == multiset(s) && Swap(s, i, j)[i..] == goal[i..]
  {
    assert Swap(s, i, j)[i..] == [goal[i]] + s[i + 1..];
    assert goal[i..] == [goal[i]] + goal[i + 1..];
  }

  lemma {:induction false} HeadOf(s: seq<Candidate>, goal: seq<Candidate>)
    requires |s| == |goal| > 0 && multiset(s) == multiset(goal) && s[1..] == goal[1..]
    ensures s == goal
  {
    assert s == [s[0]] + s[1..] && goal == [goal[0]] + goal[1..];
    assert multiset{s[0]} == multiset(s) - multiset(s[1..]) == multiset{goal[0]};
    assert goal[0] in multiset{s[0]};
  }

  lemma {:induction false} FindInPrefix(s: seq<Candidate>, goal: seq<Candidate>, i: nat) returns (j: nat)
    requires i < |s| == |goal| && multiset(s) == multiset(goal) && s[i + 1..] == goal[i + 1..]
    ensures j <= i && s[j] == goal[i]
  {
    assert s == s[..i + 1] + s[i + 1..] && goal == goal[..i + 1] + goal[i + 1..];
    assert multiset(s[..i + 1]) == multiset(s) - multiset(s[i + 1..]) == multiset(goal[..i + 1]);
    assert goal[i] == goal[..i + 1][i];
    assert goal[i] in multiset(s[..i + 1]);
    j :| 0 <= j < i + 1 && s[..i + 1][j] == goal[i];
  }

  lemma {:induction false} SameDraws(s: seq<Candidate>, i: nat, rnd: nat -> nat, rnd': nat -> nat)
    requires i < |s| || i == 0
    requires forall k :: rnd(k) <= k && rnd'(k) <= k
    requires forall k :: 0 <= k <= i ==> rnd(k) == rnd'(k)
    ensures Shuffle(s, i, rnd) == Shuffle(s, i, rnd')
    decreases i
  {
    if i > 0 { SameDraws(Swap(s, i, rnd(i)), i - 1, rnd, rnd'); }
  }

  /** Every arrangement that respects the tiers comes out of some sequence of draws. */
  lemma {:induction false} RandomReachesEveryOrder(live: seq<Candidate>, goal: seq<Candidate>, cursor: nat, hash: nat)
    requires multiset(goal) == multiset(live) && SortedBy(goal, ByTier())
    ensures exists f: seq<nat> :: IsDraws(f) && SelectorOrder(Random, live, cursor, hash, Draws(f)) == goal
  {
    hide StableSort, Shuffle, ByTier, Draws;
    var t := StableSort(live, ByTier());
    SortContents(live, ByTier());
    assert |goal| == |multiset(goal)| == |multiset(live)| == |t|;
    var i := if t == [] then 0 else |t| - 1;
    var f := ShuffleReaches(t, i, goal);
    SortSortedIsIdentity(goal, ByTier());
  }

  // ---- Round robin ----

  /** A round-robin order starts at the cursor's place and goes round once. */
  lemma {:induction false} RoundRobinRotates(live: seq<Candidate>, cursor: nat, hash: nat, rnd: nat -> nat)
    requires forall k :: rnd(k) <= k
    requires |live| > 1
    ensures var sorted := StableSort(live, ByTierLatency());
            |sorted| == |live|
            && SelectorOrder(RoundRobin, live, cursor, hash, rnd) == Rotate(sorted, Slot(cursor, |live|))
  {
    SortContents(live, ByTierLatency());
  }

  /** Any `n` consecutive cursor values make the selector's order begin with each of the `n`
      candidates exactly once. The floats come after that. */
  lemma {:induction false} EachStartsOnce(live: seq<Candidate>, c: nat, hash: nat, rnd: nat -> nat, k: nat)
    returns (turn: nat)
    requires forall k :: rnd(k) <= k
    requires |live| > 1 && k < |live|
    ensures var sorted := StableSort(live, ByTierLatency());
            && c <= turn < c + |live| && |sorted| == |live|
            && SelectorOrder(RoundRobin, live, turn, hash, rnd) == Rotate(sorted, k)
    ensures forall d: nat :: c <= d < c + |live| ==> (Slot(d, |live|) == k <==> d == turn)
  {
    SortContents(live, ByTierLatency());
    turn := TurnOf(c, |live|, k);
    RoundRobinRotates(live, turn, hash, rnd);
  }

  // ---- Records and tiers ----

  /** A won attempt clears every reason not to use the proxy on the route but latency and
      the global flag; a ban, whatever it replaces, keeps it out until it ends, and no
      longer; a fatal loss takes it out everywhere. */
  lemma TierAfterAttempt(e: Health.EntryView, cfg: RouteCfg, latency: nat, ban: nat, now: nat, later: nat)
    ensures var won := Health.Apply(e, Health.AttemptWon(cfg.id, latency));
            EntryTier(won, cfg, later) ==
              if e.fatal then Fatal
              else if cfg.failStreak == 0 then Failed
              else if Health.RouteOf(won, cfg.id).avg > cfg.slowMs then Slow
              else Healthy
    ensures var lost := Health.Apply(e, Health.AttemptLost(cfg.id, Some(latency), cfg.slowMs, Some(ban), false, now));
            EntryTier(lost, cfg, later) == Banned <==> !e.fatal && later < Min(now + ban, Health.U64_MAX)
    ensures EntryTier(Health.Apply(e, Health.AttemptLost(cfg.id, None, cfg.slowMs, None, true, now)), cfg, later)
              == Fatal
  {
  }

  /** A record that ends a permanent ban on `route`: a win, a restoring probe, or the
      shorter ban of a later loss. */
  predicate Lifts(op: Health.HealthOp, route: Health.RouteId) {
    || op == Health.ProbeRestored(route)
    || (op.AttemptWon? && op.route == route)
    || (op.AttemptLost? && op.route == route && op.ban.Some? && op.now + op.ban.value < Health.U64_MAX)
  }

  /** A permanent ban ends exactly by one of those. */
  lemma PermanentBanEndsIff(e: Health.EntryView, op: Health.HealthOp, route: Health.RouteId)
    requires Health.RouteOf(e, route).bannedUntil == Health.U64_MAX
    ensures Health.RouteOf(Health.Apply(e, op), route).bannedUntil != Health.U64_MAX <==> Lifts(op, route)
  {
  }

  /** A proxy whose probe gave the route up stays out of its plans, whatever happens to it,
      until a record lifts the ban. */
  lemma {:induction false} GivenUpStaysOut(e: Health.EntryView, cfg: RouteCfg, ops: seq<Health.HealthOp>, later: nat)
    requires forall op :: op in ops ==> !Lifts(op, cfg.id)
    requires later < Health.U64_MAX
    ensures var f := Health.ApplyAll(Health.Apply(e, Health.ProbeGaveUp(cfg.id)), ops);
            Health.RouteOf(f, cfg.id).bannedUntil == Health.U64_MAX && Dead(EntryTier(f, cfg, later))
  {
    if ops != [] {
      var front, op := ops[..|ops| - 1], ops[|ops| - 1];
      forall p | p in front ensures !Lifts(p, cfg.id) { assert p in ops; }
      assert op in ops;
      GivenUpStaysOut(e, cfg, front, later);
      hide Lifts, Health.Apply;
      PermanentBanEndsIff(Health.ApplyAll(Health.Apply(e, Health.ProbeGaveUp(cfg.id)), front), op, cfg.id);
    }
  }
}
