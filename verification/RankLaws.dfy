/** Where each proxy stands in a best-latency or hedged plan, counted from the live list. */
module RankLaws {
  import opened Prelude
  import opened Sorting
  import opened Plan
  import opened PlanLaws
  import opened Turns

  /** How many candidates go before place `k` of a list: the better ones, and the equal ones
      in front of it. */
  function Ahead(s: seq<Candidate>, k: nat, le: (Candidate, Candidate) -> bool): nat
    requires k < |s|
    decreases |s|
  {
    if k == 0 then CountIf(s[1..], Better(s[0], le))
    else (if le(s[0], s[k]) then 1 else 0) + Ahead(s[1..], k - 1, le)
  }

  function Better(x: Candidate, le: (Candidate, Candidate) -> bool): Candidate -> bool { (c: Candidate) => !le(x, c) }

  /** Where `x` is put into a sorted list: behind exactly the better ones. */
  lemma {:induction false} InsertedAt(x: Candidate, s: seq<Candidate>, le: (Candidate, Candidate) -> bool)
    requires TotalPreorder(le) && SortedBy(s, le)
    ensures var j := CountIf(s, Better(x, le));
            && j <= |s| && Insert(x, s, le) == s[..j] + [x] + s[j..]
            && (forall i :: 0 <= i < |s| ==> (le(x, s[i]) <==> i >= j))
  {
    forall i, j | 0 <= i < j < |s| && Better(x, le)(s[j]) ensures Better(x, le)(s[i]) { assert le(s[i], s[j]); }
    FrontLoaded(s, Better(x, le));
    hide CountIf, TotalPreorder, SortedBy;
    PutAt(x, s, CountIf(s, Better(x, le)), le);
  }

  lemma {:induction false} PutAt(x: Candidate, s: seq<Candidate>, j: nat, le: (Candidate, Candidate) -> bool)
    requires j <= |s| && forall i :: 0 <= i < |s| ==> (le(x, s[i]) <==> i >= j)
    ensures Insert(x, s, le) == s[..j] + [x] + s[j..]
  {
    if j == 0 {
      InsertStops(x, s, le);
      assert s[..0] + [x] + s[0..] == [x] + s;
    } else {
      InsertPasses(x, s, 0, le);
      assert s[0..] == s;
      PutAt(x, s[1..], j - 1, le);
      assert s[..j] + [x] + s[j..] == [s[0]] + (s[1..][..j - 1] + [x] + s[1..][j - 1..]);
    }
  }

  /** Sorting puts every place of the list where its rank says. */
  lemma {:induction false} RankIsPlace(s: seq<Candidate>, k: nat, le: (Candidate, Candidate) -> bool)
    requires TotalPreorder(le) && k < |s|
    ensures Ahead(s, k, le) < |s| == |StableSort(s, le)| && StableSort(s, le)[Ahead(s, k, le)] == s[k]
  {
    var h, rest := s[0], s[1..];
    var t := StableSort(rest, le);
    var j := CountIf(t, Better(h, le));
    assert StableSort(s, le) == Insert(h, t, le);
    SortContents(rest, le);
    InsertedAt(h, t, le);
    CountIfOfMultiset(t, rest, Better(h, le));
    hide CountIf, StableSort, Insert, TotalPreorder, SortedBy;
    if k > 0 {
      RankIsPlace(rest, k - 1, le);
      Shifted(t, j, h, Ahead(rest, k - 1, le));
    }
  }

  lemma Shifted(t: seq<Candidate>, j: nat, h: Candidate, i: nat)
    requires j <= |t| && i < |t|
    ensures |t[..j] + [h] + t[j..]| == |t| + 1 && (t[..j] + [h] + t[j..])[if i < j then i else i + 1] == t[i]
  {
  }

  /** And every place of the order is some place's rank. */
  lemma {:induction false} PlaceIsRank(s: seq<Candidate>, i: nat, le: (Candidate, Candidate) -> bool) returns (k: nat)
    requires TotalPreorder(le) && i < |s|
    ensures k < |s| && Ahead(s, k, le) == i
  {
    var h, rest := s[0], s[1..];
    var t := StableSort(rest, le);
    SortContents(rest, le);
    InsertedAt(h, t, le);
    CountIfOfMultiset(t, rest, Better(h, le));
    var j := CountIf(rest, Better(h, le));
    hide CountIf, StableSort, TotalPreorder;
    if i == j {
      k := 0;
    } else {
      var q := if i < j then i else i - 1;
      var r := PlaceIsRank(rest, q, le);
      RankIsPlace(rest, r, le);
      k := r + 1;
    }
  }

  /** A best-latency or hedged plan holds a live proxy if and only if fewer than `maxAttempts`
      go before it, and then at that place. */
  lemma {:induction false} PlannedIff(cfg: RouteCfg, live: seq<Candidate>, cursor: nat, hash: nat, rnd: nat -> nat,
          k: nat)
    requires forall k :: rnd(k) <= k
    requires cfg.selector.BestLatency? || cfg.selector.Hedge?
    requires k < |live|
    ensures var plan, r := PlanOf(cfg, live, cursor, hash, rnd), Ahead(live, k, ByKey(cfg));
            if r < cfg.maxAttempts then r < |plan| && plan[r] == live[k] else r >= |plan|
  {
    hide StableSort, TotalPreorder, PlanOf, Ahead;
    PlanIsOneSort(cfg, live, cursor, hash, rnd);
    OrdersAreTotal(cfg);
    RankIsPlace(live, k, ByKey(cfg));
  }

  /** So, whatever the options, such a plan uses a reserve proxy if and only if fewer than
      `maxAttempts` live proxies go before one. */
  lemma {:induction false} ReserveUsedByRankIff(cfg: RouteCfg, live: seq<Candidate>, cursor: nat, hash: nat,
          rnd: nat -> nat)
    requires forall k :: rnd(k) <= k
    requires cfg.selector.BestLatency? || cfg.selector.Hedge?
    ensures UsesReserve(PlanOf(cfg, live, cursor, hash, rnd)) <==>
              exists k: nat :: k < |live| && IsReserve(live[k]) && Ahead(live, k, ByKey(cfg)) < cfg.maxAttempts
  {
    hide StableSort, TotalPreorder, PlanOf, Ahead, IsReserve;
    var plan := PlanOf(cfg, live, cursor, hash, rnd);
    forall k: nat | k < |live| && IsReserve(live[k]) && Ahead(live, k, ByKey(cfg)) < cfg.maxAttempts
      ensures UsesReserve(plan)
    {
      PlannedIff(cfg, live, cursor, hash, rnd, k);
      assert live[k] in plan;
    }
    if UsesReserve(plan) {
      var c :| c in plan && IsReserve(c);
      var i :| 0 <= i < |plan| && plan[i] == c;
      PlanIsOneSort(cfg, live, cursor, hash, rnd);
      OrdersAreTotal(cfg);
      SortContents(live, ByKey(cfg));
      var k := PlaceIsRank(live, i, ByKey(cfg));
      RankIsPlace(live, k, ByKey(cfg));
      assert live[k] == c;
    }
  }

  // ---- Any selector ----

  /** Place `k` of what the selector made is planned if and only if fewer than `maxAttempts`
      go before it in the floats. */
  lemma {:induction false} PlannedByFloatIff(cfg: RouteCfg, live: seq<Candidate>, cursor: nat, hash: nat,
          rnd: nat -> nat, k: nat)
    requires forall k :: rnd(k) <= k
    requires k < |live|
    ensures var s, plan := SelectorOrder(cfg.selector, live, cursor, hash, rnd), PlanOf(cfg, live, cursor, hash, rnd);
            && |s| == |live|
            && var r := Ahead(s, k, ByFloat(cfg));
               if r < cfg.maxAttempts then r < |plan| && plan[r] == s[k] else r >= |plan|
  {
    var s := SelectorOrder(cfg.selector, live, cursor, hash, rnd);
    SelectorKeeps(cfg.selector, live, cursor, hash, rnd);
    hide SelectorOrder, Floated, StableSort, TotalPreorder, Ahead;
    FloatedIsOneSort(cfg, s);
    FloatIsTotal(cfg);
    RankIsPlace(s, k, ByFloat(cfg));
  }

  /** A reserve proxy stands at a place of `s` that `cap` leaves in. */
  ghost predicate ReserveWithin(cfg: RouteCfg, s: seq<Candidate>, cap: nat) {
    exists k: nat :: k < |s| && IsReserve(s[k]) && Ahead(s, k, ByFloat(cfg)) < cap
  }

  /** Whatever the selector and the options, a plan uses a reserve proxy if and only if fewer
      than `maxAttempts` go before one in the floats. With `prefer_non_reserve` on it takes
      counting only: a preferred one is live and the preferred others leave room, or another
      one is live and everybody else does. With room for all it takes one to be live. */
  lemma {:induction false} ReserveUsedIff(cfg: RouteCfg, live: seq<Candidate>, cursor: nat, hash: nat, rnd: nat -> nat)
    requires forall k :: rnd(k) <= k
    ensures var used := UsesReserve(PlanOf(cfg, live, cursor, hash, rnd));
            var pf, pr, nr :=
              CountIf(live, PreferredFree(cfg)), CountIf(live, PreferredReserve(cfg)), CountIf(live, OtherReserve(cfg));
            && (used <==> ReserveWithin(cfg, SelectorOrder(cfg.selector, live, cursor, hash, rnd), cfg.maxAttempts))
            && (cfg.preferNonReserve ==>
                  (used <==> (pr > 0 && pf < cfg.maxAttempts) || (nr > 0 && |live| - nr < cfg.maxAttempts)))
            && (|live| <= cfg.maxAttempts ==> (used <==> exists c :: c in live && IsReserve(c)))
  {
    hide SelectorOrder, PlanOf, ReserveWithin, UsesReserve, CountIf;
    UsedWithin(cfg, live, cursor, hash, rnd);
    if cfg.preferNonReserve { ReserveUsedByCounts(cfg, live, cursor, hash, rnd); }
    if |live| <= cfg.maxAttempts { UsedWhenAllFit(cfg, live, cursor, hash, rnd); }
  }

  lemma {:induction false} UsedWithin(cfg: RouteCfg, live: seq<Candidate>, cursor: nat, hash: nat, rnd: nat -> nat)
    requires forall k :: rnd(k) <= k
    ensures UsesReserve(PlanOf(cfg, live, cursor, hash, rnd)) <==>
              ReserveWithin(cfg, SelectorOrder(cfg.selector, live, cursor, hash, rnd), cfg.maxAttempts)
  {
    var s, plan := SelectorOrder(cfg.selector, live, cursor, hash, rnd), PlanOf(cfg, live, cursor, hash, rnd);
    SelectorKeeps(cfg.selector, live, cursor, hash, rnd);
    hide SelectorOrder, PlanOf, Ahead, IsReserve;
    forall k: nat | k < |s| && IsReserve(s[k]) && Ahead(s, k, ByFloat(cfg)) < cfg.maxAttempts
      ensures UsesReserve(plan)
    {
      PlannedByFloatIff(cfg, live, cursor, hash, rnd, k);
      assert s[k] in plan;
    }
    if UsesReserve(plan) {
      var c :| c in plan && IsReserve(c);
      var i :| 0 <= i < |plan| && plan[i] == c;
      PlanFits(cfg, live, cursor, hash, rnd);
      FloatIsTotal(cfg);
      hide TotalPreorder;
      var k := PlaceIsRank(s, i, ByFloat(cfg));
      PlannedByFloatIff(cfg, live, cursor, hash, rnd, k);
      assert s[k] == c;
    }
  }

  lemma {:induction false} PlanFits(cfg: RouteCfg, live: seq<Candidate>, cursor: nat, hash: nat, rnd: nat -> nat)
    requires forall k :: rnd(k) <= k
    ensures |PlanOf(cfg, live, cursor, hash, rnd)| == Min(|live|, cfg.maxAttempts)
    ensures |live| <= cfg.maxAttempts ==> multiset(PlanOf(cfg, live, cursor, hash, rnd)) == multiset(live)
  {
    hide SelectorOrder, Floated;
    OrderKeepsLive(cfg, live, cursor, hash, rnd);
  }

  lemma {:induction false} UsedWhenAllFit(cfg: RouteCfg, live: seq<Candidate>, cursor: nat, hash: nat, rnd: nat -> nat)
    requires forall k :: rnd(k) <= k
    requires |live| <= cfg.maxAttempts
    ensures UsesReserve(PlanOf(cfg, live, cursor, hash, rnd)) <==> exists c :: c in live && IsReserve(c)
  {
    hide PlanOf, IsReserve;
    PlanFits(cfg, live, cursor, hash, rnd);
    var plan := PlanOf(cfg, live, cursor, hash, rnd);
    assert forall c :: c in plan <==> c in multiset(plan);
    assert forall c :: c in live <==> c in multiset(live);
  }

  /** The documented promise "reserve only when every non-reserve proxy is down" holds of a plan
      if and only if no non-reserve proxy is live, or no reserve proxy finds room. */
  lemma {:induction false} DocumentedReservePromiseIff(cfg: RouteCfg, live: seq<Candidate>, cursor: nat, hash: nat,
          rnd: nat -> nat)
    requires forall k :: rnd(k) <= k
    ensures var promise := UsesReserve(PlanOf(cfg, live, cursor, hash, rnd)) ==> forall c :: c in live ==> IsReserve(c);
            var pf, pr, nr :=
              CountIf(live, PreferredFree(cfg)), CountIf(live, PreferredReserve(cfg)), CountIf(live, OtherReserve(cfg));
            && (promise <==> CountIf(live, FREE) == 0
                             || !ReserveWithin(cfg, SelectorOrder(cfg.selector, live, cursor, hash, rnd),
                                  cfg.maxAttempts))
            && (cfg.preferNonReserve ==>
                  (promise <==> CountIf(live, FREE) == 0
                                || ((pr == 0 || pf >= cfg.maxAttempts) && (nr == 0 || |live| - nr >= cfg.maxAttempts))))
  {
    hide UsesReserve, PlanOf, ReserveWithin, SelectorOrder, CountIf;
    ReserveUsedIff(cfg, live, cursor, hash, rnd);
    NoFreeIff(live);
  }

  /** The place a rotating selector starts at. */
  function StartOf(sel: Selector, cursor: nat, hash: nat, n: nat): (k: nat)
    requires n > 0
    ensures k < n
  {
    Slot(if sel.RoundRobin? then cursor else hash, n)
  }

  /** With neither float a rotating selector plans a reserve proxy if and only if one stands
      among the `maxAttempts` places from its start on. */
  lemma {:induction false} RotatingReserveIff(cfg: RouteCfg, live: seq<Candidate>, cursor: nat, hash: nat,
          rnd: nat -> nat)
    requires forall k :: rnd(k) <= k
    requires cfg.selector.RoundRobin? || cfg.selector.StickyByHeader?
    requires !cfg.preferNonReserve && cfg.preferTags == [] && live != []
    ensures var sorted, start := StableSort(live, ByTierLatency()), StartOf(cfg.selector, cursor, hash, |live|);
            |sorted| == |live| &&
            (UsesReserve(PlanOf(cfg, live, cursor, hash, rnd)) <==>
              exists i: nat :: i < |live| && i < cfg.maxAttempts && IsReserve(sorted[From(start, i, |live|)]))
  {
    hide PlanOf, StableSort, IsReserve, StartOf;
    var sorted, start, plan :=
      StableSort(live, ByTierLatency()), StartOf(cfg.selector, cursor, hash, |live|),
        PlanOf(cfg, live, cursor, hash, rnd);
    RotatingPlan(cfg, live, cursor, hash, rnd);
    if UsesReserve(plan) {
      var c :| c in plan && IsReserve(c);
      var i :| 0 <= i < |plan| && plan[i] == c;
      assert sorted[From(start, i, |live|)] == c;
    }
    forall i: nat | i < |live| && i < cfg.maxAttempts && IsReserve(sorted[From(start, i, |live|)])
      ensures UsesReserve(plan)
    {
      assert plan[i] in plan;
    }
  }

  lemma {:induction false} RotatingPlan(cfg: RouteCfg, live: seq<Candidate>, cursor: nat, hash: nat, rnd: nat -> nat)
    requires forall k :: rnd(k) <= k
    requires cfg.selector.RoundRobin? || cfg.selector.StickyByHeader?
    requires !cfg.preferNonReserve && cfg.preferTags == [] && live != []
    ensures var sorted, start := StableSort(live, ByTierLatency()), StartOf(cfg.selector, cursor, hash, |live|);
            var plan := PlanOf(cfg, live, cursor, hash, rnd);
            && |sorted| == |live| && |plan| == Min(|live|, cfg.maxAttempts)
            && forall i: nat :: i < |plan| ==> plan[i] == sorted[From(start, i, |live|)]
  {
    hide StableSort, SelectorOrder, StartOf, Rotate;
    SelectorRotates(cfg.selector, live, cursor, hash, rnd);
    TakeOfRotation(StableSort(live, ByTierLatency()), StartOf(cfg.selector, cursor, hash, |live|), cfg.maxAttempts);
  }

  lemma {:induction false} TakeOfRotation(s: seq<Candidate>, start: nat, cap: nat)
    requires start < |s|
    ensures var t := Take(Rotate(s, start), cap);
            |t| == Min(|s|, cap) && forall i: nat :: i < |t| ==> t[i] == s[From(start, i, |s|)]
  {
    hide Rotate;
    RotateKeeps(s, start);
  }

  lemma {:induction false} SelectorRotates(sel: Selector, live: seq<Candidate>, cursor: nat, hash: nat, rnd: nat -> nat)
    requires forall k :: rnd(k) <= k
    requires (sel.RoundRobin? || sel.StickyByHeader?) && live != []
    ensures var sorted, start := StableSort(live, ByTierLatency()), StartOf(sel, cursor, hash, |live|);
            |sorted| == |live| && SelectorOrder(sel, live, cursor, hash, rnd) == Rotate(sorted, start)
  {
    SortContents(live, ByTierLatency());
    hide StableSort;
    if |live| == 1 {
      var sorted := StableSort(live, ByTierLatency());
      assert sorted[0..] + sorted[..0] == sorted;
    }
  }

  /** The random selector, then, has draws with which it plans a reserve proxy if and only if
      fewer than `maxAttempts` live ones are of a better tier than one. */
  lemma {:induction false} RandomReserveIff(cfg: RouteCfg, live: seq<Candidate>, cursor: nat, hash: nat)
    requires cfg.selector.Random? && !cfg.preferNonReserve && cfg.preferTags == []
    ensures (exists f: seq<nat> :: IsDraws(f) && UsesReserve(PlanOf(cfg, live, cursor, hash, Draws(f)))) <==>
              exists c :: c in live && IsReserve(c) && CountIf(live, Better(c, ByTier())) < cfg.maxAttempts
  {
    hide UsesReserve, PlanOf, IsReserve, CountIf;
    if f: seq<nat> :| IsDraws(f) && UsesReserve(PlanOf(cfg, live, cursor, hash, Draws(f))) {
      var c := RandomReserve(cfg, live, cursor, hash, Draws(f));
    }
    if c :| c in live && IsReserve(c) && CountIf(live, Better(c, ByTier())) < cfg.maxAttempts {
      var f := DrawReserve(cfg, live, cursor, hash, c);
    }
  }

  lemma {:induction false} RandomReserve(cfg: RouteCfg, live: seq<Candidate>, cursor: nat, hash: nat, rnd: nat -> nat)
    returns (c: Candidate)
    requires forall k :: rnd(k) <= k
    requires cfg.selector.Random? && !cfg.preferNonReserve && cfg.preferTags == []
    requires UsesReserve(PlanOf(cfg, live, cursor, hash, rnd))
    ensures c in live && IsReserve(c) && CountIf(live, Better(c, ByTier())) < cfg.maxAttempts
  {
    var s, plan := SelectorOrder(Random, live, cursor, hash, rnd), PlanOf(cfg, live, cursor, hash, rnd);
    RandomIsTierSorted(live, cursor, hash, rnd);
    c :| c in plan && IsReserve(c);
    var k :| 0 <= k < |plan| && plan[k] == c;
    assert s[k] == c && c in multiset(s);
    CountIfOfMultiset(s, live, Better(c, ByTier()));
    hide SelectorOrder, PlanOf, CountIf;
    FrontLoaded(s, Better(c, ByTier()));
  }

  lemma {:induction false} DrawReserve(cfg: RouteCfg, live: seq<Candidate>, cursor: nat, hash: nat, c: Candidate)
    returns (f: seq<nat>)
    requires cfg.selector.Random? && !cfg.preferNonReserve && cfg.preferTags == []
    requires c in live && IsReserve(c) && CountIf(live, Better(c, ByTier())) < cfg.maxAttempts
    ensures IsDraws(f) && UsesReserve(PlanOf(cfg, live, cursor, hash, Draws(f)))
  {
    hide SelectorOrder, IsReserve, CountIf;
    var goal, r := FirstOfItsTier(live, c);
    RandomReachesEveryOrder(live, goal, cursor, hash);
    f :| IsDraws(f) && SelectorOrder(Random, live, cursor, hash, Draws(f)) == goal;
    assert PlanOf(cfg, live, cursor, hash, Draws(f)) == Take(goal, cfg.maxAttempts);
    assert Take(goal, cfg.maxAttempts)[r] == c;
  }

  /** An arrangement by tiers that puts `c` in front of its own. */
  lemma {:induction false} FirstOfItsTier(live: seq<Candidate>, c: Candidate) returns (goal: seq<Candidate>, r: nat)
    requires c in live
    ensures multiset(goal) == multiset(live) && SortedBy(goal, ByTier())
    ensures r <= CountIf(live, Better(c, ByTier())) && r < |goal| && goal[r] == c
  {
    hide StableSort, CountIf;
    var m :| 0 <= m < |live| && live[m] == c;
    var rest := live[..m] + live[m + 1..];
    var t := [c] + rest;
    RemoveOne(live, m);
    assert t[1..] == rest && multiset(t) == multiset{c} + multiset(rest) == multiset(live);
    CountIfOfMultiset(t, live, Better(c, ByTier()));
    CountIfAppend([c], rest, Better(c, ByTier()));
    TierIsTotal();
    SortContents(t, ByTier());
    RankIsPlace(t, 0, ByTier());
    goal, r := StableSort(t, ByTier()), Ahead(t, 0, ByTier());
  }

  /** With `prefer_non_reserve` off the tag does not hold a proxy back at all: a faster
      reserve proxy takes the only place from a healthy proxy. */
  lemma {:induction false} ReserveFirstWhenOff(cfg: RouteCfg, cursor: nat, hash: nat, rnd: nat -> nat)
    requires forall k :: rnd(k) <= k
    requires cfg.selector.BestLatency? || cfg.selector.Hedge?
    requires !cfg.preferNonReserve && cfg.preferTags == [] && cfg.maxAttempts == 1
    ensures var slower := HEALTHY_FREE.(latency := 20);
            PlanOf(cfg, [slower, HEALTHY_RESERVE], cursor, hash, rnd) == [HEALTHY_RESERVE]
  {
    var slower := HEALTHY_FREE.(latency := 20);
    var live := [slower, HEALTHY_RESERVE];
    assert live[1..] == [HEALTHY_RESERVE] && [HEALTHY_RESERVE][1..] == [] && [HEALTHY_RESERVE][..0] == [];
    assert !KeyLe(KeyOf(cfg, slower), KeyOf(cfg, HEALTHY_RESERVE));
    assert Ahead([HEALTHY_RESERVE], 0, ByKey(cfg)) == 0;
    assert Ahead(live, 1, ByKey(cfg)) == 0;
    PlannedIff(cfg, live, cursor, hash, rnd, 1);
    PlanIsOneSort(cfg, live, cursor, hash, rnd);
  }
}
