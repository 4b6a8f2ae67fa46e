/** The attempt plan of a route (`route/state.rs`): tiers, eligibility, selectors,
    the successive stable sorts, and the pool of dead proxies tried last. */
module Plan {
  import opened Prelude
  import opened Sorting
  import opened Turns
  import Health

  datatype Tier = Healthy | Slow | Failed | Banned | Fatal

  function Rank(t: Tier): nat {
    match t
    case Healthy => 0
    case Slow => 1
    case Failed => 2
    case Banned => 3
    case Fatal => 4
  }

  datatype Selector = BestLatency | RoundRobin | Random | StickyByHeader | Hedge

  datatype RouteCfg = RouteCfg(
    id: Health.RouteId, selector: Selector, preferTags: seq<string>, excludeTags: seq<string>,
    maxAttempts: nat, slowMs: nat, failStreak: nat, preferNonReserve: bool,
    maxParallel: nat, captureBody: bool, defaultBanMs: nat)

  /** A route: its configuration and the round-robin cursor all requests share. */
  class Route {
    const cfg: RouteCfg
    var cursor: nat

    constructor (cfg: RouteCfg)
      ensures this.cfg == cfg && cursor == 0
    {
      this.cfg, cursor := cfg, 0;
    }
  }

  /** The tags a request asks for; the route's own, or an override of `on_request`. */
  datatype Pool = Pool(all: seq<string>, any: seq<string>)

  datatype Candidate = Candidate(url: string, tags: seq<string>, tier: Tier, latency: nat)

  function EntryTier(e: Health.EntryView, cfg: RouteCfg, now: nat): Tier {
    var st := Health.RouteOf(e, cfg.id);
    if e.fatal then Fatal
    else if st.bannedUntil > now then Banned
    else if st.failures >= cfg.failStreak then Failed
    else if st.avg > 0 && st.avg > cfg.slowMs then Slow
    else Healthy
  }

  predicate TagMatch(tags: seq<string>, pool: Pool) {
    && (forall need | need in pool.all :: need in tags)
    && (pool.any != [] ==> exists a | a in pool.any :: a in tags)
  }

  predicate IsExcluded(tags: seq<string>, exclude: seq<string>) {
    exists x | x in exclude :: x in tags
  }

  predicate IsReserve(c: Candidate) { "reserve" in c.tags }

  predicate IsPreferred(cfg: RouteCfg, c: Candidate) {
    exists p | p in cfg.preferTags :: p in c.tags
  }

  predicate Dead(t: Tier) { t == Banned || t == Fatal }

  function LatKey(l: nat): nat { if l == 0 then 1 else l }

  function FallbackKey(l: nat): nat { if l == 0 then Health.U64_MAX else l }

  function AsCandidate(cfg: RouteCfg, e: Health.EntryView, now: nat): Candidate {
    Candidate(e.url, e.tags, EntryTier(e, cfg, now), Health.RouteOf(e, cfg.id).avg)
  }

  /** The proxies the route may use at all, in snapshot order. */
  function Eligible(cfg: RouteCfg, snap: seq<Health.EntryView>, pool: Pool, now: nat): seq<Candidate> {
    if snap == [] then []
    else
      var e := snap[|snap| - 1];
      Eligible(cfg, snap[..|snap| - 1], pool, now)
      + (if !IsExcluded(e.tags, cfg.excludeTags) && TagMatch(e.tags, pool) then [AsCandidate(cfg, e, now)] else [])
  }

  function Keep(s: seq<Candidate>, p: Candidate -> bool): seq<Candidate> {
    if s == [] then []
    else Keep(s[..|s| - 1], p) + (if p(s[|s| - 1]) then [s[|s| - 1]] else [])
  }

  const IS_LIVE := (c: Candidate) => !Dead(c.tier)

  function Live(cfg: RouteCfg, snap: seq<Health.EntryView>, pool: Pool, now: nat): seq<Candidate> {
    Keep(Eligible(cfg, snap, pool, now), IS_LIVE)
  }

  // ---- Orders ----

  function ByTier(): (Candidate, Candidate) -> bool {
    (a: Candidate, b: Candidate) => Rank(a.tier) <= Rank(b.tier)
  }

  function ByTierLatency(): (Candidate, Candidate) -> bool {
    (a: Candidate, b: Candidate) => Rank(a.tier) < Rank(b.tier)
    || (a.tier == b.tier && LatKey(a.latency) <= LatKey(b.latency))
  }

  function ReserveLast(): (Candidate, Candidate) -> bool {
    (a: Candidate, b: Candidate) => IsReserve(a) ==> IsReserve(b)
  }

  function PreferredFirst(cfg: RouteCfg): (Candidate, Candidate) -> bool {
    (a: Candidate, b: Candidate) => IsPreferred(cfg, b) ==> IsPreferred(cfg, a)
  }

  function ByFallbackLatency(): (Candidate, Candidate) -> bool {
    (a: Candidate, b: Candidate) => FallbackKey(a.latency) <= FallbackKey(b.latency)
  }

  function Swap(s: seq<Candidate>, i: nat, j: nat): seq<Candidate>
    requires i < |s| && j < |s|
  {
    s[i := s[j]][j := s[i]]
  }

  /** Fisher-Yates from index `i` down, `rnd(k)` being the draw made at index `k`. */
  function Shuffle(s: seq<Candidate>, i: nat, rnd: nat -> nat): seq<Candidate>
    requires forall k :: rnd(k) <= k
    requires i < |s| || i == 0
    decreases i
  {
    if i == 0 then s else Shuffle(Swap(s, i, rnd(i)), i - 1, rnd)
  }

  /** What the route's selector makes of the live proxies. */
  function SelectorOrder(sel: Selector, s: seq<Candidate>, cursor: nat, hash: nat, rnd: nat -> nat): seq<Candidate>
    requires forall k :: rnd(k) <= k
  {
    var sorted := StableSort(s, ByTierLatency());
    match sel
    case BestLatency => sorted
    case Hedge => sorted
    case Random =>
      var t := StableSort(s, ByTier());
      StableSort(Shuffle(t, if t == [] then 0 else |t| - 1, rnd), ByTier())
    case RoundRobin => if |sorted| > 1 then Rotate(sorted, cursor % |sorted|) else sorted
    case StickyByHeader => if |sorted| > 1 then Rotate(sorted, hash % |sorted|) else sorted
  }

  function Floated(cfg: RouteCfg, s: seq<Candidate>): seq<Candidate> {
    var t := if cfg.preferNonReserve then StableSort(s, ReserveLast()) else s;
    if cfg.preferTags != [] then StableSort(t, PreferredFirst(cfg)) else t
  }

  function Take(s: seq<Candidate>, n: nat): seq<Candidate> { if |s| <= n then s else s[..n] }

  // ---- The code ----

  method Order(route: Route, live: array<Candidate>, hash: nat, rnd: nat -> nat)
    requires forall k :: rnd(k) <= k
    modifies live, route`cursor
    ensures live[..] == SelectorOrder(route.cfg.selector, old(live[..]), old(route.cursor), hash, rnd)
    ensures route.cursor == old(route.cursor) + (if route.cfg.selector.RoundRobin? && live.Length > 1 then 1 else 0)
  {
    hide StableSort, Shuffle, Rotate, ByTier, ByTierLatency;
    ghost var was := live[..];
    match route.cfg.selector {
      case BestLatency => SortInPlace(live, ByTierLatency());
      case Hedge => SortInPlace(live, ByTierLatency());
      case Random =>
        SortInPlace(live, ByTier());
        ShuffleInPlace(live, rnd);
        SortInPlace(live, ByTier());
      case RoundRobin =>
        SortInPlace(live, ByTierLatency());
        var n := live.Length;
        if n > 1 {
          var start := route.cursor % n;
          route.cursor := route.cursor + 1;
          RotateInPlace(live, start);
        }
      case StickyByHeader =>
        SortInPlace(live, ByTierLatency());
        var n := live.Length;
        if n > 1 { RotateInPlace(live, hash % n); }
    }
  }

  method ShuffleInPlace(a: array<Candidate>, rnd: nat -> nat)
    requires forall k :: rnd(k) <= k
    modifies a
    ensures a[..] == Shuffle(old(a[..]), if a.Length == 0 then 0 else a.Length - 1, rnd)
  {
    ghost var was := a[..];
    var i := if a.Length == 0 then 0 else a.Length - 1;
    while i > 0
      invariant 0 <= i < a.Length || i == 0
      invariant Shuffle(was, if a.Length == 0 then 0 else a.Length - 1, rnd) == Shuffle(a[..], i, rnd)
    {
      ghost var before := a[..];
      var j := rnd(i);
      a[i], a[j] := a[j], a[i];
      assert a[..] == Swap(before, i, j);
      i := i - 1;
    }
  }

  method RotateInPlace(a: array<Candidate>, k: nat)
    requires k <= a.Length
    modifies a
    ensures a[..] == Rotate(old(a[..]), k)
  {
    forall i | 0 <= i < a.Length {
      a[i] := if i < a.Length - k then a[i + k] else a[i - (a.Length - k)];
    }
  }

  lemma {:induction false} KeepStep(cfg: RouteCfg, snap: seq<Health.EntryView>, i: nat, pool: Pool, now: nat,
          p: Candidate -> bool)
    requires i < |snap|
    ensures var e := snap[i];
            var c := AsCandidate(cfg, e, now);
            Keep(Eligible(cfg, snap[..i + 1], pool, now), p) == Keep(Eligible(cfg, snap[..i], pool, now), p)
            + (if !IsExcluded(e.tags, cfg.excludeTags) && TagMatch(e.tags, pool) && p(c) then [c] else [])
  {
    assert snap[..i + 1][..i] == snap[..i];
    var before, c := Eligible(cfg, snap[..i], pool, now), AsCandidate(cfg, snap[i], now);
    assert (before + [c])[..|before|] == before && before + [] == before;
  }

  /** The collecting loop of `build_plan`. */
  method CollectLive(cfg: RouteCfg, snap: seq<Health.EntryView>, pool: Pool, now: nat) returns (live: seq<Candidate>)
    ensures live == Live(cfg, snap, pool, now)
  {
    live := [];
    for i := 0 to |snap|
      invariant live == Live(cfg, snap[..i], pool, now)
    {
      KeepStep(cfg, snap, i, pool, now, IS_LIVE);
      var e := snap[i];
      if IsExcluded(e.tags, cfg.excludeTags) || !TagMatch(e.tags, pool) { continue; }
      var tier := EntryTier(e, cfg, now);
      if tier == Banned || tier == Fatal { continue; }
      live := live + [Candidate(e.url, e.tags, tier, Health.RouteOf(e, cfg.id).avg)];
    }
    assert snap[..|snap|] == snap;
  }

  /** The ordered, capped attempt plan. `now` and the snapshot are read once. */
  method BuildPlan(route: Route, snap: seq<Health.EntryView>, pool: Pool, hash: nat, rnd: nat -> nat, now: nat)
    returns (plan: seq<Candidate>)
    requires forall k :: rnd(k) <= k
    modifies route`cursor
    ensures plan == PlanOf(route.cfg, Live(route.cfg, snap, pool, now), old(route.cursor), hash, rnd)
    ensures route.cursor == old(route.cursor)
              + (if route.cfg.selector.RoundRobin? && |Live(route.cfg, snap, pool, now)| > 1 then 1 else 0)
  {
    var cfg := route.cfg;
    var found := CollectLive(cfg, snap, pool, now);
    var live := new Candidate[|found|](i requires 0 <= i < |found| => found[i]);
    assert live[..] == found;
    Order(route, live, hash, rnd);
    if cfg.preferNonReserve { SortInPlace(live, ReserveLast()); }
    if cfg.preferTags != [] { SortInPlace(live, PreferredFirst(cfg)); }
    plan := if live.Length <= cfg.maxAttempts then live[..] else live[..cfg.maxAttempts];
  }

  function PlanOf(cfg: RouteCfg, live: seq<Candidate>, cursor: nat, hash: nat, rnd: nat -> nat): seq<Candidate>
    requires forall k :: rnd(k) <= k
  {
    Take(Floated(cfg, SelectorOrder(cfg.selector, live, cursor, hash, rnd)), cfg.maxAttempts)
  }

  function Untried(tried: set<string>): Candidate -> bool { (c: Candidate) => Dead(c.tier) && c.url !in tried }

  function FallbackOf(cfg: RouteCfg, snap: seq<Health.EntryView>, pool: Pool, tried: set<string>,
          now: nat): seq<Candidate> {
    StableSort(Keep(Eligible(cfg, snap, pool, now), Untried(tried)), ByFallbackLatency())
  }

  /** The banned and transport-fatal proxies the last-resort pass may still try. */
  method FallbackPool(cfg: RouteCfg, snap: seq<Health.EntryView>, pool: Pool, tried: set<string>, now: nat)
    returns (out: seq<Candidate>)
    ensures out == FallbackOf(cfg, snap, pool, tried, now)
  {
    var found: seq<Candidate> := [];
    for i := 0 to |snap|
      invariant found == Keep(Eligible(cfg, snap[..i], pool, now), Untried(tried))
    {
      KeepStep(cfg, snap, i, pool, now, Untried(tried));
      var e := snap[i];
      if e.url in tried || IsExcluded(e.tags, cfg.excludeTags) || !TagMatch(e.tags, pool) { continue; }
      var tier := EntryTier(e, cfg, now);
      if tier == Banned || tier == Fatal {
        found := found + [Candidate(e.url, e.tags, tier, Health.RouteOf(e, cfg.id).avg)];
      }
    }
    assert snap[..|snap|] == snap;
    var a := new Candidate[|found|](i requires 0 <= i < |found| => found[i]);
    assert a[..] == found;
    SortInPlace(a, ByFallbackLatency());
    out := a[..];
  }
}
