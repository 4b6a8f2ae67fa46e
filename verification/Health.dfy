/** Per-proxy and per-route health (`proxy/entry.rs`).
    `RouteState` and `Entry` are the counters the proxy mutates in place; every
    method is tied to a function on their values (`RouteView`, `EntryView`), and
    what holds over whole runs of such updates is proved about those functions. */
module Health {
  import opened Prelude

  const EWMA_NUM := 3
  const EWMA_DEN := 10
  const U64_MAX: nat := 0xFFFF_FFFF_FFFF_FFFF

  type RouteId = nat

  // ---- Values ----

  datatype RouteView = RouteView(
    bannedUntil: nat, failures: nat, successes: nat, avg: nat, last: nat, ok: nat, err: nat, bans: nat)

  const UNTOUCHED := RouteView(0, 0, 0, 0, 0, 0, 0, 0)

  function Blend(prev: nat, sample: nat): nat {
    if prev == 0 then sample else (EWMA_NUM * sample + (EWMA_DEN - EWMA_NUM) * prev) / EWMA_DEN
  }

  function Succeeded(v: RouteView, latency: nat): RouteView {
    v.(ok := v.ok + 1, failures := 0, successes := v.successes + 1, last := latency, avg := Blend(v.avg, latency))
  }

  function Failed(v: RouteView, latency: Option<nat>, slowMs: nat): RouteView {
    var w := v.(err := v.err + 1, successes := 0, failures := v.failures + 1);
    match latency
    case None => w
    case Some(l) => w.(last := l, avg := Blend(w.avg, Max(l, slowMs + 1)))
  }

  function BannedFor(v: RouteView, now: nat, ms: nat): RouteView {
    v.(bannedUntil := Min(now + ms, U64_MAX), bans := v.bans + 1)
  }

  function Lost(v: RouteView, latency: Option<nat>, slowMs: nat, ban: Option<nat>, now: nat): RouteView {
    var w := Failed(v, latency, slowMs);
    if ban.Some? then BannedFor(w, now, ban.value) else w
  }

  function BannedForGood(v: RouteView): RouteView { v.(bannedUntil := U64_MAX, bans := v.bans + 1) }

  function Unbanned(v: RouteView): RouteView { v.(bannedUntil := 0, failures := 0) }

  /** One proxy: its identity, tags, per-route health and global counters. */
  datatype EntryView = EntryView(
    url: string, tags: seq<string>, routes: map<RouteId, RouteView>,
    ok: nat, err: nat, usage: nat, fatal: bool, fatalCount: nat)

  function FreshEntry(url: string, tags: seq<string>): EntryView {
    EntryView(url, tags, map[], 0, 0, 0, false, 0)
  }

  function RouteOf(e: EntryView, route: RouteId): RouteView {
    if route in e.routes then e.routes[route] else UNTOUCHED
  }

  function PutRoute(e: EntryView, route: RouteId, v: RouteView): EntryView {
    e.(routes := e.routes[route := v])
  }

  function Counted(e: EntryView, used: nat, won: nat, lost: nat): EntryView {
    e.(usage := e.usage + used, ok := e.ok + won, err := e.err + lost)
  }

  lemma {:induction false} PutTwice(e: EntryView, route: RouteId)
    ensures forall v, w :: PutRoute(PutRoute(e, route, v), route, w) == PutRoute(e, route, w)
  {
    forall v, w ensures PutRoute(PutRoute(e, route, v), route, w) == PutRoute(e, route, w) {
      assert e.routes[route := v][route := w] == e.routes[route := w];
    }
  }

  function Fatal(e: EntryView): EntryView {
    if e.fatal then e else e.(fatal := true, fatalCount := e.fatalCount + 1)
  }

  /** The whole record calls the service makes against one proxy. */
  datatype HealthOp =
    | AttemptWon(route: RouteId, latency: nat)
    | AttemptLost(route: RouteId, latency': Option<nat>, slowMs: nat, ban: Option<nat>, fatal: bool, now: nat)
    | StreamBroke(route: RouteId, latency': Option<nat>, slowMs: nat)
    | StreamResumed(route: RouteId, latency: nat)
    | ProbeRestored(route: RouteId)
    | ProbeGaveUp(route: RouteId)
    | TransportRestored
    | Touched(route: RouteId)

  function Apply(e: EntryView, op: HealthOp): EntryView {
    match op
    case AttemptWon(r, latency) =>
      Counted(PutRoute(e, r, Unbanned(Succeeded(RouteOf(e, r), latency))), 1, 1, 0)
    case AttemptLost(r, latency, slowMs, ban, fatal, now) =>
      var e' := Counted(PutRoute(e, r, Lost(RouteOf(e, r), latency, slowMs, ban, now)), 1, 0, 1);
      if fatal then Fatal(e') else e'
    case StreamBroke(r, latency, slowMs) => PutRoute(e, r, Failed(RouteOf(e, r), latency, slowMs))
    case StreamResumed(r, latency) => Counted(PutRoute(e, r, Succeeded(RouteOf(e, r), latency)), 0, 1, 0)
    case ProbeRestored(r) => PutRoute(e, r, Unbanned(RouteOf(e, r))).(fatal := false)
    case ProbeGaveUp(r) => PutRoute(e, r, BannedForGood(RouteOf(e, r)))
    case TransportRestored => e.(fatal := false)
    case Touched(r) => PutRoute(e, r, RouteOf(e, r))
  }

  function ApplyAll(e: EntryView, ops: seq<HealthOp>): EntryView {
    if ops == [] then e else Apply(ApplyAll(e, ops[..|ops| - 1]), ops[|ops| - 1])
  }

  // ---- The moving average ----

  function Repeat(avg: nat, sample: nat, n: nat): nat {
    if n == 0 then avg else Blend(Repeat(avg, sample, n - 1), sample)
  }

  /** One step shrinks the distance to the sample by 7/10, rounded towards the
      sample from above and away from it from below; the average never leaves the
      interval between the two, so it fits whatever bound both of them fit. */
  lemma {:induction false} BlendStep(prev: nat, sample: nat)
    requires prev > 0
    ensures prev >= sample ==> Blend(prev, sample) - sample == 7 * (prev - sample) / 10
    ensures prev <= sample ==> sample - Blend(prev, sample) == (7 * (sample - prev) + 9) / 10
    ensures Min(prev, sample) <= Blend(prev, sample) <= Max(prev, sample)
  {
    var next := (3 * sample + 7 * prev) / 10;
    var r := (3 * sample + 7 * prev) % 10;
    assert 3 * sample + 7 * prev == 10 * next + r;
    if prev >= sample {
      assert 7 * (prev - sample) == 10 * (next - sample) + r;
    } else if r == 0 {
      assert 7 * (sample - prev) + 9 == 10 * (sample - next) + 9;
    } else {
      assert 7 * (sample - prev) + 9 == 10 * (sample - next) + (9 - r);
    }
  }

  /** The fixed points of a repeated sample `s > 0` are exactly `s - 3 .. s`. */
  lemma {:induction false} BlendFixpoint(prev: nat, sample: nat)
    requires prev > 0
    ensures Blend(prev, sample) == prev <==> prev <= sample <= prev + 3
  {
    BlendStep(prev, sample);
  }

  /** Repeating a sample ends exactly on it from above, and in `[s - 3, s]` from below,
      after at most as many steps as the starting distance; it stays there for ever. */
  lemma {:induction false} RepeatConverges(avg: nat, sample: nat, n: nat)
    requires avg > 0 && sample > 0
    ensures Repeat(avg, sample, n) > 0
    ensures avg >= sample ==> sample <= Repeat(avg, sample, n) <= avg
    ensures avg <= sample ==> avg <= Repeat(avg, sample, n) <= sample
    ensures avg >= sample && n >= avg - sample ==> Repeat(avg, sample, n) == sample
    ensures avg <= sample && n >= sample - avg ==> sample - 3 <= Repeat(avg, sample, n) <= sample
    ensures avg >= sample ==> Repeat(avg, sample, n) - sample <= Max(0, avg - sample - n)
    ensures avg <= sample ==> sample - Repeat(avg, sample, n) <= Max(3, sample - avg - n)
  {
    if n > 0 {
      RepeatConverges(avg, sample, n - 1);
      BlendStep(Repeat(avg, sample, n - 1), sample);
    }
  }

  function Power(b: nat, n: nat): nat { if n == 0 then 1 else b * Power(b, n - 1) }

  /** The distance to a repeated sample shrinks geometrically: after `n` steps to at most
      (7/10)^n of what it was, from below to within 3 of that. */
  lemma {:induction false} RepeatIsGeometric(avg: nat, sample: nat, n: nat)
    requires avg > 0 && sample > 0
    ensures avg >= sample ==> Power(10, n) * (Repeat(avg, sample, n) - sample) <= Power(7, n) * (avg - sample)
    ensures avg <= sample ==>
              Power(10, n) * (sample - Repeat(avg, sample, n) - 3) <= Power(7, n) * Max(0, sample - avg - 3)
  {
    if n > 0 {
      var prev, next := Repeat(avg, sample, n - 1), Repeat(avg, sample, n);
      RepeatIsGeometric(avg, sample, n - 1);
      RepeatConverges(avg, sample, n - 1);
      BlendStep(prev, sample);
      hide Blend, Repeat;
      if avg >= sample {
        Shrinks(prev - sample, next - sample, avg - sample, Power(10, n - 1), Power(7, n - 1));
      }
      if avg <= sample {
        Shrinks(sample - prev - 3, sample - next - 3, Max(0, sample - avg - 3), Power(10, n - 1), Power(7, n - 1));
      }
    }
  }

  lemma {:induction false} Shrinks(d: int, e: int, start: nat, p: nat, q: nat)
    requires 10 * e <= 7 * d && p * d <= q * start
    ensures (10 * p) * e <= (7 * q) * start
  {
    assert (10 * p) * e == p * (10 * e);
    Scaled(p, 10 * e, 7 * d);
    assert p * (7 * d) == 7 * (p * d);
    assert (7 * q) * start == 7 * (q * start);
  }

  lemma Scaled(p: nat, a: int, b: int)
    requires a <= b
    ensures p * a <= p * b
  {
  }

  /** `n` failures, each measured at the latency `lat(i)`. */
  function FailMany(v: RouteView, lat: seq<nat>, slowMs: nat): RouteView {
    if lat == [] then v else Failed(FailMany(v, lat[..|lat| - 1], slowMs), Some(lat[|lat| - 1]), slowMs)
  }

  /** A failure's latency is raised to `slowMs + 1` so that failing proxies turn slow.
      For failures measured at or below `slowMs` that works exactly when the average
      started unmeasured or was slow already: rounding pins every other average below. */
  lemma {:induction false} FailuresTurnSlowIff(v: RouteView, lat: seq<nat>, slowMs: nat)
    requires lat != [] && forall l :: l in lat ==> l <= slowMs
    ensures FailMany(v, lat, slowMs).avg > slowMs <==> v.avg == 0 || v.avg > slowMs
    ensures 0 < v.avg <= slowMs - 2 ==> FailMany(v, lat, slowMs).avg <= slowMs - 2
  {
    var front := lat[..|lat| - 1];
    assert lat[|lat| - 1] in lat;
    if front == [] {
      assert FailMany(v, front, slowMs) == v;
      if v.avg > 0 { BlendStep(v.avg, slowMs + 1); }
    } else {
      forall l | l in front ensures l <= slowMs { assert l in lat; }
      FailuresTurnSlowIff(v, front, slowMs);
      FailManyPositive(v, front, slowMs);
      BlendStep(FailMany(v, front, slowMs).avg, slowMs + 1);
    }
  }

  lemma {:induction false} FailManyPositive(v: RouteView, lat: seq<nat>, slowMs: nat)
    requires lat != []
    ensures FailMany(v, lat, slowMs).avg > 0
  {
    var front := lat[..|lat| - 1];
    if front != [] { FailManyPositive(v, front, slowMs); }
    var p, l := FailMany(v, front, slowMs).avg, Max(lat[|lat| - 1], slowMs + 1);
    if p > 0 { BlendStep(p, l); }
  }

  // ---- The ledger ----

  ghost function SumOf(m: map<RouteId, RouteView>, f: RouteView -> nat): nat
    decreases m.Keys
  {
    if m.Keys == {} then 0 else var k :| k in m; f(m[k]) + SumOf(m - {k}, f)
  }

  lemma {:induction false} SumSplit(m: map<RouteId, RouteView>, k: RouteId, f: RouteView -> nat)
    requires k in m
    ensures SumOf(m, f) == f(m[k]) + SumOf(m - {k}, f)
    decreases m.Keys
  {
    var c :| c in m && SumOf(m, f) == f(m[c]) + SumOf(m - {c}, f);
    if c != k {
      SumSplit(m - {c}, k, f);
      SumSplit(m - {k}, c, f);
      assert m - {c} - {k} == m - {k} - {c};
    }
  }

  lemma {:induction false} SumPut(m: map<RouteId, RouteView>, k: RouteId, v: RouteView, f: RouteView -> nat)
    ensures SumOf(m[k := v], f) == SumOf(m, f) + f(v) - (if k in m then f(m[k]) else 0)
  {
    SumSplit(m[k := v], k, f);
    assert m[k := v] - {k} == m - {k};
    if k in m { SumSplit(m, k, f); } else { assert m - {k} == m; }
  }

  function CountWhere(ops: seq<HealthOp>, p: HealthOp -> bool): nat {
    if ops == [] then 0 else CountWhere(ops[..|ops| - 1], p) + (if p(ops[|ops| - 1]) then 1 else 0)
  }

  const OK := (v: RouteView) => v.ok
  const ERR := (v: RouteView) => v.err
  const BROKE := (op: HealthOp) => op.StreamBroke?
  const RESUMED := (op: HealthOp) => op.StreamResumed?
  const PLANNED := (op: HealthOp) => op.AttemptWon? || op.AttemptLost?

  /** Per-route successes add up to the global ones; per-route errors to the global ones
      plus the stream failures; usage is what is left of both without stream recoveries. */
  ghost predicate Balanced(e: EntryView, broke: nat, resumed: nat) {
    && SumOf(e.routes, OK) == e.ok
    && SumOf(e.routes, ERR) == e.err + broke
    && e.usage + resumed == e.ok + e.err
  }

  lemma {:induction false} OpBalances(e: EntryView, op: HealthOp, broke: nat, resumed: nat)
    requires Balanced(e, broke, resumed)
    ensures Balanced(Apply(e, op), broke + (if BROKE(op) then 1 else 0), resumed + (if RESUMED(op) then 1 else 0))
    ensures Apply(e, op).usage == e.usage + (if PLANNED(op) then 1 else 0)
  {
    hide SumOf;
    if !op.TransportRestored? {
      var r := op.route;
      var v := Apply(e, op).routes[r];
      assert Apply(e, op).routes == e.routes[r := v];
      SumPut(e.routes, r, v, OK);
      SumPut(e.routes, r, v, ERR);
    }
  }

  /** Over every run of record calls from a new proxy the books balance. */
  lemma {:induction false} LedgerBalances(url: string, tags: seq<string>, ops: seq<HealthOp>)
    ensures var e := ApplyAll(FreshEntry(url, tags), ops);
            && Balanced(e, CountWhere(ops, BROKE), CountWhere(ops, RESUMED))
            && e.usage == CountWhere(ops, PLANNED)
            && e.url == url && e.tags == tags
  {
    if ops != [] {
      var front := ops[..|ops| - 1];
      LedgerBalances(url, tags, front);
      OpBalances(ApplyAll(FreshEntry(url, tags), front), ops[|ops| - 1], CountWhere(front, BROKE),
        CountWhere(front, RESUMED));
    }
  }

  // ---- The mutable objects ----

  class RouteState {
    var bannedUntil: nat
    var failures: nat
    var successes: nat
    var avg: nat
    var last: nat
    var ok: nat
    var err: nat
    var bans: nat

    function View(): RouteView
      reads this
    {
      RouteView(bannedUntil, failures, successes, avg, last, ok, err, bans)
    }

    constructor ()
      ensures View() == UNTOUCHED
    {
      bannedUntil, failures, successes, avg, last, ok, err, bans := 0, 0, 0, 0, 0, 0, 0, 0;
    }

    method BlendLatency(sample: nat)
      modifies this
      ensures View() == old(View()).(avg := Blend(old(avg), sample))
    {
      var prev := avg;
      var next: nat;
      if prev == 0 {
        next := sample;
      } else {
        next := (EWMA_NUM * sample + (EWMA_DEN - EWMA_NUM) * prev) / EWMA_DEN;
      }
      avg := next;
    }

    method BanFor(now: nat, ms: nat)
      modifies this
      ensures View() == BannedFor(old(View()), now, ms)
    {
      bannedUntil := Min(now + ms, U64_MAX);
      bans := bans + 1;
    }

    method BanPermanent()
      modifies this
      ensures View() == BannedForGood(old(View()))
    {
      bannedUntil := U64_MAX;
      bans := bans + 1;
    }

    method ClearBan()
      modifies this
      ensures View() == Unbanned(old(View()))
    {
      bannedUntil := 0;
      failures := 0;
    }

    method ObserveSuccess(latency: nat)
      modifies this
      ensures View() == Succeeded(old(View()), latency)
    {
      ok := ok + 1;
      failures := 0;
      successes := successes + 1;
      last := latency;
      BlendLatency(latency);
    }

    method ObserveFailure(latency: Option<nat>, slowMs: nat)
      modifies this
      ensures View() == Failed(old(View()), latency, slowMs)
    {
      err := err + 1;
      successes := 0;
      failures := failures + 1;
      if latency.Some? {
        last := latency.value;
        BlendLatency(Max(latency.value, slowMs + 1));
      }
    }

    method ObserveLoss(latency: Option<nat>, slowMs: nat, ban: Option<nat>, now: nat)
      modifies this
      ensures View() == Lost(old(View()), latency, slowMs, ban, now)
    {
      ObserveFailure(latency, slowMs);
      if ban.Some? { BanFor(now, ban.value); }
    }
  }

  class Entry {
    const url: string
    var tags: seq<string>
    var ok: nat
    var err: nat
    var usage: nat
    var fatal: bool
    var fatalCount: nat
    var byRoute: map<RouteId, RouteState>

    /** No two routes share a state object. */
    ghost predicate Valid()
      reads this
    {
      forall r, s :: r in byRoute && s in byRoute && r != s ==> byRoute[r] != byRoute[s]
    }

    ghost function Repr(): set<object>
      reads this
    {
      {this} + byRoute.Values
    }

    ghost function View(): EntryView
      reads this, byRoute.Values
    {
      EntryView(url, tags, map r | r in byRoute :: byRoute[r].View(), ok, err, usage, fatal, fatalCount)
    }

    constructor (url: string, tags: seq<string>)
      ensures Valid() && fresh(Repr()) && this.url == url
      ensures View() == FreshEntry(url, tags)
    {
      this.url, this.tags := url, tags;
      ok, err, usage, fatal, fatalCount, byRoute := 0, 0, 0, false, 0, map[];
    }

    method SetTags(tags: seq<string>)
      modifies this`tags
      ensures View() == old(View()).(tags := tags)
    {
      this.tags := tags;
    }

    /** Fetches the state of a route, creating it on first use. */
    method RouteStateOf(route: RouteId) returns (st: RouteState)
      requires Valid()
      modifies this`byRoute
      ensures Valid() && fresh(Repr() - old(Repr()))
      ensures route in byRoute && st == byRoute[route]
      ensures View() == Apply(old(View()), Touched(route))
      ensures st.View() == RouteOf(old(View()), route)
      ensures forall v :: PutRoute(View(), route, v) == PutRoute(old(View()), route, v)
    {
      PutTwice(View(), route);
      if route in byRoute {
        st := byRoute[route];
      } else {
        st := new RouteState();
        byRoute := byRoute[route := st];
      }
    }

    method MarkTransportFatal() returns (newly: bool)
      requires Valid()
      modifies this`fatal, this`fatalCount
      ensures Valid() && newly == !old(fatal)
      ensures View() == Fatal(old(View()))
    {
      newly := !fatal;
      fatal := true;
      if newly { fatalCount := fatalCount + 1; }
    }

    method ClearTransportFatal() returns (was: bool)
      requires Valid()
      modifies this`fatal
      ensures Valid() && was == old(fatal)
      ensures View() == Apply(old(View()), TransportRestored)
    {
      was := fatal;
      fatal := false;
    }

    /** Adds to the proxy's global counters. */
    method Count(used: nat, won: nat, lost: nat)
      requires Valid()
      modifies this`usage, this`ok, this`err
      ensures Valid()
      ensures View() == Counted(old(View()), used, won, lost)
    {
      usage, ok, err := usage + used, ok + won, err + lost;
    }

    /** Changing the state object of one route changes that route's value only. */
    twostate lemma {:induction false} RouteChanged(route: RouteId)
      requires Valid() && route in byRoute && unchanged(this)
      requires forall r :: r in byRoute && r != route ==> byRoute[r].View() == old(byRoute[r].View())
      ensures View() == PutRoute(old(View()), route, byRoute[route].View())
    {
      assert View().routes == PutRoute(old(View()), route, byRoute[route].View()).routes;
    }

    method RecordSuccess(route: RouteId, latency: nat)
      requires Valid()
      modifies Repr()
      ensures Valid() && fresh(Repr() - old(Repr()))
      ensures View() == Apply(old(View()), AttemptWon(route, latency))
    {
      hide View, PutRoute, Counted, Succeeded;
      ghost var before := View();
      var st := RouteStateOf(route);
      label L:
      st.ObserveSuccess(latency);
      st.ClearBan();
      RouteChanged@L(route);
      assert View() == PutRoute(before, route, Unbanned(Succeeded(RouteOf(before, route), latency)));
      Count(1, 1, 0);
    }

    method RecordFailure(route: RouteId, slowMs: nat, latency: Option<nat>, ban: Option<nat>, globalFatal: bool,
            now: nat)
      requires Valid()
      modifies Repr()
      ensures Valid() && fresh(Repr() - old(Repr()))
      ensures View() == Apply(old(View()), AttemptLost(route, latency, slowMs, ban, globalFatal, now))
    {
      hide View, PutRoute, Counted, Lost, Fatal;
      ghost var before := View();
      ghost var lost := Lost(RouteOf(before, route), latency, slowMs, ban, now);
      var st := RouteStateOf(route);
      label L:
      st.ObserveLoss(latency, slowMs, ban, now);
      RouteChanged@L(route);
      assert View() == PutRoute(before, route, lost);
      Count(1, 0, 1);
      if globalFatal { var _ := MarkTransportFatal(); }
    }

    /** A stream broke on this proxy, or its attempt to take one over failed. */
    method RecordStreamFailure(route: RouteId, slowMs: nat, latency: Option<nat>)
      requires Valid()
      modifies Repr()
      ensures Valid() && fresh(Repr() - old(Repr()))
      ensures View() == Apply(old(View()), StreamBroke(route, latency, slowMs))
    {
      hide View, PutRoute, Failed;
      var st := RouteStateOf(route);
      label L:
      st.ObserveFailure(latency, slowMs);
      RouteChanged@L(route);
    }

    /** This proxy took over a broken stream: a success, but not a use. */
    method RecordStreamRecovery(route: RouteId, latency: nat)
      requires Valid()
      modifies Repr()
      ensures Valid() && fresh(Repr() - old(Repr()))
      ensures View() == Apply(old(View()), StreamResumed(route, latency))
    {
      hide View, PutRoute, Counted, Succeeded;
      var st := RouteStateOf(route);
      label L:
      st.ObserveSuccess(latency);
      RouteChanged@L(route);
      Count(0, 1, 0);
    }

    /** A probe of the route was answered: the proxy may be used again. */
    method ProbeRestore(route: RouteId)
      requires Valid()
      modifies Repr()
      ensures Valid() && fresh(Repr() - old(Repr()))
      ensures View() == Apply(old(View()), ProbeRestored(route))
    {
      hide View, PutRoute, Unbanned;
      ghost var before := View();
      var st := RouteStateOf(route);
      label L:
      st.ClearBan();
      RouteChanged@L(route);
      assert View() == PutRoute(before, route, Unbanned(RouteOf(before, route)));
      var _ := ClearTransportFatal();
    }

    /** The probe's classifier gave the route up. */
    method ProbeGiveUp(route: RouteId)
      requires Valid()
      modifies Repr()
      ensures Valid() && fresh(Repr() - old(Repr()))
      ensures View() == Apply(old(View()), ProbeGaveUp(route))
    {
      hide View, PutRoute, BannedForGood;
      var st := RouteStateOf(route);
      label L:
      st.BanPermanent();
      RouteChanged@L(route);
    }
  }
}
