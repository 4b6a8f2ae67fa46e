/** Where a proxy stands is what its records say: over every run of them its tier on a route,
    and every figure behind it, can be read off the run. */
module TierLaws {
  import opened Prelude
  import opened Health
  import opened Plan
  import opened Attempt
  import Wire

  /** The record concerns the route, as a win: an attempt answered, a takeover, ... */
  predicate Wins(op: HealthOp, r: RouteId) {
    (op.AttemptWon? || op.StreamResumed?) && op.route == r
  }

  /** ... or as a loss: an attempt failed, or a stream, or a takeover. */
  predicate Loses(op: HealthOp, r: RouteId) {
    (op.AttemptLost? || op.StreamBroke?) && op.route == r
  }

  /** The record was of a route's answered probe. */
  predicate Restores(op: HealthOp, r: RouteId) { op.ProbeRestored? && op.route == r }

  /** Losses on the route since its last win or answered probe. */
  function LossesInARow(ops: seq<HealthOp>, r: RouteId): nat {
    if ops == [] then 0
    else
      var last := ops[|ops| - 1];
      if Wins(last, r) || Restores(last, r) then 0
      else LossesInARow(ops[..|ops| - 1], r) + if Loses(last, r) then 1 else 0
  }

  /** Wins on the route since its last loss. */
  function WinsInARow(ops: seq<HealthOp>, r: RouteId): nat {
    if ops == [] then 0
    else
      var last := ops[|ops| - 1];
      if Loses(last, r) then 0 else WinsInARow(ops[..|ops| - 1], r) + if Wins(last, r) then 1 else 0
  }

  /** The end of the ban: as the last loss that banned says, never if a probe gave the route up
      since, and none since a won attempt or an answered probe. A takeover lifts no ban. */
  function BanEnd(ops: seq<HealthOp>, r: RouteId): nat {
    if ops == [] then 0
    else
      var front, last := ops[..|ops| - 1], ops[|ops| - 1];
      match last
      case AttemptLost(q, _, _, Some(ms), _, now) =>
        if q != r then BanEnd(front, r) else Min(now + ms, 18446744073709551615)
      case ProbeGaveUp(q) => if q != r then BanEnd(front, r) else 18446744073709551615
      case AttemptWon(q, _) => if q == r then 0 else BanEnd(front, r)
      case ProbeRestored(q) => if q == r then 0 else BanEnd(front, r)
      case _ => BanEnd(front, r)
  }

  function BansCounted(ops: seq<HealthOp>, r: RouteId): nat {
    if ops == [] then 0
    else
      var last := ops[|ops| - 1];
      BansCounted(ops[..|ops| - 1], r)
      + if (last.AttemptLost? && last.route == r && last.ban.Some?) || last == ProbeGaveUp(r) then 1 else 0
  }

  /** A latency measured on a route, with what it weighs: that of a loss is raised above `slow_ms`. */
  datatype Sample = Sample(measured: nat, weighed: nat)

  /** The sample a record adds, if any. */
  function SampleOf(op: HealthOp, r: RouteId): Option<Sample> {
    if Wins(op, r) then Some(Sample(op.latency, op.latency))
    else if Loses(op, r) && op.latency'.Some? then
      Some(Sample(op.latency'.value, Max(op.latency'.value, op.slowMs + 1)))
    else None
  }

  function Samples(ops: seq<HealthOp>, r: RouteId): seq<Sample> {
    if ops == [] then []
    else
      var front, last := ops[..|ops| - 1], ops[|ops| - 1];
      var x := SampleOf(last, r);
      Samples(front, r) + if x.Some? then [x.value] else []
  }

  /** Three parts the new sample, seven parts what was, from the first on. */
  function Average(s: seq<Sample>): nat {
    if s == [] then 0
    else
      var before, x := Average(s[..|s| - 1]), s[|s| - 1].weighed;
      if before == 0 then x else (3 * x + 7 * before) / 10
  }

  function LastMeasured(s: seq<Sample>): nat { if s == [] then 0 else s[|s| - 1].measured }

  /** Out everywhere: a fatal loss, and no answered probe of the transport or of a route since. */
  predicate OutEverywhere(ops: seq<HealthOp>) {
    ops != [] &&
      var last := ops[|ops| - 1];
      (last.AttemptLost? && last.fatal)
      || (!last.TransportRestored? && !last.ProbeRestored? && OutEverywhere(ops[..|ops| - 1]))
  }

  function TimesOut(ops: seq<HealthOp>): nat {
    if ops == [] then 0
    else
      var front := ops[..|ops| - 1];
      TimesOut(front) + if OutEverywhere(ops) && !OutEverywhere(front) then 1 else 0
  }

  /** The counts of a proxy's books on a route, and its global flag, are its history. */
  ghost predicate CountsAre(e: EntryView, ops: seq<HealthOp>, r: RouteId) {
    var v := RouteOf(e, r);
    && v.failures == LossesInARow(ops, r) && v.successes == WinsInARow(ops, r)
    && v.bannedUntil == BanEnd(ops, r) && v.bans == BansCounted(ops, r)
    && e.fatal == OutEverywhere(ops) && e.fatalCount == TimesOut(ops)
  }

  /** And so are its latencies. */
  ghost predicate LatenciesAre(e: EntryView, ops: seq<HealthOp>, r: RouteId) {
    RouteOf(e, r).avg == Average(Samples(ops, r)) && RouteOf(e, r).last == LastMeasured(Samples(ops, r))
  }

  /** Every figure of a proxy can be read off its records. */
  lemma {:induction false} FiguresAreHistory(url: string, tags: seq<string>, ops: seq<HealthOp>, r: RouteId)
    ensures CountsAre(ApplyAll(FreshEntry(url, tags), ops), ops, r)
    ensures LatenciesAre(ApplyAll(FreshEntry(url, tags), ops), ops, r)
  {
    if ops != [] {
      var front := ops[..|ops| - 1];
      FiguresAreHistory(url, tags, front, r);
      hide CountsAre, LatenciesAre, Apply;
      CountStep(ApplyAll(FreshEntry(url, tags), front), ops, r);
      LatencyStep(ApplyAll(FreshEntry(url, tags), front), ops, r);
    }
  }

  /** What a record does to one route. */
  function OnRoute(v: RouteView, op: HealthOp, r: RouteId): RouteView {
    if op.TransportRestored? || op.route != r then v
    else
      match op
      case AttemptWon(_, latency) => Unbanned(Succeeded(v, latency))
      case AttemptLost(_, latency, slowMs, ban, _, now) => Lost(v, latency, slowMs, ban, now)
      case StreamBroke(_, latency, slowMs) => Health.Failed(v, latency, slowMs)
      case StreamResumed(_, latency) => Succeeded(v, latency)
      case ProbeRestored(_) => Unbanned(v)
      case ProbeGaveUp(_) => BannedForGood(v)
      case Touched(_) => v
  }

  lemma OnRouteIs(e: EntryView, op: HealthOp, r: RouteId)
    ensures RouteOf(Apply(e, op), r) == OnRoute(RouteOf(e, r), op, r)
  {
    hide Succeeded, Lost, Health.Failed, Unbanned, BannedForGood;
  }

  lemma {:induction false} CountStep(e: EntryView, ops: seq<HealthOp>, r: RouteId)
    requires ops != [] && CountsAre(e, ops[..|ops| - 1], r)
    ensures CountsAre(Apply(e, ops[|ops| - 1]), ops, r)
  {
    OnRouteIs(e, ops[|ops| - 1], r);
    FlagStep(e, ops);
    hide Apply, OutEverywhere, TimesOut, RouteOf;
    StreakStep(RouteOf(e, r), ops, r);
    BanStep(RouteOf(e, r), ops, r);
  }

  lemma FlagStep(e: EntryView, ops: seq<HealthOp>)
    requires ops != [] && e.fatal == OutEverywhere(ops[..|ops| - 1]) && e.fatalCount == TimesOut(ops[..|ops| - 1])
    ensures var f := Apply(e, ops[|ops| - 1]);
            f.fatal == OutEverywhere(ops) && f.fatalCount == TimesOut(ops)
  {
    FlagOn(e, ops[|ops| - 1]);
    hide Apply;
  }

  lemma FlagOn(e: EntryView, op: HealthOp)
    ensures var out := op.AttemptLost? && op.fatal;
            var f := Apply(e, op);
            && f.fatal == (out || (e.fatal && !op.TransportRestored? && !op.ProbeRestored?))
            && f.fatalCount == e.fatalCount + if out && !e.fatal then 1 else 0
  {
    hide Succeeded, Lost, Health.Failed, Unbanned, BannedForGood, RouteOf;
  }

  lemma StreakStep(v: RouteView, ops: seq<HealthOp>, r: RouteId)
    requires ops != []
    requires v.failures == LossesInARow(ops[..|ops| - 1], r) && v.successes == WinsInARow(ops[..|ops| - 1], r)
    ensures var w := OnRoute(v, ops[|ops| - 1], r);
            w.failures == LossesInARow(ops, r) && w.successes == WinsInARow(ops, r)
  {
    StreaksOn(v, ops[|ops| - 1], r);
    hide OnRoute, Wins, Loses, Restores;
  }

  lemma StreaksOn(v: RouteView, op: HealthOp, r: RouteId)
    ensures var w := OnRoute(v, op, r);
            && w.failures == (if Wins(op, r) || Restores(op, r) then 0 else v.failures + if Loses(op, r) then 1 else 0)
            && w.successes == (if Loses(op, r) then 0 else v.successes + if Wins(op, r) then 1 else 0)
  {
    hide Blend, Min, Max;
  }

  lemma BanStep(v: RouteView, ops: seq<HealthOp>, r: RouteId)
    requires ops != []
    requires v.bannedUntil == BanEnd(ops[..|ops| - 1], r) && v.bans == BansCounted(ops[..|ops| - 1], r)
    ensures var w := OnRoute(v, ops[|ops| - 1], r);
            w.bannedUntil == BanEnd(ops, r) && w.bans == BansCounted(ops, r)
  {
    hide Blend, Max;
  }

  lemma {:induction false} LatencyStep(e: EntryView, ops: seq<HealthOp>, r: RouteId)
    requires ops != [] && LatenciesAre(e, ops[..|ops| - 1], r)
    ensures LatenciesAre(Apply(e, ops[|ops| - 1]), ops, r)
  {
    OnRouteIs(e, ops[|ops| - 1], r);
    hide Apply, RouteOf;
    SampleStep(RouteOf(e, r), ops, r);
  }

  lemma LatencyOn(v: RouteView, op: HealthOp, r: RouteId)
    ensures var w, x := OnRoute(v, op, r), SampleOf(op, r);
            if x.None? then w.avg == v.avg && w.last == v.last
            else w.avg == Blend(v.avg, x.value.weighed) && w.last == x.value.measured
  {
    hide Blend, Min, Max;
  }

  lemma SampleStep(v: RouteView, ops: seq<HealthOp>, r: RouteId)
    requires ops != []
    requires var before := Samples(ops[..|ops| - 1], r); v.avg == Average(before) && v.last == LastMeasured(before)
    ensures var w := OnRoute(v, ops[|ops| - 1], r);
            w.avg == Average(Samples(ops, r)) && w.last == LastMeasured(Samples(ops, r))
  {
    var before, x := Samples(ops[..|ops| - 1], r), SampleOf(ops[|ops| - 1], r);
    assert before + [] == before;
    assert Samples(ops, r) == before + if x.Some? then [x.value] else [];
    LatencyOn(v, ops[|ops| - 1], r);
    hide Average, LastMeasured, Samples, OnRoute, SampleOf;
    if x.Some? { SampleAdds(before, x.value); }
  }

  lemma SampleAdds(s: seq<Sample>, x: Sample)
    ensures Average(s + [x]) == if Average(s) == 0 then x.weighed else (3 * x.weighed + 7 * Average(s)) / 10
    ensures LastMeasured(s + [x]) == x.measured
  {
    assert (s + [x])[..|s|] == s;
  }

  /** Over every run of records the tier of a proxy at a time is: fatal if it is out everywhere;
      else banned before the end of its ban; else failed from `fail_streak` losses in a row on;
      else slow above `slow_ms`; else healthy. */
  lemma {:induction false} TierIsHistory(url: string, tags: seq<string>, ops: seq<HealthOp>, cfg: RouteCfg, now: nat)
    ensures EntryTier(ApplyAll(FreshEntry(url, tags), ops), cfg, now) ==
              if OutEverywhere(ops) then Tier.Fatal
              else if now < BanEnd(ops, cfg.id) then Banned
              else if LossesInARow(ops, cfg.id) >= cfg.failStreak then Tier.Failed
              else if Average(Samples(ops, cfg.id)) > cfg.slowMs then Slow
              else Healthy
  {
    hide ApplyAll, OutEverywhere, BanEnd, LossesInARow, Average, Samples;
    FiguresAreHistory(url, tags, ops, cfg.id);
  }

  /** So a proxy that is neither out nor banned is demoted for failing if and only if at least
      `fail_streak` losses came since its last win or answered probe on the route. */
  lemma {:induction false} FailedIff(url: string, tags: seq<string>, ops: seq<HealthOp>, cfg: RouteCfg, now: nat)
    ensures EntryTier(ApplyAll(FreshEntry(url, tags), ops), cfg, now) == Tier.Failed <==>
              !OutEverywhere(ops) && BanEnd(ops, cfg.id) <= now && LossesInARow(ops, cfg.id) >= cfg.failStreak
  {
    hide ApplyAll, OutEverywhere, BanEnd, LossesInARow, EntryTier;
    TierIsHistory(url, tags, ops, cfg, now);
  }

  /** What an attempt that comes to its end does to its proxy. Giving up does nothing; an
      answer ends streak and ban and is measured; anything else is one more loss, banned only
      by `retry_other_proxy`, for the time it asks, and measured only if a response came. */
  lemma {:induction false} AttemptMoves(e: EntryView, cfg: RouteCfg, reply: Reply, elapsed: nat, now: nat)
    ensures var broke := reply.Response? && cfg.captureBody && !Wire.Clean(reply.body);
            var f, v := Recorded(e, OpOf(cfg, reply, elapsed, now)), RouteOf(e, cfg.id);
            var w := RouteOf(f, cfg.id);
            if reply.Response? && !broke && VerdictOf(cfg, reply).GiveUp? then f == e
            else if reply.Response? && !broke
                    && (VerdictOf(cfg, reply).Success? || VerdictOf(cfg, reply).ReturnAsIs?) then
              && f.usage == e.usage + 1 && f.ok == e.ok + 1 && f.err == e.err && f.fatal == e.fatal
              && w.failures == 0 && w.bannedUntil == 0 && w.avg == Blend(v.avg, elapsed) && w.ok == v.ok + 1
            else
              && f.usage == e.usage + 1 && f.ok == e.ok && f.err == e.err + 1
              && w.failures == v.failures + 1 && w.err == v.err + 1
              && w.avg == (if reply.Response? then Blend(v.avg, Max(elapsed, cfg.slowMs + 1)) else v.avg)
              && w.bannedUntil ==
                   if reply.Response? && !broke && VerdictOf(cfg, reply).RetryOtherProxy? then
                     Min(now + VerdictOf(cfg, reply).banForMs, 18446744073709551615)
                   else v.bannedUntil
  {
    hide IsTransportFatalReason, Blend;
    var op := OpOf(cfg, reply, elapsed, now);
    if op.Some? { OnRouteIs(e, op.value, cfg.id); }
  }
}
