/** One attempt through one proxy (`run_attempt` in `dispatch/mod.rs`): what it
    answers, and what it records on the proxy. The network and the `on_response`
    hook are arbitrary inputs. */
module Attempt {
  import opened Prelude
  import opened Wire
  import opened Health
  import Plan

  const FAILED_BODY_CAP := 64 * 1024
  const MAX_CAPTURE_BUFFER := 10 * 1024 * 1024

  datatype ResponseVerdict =
    | Success
    | ReturnAsIs
    | RetryOtherProxy(banForMs: nat)
    | RetrySameProxy
    | HardFail(reason: string)
    | GiveUp(code: nat, text: string)

  /** What comes back. `hook` is the verdict of `on_response`, if the route has one;
      `resumable` says the request is a GET whose response may be resumed. */
  datatype Reply =
    | ConnectionError(reason: string, connectPhase: bool)
    | TimedOut
    | Response(status: nat, html: bool, body: seq<Piece>, resumable: bool, hook: Option<ResponseVerdict>)

  datatype FailedResponse = FailedResponse(status: nat, body: seq<byte>)

  datatype AttemptOk =
    | Streaming(url: string, status: nat, body: seq<Piece>, recover: bool)
    | Buffered(status: nat, bytes: seq<byte>)
    | GaveUp(status: nat, text: string)

  datatype AttemptResult = Answered(ok: AttemptOk) | Next(failed: Option<FailedResponse>)

  function Cap(s: seq<byte>, n: nat): seq<byte> { if |s| <= n then s else s[..n] }

  function DefaultVerdict(status: nat, banMs: nat): ResponseVerdict {
    if status == 403 then ReturnAsIs
    else if status in {421, 429, 500, 502, 503} || status >= 500 then RetryOtherProxy(banMs)
    else Success
  }

  function VerdictOf(cfg: Plan.RouteCfg, reply: Reply): ResponseVerdict
    requires reply.Response?
  {
    if reply.hook.Some? then reply.hook.value else DefaultVerdict(reply.status, cfg.defaultBanMs)
  }

  function ValidStatus(code: nat): nat { if 100 <= code <= 999 then code else 502 }

  predicate OccursAt(s: string, sub: string, i: nat) { i + |sub| <= |s| && s[i..i + |sub|] == sub }

  predicate Contains(s: string, sub: string) { exists i: nat | i <= |s| :: OccursAt(s, sub, i) }

  predicate IsTransportFatalReason(reason: string) {
    || Contains(reason, "client error (Connect)")
    || Contains(reason, "dns error")
    || Contains(reason, "Connection refused")
  }

  /** Drains a failed response, up to the cap or the first break. */
  method BufferFailed(body: seq<Piece>) returns (buf: seq<byte>)
    ensures buf == Cap(Payload(body), FAILED_BODY_CAP)
  {
    buf := [];
    var i := 0;
    while i < |body|
      invariant 0 <= i <= |body| && Clean(body[..i])
      invariant buf == Payload(body[..i]) && |buf| <= FAILED_BODY_CAP
    {
      PayloadStep(body, i);
      if body[i].Broken? { return; }
      var rem := FAILED_BODY_CAP - |buf|;
      if i + 1 < |body| { PayloadStep(body, i + 1); }
      assert i + 1 == |body| ==> body[..i + 1] == body;
      if rem == 0 { return; }
      if |body[i].bytes| > rem { return buf + body[i].bytes[..rem]; }
      buf := buf + body[i].bytes;
      i := i + 1;
    }
    assert body[..i] == body;
  }

  /** What the caller gets. */
  function ResultOf(cfg: Plan.RouteCfg, url: string, reply: Reply): AttemptResult {
    if !reply.Response? then Next(None)
    else if cfg.captureBody && !Clean(reply.body) then Next(None)
    else
      match VerdictOf(cfg, reply)
      case Success => Answered(
        if cfg.captureBody then Buffered(reply.status, Cap(Payload(reply.body), MAX_CAPTURE_BUFFER))
        else Streaming(url, reply.status, reply.body, reply.resumable))
      case ReturnAsIs => Answered(
        if cfg.captureBody then Buffered(reply.status, Cap(Payload(reply.body), MAX_CAPTURE_BUFFER))
        else Streaming(url, reply.status, reply.body, false))
      case RetryOtherProxy(_) => Next(
        if reply.html then None
        else Some(FailedResponse(reply.status,
          Cap(Payload(reply.body), if cfg.captureBody then MAX_CAPTURE_BUFFER else FAILED_BODY_CAP))))
      case RetrySameProxy => Next(None)
      case HardFail(_) => Next(None)
      case GiveUp(code, text) => Answered(GaveUp(ValidStatus(code), text))
  }

  /** What the proxy's books get. */
  function OpOf(cfg: Plan.RouteCfg, reply: Reply, elapsed: nat, now: nat): Option<HealthOp> {
    match reply
    case ConnectionError(reason, connectPhase) =>
      Some(AttemptLost(cfg.id, None, cfg.slowMs, None, connectPhase || IsTransportFatalReason(reason), now))
    case TimedOut => Some(AttemptLost(cfg.id, None, cfg.slowMs, None, false, now))
    case Response(status, html, body, resumable, hook) =>
      if cfg.captureBody && !Clean(body) then Some(AttemptLost(cfg.id, Some(elapsed), cfg.slowMs, None, false, now))
      else
        match VerdictOf(cfg, reply)
        case Success => Some(AttemptWon(cfg.id, elapsed))
        case ReturnAsIs => Some(AttemptWon(cfg.id, elapsed))
        case RetryOtherProxy(ban) => Some(AttemptLost(cfg.id, Some(elapsed), cfg.slowMs, Some(ban), false, now))
        case RetrySameProxy => Some(AttemptLost(cfg.id, Some(elapsed), cfg.slowMs, None, false, now))
        case HardFail(reason) =>
          var fatal := !cfg.captureBody || IsTransportFatalReason(reason);
          Some(AttemptLost(cfg.id, Some(elapsed), cfg.slowMs, None, fatal, now))
        case GiveUp(_, _) => None
  }

  function Recorded(e: EntryView, op: Option<HealthOp>): EntryView {
    if op.Some? then Apply(e, op.value) else e
  }

  // ---- Attempts that are dropped ----

  /** Where an attempt waits, and can be dropped for good: another one has won the race, or
      the client has left. */
  datatype Await = Sending | ReadingBody | Pausing | Draining

  /** The attempt comes to wait there. A `retry_same` pauses if it asks for a delay. */
  predicate Reaches(cfg: Plan.RouteCfg, reply: Reply, at: Await) {
    match at
    case Sending => true
    case ReadingBody => reply.Response? && cfg.captureBody
    case Pausing => reply.Response? && (cfg.captureBody ==> Clean(reply.body)) && VerdictOf(cfg, reply).RetrySameProxy?
    case Draining => reply.Response? && !cfg.captureBody && VerdictOf(cfg, reply).RetryOtherProxy? && !reply.html
  }

  predicate DroppedAt(cfg: Plan.RouteCfg, reply: Reply, drop: Option<Await>) {
    drop.Some? && Reaches(cfg, reply, drop.value)
  }

  /** What the books get from an attempt that may be dropped. */
  function OpUntil(cfg: Plan.RouteCfg, reply: Reply, elapsed: nat, now: nat, drop: Option<Await>): Option<HealthOp> {
    if DroppedAt(cfg, reply, drop) && !drop.value.Draining? then None else OpOf(cfg, reply, elapsed, now)
  }

  /** An attempt, which is dropped where it first waits at `drop`. */
  method RunAttempt(cfg: Plan.RouteCfg, entry: Entry, reply: Reply, elapsed: nat, now: nat, drop: Option<Await>)
    returns (result: Option<AttemptResult>)
    requires entry.Valid()
    modifies entry.Repr()
    ensures entry.Valid() && fresh(entry.Repr() - old(entry.Repr()))
    ensures result == if DroppedAt(cfg, reply, drop) then None else Some(ResultOf(cfg, entry.url, reply))
    ensures entry.View() == Recorded(old(entry.View()), OpUntil(cfg, reply, elapsed, now, drop))
  {
    if drop == Some(Sending) { return None; }
    match reply {
      case ConnectionError(reason, connectPhase) =>
        var proxyDead := connectPhase || IsTransportFatalReason(reason);
        entry.RecordFailure(cfg.id, cfg.slowMs, None, None, proxyDead, now);
        return Some(Next(None));
      case TimedOut =>
        entry.RecordFailure(cfg.id, cfg.slowMs, None, None, false, now);
        return Some(Next(None));
      case Response(status, html, body, resumable, hook) =>
        if cfg.captureBody {
          result := RunCapturing(cfg, entry, reply, elapsed, now, drop);
        } else {
          result := RunStreaming(cfg, entry, reply, elapsed, now, drop);
        }
    }
  }

  /** The route inspects bodies, so the whole body is read first. */
  method RunCapturing(cfg: Plan.RouteCfg, entry: Entry, reply: Reply, elapsed: nat, now: nat, drop: Option<Await>)
    returns (result: Option<AttemptResult>)
    requires entry.Valid() && reply.Response? && cfg.captureBody && drop != Some(Sending)
    modifies entry.Repr()
    ensures entry.Valid() && fresh(entry.Repr() - old(entry.Repr()))
    ensures result == if DroppedAt(cfg, reply, drop) then None else Some(ResultOf(cfg, entry.url, reply))
    ensures entry.View() == Recorded(old(entry.View()), OpUntil(cfg, reply, elapsed, now, drop))
  {
    if drop == Some(ReadingBody) { return None; }
    if !Clean(reply.body) {
      entry.RecordFailure(cfg.id, cfg.slowMs, Some(elapsed), None, false, now);
      return Some(Next(None));
    }
    var full := Cap(Payload(reply.body), MAX_CAPTURE_BUFFER);
    match VerdictOf(cfg, reply) {
      case Success =>
        entry.RecordSuccess(cfg.id, elapsed);
        result := Some(Answered(Buffered(reply.status, full)));
      case ReturnAsIs =>
        entry.RecordSuccess(cfg.id, elapsed);
        result := Some(Answered(Buffered(reply.status, full)));
      case RetryOtherProxy(ban) =>
        entry.RecordFailure(cfg.id, cfg.slowMs, Some(elapsed), Some(ban), false, now);
        result := Some(Next(if reply.html then None else Some(FailedResponse(reply.status, full))));
      case HardFail(reason) =>
        entry.RecordFailure(cfg.id, cfg.slowMs, Some(elapsed), None, IsTransportFatalReason(reason), now);
        result := Some(Next(None));
      case RetrySameProxy =>
        if drop == Some(Pausing) { return None; }
        entry.RecordFailure(cfg.id, cfg.slowMs, Some(elapsed), None, false, now);
        result := Some(Next(None));
      case GiveUp(code, text) =>
        result := Some(Answered(GaveUp(ValidStatus(code), text)));
    }
  }

  /** The hook sees status and headers only, so the body stays a stream. */
  method RunStreaming(cfg: Plan.RouteCfg, entry: Entry, reply: Reply, elapsed: nat, now: nat, drop: Option<Await>)
    returns (result: Option<AttemptResult>)
    requires entry.Valid() && reply.Response? && !cfg.captureBody && drop != Some(Sending)
    modifies entry.Repr()
    ensures entry.Valid() && fresh(entry.Repr() - old(entry.Repr()))
    ensures result == if DroppedAt(cfg, reply, drop) then None else Some(ResultOf(cfg, entry.url, reply))
    ensures entry.View() == Recorded(old(entry.View()), OpUntil(cfg, reply, elapsed, now, drop))
  {
    match VerdictOf(cfg, reply) {
      case Success =>
        entry.RecordSuccess(cfg.id, elapsed);
        result := Some(Answered(Streaming(entry.url, reply.status, reply.body, reply.resumable)));
      case ReturnAsIs =>
        entry.RecordSuccess(cfg.id, elapsed);
        result := Some(Answered(Streaming(entry.url, reply.status, reply.body, false)));
      case RetryOtherProxy(ban) =>
        entry.RecordFailure(cfg.id, cfg.slowMs, Some(elapsed), Some(ban), false, now);
        if reply.html {
          result := Some(Next(None));
        } else {
          if drop == Some(Draining) { return None; }
          var buf := BufferFailed(reply.body);
          result := Some(Next(Some(FailedResponse(reply.status, buf))));
        }
      case HardFail(reason) =>
        entry.RecordFailure(cfg.id, cfg.slowMs, Some(elapsed), None, true, now);
        result := Some(Next(None));
      case RetrySameProxy =>
        if drop == Some(Pausing) { return None; }
        entry.RecordFailure(cfg.id, cfg.slowMs, Some(elapsed), None, false, now);
        result := Some(Next(None));
      case GiveUp(code, text) =>
        result := Some(Answered(GaveUp(ValidStatus(code), text)));
    }
  }

  /** Every attempt that ends writes exactly one record, a win exactly when it answers
      and a loss exactly when dispatch moves on; only giving up writes none. */
  lemma AttemptRecords(cfg: Plan.RouteCfg, url: string, reply: Reply, elapsed: nat, now: nat)
    ensures var r, op := ResultOf(cfg, url, reply), OpOf(cfg, reply, elapsed, now);
            && (op.None? <==> r.Answered? && r.ok.GaveUp?)
            && (op.Some? && op.value.AttemptWon? <==> r.Answered? && !r.ok.GaveUp?)
            && (op.Some? && op.value.AttemptLost? <==> r.Next?)
            && (op.Some? ==> PLANNED(op.value) && op.value.route == cfg.id)
  {
  }

  function FirstBytes(s: seq<byte>, n: nat): seq<byte> { if |s| <= n then s else s[..n] }

  /** What an attempt hands on. A failed response is kept exactly if the verdict is
      `retry_other_proxy` and it is no page; only a success may be resumed; a body that was
      read is cut at 10 MiB, a failed one of a stream at 64 KiB; giving up answers with the
      hook's status if it is one, else 502. */
  lemma {:induction false} HandedOn(cfg: Plan.RouteCfg, url: string, reply: Reply)
    requires reply.Response? && !(cfg.captureBody && !Clean(reply.body))
    ensures var r, v := ResultOf(cfg, url, reply), VerdictOf(cfg, reply);
            && (r.Next? ==>
                  r.failed == if v.RetryOtherProxy? && !reply.html then
                      Some(FailedResponse(reply.status,
                        FirstBytes(Payload(reply.body), if cfg.captureBody then 10485760 else 65536)))
                    else None)
            && (r.Answered? && !cfg.captureBody ==>
                  r.ok.GaveUp? || r.ok == Streaming(url, reply.status, reply.body, v.Success? && reply.resumable))
            && (r.Answered? && cfg.captureBody ==>
                  r.ok.GaveUp? || r.ok == Buffered(reply.status, FirstBytes(Payload(reply.body), 10485760)))
            && (r.Answered? && r.ok.GaveUp? ==>
                  v.GiveUp? && r.ok == GaveUp(if 100 <= v.code < 1000 then v.code else 502, v.text))
  {
    hide Payload;
  }

  /** Without a hook an answer never carries 421, 429 or a status of 500 or more, every other
      status is answered, and only a 403 is passed on unresumable for its status. */
  lemma {:induction false} AnsweredWithoutHook(cfg: Plan.RouteCfg, url: string, reply: Reply)
    requires reply.Response? && reply.hook.None? && !(cfg.captureBody && !Clean(reply.body))
    ensures var r := ResultOf(cfg, url, reply);
            && (r.Answered? <==> reply.status !in {421, 429} && reply.status < 500)
            && (r.Answered? && !cfg.captureBody ==>
                  r.ok.Streaming? && (r.ok.recover <==> reply.resumable && reply.status != 403))
  {
    hide Payload;
  }

  /** A reason reads like a failure to connect exactly if one of three phrases is in it. */
  lemma {:induction false} ConnectPhrases(a: string, b: string)
    ensures IsTransportFatalReason(a + "client error (Connect)" + b)
    ensures IsTransportFatalReason(a + "dns error" + b) && IsTransportFatalReason(a + "Connection refused" + b)
  {
    hide IsTransportFatalReason;
    PhraseIn(a, "client error (Connect)", b);
    PhraseIn(a, "dns error", b);
    PhraseIn(a, "Connection refused", b);
    EachSuffices(a + "client error (Connect)" + b);
    EachSuffices(a + "dns error" + b);
    EachSuffices(a + "Connection refused" + b);
  }

  lemma PhraseIn(a: string, sub: string, b: string)
    ensures Contains(a + sub + b, sub)
  {
    assert (a + sub + b)[|a|..|a| + |sub|] == sub;
    assert OccursAt(a + sub + b, sub, |a|);
  }

  lemma EachSuffices(s: string)
    ensures Contains(s, "client error (Connect)") || Contains(s, "dns error") || Contains(s, "Connection refused") ==>
              IsTransportFatalReason(s)
  {
    hide Contains;
  }

  lemma {:induction false} OnlyConnectPhrases(s: string) returns (a: string, sub: string, b: string)
    requires IsTransportFatalReason(s)
    ensures s == a + sub + b && sub in {"client error (Connect)", "dns error", "Connection refused"}
  {
    hide Contains;
    sub := if Contains(s, "client error (Connect)") then "client error (Connect)"
           else if Contains(s, "dns error") then "dns error" else "Connection refused";
    a, b := PhraseFound(s, sub);
  }

  lemma PhraseFound(s: string, sub: string) returns (a: string, b: string)
    requires Contains(s, sub)
    ensures s == a + sub + b
  {
    var i: nat :| i <= |s| && OccursAt(s, sub, i);
    a, b := s[..i], s[i + |sub|..];
  }

  /** The attempt sidelines the proxy on every route. */
  predicate Sidelines(cfg: Plan.RouteCfg, reply: Reply) {
    var op := OpOf(cfg, reply, 0, 0);
    op.Some? && op.value.AttemptLost? && op.value.fatal
  }

  /** A failure to reach the proxy: the connection could not be made, or the error, or the
      hook's reason, reads like it. */
  predicate ConnectClass(cfg: Plan.RouteCfg, reply: Reply) {
    || (reply.ConnectionError? && (reply.connectPhase || IsTransportFatalReason(reply.reason)))
    || (reply.Response? && VerdictOf(cfg, reply).HardFail? && IsTransportFatalReason(VerdictOf(cfg, reply).reason))
  }

  /** A hook's `hard_fail` on the streaming path, for a reason of its own. */
  predicate HardFailedStream(cfg: Plan.RouteCfg, reply: Reply) {
    && reply.Response? && !cfg.captureBody && VerdictOf(cfg, reply).HardFail?
    && !IsTransportFatalReason(VerdictOf(cfg, reply).reason)
  }

  /** The documented promise "only a connect-class failure sidelines a proxy everywhere"
      holds of an attempt if and only if it is no such `hard_fail`. */
  lemma {:induction false} SidelinedOnlyByConnectIff(cfg: Plan.RouteCfg, reply: Reply)
    ensures (Sidelines(cfg, reply) ==> ConnectClass(cfg, reply)) <==> !HardFailedStream(cfg, reply)
  {
    hide IsTransportFatalReason;
    if reply.Response? {
      assert Sidelines(cfg, reply) ==> VerdictOf(cfg, reply).HardFail?;
    }
  }

  /** Conversely a connect-class failure sidelines the proxy if and only if the body it came
      with, on a route that reads bodies, did not break. */
  lemma {:induction false} ConnectSidelinesIff(cfg: Plan.RouteCfg, reply: Reply)
    requires ConnectClass(cfg, reply)
    ensures Sidelines(cfg, reply) <==> !(cfg.captureBody && reply.Response? && !Clean(reply.body))
  {
    hide IsTransportFatalReason;
    if reply.Response? { assert VerdictOf(cfg, reply).HardFail?; }
  }

  /** An attempt that breaks the promise: the site answered, and the hook called it a captcha. */
  lemma {:induction false} CaptchaSidelines(cfg: Plan.RouteCfg)
    requires !cfg.captureBody
    ensures var reply := Response(200, true, [], false, Some(HardFail("captcha")));
            Sidelines(cfg, reply) && !ConnectClass(cfg, reply)
  {
    TooShort("captcha", "client error (Connect)");
    TooShort("captcha", "dns error");
    TooShort("captcha", "Connection refused");
  }

  lemma TooShort(s: string, sub: string)
    requires |s| < |sub|
    ensures !Contains(s, sub)
  {
  }

  /** An attempt: on which route, with what, when, and where it is dropped, if it gets there. */
  datatype Attempted = Attempted(cfg: Plan.RouteCfg, reply: Reply, elapsed: nat, now: nat, drop: Option<Await>)

  predicate IsDropped(a: Attempted) { DroppedAt(a.cfg, a.reply, a.drop) }

  function OpOfAttempt(a: Attempted): Option<HealthOp> { OpUntil(a.cfg, a.reply, a.elapsed, a.now, a.drop) }

  /** What happens to a proxy's global flag: attempts, and restoring probes, of the transport
      or of a route. */
  datatype Happening = Tried(attempt: Attempted) | TransportAnswered | RouteAnswered(route: RouteId)

  function OpsOfHappening(h: Happening): seq<HealthOp> {
    match h
    case Tried(a) => var op := OpOfAttempt(a); if op.Some? then [op.value] else []
    case TransportAnswered => [TransportRestored]
    case RouteAnswered(r) => [ProbeRestored(r)]
  }

  function OpsOfAll(run: seq<Happening>): seq<HealthOp> {
    if run == [] then [] else OpsOfAll(run[..|run| - 1]) + OpsOfHappening(run[|run| - 1])
  }

  function FatalAfter(url: string, tags: seq<string>, run: seq<Happening>): bool {
    ApplyAll(FreshEntry(url, tags), OpsOfAll(run)).fatal
  }

  /** `p` holds of an attempt of the run with no restoring probe behind it. */
  ghost predicate SinceRestored(run: seq<Happening>, p: Attempted -> bool) {
    exists k :: 0 <= k < |run| && run[k].Tried? && p(run[k].attempt) && forall j :: k < j < |run| ==> run[j].Tried?
  }

  const SIDELINES := (a: Attempted) => !IsDropped(a) && Sidelines(a.cfg, a.reply)
  const CONNECT_CLASS := (a: Attempted) => !IsDropped(a) && ConnectClass(a.cfg, a.reply)
  const HARD_FAILED := (a: Attempted) => !IsDropped(a) && HardFailedStream(a.cfg, a.reply)

  lemma {:induction false} SinceRestoredStep(run: seq<Happening>, p: Attempted -> bool)
    requires run != []
    ensures var last := run[|run| - 1];
            SinceRestored(run, p) <==> last.Tried? && (p(last.attempt) || SinceRestored(run[..|run| - 1], p))
  {
    var front, last := run[..|run| - 1], run[|run| - 1];
    if SinceRestored(run, p) {
      var k :| 0 <= k < |run| && run[k].Tried? && p(run[k].attempt) && forall j :: k < j < |run| ==> run[j].Tried?;
      if k < |front| { assert front[k] == run[k]; }
    }
    if last.Tried? && p(last.attempt) { assert run[|run| - 1].Tried?; }
    if last.Tried? && SinceRestored(front, p) {
      var k :| 0 <= k < |front| && front[k].Tried? && p(front[k].attempt)
               && forall j :: k < j < |front| ==> front[j].Tried?;
      assert run[k] == front[k];
      forall j | k < j < |run| ensures run[j].Tried? { if j < |front| { assert run[j] == front[j]; } }
    }
  }

  /** Over any run a proxy is sidelined exactly if an attempt did it since it was last restored. */
  lemma {:induction false} FatalIff(url: string, tags: seq<string>, run: seq<Happening>)
    ensures FatalAfter(url, tags, run) <==> SinceRestored(run, SIDELINES)
  {
    if run != [] {
      var front, last := run[..|run| - 1], run[|run| - 1];
      FatalIff(url, tags, front);
      SinceRestoredStep(run, SIDELINES);
      var ops, more := OpsOfAll(front), OpsOfHappening(last);
      if more == [] {
        assert ops + more == ops;
      } else {
        assert (ops + more)[..|ops + more| - 1] == ops;
      }
      if last.Tried? { SameFatal(last.attempt); }
    }
  }

  lemma SameFatal(a: Attempted)
    ensures var op, op0 := OpOfAttempt(a), OpOf(a.cfg, a.reply, 0, 0);
            && (op.Some? ==> !op.value.TransportRestored? && !op.value.ProbeRestored?)
            && (op.Some? && op.value.AttemptLost? && op.value.fatal <==> SIDELINES(a))
  {
    hide IsTransportFatalReason, Contains;
  }

  /** So the documented promise holds of a run if and only if no such `hard_fail` came since
      the proxy was last restored, or a connect-class failure sidelined it as well. */
  lemma {:induction false} SidelinedOnlyByConnectInRunsIff(url: string, tags: seq<string>, run: seq<Happening>)
    ensures (FatalAfter(url, tags, run) ==> SinceRestored(run, CONNECT_CLASS))
       <==> (SinceRestored(run, HARD_FAILED) ==> SinceRestored(run, CONNECT_CLASS))
  {
    FatalIff(url, tags, run);
    if run != [] { SidelinedSplits(run); }
  }

  lemma {:induction false} SidelinedSplits(run: seq<Happening>)
    ensures SinceRestored(run, HARD_FAILED) ==> SinceRestored(run, SIDELINES)
    ensures SinceRestored(run, SIDELINES) ==> SinceRestored(run, CONNECT_CLASS) || SinceRestored(run, HARD_FAILED)
  {
    if run != [] {
      var last := run[|run| - 1];
      SidelinedSplits(run[..|run| - 1]);
      SinceRestoredStep(run, HARD_FAILED);
      SinceRestoredStep(run, SIDELINES);
      SinceRestoredStep(run, CONNECT_CLASS);
      if last.Tried? {
        hide Sidelines, ConnectClass, HardFailedStream;
        SidelinedOnlyByConnectIff(last.attempt.cfg, last.attempt.reply);
        if HardFailedStream(last.attempt.cfg, last.attempt.reply) {
          HardFailSidelines(last.attempt.cfg, last.attempt.reply);
        }
      }
    }
  }

  lemma HardFailSidelines(cfg: Plan.RouteCfg, reply: Reply)
    requires HardFailedStream(cfg, reply)
    ensures Sidelines(cfg, reply)
  {
    hide IsTransportFatalReason;
  }

  // ---- What the usage counter counts ----

  function OpsOf(run: seq<Attempted>): seq<HealthOp> {
    if run == [] then []
    else
      var op := OpOfAttempt(run[|run| - 1]);
      OpsOf(run[..|run| - 1]) + (if op.Some? then [op.value] else [])
  }

  function Count(run: seq<Attempted>, p: Attempted -> bool): nat {
    if run == [] then 0 else Count(run[..|run| - 1], p) + (if p(run[|run| - 1]) then 1 else 0)
  }

  /** It came to its end, and the hook did not give up on the request. */
  const COMPLETED := (a: Attempted) => !IsDropped(a) && !GivesUp(a)

  predicate GivesUp(a: Attempted) {
    var result := ResultOf(a.cfg, "", a.reply);
    result.Answered? && result.ok.GaveUp?
  }

  /** It was dropped while it drained the body of a response it had already recorded. */
  const LEFT_DRAINING := (a: Attempted) => IsDropped(a) && a.drop.value.Draining?

  /** Over any run a proxy's usage counts its completed attempts that did not give up, and
      those dropped while draining. */
  lemma {:induction false} UsageCountsAttempts(url: string, tags: seq<string>, run: seq<Attempted>)
    ensures ApplyAll(FreshEntry(url, tags), OpsOf(run)).usage == Count(run, COMPLETED) + Count(run, LEFT_DRAINING)
  {
    var ops := OpsOf(run);
    if run != [] {
      var front, last := run[..|run| - 1], run[|run| - 1];
      UsageCountsAttempts(url, tags, front);
      AttemptCounts(last);
      var before, op := OpsOf(front), OpOfAttempt(last);
      if op.Some? {
        assert ops[..|ops| - 1] == before && ops[|ops| - 1] == op.value;
        LedgerBalances(url, tags, before);
        OpBalances(ApplyAll(FreshEntry(url, tags), before), op.value, CountWhere(before, BROKE),
          CountWhere(before, RESUMED));
      } else {
        assert ops == before;
      }
    }
  }

  /** An attempt is recorded once exactly if it is one of those. */
  lemma AttemptCounts(a: Attempted)
    ensures OpOfAttempt(a).Some? <==> COMPLETED(a) || LEFT_DRAINING(a)
    ensures !(COMPLETED(a) && LEFT_DRAINING(a))
    ensures OpOfAttempt(a).Some? ==> PLANNED(OpOfAttempt(a).value)
  {
    hide IsTransportFatalReason, Contains;
  }

  /** So "usage counts the completed attempts that did not give up" holds of a run if and only
      if none was dropped while draining: no attempt that was abandoned had a streamed
      response other than a page for which the verdict was `retry_other_proxy`. */
  lemma {:induction false} UsageIsCompletedIff(url: string, tags: seq<string>, run: seq<Attempted>)
    ensures ApplyAll(FreshEntry(url, tags), OpsOf(run)).usage == Count(run, COMPLETED) <==>
              forall a :: a in run ==> !LEFT_DRAINING(a)
  {
    UsageCountsAttempts(url, tags, run);
    CountNone(run, LEFT_DRAINING);
  }

  lemma {:induction false} CountNone(run: seq<Attempted>, p: Attempted -> bool)
    ensures Count(run, p) == 0 <==> forall a :: a in run ==> !p(a)
  {
    if run != [] {
      CountNone(run[..|run| - 1], p);
      assert run == run[..|run| - 1] + [run[|run| - 1]];
    }
  }

  /** A proxy that never completed an attempt, with a use, an error and a ban on its books:
      its 503 was still draining when another proxy won. */
  lemma {:induction false} DroppedAttemptCounts(cfg: Plan.RouteCfg, body: seq<Piece>, elapsed: nat, now: nat)
    requires !cfg.captureBody
    ensures var a := Attempted(cfg, Response(503, false, body, false, None), elapsed, now, Some(Draining));
            var e := ApplyAll(FreshEntry("s://p", []), OpsOf([a]));
            && IsDropped(a) && Count([a], COMPLETED) == 0
            && e.usage == 1 && e.err == 1 && RouteOf(e, cfg.id).bans == 1
  {
    var a := Attempted(cfg, Response(503, false, body, false, None), elapsed, now, Some(Draining));
    var op := AttemptLost(cfg.id, Some(elapsed), cfg.slowMs, Some(cfg.defaultBanMs), false, now);
    assert IsDropped(a) && OpOfAttempt(a) == Some(op);
    hide OpOfAttempt, Apply, RouteOf, FreshEntry;
    assert [a][..0] == [] && OpsOf([]) == [] && OpsOf([a]) == [op];
    assert [op][..0] == [] && ApplyAll(FreshEntry("s://p", []), []) == FreshEntry("s://p", []);
    FirstLossIsBooked("s://p", op);
  }

  lemma FirstLossIsBooked(url: string, op: HealthOp)
    requires op.AttemptLost? && op.ban.Some?
    ensures var e := Apply(FreshEntry(url, []), op);
            e.usage == 1 && e.err == 1 && RouteOf(e, op.route).bans == 1
  {
  }
}
