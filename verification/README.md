# Verified model of the proxy suite's routing engine

This project models the decision logic of the repository's proxies in Dafny and proves
what that logic guarantees. The centre is the routing engine of `intermediate-proxy`:
a request is tried through upstream proxies in an order the route chooses, one after the
other or as a hedged race; when all fail, a hook decides whether to wait, start over or
fall back to banned proxies; a response whose body breaks is resumed through another
proxy. Around it stand the hot-reloaded proxy list, the glob compiler, URL masking, the
Tor node pool and the IPv6 subnet arithmetic.

The network, the hooks, the clock, randomness and other requests are arbitrary inputs:
an attempt ends in any way at any time, a body is any sequence of chunks that may break,
health may change between any two looks at the pool. What is stated holds for all of them.

## How it is built

- `Health.dfy` — `RouteState` and `Entry`, the counters a proxy updates in place, each
  method tied to a function on their values (`RouteView`, `EntryView`); the moving average
  and the balance of the books over whole runs.
- `Sorting.dfy` — the one stable sort, on arrays; `Plan.dfy` — `build_plan`, `order` and
  `fallback_pool` on arrays; `PlanLaws.dfy` — what plans guarantee;
  `RankLaws.dfy` — where each proxy stands in them; `TurnLaws.dfy` — how round robin shares
  out their heads; `TierLaws.dfy` — tiers read off the records.
- `Attempt.dfy` — one attempt: answer and record. `Dispatch.dfy` — a pass over a plan, as
  a walk and as the `Race` state machine. `Run.dfy` — whole requests; `TriedLaws.dfy` — who
  they may ask again; `RunLaws.dfy` — what they guarantee across planning, passes, answers and
  resumed responses.
- `Wire.dfy`, `Stream.dfy` — bodies, and the loop that forwards, recovers, skips and
  splices; `StreamLaws.dfy` — what the client can rely on.
- `Loader.dfy`, `Reload.dfy` — the proxy file and the live pool. `Glob.dfy` — globs to
  regular expressions. `Masking.dfy` — passwords in URLs and text. `Subnet.dfy`,
  `TorPool.dfy` — the two smaller proxies.
- `Prelude.dfy`, `Text.dfy`, `Turns.dfy` — shared vocabulary: optional values, duplicate-free
  sequences, string search, rotations and remainders.

A class stands where the source updates fields in place; a method's contract equates its
new state or result with a function, and the lemmas are about those functions. A request
(`Run.Run`) is pinned down twice: by `ExactRequest`, which replays every pass from what the
one before it left, and by `GoodRequest`, the properties a caller cares about.

## Where code and documentation disagree

The model follows the code; each point is a statement below.

- The `reserve` tag is documented as "only when every non-reserve proxy is down"
  (`README.md:99`). Where `prefer_non_reserve` is on, as it is by default, the code only orders
  reserve proxies last, and lets `prefer_tags` dominate: with room under the cap they are
  planned beside healthy ones, and a preferred reserve proxy can take the only place from a
  healthy proxy; with the option off it does not look at the tag.
  `RankLaws.DocumentedReservePromiseIff` says for all selectors and options exactly when the
  promise holds, `RankLaws.RotatingReserveIff` and `RankLaws.RandomReserveIff` what that means
  with the option off; `PlanLaws.ReserveUsedBesideHealthy`,
  `PlanLaws.PreferredReserveDisplacesHealthy` and `RankLaws.ReserveFirstWhenOff` show it fail.
- `exclude_tags` makes proxies "ineligible for the route entirely" (`README.md:97`, "never
  eligible", `intermediate-proxy/examples/routes.lua:13`). The takeover of a broken stream does
  not look at tags, nor does a forced proxy: `RunLaws.EverybodyAllowedIff`,
  `RunLaws.AskedIff`, `RunLaws.ExcludedTakesOver`.
- "Only a connect-class failure marks the proxy fatal globally" (`README.md:66`). On the
  streaming path a `hard_fail` verdict does so too, whatever its reason:
  `Attempt.SidelinedOnlyByConnectIff`, over whole runs
  `Attempt.SidelinedOnlyByConnectInRunsIff`, and `Attempt.CaptchaSidelines` for an input.
- Unmeasured proxies are said to sort "right after the fastest known"
  (`intermediate-proxy/src/route/state.rs:218-219`). They sort as 1 ms, before every measured
  proxy slower than that. `PlanLaws.RightAfterFastestIff` says exactly when the promise holds,
  `PlanLaws.UnmeasuredGoesFirst` shows it fail.
- A failure's latency is raised to `slow_ms + 1` so that failing proxies turn slow. Integer
  rounding keeps an average that is not already above `slow_ms` from ever getting there:
  `Health.FailuresTurnSlowIff`.
- `wait_probe` keeps what was tried. A hedged route therefore never retries a proxy after
  waiting for probes; only `retry_all` forgets: `TriedLaws.HedgedRequestNeverRepeats`.
- A stream that breaks again while already delivered bytes are being skipped ends without
  an error, cut short: `StreamLaws.EndedIsCompleteIff`, `StreamLaws.TruncatedWithoutError`.
- A `path` glob that is a plain tree becomes a bare prefix, wider than the glob:
  `Glob.ChosenMatchIsWiderExactly`. The compiled `**` also stops at a newline
  (`Glob.NewlineHoldsUpAnyRun`), which the paths of requests never have.
- A reload that only reorders the list changes nothing: `Reload.ProxyPool.Reload`.
- Circuit rotations of one Tor node keep the cooldown between them unless they overlap:
  `TorPool.SoonOnlyByOverlap`, `TorPool.RotationsAreBounded`; overlapping ones may come at the
  same time: `TorPool.OverlapRenewsTwice`.
- A password with an unescaped slash, question mark or hash is not masked in a URL:
  `Masking.PasswordIsMaskedIff`. In free text a comma, semicolon, quote, bracket or space in
  it has the same effect, and so has another URL in front of it with none of those in between:
  `Masking.PasswordIsScrubbedIff`, `Masking.PasswordStaysIff`,
  `Masking.SecondUrlKeepsPassword`.

Two more points no documentation settles, but a reader may assume otherwise:

- Round robin rotates before the reserve and preferred floats, so a candidate behind a floated
  one gets its turn as well: `TurnLaws.RoundRobinIsFairIff`, `TurnLaws.ReserveGivesItsTurnAway`.
- A hedged attempt can be dropped after it was recorded, while it drains a failed response: use,
  error and ban count although it never came to an end. `Attempt.UsageIsCompletedIff`,
  `Attempt.DroppedAttemptCounts`.

## Model

| member | source | states |
|---|---|---|
| `StreamLaws.ClientGetsPrefix` | intermediate-proxy/src/stream.rs:140-283 | for any chunking, breaks, 206 or 200 recoveries and departure of the client: what was sent is a prefix of the resource, all of it up to the furthest byte reached unless the client left; every recovery asked for the bytes right behind those sent |
| `StreamLaws.SkipIsExact` | intermediate-proxy/src/stream.rs:218-243 | skipping into a full body and forwarding the rest yields exactly the bytes beyond those delivered, however the body is chunked |
| `StreamLaws.SpliceIsExact` | intermediate-proxy/src/stream.rs:203-247 | one more honest source, full or partial, turns a delivered prefix into the longer prefix it reaches |
| `StreamLaws.ChainIsExact` | intermediate-proxy/src/stream.rs:140-283 | after any number of sources exactly the prefix up to the high-water mark is delivered |
| `StreamLaws.RecoveryIsBounded` | intermediate-proxy/src/stream.rs:172-179 | over a response's whole life no proxy is asked twice, none that dispatch tried, the original never again; recoveries number at most the untried proxies |
| `StreamLaws.EndedIsCompleteIff` | intermediate-proxy/src/stream.rs:220-242 | a response that just ends is complete if and only if its last body did not break or everything had been delivered before it was joined |
| `StreamLaws.GaveUpIsCompleteIff` | intermediate-proxy/src/stream.rs:276-279 | a response closed for want of proxies, or after a reported break, is complete exactly if the high-water mark is the end |
| `StreamLaws.TruncatedWithoutError` | intermediate-proxy/src/stream.rs:240 | a run on an honest network that ends like a complete one after two of five bytes |
| `Stream.Pump` | intermediate-proxy/src/stream.rs:134-284 | the loop terminates; its sources are chained breaks and takeovers; the client gets exactly the sends before the first that fails, and with that one the response ends: nobody is asked and nothing recorded after it; its health records are exactly one per broken proxy still pooled and one per proxy asked, in order; each way of ending happens only for its reason |
| `Stream.SendsAreDelivered` | intermediate-proxy/src/stream.rs:142-147 | the sends a chain of sources makes, the end of a straddling chunk and then each chunk by itself, are together the bytes it delivers |
| `StreamLaws.TakeoverMoves` | intermediate-proxy/src/stream.rs:203-272 | who takes over gets a measured success, who does not one more loss on the route, measured only if it answered; neither is a use, an error of the proxy or touches a ban |
| `StreamLaws.OnTheBooksIff` | intermediate-proxy/src/stream.rs:158-272 | the breaks of a response leave exactly a loss of each proxy that broke and is still in the pool and the outcome of each request made to take over |
| `StreamLaws.BooksCount` | intermediate-proxy/src/stream.rs:158-272 | and each of these once |
| `Stream.TakeOver` | intermediate-proxy/src/stream.rs:168-279 | one break uses up at least one untried proxy or finds all dead or tried, and leaves the response where the joined body continues it |
| `Stream.Recover` | intermediate-proxy/src/stream.rs:172-274 | the loop over the snapshot is the recursive choice: dead and tried proxies skipped, others asked and recorded until one answers 206 or 200 |
| `Stream.RecoveryExtends` | intermediate-proxy/src/stream.rs:172-274 | everybody asked was untried, in the pool and asked once; all but the taker refused; without a taker nobody is left |
| `Stream.SkipInto` | intermediate-proxy/src/stream.rs:219-242 | the skip loop passes on the end of the straddling chunk and leaves the rest of the body; a break or the end stops it |
| `Run.Run` | intermediate-proxy/src/dispatch/mod.rs:620-801 | any request ends after at most max(1, cap) rounds and rounds × max_attempts + 1 planned attempts, replays its passes exactly, and answers what the script makes due |
| `Run.Round` | intermediate-proxy/src/dispatch/mod.rs:658-732 | one round plans from the pool of that moment, the forced proxy put in front in the first round only, and passes over exactly that plan from what the last round left |
| `Run.PlanRound` | intermediate-proxy/src/dispatch/mod.rs:659-684 | the plan is `build_plan`'s, behind the forced proxy if the pool knows it; the cursor moves as planning moves it |
| `Run.RunPass` | intermediate-proxy/src/dispatch/mod.rs:686-732 | a pass is the race or the walk over its plan; what it adds to the tried set are the URLs it attempted; hedged passes repeat none |
| `Run.RoundGrows` | intermediate-proxy/src/dispatch/mod.rs:658-732 | a round keeps the invariant of a request: bound on attempts, where each came from, what is remembered |
| `Run.NextRoundBetween` | intermediate-proxy/src/dispatch/mod.rs:764-779 | waiting for probes keeps the tried set, `retry_all` empties it |
| `Run.StaysOnTrack` | intermediate-proxy/src/dispatch/mod.rs:654-732 | appending a pass that starts from what the last one left keeps the trace an exact replay |
| `Run.TryFatalPass` | intermediate-proxy/src/dispatch/mod.rs:804-868 | the last-resort pass tries the fallback pool in order up to the first acceptable answer and keeps the other answers' bodies |
| `Run.Exhaust` | intermediate-proxy/src/dispatch/mod.rs:747-763 | after `try_fatal` the request answers with the fallback's response, the most common failure, or 502 |
| `TriedLaws.LastResortIsNew` | intermediate-proxy/src/dispatch/mod.rs:747-763 | the last-resort pass touches only banned or fatal eligible proxies not tried since the last `retry_all`, and only if the hook asked |
| `TriedLaws.HedgedRequestNeverRepeats` | intermediate-proxy/src/dispatch/mod.rs:764-779 | a hedged request asks no proxy twice between two `retry_all`s, across waits and in the last-resort pass |
| `RunLaws.FailureMeansAllFailed` | intermediate-proxy/src/dispatch/mod.rs:658-801 | a request reports a failure only if every candidate the plans of all its rounds let it try has failed |
| `RunLaws.LostPassAllFailed` | intermediate-proxy/src/dispatch/mod.rs:686-732 | a pass, walk or race, is lost only if every place it may try has failed |
| `RunLaws.LastResortPassesOn` | intermediate-proxy/src/dispatch/mod.rs:804-868 | the last resort never passes on 403, 421, 429 or 500-599; whoever was asked before gave no answer or one of those, and without an answer so did the whole pool; the first 64 KiB of those that are no pages join the failures, and nothing else does |
| `RunLaws.ForcedGoesFirst` | intermediate-proxy/src/dispatch/mod.rs:666-684 | a forced proxy goes before the plan of the first round if the pool has it, and changes no other plan |
| `RunLaws.FirstChoiceIsBest` | intermediate-proxy/src/dispatch/mod.rs:658-732 | the first attempt of a best-latency request goes to a live eligible proxy that no other live one beats by (not preferred, reserve, tier, latency key) |
| `RunLaws.NothingBetterLeftOut` | intermediate-proxy/src/route/state.rs:93-131 | no proxy the cap leaves out of a best-latency or hedged plan is better than one it takes |
| `RunLaws.TakeoversAreNew` | intermediate-proxy/src/stream.rs:172-179 | from dispatch to the end of a resumed response nobody is asked to take over who was attempted since the last `retry_all`, the broken proxy included; a hedged request asks nobody twice at all |
| `RunLaws.EligibleIff` | intermediate-proxy/src/route/state.rs:47-99 | a proxy is eligible exactly if it carries all the tags asked for, one of the alternatives, if any, and no excluded one |
| `RunLaws.EverybodyAllowedIff` | intermediate-proxy/src/dispatch/mod.rs:658-850 | everybody who sees a request or a resumed response, in planned attempts, the last resort and takeovers, is allowed by the route's tags if and only if the forced proxy and everybody asked to take over is |
| `RunLaws.AskedIff` | intermediate-proxy/src/stream.rs:172-179 | an untried proxy is asked to take over, whatever its tags, if and only if it is live and no live untried one in front of it answers |
| `RunLaws.ExcludedTakesOver` | intermediate-proxy/src/stream.rs:172-179 | a takeover by an excluded proxy |
| `Run.CountStatuses` | intermediate-proxy/src/dispatch/mod.rs:144-147 | the counting loop gives every status its number of occurrences |
| `Run.BuildMostCommon` | intermediate-proxy/src/dispatch/mod.rs:140-159 | there is a response exactly if something failed, and it is the first one with a status that occurs most often |
| `Dispatch.RaceIsSafe` | intermediate-proxy/src/dispatch/mod.rs:554-615 | under every interleaving of completions and timer ticks: at most max(1, max_parallel) in flight, every URL launched at most once and none tried before, launches in plan order, failures real; lost means all fresh candidates were launched and failed |
| `Dispatch.RaceAlways` | intermediate-proxy/src/dispatch/mod.rs:554-615 | the invariant of the race at every moment of every schedule |
| `Dispatch.RaceFinishes` | intermediate-proxy/src/dispatch/mod.rs:591-615 | for every schedule: a running race has lost exactly as many attempts as completed while in flight, and fewer than its plan has places; that many, and it has ended |
| `Dispatch.FairRaceEnds` | intermediate-proxy/src/dispatch/mod.rs:591-615 | on any endless schedule on which every attempt in flight gets to complete, the race ends, whatever the order and the timer ticks |
| `Dispatch.RaceDecidesAsWalk` | intermediate-proxy/src/dispatch/mod.rs:488-616 | whatever the schedule, a finished race is lost exactly when the walk over its fresh candidates is |
| `Dispatch.RaceOfOneWalksFresh` | intermediate-proxy/src/dispatch/mod.rs:536-616 | with one attempt at a time a finished race made the walk over its fresh candidates |
| `Dispatch.RaceOfOneIsWalk` | intermediate-proxy/src/dispatch/mod.rs:488-616 | with one attempt at a time, distinct plan URLs and none tried, race and sequential walk agree in attempts, order, tried set, failures and result |
| `Dispatch.AllFreshIff` | intermediate-proxy/src/dispatch/mod.rs:555-561 | a race considers every place of its plan exactly if the plan repeats no URL and none was tried |
| `Dispatch.FreshUrls` | intermediate-proxy/src/dispatch/mod.rs:555-561 | the candidates a race considers have new, distinct URLs, and are all that the plan adds |
| `Dispatch.DispatchHedged` | intermediate-proxy/src/dispatch/mod.rs:536-616 | the loop over a schedule of events is the state machine `RaceRun` |
| `Dispatch.TimerHedges` | intermediate-proxy/src/dispatch/mod.rs:607-612 | a tick while fewer than `max_parallel` attempts are in flight starts exactly the next fresh candidate; with no room, or nobody left, it changes nothing |
| `Dispatch.LossIsReplaced` | intermediate-proxy/src/dispatch/mod.rs:601-604 | a failed attempt is replaced by the next fresh candidate |
| `Dispatch.LaunchCount` | intermediate-proxy/src/dispatch/mod.rs:587-612 | at every moment of every race as many candidates were launched as there are, or one at the start, one for every loss and one for every tick that found room |
| `Dispatch.BodiesIff` | intermediate-proxy/src/dispatch/mod.rs:517-520 | kept are exactly the failed responses of the attempts that ended |
| `Dispatch.Race.Launch` | intermediate-proxy/src/dispatch/mod.rs:554-585 | starts the next candidate not tried yet, if any is left, and says whether it did |
| `Dispatch.Race.Fail` | intermediate-proxy/src/dispatch/mod.rs:601-604 | a failure is kept, its attempt leaves the race, and the next candidate takes its place |
| `Dispatch.DispatchSequential` | intermediate-proxy/src/dispatch/mod.rs:489-532 | the attempts are the walk over all places up to the first answer, repeated URLs included; tried and failures grow by exactly theirs |
| `Dispatch.WalkFacts` | intermediate-proxy/src/dispatch/mod.rs:502-531 | a walk is a prefix of its places and has no winner exactly if all of them fail |
| `Attempt.RunAttempt` | intermediate-proxy/src/dispatch/mod.rs:222-442 | answer and record of an attempt for every reply, timeout, error and verdict, on both paths, and what is on the books if it is dropped where it waits |
| `Attempt.RunCapturing` | intermediate-proxy/src/dispatch/mod.rs:281-365 | the buffering path: a body that breaks is a failure, a long one is cut, verdicts decide; dropped, it has recorded nothing |
| `Attempt.RunStreaming` | intermediate-proxy/src/dispatch/mod.rs:367-441 | the streaming path: the verdict decides on status and headers, the body stays a stream; dropped while draining a failed one, it has recorded the failure |
| `Attempt.BufferFailed` | intermediate-proxy/src/dispatch/mod.rs:107-138 | the kept body is what arrived before a break, cut at 64 KiB, however it was chunked |
| `Attempt.AttemptRecords` | intermediate-proxy/src/dispatch/mod.rs:222-442 | of an attempt that ends a win is recorded exactly if it answers, a loss exactly if dispatch moves on, nothing exactly on `give_up` |
| `Attempt.HandedOn` | intermediate-proxy/src/dispatch/mod.rs:281-441 | what an attempt hands on: a failed response exactly if the verdict is `retry_other_proxy` and it is no page; only a success is resumable; bodies cut at 10 MiB and 64 KiB; a given-up status that is none becomes 502 |
| `Attempt.AnsweredWithoutHook` | intermediate-proxy/src/dispatch/mod.rs:80-91 | without a hook every status is answered but 421, 429 and those from 500 on, and only 403 is passed on unresumable for its status |
| `Attempt.ConnectPhrases` | intermediate-proxy/src/proxy/entry.rs:218-222 | a reason with one of three phrases in it, anywhere, reads like a failure to connect |
| `Attempt.OnlyConnectPhrases` | intermediate-proxy/src/proxy/entry.rs:218-222 | and no other does |
| `Attempt.SidelinedOnlyByConnectIff` | intermediate-proxy/src/dispatch/mod.rs:245-425 | the documented promise that only a connect-class failure sidelines a proxy on every route holds of an attempt if and only if it is no `hard_fail` of a streamed response for another reason |
| `Attempt.ConnectSidelinesIff` | intermediate-proxy/src/dispatch/mod.rs:245-425 | a connect-class failure sidelines the proxy if and only if no buffered body broke before its verdict |
| `Attempt.CaptchaSidelines` | intermediate-proxy/src/dispatch/mod.rs:422-425 | an answered request that sidelines its proxy everywhere |
| `Attempt.FatalIff` | intermediate-proxy/src/dispatch/mod.rs:173-199 | over any run of attempts, dropped ones included, and restoring probes a proxy is sidelined exactly if an attempt that ended did it since it was last restored |
| `Attempt.SidelinedOnlyByConnectInRunsIff` | intermediate-proxy/src/dispatch/mod.rs:223-442 | the promise over whole runs, with its exact condition |
| `Attempt.UsageCountsAttempts` | intermediate-proxy/src/dispatch/mod.rs:161-199 | over any run a proxy's usage counts its completed planned attempts that did not give up, and those dropped while draining a failed response |
| `Attempt.UsageIsCompletedIff` | intermediate-proxy/src/dispatch/mod.rs:406-420 | it counts the former alone if and only if no attempt was dropped while draining |
| `Attempt.DroppedAttemptCounts` | intermediate-proxy/src/dispatch/mod.rs:406-420 | a proxy with a use, an error and a ban on its books that never completed an attempt |
| `PlanLaws.PlanIsOneSort` | intermediate-proxy/src/route/state.rs:93-131 | best-latency and hedged plans are the first `max_attempts` of one stable lexicographic sort by (not preferred, reserve, tier, latency key) |
| `PlanLaws.OrderIsOneSort` | intermediate-proxy/src/route/state.rs:113-128 | the same of the whole order, before the cap |
| `PlanLaws.BeforeUnmeasuredIff` | intermediate-proxy/src/route/state.rs:215-224 | in a best-latency or hedged order a measured proxy stands before an unmeasured one of its class if and only if its average is 1 ms and it comes first in the snapshot |
| `PlanLaws.RightAfterFastestIff` | intermediate-proxy/src/route/state.rs:215-224 | the documented place of an unmeasured proxy, behind exactly the fastest measured ones of its class, is its place if and only if none is measured, or some have 1 ms and all of those come before it in the snapshot |
| `PlanLaws.UnmeasuredGoesFirst` | intermediate-proxy/src/route/state.rs:215-224 | an order in which the unmeasured proxy goes before the only measured one |
| `PlanLaws.PlanAndFallbackPartition` | intermediate-proxy/src/route/state.rs:83-163 | at one instant the uncapped plan and the untried fallback pool hold every tag-eligible proxy exactly once, the live ones here and the dead ones there |
| `PlanLaws.PlanIsLive` | intermediate-proxy/src/route/state.rs:93-132 | a plan is capped and holds only live eligible proxies |
| `PlanLaws.OrderKeepsLive` | intermediate-proxy/src/route/state.rs:113-128 | no selector and no later sort loses or invents a candidate |
| `PlanLaws.ReserveOnlyBehindAllOthers` | intermediate-proxy/src/route/state.rs:115-131 | a reserve proxy is planned only behind every live non-reserve proxy, unless it is preferred and that one is not |
| `RankLaws.ReserveUsedIff` | intermediate-proxy/src/route/state.rs:83-131 | for every selector and all options: a plan uses a reserve proxy if and only if fewer than `max_attempts` go before one in the floats; with `prefer_non_reserve` on, if and only if a preferred one is live and the preferred others leave room, or another one is live and everybody else does; with room for all, if and only if one is live |
| `RankLaws.DocumentedReservePromiseIff` | intermediate-proxy/src/route/state.rs:83-131 | for every selector and all options the documented reserve rule holds of a plan if and only if no non-reserve proxy is live or no reserve proxy finds room |
| `RankLaws.RotatingReserveIff` | intermediate-proxy/src/route/state.rs:185-211 | without floats a round-robin or sticky plan uses a reserve proxy if and only if one stands within `max_attempts` places from where the cursor or the hash points |
| `RankLaws.RandomReserveIff` | intermediate-proxy/src/route/state.rs:175-184 | without floats some draws make a random plan use one if and only if fewer than `max_attempts` live proxies are of a better tier than one |
| `PlanLaws.FloatedIsOneSort` | intermediate-proxy/src/route/state.rs:115-128 | whatever the selector made, the floats are one stable sort of it by preferred, then not reserve |
| `RankLaws.PlannedByFloatIff` | intermediate-proxy/src/route/state.rs:83-131 | so a place of the selector's order is planned if and only if fewer than `max_attempts` go before it in the floats, and then at that place |
| `PlanLaws.ReserveUsedBesideHealthy` | intermediate-proxy/src/route/state.rs:115-131 | a plan that breaks the documented rule |
| `PlanLaws.PreferredReserveDisplacesHealthy` | intermediate-proxy/src/route/state.rs:115-131 | a plan that holds a preferred reserve proxy only, while a healthy proxy is live |
| `RankLaws.PlannedIff` | intermediate-proxy/src/route/state.rs:93-131 | a best-latency or hedged plan holds a live proxy if and only if fewer than `max_attempts` live ones are better, or equal and earlier in the snapshot, and then at that place |
| `RankLaws.ReserveUsedByRankIff` | intermediate-proxy/src/route/state.rs:93-131 | with any options, such a plan uses a reserve proxy if and only if fewer than `max_attempts` live proxies go before one |
| `RankLaws.ReserveFirstWhenOff` | intermediate-proxy/src/route/state.rs:115-117 | with `prefer_non_reserve` off, a plan that holds a faster reserve proxy instead of a healthy one |
| `RankLaws.RankIsPlace` | intermediate-proxy/src/route/state.rs:113-128 | the stable sort puts every place of the list where its rank says |
| `RankLaws.PlaceIsRank` | intermediate-proxy/src/route/state.rs:113-128 | and every place of the sorted list is some place's rank |
| `PlanLaws.RandomIsTierSorted` | intermediate-proxy/src/route/state.rs:175-184 | for all draws the random selector gives a permutation of the live proxies with the tiers in order |
| `PlanLaws.RandomReachesEveryOrder` | intermediate-proxy/src/route/state.rs:175-184 | every arrangement that respects the tiers comes out of some draws |
| `PlanLaws.ShuffleReaches` | intermediate-proxy/src/route/state.rs:179-182 | the swaps reach every permutation |
| `PlanLaws.RoundRobinRotates` | intermediate-proxy/src/route/state.rs:185-196 | a round-robin order is the sorted one, rotated to the cursor's place |
| `PlanLaws.EachStartsOnce` | intermediate-proxy/src/route/state.rs:185-196 | any n consecutive cursor values make what the selector hands to the floats begin with each of n candidates exactly once |
| `TurnLaws.HeadLeads` | intermediate-proxy/src/route/state.rs:113-131 | a round-robin plan begins with the first candidate, from the cursor's place on and going round, that no float puts another before |
| `TurnLaws.RoundRobinShares` | intermediate-proxy/src/route/state.rs:113-131 | among the plans of any n consecutive cursor values of n live proxies each such candidate heads one, and one more for every lower candidate directly in front of it; no other candidate heads any |
| `TurnLaws.RoundRobinIsFairIff` | intermediate-proxy/src/route/state.rs:113-131 | each live proxy heads exactly one of them if and only if the floats rank all of them alike |
| `TurnLaws.ReserveGivesItsTurnAway` | intermediate-proxy/src/route/state.rs:113-131 | three plans in a row that begin with the first, the third and the third of three proxies |
| `Turns.RotateKeeps` | intermediate-proxy/src/route/state.rs:193-194 | a rotation keeps the multiset and the cyclic order |
| `PlanLaws.TierAfterAttempt` | intermediate-proxy/src/route/state.rs:30-45 | after a won attempt only the global flag, a zero `fail_streak` or latency keep a proxy from being healthy; a ban, whatever it replaces, keeps it out exactly until it ends; a fatal loss takes it out |
| `PlanLaws.PermanentBanEndsIff` | intermediate-proxy/src/proxy/entry.rs:91-105 | a record ends a permanent ban exactly if it is a win, a restoring probe or a later loss with a shorter ban, on that route |
| `PlanLaws.GivenUpStaysOut` | intermediate-proxy/src/proxy/entry.rs:97-100 | once a probe gave the route up, no run of records brings the proxy back into its plans before one of those |
| `Plan.BuildPlan` | intermediate-proxy/src/route/state.rs:83-132 | filter, order, floats and cap on an array give `PlanOf` the live proxies, and move the cursor for round robin only |
| `TierLaws.FiguresAreHistory` | intermediate-proxy/src/proxy/entry.rs:63-205 | over every run of records streaks, bans, average, last latency and the global flag of a proxy are what the run says |
| `TierLaws.TierIsHistory` | intermediate-proxy/src/route/state.rs:30-45 | so is its tier: fatal from a fatal loss to the next answered probe, banned to the end of its ban, failed from `fail_streak` losses in a row on, slow above `slow_ms` |
| `TierLaws.FailedIff` | intermediate-proxy/src/route/state.rs:37-39 | a proxy neither out nor banned is demoted for failing if and only if at least `fail_streak` losses came since its last win or answered probe on the route |
| `TierLaws.AttemptMoves` | intermediate-proxy/src/dispatch/mod.rs:222-442 | what an attempt that ends does to its proxy: giving up nothing; an answer ends streak and ban and is measured; anything else is one more loss, banned only by `retry_other_proxy` and measured only if a response came |
| `PlanLaws.BetterFirst` | intermediate-proxy/src/route/state.rs:113-131 | a best-latency or hedged plan goes by preferred tags, then `reserve`, then healthy before slow before failed, then latency, an unmeasured proxy counting as 1 ms |
| `PlanLaws.FallbackOrder` | intermediate-proxy/src/route/state.rs:161 | the last resort asks the measured first, faster before slower, and the unmeasured last |
| `Plan.Order` | intermediate-proxy/src/route/state.rs:166-213 | each selector's in-place sorts, swaps and rotations give its order |
| `Plan.ShuffleInPlace` | intermediate-proxy/src/route/state.rs:178-182 | the swap loop is the Fisher-Yates shuffle of its draws |
| `Plan.CollectLive` | intermediate-proxy/src/route/state.rs:93-111 | the loop keeps exactly the eligible proxies that are neither banned nor fatal, in order |
| `Plan.FallbackPool` | intermediate-proxy/src/route/state.rs:137-163 | the fallback is the stably sorted dead, eligible, untried proxies, unmeasured last |
| `Sorting.SortInPlace` | intermediate-proxy/src/route/state.rs:115-128 | the array ends as the stable sort of what it held |
| `Sorting.SortIsStable` | intermediate-proxy/src/route/state.rs:115-128 | equals keep the order they came in |
| `Sorting.OnlyStableSort` | intermediate-proxy/src/route/state.rs:115-128 | sorted, same contents and stable: there is only one such sequence |
| `Sorting.TwoPassesAreLex` | intermediate-proxy/src/route/state.rs:113-128 | a stable pass over a stably sorted sequence is one lexicographic stable sort |
| `Health.LedgerBalances` | intermediate-proxy/src/dispatch/mod.rs:161-199 | over any run of records: per-route successes add up to the global ones, per-route errors to the global ones plus stream failures, and usage = success + error − stream recoveries |
| `Health.OpBalances` | intermediate-proxy/src/dispatch/mod.rs:161-199 | every single record keeps the books balanced |
| `Health.BlendStep` | intermediate-proxy/src/proxy/entry.rs:63-71 | a step shrinks the distance to the sample by 7/10 up to rounding and never leaves the interval between average and sample |
| `Health.BlendFixpoint` | intermediate-proxy/src/proxy/entry.rs:63-71 | a sample leaves the average alone exactly when it is 0 to 3 above it |
| `Health.RepeatConverges` | intermediate-proxy/src/proxy/entry.rs:63-71 | a repeated sample is reached exactly from above and to within 3 from below, in bounded time, for good |
| `Health.RepeatIsGeometric` | intermediate-proxy/src/proxy/entry.rs:63-71 | after n repetitions the distance to the sample is at most (7/10)^n of what it was, from below within 3 of that |
| `Health.FailuresTurnSlowIff` | intermediate-proxy/src/proxy/entry.rs:116-126 | failures measured at or below `slow_ms` end above it exactly if the average was unmeasured or above already; an average two below stays there |
| `Health.RouteState.BlendLatency` | intermediate-proxy/src/proxy/entry.rs:63-71 | the average becomes the blend, and nothing else changes |
| `Health.RouteState.ObserveSuccess` | intermediate-proxy/src/proxy/entry.rs:107-114 | the state after a success |
| `Health.RouteState.ObserveFailure` | intermediate-proxy/src/proxy/entry.rs:116-126 | the state after a failure, measured or not |
| `Health.RouteState.BanFor` | intermediate-proxy/src/proxy/entry.rs:91-95 | a ban ends after its time, saturating, and is counted |
| `Health.RouteState.ClearBan` | intermediate-proxy/src/proxy/entry.rs:102-105 | lifts the ban and the failure streak |
| `Health.Entry.RouteStateOf` | intermediate-proxy/src/proxy/entry.rs:172-180 | finds or creates a route's state; no two routes share one |
| `Health.Entry.MarkTransportFatal` | intermediate-proxy/src/proxy/entry.rs:189-197 | sets the flag, counts only the change and reports it |
| `Health.Entry.ClearTransportFatal` | intermediate-proxy/src/proxy/entry.rs:199-205 | lifts the flag and reports whether it was set |
| `Health.Entry.RecordSuccess` | intermediate-proxy/src/dispatch/mod.rs:161-171 | the proxy's whole new value after a won attempt; other routes untouched |
| `Health.Entry.RecordFailure` | intermediate-proxy/src/dispatch/mod.rs:173-199 | the proxy's whole new value after a lost attempt; other routes untouched |
| `Health.Entry.RecordStreamFailure` | intermediate-proxy/src/stream.rs:160-166 | a stream failure counts on the route only |
| `Health.Entry.ProbeRestore` | intermediate-proxy/src/route/prober.rs:90-92 | an answered probe lifts the route's ban and streak and the global flag; other routes untouched |
| `Health.Entry.ProbeGiveUp` | intermediate-proxy/src/route/prober.rs:108-109 | a probe that gives up bans the proxy on that route for good, and nowhere else |
| `Health.Entry.RecordStreamRecovery` | intermediate-proxy/src/stream.rs:212-213 | a takeover counts as a success, on the route and globally, but not as a use |
| `Loader.ParseProxies` | intermediate-proxy/src/proxy/loader.rs:15-58 | the parsed list means the file: every URL once, where it first occurs, with all tags any line gives it, each once |
| `Loader.ReadTags` | intermediate-proxy/src/proxy/loader.rs:29-43 | the tags of a line are its tag words without repetitions, up to a comment |
| `Loader.TagsIff` | intermediate-proxy/src/proxy/loader.rs:29-43 | a line gives exactly the tags of the words before the first that begins with a hash: the word itself, or behind `tags=` every non-empty part between commas |
| `Loader.PartsIff` | intermediate-proxy/src/proxy/loader.rs:31 | splitting gives exactly the stretches between separators |
| `Loader.WordsJoin` | intermediate-proxy/src/proxy/loader.rs:22 | any of the 25 white-space characters separates words |
| `Loader.OneWord` | intermediate-proxy/src/proxy/loader.rs:22 | and nothing else does |
| `Loader.LinesJoin` | intermediate-proxy/src/proxy/loader.rs:17 | lines are what newlines end |
| `Text.SchemeFollows` | intermediate-proxy/src/proxy/loader.rs:26 | any text with `://` in it counts as having a scheme |
| `Text.SchemeIn` | intermediate-proxy/src/proxy/loader.rs:26 | and only such a text does |
| `Loader.PushParts` | intermediate-proxy/src/proxy/loader.rs:31-37 | a `tags=` word adds its non-empty parts, each once |
| `Loader.MergeTags` | intermediate-proxy/src/proxy/loader.rs:44-49 | tags of a known URL join those it has, each once |
| `Loader.ParsedIsWellFormed` | intermediate-proxy/src/proxy/loader.rs:15-58 | URLs are distinct and have a scheme, tags are duplicate-free and non-empty, and no record or tag of the file is missing |
| `Reload.ProxyPool.Reload` | intermediate-proxy/src/proxy/mod.rs:55-92 | for distinct URLs list, map and parsed list agree afterwards, early return included; surviving URLs keep their objects with the new tags, new ones start cold; the same URLs leave list and map alone |
| `Reload.ProxyPool.Prepare` | intermediate-proxy/src/proxy/mod.rs:62-77 | the loop builds a list and a map of the same objects, reusing the known ones, and counts added and retained |
| `Reload.ProxyPool.Publish` | intermediate-proxy/src/proxy/mod.rs:78-84 | stores both, or nothing exactly when the counts say nothing changed; either way the pool then holds what was prepared, if URLs are distinct |
| `Reload.ProxyPool.StoreEntries` | intermediate-proxy/src/proxy/mod.rs:83-84 | between the two stores no URL in both names two objects |
| `Reload.ProxyPool.constructor` | intermediate-proxy/src/proxy/mod.rs:27-39 | list and map hold the parsed URLs as fresh entries, and agree if those are distinct |
| `Reload.ProxyPool.FindIsLookup` | intermediate-proxy/src/proxy/mod.rs:46-48 | the map finds exactly the entries of the list |
| `Reload.EarlyReturnIff` | intermediate-proxy/src/proxy/mod.rs:78-81 | the counting test means "all known and as many as before", which is "same URLs" for distinct ones |
| `Reload.RepetitionHidesRemoval` | intermediate-proxy/src/proxy/mod.rs:78-81 | with a repeated URL the test misses a removal |
| `Reload.LoadThenReload` | intermediate-proxy/src/proxy/mod.rs:55-92 | loading one file and reloading another leaves list, map and second file in agreement |
| `Glob.GlobToRegex` | intermediate-proxy/src/route/matcher.rs:75-107 | the emitted text reads back to the glob's tokens and matches exactly the paths the glob means, `**` stopping at newlines |
| `Glob.CompiledReadsBack` | intermediate-proxy/src/route/matcher.rs:75-107 | for every glob the text is well formed for a reader to which no special character stands for itself unescaped, and parses to exactly the glob's items |
| `Glob.SpecialsAreEscaped` | intermediate-proxy/src/route/matcher.rs:95-101 | the twelve special characters a glob gives no meaning come out escaped |
| `Glob.ItemsMeanGlob` | intermediate-proxy/src/route/matcher.rs:75-107 | cutting a path into one stretch per item succeeds exactly if the recursive matcher does |
| `Glob.CompiledMeansDocumentedGlob` | intermediate-proxy/src/route/matcher.rs:73-107 | the compiled glob accepts no more than documented, and on newline-free paths exactly that |
| `Glob.NewlineHoldsUpAnyRun` | intermediate-proxy/src/route/matcher.rs:82-84 | a path with a newline, which no request has, that `**` should take and does not |
| `Glob.PlainTreeMeans` | intermediate-proxy/src/route/config.rs:210-211 | a plain tree glob means: the directory, a slash, anything |
| `Glob.ChosenMatchIsWiderExactly` | intermediate-proxy/src/route/config.rs:207-213 | the chosen match accepts what the glob means and, beyond it, exactly the listed paths |
| `Glob.ShortcutNeverNarrows` | intermediate-proxy/src/route/config.rs:207-213 | no shortcut turns away a path the compiled glob accepts |
| `Masking.Scrub` | intermediate-proxy/src/util.rs:40-73 | the loop terminates on every text, is the recursive scrubber, and scrubbing its result again changes nothing |
| `Masking.ScrubTwice` | intermediate-proxy/src/util.rs:40-73 | scrubbing is idempotent on every string |
| `Masking.ScrubIsSanitize` | intermediate-proxy/src/util.rs:12-73 | on text without delimiters scrubbing is sanitizing |
| `Masking.SanitizeParts` | intermediate-proxy/src/util.rs:12-37 | only the user part of the authority behind the first scheme is rewritten |
| `Masking.SanitizeTwice` | intermediate-proxy/src/util.rs:12-37 | sanitizing is idempotent |
| `Masking.PasswordIsMaskedIff` | intermediate-proxy/src/util.rs:12-37 | of a URL with user, password and host the password comes out as `***`, and the rest as it was, exactly if neither user nor password has a slash, question mark or hash and no other scheme comes before (or the password is `***`) |
| `Masking.ScrubSplits` | intermediate-proxy/src/util.rs:40-73 | scrubbing works on both sides of a delimiter by itself |
| `Masking.UrlInText` | intermediate-proxy/src/util.rs:40-73 | a stretch of text behind a scheme is masked as a URL of its own, and what is around it scrubbed by itself, unless another scheme precedes it since the last delimiter: then it stays |
| `Masking.PasswordIsScrubbedIff` | intermediate-proxy/src/util.rs:40-73 | in free text such a URL comes out with `***`, and what is around it scrubbed by itself, exactly if neither user nor password has a slash, question mark, hash or delimiter and no scheme precedes it since the last delimiter (or the password is `***`); behind such a scheme it stays whole |
| `Masking.PasswordStaysIff` | intermediate-proxy/src/util.rs:45-50 | of a password of three characters the one in the middle keeps it in a text if and only if it is white space or one of `)"'><,;/?#` |
| `Masking.PasswordStaysInUrlIff` | intermediate-proxy/src/util.rs:12-37 | and in a URL by itself if and only if it is a slash, question mark or hash |
| `Masking.SecondUrlKeepsPassword` | intermediate-proxy/src/util.rs:43-69 | a text in which it stays behind another URL |
| `Masking.PasswordIsScrubbed` | intermediate-proxy/src/util.rs:40-73 | where it is masked, what is written is the same for every password |
| `Subnet.MaskPrefix` | simple-ipv6-proxy/src/subnet.rs:60-78 | the octet loop gives the address minus its remainder modulo 2^(128 − length) |
| `Subnet.RandomAddr` | simple-ipv6-proxy/src/subnet.rs:31-57 | the octet loop gives the prefix part of the one number plus the host part of the random one |
| `Subnet.MaskExpressions` | simple-ipv6-proxy/src/subnet.rs:50-52 | the shift, not, and, or expressions of a straddling octet cut and fill its low bits |
| `Subnet.FilledValue` | simple-ipv6-proxy/src/subnet.rs:43-56 | filling octet by octet is arithmetic on the whole number |
| `Subnet.MaskedValue` | simple-ipv6-proxy/src/subnet.rs:64-77 | masking octet by octet is arithmetic on the whole number |
| `Subnet.ValueIsInjective` | simple-ipv6-proxy/src/subnet.rs:60-78 | an address and its number determine each other |
| `Subnet.SamePrefixIff` | simple-ipv6-proxy/src/subnet.rs:60-78 | two addresses mask to the same prefix exactly if their numbers agree above the host bits |
| `Subnet.RandomAddrStaysInside` | simple-ipv6-proxy/src/subnet.rs:31-57 | every drawn address masks back to the prefix |
| `Subnet.DrawnExactlyBy` | simple-ipv6-proxy/src/subnet.rs:31-57 | every address of the subnet is drawn, by exactly the random octets that agree with it in the host bits |
| `Subnet.MaskingTwice` | simple-ipv6-proxy/src/subnet.rs:60-78 | masking a masked prefix changes nothing |
| `TorPool.NodePool.constructor` | tor-proxy/src/pool.rs:60-83 | every node starts ready, with empty counters and a last rotation an hour ago |
| `TorPool.StartsRotatable` | tor-proxy/src/pool.rs:64-68 | a node starts in turn, and can be rotated at once exactly with a cooldown of at most an hour |
| `TorPool.NodePool.GetOrderedNodes` | tor-proxy/src/pool.rs:109-136 | the order is the askable nodes, rotated to the advanced cursor |
| `TorPool.NodePool.OnSuccess` | tor-proxy/src/pool.rs:139-146 | a success ends the error streak and is counted on that node only |
| `TorPool.NodePool.OnError` | tor-proxy/src/pool.rs:149-169 | an error is counted, and asks for a rotation exactly when the streak reaches the threshold |
| `TorPool.NodePool.RotateNode` | tor-proxy/src/pool.rs:172-206 | a rotation with nothing in between is its two steps: check, then answer |
| `TorPool.AtOnceIs` | tor-proxy/src/pool.rs:172-206 | it renews the node exactly if the cooldown has passed and the node answered |
| `TorPool.AskableIs` | tor-proxy/src/pool.rs:113-122 | the nodes asked are exactly the ready ones, or all if none is, each once |
| `TorPool.OrderVisitsEachOnce` | tor-proxy/src/pool.rs:109-136 | an order visits each of them once, in cyclic order |
| `TorPool.EachLeadsOnce` | tor-proxy/src/pool.rs:124-133 | over n consecutive orders of n unchanged nodes each leads exactly once, wherever the cursor stood |
| `TorPool.CountersAreHistory` | tor-proxy/src/pool.rs:139-206 | in every run, with rotations overlapping as they may, requests = successes + errors, and every counter, streak and rotation time is what the history says |
| `TorPool.SoonOnlyByOverlap` | tor-proxy/src/pool.rs:172-206 | in every run a new circuit comes less than a cooldown after the one before it only if its rotation was checked before that one was committed |
| `TorPool.OneAtATimeIsApart` | tor-proxy/src/pool.rs:172-206 | if no rotation of a node passes its check while another is under way, each is checked after the one before it was committed |
| `TorPool.RenewalsAreSpaced` | tor-proxy/src/pool.rs:176-198 | then consecutive new circuits of the node are at least a cooldown apart |
| `TorPool.RotationsAreBounded` | tor-proxy/src/pool.rs:172-206 | and it gets at most 1 + T / cooldown new circuits within any time T |
| `TorPool.OverlapRenewsTwice` | tor-proxy/src/pool.rs:172-206 | a run in which two overlapping rotations renew a node at the same time |
| `TorPool.OverlappingRotations` | tor-proxy/src/pool.rs:172-206 | on the pool itself: two rotations that both check before either commits both renew, however close together |
| `TorPool.OutOfTurnIff` | tor-proxy/src/pool.rs:109-206 | a node is out of turn exactly for a cooldown after its latest new circuit; errors alone never take it out |
| `TorPool.RestsAfterRenewal` | tor-proxy/src/pool.rs:191-200 | in every run, a new circuit keeps its node out of turn, and from being rotated again, for exactly the cooldown after the moments written down |

## Left out

- Sockets, TLS, HTTP clients, browser emulation, header filtering, CORS, redirects, DNS and neighbour packets: their outcomes are arbitrary inputs.
- The Lua VM and the extraction of route configuration: hook verdicts are arbitrary inputs.
- Health JSON, metrics, logging, environment parsing, file watchers and the probers' schedules: no deep invariant; the probers' effect on a proxy is modelled.
- Backoff, retry and probe sleeps: only their position among the events matters to what is stated.
- Wrap-around of 32- and 64-bit counters and of `3 * sample + 7 * average`: numbers are unbounded; `Health.BlendStep` shows that the average never exceeds its operands.
- Interleaving inside one record call of relaxed atomics: a record is one step. Backward jumps of the clock.
- Timestamps of last success and error, and the stored reason text: nothing in the model reads them.
- The value of the sticky selector's hash: an arbitrary number; only the rotation by it is modelled.
- Health.Entry.RecordFailure: the log line of a newly fatal proxy and the last-error fields are not part of the value.
- Plan.BuildPlan: proxies are values read once per plan, so a change of health or tags while the plan is being built is not modelled, nor that looking at a proxy creates its empty route state.
- Run.Run: list and map of the pool agree at each look, so the moment between the two stores of a reload is only covered by `Reload`; other requests act through the pool each look finds, not through the route's cursor.
- Run.BuildMostCommon: on a tie any of the most frequent statuses may be chosen, as the map's iteration order is not fixed.
- Dispatch.DispatchHedged: an attempt still in flight when another wins is dropped; the race does not say where it was waiting. What is on its proxy's books by then is in `Attempt.RunAttempt` and `Attempt.UsageCountsAttempts`.
- Stream.Pump: bodies are finite, and the pool draws its proxies from a finite set of URLs over the life of a response.
- StreamLaws.ClientGetsPrefix: assumes that every upstream serves the same entity, that the client sent no range of its own, that a 206 starts where it was asked to, and that a body yields nothing after a break.
- Glob.GlobToRegex: a glob is a string of bytes, each taken as a character as the compiler's cast does (`matcher.rs:96`); a path is any string, though the service only matches the ASCII paths of parsed URLs. General regular expressions are not modelled beyond the fragment the compiler emits.
- TorPool.NodePool.constructor: at least one node, as the stagger of scheduled rotations divides by their number; the scheduled rotations themselves are checks at arbitrary times; the clock is read once for all nodes.
- TorPool.NodePool.OnError: the error and the rotation it asks for are one call here; in runs the error, the check and the answer are separate events, so others may come between.
- Subnet.MaskPrefix: the parsing of subnet text is not part of this model.
