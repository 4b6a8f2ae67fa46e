/** The two ways a pass walks its plan (`dispatch/mod.rs`): one proxy after the
    other, or a hedged race. `out(i)` is what the attempt on `plan[i]` ends with. */
module Dispatch {
  import opened Prelude
  import opened Attempt

  /** What can happen while a race waits. Any order of these is possible. */
  datatype Event = Completes(i: nat) | TimerFires

  datatype RaceEnd = Won(i: nat) | Lost | Running

  // ---- Specification ----

  /** The places among the first `n` whose URL is new: not tried before the pass, not earlier in the plan. */
  function Fresh(plan: seq<string>, n: nat, tried: set<string>): seq<nat>
    requires n <= |plan|
  {
    if n == 0 then []
    else Fresh(plan, n - 1, tried) + (if plan[n - 1] in tried || plan[n - 1] in plan[..n - 1] then [] else [n - 1])
  }

  /** All places of a plan. */
  function Places(n: nat): seq<nat> { if n == 0 then [] else Places(n - 1) + [n - 1] }

  /** Attempts in turn until one answers. */
  function Walk(places: seq<nat>, out: nat -> AttemptResult): seq<nat> {
    if places == [] then []
    else if out(places[0]).Answered? then [places[0]]
    else [places[0]] + Walk(places[1..], out)
  }

  /** The winner of a walk, if its last attempt answered. */
  function WinnerOf(walked: seq<nat>, out: nat -> AttemptResult): Option<nat> {
    if walked != [] && out(walked[|walked| - 1]).Answered? then Some(walked[|walked| - 1]) else None
  }

  /** The failed responses worth keeping, in the order the attempts ended. */
  function Bodies(ended: seq<nat>, out: nat -> AttemptResult): seq<FailedResponse> {
    if ended == [] then []
    else
      var r := out(ended[|ended| - 1]);
      Bodies(ended[..|ended| - 1], out) + (if r.Next? && r.failed.Some? then [r.failed.value] else [])
  }

  predicate Within(places: seq<nat>, n: nat) { forall k | 0 <= k < |places| :: places[k] < n }

  function Urls(plan: seq<string>, places: seq<nat>): seq<string>
    requires Within(places, |plan|)
  {
    if places == [] then [] else Urls(plan, places[..|places| - 1]) + [plan[places[|places| - 1]]]
  }

  // ---- Facts about the specification ----

  ghost predicate Ascending(s: seq<nat>) { forall a, b :: 0 <= a < b < |s| ==> s[a] < s[b] }

  predicate IsFresh(plan: seq<string>, i: nat, tried: set<string>)
    requires i < |plan|
  {
    plan[i] !in tried && plan[i] !in plan[..i]
  }

  lemma {:induction false} FreshFacts(plan: seq<string>, n: nat, tried: set<string>)
    requires n <= |plan|
    ensures forall i: nat :: i in Fresh(plan, n, tried) <==> i < n && IsFresh(plan, i, tried)
    ensures Ascending(Fresh(plan, n, tried)) && NoDup(Fresh(plan, n, tried))
    ensures |Fresh(plan, n, tried)| <= n
  {
    if n > 0 {
      FreshFacts(plan, n - 1, tried);
      var before := Fresh(plan, n - 1, tried);
      if IsFresh(plan, n - 1, tried) {
        assert Fresh(plan, n, tried) == before + [n - 1];
        hide Fresh, IsFresh;
        AscendingGrows(before, n - 1);
      } else {
        assert Fresh(plan, n, tried) == before;
      }
    }
  }

  lemma AscendingGrows(s: seq<nat>, x: nat)
    requires Ascending(s) && forall i: nat :: i in s ==> i < x
    ensures Ascending(s + [x]) && NoDup(s + [x])
    ensures forall i: nat :: i in s + [x] <==> i in s || i == x
  {
    assert forall k :: 0 <= k < |s| ==> s[k] in s;
  }

  lemma {:induction false} PlacesFacts(n: nat)
    ensures |Places(n)| == n && forall i :: 0 <= i < n ==> Places(n)[i] == i
    ensures forall i: nat :: i in Places(n) <==> i < n
  {
    if n > 0 {
      PlacesFacts(n - 1);
      assert Places(n)[n - 1] == n - 1;
      assert forall i: nat :: i in Places(n) <==> i in Places(n - 1) || i == n - 1;
    }
  }

  /** Every place is fresh exactly when the plan repeats no URL and none was tried before. */
  lemma {:induction false} AllFreshIff(plan: seq<string>, n: nat, tried: set<string>)
    requires n <= |plan|
    ensures Fresh(plan, n, tried) == Places(n) <==> NoDup(plan[..n]) && Elems(plan[..n]) !! tried
  {
    PlacesFacts(n);
    if n > 0 {
      AllFreshIff(plan, n - 1, tried);
      FreshFacts(plan, n - 1, tried);
      PlacesFacts(n - 1);
      var q, x := plan[..n - 1], plan[n - 1];
      assert plan[..n] == q + [x];
      NoDupExtends(q, x, tried);
      if Fresh(plan, n, tried) == Places(n) {
        assert IsFresh(plan, n - 1, tried);
        assert Fresh(plan, n, tried)[..n - 1] == Places(n)[..n - 1];
      }
    }
  }

  lemma {:induction false} NoDupExtends<T>(q: seq<T>, x: T, tried: set<T>)
    ensures NoDup(q + [x]) && Elems(q + [x]) !! tried <==> NoDup(q) && Elems(q) !! tried && x !in q && x !in tried
  {
    var p := q + [x];
    assert Elems(p) == Elems(q) + {x};
    if NoDup(p) {
      assert NoDup(q) by {
        forall i, j | 0 <= i < j < |q| ensures q[i] != q[j] { assert p[i] != p[j]; }
      }
      forall k | 0 <= k < |q| ensures q[k] != x { assert p[k] != p[|q|]; }
    }
    if NoDup(q) && x !in q {
      forall i, j | 0 <= i < j < |p| ensures p[i] != p[j] { if j == |q| { assert q[i] in q; } }
    }
  }

  lemma {:induction false} FreshStep(plan: seq<string>, n: nat, tried: set<string>)
    requires n < |plan|
    ensures Fresh(plan, n + 1, tried) == Fresh(plan, n, tried) + (if IsFresh(plan, n, tried) then [n] else [])
    ensures plan[n] in tried + Elems(plan[..n]) <==> !IsFresh(plan, n, tried)
    ensures Elems(plan[..n + 1]) == Elems(plan[..n]) + {plan[n]}
    ensures n !in Fresh(plan, n, tried) && Within(Fresh(plan, n, tried), |plan|)
  {
    FreshFacts(plan, n, tried);
    assert plan[..n + 1] == plan[..n] + [plan[n]];
    forall k | 0 <= k < |Fresh(plan, n, tried)| ensures Fresh(plan, n, tried)[k] < n {
      assert Fresh(plan, n, tried)[k] in Fresh(plan, n, tried);
    }
  }

  lemma {:induction false} UrlsStep(plan: seq<string>, places: seq<nat>, i: nat)
    requires Within(places, |plan|) && i < |plan|
    ensures Within(places + [i], |plan|) && Urls(plan, places + [i]) == Urls(plan, places) + [plan[i]]
    ensures Elems(Urls(plan, places + [i])) == Elems(Urls(plan, places)) + {plan[i]}
  {
    assert (places + [i])[..|places|] == places;
  }

  /** The URLs of the fresh places are new, distinct, and all that the plan adds. */
  lemma {:induction false} FreshUrls(plan: seq<string>, n: nat, tried: set<string>)
    requires n <= |plan|
    ensures Within(Fresh(plan, n, tried), |plan|)
    ensures var urls := Urls(plan, Fresh(plan, n, tried));
            && |urls| == |Fresh(plan, n, tried)|
            && NoDup(urls) && Elems(urls) !! tried && tried + Elems(urls) == tried + Elems(plan[..n])
  {
    if n == 0 {
      NoUrls(plan, tried);
      hide Fresh, Urls, Within, NoDup, Elems;
    } else {
      hide Fresh, Urls, Within, NoDup, Elems;
      FreshUrls(plan, n - 1, tried);
      FreshUrlsNext(plan, n - 1, tried);
    }
  }

  lemma NoUrls(plan: seq<string>, tried: set<string>)
    ensures Fresh(plan, 0, tried) == [] && Urls(plan, []) == [] && plan[..0] == []
    ensures Within([], |plan|) && NoDup<string>([]) && Elems<string>([]) == {}
  {
  }

  lemma {:induction false} FreshUrlsNext(plan: seq<string>, i: nat, tried: set<string>)
    requires i < |plan| && Within(Fresh(plan, i, tried), |plan|)
    requires var urls := Urls(plan, Fresh(plan, i, tried));
             && |urls| == |Fresh(plan, i, tried)|
             && NoDup(urls) && Elems(urls) !! tried && tried + Elems(urls) == tried + Elems(plan[..i])
    ensures Within(Fresh(plan, i + 1, tried), |plan|)
    ensures var urls := Urls(plan, Fresh(plan, i + 1, tried));
            && |urls| == |Fresh(plan, i + 1, tried)|
            && NoDup(urls) && Elems(urls) !! tried && tried + Elems(urls) == tried + Elems(plan[..i + 1])
  {
    hide IsFresh, NoDup, Elems, Fresh, Urls, Within;
    FreshStep(plan, i, tried);
    var before, seen := Fresh(plan, i, tried), Elems(plan[..i]);
    if IsFresh(plan, i, tried) {
      UrlsStep(plan, before, i);
      SeenGrows(tried, Urls(plan, before), seen, plan[i]);
    } else {
      assert before + [] == before;
      AddAssoc(tried, seen, plan[i]);
    }
  }

  lemma {:induction false} SeenGrows<T>(base: set<T>, urls: seq<T>, seen: set<T>, x: T)
    requires NoDup(urls) && Elems(urls) !! base && base + Elems(urls) == base + seen && x !in base + seen
    ensures |urls + [x]| == |urls| + 1
    ensures NoDup(urls + [x]) && Elems(urls + [x]) !! base && base + Elems(urls + [x]) == base + (seen + {x})
  {
    hide NoDup, Elems;
    GrowBoth(base, Elems(urls), seen, x);
    ExtendNoDup(urls, x);
  }

  lemma AddAssoc<T>(a: set<T>, b: set<T>, x: T)
    ensures a + b + {x} == a + (b + {x})
    ensures x in a + b ==> a + b + {x} == a + b
  {
  }

  lemma MoveOne<T>(a: set<T>, b: set<T>, x: T)
    requires x in a && a !! b
    ensures (a - {x}) + (b + {x}) == a + b && a - {x} !! b + {x} && |a - {x}| == |a| - 1
  {
  }

  lemma {:induction false} GrowBoth<T>(base: set<T>, a: set<T>, b: set<T>, x: T)
    requires base + a == base + b
    ensures base + (a + {x}) == base + (b + {x})
    ensures x in base + b ==> base + a == base + (b + {x})
    ensures x !in base + b && a !! base ==> a + {x} !! base && x !in a
  {
    assert base + (a + {x}) == base + a + {x} && base + (b + {x}) == base + b + {x};
  }

  lemma ExtendNoDup<T>(s: seq<T>, x: T)
    requires NoDup(s) && x !in Elems(s)
    ensures NoDup(s + [x]) && Elems(s + [x]) == Elems(s) + {x}
  {
  }

  lemma {:induction false} WalkFacts(places: seq<nat>, out: nat -> AttemptResult)
    ensures Walk(places, out) <= places
    ensures WinnerOf(Walk(places, out), out).None? <==> forall i: nat :: i in places ==> out(i).Next?
    ensures WinnerOf(Walk(places, out), out).None? ==> Walk(places, out) == places
  {
    if places != [] {
      var head, tail := places[0], places[1..];
      assert places == [head] + tail;
      if out(head).Next? {
        WalkFacts(tail, out);
        assert Walk(places, out) == [head] + Walk(tail, out);
        WinnerBehind(head, Walk(tail, out), out);
        hide Walk, WinnerOf;
        assert forall i: nat :: i in places <==> i == head || i in tail;
      } else {
        assert head in places;
      }
    }
  }

  lemma WinnerBehind(head: nat, w: seq<nat>, out: nat -> AttemptResult)
    requires out(head).Next?
    ensures WinnerOf([head] + w, out) == WinnerOf(w, out)
  {
    if w != [] { assert ([head] + w)[|w|] == w[|w| - 1]; }
  }

  /** A stretch of failures followed by an answer, or the whole list, is the walk. */
  lemma {:induction false} WalkIs(done: seq<nat>, rest: seq<nat>, out: nat -> AttemptResult)
    requires AllNext(done, out)
    requires rest == [] || out(rest[0]).Answered?
    ensures Walk(done + rest, out) == done + rest[..Min(1, |rest|)]
  {
    if done == [] {
      assert done + rest == rest;
    } else {
      assert (done + rest)[1..] == done[1..] + rest;
      WalkIs(done[1..], rest, out);
    }
  }

  // ---- The sequential walk ----

  method DispatchSequential(plan: seq<string>, tried0: set<string>, failures0: seq<FailedResponse>,
          out: nat -> AttemptResult)
    returns (tried: set<string>, failures: seq<FailedResponse>, attempted: seq<nat>, winner: Option<nat>)
    ensures attempted == Walk(Places(|plan|), out) && winner == WinnerOf(attempted, out)
    ensures Within(attempted, |plan|) && tried == tried0 + Elems(Urls(plan, attempted))
    ensures failures == failures0 + Bodies(attempted, out)
  {
    hide Urls, Walk, Within, Bodies, Elems, AllNext, WinnerOf;
    tried, failures, attempted, winner := tried0, failures0, [], None;
    StartOfWalk(plan, out);
    for n := 0 to |plan|
      invariant attempted == Places(n) && winner.None? && AllNext(attempted, out)
      invariant tried == tried0 + Elems(plan[..n])
      invariant failures == failures0 + Bodies(attempted, out)
    {
      ghost var before := attempted;
      BodiesStep(before, n, out);
      PrefixUrls(plan, n + 1);
      PlacesFacts(n + 1);
      AddAssoc(tried0, Elems(plan[..n]), plan[n]);
      tried := tried + {plan[n]};
      attempted := attempted + [n];
      var r := out(n);
      if r.Answered? {
        winner := Some(n);
        WalkOfPlaces(before, n, |plan|, out);
        return;
      }
      if r.failed.Some? { failures := failures + [r.failed.value]; }
    }
    PrefixUrls(plan, |plan|);
    WalkAllNext(attempted, out);
  }

  lemma StartOfWalk(plan: seq<string>, out: nat -> AttemptResult)
    ensures Places(0) == [] && AllNext([], out) && Elems(plan[..0]) == {} && Bodies([], out) == []
  {
  }

  /** The first answer ends the walk over all places. */
  lemma {:induction false} WalkOfPlaces(before: seq<nat>, n: nat, m: nat, out: nat -> AttemptResult)
    requires n < m && before == Places(n) && AllNext(before, out) && out(n).Answered?
    ensures Walk(Places(m), out) == before + [n] && WinnerOf(before + [n], out) == Some(n)
  {
    PlacesFacts(n);
    PlacesFacts(m);
    WalkOfPrefix(Places(m), before, n, out);
  }

  lemma {:induction false} WalkAllNext(places: seq<nat>, out: nat -> AttemptResult)
    requires AllNext(places, out)
    ensures Walk(places, out) == places && WinnerOf(places, out).None?
  {
    WalkIs(places, [], out);
    assert places + [] == places;
    if places != [] { assert places[|places| - 1] in places; }
  }

  ghost predicate AllNext(places: seq<nat>, out: nat -> AttemptResult) {
    forall i: nat :: i in places ==> out(i).Next?
  }

  lemma {:induction false} BodiesStep(ended: seq<nat>, i: nat, out: nat -> AttemptResult)
    ensures Bodies(ended + [i], out) == Bodies(ended, out)
              + (if out(i).Next? && out(i).failed.Some? then [out(i).failed.value] else [])
    ensures out(i).Next? ==> (AllNext(ended + [i], out) <==> AllNext(ended, out))
  {
    assert (ended + [i])[..|ended|] == ended;
    assert forall k: nat :: k in ended + [i] <==> k in ended || k == i;
  }

  /** Kept are exactly the failed responses of the attempts that ended. */
  lemma {:induction false} BodiesIff(ended: seq<nat>, out: nat -> AttemptResult, f: FailedResponse)
    ensures f in Bodies(ended, out) <==> exists i: nat :: i in ended && out(i) == Next(Some(f))
  {
    if ended != [] {
      var front, last := ended[..|ended| - 1], ended[|ended| - 1];
      assert ended == front + [last];
      hide Bodies;
      BodiesIff(front, out, f);
      BodiesStep(front, last, out);
    }
  }

  lemma {:induction false} PrefixUrls(plan: seq<string>, n: nat)
    requires n <= |plan|
    ensures Within(Places(n), |plan|) && Urls(plan, Places(n)) == plan[..n]
    ensures n > 0 ==> Elems(plan[..n]) == Elems(plan[..n - 1]) + {plan[n - 1]}
  {
    PlacesFacts(n);
    if n > 0 {
      PrefixUrls(plan, n - 1);
      UrlsStep(plan, Places(n - 1), n - 1);
      assert plan[..n] == plan[..n - 1] + [plan[n - 1]];
    }
  }

  // ---- The hedged race ----

  lemma {:induction false} FreshPrefix(plan: seq<string>, n: nat, m: nat, tried: set<string>)
    requires n <= m <= |plan|
    ensures Fresh(plan, n, tried) <= Fresh(plan, m, tried)
  {
    if n < m { FreshPrefix(plan, n, m - 1, tried); }
  }

  /** What a race was given. */
  datatype RaceSetup = RaceSetup(plan: seq<string>, maxPar: nat, tried: set<string>, failures: seq<FailedResponse>,
          out: nat -> AttemptResult)

  /** What a race changes: `futs` are the attempts in flight, `next` the place to look at
      next, `lost` the attempts that ended without an answer, in that order. */
  datatype RaceView = RaceView(tried: set<string>, failures: seq<FailedResponse>, futs: set<nat>, next: nat,
          launched: seq<nat>, lost: seq<nat>)

  /** Exactly the fresh places below `next` were launched, and exactly their URLs added. */
  ghost predicate Books(g: RaceSetup, next: nat, launched: seq<nat>, tried: set<string>) {
    && next <= |g.plan|
    && launched == Fresh(g.plan, next, g.tried)
    && tried == g.tried + Elems(g.plan[..next])
  }

  /** Everything launched is in flight or lost, not both. */
  ghost predicate Flights(g: RaceSetup, futs: set<nat>, launched: seq<nat>, lost: seq<nat>) {
    && NoDup(lost) && futs !! Elems(lost) && Elems(launched) == futs + Elems(lost)
    && |futs| <= Max(1, g.maxPar)
    && (g.maxPar <= 1 ==> lost <= launched)
  }

  /** The lost attempts failed, and their bodies were kept. */
  ghost predicate Losses(g: RaceSetup, lost: seq<nat>, failures: seq<FailedResponse>) {
    failures == g.failures + Bodies(lost, g.out) && AllNext(lost, g.out)
  }

  /** The invariant of every moment of a race. */
  ghost predicate Fits(g: RaceSetup, v: RaceView) {
    Books(g, v.next, v.launched, v.tried) && Flights(g, v.futs, v.launched, v.lost) && Losses(g, v.lost, v.failures)
  }

  function Skipped(v: RaceView): RaceView { v.(next := v.next + 1) }

  function Started(g: RaceSetup, v: RaceView): RaceView
    requires v.next < |g.plan|
  {
    v.(next := v.next + 1, tried := v.tried + {g.plan[v.next]}, futs := v.futs + {v.next},
       launched := v.launched + [v.next])
  }

  function Dropped(v: RaceView, i: nat, failed: Option<FailedResponse>): RaceView {
    v.(futs := v.futs - {i}, lost := v.lost + [i],
       failures := if failed.Some? then v.failures + [failed.value] else v.failures)
  }

  /** Launching: the next fresh candidate starts, if any is left. */
  function Launched(g: RaceSetup, v: RaceView): RaceView
    decreases |g.plan| - v.next
  {
    if v.next >= |g.plan| then v
    else if g.plan[v.next] in v.tried then Launched(g, Skipped(v))
    else Started(g, v)
  }

  /** One event; the answer, if the event is an attempt that answered. */
  function Happened(g: RaceSetup, v: RaceView, e: Event): (RaceView, Option<nat>) {
    match e
    case Completes(i) =>
      if i !in v.futs then (v, None)
      else (
        match g.out(i)
        case Answered(_) => (v, Some(i))
        case Next(failed) => (Launched(g, Dropped(v, i, failed)), None))
    case TimerFires => (if |v.futs| < Max(1, g.maxPar) then Launched(g, v) else v, None)
  }

  function EndOf(v: RaceView, answer: Option<nat>): RaceEnd {
    if answer.Some? then Won(answer.value) else if v.futs == {} then Lost else Running
  }

  /** The race after the events of `sched`; nothing happens once it has ended. */
  function RaceRun(g: RaceSetup, sched: seq<Event>): (RaceView, RaceEnd) {
    if sched == [] then
      var v := Launched(g, RaceView(g.tried, g.failures, {}, 0, [], []));
      (v, EndOf(v, None))
    else
      var (v, end) := RaceRun(g, sched[..|sched| - 1]);
      if !end.Running? then (v, end)
      else
        var (w, answer) := Happened(g, v, sched[|sched| - 1]);
        (w, EndOf(w, answer))
  }

  lemma {:induction false} FitsAtStart(g: RaceSetup)
    ensures Fits(g, RaceView(g.tried, g.failures, {}, 0, [], []))
  {
    assert g.failures + [] == g.failures;
  }

  lemma {:induction false} FitsSkipped(g: RaceSetup, v: RaceView)
    requires Fits(g, v) && v.next < |g.plan| && g.plan[v.next] in v.tried
    ensures Fits(g, Skipped(v))
  {
    hide Flights, Fresh;
    FreshStep(g.plan, v.next, g.tried);
    assert v.launched + [] == v.launched;
    AddAssoc(g.tried, Elems(g.plan[..v.next]), g.plan[v.next]);
  }

  lemma {:induction false} FitsStarted(g: RaceSetup, v: RaceView)
    requires Fits(g, v) && v.next < |g.plan| && g.plan[v.next] !in v.tried && |v.futs| < Max(1, g.maxPar)
    ensures Fits(g, Started(g, v))
  {
    hide Flights;
    FreshStep(g.plan, v.next, g.tried);
    FlightsStarted(g, v.futs, v.launched, v.lost, v.next);
    AddAssoc(g.tried, Elems(g.plan[..v.next]), g.plan[v.next]);
  }

  lemma {:induction false} FlightsStarted(g: RaceSetup, futs: set<nat>, launched: seq<nat>, lost: seq<nat>, i: nat)
    requires Flights(g, futs, launched, lost) && i !in launched && |futs| < Max(1, g.maxPar)
    ensures Flights(g, futs + {i}, launched + [i], lost)
  {
    assert i !in Elems(launched);
    assert Elems(launched + [i]) == Elems(launched) + {i};
  }

  lemma {:induction false} FitsDropped(g: RaceSetup, v: RaceView, i: nat, failed: Option<FailedResponse>)
    requires Fits(g, v) && i in v.futs && g.out(i) == Next(failed)
    ensures Fits(g, Dropped(v, i, failed)) && |Dropped(v, i, failed).futs| < Max(1, g.maxPar)
  {
    hide Flights, Fresh;
    BodiesStep(v.lost, i, g.out);
    FreshFacts(g.plan, v.next, g.tried);
    FlightsDropped(g, v.futs, v.launched, v.lost, i);
  }

  lemma {:induction false} FlightsDropped(g: RaceSetup, futs: set<nat>, launched: seq<nat>, lost: seq<nat>, i: nat)
    requires Flights(g, futs, launched, lost) && i in futs && NoDup(launched)
    ensures Flights(g, futs - {i}, launched, lost + [i]) && |futs - {i}| < Max(1, g.maxPar)
  {
    assert i !in Elems(lost);
    ExtendNoDup(lost, i);
    MoveOne(futs, Elems(lost), i);
    if g.maxPar <= 1 {
      LastInFlight(g, futs, launched, lost, i);
    }
  }

  lemma {:induction false} LastInFlight(g: RaceSetup, futs: set<nat>, launched: seq<nat>, lost: seq<nat>, i: nat)
    requires Flights(g, futs, launched, lost) && i in futs && NoDup(launched) && g.maxPar <= 1
    ensures launched == lost + [i]
  {
    FlightCount(g, futs, launched, lost);
    SubsetCard({i}, futs);
    assert futs == {i};
    var x := launched[|lost|];
    assert launched == lost + [x];
    assert x in Elems(launched);
    assert forall k :: 0 <= k < |lost| ==> launched[k] == lost[k] != x;
  }

  lemma {:induction false} FlightCount(g: RaceSetup, futs: set<nat>, launched: seq<nat>, lost: seq<nat>)
    requires Flights(g, futs, launched, lost) && NoDup(launched)
    ensures |launched| == |futs| + |lost|
  {
    NoDupCard(launched);
    NoDupCard(lost);
  }

  lemma {:induction false} FitsLaunched(g: RaceSetup, v: RaceView)
    requires Fits(g, v) && |v.futs| < Max(1, g.maxPar)
    ensures Fits(g, Launched(g, v)) && v.futs <= Launched(g, v).futs && Launched(g, v).lost == v.lost
    ensures Launched(g, v).futs == {} ==> Launched(g, v).next == |g.plan|
    decreases |g.plan| - v.next
  {
    if v.next < |g.plan| {
      if g.plan[v.next] in v.tried {
        FitsSkipped(g, v);
        FitsLaunched(g, Skipped(v));
      } else {
        FitsStarted(g, v);
      }
    }
  }

  /** What holds at every moment of every race. */
  lemma {:induction false} RaceAlways(g: RaceSetup, sched: seq<Event>)
    ensures var (v, end) := RaceRun(g, sched);
            && Fits(g, v)
            && (end.Won? ==> end.i in v.futs && g.out(end.i).Answered?)
            && (end.Lost? ==> v.futs == {} && v.next == |g.plan|)
            && (end.Running? ==> v.futs != {})
  {
    hide Fits;
    if sched == [] {
      FitsAtStart(g);
      FitsLaunched(g, RaceView(g.tried, g.failures, {}, 0, [], []));
    } else {
      var (v, end) := RaceRun(g, sched[..|sched| - 1]);
      RaceAlways(g, sched[..|sched| - 1]);
      if end.Running? {
        match sched[|sched| - 1]
        case Completes(i) =>
          if i in v.futs && g.out(i).Next? {
            FitsDropped(g, v, i, g.out(i).failed);
            FitsLaunched(g, Dropped(v, i, g.out(i).failed));
          }
        case TimerFires =>
          if |v.futs| < Max(1, g.maxPar) { FitsLaunched(g, v); }
      }
    }
  }

  lemma {:induction false} EndStays(g: RaceSetup, sched: seq<Event>, k: nat)
    requires k <= |sched| && !RaceRun(g, sched[..k]).1.Running?
    ensures RaceRun(g, sched) == RaceRun(g, sched[..k])
  {
    if k == |sched| {
      assert sched[..k] == sched;
    } else {
      assert sched[..|sched| - 1][..k] == sched[..k];
      EndStays(g, sched[..|sched| - 1], k);
    }
  }

  class Race {
    const plan: seq<string>
    const maxPar: nat
    ghost const setup: RaceSetup
    var tried: set<string>
    var failures: seq<FailedResponse>
    var futs: set<nat>
    var next: nat
    var launched: seq<nat>
    var lost: seq<nat>

    function View(): RaceView
      reads this
    {
      RaceView(tried, failures, futs, next, launched, lost)
    }

    ghost predicate Valid()
      reads this
    {
      setup.plan == plan && setup.maxPar == maxPar
    }

    constructor (plan: seq<string>, maxPar: nat, tried: set<string>, failures: seq<FailedResponse>,
            ghost out: nat -> AttemptResult)
      ensures Valid() && setup == RaceSetup(plan, maxPar, tried, failures, out)
      ensures View() == RaceView(tried, failures, {}, 0, [], [])
    {
      this.plan, this.maxPar, this.tried, this.failures := plan, maxPar, tried, failures;
      this.setup := RaceSetup(plan, maxPar, tried, failures, out);
      futs, next, launched, lost := {}, 0, [], [];
    }

    /** Starts the next fresh candidate, if any is left. */
    method Launch() returns (started: bool)
      requires Valid()
      modifies this`tried, this`futs, this`next, this`launched
      ensures Valid() && View() == Launched(setup, old(View()))
      ensures started <==> launched != old(launched)
    {
      while next < |plan|
        invariant Launched(setup, View()) == Launched(setup, old(View()))
        invariant launched == old(launched)
      {
        var idx := next;
        next := next + 1;
        if plan[idx] in tried { continue; }
        tried := tried + {plan[idx]};
        futs := futs + {idx};
        launched := launched + [idx];
        return true;
      }
      return false;
    }

    /** Attempt `i` ended without an answer; the next candidate takes its place. */
    method Fail(i: nat, failed: Option<FailedResponse>)
      requires Valid()
      modifies this
      ensures Valid() && View() == Launched(setup, Dropped(old(View()), i, failed))
    {
      futs := futs - {i};
      lost := lost + [i];
      if failed.Some? { failures := failures + [failed.value]; }
      var _ := Launch();
    }
  }

  /** What a pass over `g.plan` reports, however it went. */
  ghost predicate Reported(g: RaceSetup, v: RaceView) {
    var all := Fresh(g.plan, |g.plan|, g.tried);
    && |v.futs| <= Max(1, g.maxPar)
    && v.launched <= all && Within(v.launched, |g.plan|)
    && NoDup(Urls(g.plan, v.launched)) && Elems(Urls(g.plan, v.launched)) !! g.tried
    && v.tried == g.tried + Elems(Urls(g.plan, v.launched))
    && NoDup(v.lost) && v.futs !! Elems(v.lost) && Elems(v.launched) == v.futs + Elems(v.lost)
    && AllNext(v.lost, g.out) && v.failures == g.failures + Bodies(v.lost, g.out)
  }

  lemma {:induction false} FitsReports(g: RaceSetup, v: RaceView)
    requires Fits(g, v)
    ensures Reported(g, v)
    ensures v.next == |g.plan| ==> v.launched == Fresh(g.plan, |g.plan|, g.tried)
  {
    FreshUrls(g.plan, v.next, g.tried);
    FreshPrefix(g.plan, v.next, |g.plan|, g.tried);
  }

  /** One at a time, the race is the walk over the fresh candidates. */
  ghost predicate IsWalk(g: RaceSetup, v: RaceView, end: RaceEnd) {
    var walked := Walk(Fresh(g.plan, |g.plan|, g.tried), g.out);
    && v.launched == walked && v.failures == g.failures + Bodies(walked, g.out)
    && WinnerOf(walked, g.out) == (if end.Won? then Some(end.i) else None)
  }

  lemma {:induction false} WonIsWalk(g: RaceSetup, v: RaceView, i: nat)
    requires Fits(g, v) && g.maxPar <= 1 && i in v.futs && g.out(i).Answered?
    ensures IsWalk(g, v, Won(i))
  {
    hide Fresh, Walk, Bodies, Flights;
    FreshPrefix(g.plan, v.next, |g.plan|, g.tried);
    FreshFacts(g.plan, v.next, g.tried);
    LastInFlight(g, v.futs, v.launched, v.lost, i);
    WalkOfPrefix(Fresh(g.plan, |g.plan|, g.tried), v.lost, i, g.out);
    BodiesStep(v.lost, i, g.out);
  }

  lemma {:induction false} WalkOfPrefix(all: seq<nat>, lost: seq<nat>, i: nat, out: nat -> AttemptResult)
    requires lost + [i] <= all && AllNext(lost, out) && out(i).Answered?
    ensures Walk(all, out) == lost + [i]
  {
    var rest := all[|lost|..];
    assert all == lost + rest && rest[..1] == [i];
    WalkIs(lost, rest, out);
  }

  lemma {:induction false} LostIsWalk(g: RaceSetup, v: RaceView)
    requires Fits(g, v) && g.maxPar <= 1 && v.futs == {} && v.next == |g.plan|
    ensures IsWalk(g, v, Lost)
  {
    FreshFacts(g.plan, v.next, g.tried);
    FlightCount(g, v.futs, v.launched, v.lost);
    assert v.lost == v.launched;
    WalkAllNext(v.lost, g.out);
  }

  /** One race, up to the end of the schedule `sched`: since every finite schedule is
      allowed, what holds of the result holds at every moment of every race. */
  method DispatchHedged(plan: seq<string>, maxPar: nat, tried0: set<string>, failures0: seq<FailedResponse>,
                        out: nat -> AttemptResult, sched: seq<Event>) returns (v: RaceView, end: RaceEnd)
    ensures (v, end) == RaceRun(RaceSetup(plan, maxPar, tried0, failures0, out), sched)
  {
    hide Launched;
    var race := new Race(plan, maxPar, tried0, failures0, out);
    ghost var g := race.setup;
    var _ := race.Launch();
    var k := 0;
    assert sched[..0] == [];
    while race.futs != {} && k < |sched|
      invariant race.Valid() && k <= |sched| && race.setup == g
      invariant RaceRun(g, sched[..k]) == (race.View(), if race.futs == {} then Lost else Running)
      decreases |sched| - k
    {
      assert sched[..k + 1][..k] == sched[..k];
      match sched[k] {
        case Completes(i) =>
          if i in race.futs {
            match out(i) {
              case Answered(_) =>
                EndStays(g, sched, k + 1);
                return race.View(), Won(i);
              case Next(failed) => race.Fail(i, failed);
            }
          }
        case TimerFires =>
          if |race.futs| < Max(1, maxPar) { var _ := race.Launch(); }
      }
      k := k + 1;
    }
    v := race.View();
    end := if race.futs == {} then Lost else Running;
    if race.futs == {} { EndStays(g, sched, k); } else { assert sched[..k] == sched; }
  }

  /** At every moment of every race: at most `max(1, maxPar)` attempts in flight, every
      URL launched at most once and never one tried before, the launches the first fresh
      candidates in order, the losses real; a lost race launched and lost them all. */
  lemma {:induction false} RaceIsSafe(g: RaceSetup, sched: seq<Event>)
    ensures var (v, end) := RaceRun(g, sched);
            && Reported(g, v)
            && (end.Won? ==> end.i in v.futs && g.out(end.i).Answered?)
            && (end.Lost? ==> v.futs == {} && v.launched == Fresh(g.plan, |g.plan|, g.tried))
            && (end.Running? ==> v.futs != {})
  {
    hide Fits, Reported, RaceRun;
    RaceAlways(g, sched);
    FitsReports(g, RaceRun(g, sched).0);
  }

  /** With one attempt at a time a finished race is the walk over its fresh candidates. */
  lemma {:induction false} RaceOfOneWalksFresh(g: RaceSetup, sched: seq<Event>)
    requires g.maxPar <= 1 && !RaceRun(g, sched).1.Running?
    ensures IsWalk(g, RaceRun(g, sched).0, RaceRun(g, sched).1)
  {
    hide Fits, RaceRun, IsWalk;
    RaceAlways(g, sched);
    var (v, end) := RaceRun(g, sched);
    if end.Won? { WonIsWalk(g, v, end.i); } else { LostIsWalk(g, v); }
  }

  // ---- Races hedge ----

  /** Launching starts the first fresh candidate not launched yet, if there is one. */
  lemma {:induction false} LaunchIsNext(g: RaceSetup, v: RaceView)
    requires Fits(g, v) && |v.futs| < Max(1, g.maxPar)
    ensures Launched(g, v).lost == v.lost
    ensures var all, w := Fresh(g.plan, |g.plan|, g.tried), Launched(g, v);
            if |v.launched| < |all| then
              w.launched == v.launched + [all[|v.launched|]] && w.futs == v.futs + {all[|v.launched|]}
            else w.launched == v.launched && w.futs == v.futs
    decreases |g.plan| - v.next
  {
    hide Fits, Fresh;
    if v.next >= |g.plan| {
      NothingLeftToStart(g, v);
    } else if g.plan[v.next] in v.tried {
      FitsSkipped(g, v);
      LaunchIsNext(g, Skipped(v));
    } else {
      StartIsNext(g, v);
    }
  }

  lemma NothingLeftToStart(g: RaceSetup, v: RaceView)
    requires Fits(g, v) && v.next >= |g.plan|
    ensures |v.launched| == |Fresh(g.plan, |g.plan|, g.tried)|
  {
    hide Fresh, Flights, Losses;
  }

  lemma {:induction false} StartIsNext(g: RaceSetup, v: RaceView)
    requires Fits(g, v) && v.next < |g.plan| && g.plan[v.next] !in v.tried && |v.futs| < Max(1, g.maxPar)
    ensures var all := Fresh(g.plan, |g.plan|, g.tried);
            |v.launched| < |all| && all[|v.launched|] == v.next
  {
    FitsStarted(g, v);
    hide Fresh, Flights, Losses;
    FreshPrefix(g.plan, v.next + 1, |g.plan|, g.tried);
    assert v.launched + [v.next] == Fresh(g.plan, v.next + 1, g.tried);
  }

  /** When the timer fires while fewer than `maxPar` attempts are in flight, exactly the next
      fresh candidate joins them; with no room, or nobody left, nothing happens. */
  lemma {:induction false} TimerHedges(g: RaceSetup, sched: seq<Event>)
    requires RaceRun(g, sched).1.Running?
    ensures var v, w := RaceRun(g, sched).0, RaceRun(g, sched + [TimerFires]).0;
            var all := Fresh(g.plan, |g.plan|, g.tried);
            && w.lost == v.lost
            && if |v.futs| < g.maxPar && |v.launched| < |all| then
                 w.launched == v.launched + [all[|v.launched|]] && w.futs == v.futs + {all[|v.launched|]}
               else w.launched == v.launched && w.futs == v.futs
  {
    hide RaceRun, Fits, Fresh, Launched;
    RaceAlways(g, sched);
    RunStep(g, sched, TimerFires);
    var v := RaceRun(g, sched).0;
    assert |v.futs| > 0;
    if |v.futs| < Max(1, g.maxPar) { LaunchIsNext(g, v); }
  }

  /** When an attempt in flight fails, the next fresh candidate takes its place. */
  lemma {:induction false} LossIsReplaced(g: RaceSetup, sched: seq<Event>, i: nat)
    requires RaceRun(g, sched).1.Running? && i in RaceRun(g, sched).0.futs && g.out(i).Next?
    ensures var v, w := RaceRun(g, sched).0, RaceRun(g, sched + [Completes(i)]).0;
            var all := Fresh(g.plan, |g.plan|, g.tried);
            && w.lost == v.lost + [i]
            && if |v.launched| < |all| then
                 w.launched == v.launched + [all[|v.launched|]] && w.futs == v.futs - {i} + {all[|v.launched|]}
               else w.launched == v.launched && w.futs == v.futs - {i}
  {
    hide RaceRun, Fits, Fresh, Launched;
    RaceAlways(g, sched);
    RunStep(g, sched, Completes(i));
    var v := RaceRun(g, sched).0;
    FitsDropped(g, v, i, g.out(i).failed);
    LaunchIsNext(g, Dropped(v, i, g.out(i).failed));
  }

  /** How many times the timer fires while the race runs and has room for one more attempt. */
  function RoomyTicks(g: RaceSetup, sched: seq<Event>): nat {
    if sched == [] then 0
    else
      var front, e := sched[..|sched| - 1], sched[|sched| - 1];
      var (v, end) := RaceRun(g, front);
      RoomyTicks(g, front) + if end.Running? && e.TimerFires? && |v.futs| < g.maxPar then 1 else 0
  }

  /** So at every moment of every race as many candidates were launched as there are, or one at
      the start, one for every loss and one for every tick that found room. */
  lemma {:induction false} LaunchCount(g: RaceSetup, sched: seq<Event>)
    ensures var v := RaceRun(g, sched).0;
            |v.launched| == Min(|Fresh(g.plan, |g.plan|, g.tried)|, 1 + |v.lost| + RoomyTicks(g, sched))
  {
    hide Fits, Launched, Fresh;
    if sched == [] {
      FitsAtStart(g);
      LaunchIsNext(g, RaceView(g.tried, g.failures, {}, 0, [], []));
    } else {
      var front, e := sched[..|sched| - 1], sched[|sched| - 1];
      assert sched == front + [e];
      LaunchCount(g, front);
      if RaceRun(g, front).1.Running? {
        match e
        case TimerFires => TimerHedges(g, front);
        case Completes(i) =>
          if i in RaceRun(g, front).0.futs && g.out(i).Next? { LossIsReplaced(g, front, i); }
      }
    }
  }

  // ---- Races end ----

  /** The completion of an attempt in flight answers or is one more loss; any other does nothing. */
  lemma {:induction false} CompletionMoves(g: RaceSetup, v: RaceView, j: nat)
    requires Fits(g, v)
    ensures var (w, answer) := Happened(g, v, Completes(j));
            if j !in v.futs then w == v && answer.None? else answer.Some? || |w.lost| == |v.lost| + 1
  {
    hide Fits;
    if j in v.futs && g.out(j).Next? {
      FitsDropped(g, v, j, g.out(j).failed);
      FitsLaunched(g, Dropped(v, j, g.out(j).failed));
    }
  }

  lemma {:induction false} RunStep(g: RaceSetup, sched: seq<Event>, e: Event)
    requires RaceRun(g, sched).1.Running?
    ensures var (w, answer) := Happened(g, RaceRun(g, sched).0, e);
            RaceRun(g, sched + [e]) == (w, EndOf(w, answer))
  {
    assert (sched + [e])[..|sched|] == sched;
  }

  /** How many events of a schedule complete an attempt that is in flight when they happen. */
  function Effective(g: RaceSetup, sched: seq<Event>): nat {
    if sched == [] then 0
    else
      var front, e := sched[..|sched| - 1], sched[|sched| - 1];
      var (v, end) := RaceRun(g, front);
      Effective(g, front) + if end.Running? && e.Completes? && e.i in v.futs then 1 else 0
  }

  /** Whatever the schedule, every effective completion costs a running race one attempt of
      its plan: as many of them as the plan has places, and the race has ended. */
  lemma {:induction false} RaceFinishes(g: RaceSetup, sched: seq<Event>)
    ensures var (v, end) := RaceRun(g, sched);
            end.Running? ==> |v.lost| == Effective(g, sched) < |g.plan|
    ensures Effective(g, sched) >= |g.plan| ==> !RaceRun(g, sched).1.Running?
  {
    hide RaceRun, Fits, Happened;
    RaceAlways(g, sched);
    RoomForMore(g, RaceRun(g, sched).0);
    if sched == [] {
      StartsUnlost(g);
    } else {
      var front, e := sched[..|sched| - 1], sched[|sched| - 1];
      assert sched == front + [e];
      RaceFinishes(g, front);
      RaceAlways(g, front);
      if RaceRun(g, front).1.Running? {
        RunStep(g, front, e);
        if e.Completes? {
          CompletionMoves(g, RaceRun(g, front).0, e.i);
        } else {
          TimerKeepsLost(g, RaceRun(g, front).0);
        }
      } else {
        assert sched[..|front|] == front;
        EndStays(g, sched, |front|);
      }
    }
  }

  lemma {:induction false} StartsUnlost(g: RaceSetup)
    ensures RaceRun(g, []).0.lost == []
  {
    FitsAtStart(g);
    FitsLaunched(g, RaceView(g.tried, g.failures, {}, 0, [], []));
  }

  lemma {:induction false} TimerKeepsLost(g: RaceSetup, v: RaceView)
    requires Fits(g, v)
    ensures Happened(g, v, TimerFires).0.lost == v.lost && v.futs <= Happened(g, v, TimerFires).0.futs
    ensures Happened(g, v, TimerFires).1.None?
  {
    hide Fits;
    if |v.futs| < Max(1, g.maxPar) { FitsLaunched(g, v); }
  }

  /** While an attempt is in flight, fewer than all places are lost. */
  lemma {:induction false} RoomForMore(g: RaceSetup, v: RaceView)
    requires Fits(g, v)
    ensures v.futs != {} ==> |v.lost| < |g.plan|
  {
    FreshFacts(g.plan, v.next, g.tried);
    FlightCount(g, v.futs, v.launched, v.lost);
  }

  /** The first `n` events of an endless schedule. */
  function First(f: nat -> Event, n: nat): seq<Event> { if n == 0 then [] else First(f, n - 1) + [f(n - 1)] }

  /** Every attempt gets to complete: as long as the race runs, whatever is in flight has its
      completion still to come. */
  ghost predicate EveryAttemptCompletes(g: RaceSetup, f: nat -> Event) {
    forall n: nat, i: nat :: RaceRun(g, First(f, n)).1.Running? && i in RaceRun(g, First(f, n)).0.futs ==>
      exists m: nat :: m >= n && f(m) == Completes(i)
  }

  /** An attempt in flight stays so until the race ends or loses one more attempt, at the
      latest by its own completion. */
  lemma {:induction false} InFlightUntil(g: RaceSetup, f: nat -> Event, n: nat, m: nat, i: nat)
    requires n <= m && RaceRun(g, First(f, n)).1.Running? && i in RaceRun(g, First(f, n)).0.futs
    ensures var (v, end) := RaceRun(g, First(f, m));
            !end.Running? || Effective(g, First(f, m)) > Effective(g, First(f, n))
            || (Effective(g, First(f, m)) == Effective(g, First(f, n)) && i in v.futs)
  {
    hide RaceRun, Fits, Happened;
    if n < m {
      InFlightUntil(g, f, n, m - 1, i);
      var front := First(f, m - 1);
      assert First(f, m)[..|First(f, m)| - 1] == front;
      RaceAlways(g, front);
      if RaceRun(g, front).1.Running? {
        RunStep(g, front, f(m - 1));
        match f(m - 1)
        case Completes(j) => CompletionMoves(g, RaceRun(g, front).0, j);
        case TimerFires => TimerKeepsLost(g, RaceRun(g, front).0);
      } else {
        assert First(f, m)[..|front|] == front;
        EndStays(g, First(f, m), |front|);
      }
    }
  }

  /** One more event: the end stays, and the completion of an attempt in flight counts. */
  lemma {:induction false} OneMore(g: RaceSetup, f: nat -> Event, k: nat, i: nat)
    requires f(k) == Completes(i)
    ensures !RaceRun(g, First(f, k)).1.Running? ==> !RaceRun(g, First(f, k + 1)).1.Running?
    ensures RaceRun(g, First(f, k)).1.Running? && i in RaceRun(g, First(f, k)).0.futs ==>
              Effective(g, First(f, k + 1)) == Effective(g, First(f, k)) + 1
  {
    hide RaceRun;
    var front, all := First(f, k), First(f, k + 1);
    assert all == front + [f(k)] && all[..|front|] == front;
    if !RaceRun(g, front).1.Running? { EndStays(g, all, |front|); }
  }

  /** From any moment the race goes on to its end or to one more effective completion. */
  lemma {:induction false} MovesOn(g: RaceSetup, f: nat -> Event, n: nat) returns (m: nat)
    requires EveryAttemptCompletes(g, f)
    ensures !RaceRun(g, First(f, m)).1.Running? || Effective(g, First(f, m)) > Effective(g, First(f, n))
  {
    hide RaceRun, Fits, Effective, First;
    m := n;
    RaceAlways(g, First(f, n));
    if RaceRun(g, First(f, n)).1.Running? {
      var i :| i in RaceRun(g, First(f, n)).0.futs;
      var k: nat :| k >= n && f(k) == Completes(i);
      InFlightUntil(g, f, n, k, i);
      OneMore(g, f, k, i);
      if RaceRun(g, First(f, k)).1.Running? && Effective(g, First(f, k)) > Effective(g, First(f, n)) {
        m := k;
      } else {
        m := k + 1;
      }
    }
  }

  /** If every attempt gets to complete, every race ends, however completions and timer
      ticks are interleaved. */
  lemma {:induction false} FairRaceEnds(g: RaceSetup, f: nat -> Event)
    requires EveryAttemptCompletes(g, f)
    ensures exists n: nat :: !RaceRun(g, First(f, n)).1.Running?
  {
    hide EveryAttemptCompletes, RaceRun, Effective;
    var n := ReachesOrEnds(g, f, |g.plan|);
    RaceFinishes(g, First(f, n));
  }

  lemma {:induction false} ReachesOrEnds(g: RaceSetup, f: nat -> Event, k: nat) returns (n: nat)
    requires EveryAttemptCompletes(g, f)
    ensures !RaceRun(g, First(f, n)).1.Running? || Effective(g, First(f, n)) >= k
  {
    hide EveryAttemptCompletes, RaceRun, Effective;
    n := 0;
    if k > 0 {
      n := ReachesOrEnds(g, f, k - 1);
      if RaceRun(g, First(f, n)).1.Running? { n := MovesOn(g, f, n); }
    }
  }

  /** However the events fall, a race that ends decides as the one-by-one walk over its
      fresh candidates would: it is lost exactly when all of them fail. */
  lemma {:induction false} RaceDecidesAsWalk(g: RaceSetup, sched: seq<Event>)
    ensures var end := RaceRun(g, sched).1;
            var winner := WinnerOf(Walk(Fresh(g.plan, |g.plan|, g.tried), g.out), g.out);
            (end.Lost? ==> winner.None?) && (end.Won? ==> winner.Some?)
  {
    hide RaceRun;
    RaceIsSafe(g, sched);
    WalkFacts(Fresh(g.plan, |g.plan|, g.tried), g.out);
    var (v, end) := RaceRun(g, sched);
    if end.Won? { assert end.i in Elems(v.launched); }
    if end.Lost? {
      forall i: nat | i in v.launched ensures g.out(i).Next? { assert i in Elems(v.launched); }
    }
  }

  /** With one attempt at a time and a plan of distinct untried URLs, a finished race
      made the attempts of the sequential walk, in its order and with its outcome. */
  method RaceOfOneIsWalk(plan: seq<string>, tried0: set<string>, failures0: seq<FailedResponse>,
          out: nat -> AttemptResult, sched: seq<Event>)
    returns (v: RaceView, end: RaceEnd,
             tried: set<string>, failures: seq<FailedResponse>, attempted: seq<nat>, winner: Option<nat>)
    requires NoDup(plan) && Elems(plan) !! tried0
    ensures (v, end) == RaceRun(RaceSetup(plan, 1, tried0, failures0, out), sched)
    ensures !end.Running? ==> v.tried == tried && v.failures == failures && v.launched == attempted
    ensures !end.Running? ==> winner == if end.Won? then Some(end.i) else None
    ensures attempted == Walk(Places(|plan|), out) && winner == WinnerOf(attempted, out)
  {
    hide RaceRun;
    v, end := DispatchHedged(plan, 1, tried0, failures0, out, sched);
    tried, failures, attempted, winner := DispatchSequential(plan, tried0, failures0, out);
    assert plan[..|plan|] == plan;
    AllFreshIff(plan, |plan|, tried0);
    ghost var g := RaceSetup(plan, 1, tried0, failures0, out);
    RaceIsSafe(g, sched);
    if !end.Running? { RaceOfOneWalksFresh(g, sched); }
  }
}
