/** How evenly round robin shares out the heads of its plans: the selector rotates before the
    reserve and preferred floats are applied. */
module TurnLaws {
  import opened Prelude
  import opened Sorting
  import opened Plan
  import opened PlanLaws
  import RankLaws
  import opened Turns

  /** No float puts another place in front of place `j`. */
  predicate Best(cfg: RouteCfg, s: seq<Candidate>, j: nat)
    requires j < |s|
  {
    forall i :: 0 <= i < |s| ==> FloatClass(cfg, s[j]) <= FloatClass(cfg, s[i])
  }

  /** Going round from place `k`, place `j` is the first best one. */
  predicate LeadsFrom(cfg: RouteCfg, s: seq<Candidate>, k: nat, j: nat)
    requires k < |s| && j < |s|
  {
    Best(cfg, s, j) && forall i: nat :: i < StepsTo(k, j, |s|) ==> !Best(cfg, s, From(k, i, |s|))
  }

  /** A stable sort begins with the first of the least. */
  lemma {:induction false} HeadOfSort(s: seq<Candidate>, le: (Candidate, Candidate) -> bool) returns (i: nat)
    requires s != [] && TotalPreorder(le)
    ensures i < |s| && StableSort(s, le) != [] && StableSort(s, le)[0] == s[i]
    ensures forall j :: 0 <= j < |s| ==> le(s[i], s[j])
    ensures forall j :: 0 <= j < i ==> !le(s[j], s[i])
  {
    var rest := s[1..];
    if rest == [] {
      i := 0;
    } else {
      hide TotalPreorder;
      var h := HeadOfSort(rest, le);
      i := if le(s[0], rest[h]) then 0 else h + 1;
      HeadInserted(s, h, le);
    }
  }

  lemma HeadInserted(s: seq<Candidate>, h: nat, le: (Candidate, Candidate) -> bool)
    requires |s| > 1 && h < |s| - 1 && TotalPreorder(le)
    requires forall j :: 0 <= j < |s| - 1 ==> le(s[1..][h], s[1..][j])
    requires forall j :: 0 <= j < h ==> !le(s[1..][j], s[1..][h])
    ensures var i := if le(s[0], s[1..][h]) then 0 else h + 1;
            (forall j :: 0 <= j < |s| ==> le(s[i], s[j])) && forall j :: 0 <= j < i ==> !le(s[j], s[i])
  {
    assert forall j :: 0 < j < |s| ==> s[j] == s[1..][j - 1];
  }

  /** The plan of a cursor value begins with the first best place from the cursor's on. */
  lemma {:induction false} HeadLeads(cfg: RouteCfg, live: seq<Candidate>, cursor: nat, hash: nat, rnd: nat -> nat)
    returns (j: nat)
    requires forall k :: rnd(k) <= k
    requires cfg.selector.RoundRobin? && live != [] && cfg.maxAttempts > 0
    ensures var sorted, plan := StableSort(live, ByTierLatency()), PlanOf(cfg, live, cursor, hash, rnd);
            && |sorted| == |live| && j < |live| && plan != [] && plan[0] == sorted[j]
            && LeadsFrom(cfg, sorted, Slot(cursor, |live|), j)
  {
    var sorted, k := StableSort(live, ByTierLatency()), Slot(cursor, |live|);
    PlanIsFloatedRotation(cfg, live, cursor, hash, rnd);
    hide StableSort, PlanOf, Rotate, FloatClass, LeadsFrom, ByTierLatency, Slot;
    j := FloatedRotationLeads(cfg, sorted, k);
  }

  lemma {:induction false} FloatedRotationLeads(cfg: RouteCfg, s: seq<Candidate>, k: nat) returns (j: nat)
    requires k < |s|
    ensures var o := StableSort(Rotate(s, k), ByFloat(cfg));
            j < |s| && o != [] && o[0] == s[j] && LeadsFrom(cfg, s, k, j)
  {
    FloatIsTotal(cfg);
    RotateKeeps(s, k);
    hide StableSort, Rotate, TotalPreorder, FloatClass, LeadsFrom, ByFloat;
    var i := HeadOfSort(Rotate(s, k), ByFloat(cfg));
    j := From(k, i, |s|);
    RotatedLeads(cfg, s, k, i);
  }

  lemma {:induction false} PlanIsFloatedRotation(cfg: RouteCfg, live: seq<Candidate>, cursor: nat, hash: nat,
          rnd: nat -> nat)
    requires forall k :: rnd(k) <= k
    requires cfg.selector.RoundRobin? && live != []
    ensures var sorted := StableSort(live, ByTierLatency());
            && |sorted| == |live|
            && PlanOf(cfg, live, cursor, hash, rnd)
               == Take(StableSort(Rotate(sorted, Slot(cursor, |live|)), ByFloat(cfg)), cfg.maxAttempts)
  {
    hide StableSort, Floated, Rotate, SelectorOrder;
    RankLaws.SelectorRotates(cfg.selector, live, cursor, hash, rnd);
    FloatedIsOneSort(cfg, SelectorOrder(cfg.selector, live, cursor, hash, rnd));
  }

  lemma {:induction false} RotatedLeads(cfg: RouteCfg, s: seq<Candidate>, k: nat, i: nat)
    requires k < |s| && i < |s|
    requires var r := Rotate(s, k);
             && |r| == |s| && (forall j :: 0 <= j < |s| ==> ByFloat(cfg)(r[i], r[j]))
             && forall j :: 0 <= j < i ==> !ByFloat(cfg)(r[j], r[i])
    ensures LeadsFrom(cfg, s, k, From(k, i, |s|))
  {
    RotateKeeps(s, k);
    hide FloatClass, Rotate;
    var r, n := Rotate(s, k), |s|;
    var j := From(k, i, n);
    assert forall m: nat :: m < n ==> r[m] == s[From(k, m, n)];
    forall m | 0 <= m < n ensures FloatClass(cfg, s[j]) <= FloatClass(cfg, s[m]) {
      assert s[m] == r[StepsTo(k, m, n)];
    }
    forall m: nat | m < StepsTo(k, j, n) ensures !Best(cfg, s, From(k, m, n)) {
      assert s[From(k, m, n)] == r[m] && !ByFloat(cfg)(r[m], r[i]);
    }
  }

  /** How many of the `most` places directly before place `j`, going round, are not best. */
  function LowerBefore(cfg: RouteCfg, s: seq<Candidate>, j: nat, most: nat): (g: nat)
    requires j < |s|
    ensures g <= most
    decreases most
  {
    if most == 0 || Best(cfg, s, Back(j, 1, |s|)) then 0 else 1 + LowerBefore(cfg, s, Back(j, 1, |s|), most - 1)
  }

  lemma {:induction false} LowerBeforeIs(cfg: RouteCfg, s: seq<Candidate>, j: nat, most: nat)
    requires j < |s| && most < |s|
    ensures var g := LowerBefore(cfg, s, j, most);
            && (forall i: nat :: 0 < i <= g ==> !Best(cfg, s, Back(j, i, |s|)))
            && (g < most ==> Best(cfg, s, Back(j, g + 1, |s|)))
    decreases most
  {
    hide Best;
    if most > 0 && !Best(cfg, s, Back(j, 1, |s|)) {
      LowerBeforeIs(cfg, s, Back(j, 1, |s|), most - 1);
      assert forall i: nat :: 1 < i <= most ==> Back(j, i, |s|) == Back(Back(j, 1, |s|), i - 1, |s|);
    }
  }

  /** A best place leads from exactly those places that are no further before it than the
      lower ones reach. */
  lemma {:induction false} LeadsFromIff(cfg: RouteCfg, s: seq<Candidate>, k: nat, j: nat)
    requires k < |s| && j < |s|
    ensures LeadsFrom(cfg, s, k, j) <==> Best(cfg, s, j) && StepsTo(k, j, |s|) <= LowerBefore(cfg, s, j, |s| - 1)
  {
    hide Best;
    var n, d, g := |s|, StepsTo(k, j, |s|), LowerBefore(cfg, s, j, |s| - 1);
    LowerBeforeIs(cfg, s, j, n - 1);
    assert forall i: nat :: i < d ==> From(k, i, n) == Back(j, d - i, n);
    if d > g {
      assert From(k, d - (g + 1), n) == Back(j, g + 1, n);
    }
  }

  /** The cursor values from `c` on, one for each place, from which place `j` leads. */
  function TurnsOf(cfg: RouteCfg, s: seq<Candidate>, c: nat, j: nat): set<nat>
    requires j < |s|
  {
    set d: nat | c <= d < c + |s| && LeadsFrom(cfg, s, Slot(d, |s|), j)
  }

  lemma {:induction false} TurnsCount(cfg: RouteCfg, s: seq<Candidate>, c: nat, j: nat)
    requires j < |s|
    ensures |TurnsOf(cfg, s, c, j)| == if Best(cfg, s, j) then 1 + LowerBefore(cfg, s, j, |s| - 1) else 0
  {
    hide Best, LeadsFrom;
    forall k: nat | k < |s|
      ensures LeadsFrom(cfg, s, k, j) <==> Best(cfg, s, j) && StepsTo(k, j, |s|) <= LowerBefore(cfg, s, j, |s| - 1)
    {
      LeadsFromIff(cfg, s, k, j);
    }
    if Best(cfg, s, j) {
      var m := 1 + LowerBefore(cfg, s, j, |s| - 1);
      Nearby(c, |s|, j, m);
      assert TurnsOf(cfg, s, c, j) == TurnsWithin(c, |s|, j, m);
    } else {
      assert TurnsOf(cfg, s, c, j) == {};
    }
  }

  /** The cursor values from `c` on, one for each live proxy, whose plans begin with `x`. */
  function HeadTurns(cfg: RouteCfg, live: seq<Candidate>, c: nat, hash: nat, rnd: nat -> nat, x: Candidate): set<nat>
    requires forall k :: rnd(k) <= k
  {
    set d: nat | c <= d < c + |live| && PlanOf(cfg, live, d, hash, rnd) != [] && PlanOf(cfg, live, d, hash, rnd)[0] == x
  }

  lemma {:induction false} HeadsAreTurns(cfg: RouteCfg, live: seq<Candidate>, c: nat, hash: nat, rnd: nat -> nat,
          j: nat)
    requires forall k :: rnd(k) <= k
    requires cfg.selector.RoundRobin? && cfg.maxAttempts > 0 && NoDup(live) && j < |live|
    ensures var sorted := StableSort(live, ByTierLatency());
            |sorted| == |live| && HeadTurns(cfg, live, c, hash, rnd, sorted[j]) == TurnsOf(cfg, sorted, c, j)
  {
    var sorted, n := StableSort(live, ByTierLatency()), |live|;
    SortContents(live, ByTierLatency());
    SameNoDup(live, sorted);
    hide PlanOf, StableSort, ByTierLatency, Best, Slot;
    forall d: nat | c <= d < c + n
      ensures PlanOf(cfg, live, d, hash, rnd) != []
      ensures PlanOf(cfg, live, d, hash, rnd)[0] == sorted[j] <==> LeadsFrom(cfg, sorted, Slot(d, n), j)
    {
      var i := HeadLeads(cfg, live, d, hash, rnd);
      OneLeads(cfg, sorted, Slot(d, n), i, j);
    }
  }

  lemma {:induction false} SameNoDup(s: seq<Candidate>, t: seq<Candidate>)
    requires NoDup(s) && multiset(s) == multiset(t)
    ensures NoDup(t)
  {
    NoDupIsMultiset(s);
    forall x | x in t ensures multiset(t)[x] == 1 { assert x in multiset(t); assert x in s; }
    NoDupIsMultiset(t);
  }

  lemma OneLeads(cfg: RouteCfg, s: seq<Candidate>, k: nat, i: nat, j: nat)
    requires k < |s| && i < |s| && j < |s| && LeadsFrom(cfg, s, k, i) && NoDup(s)
    ensures s[i] == s[j] <==> LeadsFrom(cfg, s, k, j)
  {
    hide Best;
    assert StepsTo(k, i, |s|) < StepsTo(k, j, |s|) ==> From(k, StepsTo(k, i, |s|), |s|) == i;
    assert StepsTo(k, j, |s|) < StepsTo(k, i, |s|) ==> From(k, StepsTo(k, j, |s|), |s|) == j;
  }

  /** Among the plans of any `n` consecutive cursor values of `n` live proxies one begins with
      each proxy that no float puts another before, and one more for every proxy of a lower
      class directly in front of it, going round; none with any other. */
  lemma {:induction false} RoundRobinShares(cfg: RouteCfg, live: seq<Candidate>, c: nat, hash: nat, rnd: nat -> nat,
          j: nat)
    requires forall k :: rnd(k) <= k
    requires cfg.selector.RoundRobin? && cfg.maxAttempts > 0 && NoDup(live) && j < |live|
    ensures var sorted := StableSort(live, ByTierLatency());
            && |sorted| == |live|
            && |HeadTurns(cfg, live, c, hash, rnd, sorted[j])|
               == if Best(cfg, sorted, j) then 1 + LowerBefore(cfg, sorted, j, |live| - 1) else 0
  {
    hide HeadTurns, TurnsOf, StableSort, ByTierLatency, Best;
    HeadsAreTurns(cfg, live, c, hash, rnd, j);
    TurnsCount(cfg, StableSort(live, ByTierLatency()), c, j);
  }

  /** So round robin is fair, each live proxy at the head of exactly one of those plans, if and
      only if the floats rank all of them alike. */
  lemma {:induction false} RoundRobinIsFairIff(cfg: RouteCfg, live: seq<Candidate>, c: nat, hash: nat, rnd: nat -> nat)
    requires forall k :: rnd(k) <= k
    requires cfg.selector.RoundRobin? && cfg.maxAttempts > 0 && NoDup(live)
    ensures (forall x :: x in live ==> |HeadTurns(cfg, live, c, hash, rnd, x)| == 1) <==>
              forall x, y :: x in live && y in live ==> FloatClass(cfg, x) == FloatClass(cfg, y)
  {
    var sorted := StableSort(live, ByTierLatency());
    SortContents(live, ByTierLatency());
    hide FloatClass, HeadTurns, StableSort, ByTierLatency;
    forall x | x in live
      ensures |HeadTurns(cfg, live, c, hash, rnd, x)| == 1 ==>
                forall y :: y in live ==> FloatClass(cfg, x) <= FloatClass(cfg, y)
    {
      var j := PlaceOf(sorted, live, x);
      RoundRobinShares(cfg, live, c, hash, rnd, j);
      forall y | y in live
        ensures |HeadTurns(cfg, live, c, hash, rnd, x)| == 1 ==> FloatClass(cfg, x) <= FloatClass(cfg, y)
      {
        var i := PlaceOf(sorted, live, y);
      }
    }
    if forall x, y :: x in live && y in live ==> FloatClass(cfg, x) == FloatClass(cfg, y) {
      forall j: nat | j < |sorted| ensures Best(cfg, sorted, j) { AllIn(sorted, live); }
      forall x | x in live ensures |HeadTurns(cfg, live, c, hash, rnd, x)| == 1 {
        var j := PlaceOf(sorted, live, x);
        RoundRobinShares(cfg, live, c, hash, rnd, j);
      }
    }
  }

  lemma PlaceOf(s: seq<Candidate>, live: seq<Candidate>, x: Candidate) returns (j: nat)
    requires multiset(s) == multiset(live) && x in live
    ensures j < |s| && s[j] == x
  {
    assert x in multiset(s);
    j :| j < |s| && s[j] == x;
  }

  lemma AllIn(s: seq<Candidate>, live: seq<Candidate>)
    requires multiset(s) == multiset(live)
    ensures forall i :: 0 <= i < |s| ==> s[i] in live
  {
    forall i | 0 <= i < |s| ensures s[i] in live { assert s[i] in multiset(s); }
  }

  const BEHIND_RESERVE := Candidate("s://b", [], Healthy, 10)

  const THREE := [HEALTHY_FREE, HEALTHY_RESERVE, BEHIND_RESERVE]

  /** Three proxies in a row, the one in the middle a reserve: the one behind it leads twice. */
  lemma {:induction false} ReserveGivesItsTurnAway(cfg: RouteCfg, c: nat, hash: nat, rnd: nat -> nat)
    requires forall k :: rnd(k) <= k
    requires cfg.selector.RoundRobin? && cfg.preferNonReserve && cfg.preferTags == [] && cfg.maxAttempts > 0
    requires c < 3
    ensures var plan := PlanOf(cfg, THREE, c, hash, rnd);
            plan != [] && plan[0] == if c == 0 then HEALTHY_FREE else BEHIND_RESERVE
  {
    OnlyMiddleIsLower(cfg);
    hide Best, PlanOf, StableSort, ByTierLatency;
    var j := HeadLeads(cfg, THREE, c, hash, rnd);
    assert Slot(c, 3) == c && From(c, 0, 3) == c && From(1, 1, 3) == 2;
  }

  lemma {:induction false} OnlyMiddleIsLower(cfg: RouteCfg)
    requires cfg.preferNonReserve && cfg.preferTags == []
    ensures StableSort(THREE, ByTierLatency()) == THREE
    ensures Best(cfg, THREE, 0) && !Best(cfg, THREE, 1) && Best(cfg, THREE, 2)
  {
    hide IsReserve, StableSort;
    WhoIsReserve();
    TierIsTotal();
    SortSortedIsIdentity(THREE, ByTierLatency());
    assert !IsReserve(BEHIND_RESERVE) by { NoTagsNoReserve(BEHIND_RESERVE); }
    assert FloatClass(cfg, THREE[0]) == FloatClass(cfg, THREE[2]) == 0 && FloatClass(cfg, THREE[1]) == 1;
  }

  lemma NoTagsNoReserve(c: Candidate)
    requires c.tags == []
    ensures !IsReserve(c)
  {
  }
}
