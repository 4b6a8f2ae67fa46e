/** The pool of Tor nodes (`tor-proxy/src/pool.rs`): round robin over the ready nodes,
    error counting, and circuit rotation no more often than the cooldown allows. */
module TorPool {
  import opened Prelude
  import opened Turns

  datatype Stats = Stats(requests: nat, success: nat, errors: nat, rotations: nat)

  datatype Node = Node(consecutive: nat, lastNewnym: int, cooldownUntil: int, stats: Stats)

  const SECOND: int := 1_000_000_000
  const HOUR: int := 3600 * SECOND

  function NewNode(start: int): Node { Node(0, start - HOUR, start - SECOND, Stats(0, 0, 0, 0)) }

  predicate Ready(n: Node, now: int) { n.cooldownUntil <= now }

  /** Time since an instant, never negative. */
  function Elapsed(now: int, since: int): nat { Max(now - since, 0) }

  /** At the start every node is in turn, and may be rotated at once if the cooldown is at
      most 3600 seconds of a billion ticks, and only then. */
  lemma StartsRotatable(start: int, cooldown: nat)
    ensures Ready(NewNode(start), start)
    ensures MayRotateNode(NewNode(start), cooldown, start) <==> cooldown <= 3600 * 1_000_000_000
  {
  }

  // ---- What the operations do to the nodes ----

  /** One step. A rotation is two: the check under the read lock and, when the control
      connection is done, the answer, which updates the node if it was a success and reads
      the clock twice. `task` tells which check an answer belongs to; anything may happen
      in between. */
  datatype Event =
    | Served(node: nat)
    | Errored(node: nat)
    | Checked(task: nat, node: nat, now: int)
    | Answered(task: nat, ok: bool, renewed: int, readyFrom: int)

  /** The nodes, and for each task whose check passed the node it is rotating. */
  datatype State = State(nodes: seq<Node>, open: map<nat, nat>)

  predicate MayRotateNode(n: Node, cooldown: nat, now: int) { Elapsed(now, n.lastNewnym) >= cooldown }

  function ServedNode(n: Node): Node {
    n.(consecutive := 0, stats := n.stats.(success := n.stats.success + 1, requests := n.stats.requests + 1))
  }

  function ErroredNode(n: Node): Node {
    n.(consecutive := n.consecutive + 1,
       stats := n.stats.(errors := n.stats.errors + 1, requests := n.stats.requests + 1))
  }

  function RenewedNode(n: Node, cooldown: nat, renewed: int, readyFrom: int): Node {
    Node(0, renewed, readyFrom + cooldown, n.stats.(rotations := n.stats.rotations + 1))
  }

  function Step(s: State, cooldown: nat, ev: Event): (r: State)
    ensures |r.nodes| == |s.nodes|
  {
    match ev
    case Served(i) => if i < |s.nodes| then s.(nodes := s.nodes[i := ServedNode(s.nodes[i])]) else s
    case Errored(i) => if i < |s.nodes| then s.(nodes := s.nodes[i := ErroredNode(s.nodes[i])]) else s
    case Checked(task, i, now) =>
      if i < |s.nodes| && task !in s.open && MayRotateNode(s.nodes[i], cooldown, now) then s.(open := s.open[task := i])
      else s
    case Answered(task, ok, renewed, readyFrom) =>
      if task !in s.open then s
      else
        var i := s.open[task];
        State(if ok && i < |s.nodes| then s.nodes[i := RenewedNode(s.nodes[i], cooldown, renewed, readyFrom)]
              else s.nodes,
              s.open - {task})
  }

  function Steps(s: State, cooldown: nat, events: seq<Event>): (r: State)
    ensures |r.nodes| == |s.nodes|
  {
    if events == [] then s
    else Step(Steps(s, cooldown, events[..|events| - 1]), cooldown, events[|events| - 1])
  }

  function Idle(nodes: seq<Node>): State { State(nodes, map[]) }

  /** A rotation with nothing in between. */
  function RotatedAtOnce(nodes: seq<Node>, cooldown: nat, i: nat, now: int, ok: bool, renewed: int,
          readyFrom: int): seq<Node> {
    Steps(Idle(nodes), cooldown, [Checked(0, i, now), Answered(0, ok, renewed, readyFrom)]).nodes
  }

  // ---- Who is asked ----

  function ReadyAmong(nodes: seq<Node>, now: int): seq<nat> {
    if nodes == [] then []
    else
      var last := |nodes| - 1;
      ReadyAmong(nodes[..last], now) + if Ready(nodes[last], now) then [last] else []
  }

  function AllOf(n: nat): seq<nat> { seq(n, i requires 0 <= i < n => i) }

  /** The ready nodes, or all when none is. */
  function Askable(nodes: seq<Node>, now: int): (s: seq<nat>)
    ensures |nodes| > 0 ==> |s| > 0
  {
    var ready := ReadyAmong(nodes, now);
    if ready == [] then AllOf(|nodes|) else ready
  }

  lemma {:induction false} ReadyAmongIs(nodes: seq<Node>, now: int)
    ensures NoDup(ReadyAmong(nodes, now))
    ensures forall i: nat :: i in ReadyAmong(nodes, now) <==> i < |nodes| && Ready(nodes[i], now)
  {
    if nodes != [] {
      var front := ReadyAmong(nodes[..|nodes| - 1], now);
      ReadyAmongIs(nodes[..|nodes| - 1], now);
      forall i, j | 0 <= i < j < |ReadyAmong(nodes, now)|
        ensures ReadyAmong(nodes, now)[i] != ReadyAmong(nodes, now)[j]
      {
        if j < |front| { assert front[i] != front[j]; } else { assert front[i] in front; }
      }
    }
  }

  /** Whoever is asked is asked once, and it is exactly the ready nodes or, when there is
      none, everyone. */
  lemma {:induction false} AskableIs(nodes: seq<Node>, now: int)
    ensures NoDup(Askable(nodes, now))
    ensures forall i: nat :: i in Askable(nodes, now) <==>
              i < |nodes| && (Ready(nodes[i], now) || forall j :: 0 <= j < |nodes| ==> !Ready(nodes[j], now))
  {
    ReadyAmongIs(nodes, now);
    var ready := ReadyAmong(nodes, now);
    if ready == [] {
      forall j | 0 <= j < |nodes| ensures !Ready(nodes[j], now) { assert j !in ready; }
      forall i: nat ensures i in AllOf(|nodes|) <==> i < |nodes| {
        if i < |nodes| { assert AllOf(|nodes|)[i] == i; }
      }
    } else {
      assert ready[0] in ready;
    }
  }

  class NodePool {
    const nodes: array<Node>
    var rrIdx: nat
    const errorThreshold: nat
    const cooldown: nat

    /** One reading of the clock. */
    constructor (count: nat, errorThreshold: nat, cooldown: nat, start: int)
      requires count > 0
      ensures fresh(nodes) && nodes.Length == count && nodes[..] == seq(count, _ => NewNode(start))
      ensures rrIdx == 0 && this.errorThreshold == errorThreshold && this.cooldown == cooldown
    {
      nodes := new Node[count](_ => NewNode(start));
      rrIdx := 0;
      this.errorThreshold, this.cooldown := errorThreshold, cooldown;
    }

    method GetOrderedNodes(now: int) returns (ordered: seq<nat>)
      requires nodes.Length > 0
      modifies this`rrIdx
      ensures var askable := Askable(nodes[..], now);
              rrIdx == Slot(old(rrIdx) + 1, |askable|) && ordered == Rotate(askable, rrIdx)
    {
      var pool: seq<nat> := [];
      for i := 0 to nodes.Length
        invariant pool == ReadyAmong(nodes[..i], now)
      {
        assert nodes[..i + 1][..i] == nodes[..i];
        if nodes[i].cooldownUntil <= now { pool := pool + [i]; }
      }
      assert nodes[..nodes.Length] == nodes[..];
      if pool == [] { pool := AllOf(nodes.Length); }
      ghost var all := nodes[..];
      assert pool == Askable(all, now);
      var rr := (rrIdx + 1) % |pool|;
      rrIdx := rr;
      ordered := [];
      while |ordered| < |pool|
        invariant |ordered| <= |pool| && rrIdx == rr
        invariant ordered == Rotate(pool, rr)[..|ordered|]
      {
        CycleAt(pool, rr, |ordered|);
        ordered := ordered + [pool[(rr + |ordered|) % |pool|]];
      }
      assert ordered == Rotate(pool, rr);
      assert nodes[..] == all;
    }

    method OnSuccess(i: nat)
      modifies nodes
      ensures nodes[..] == Step(Idle(old(nodes[..])), cooldown, Served(i)).nodes
    {
      if i < nodes.Length { nodes[i] := ServedNode(nodes[i]); }
    }

    /** `asked` tells whether the error made the pool ask for a new circuit; the other
        arguments are what the rotation then meets. */
    method OnError(i: nat, now: int, answered: bool, renewed: int, readyFrom: int) returns (asked: bool)
      modifies nodes
      ensures asked <==> i < nodes.Length && old(nodes[..])[i].consecutive + 1 >= errorThreshold
      ensures var errored := Step(Idle(old(nodes[..])), cooldown, Errored(i)).nodes;
              nodes[..] == if asked then RotatedAtOnce(errored, cooldown, i, now, answered, renewed, readyFrom)
                           else errored
    {
      asked := false;
      if i < nodes.Length {
        nodes[i] := ErroredNode(nodes[i]);
        asked := nodes[i].consecutive >= errorThreshold;
      }
      assert nodes[..] == Step(Idle(old(nodes[..])), cooldown, Errored(i)).nodes;
      if asked { RotateNode(i, now, answered, renewed, readyFrom); }
    }

    method RotateNode(i: nat, now: int, answered: bool, renewed: int, readyFrom: int)
      modifies nodes
      ensures nodes[..] == RotatedAtOnce(old(nodes[..]), cooldown, i, now, answered, renewed, readyFrom)
    {
      AtOnceIs(nodes[..], cooldown, i, now, answered, renewed, readyFrom);
      var may := CheckRotation(i, now);
      if may && answered { CommitRotation(i, renewed, readyFrom); }
    }

    /** The part under the read lock. */
    method CheckRotation(i: nat, now: int) returns (may: bool)
      ensures may <==> i < nodes.Length && MayRotateNode(nodes[i], cooldown, now)
    {
      if i >= nodes.Length { return false; }
      may := Elapsed(now, nodes[i].lastNewnym) >= cooldown;
    }

    /** The part under the write lock, once the node has answered. */
    method CommitRotation(i: nat, renewed: int, readyFrom: int)
      requires i < nodes.Length
      modifies nodes
      ensures nodes[..] == old(nodes[..])[i := RenewedNode(old(nodes[i]), cooldown, renewed, readyFrom)]
    {
      nodes[i] := RenewedNode(nodes[i], cooldown, renewed, readyFrom);
    }
  }

  /** A rotation at once renews the node exactly if the cooldown has passed and it answered. */
  lemma {:induction false} AtOnceIs(nodes: seq<Node>, cooldown: nat, i: nat, now: int, ok: bool, renewed: int,
          readyFrom: int)
    ensures RotatedAtOnce(nodes, cooldown, i, now, ok, renewed, readyFrom) ==
              if i < |nodes| && MayRotateNode(nodes[i], cooldown, now) && ok
              then nodes[i := RenewedNode(nodes[i], cooldown, renewed, readyFrom)] else nodes
  {
    var events := [Checked(0, i, now), Answered(0, ok, renewed, readyFrom)];
    assert events[..1] == [Checked(0, i, now)] && [Checked(0, i, now)][..0] == [];
    assert Steps(Idle(nodes), cooldown, [Checked(0, i, now)]) == Step(Idle(nodes), cooldown, Checked(0, i, now));
  }

  lemma {:induction false} CycleAt(s: seq<nat>, k: nat, i: nat)
    requires k < |s| && i < |s|
    ensures s[(k + i) % |s|] == Rotate(s, k)[i]
  {
    RotateKeeps(s, k);
    if k + i < |s| { ModUnique(k + i, |s|, 0, k + i); } else { ModUnique(k + i, |s|, 1, k + i - |s|); }
  }

  // ---- Taking turns ----

  /** An order visits every node to be asked exactly once, in cyclic order. */
  lemma {:induction false} OrderVisitsEachOnce(nodes: seq<Node>, now: int, rr: nat)
    requires rr < |Askable(nodes, now)|
    ensures var s := Askable(nodes, now);
            && NoDup(Rotate(s, rr)) && multiset(Rotate(s, rr)) == multiset(s)
            && (forall i :: 0 <= i < |s| ==> Rotate(s, rr)[i] == s[if i + rr < |s| then i + rr else i + rr - |s|])
  {
    var s := Askable(nodes, now);
    AskableIs(nodes, now);
    RotateKeeps(s, rr);
    NoDupIsMultiset(s);
    NoDupIsMultiset(Rotate(s, rr));
    forall x | x in Rotate(s, rr) ensures multiset(Rotate(s, rr))[x] == 1 {
      assert x in multiset(Rotate(s, rr));
      assert x in s;
    }
  }

  /** The cursor after `k` more orders over `n` nodes. */
  function CursorAfter(rr: nat, n: nat, k: nat): nat
    requires n > 0
  {
    if k == 0 then rr else Slot(CursorAfter(rr, n, k - 1) + 1, n)
  }

  lemma {:induction false} CursorCounts(rr: nat, n: nat, k: nat)
    requires n > 0 && k > 0
    ensures CursorAfter(rr, n, k) == Slot(rr + k, n)
  {
    if k > 1 {
      CursorCounts(rr, n, k - 1);
      var c := rr + (k - 1);
      Wraps(c, n);
    }
  }

  lemma {:induction false} Wraps(c: nat, n: nat)
    requires n > 0
    ensures Slot(Slot(c, n) + 1, n) == Slot(c + 1, n)
  {
    var r := Slot(c, n);
    if n == 1 {
    } else {
      Residue(c, n, 1);
      if r + 1 < n { ModUnique(r + 1, n, 0, r + 1); } else { ModUnique(r + 1, n, 1, 0); }
    }
  }

  /** Over any `n` consecutive orders of an unchanged set of `n` nodes, each node leads in
      exactly one, wherever the cursor stood. */
  lemma {:induction false} EachLeadsOnce(s: seq<nat>, rr: nat, j: nat) returns (turn: nat)
    requires j < |s|
    ensures 1 <= turn <= |s|
    ensures forall k: nat :: 1 <= k <= |s| ==>
              CursorAfter(rr, |s|, k) < |s| && (CursorAfter(rr, |s|, k) == j <==> k == turn)
    ensures Rotate(s, CursorAfter(rr, |s|, turn))[0] == s[j]
  {
    var at := TurnOf(rr + 1, |s|, j);
    turn := at - rr;
    forall k: nat | 1 <= k <= |s|
      ensures CursorAfter(rr, |s|, k) < |s| && (CursorAfter(rr, |s|, k) == j <==> k == turn)
    {
      CursorCounts(rr, |s|, k);
      assert Slot(rr + k, |s|) == j <==> rr + k == at;
    }
  }

  // ---- The books ----

  function CountServed(events: seq<Event>, i: nat): nat {
    if events == [] then 0
    else CountServed(events[..|events| - 1], i) + if events[|events| - 1] == Served(i) then 1 else 0
  }

  function CountErrored(events: seq<Event>, i: nat): nat {
    if events == [] then 0
    else CountErrored(events[..|events| - 1], i) + if events[|events| - 1] == Errored(i) then 1 else 0
  }

  /** The pool at its start. */
  datatype Setup = Setup(count: nat, start: int, cooldown: nat) {
    function Nodes(): seq<Node> { seq(count, _ => NewNode(start)) }

    function After(events: seq<Event>): State { Steps(Idle(Nodes()), cooldown, events) }
  }

  /** A check that passed: of which node, as the how-manieth event, reading what time. */
  datatype Ticket = Ticket(node: nat, at: nat, now: int)

  /** A new circuit: its check and its commit, as events and in time. */
  datatype Renewal = Renewal(checkedAt: nat, at: nat, checked: int, time: int)

  function LastTime(r: seq<Renewal>, otherwise: int): int { if r == [] then otherwise else r[|r| - 1].time }

  /** The rotations under way. A check passes if it comes at least a cooldown after the
      node's latest new circuit, or after the hour before the start. */
  function Tickets(h: Setup, events: seq<Event>): map<nat, Ticket>
    decreases |events|
  {
    if events == [] then map[]
    else
      var front := events[..|events| - 1];
      var open := Tickets(h, front);
      match events[|events| - 1]
      case Checked(task, i, now) =>
        if i < h.count && task !in open && Elapsed(now, LastTime(Renewals(h, front, i), h.start - HOUR)) >= h.cooldown
        then open[task := Ticket(i, |front|, now)] else open
      case Answered(task, _, _, _) => open - {task}
      case _ => open
  }

  /** The new circuits of node `i`: the successful answers to checks of it that passed. */
  function Renewals(h: Setup, events: seq<Event>, i: nat): seq<Renewal>
    decreases |events|
  {
    if events == [] then []
    else
      var front := events[..|events| - 1];
      var before, open := Renewals(h, front, i), Tickets(h, front);
      match events[|events| - 1]
      case Answered(task, ok, renewed, _) =>
        if ok && task in open && open[task].node == i
        then before + [Renewal(open[task].at, |front|, open[task].now, renewed)] else before
      case _ => before
  }

  /** Errors of node `i` since it last served or was given a new circuit. */
  function ErrorStreak(h: Setup, events: seq<Event>, i: nat): nat {
    if events == [] then 0
    else
      var front := events[..|events| - 1];
      match events[|events| - 1]
      case Served(j) => if j == i then 0 else ErrorStreak(h, front, i)
      case Errored(j) => ErrorStreak(h, front, i) + if j == i then 1 else 0
      case Checked(_, _, _) => ErrorStreak(h, front, i)
      case Answered(_, _, _, _) =>
        if |Renewals(h, events, i)| > |Renewals(h, front, i)| then 0 else ErrorStreak(h, front, i)
  }

  /** The rotations under way are those the pool knows of, on nodes it has. */
  ghost predicate OpenIs(h: Setup, events: seq<Event>) {
    var open := h.After(events).open;
    && (forall t :: t in open <==> t in Tickets(h, events))
    && (forall t :: t in open ==> open[t] == Tickets(h, events)[t].node < h.count)
  }

  /** The counters of a node are its history: requests are successes and errors, and
      rotations are the renewals. */
  ghost predicate CountersAre(h: Setup, events: seq<Event>, i: nat)
    requires i < h.count
  {
    var n := h.After(events).nodes[i];
    && n.stats.requests == n.stats.success + n.stats.errors
    && n.stats.success == CountServed(events, i)
    && n.stats.errors == CountErrored(events, i)
    && n.stats.rotations == |Renewals(h, events, i)|
    && n.lastNewnym == LastTime(Renewals(h, events, i), h.start - HOUR)
    && n.consecutive == ErrorStreak(h, events, i)
  }

  /** In every run, with rotations overlapping as they may. */
  lemma {:induction false} CountersAreHistory(h: Setup, events: seq<Event>)
    ensures OpenIs(h, events) && forall i: nat :: i < h.count ==> CountersAre(h, events, i)
  {
    if events == [] {
      assert h.After(events) == Idle(h.Nodes());
    } else {
      var front := events[..|events| - 1];
      CountersAreHistory(h, front);
      OpenStays(h, front, events);
      forall i: nat | i < h.count ensures CountersAre(h, events, i) { CountersStay(h, events, i); }
    }
  }

  lemma {:induction false} OpenStays(h: Setup, front: seq<Event>, events: seq<Event>)
    requires events != [] && front == events[..|events| - 1] && OpenIs(h, front)
    requires forall i: nat :: i < h.count ==> CountersAre(h, front, i)
    ensures OpenIs(h, events)
  {
    hide CountServed, CountErrored, ErrorStreak;
    var e := events[|events| - 1];
    if e.Checked? && e.node < h.count { assert CountersAre(h, front, e.node); }
  }

  lemma CountersStay(h: Setup, events: seq<Event>, i: nat)
    requires events != [] && OpenIs(h, events[..|events| - 1])
    requires i < h.count && CountersAre(h, events[..|events| - 1], i)
    ensures CountersAre(h, events, i)
  {
  }

  // ---- Rotations keep their distance ----

  function TimeOf(e: Event): int
    requires e.Checked? || e.Answered?
  {
    if e.Checked? then e.now else e.renewed
  }

  /** The clock does not run backwards. */
  ghost predicate Monotone(events: seq<Event>) {
    forall a, b :: 0 <= a < b < |events| && (events[a].Checked? || events[a].Answered?)
                   && (events[b].Checked? || events[b].Answered?) ==>
      TimeOf(events[a]) <= TimeOf(events[b])
  }

  /** What the last event does to the renewals of a node. */
  lemma {:induction false} RenewalStep(h: Setup, events: seq<Event>, i: nat)
    requires events != []
    ensures var front, e := events[..|events| - 1], events[|events| - 1];
            Renewals(h, events, i) == Renewals(h, front, i)
              + if e.Answered? && e.ok && e.task in Tickets(h, front) && Tickets(h, front)[e.task].node == i
                then [Renewal(Tickets(h, front)[e.task].at, |front|, Tickets(h, front)[e.task].now, e.renewed)] else []
  {
    var front, e := events[..|events| - 1], events[|events| - 1];
    assert Renewals(h, front, i) + [] == Renewals(h, front, i);
  }

  /** A rotation under way was checked where its ticket says, and unless its node has got a
      new circuit since, the cooldown had passed. */
  lemma {:induction false} TicketHolds(h: Setup, events: seq<Event>, task: nat)
    requires task in Tickets(h, events)
    ensures var t := Tickets(h, events)[task];
            var r := Renewals(h, events, t.node);
            && t.node < h.count && t.at < |events| && events[t.at] == Checked(task, t.node, t.now)
            && ((r != [] && r[|r| - 1].at > t.at) || Elapsed(t.now, LastTime(r, h.start - HOUR)) >= h.cooldown)
  {
    if events != [] {
      var front, e := events[..|events| - 1], events[|events| - 1];
      if task in Tickets(h, front) && Tickets(h, events)[task] == Tickets(h, front)[task] {
        TicketHolds(h, front, task);
      }
    }
  }

  lemma InTime(events: seq<Event>, a: nat, b: nat)
    requires Monotone(events) && a < b < |events|
    requires (events[a].Checked? || events[a].Answered?) && (events[b].Checked? || events[b].Answered?)
    ensures TimeOf(events[a]) <= TimeOf(events[b])
  {
  }

  /** The renewals of a node stand in the order of their commits, each behind its check. */
  lemma {:induction false} RenewalsInOrder(h: Setup, events: seq<Event>, i: nat)
    requires Monotone(events)
    ensures var r := Renewals(h, events, i);
            && (forall k :: 0 <= k < |r| ==> r[k].checkedAt < r[k].at < |events| && r[k].checked <= r[k].time)
            && (forall k :: 0 < k < |r| ==> r[k - 1].at < r[k].at)
  {
    if events != [] {
      var front, e := events[..|events| - 1], events[|events| - 1];
      assert Monotone(front) by {
        forall a, b | 0 <= a < b < |front| && (front[a].Checked? || front[a].Answered?)
                      && (front[b].Checked? || front[b].Answered?)
          ensures TimeOf(front[a]) <= TimeOf(front[b]) { assert front[a] == events[a] && front[b] == events[b]; }
      }
      RenewalsInOrder(h, front, i);
      RenewalStep(h, events, i);
      hide Renewals, Tickets, Monotone;
      if e.Answered? && e.task in Tickets(h, front) && Tickets(h, front)[e.task].node == i {
        TicketHolds(h, front, e.task);
        var t := Tickets(h, front)[e.task];
        assert events[t.at] == front[t.at];
        InTime(events, t.at, |front|);
      }
    }
  }

  /** In every run: a new circuit comes less than a cooldown after the one before it only if
      its rotation was checked before that one was committed. */
  lemma {:induction false} SoonOnlyByOverlap(h: Setup, events: seq<Event>, i: nat)
    requires h.cooldown > 0 && Monotone(events)
    ensures var r := Renewals(h, events, i);
            forall k :: 0 < k < |r| && r[k].time < r[k - 1].time + h.cooldown ==> r[k].checkedAt < r[k - 1].at
  {
    RenewalsInOrder(h, events, i);
    CheckedLate(h, events, i);
  }

  lemma {:induction false} CheckedLate(h: Setup, events: seq<Event>, i: nat)
    requires h.cooldown > 0
    ensures var r := Renewals(h, events, i);
            forall k :: 0 < k < |r| ==> r[k].checkedAt < r[k - 1].at || r[k].checked >= r[k - 1].time + h.cooldown
  {
    if events != [] {
      var front, e := events[..|events| - 1], events[|events| - 1];
      CheckedLate(h, front, i);
      RenewalStep(h, events, i);
      hide Renewals, Tickets;
      if e.Answered? && e.task in Tickets(h, front) && Tickets(h, front)[e.task].node == i {
        TicketHolds(h, front, e.task);
      }
    }
  }

  /** No rotation of node `i` passes its check while another one of it is under way. */
  ghost predicate OneAtATime(h: Setup, events: seq<Event>, i: nat) {
    events != [] ==>
      var front, e := events[..|events| - 1], events[|events| - 1];
      && OneAtATime(h, front, i)
      && (e.Checked? && e.node == i && e.task !in Tickets(h, front) && e.task in Tickets(h, events) ==>
            forall t :: t in Tickets(h, front) ==> Tickets(h, front)[t].node != i)
  }

  /** Then every rotation is checked after the one before it was committed. */
  lemma {:induction false} OneAtATimeIsApart(h: Setup, events: seq<Event>, i: nat)
    requires OneAtATime(h, events, i)
    ensures var r, open := Renewals(h, events, i), Tickets(h, events);
            && (forall k :: 0 < k < |r| ==> r[k - 1].at < r[k].checkedAt)
            && (forall k :: 0 <= k < |r| ==> r[k].at < |events|)
            && (forall t :: t in open && open[t].node == i ==> r != [] ==> r[|r| - 1].at < open[t].at)
            && (forall t, u :: t in open && u in open && open[t].node == open[u].node == i ==> t == u)
  {
    if events != [] {
      var front, e := events[..|events| - 1], events[|events| - 1];
      OneAtATimeIsApart(h, front, i);
      RenewalStep(h, events, i);
      TicketStep(h, events);
      hide Renewals, Tickets;
    }
  }

  /** What the last event does to the rotations under way. */
  lemma TicketStep(h: Setup, events: seq<Event>)
    requires events != []
    ensures var front, e := events[..|events| - 1], events[|events| - 1];
            var before, open := Tickets(h, front), Tickets(h, events);
            && (forall t :: t in before && !(e.Answered? && e.task == t) ==> t in open && open[t] == before[t])
            && (forall t :: t in open && t !in before ==>
                 e.Checked? && e.task == t && open[t] == Ticket(e.node, |front|, e.now))
            && (e.Answered? ==> e.task !in open)
            && (forall t :: t in open && t in before ==> open[t] == before[t])
  {
  }

  predicate Spaced(times: seq<int>, gap: nat) {
    forall k :: 0 < k < |times| ==> times[k] >= times[k - 1] + gap
  }

  function Times(r: seq<Renewal>): seq<int> { seq(|r|, k requires 0 <= k < |r| => r[k].time) }

  /** So rotations one at a time are at least a cooldown apart. */
  lemma {:induction false} RenewalsAreSpaced(h: Setup, events: seq<Event>, i: nat)
    requires h.cooldown > 0 && Monotone(events) && OneAtATime(h, events, i)
    ensures Spaced(Times(Renewals(h, events, i)), h.cooldown)
  {
    hide OneAtATime, Monotone, Renewals;
    SoonOnlyByOverlap(h, events, i);
    OneAtATimeIsApart(h, events, i);
  }

  function CountBetween(times: seq<int>, lo: int, hi: int): nat {
    if times == [] then 0
    else CountBetween(times[..|times| - 1], lo, hi) + if lo <= times[|times| - 1] <= hi then 1 else 0
  }

  lemma {:induction false} SpacedAreFew(times: seq<int>, gap: nat, lo: int, hi: int)
    requires Spaced(times, gap)
    ensures var c := CountBetween(times, lo, hi);
            c > 0 ==> (c - 1) * gap + lo <= times[|times| - 1] && (c - 1) * gap + lo <= hi
  {
    if times != [] {
      var front := times[..|times| - 1];
      assert Spaced(front, gap) by {
        forall k | 0 < k < |front| ensures front[k] >= front[k - 1] + gap { assert times[k] >= times[k - 1] + gap; }
      }
      SpacedAreFew(front, gap, lo, hi);
      var c := CountBetween(front, lo, hi);
      if c > 0 {
        assert times[|times| - 1] >= front[|front| - 1] + gap;
        assert c * gap == (c - 1) * gap + gap;
      }
    }
  }

  /** Rotations that do not overlap: within any stretch of time `t` a node gets at most
      one new circuit and one more for every whole cooldown in `t`. */
  lemma {:induction false} RotationsAreBounded(h: Setup, events: seq<Event>, i: nat, lo: int, t: nat)
    requires h.cooldown > 0 && Monotone(events) && OneAtATime(h, events, i)
    ensures CountBetween(Times(Renewals(h, events, i)), lo, lo + t) <= 1 + t / h.cooldown
  {
    hide Renewals, CountBetween, Spaced, Monotone, OneAtATime, Times;
    var times := Times(Renewals(h, events, i));
    RenewalsAreSpaced(h, events, i);
    SpacedAreFew(times, h.cooldown, lo, lo + t);
    var c := CountBetween(times, lo, lo + t);
    if c > 0 { Whole(c - 1, t, h.cooldown); }
  }

  lemma {:induction false} Whole(c: nat, t: nat, d: nat)
    requires d > 0 && c * d <= t
    ensures c <= t / d
  {
    var q := t / d;
    assert t == d * q + t % d;
    Multiple(d, c - q);
    assert d * (c - q) == c * d - d * q;
  }

  /** A run with two overlapping rotations of one node: both renew it, at the same time. */
  lemma {:induction false} OverlapRenewsTwice(h: Setup, now: int) returns (events: seq<Event>)
    requires h.count > 0 && now >= h.start - HOUR + h.cooldown
    ensures Monotone(events) && !OneAtATime(h, events, 0)
    ensures Renewals(h, events, 0) == [Renewal(0, 2, now, now), Renewal(1, 3, now, now)]
    ensures CountBetween(Times(Renewals(h, events, 0)), now, now) == 2
  {
    var a, b, c, d := Checked(0, 0, now), Checked(1, 0, now), Answered(0, true, now, now), Answered(1, true, now, now);
    events := [a, b, c, d];
    var one, two, three := [a], [a, b], [a, b, c];
    assert one[..0] == [] && two[..1] == one && three[..2] == two && events[..3] == three;
    BothChecked(h, now);
    assert !OneAtATime(h, two, 0);
    assert !OneAtATime(h, three, 0);
    hide OneAtATime;
    RenewalStep(h, three, 0);
    RenewalStep(h, events, 0);
    TicketStep(h, three);
    hide Tickets, Renewals;
    var r := [Renewal(0, 2, now, now), Renewal(1, 3, now, now)];
    assert Renewals(h, events, 0) == r;
    var times := Times(r);
    assert times == [now, now] && times[..1] == [now] && [now][..0] == [];
    assert CountBetween([now], now, now) == 1;
  }

  lemma {:induction false} BothChecked(h: Setup, now: int)
    requires h.count > 0 && now >= h.start - HOUR + h.cooldown
    ensures var one, two := [Checked(0, 0, now)], [Checked(0, 0, now), Checked(1, 0, now)];
            && Tickets(h, one) == map[0 := Ticket(0, 0, now)]
            && Tickets(h, two) == map[0 := Ticket(0, 0, now), 1 := Ticket(0, 1, now)] && Renewals(h, two, 0) == []
  {
    var one, two := [Checked(0, 0, now)], [Checked(0, 0, now), Checked(1, 0, now)];
    assert one[..0] == [] && two[..1] == one;
    assert Renewals(h, [], 0) == [] && Tickets(h, []) == map[];
    RenewalStep(h, one, 0);
    RenewalStep(h, two, 0);
  }

  /** Two that both check before either commits both renew, however close together. */
  method OverlappingRotations(pool: NodePool, i: nat, now: int, first: int, second: int)
    requires i < pool.nodes.Length && MayRotateNode(pool.nodes[i], pool.cooldown, now)
    requires now <= first <= second
    modifies pool.nodes
    ensures pool.nodes[i].stats.rotations == old(pool.nodes[i].stats.rotations) + 2
    ensures pool.nodes[i].lastNewnym == second
  {
    var may1 := pool.CheckRotation(i, now);
    var may2 := pool.CheckRotation(i, now);
    if may1 { pool.CommitRotation(i, first, first); }
    if may2 { pool.CommitRotation(i, second, second); }
  }

  // ---- Out of turn ----

  /** When the latest of node `i`'s rotations lets it be asked again. */
  function ReadyAgain(h: Setup, events: seq<Event>, i: nat): int {
    if events == [] then h.start - SECOND
    else
      var front, e := events[..|events| - 1], events[|events| - 1];
      if e.Answered? && |Renewals(h, events, i)| > |Renewals(h, front, i)|
      then e.readyFrom + h.cooldown else ReadyAgain(h, front, i)
  }

  /** A node is out of turn exactly for a cooldown after its latest new circuit: errors
      alone never take it out, and before its first circuit it is in. */
  lemma {:induction false} OutOfTurnIff(h: Setup, events: seq<Event>, i: nat, now: int)
    requires i < h.count
    ensures Ready(h.After(events).nodes[i], now) <==> ReadyAgain(h, events, i) <= now
    ensures Renewals(h, events, i) == [] && now >= h.start ==> Ready(h.After(events).nodes[i], now)
  {
    if events != [] {
      var front := events[..|events| - 1];
      OutOfTurnIff(h, front, i, now);
      CountersAreHistory(h, front);
    }
  }

  /** With a new circuit a node is out of turn, and may not be rotated again, for a cooldown
      from the moment it is written down. */
  lemma {:induction false} RestsAfterRenewal(h: Setup, events: seq<Event>, task: nat, renewed: int, readyFrom: int,
          now: int)
    requires task in h.After(events).open
    ensures h.After(events).open[task] < h.count
    ensures var n := h.After(events + [Answered(task, true, renewed, readyFrom)]).nodes[h.After(events).open[task]];
            && (Ready(n, now) <==> now - readyFrom >= h.cooldown)
            && (h.cooldown > 0 ==> (MayRotateNode(n, h.cooldown, now) <==> now - renewed >= h.cooldown))
  {
    var all := events + [Answered(task, true, renewed, readyFrom)];
    assert all[..|all| - 1] == events;
    CountersAreHistory(h, events);
  }
}
