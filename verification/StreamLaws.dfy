/** What the client of a resumed response can rely on, and where it cannot. Assumed of
    the network: every upstream serves the same entity, a 206 starts at the requested
    offset, a body yields nothing after a break. */
module StreamLaws {
  import opened Prelude
  import opened Wire
  import opened Plan
  import opened Stream
  import Health

  /** A body of the resource that starts at byte `start`, broken or not. */
  ghost predicate HonestBody(resource: seq<byte>, start: nat, body: seq<Piece>) {
    start <= |resource| && Fused(body) && Payload(body) <= resource[start..]
  }

  function StartOf(status: nat, n: nat): nat { if status == 206 then n else 0 }

  ghost predicate HonestNet(resource: seq<byte>, net: (string, nat) -> RecoveryReply) {
    forall url, n: nat :: n <= |resource| && Opens(net(url, n)) ==>
      HonestBody(resource, StartOf(net(url, n).status, n), net(url, n).body)
  }

  /** How many bytes of the resource a chain of sources reaches: a full body counts from
      the beginning, a partial one from where the last one stopped. */
  function HighWater(used: seq<Source>): nat {
    if used == [] then 0
    else
      var h, n := HighWater(used[..|used| - 1]), |Payload(used[|used| - 1].body)|;
      if |used| == 1 || used[|used| - 1].status == 200 then Max(h, n) else h + n
  }

  // ---- Splicing is exact ----

  function Beyond(s: seq<byte>, n: nat): seq<byte> { if |s| > n then s[n..] else [] }

  lemma BeyondSum(a: seq<byte>, b: seq<byte>, n: nat)
    ensures Beyond(a + b, n) == if |a| <= n then Beyond(b, n - |a|) else a[n..] + b
  {
  }

  lemma {:induction false} HeadAndRest(body: seq<Piece>)
    requires body != [] && Fused(body)
    ensures Fused(body[1..])
    ensures Clean(body) <==> body[0].Data? && Clean(body[1..])
    ensures body[0].Broken? ==> |body| == 1 && Clean(body[1..])
  {
    var rest := body[1..];
    assert body == [body[0]] + rest;
    forall i | 0 <= i < |rest| - 1 ensures rest[i].Data? { assert body[i + 1].Data?; }
    assert forall p :: p in body <==> p == body[0] || p in rest;
  }

  /** The skip loop drops exactly the bytes already delivered, however the body is chunked. */
  lemma {:induction false} SkipIsExact(total: nat, skipped: nat, body: seq<Piece>)
    requires skipped <= total && Fused(body)
    ensures Skip(total, skipped, body).0 + Payload(Skip(total, skipped, body).1)
              == Beyond(Payload(body), total - skipped)
    ensures Clean(body) ==> Clean(Skip(total, skipped, body).1)
    ensures !Clean(body) && Clean(Skip(total, skipped, body).1) ==> |Payload(body)| <= total - skipped
    decreases |body|
  {
    hide Clean, Fused, Beyond;
    var n := total - skipped;
    var r := Skip(total, skipped, body);
    if n == 0 || body == [] {
      assert r == ([], body);
      hide Skip;
      BeyondEnds(Payload(body), n);
    } else {
      HeadAndRest(body);
      var rest := body[1..];
      if body[0].Broken? {
        assert r == ([], rest) && Payload(body) == [] && Payload(rest) == [];
        hide Skip, Payload;
        BeyondEnds([], n);
      } else {
        var c := body[0].bytes;
        assert Payload(body) == c + Payload(rest);
        BeyondSum(c, Payload(rest), n);
        if |c| <= n {
          SkipIsExact(total, skipped + |c|, rest);
        } else {
          assert r == (c[n..], rest);
        }
      }
    }
  }

  lemma BeyondEnds(s: seq<byte>, n: nat)
    ensures n == 0 || s == [] ==> Beyond(s, n) == s
    ensures [] + s == s
  {
  }

  /** One more source of the same resource leaves exactly a prefix of it delivered. */
  lemma {:induction false} SpliceIsExact(resource: seq<byte>, n: nat, src: Source)
    requires n <= |resource| && src.status in {200, 206} && HonestBody(resource, StartOf(src.status, n), src.body)
    ensures var m := if src.status == 200 then Max(n, |Payload(src.body)|) else n + |Payload(src.body)|;
            m <= |resource| && resource[..n] + Adds(n, src) == resource[..m]
  {
    hide Skip, Payload;
    var p := Payload(src.body);
    if src.status == 200 {
      SkipIsExact(n, 0, src.body);
      PrefixGrows(resource, n, p);
    } else {
      assert Adds(n, src) == [] + p == p;
      assert resource[..n] + p == resource[..n + |p|];
    }
  }

  lemma {:induction false} PrefixGrows(resource: seq<byte>, n: nat, p: seq<byte>)
    requires n <= |resource| && p <= resource[0..]
    ensures resource[..n] + Beyond(p, n) == resource[..Max(n, |p|)]
  {
    assert resource[0..] == resource;
    if |p| > n { assert resource[..n] + p[n..] == resource[..|p|]; }
  }

  /** After any number of its sources, a chain has delivered exactly the bytes up to its high-water mark. */
  lemma {:induction false} ChainIsExact(resource: seq<byte>, used: seq<Source>, k: nat, first: Source, asks: seq<Ask>,
          net: (string, nat) -> RecoveryReply)
    requires Chained(used, first, asks, net) && HonestNet(resource, net) && HonestBody(resource, 0, first.body)
    requires k <= |used|
    ensures HighWater(used[..k]) <= |resource| && Delivered(used[..k]) == resource[..HighWater(used[..k])]
  {
    if k > 0 {
      var front, src := used[..k - 1], used[k - 1];
      assert used[..k][..k - 1] == front;
      ChainIsExact(resource, used, k - 1, first, asks, net);
      if k == 1 {
        FirstAdds(first);
        assert Delivered(used[..1]) == [] + Payload(first.body) == Payload(first.body);
        assert resource[0..] == resource;
      } else {
        assert TookOver(used, k - 1, asks, net);
        hide Payload, Breaks, Adds, HonestBody;
        SpliceIsExact(resource, HighWater(front), src);
      }
    }
  }

  lemma {:induction false} FirstAdds(first: Source)
    ensures Adds(0, first) == Payload(first.body) && Joined(0, first) == ([], first.body)
  {
    assert [] + Payload(first.body) == Payload(first.body);
  }

  /** For any chunking, any breaks, any mix of full and partial recoveries and any moment at
      which the client leaves: what it got is a prefix of the resource, nothing repeated,
      skipped or reordered; and unless it left, it got everything up to the high-water mark.
      Every recovery asked for the bytes right after the ones delivered. */
  lemma {:induction false} ClientGetsPrefix(resource: seq<byte>, cfg: RouteCfg, first: Source, canRecover: bool,
          tried0: set<string>, o: Outside, universe: set<string>, delivered: seq<byte>, used: seq<Source>,
          asks: seq<Ask>, log: seq<Record>, end: StreamEnd)
    requires GoodResponse(cfg, first, canRecover, tried0, o, universe, delivered, used, asks, log, end)
    requires HonestNet(resource, o.net) && HonestBody(resource, 0, first.body)
    ensures delivered <= resource && |delivered| <= HighWater(used)
    ensures !end.ClientGone? ==> HighWater(used) <= |resource| && delivered == resource[..HighWater(used)]
    ensures forall a :: a in asks ==> a.round < |used| && a.from == HighWater(used[..a.round + 1])
  {
    hide Delivered, HighWater, Breaks, TookOver;
    assert used[..|used|] == used;
    ChainIsExact(resource, used, |used|, first, asks, o.net);
    forall a | a in asks ensures a.from == HighWater(used[..a.round + 1]) {
      ChainIsExact(resource, used, a.round + 1, first, asks, o.net);
    }
  }

  /** Recovery ends: over the life of a response no proxy is asked twice, none that
      dispatch tried, so there are at most as many recoveries as untried proxies. */
  lemma {:induction false} RecoveryIsBounded(cfg: RouteCfg, first: Source, canRecover: bool, tried0: set<string>,
          o: Outside, universe: set<string>, delivered: seq<byte>, used: seq<Source>, asks: seq<Ask>, log: seq<Record>,
          end: StreamEnd)
    requires GoodResponse(cfg, first, canRecover, tried0, o, universe, delivered, used, asks, log, end)
    ensures |asks| <= |universe - tried0| && |used| - 1 <= |universe - tried0|
    ensures forall i, j :: 0 <= i < j < |asks| ==> asks[i].url != asks[j].url
    ensures first.url in tried0 ==> forall a :: a in asks ==> a.url != first.url
    ensures forall i, j :: 0 < i < j < |used| ==> used[i].url != used[j].url
  {
    hide Delivered, Breaks, Outcomes, TookOver;
    var urls := AskedUrls(asks);
    NoDupBound(urls, universe - tried0);
    forall i, j | 0 <= i < j < |asks| ensures asks[i].url != asks[j].url { assert urls[i] != urls[j]; }
    forall a | a in asks ensures a.url in Elems(urls) {
      var i :| 0 <= i < |asks| && asks[i] == a;
      assert urls[i] == a.url;
    }
    forall i, j | 0 < i < j < |used| ensures used[i].url != used[j].url {
      assert TookOver(used, i, asks, o.net) && TookOver(used, j, asks, o.net);
      DistinctRounds(used, asks, o.net, i, j);
    }
    forall i | 0 < i < |used| ensures used[i].url in universe - tried0 {
      assert TookOver(used, i, asks, o.net);
      WasAsked(used, asks, o.net, i);
    }
    FewSources(used, universe - tried0);
  }

  lemma WasAsked(used: seq<Source>, asks: seq<Ask>, net: (string, nat) -> RecoveryReply, i: nat)
    requires 0 < i < |used| && TookOver(used, i, asks, net)
    ensures exists a :: a in asks && a.url == used[i].url
  {
    hide Delivered, Breaks;
  }

  lemma {:induction false} FewSources(used: seq<Source>, bound: set<string>)
    requires used != []
    requires forall i, j :: 0 < i < j < |used| ==> used[i].url != used[j].url
    requires forall i :: 0 < i < |used| ==> used[i].url in bound
    ensures |used| - 1 <= |bound|
  {
    var taken := seq(|used| - 1, i requires 0 <= i < |used| - 1 => used[i + 1].url);
    NoDupBound(taken, bound);
  }

  lemma {:induction false} DistinctRounds(used: seq<Source>, asks: seq<Ask>, net: (string, nat) -> RecoveryReply,
          i: nat, j: nat)
    requires 0 < i < j < |used| && TookOver(used, i, asks, net) && TookOver(used, j, asks, net)
             && NoDup(AskedUrls(asks))
    ensures used[i].url != used[j].url
  {
    hide Delivered, Breaks;
    var a := Ask(used[i].url, |Delivered(used[..i])|, i - 1);
    var b := Ask(used[j].url, |Delivered(used[..j])|, j - 1);
    var x :| 0 <= x < |asks| && asks[x] == a;
    var y :| 0 <= y < |asks| && asks[y] == b;
    assert x != y;
    assert AskedUrls(asks)[x] == used[i].url && AskedUrls(asks)[y] == used[j].url;
  }

  // ---- Completeness ----

  /** A body that does not break is whole. */
  ghost predicate Whole(resource: seq<byte>, start: nat, body: seq<Piece>) {
    Clean(body) ==> start <= |resource| && Payload(body) == resource[start..]
  }

  ghost predicate WholeNet(resource: seq<byte>, net: (string, nat) -> RecoveryReply) {
    forall url, n: nat :: n <= |resource| && Opens(net(url, n)) ==>
      Whole(resource, StartOf(net(url, n).status, n), net(url, n).body)
  }

  /** A response that just ends is complete exactly when the last body did not break, or
      everything had been delivered before it was joined: a break inside the skip loop is
      swallowed. */
  lemma {:induction false} EndedIsCompleteIff(resource: seq<byte>, cfg: RouteCfg, first: Source, canRecover: bool,
          tried0: set<string>, o: Outside, universe: set<string>, delivered: seq<byte>, used: seq<Source>,
          asks: seq<Ask>, log: seq<Record>)
    requires GoodResponse(cfg, first, canRecover, tried0, o, universe, delivered, used, asks, log, Ended)
    requires HonestNet(resource, o.net) && HonestBody(resource, 0, first.body)
    requires WholeNet(resource, o.net) && Whole(resource, 0, first.body)
    ensures delivered == resource <==> Clean(used[|used| - 1].body) || HighWater(used[..|used| - 1]) == |resource|
  {
    var k := |used| - 1;
    var n, src := HighWater(used[..k]), used[k];
    assert used[..|used|] == used;
    ChainIsExact(resource, used, |used|, first, asks, o.net);
    ChainIsExact(resource, used, k, first, asks, o.net);
    if k == 0 {
      assert used[..0] == [];
      FirstAdds(first);
      assert resource[0..] == resource;
    } else {
      assert TookOver(used, k, asks, o.net);
      LastJoin(resource, n, src);
    }
  }

  /** What the last source reaches, if the response went on to its end. */
  lemma {:induction false} LastJoin(resource: seq<byte>, n: nat, src: Source)
    requires n <= |resource| && src.status in {200, 206}
    requires HonestBody(resource, StartOf(src.status, n), src.body) && Whole(resource, StartOf(src.status, n), src.body)
    requires Clean(Joined(n, src).1)
    ensures var m := if src.status == 200 then Max(n, |Payload(src.body)|) else n + |Payload(src.body)|;
            if Clean(src.body) then m == |resource| else m == n
  {
    SkipIsExact(n, 0, src.body);
  }

  /** The response gives up quietly when nobody is left: complete only by luck. */
  lemma {:induction false} GaveUpIsCompleteIff(resource: seq<byte>, cfg: RouteCfg, first: Source, canRecover: bool,
          tried0: set<string>, o: Outside, universe: set<string>, delivered: seq<byte>, used: seq<Source>,
          asks: seq<Ask>, log: seq<Record>, end: StreamEnd)
    requires GoodResponse(cfg, first, canRecover, tried0, o, universe, delivered, used, asks, log, end)
    requires end.GaveUp? || end.BreakReported?
    requires HonestNet(resource, o.net) && HonestBody(resource, 0, first.body)
    ensures delivered == resource <==> HighWater(used) == |resource|
  {
    ClientGetsPrefix(resource, cfg, first, canRecover, tried0, o, universe, delivered, used, asks, log, end);
    assert resource[..|resource|] == resource;
  }

  /** A run on an honest network that ends like a complete one with two of five bytes: the
      first body breaks after two, the second one byte into what is to be skipped. */
  method TruncatedWithoutError(cfg: RouteCfg) returns (delivered: seq<byte>, end: StreamEnd)
    ensures end.Ended? && delivered == [1, 2]
    ensures var resource := [1, 2, 3, 4, 5];
            && HonestNet(resource, SecondBreaksEarly) && HonestBody(resource, 0, [Data([1, 2]), Broken])
            && WholeNet(resource, SecondBreaksEarly) && Whole(resource, 0, [Data([1, 2]), Broken])
  {
    var first := Source("a", 200, [Data([1, 2]), Broken]);
    var look := Look([Health.FreshEntry("b", [])], 0);
    var o := Outside(_ => look, SecondBreaksEarly, _ => true, _ => false);
    assert UrlsAt(look) <= {"b"};
    BreakerIsHonest();
    var used, asks, log;
    delivered, used, asks, log, end := Pump(cfg, first, true, {"a"}, o, {"b"});
    OneTakeover(cfg, first, o, delivered, used, asks, log, end);
  }

  lemma {:induction false} BreakerIsHonest()
    ensures var resource := [1, 2, 3, 4, 5];
            && HonestNet(resource, SecondBreaksEarly) && HonestBody(resource, 0, [Data([1, 2]), Broken])
            && WholeNet(resource, SecondBreaksEarly) && Whole(resource, 0, [Data([1, 2]), Broken])
  {
    var resource := [1, 2, 3, 4, 5];
    OneChunk(resource, [1]);
    OneChunk(resource, [1, 2]);
  }

  lemma {:induction false} OneChunk(resource: seq<byte>, c: seq<byte>)
    requires c <= resource
    ensures HonestBody(resource, 0, [Data(c), Broken]) && Whole(resource, 0, [Data(c), Broken])
  {
    var body := [Data(c), Broken];
    assert body[1] == Broken && body[1] in body && !Clean(body);
    assert body[1..] == [Broken];
    assert Payload(body) == c + [] == c;
    assert resource[0..] == resource;
  }

  lemma {:induction false} OneTakeover(cfg: RouteCfg, first: Source, o: Outside, delivered: seq<byte>,
          used: seq<Source>, asks: seq<Ask>, log: seq<Record>, end: StreamEnd)
    requires first == Source("a", 200, [Data([1, 2]), Broken])
    requires o.net == SecondBreaksEarly && o.looks(0) == Look([Health.FreshEntry("b", [])], 0)
             && forall i: nat :: o.open(i)
    requires GoodResponse(cfg, first, true, {"a"}, o, {"b"}, delivered, used, asks, log, end)
    ensures end.Ended? && delivered == [1, 2]
  {
    ListensThroughout(used, asks, o.open, delivered, end);
    hide Heard, Outcomes, Breaks, Delivered, LogOf, CountResumed, AskedOnce, TookOver, AsksFromEnd, Exhausted,
      SecondBreaksEarly, AskedUrls, UrlsAt, Elems;
    FirstBreaks(first);
    if |used| > 2 {
      assert TookOver(used, 2, asks, o.net);
      BrokeBefore(used, 2, asks, o.net);
    }
    if |used| > 1 {
      assert TookOver(used, 1, asks, o.net);
      SecondSource(used, asks, o.net);
      SecondIsSwallowed(used[..2], first);
      assert |used| == 2 && used == used[..2];
    } else {
      assert used == [first];
      if end.GaveUp? { LiveProxyAnswers(cfg, o, used, asks); }
    }
  }

  lemma {:induction false} FirstBreaks(first: Source)
    requires first == Source("a", 200, [Data([1, 2]), Broken])
    ensures Delivered([first]) == [1, 2] && Breaks([first])
  {
    FirstAdds(first);
    assert [first][..0] == [];
    assert Broken in first.body && first.body[1..] == [Broken];
  }

  lemma SecondSource(used: seq<Source>, asks: seq<Ask>, net: (string, nat) -> RecoveryReply)
    requires |used| > 1 && TookOver(used, 1, asks, net) && net == SecondBreaksEarly
    ensures used[1].status == 200 && used[1].body == [Data([1]), Broken]
  {
    hide Delivered, Breaks;
  }

  /** A client that takes every send has not left. */
  lemma ListensThroughout(used: seq<Source>, asks: seq<Ask>, open: nat -> bool, delivered: seq<byte>, end: StreamEnd)
    requires used != [] && Heard(used, asks, open, delivered, end) && forall i: nat :: open(i)
    ensures !end.ClientGone?
  {
    hide Sends, Flat, RoundsBelow;
  }

  lemma BrokeBefore(used: seq<Source>, k: nat, asks: seq<Ask>, net: (string, nat) -> RecoveryReply)
    requires 0 < k < |used| && TookOver(used, k, asks, net)
    ensures Breaks(used[..k])
  {
  }

  lemma {:induction false} SecondIsSwallowed(used: seq<Source>, first: Source)
    requires |used| == 2 && used[0] == first && used[1].status == 200 && used[1].body == [Data([1]), Broken]
    requires Delivered([first]) == [1, 2]
    ensures Delivered(used) == [1, 2] && !Breaks(used)
  {
    assert used[..1] == [first];
    var body := used[1].body;
    assert body[1..] == [Broken] && body[1..][1..] == [];
    assert Skip(2, 0, body) == Skip(2, 1, body[1..]) == ([], []);
  }

  /** With a live untried proxy that takes over, the response does not give up at once. */
  lemma {:induction false} LiveProxyAnswers(cfg: RouteCfg, o: Outside, used: seq<Source>, asks: seq<Ask>)
    requires o.net == SecondBreaksEarly && o.looks(0) == Look([Health.FreshEntry("b", [])], 0) && used != []
    requires Outcomes(used, asks, o.net) && Exhausted(cfg, o.looks(0), 0, {"a"} + Elems(AskedUrls(asks)))
    ensures |used| > 1
  {
    var e := o.looks(0).list[0];
    assert !Dead(EntryTier(e, cfg, 0));
    var i :| 0 <= i < |asks| && AskedUrls(asks)[i] == "b";
    assert asks[i] in asks && Opens(o.net(asks[i].url, asks[i].from));
  }

  function SecondBreaksEarly(url: string, n: nat): RecoveryReply { Opened(200, [Data([1]), Broken], 0) }

  // ---- What a takeover does to the proxies ----

  /** Neither breaking nor being asked to take over is a use, an error of the proxy, or touches
      its bans. Who takes over gets a success, measured; who does not, one more loss on the
      route, measured only if it answered. */
  lemma {:induction false} TakeoverMoves(e: Health.EntryView, cfg: RouteCfg, url: string, r: RecoveryReply)
    ensures var f, v := Health.Apply(e, ReplyRecord(cfg, url, r).op), Health.RouteOf(e, cfg.id);
            var w := Health.RouteOf(f, cfg.id);
            && f.usage == e.usage && f.err == e.err && f.fatal == e.fatal && w.bannedUntil == v.bannedUntil
            && if r.Opened? && (r.status == 206 || r.status == 200) then
                 && f.ok == e.ok + 1 && w.ok == v.ok + 1 && w.err == v.err
                 && w.failures == 0 && w.avg == Health.Blend(v.avg, r.elapsed)
               else
                 && f.ok == e.ok && w.ok == v.ok && w.err == v.err + 1 && w.failures == v.failures + 1
                 && w.avg == if r.Opened? then Health.Blend(v.avg, Max(r.elapsed, cfg.slowMs + 1)) else v.avg
  {
    hide Health.Blend;
  }

  // ---- What is written down ----

  /** The loss of the proxy that broke at break `k`, if the pool still has it. */
  predicate LostAt(cfg: RouteCfg, o: Outside, used: seq<Source>, k: nat, rec: Record) {
    k < |used| && o.known(k) && rec == Record(used[k].url, Health.StreamBroke(cfg.id, None, cfg.slowMs))
  }

  /** What came of the request `a` made after a break. */
  predicate CameOf(cfg: RouteCfg, o: Outside, used: seq<Source>, a: Ask, rec: Record) {
    a.round < |used| && rec == ReplyRecord(cfg, a.url, o.net(a.url, |Delivered(used[..a.round + 1])|))
  }

  ghost predicate Lost(cfg: RouteCfg, o: Outside, used: seq<Source>, n: nat, rec: Record) {
    exists k: nat :: k < n && LostAt(cfg, o, used, k, rec)
  }

  ghost predicate Came(cfg: RouteCfg, o: Outside, used: seq<Source>, asks: seq<Ask>, n: nat, rec: Record) {
    exists a :: a in asks && a.round < n && CameOf(cfg, o, used, a, rec)
  }

  /** The first `n` breaks leave a loss of each proxy that broke and is still in the pool and
      the outcome of each request made to take over, and nothing else. */
  lemma {:induction false} OnTheBooksIff(cfg: RouteCfg, o: Outside, used: seq<Source>, asks: seq<Ask>, n: nat,
          rec: Record)
    requires n <= |used|
    ensures rec in LogOf(cfg, o, used, asks, n) <==> Lost(cfg, o, used, n, rec) || Came(cfg, o, used, asks, n, rec)
  {
    hide LogOf, Lost, LostAt, Came, CameOf, ReplyRecord, ReplyRecords, UrlsAsked, Delivered;
    if n == 0 {
      NothingYet(cfg, o, used, asks, rec);
    } else {
      OnTheBooksIff(cfg, o, used, asks, n - 1, rec);
      BreakOnTheBooks(cfg, o, used, asks, n, rec);
      LostStep(cfg, o, used, n, rec);
      CameStep(cfg, o, used, asks, n, rec);
    }
  }

  lemma NothingYet(cfg: RouteCfg, o: Outside, used: seq<Source>, asks: seq<Ask>, rec: Record)
    ensures LogOf(cfg, o, used, asks, 0) == [] && !Lost(cfg, o, used, 0, rec) && !Came(cfg, o, used, asks, 0, rec)
  {
  }

  lemma {:induction false} BreakOnTheBooks(cfg: RouteCfg, o: Outside, used: seq<Source>, asks: seq<Ask>, n: nat,
          rec: Record)
    requires 0 < n <= |used|
    ensures rec in LogOf(cfg, o, used, asks, n) <==>
              || rec in LogOf(cfg, o, used, asks, n - 1)
              || LostAt(cfg, o, used, n - 1, rec)
              || rec in ReplyRecords(cfg, UrlsAsked(asks, n - 1), |Delivered(used[..n])|, o.net)
  {
    hide LogOf, ReplyRecord, ReplyRecords, UrlsAsked, Delivered;
    LogStep(cfg, o, used, asks, n);
  }

  lemma {:induction false} LostStep(cfg: RouteCfg, o: Outside, used: seq<Source>, n: nat, rec: Record)
    requires 0 < n <= |used|
    ensures Lost(cfg, o, used, n, rec) <==> Lost(cfg, o, used, n - 1, rec) || LostAt(cfg, o, used, n - 1, rec)
  {
  }

  lemma {:induction false} CameStep(cfg: RouteCfg, o: Outside, used: seq<Source>, asks: seq<Ask>, n: nat, rec: Record)
    requires 0 < n <= |used|
    ensures Came(cfg, o, used, asks, n, rec) <==>
              || Came(cfg, o, used, asks, n - 1, rec)
              || rec in ReplyRecords(cfg, UrlsAsked(asks, n - 1), |Delivered(used[..n])|, o.net)
  {
    var total, urls := |Delivered(used[..n])|, UrlsAsked(asks, n - 1);
    RecordedIff(cfg, urls, total, o.net, rec);
    AskedInIff(asks, n - 1);
    hide ReplyRecords, UrlsAsked, ReplyRecord, Delivered;
    forall u | u in urls && rec == ReplyRecord(cfg, u, o.net(u, total)) ensures Came(cfg, o, used, asks, n, rec) {
      var a :| a in asks && AskedIn(a, n - 1, u);
      assert CameOf(cfg, o, used, a, rec);
    }
    if a :| a in asks && a.round == n - 1 && CameOf(cfg, o, used, a, rec) {
      assert AskedIn(a, n - 1, a.url);
    }
  }

  lemma LogStep(cfg: RouteCfg, o: Outside, used: seq<Source>, asks: seq<Ask>, n: nat)
    requires 0 < n <= |used|
    ensures LogOf(cfg, o, used, asks, n) ==
              LogOf(cfg, o, used, asks, n - 1)
              + (if o.known(n - 1) then [Record(used[n - 1].url, Health.StreamBroke(cfg.id, None, cfg.slowMs))] else [])
              + ReplyRecords(cfg, UrlsAsked(asks, n - 1), |Delivered(used[..n])|, o.net)
  {
  }

  lemma {:induction false} RecordedIff(cfg: RouteCfg, urls: seq<string>, total: nat,
          net: (string, nat) -> RecoveryReply, rec: Record)
    ensures |ReplyRecords(cfg, urls, total, net)| == |urls|
    ensures rec in ReplyRecords(cfg, urls, total, net) <==>
              exists u :: u in urls && rec == ReplyRecord(cfg, u, net(u, total))
  {
    if urls != [] {
      RecordedIff(cfg, urls[1..], total, net, rec);
      assert urls == [urls[0]] + urls[1..];
    }
  }

  predicate AskedIn(a: Ask, round: nat, url: string) { a.round == round && a.url == url }

  lemma {:induction false} AskedInIff(asks: seq<Ask>, round: nat)
    ensures forall u :: u in UrlsAsked(asks, round) <==> exists a :: a in asks && AskedIn(a, round, u)
  {
    if asks != [] {
      var front, last := asks[..|asks| - 1], asks[|asks| - 1];
      AskedInIff(front, round);
      assert asks == front + [last];
      forall u ensures u in UrlsAsked(asks, round) <==> exists a :: a in asks && AskedIn(a, round, u) {
        if AskedIn(last, round, u) { assert last in asks; }
      }
    }
  }

  function AsksBefore(asks: seq<Ask>, n: nat): nat { |set i: nat | i < |asks| && asks[i].round < n| }

  /** And each of them once: there are as many records as breaks of a proxy still known and
      requests. */
  lemma {:induction false} BooksCount(cfg: RouteCfg, o: Outside, used: seq<Source>, asks: seq<Ask>, n: nat)
    requires n <= |used|
    ensures |LogOf(cfg, o, used, asks, n)| == |set k: nat | k < n && o.known(k)| + AsksBefore(asks, n)
  {
    hide LogOf, AsksBefore;
    KnownStep(o.known, n);
    if n == 0 {
      NothingCounted(cfg, o, used, asks);
    } else {
      BooksCount(cfg, o, used, asks, n - 1);
      BreakCounted(cfg, o, used, asks, n);
      AskedInRound(asks, n - 1);
    }
  }

  lemma NothingCounted(cfg: RouteCfg, o: Outside, used: seq<Source>, asks: seq<Ask>)
    ensures LogOf(cfg, o, used, asks, 0) == [] && AsksBefore(asks, 0) == 0
  {
    assert (set i: nat | i < |asks| && asks[i].round < 0) == {};
  }

  lemma {:induction false} BreakCounted(cfg: RouteCfg, o: Outside, used: seq<Source>, asks: seq<Ask>, n: nat)
    requires 0 < n <= |used|
    ensures |LogOf(cfg, o, used, asks, n)| ==
              |LogOf(cfg, o, used, asks, n - 1)| + (if o.known(n - 1) then 1 else 0) + |UrlsAsked(asks, n - 1)|
  {
    hide LogOf, ReplyRecord, ReplyRecords, UrlsAsked, Delivered;
    LogStep(cfg, o, used, asks, n);
    RecordedIff(cfg, UrlsAsked(asks, n - 1), |Delivered(used[..n])|, o.net,
                Record("", Health.StreamBroke(cfg.id, None, cfg.slowMs)));
  }

  lemma {:induction false} KnownStep(known: nat -> bool, n: nat)
    ensures n == 0 ==> (set k: nat | k < n && known(k)) == {}
    ensures n > 0 ==> |set k: nat | k < n && known(k)|
                      == |set k: nat | k < n - 1 && known(k)| + if known(n - 1) then 1 else 0
  {
    if n > 0 {
      var before := set k: nat | k < n - 1 && known(k);
      assert (set k: nat | k < n && known(k)) == before + if known(n - 1) then {n - 1} else {};
    }
  }

  lemma {:induction false} AskedInRound(asks: seq<Ask>, n: nat)
    ensures AsksBefore(asks, n + 1) == AsksBefore(asks, n) + |UrlsAsked(asks, n)|
  {
    if asks != [] {
      var front, last := asks[..|asks| - 1], asks[|asks| - 1];
      AskedInRound(front, n);
      OneAskMore(front, last, n);
      OneAskMore(front, last, n + 1);
      assert asks == front + [last];
    }
  }

  lemma {:induction false} OneAskMore(asks: seq<Ask>, a: Ask, n: nat)
    ensures AsksBefore(asks + [a], n) == AsksBefore(asks, n) + if a.round < n then 1 else 0
  {
    var more := asks + [a];
    var was := set i: nat | i < |asks| && asks[i].round < n;
    assert (set i: nat | i < |more| && more[i].round < n) == was + if a.round < n then {|asks|} else {};
  }
}
