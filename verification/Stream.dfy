/** Piping an upstream body to the client and resuming it elsewhere when it breaks
    (`stream.rs`). Upstream replies, chunking, breaks, proxy health and the client's
    patience are arbitrary. */
module Stream {
  import opened Prelude
  import opened Wire
  import opened Plan
  import Health

  /** A body the response was fed from: the original one, or a recovery. */
  datatype Source = Source(url: string, status: nat, body: seq<Piece>)

  /** What a proxy answers to `bytes=N-`. */
  datatype RecoveryReply = Opened(status: nat, body: seq<Piece>, elapsed: nat) | Refused | TooSlow

  /** How the response ends: the stream ran dry, the client left, the break was passed on,
      or no proxy took over and the response was just closed. */
  datatype StreamEnd = Ended | ClientGone | BreakReported | GaveUp

  /** The pool at one break: each proxy as it is when its turn comes. */
  datatype Look = Look(list: seq<Health.EntryView>, now: nat)

  /** Everything the response does not decide itself. `net(url, n)` is the reply to a
      request for the bytes from `n` on, `open(i)` whether send number `i` succeeds,
      `known(k)` whether the proxy that broke at break `k` is still in the pool. */
  datatype Outside = Outside(
    looks: nat -> Look, net: (string, nat) -> RecoveryReply, open: nat -> bool, known: nat -> bool)

  datatype Record = Record(url: string, op: Health.HealthOp)

  // ---- Splicing ----

  /** The skip loop on a full body: what it passes on of the chunk that straddles `total`,
      and what is left of the body. A break or the end stops it early. */
  function Skip(total: nat, skipped: nat, body: seq<Piece>): (seq<byte>, seq<Piece>)
    decreases |body|
  {
    if skipped >= total || body == [] then ([], body)
    else if body[0].Broken? then ([], body[1..])
    else if |body[0].bytes| <= total - skipped then Skip(total, skipped + |body[0].bytes|, body[1..])
    else (body[0].bytes[total - skipped..], body[1..])
  }

  /** How a source continues a response of `total` bytes: a full body is skipped into, any other taken as is. */
  function Joined(total: nat, src: Source): (seq<byte>, seq<Piece>) {
    if src.status == 200 then Skip(total, 0, src.body) else ([], src.body)
  }

  function Adds(total: nat, src: Source): seq<byte> { Joined(total, src).0 + Payload(Joined(total, src).1) }

  /** The bytes a response sends that is fed by `used`, one after the other. */
  function Delivered(used: seq<Source>): seq<byte> {
    if used == [] then []
    else
      var before := Delivered(used[..|used| - 1]);
      before + Adds(|before|, used[|used| - 1])
  }

  /** The chunks a body yields up to its first break. */
  function Chunks(body: seq<Piece>): seq<seq<byte>> {
    if body == [] || body[0].Broken? then [] else [body[0].bytes] + Chunks(body[1..])
  }

  /** What the response sends of a source: the end of the chunk that straddles `total`, if
      any, then every further chunk by itself. */
  function SendsOf(total: nat, src: Source): seq<seq<byte>> {
    var (keep, rest) := Joined(total, src);
    (if keep == [] then [] else [keep]) + Chunks(rest)
  }

  /** All that a response fed by `used` sends if the client listens. */
  function Sends(used: seq<Source>): seq<seq<byte>> {
    if used == [] then []
    else
      var front := used[..|used| - 1];
      Sends(front) + SendsOf(|Delivered(front)|, used[|used| - 1])
  }

  function Flat(sends: seq<seq<byte>>): seq<byte> {
    if sends == [] then [] else Flat(sends[..|sends| - 1]) + sends[|sends| - 1]
  }

  lemma {:induction false} FlatSum(a: seq<seq<byte>>, b: seq<seq<byte>>)
    ensures Flat(a + b) == Flat(a) + Flat(b)
  {
    if b == [] {
      assert a + b == a;
    } else {
      var front, last := b[..|b| - 1], b[|b| - 1];
      assert b == front + [last] && a + b == a + front + [last];
      FlatSum(a, front);
      hide Flat;
      FlatMore(a + front, last);
      FlatMore(front, last);
      assert Flat(a) + Flat(front) + last == Flat(a) + (Flat(front) + last);
    }
  }

  lemma FlatMore(s: seq<seq<byte>>, c: seq<byte>)
    ensures Flat(s + [c]) == Flat(s) + c
  {
    assert (s + [c])[..|s|] == s;
  }

  lemma {:induction false} FlatChunks(body: seq<Piece>)
    ensures Flat(Chunks(body)) == Payload(body)
  {
    if body != [] && body[0].Data? {
      var c := body[0].bytes;
      FlatChunks(body[1..]);
      FlatSum([c], Chunks(body[1..]));
      FlatOne(c);
    }
  }

  lemma FlatOne(c: seq<byte>)
    ensures Flat([c]) == c
  {
    assert [c][..0] == [];
  }

  /** Put together, the sends are the bytes. */
  lemma {:induction false} SendsAreDelivered(used: seq<Source>)
    ensures Flat(Sends(used)) == Delivered(used)
  {
    if used != [] {
      var front, src := used[..|used| - 1], used[|used| - 1];
      var n := |Delivered(front)|;
      var keep := Joined(n, src).0;
      SendsAreDelivered(front);
      hide Joined, Chunks, Payload;
      FlatSum(Sends(front), SendsOf(n, src));
      FlatSum(if keep == [] then [] else [keep], Chunks(Joined(n, src).1));
      FlatChunks(Joined(n, src).1);
      FlatOne(keep);
    }
  }

  /** How many of `n` sends go through before the first that fails. */
  function Through(open: nat -> bool, n: nat): (k: nat)
    ensures k <= n && (forall i: nat :: i < k ==> open(i)) && (k < n ==> !open(k))
  {
    if n == 0 then 0
    else
      var k := Through(open, n - 1);
      if k == n - 1 && open(k) then n else k
  }

  /** The client gets exactly the sends before the first that fails, and with that one the
      response ends: the source it belongs to is the last, and nobody was asked since. */
  ghost predicate Heard(used: seq<Source>, asks: seq<Ask>, open: nat -> bool, delivered: seq<byte>, end: StreamEnd)
    requires used != []
  {
    var sends := Sends(used);
    var n := Through(open, |sends|);
    && delivered == Flat(sends[..n]) && (end.ClientGone? <==> n < |sends|)
    && |Sends(used[..|used| - 1])| <= n
    && (!end.GaveUp? ==> RoundsBelow(asks, |used| - 1))
  }

  /** In the middle of a response: `made` went through, and `rest` is still to be sent of `used`. */
  ghost predicate Sending(used: seq<Source>, open: nat -> bool, delivered: seq<byte>, made: seq<seq<byte>>,
          rest: seq<seq<byte>>)
    requires used != []
  {
    && Sends(used) == made + rest && Flat(made) == delivered
    && (forall i: nat :: i < |made| ==> open(i)) && |Sends(used[..|used| - 1])| <= |made|
  }

  lemma {:induction false} HeardSoFar(used: seq<Source>, asks: seq<Ask>, open: nat -> bool, delivered: seq<byte>,
          end: StreamEnd, made: seq<seq<byte>>, rest: seq<seq<byte>>)
    requires used != [] && Sending(used, open, delivered, made, rest)
    requires if end.ClientGone? then rest != [] && !open(|made|) else rest == []
    requires !end.GaveUp? ==> RoundsBelow(asks, |used| - 1)
    ensures Heard(used, asks, open, delivered, end)
  {
    hide Sends, RoundsBelow, Flat;
    assert (made + rest)[..|made|] == made;
  }

  lemma {:induction false} MakeSend(used: seq<Source>, open: nat -> bool, delivered: seq<byte>, made: seq<seq<byte>>,
          c: seq<byte>, rest: seq<seq<byte>>)
    requires used != [] && Sending(used, open, delivered, made, [c] + rest) && open(|made|)
    ensures Sending(used, open, delivered + c, made + [c], rest)
  {
    hide Sends, Flat;
    assert made + ([c] + rest) == made + [c] + rest;
    FlatMore(made, c);
  }

  lemma {:induction false} SendsJoin(used: seq<Source>, open: nat -> bool, delivered: seq<byte>, made: seq<seq<byte>>,
          src: Source, keep: seq<byte>, stream: seq<Piece>)
    requires used != [] && Sending(used, open, delivered, made, [])
    requires (keep, stream) == Joined(|Delivered(used)|, src)
    ensures Sending(used + [src], open, delivered, made, if keep == [] then Chunks(stream) else [keep] + Chunks(stream))
  {
    hide Joined, Delivered, Chunks, Sends, Flat;
    SendsGrow(used, src, keep, stream);
    assert made + [] == made;
    if keep == [] {
      assert made + [] + Chunks(stream) == made + Chunks(stream);
    } else {
      assert made + [keep] + Chunks(stream) == made + ([keep] + Chunks(stream));
    }
  }

  /** One more source. */
  lemma {:induction false} SendsGrow(used: seq<Source>, src: Source, keep: seq<byte>, stream: seq<Piece>)
    requires (keep, stream) == Joined(|Delivered(used)|, src)
    ensures Sends(used + [src]) == Sends(used) + (if keep == [] then [] else [keep]) + Chunks(stream)
    ensures (used + [src])[..|used|] == used
  {
    assert (used + [src])[..|used|] == used;
    hide Joined, Delivered, Chunks;
  }

  /** The last source breaks after it was joined, so the response looks for another. */
  predicate Breaks(used: seq<Source>)
    requires used != []
  {
    !Clean(Joined(|Delivered(used[..|used| - 1])|, used[|used| - 1]).1)
  }

  // ---- Choosing a proxy ----

  /** One recovery: the proxies of `list` from place `i` on, in order, without the dead and
      the tried ones, until one opens. */
  function Recovery(cfg: RouteCfg, look: Look, i: nat, tried: set<string>, asked: seq<string>, log: seq<Record>,
          total: nat, net: (string, nat) -> RecoveryReply): (set<string>, seq<string>, seq<Record>, Option<Source>)
    requires i <= |look.list|
    decreases |look.list| - i
  {
    if i == |look.list| then (tried, asked, log, None)
    else
      var e := look.list[i];
      if Dead(EntryTier(e, cfg, look.now)) || e.url in tried then
        Recovery(cfg, look, i + 1, tried, asked, log, total, net)
      else
        var tried', asked' := tried + {e.url}, asked + [e.url];
        match net(e.url, total)
        case Opened(status, body, elapsed) =>
          if status == 206 || status == 200 then
            (tried', asked', log + [Record(e.url, Health.StreamResumed(cfg.id, elapsed))],
              Some(Source(e.url, status, body)))
          else
            Recovery(cfg, look, i + 1, tried', asked',
              log + [Record(e.url, Health.StreamBroke(cfg.id, Some(elapsed), cfg.slowMs))], total, net)
        case Refused =>
          Recovery(cfg, look, i + 1, tried', asked',
            log + [Record(e.url, Health.StreamBroke(cfg.id, None, cfg.slowMs))], total, net)
        case TooSlow =>
          Recovery(cfg, look, i + 1, tried', asked',
            log + [Record(e.url, Health.StreamBroke(cfg.id, None, cfg.slowMs))], total, net)
  }

  /** What a proxy's books get for its reply. */
  function ReplyRecord(cfg: RouteCfg, url: string, r: RecoveryReply): Record {
    Record(url,
      match r
      case Opened(status, _, elapsed) =>
        if status == 206 || status == 200 then Health.StreamResumed(cfg.id, elapsed)
        else Health.StreamBroke(cfg.id, Some(elapsed), cfg.slowMs)
      case Refused => Health.StreamBroke(cfg.id, None, cfg.slowMs)
      case TooSlow => Health.StreamBroke(cfg.id, None, cfg.slowMs))
  }

  function ReplyRecords(cfg: RouteCfg, urls: seq<string>, total: nat,
          net: (string, nat) -> RecoveryReply): seq<Record> {
    if urls == [] then []
    else [ReplyRecord(cfg, urls[0], net(urls[0], total))] + ReplyRecords(cfg, urls[1..], total, net)
  }

  method Recover(cfg: RouteCfg, look: Look, tried0: set<string>, total: nat, net: (string, nat) -> RecoveryReply,
          log0: seq<Record>)
    returns (tried: set<string>, asked: seq<string>, log: seq<Record>, found: Option<Source>)
    ensures (tried, asked, log, found) == Recovery(cfg, look, 0, tried0, [], log0, total, net)
  {
    tried, asked, log, found := tried0, [], log0, None;
    var i := 0;
    while i < |look.list|
      invariant i <= |look.list| && found.None?
      invariant Recovery(cfg, look, 0, tried0, [], log0, total, net)
                  == Recovery(cfg, look, i, tried, asked, log, total, net)
    {
      var next := look.list[i];
      i := i + 1;
      if Rank(EntryTier(next, cfg, look.now)) >= Rank(Banned) { continue; }
      if next.url in tried { continue; }
      tried := tried + {next.url};
      asked := asked + [next.url];
      match net(next.url, total) {
        case Opened(status, body, elapsed) =>
          if status == 206 || status == 200 {
            log := log + [Record(next.url, Health.StreamResumed(cfg.id, elapsed))];
            found := Some(Source(next.url, status, body));
            return;
          }
          log := log + [Record(next.url, Health.StreamBroke(cfg.id, Some(elapsed), cfg.slowMs))];
        case Refused => log := log + [Record(next.url, Health.StreamBroke(cfg.id, None, cfg.slowMs))];
        case TooSlow => log := log + [Record(next.url, Health.StreamBroke(cfg.id, None, cfg.slowMs))];
      }
    }
  }

  /** The skip loop. Nothing is sent before the chunk that straddles `total`. */
  method SkipInto(total: nat, body: seq<Piece>) returns (keep: seq<byte>, rest: seq<Piece>)
    ensures (keep, rest) == Skip(total, 0, body)
  {
    var skipped: nat := 0;
    keep, rest := [], body;
    while skipped < total
      invariant keep == [] && Skip(total, 0, body) == Skip(total, skipped, rest)
      decreases |rest|
    {
      if rest == [] { break; }
      var piece := rest[0];
      rest := rest[1..];
      match piece {
        case Data(c) =>
          var rem := total - skipped;
          if |c| <= rem {
            skipped := skipped + |c|;
          } else {
            keep := c[rem..];
            return;
          }
        case Broken => return;
      }
    }
  }

  // ---- What one recovery does ----

  function CountResumed(log: seq<Record>): nat {
    if log == [] then 0 else CountResumed(log[..|log| - 1]) + (if log[|log| - 1].op.StreamResumed? then 1 else 0)
  }

  lemma {:induction false} CountResumedStep(log: seq<Record>, r: Record)
    ensures CountResumed(log + [r]) == CountResumed(log) + (if r.op.StreamResumed? then 1 else 0)
  {
    assert (log + [r])[..|log|] == log;
  }

  /** A reply that takes over. */
  predicate Opens(r: RecoveryReply) { r.Opened? && (r.status == 206 || r.status == 200) }

  /** Nobody is left to ask: each proxy from place `i` on is dead or tried. */
  ghost predicate Exhausted(cfg: RouteCfg, look: Look, i: nat, tried: set<string>) {
    forall k :: i <= k < |look.list| ==> Dead(EntryTier(look.list[k], cfg, look.now)) || look.list[k].url in tried
  }

  /** The proxies in the pool at a break. */
  function UrlsAt(look: Look): set<string> { set e | e in look.list :: e.url }

  /** A recovery that had asked `asked`, all of them tried, and goes on to `r`. */
  ghost predicate Extends(cfg: RouteCfg, look: Look, i: nat, tried: set<string>, asked: seq<string>, log: seq<Record>,
          total: nat, net: (string, nat) -> RecoveryReply, r: (set<string>, seq<string>, seq<Record>, Option<Source>)) {
    && asked <= r.1 && NoDup(r.1) && r.0 == tried + Elems(r.1) && Elems(r.1[|asked|..]) <= UrlsAt(look) - tried
    && r.2 == log + ReplyRecords(cfg, r.1[|asked|..], total, net)
    && CountResumed(r.2) == CountResumed(log) + (if r.3.Some? then 1 else 0)
    && (forall k :: |asked| <= k < |r.1| - (if r.3.Some? then 1 else 0) ==> !Opens(net(r.1[k], total)))
    && (r.3.None? ==> Exhausted(cfg, look, i, r.0))
    && (r.3.Some? ==>
          var src := r.3.value;
          && |r.1| > |asked| && src.url == r.1[|r.1| - 1] && src.status in {200, 206}
          && net(src.url, total).Opened? && net(src.url, total).status == src.status
          && net(src.url, total).body == src.body)
  }

  lemma {:induction false} RecoveryExtends(cfg: RouteCfg, look: Look, i: nat, tried: set<string>, asked: seq<string>,
          log: seq<Record>, total: nat, net: (string, nat) -> RecoveryReply)
    requires i <= |look.list| && NoDup(asked) && Elems(asked) <= tried
    ensures Extends(cfg, look, i, tried, asked, log, total, net, Recovery(cfg, look, i, tried, asked, log, total, net))
    decreases |look.list| - i
  {
    if i == |look.list| {
      assert asked[|asked|..] == [] && log + [] == log;
    } else {
      var e := look.list[i];
      if Dead(EntryTier(e, cfg, look.now)) || e.url in tried {
        RecoveryExtends(cfg, look, i + 1, tried, asked, log, total, net);
      } else {
        var tried', asked' := tried + {e.url}, asked + [e.url];
        var rec := ReplyRecord(cfg, e.url, net(e.url, total));
        assert Elems(asked') == Elems(asked) + {e.url};
        if !rec.op.StreamResumed? {
          RecoveryExtends(cfg, look, i + 1, tried', asked', log + [rec], total, net);
          AskedOneMore(cfg, look, i, tried, asked, log, total, net, rec);
        } else {
          TakerFound(cfg, look, i, tried, asked, log, total, net);
        }
      }
    }
  }

  lemma {:induction false} TakerFound(cfg: RouteCfg, look: Look, i: nat, tried: set<string>, asked: seq<string>,
          log: seq<Record>, total: nat, net: (string, nat) -> RecoveryReply)
    requires i < |look.list| && NoDup(asked) && Elems(asked) <= tried && look.list[i].url !in tried
    requires Opens(net(look.list[i].url, total))
    ensures var e := look.list[i];
            var r := net(e.url, total);
            Extends(cfg, look, i, tried, asked, log, total, net,
              (tried + {e.url}, asked + [e.url], log + [ReplyRecord(cfg, e.url, r)],
               Some(Source(e.url, r.status, r.body))))
  {
    var url := look.list[i].url;
    CountResumedStep(log, ReplyRecord(cfg, url, net(url, total)));
    hide CountResumed, Exhausted;
    assert Elems(asked + [url]) == Elems(asked) + {url} && url in UrlsAt(look);
    assert (asked + [url])[|asked|..] == [url] && [url][1..] == [];
    assert ReplyRecords(cfg, [url], total, net) == [ReplyRecord(cfg, url, net(url, total))];
    assert Elems([url]) == {url};
    assert asked <= asked + [url];
  }

  lemma {:induction false} AskedOneMore(cfg: RouteCfg, look: Look, i: nat, tried: set<string>, asked: seq<string>,
          log: seq<Record>, total: nat, net: (string, nat) -> RecoveryReply, rec: Record)
    requires i < |look.list|
    requires var e := look.list[i];
             var r := Recovery(cfg, look, i + 1, tried + {e.url}, asked + [e.url], log + [rec], total, net);
             && e.url !in tried && !rec.op.StreamResumed? && rec == ReplyRecord(cfg, e.url, net(e.url, total))
             && Extends(cfg, look, i + 1, tried + {e.url}, asked + [e.url], log + [rec], total, net, r)
             && !Opens(net(e.url, total))
    ensures var e := look.list[i];
            Extends(cfg, look, i, tried, asked, log, total, net,
              Recovery(cfg, look, i + 1, tried + {e.url}, asked + [e.url], log + [rec], total, net))
  {
    var e := look.list[i];
    var r := Recovery(cfg, look, i + 1, tried + {e.url}, asked + [e.url], log + [rec], total, net);
    hide Recovery, ReplyRecords, ReplyRecord, CountResumed, EntryTier;
    CountResumedStep(log, rec);
    var rest := r.1[|asked| + 1..];
    assert r.1[|asked|..] == [e.url] + rest && r.1[|asked|] == e.url;
    RecordsCons(cfg, e.url, rest, total, net, log);
    assert e.url in UrlsAt(look) && e.url in r.1;
    assert Elems(r.1[|asked|..]) == {e.url} + Elems(rest);
    assert r.3.None? ==> Exhausted(cfg, look, i, r.0);
    hide UrlsAt, Elems, Exhausted, NoDup, Opens;
  }

  lemma {:induction false} RecordsCons(cfg: RouteCfg, url: string, urls: seq<string>, total: nat,
          net: (string, nat) -> RecoveryReply, log: seq<Record>)
    ensures log + [ReplyRecord(cfg, url, net(url, total))] + ReplyRecords(cfg, urls, total, net)
         == log + ReplyRecords(cfg, [url] + urls, total, net)
  {
    assert ([url] + urls)[1..] == urls;
  }

  // ---- The pump ----

  /** A request made to take over after break `round`, for the bytes from `from` on. */
  datatype Ask = Ask(url: string, from: nat, round: nat)

  function AsksFor(urls: seq<string>, total: nat, round: nat): seq<Ask> {
    seq(|urls|, i requires 0 <= i < |urls| => Ask(urls[i], total, round))
  }

  function AskedUrls(asks: seq<Ask>): seq<string> { seq(|asks|, i requires 0 <= i < |asks| => asks[i].url) }

  /** Source `k` is what its proxy sent when asked for the bytes from the end of what had
      been delivered, after the sources before it broke. */
  ghost predicate TookOver(used: seq<Source>, k: nat, asks: seq<Ask>, net: (string, nat) -> RecoveryReply)
    requires 0 < k < |used|
  {
    var n := |Delivered(used[..k])|;
    && Breaks(used[..k]) && Ask(used[k].url, n, k - 1) in asks && used[k].status in {200, 206}
    && net(used[k].url, n).Opened? && net(used[k].url, n).status == used[k].status
    && net(used[k].url, n).body == used[k].body
  }

  /** Every request asked for the bytes from the end of what had been delivered. */
  ghost predicate AsksFromEnd(used: seq<Source>, asks: seq<Ask>) {
    forall a :: a in asks ==> a.round < |used| && a.from == |Delivered(used[..a.round + 1])|
  }

  /** A request was answered by a takeover exactly if it is the one the response went on with. */
  ghost predicate Outcomes(used: seq<Source>, asks: seq<Ask>, net: (string, nat) -> RecoveryReply) {
    forall a :: a in asks ==> (Opens(net(a.url, a.from)) <==> a.round + 1 < |used| && used[a.round + 1].url == a.url)
  }

  ghost predicate Chained(used: seq<Source>, first: Source, asks: seq<Ask>, net: (string, nat) -> RecoveryReply) {
    used != [] && used[0] == first && (forall k :: 0 < k < |used| ==> TookOver(used, k, asks, net))
    && AsksFromEnd(used, asks)
  }

  /** Nobody is asked twice, nor anybody tried before. */
  ghost predicate AskedOnce(asks: seq<Ask>, tried0: set<string>, tried: set<string>) {
    NoDup(AskedUrls(asks)) && Elems(AskedUrls(asks)) !! tried0 && tried == tried0 + Elems(AskedUrls(asks))
  }

  lemma {:induction false} AsksGrow(used: seq<Source>, first: Source, asks: seq<Ask>,
          net: (string, nat) -> RecoveryReply, urls: seq<string>)
    requires Chained(used, first, asks, net)
    ensures Chained(used, first, asks + AsksFor(urls, |Delivered(used)|, |used| - 1), net)
  {
    hide Delivered, Breaks, AsksFromEnd;
    var more := AsksFor(urls, |Delivered(used)|, |used| - 1);
    AsksFromEndGrow(used, asks, urls);
    forall k | 0 < k < |used| ensures TookOver(used, k, asks + more, net) {
      assert TookOver(used, k, asks, net);
    }
  }

  lemma {:induction false} AsksFromEndGrow(used: seq<Source>, asks: seq<Ask>, urls: seq<string>)
    requires used != [] && AsksFromEnd(used, asks)
    ensures AsksFromEnd(used, asks + AsksFor(urls, |Delivered(used)|, |used| - 1))
  {
    hide Delivered;
    var last: nat := |used| - 1;
    assert used[..last + 1] == used;
    forall a | a in asks + AsksFor(urls, |Delivered(used)|, last)
      ensures a.round < |used| && a.from == |Delivered(used[..a.round + 1])|
    {
      if a !in asks { assert a.round == last && a.from == |Delivered(used)|; }
    }
  }

  lemma {:induction false} SourceJoins(used: seq<Source>, first: Source, asks: seq<Ask>,
          net: (string, nat) -> RecoveryReply, src: Source)
    requires Chained(used, first, asks, net) && Breaks(used)
    requires var n := |Delivered(used)|;
             && Ask(src.url, n, |used| - 1) in asks && src.status in {200, 206}
             && net(src.url, n).Opened? && net(src.url, n).status == src.status && net(src.url, n).body == src.body
    ensures Chained(used + [src], first, asks, net)
    ensures Delivered(used + [src]) == Delivered(used) + Adds(|Delivered(used)|, src)
    ensures Breaks(used + [src]) <==> !Clean(Joined(|Delivered(used)|, src).1)
  {
    var w := used + [src];
    assert w[..|w| - 1] == used;
    hide Delivered, Breaks;
    forall k | 0 < k < |w| ensures TookOver(w, k, asks, net) {
      assert w[..k] == used[..k];
      if k < |used| { assert TookOver(used, k, asks, net); } else { assert used[..k] == used; }
    }
    forall a | a in asks ensures a.round < |w| && a.from == |Delivered(w[..a.round + 1])| {
      assert w[..a.round + 1] == used[..a.round + 1];
    }
  }

  lemma {:induction false} AskedMore(asks: seq<Ask>, tried0: set<string>, tried: set<string>, urls: seq<string>,
          total: nat, round: nat)
    requires AskedOnce(asks, tried0, tried) && NoDup(urls) && Elems(urls) !! tried
    ensures AskedOnce(asks + AsksFor(urls, total, round), tried0, tried + Elems(urls))
  {
    var more := AsksFor(urls, total, round);
    assert AskedUrls(asks + more) == AskedUrls(asks) + urls;
    assert Elems(AskedUrls(asks) + urls) == Elems(AskedUrls(asks)) + Elems(urls);
    forall i, j | 0 <= i < j < |AskedUrls(asks) + urls|
      ensures (AskedUrls(asks) + urls)[i] != (AskedUrls(asks) + urls)[j]
    {
      if i < |asks| <= j { assert AskedUrls(asks)[i] in tried && urls[j - |asks|] in Elems(urls); }
    }
  }

  ghost predicate RoundsBelow(asks: seq<Ask>, n: int) { forall a :: a in asks ==> a.round < n }

  lemma RoundsGrow(asks: seq<Ask>, urls: seq<string>, total: nat, round: nat)
    requires RoundsBelow(asks, round)
    ensures RoundsBelow(asks + AsksFor(urls, total, round), round + 1)
  {
  }

  lemma {:induction false} OutcomesGrow(used: seq<Source>, asks: seq<Ask>, net: (string, nat) -> RecoveryReply,
          urls: seq<string>, total: nat, found: Option<Source>)
    requires used != [] && Outcomes(used, asks, net) && RoundsBelow(asks, |used| - 1)
    requires forall k :: 0 <= k < |urls| ==> (Opens(net(urls[k], total)) <==> found.Some? && found.value.url == urls[k])
    ensures Outcomes(if found.Some? then used + [found.value] else used, asks + AsksFor(urls, total, |used| - 1), net)
  {
    var more := AsksFor(urls, total, |used| - 1);
    var w := if found.Some? then used + [found.value] else used;
    forall a | a in asks + more
      ensures Opens(net(a.url, a.from)) <==> a.round + 1 < |w| && w[a.round + 1].url == a.url
    {
      if a !in asks {
        var k :| 0 <= k < |more| && more[k] == a;
        assert a.url == urls[k] && a.from == total;
      } else {
        assert a.round + 1 < |used|;
      }
    }
  }

  /** Who was asked after break `round`, in order. */
  function UrlsAsked(asks: seq<Ask>, round: nat): seq<string> {
    if asks == [] then []
    else
      var last := asks[|asks| - 1];
      UrlsAsked(asks[..|asks| - 1], round) + if last.round == round then [last.url] else []
  }

  lemma {:induction false} UrlsAskedGrow(asks: seq<Ask>, urls: seq<string>, total: nat, round: nat, k: nat)
    ensures UrlsAsked(asks + AsksFor(urls, total, round), k) == UrlsAsked(asks, k) + (if k == round then urls else [])
  {
    hide AsksFor, UrlsAsked;
    AsksForStep(urls, total, round);
    if urls == [] {
      AppendNothing(asks);
      AppendNothing(UrlsAsked(asks, k));
    } else {
      var n := |urls| - 1;
      var front, a := AsksFor(urls[..n], total, round), Ask(urls[n], total, round);
      UrlsAskedGrow(asks, urls[..n], total, round, k);
      UrlsAskedStep(asks + front, a, k);
      AppendTwice(asks, front, [a]);
      if k == round {
        AppendTwice(UrlsAsked(asks, k), urls[..n], [urls[n]]);
      } else {
        AppendNothing(UrlsAsked(asks, k));
      }
    }
  }

  lemma AppendNothing<T>(s: seq<T>)
    ensures s + [] == s
  {
  }

  lemma AsksForStep(urls: seq<string>, total: nat, round: nat)
    ensures urls == [] ==> AsksFor(urls, total, round) == []
    ensures urls != [] ==>
              var n := |urls| - 1;
              urls == urls[..n] + [urls[n]]
              && AsksFor(urls, total, round) == AsksFor(urls[..n], total, round) + [Ask(urls[n], total, round)]
  {
  }

  lemma {:induction false} UrlsAskedStep(asks: seq<Ask>, a: Ask, k: nat)
    ensures UrlsAsked(asks + [a], k) == UrlsAsked(asks, k) + (if a.round == k then [a.url] else [])
  {
    assert (asks + [a])[..|asks|] == asks;
  }

  lemma {:induction false} NobodyAsked(asks: seq<Ask>, round: nat)
    requires RoundsBelow(asks, round)
    ensures UrlsAsked(asks, round) == []
  {
    if asks != [] {
      var front := asks[..|asks| - 1];
      assert forall a :: a in front ==> a in asks;
      NobodyAsked(front, round);
      assert asks[|asks| - 1] in asks;
    }
  }

  /** The records of the first `n` breaks: the proxy that broke, if the pool still has it,
      then everyone asked to take over. */
  function LogOf(cfg: RouteCfg, o: Outside, used: seq<Source>, asks: seq<Ask>, n: nat): seq<Record>
    requires n <= |used|
  {
    if n == 0 then []
    else
      LogOf(cfg, o, used, asks, n - 1)
      + (if o.known(n - 1) then [Record(used[n - 1].url, Health.StreamBroke(cfg.id, None, cfg.slowMs))] else [])
      + ReplyRecords(cfg, UrlsAsked(asks, n - 1), |Delivered(used[..n])|, o.net)
  }

  lemma {:induction false} LogKeeps(cfg: RouteCfg, o: Outside, used: seq<Source>, asks: seq<Ask>, used': seq<Source>,
          asks': seq<Ask>, n: nat)
    requires n <= |used| && used <= used'
    requires forall k: nat :: k < n ==> UrlsAsked(asks', k) == UrlsAsked(asks, k)
    ensures LogOf(cfg, o, used', asks', n) == LogOf(cfg, o, used, asks, n)
  {
    hide Delivered, ReplyRecords, UrlsAsked;
    if n > 0 {
      LogKeeps(cfg, o, used, asks, used', asks', n - 1);
      assert used'[..n] == used[..n];
    }
  }

  /** Where the response stands: `stream` is what is left of the last source. */
  ghost predicate Standing(used: seq<Source>, delivered: seq<byte>, stream: seq<Piece>)
    requires used != []
  {
    delivered + Payload(stream) == Delivered(used) && (Breaks(used) <==> !Clean(stream))
  }

  lemma {:induction false} Moves(used: seq<Source>, delivered: seq<byte>, stream: seq<Piece>)
    requires used != [] && Standing(used, delivered, stream) && stream != []
    ensures stream[0].Data? ==> Standing(used, delivered + stream[0].bytes, stream[1..])
    ensures stream[0].Broken? ==> Breaks(used) && delivered == Delivered(used)
    ensures delivered <= Delivered(used)
  {
    if stream[0].Data? {
      assert delivered + Payload(stream) == delivered + stream[0].bytes + Payload(stream[1..]);
      assert Clean(stream) <==> Clean(stream[1..]) by {
        assert stream == [stream[0]] + stream[1..];
        assert forall p :: p in stream <==> p == stream[0] || p in stream[1..];
      }
    } else {
      assert stream[0] in stream;
    }
  }

  lemma {:induction false} PumpStarts(first: Source, tried0: set<string>, o: Outside)
    ensures Chained([first], first, [], o.net) && Standing([first], [], first.body)
    ensures AskedOnce([], tried0, tried0) && AskedUrls([]) == [] && CountResumed([]) == 0
    ensures Outcomes([first], [], o.net) && RoundsBelow([], 0)
  {
    assert [first][..0] == [];
    assert Delivered([first]) == [] + Adds(0, first);
  }

  lemma {:induction false} PumpEnds(used: seq<Source>, delivered: seq<byte>)
    requires used != [] && Standing(used, delivered, [])
    ensures delivered == Delivered(used) && !Breaks(used)
  {
    assert delivered + [] == delivered;
  }

  /** A recovery seen from the pump. */
  lemma {:induction false} RecoveryMeans(cfg: RouteCfg, look: Look, tried: set<string>, log: seq<Record>, total: nat,
          net: (string, nat) -> RecoveryReply, universe: set<string>,
          r: (set<string>, seq<string>, seq<Record>, Option<Source>))
    requires Extends(cfg, look, 0, tried, [], log, total, net, r) && UrlsAt(look) <= universe
    ensures NoDup(r.1) && Elems(r.1) !! tried && r.0 == tried + Elems(r.1) && Elems(r.1) <= universe
    ensures CountResumed(r.2) == CountResumed(log) + (if r.3.Some? then 1 else 0)
    ensures r.2 == log + ReplyRecords(cfg, r.1, total, net)
    ensures r.3.None? ==> Exhausted(cfg, look, 0, r.0)
    ensures forall k :: 0 <= k < |r.1| ==> (Opens(net(r.1[k], total)) <==> r.3.Some? && r.3.value.url == r.1[k])
    ensures r.3.Some? ==>
              var src := r.3.value;
              && src.url in Elems(r.1) && src.status in {200, 206}
              && net(src.url, total).Opened? && net(src.url, total).status == src.status
              && net(src.url, total).body == src.body
  {
    hide UrlsAt, CountResumed;
    assert r.1[0..] == r.1;
  }

  lemma {:induction false} AskUrlsGrow(asks: seq<Ask>, urls: seq<string>, total: nat, round: nat)
    ensures AskedUrls(asks + AsksFor(urls, total, round)) == AskedUrls(asks) + urls
    ensures Elems(AskedUrls(asks) + urls) == Elems(AskedUrls(asks)) + Elems(urls)
    ensures forall u :: u in Elems(urls) ==> Ask(u, total, round) in asks + AsksFor(urls, total, round)
  {
    var more := AsksFor(urls, total, round);
    forall u | u in Elems(urls) ensures Ask(u, total, round) in asks + more {
      var i :| 0 <= i < |urls| && urls[i] == u;
      assert more[i] == Ask(u, total, round);
    }
  }

  lemma {:induction false} Fewer(universe: set<string>, before: set<string>, after: set<string>, url: string)
    requires before <= after && url in universe && url !in before && url in after
    ensures |universe - after| < |universe - before|
  {
    SubsetCard(universe - after, universe - before - {url});
  }

  /** The joined source is what the response goes on with. */
  lemma {:induction false} JoinsHere(used: seq<Source>, total: nat, src: Source, keep: seq<byte>, stream: seq<Piece>)
    requires used != [] && total == |Delivered(used)|
    requires Delivered(used + [src]) == Delivered(used) + Adds(total, src)
    requires Breaks(used + [src]) <==> !Clean(Joined(total, src).1)
    requires (keep, stream) == (if src.status == 200 && total > 0 then Skip(total, 0, src.body) else ([], src.body))
    ensures Standing(used + [src], Delivered(used) + keep, stream)
  {
    hide Delivered, Breaks;
    assert Delivered(used) + (keep + Payload(stream)) == Delivered(used) + keep + Payload(stream);
  }

  /** What holds of every response, whenever it ends. */
  ghost predicate GoodResponse(cfg: RouteCfg, first: Source, canRecover: bool, tried0: set<string>, o: Outside,
          universe: set<string>, delivered: seq<byte>, used: seq<Source>, asks: seq<Ask>, log: seq<Record>,
          end: StreamEnd) {
    && Chained(used, first, asks, o.net)
    && AskedOnce(asks, tried0, tried0 + Elems(AskedUrls(asks))) && Elems(AskedUrls(asks)) <= universe
    && log == LogOf(cfg, o, used, asks, if end.GaveUp? then |used| else |used| - 1)
    && CountResumed(log) == |used| - 1 && Outcomes(used, asks, o.net)
    && delivered <= Delivered(used) && (!end.ClientGone? ==> delivered == Delivered(used))
    && Heard(used, asks, o.open, delivered, end)
    && match end
       case Ended => !Breaks(used)
       case ClientGone => true
       case BreakReported => Breaks(used) && !canRecover && asks == []
       case GaveUp =>
         Breaks(used) && canRecover && Exhausted(cfg, o.looks(|used| - 1), 0, tried0 + Elems(AskedUrls(asks)))
  }

  /** One break: find a proxy to take over and join what it sends. */
  method TakeOver(cfg: RouteCfg, first: Source, tried0: set<string>, o: Outside, ghost universe: set<string>,
                  used: seq<Source>, asks0: seq<Ask>, log0: seq<Record>, tried: set<string>, total: nat)
    returns (taken: bool, src: Source, asks: seq<Ask>, log: seq<Record>, triedNow: set<string>, keep: seq<byte>,
            stream: seq<Piece>)
    requires used != [] && Chained(used, first, asks0, o.net) && Breaks(used) && total == |Delivered(used)|
    requires AskedOnce(asks0, tried0, tried) && Elems(AskedUrls(asks0)) <= universe
    requires UrlsAt(o.looks(|used| - 1)) <= universe
    requires Outcomes(used, asks0, o.net) && RoundsBelow(asks0, |used| - 1)
    ensures RoundsBelow(asks, |used|) && Outcomes(if taken then used + [src] else used, asks, o.net)
    ensures !taken ==> Exhausted(cfg, o.looks(|used| - 1), 0, triedNow)
    ensures AskedOnce(asks, tried0, triedNow) && Elems(AskedUrls(asks)) <= universe
    ensures CountResumed(log) == CountResumed(log0) + (if taken then 1 else 0)
    ensures forall k: nat :: k < |used| - 1 ==> UrlsAsked(asks, k) == UrlsAsked(asks0, k)
    ensures log == log0 + ReplyRecords(cfg, UrlsAsked(asks, |used| - 1), total, o.net)
    ensures !taken ==> Chained(used, first, asks, o.net)
    ensures taken ==>
              && Chained(used + [src], first, asks, o.net) && Standing(used + [src], Delivered(used) + keep, stream)
              && (keep, stream) == Joined(total, src)
    ensures taken ==> |universe - triedNow| < |universe - tried| && Delivered(used) <= Delivered(used + [src])
  {
    hide Chained, Breaks, Delivered, Payload, Recovery, AskedOnce, Standing, Joined, CountResumed, UrlsAt, Extends,
      Outcomes, Exhausted, RoundsBelow, ReplyRecords, UrlsAsked, Elems, NoDup, AskedUrls, AsksFor, Opens;
    var urls, found;
    triedNow, urls, log, found := Recover(cfg, o.looks(|used| - 1), tried, total, o.net, log0);
    Recovered(cfg, first, tried0, o, universe, used, asks0, log0, tried, total, (triedNow, urls, log, found));
    asks := asks0 + AsksFor(urls, total, |used| - 1);
    taken, src, keep, stream := found.Some?, first, [], [];
    if taken {
      src := found.value;
      stream := src.body;
      if src.status == 200 && total > 0 { keep, stream := SkipInto(total, src.body); }
      JoinsHere(used, total, src, keep, stream);
      JoinedIs(total, src);
    }
  }

  lemma JoinedIs(total: nat, src: Source)
    ensures Joined(total, src) == if src.status == 200 && total > 0 then Skip(total, 0, src.body) else ([], src.body)
  {
  }

  /** What a recovery leaves: the requests made, and the source that took over, if any. */
  lemma {:induction false} Recovered(cfg: RouteCfg, first: Source, tried0: set<string>, o: Outside,
          universe: set<string>, used: seq<Source>, asks0: seq<Ask>, log0: seq<Record>, tried: set<string>, total: nat,
          r: (set<string>, seq<string>, seq<Record>, Option<Source>))
    requires used != [] && Chained(used, first, asks0, o.net) && Breaks(used) && total == |Delivered(used)|
    requires AskedOnce(asks0, tried0, tried) && Elems(AskedUrls(asks0)) <= universe
    requires UrlsAt(o.looks(|used| - 1)) <= universe
    requires Outcomes(used, asks0, o.net) && RoundsBelow(asks0, |used| - 1)
    requires r == Recovery(cfg, o.looks(|used| - 1), 0, tried, [], log0, total, o.net)
    ensures var asks, w := asks0 + AsksFor(r.1, total, |used| - 1), if r.3.Some? then used + [r.3.value] else used;
            && RoundsBelow(asks, |used|) && Outcomes(w, asks, o.net) && Chained(w, first, asks, o.net)
            && AskedOnce(asks, tried0, r.0) && Elems(AskedUrls(asks)) <= universe
            && (forall k: nat :: k < |used| - 1 ==> UrlsAsked(asks, k) == UrlsAsked(asks0, k))
            && r.2 == log0 + ReplyRecords(cfg, UrlsAsked(asks, |used| - 1), total, o.net)
    ensures CountResumed(r.2) == CountResumed(log0) + (if r.3.Some? then 1 else 0)
    ensures r.3.None? ==> Exhausted(cfg, o.looks(|used| - 1), 0, r.0)
    ensures r.3.Some? ==>
              var src := r.3.value;
              && |universe - r.0| < |universe - tried|
              && Delivered(used + [src]) == Delivered(used) + Adds(total, src)
              && (Breaks(used + [src]) <==> !Clean(Joined(total, src).1))
  {
    hide Chained, Breaks, Delivered, Payload, Recovery, AskedOnce, Joined, CountResumed, UrlsAt, Extends,
      Outcomes, Exhausted, RoundsBelow, ReplyRecords, UrlsAsked, Elems, NoDup, AskedUrls, AsksFor, Opens;
    var round, urls := |used| - 1, r.1;
    StartsAsking();
    RecoveryExtends(cfg, o.looks(round), 0, tried, [], log0, total, o.net);
    RecoveryMeans(cfg, o.looks(round), tried, log0, total, o.net, universe, r);
    AsksAfter(first, tried0, universe, used, asks0, tried, total, urls, o.net, r.3);
    if r.3.Some? {
      SourceJoins(used, first, asks0 + AsksFor(urls, total, round), o.net, r.3.value);
      NewlyTried(universe, tried, urls, r.0, r.3.value.url);
    }
  }

  lemma StartsAsking()
    ensures NoDup<string>([]) && Elems<string>([]) == {}
  {
  }

  lemma {:induction false} NewlyTried(universe: set<string>, tried: set<string>, urls: seq<string>, after: set<string>,
          url: string)
    requires after == tried + Elems(urls) && url in Elems(urls) && Elems(urls) !! tried && Elems(urls) <= universe
    ensures |universe - after| < |universe - tried|
  {
    hide Elems;
    Fewer(universe, tried, after, url);
  }

  /** The requests of one more recovery. */
  lemma {:induction false} AsksAfter(first: Source, tried0: set<string>, universe: set<string>, used: seq<Source>,
          asks0: seq<Ask>, tried: set<string>, total: nat, urls: seq<string>, net: (string, nat) -> RecoveryReply,
          found: Option<Source>)
    requires used != [] && Chained(used, first, asks0, net) && total == |Delivered(used)|
    requires AskedOnce(asks0, tried0, tried) && Elems(AskedUrls(asks0)) <= universe
    requires Outcomes(used, asks0, net) && RoundsBelow(asks0, |used| - 1)
    requires NoDup(urls) && Elems(urls) !! tried && Elems(urls) <= universe
    requires forall k :: 0 <= k < |urls| ==> (Opens(net(urls[k], total)) <==> found.Some? && found.value.url == urls[k])
    ensures var asks := asks0 + AsksFor(urls, total, |used| - 1);
            && RoundsBelow(asks, |used|) && Outcomes(if found.Some? then used + [found.value] else used, asks, net)
            && Chained(used, first, asks, net)
            && AskedOnce(asks, tried0, tried + Elems(urls)) && Elems(AskedUrls(asks)) <= universe
            && (forall k: nat :: k < |used| - 1 ==> UrlsAsked(asks, k) == UrlsAsked(asks0, k))
            && UrlsAsked(asks, |used| - 1) == urls
            && (forall u :: u in Elems(urls) ==> Ask(u, total, |used| - 1) in asks)
  {
    hide Chained, Delivered, AskedOnce, Outcomes, RoundsBelow, UrlsAsked, Elems, NoDup, AskedUrls, AsksFor, Opens;
    var round := |used| - 1;
    AsksGrow(used, first, asks0, net, urls);
    AskedMore(asks0, tried0, tried, urls, total, round);
    AskUrlsGrow(asks0, urls, total, round);
    RoundsGrow(asks0, urls, total, round);
    OutcomesGrow(used, asks0, net, urls, total, found);
    NobodyAsked(asks0, round);
    AppendNothing(urls);
    forall k: nat | k < |used|
      ensures UrlsAsked(asks0 + AsksFor(urls, total, round), k) == if k == round then urls else UrlsAsked(asks0, k)
    {
      UrlsAskedGrow(asks0, urls, total, round, k);
      AppendNothing(UrlsAsked(asks0, k));
      if k == round { assert [] + urls == urls; }
    }
  }

  /** The spawned task: forward chunks; on a break take over elsewhere, or stop. */
  method Pump(cfg: RouteCfg, first: Source, canRecover: bool, tried0: set<string>, o: Outside,
          ghost universe: set<string>)
    returns (delivered: seq<byte>, used: seq<Source>, asks: seq<Ask>, log: seq<Record>, end: StreamEnd)
    requires forall k: nat :: UrlsAt(o.looks(k)) <= universe
    ensures GoodResponse(cfg, first, canRecover, tried0, o, universe, delivered, used, asks, log, end)
  {
    hide Chained, Breaks, Delivered, Payload, AskedOnce, Standing, CountResumed, UrlsAt, Exhausted, Outcomes,
      RoundsBelow, Elems, AskedUrls, LogOf, ReplyRecords, UrlsAsked, Chunks, Joined, Heard, Sending;
    var stream, total: nat, current, tried, sends: nat := first.body, 0, first.url, tried0, 0;
    delivered, used, asks, log := [], [first], [], [];
    ghost var made: seq<seq<byte>> := [];
    PumpStarts(first, tried0, o);
    assert LogOf(cfg, o, used, asks, 0) == [] by { NoLog(cfg, o, used, asks); }
    NothingSent(first, o.open);
    while true
      invariant used != [] && Chained(used, first, asks, o.net) && Standing(used, delivered, stream)
      invariant AskedOnce(asks, tried0, tried) && Elems(AskedUrls(asks)) <= universe
      invariant total == |delivered| && CountResumed(log) == |used| - 1 && log == LogOf(cfg, o, used, asks, |used| - 1)
      invariant current == used[|used| - 1].url && (!canRecover ==> asks == [])
      invariant Outcomes(used, asks, o.net) && RoundsBelow(asks, |used| - 1)
      invariant Sending(used, o.open, delivered, made, Chunks(stream)) && sends == |made|
      decreases |universe - tried|, |stream|
    {
      AskedTried(asks, tried0, tried);
      ChunksOf(stream);
      if stream == [] {
        PumpEnds(used, delivered);
        HeardSoFar(used, asks, o.open, delivered, Ended, made, []);
        return delivered, used, asks, log, Ended;
      }
      Moves(used, delivered, stream);
      var piece := stream[0];
      stream := stream[1..];
      match piece {
        case Data(chunk) =>
          total := total + |chunk|;
          if !o.open(sends) {
            HeardSoFar(used, asks, o.open, delivered, ClientGone, made, [chunk] + Chunks(stream));
            return delivered, used, asks, log, ClientGone;
          }
          MakeSend(used, o.open, delivered, made, chunk, Chunks(stream));
          made := made + [chunk];
          delivered := delivered + chunk;
          sends := sends + 1;
        case Broken =>
          if !canRecover {
            HeardSoFar(used, asks, o.open, delivered, BreakReported, made, []);
            return delivered, used, asks, log, BreakReported;
          }
          if o.known(|used| - 1) {
            CountResumedStep(log, Record(current, Health.StreamBroke(cfg.id, None, cfg.slowMs)));
            log := log + [Record(current, Health.StreamBroke(cfg.id, None, cfg.slowMs))];
          } else {
            assert log + [] == log;
          }
          var taken, src, keep;
          ghost var before := asks;
          taken, src, asks, log, tried, keep, stream :=
            TakeOver(cfg, first, tried0, o, universe, used, asks, log, tried, total);
          AskedTried(asks, tried0, tried);
          LogGrows(cfg, o, used, before, src, asks);
          if !taken {
            HeardSoFar(used, asks, o.open, delivered, GaveUp, made, []);
            return delivered, used, asks, log, GaveUp;
          }
          SendsJoin(used, o.open, delivered, made, src, keep, stream);
          used := used + [src];
          if keep != [] {
            total := total + |keep|;
            if !o.open(sends) {
              HeardSoFar(used, asks, o.open, delivered, ClientGone, made, [keep] + Chunks(stream));
              return delivered, used, asks, log, ClientGone;
            }
            MakeSend(used, o.open, delivered, made, keep, Chunks(stream));
            made := made + [keep];
            delivered := delivered + keep;
            sends := sends + 1;
          } else {
            assert delivered + keep == delivered;
          }
          current := src.url;
      }
    }
  }

  lemma NothingSent(first: Source, open: nat -> bool)
    ensures Sending([first], open, [], [], Chunks(first.body))
  {
    assert [first][..0] == [];
    assert Joined(0, first) == ([], first.body);
    assert [] + Chunks(first.body) == Chunks(first.body);
  }

  lemma ChunksOf(stream: seq<Piece>)
    ensures stream == [] || stream[0].Broken? ==> Chunks(stream) == []
    ensures stream != [] && stream[0].Data? ==> Chunks(stream) == [stream[0].bytes] + Chunks(stream[1..])
  {
  }

  lemma NoLog(cfg: RouteCfg, o: Outside, used: seq<Source>, asks: seq<Ask>)
    ensures LogOf(cfg, o, used, asks, 0) == []
  {
  }

  /** One more break in the books, whether or not somebody took over. */
  lemma {:induction false} LogGrows(cfg: RouteCfg, o: Outside, used: seq<Source>, before: seq<Ask>, src: Source,
          asks: seq<Ask>)
    requires used != [] && forall k: nat :: k < |used| - 1 ==> UrlsAsked(asks, k) == UrlsAsked(before, k)
    ensures var n := |used|;
            var log := LogOf(cfg, o, used, before, n - 1)
              + (if o.known(n - 1) then [Record(used[n - 1].url, Health.StreamBroke(cfg.id, None, cfg.slowMs))] else [])
              + ReplyRecords(cfg, UrlsAsked(asks, n - 1), |Delivered(used)|, o.net);
            LogOf(cfg, o, used, asks, n) == log && LogOf(cfg, o, used + [src], asks, n) == log
  {
    hide Delivered, ReplyRecords, UrlsAsked;
    var n := |used|;
    LogKeeps(cfg, o, used, before, used, asks, n - 1);
    LogKeeps(cfg, o, used, asks, used + [src], asks, n);
    assert used[..n] == used;
  }

  lemma AskedTried(asks: seq<Ask>, tried0: set<string>, tried: set<string>)
    requires AskedOnce(asks, tried0, tried)
    ensures tried == tried0 + Elems(AskedUrls(asks))
  {
  }
}
