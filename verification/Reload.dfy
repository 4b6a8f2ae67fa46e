/** The live proxy pool (`proxy/mod.rs`): an ordered list and a map of the same
    entries, replaced one after the other when the proxy file changes. */
module Reload {
  import opened Prelude
  import opened Loader
  import opened Health

  function EntryUrls(s: seq<Entry>): seq<string> { seq(|s|, i requires 0 <= i < |s| => s[i].url) }

  class ProxyPool {
    var entries: seq<Entry>
    var byUrl: map<string, Entry>

    /** A URL in both the list and the map names one object: true between reloads and, by
        the contract of the first store, between the two stores of one. */
    ghost predicate Agree()
      reads this
    {
      && (forall u :: u in byUrl ==> byUrl[u].url == u)
      && (forall e :: e in entries && e.url in byUrl ==> byUrl[e.url] == e)
    }

    /** Between reloads the list and the map hold the same entries, each URL once. */
    ghost predicate Valid()
      reads this
    {
      Agree() && NoDup(EntryUrls(entries)) && byUrl.Keys == Elems(EntryUrls(entries))
    }

    /** For any parsed list the pool holds its URLs; if they are distinct, it is valid. */
    constructor (parsed: seq<ParsedProxy>)
      ensures EntryUrls(entries) == UrlsOf(parsed) && byUrl.Keys == Elems(UrlsOf(parsed))
      ensures NoDup(UrlsOf(parsed)) ==> Valid()
      ensures forall i :: 0 <= i < |entries| ==> fresh(entries[i]) && entries[i].tags == parsed[i].tags
    {
      hide Prepared;
      var list: seq<Entry>, m: map<string, Entry> := [], map[];
      PreparedStart(map[]);
      for i := 0 to |parsed|
        invariant |list| == i && Prepared(UrlsOf(parsed)[..i], map[], list, m)
        invariant forall j :: 0 <= j < i ==> fresh(list[j]) && list[j].tags == parsed[j].tags
      {
        assert UrlsOf(parsed)[..i + 1] == UrlsOf(parsed)[..i] + [parsed[i].url];
        var e := new Entry(parsed[i].url, parsed[i].tags);
        PreparedStep(UrlsOf(parsed)[..i], map[], list, m, e);
        m := m[e.url := e];
        list := list + [e];
      }
      assert UrlsOf(parsed)[..|parsed|] == UrlsOf(parsed);
      PreparedMeans(UrlsOf(parsed), map[], list, m);
      entries, byUrl := list, m;
    }

    function Find(url: string): Option<Entry>
      reads this
    {
      if url in byUrl then Some(byUrl[url]) else None
    }

    /** In a valid pool the map finds exactly the entries of the list. */
    lemma {:induction false} FindIsLookup(url: string)
      requires Valid()
      ensures Find(url).Some? <==> exists i :: 0 <= i < |entries| && entries[i].url == url
      ensures Find(url).Some? ==> Find(url).value in entries && Find(url).value.url == url
    {
      if url in byUrl {
        assert url in EntryUrls(entries);
        var i :| 0 <= i < |entries| && EntryUrls(entries)[i] == url;
        assert entries[i] in entries && entries[i].url == url;
      }
      if i :| 0 <= i < |entries| && entries[i].url == url { assert EntryUrls(entries)[i] == url; }
    }

    /** First store: readers of the list see the new one, readers of the map the old. */
    method StoreEntries(list: seq<Entry>)
      requires Agree() && forall e :: e in list && e.url in byUrl ==> byUrl[e.url] == e
      modifies this`entries
      ensures Agree() && entries == list
    {
      entries := list;
    }

    /** Second store. */
    method StoreByUrl(m: map<string, Entry>)
      modifies this`byUrl
      ensures byUrl == m
      ensures (forall u :: u in m ==> m[u].url == u) && (forall e :: e in entries && e.url in m ==> m[e.url] == e) ==>
                Agree()
    {
      byUrl := m;
    }

    /** The entry for one parsed record: the one held, with its new tags, or a cold one. */
    method EntryFor(p: ParsedProxy) returns (e: Entry)
      requires Agree()
      modifies byUrl.Values`tags
      ensures e.url == p.url && e.tags == p.tags
      ensures if p.url in byUrl then e == byUrl[p.url] else fresh(e) && Cold(e)
      ensures forall u :: u in byUrl && u != p.url ==> byUrl[u].tags == old(byUrl[u].tags)
    {
      if p.url in byUrl {
        e := byUrl[p.url];
        if e.tags != p.tags { e.SetTags(p.tags); }
      } else {
        e := new Entry(p.url, p.tags);
      }
    }

    /** Reuses the entries of surviving URLs and makes the others. */
    method Prepare(parsed: seq<ParsedProxy>)
      returns (list: seq<Entry>, m: map<string, Entry>, added: nat, retained: nat)
      requires Valid()
      modifies byUrl.Values`tags
      ensures Prepared(UrlsOf(parsed), byUrl, list, m)
      ensures added == CountOut(UrlsOf(parsed), byUrl.Keys) && retained + added == |parsed|
      ensures NoDup(UrlsOf(parsed)) ==> forall i :: 0 <= i < |list| ==> list[i].tags == parsed[i].tags
      ensures forall i :: 0 <= i < |list| && list[i].url !in byUrl ==> fresh(list[i]) && Cold(list[i])
    {
      hide Prepared, CountOut, NoDup, EntryUrls;
      list, m, added, retained := [], map[], 0, 0;
      PreparedStart(byUrl);
      NothingCounted(byUrl.Keys);
      for i := 0 to |parsed|
        invariant |list| == i && Prepared(UrlsOf(parsed)[..i], byUrl, list, m)
        invariant added == CountOut(UrlsOf(parsed)[..i], byUrl.Keys) && retained + added == i
        invariant forall j :: 0 <= j < i ==>
                    list[j].url == parsed[j].url && (list[j].url in byUrl ==> list[j] == byUrl[list[j].url])
        invariant NoDup(UrlsOf(parsed)) ==> forall j :: 0 <= j < i ==> list[j].tags == parsed[j].tags
        invariant forall j :: 0 <= j < i && list[j].url !in byUrl ==> fresh(list[j]) && Cold(list[j])
      {
        var p := parsed[i];
        if NoDup(UrlsOf(parsed)) { NewUrlIsNew(parsed, i); }
        CountNext(UrlsOf(parsed), i, byUrl.Keys);
        var e := EntryFor(p);
        PreparedStep(UrlsOf(parsed)[..i], byUrl, list, m, e);
        m := m[p.url := e];
        list := list + [e];
        if p.url in byUrl { retained := retained + 1; } else { added := added + 1; }
      }
      assert UrlsOf(parsed)[..|parsed|] == UrlsOf(parsed);
    }

    /** Stores what was prepared, unless the counts say that nothing was added or removed. */
    method Publish(ghost urls: seq<string>, list: seq<Entry>, m: map<string, Entry>, added: nat, retained: nat)
      requires Valid() && Prepared(urls, byUrl, list, m)
      requires added == CountOut(urls, byUrl.Keys) && retained + added == |urls|
      modifies this
      ensures if StopsEarly(urls, old(byUrl.Keys)) then unchanged(this) else entries == list && byUrl == m
      ensures NoDup(urls) ==> Valid() && byUrl == m
    {
      hide Prepared, CountOut;
      PreparedMeans(urls, byUrl, list, m);
      EarlyReturnIff(urls, byUrl.Keys);
      var removed := if |byUrl| >= retained then |byUrl| - retained else 0;
      assert |byUrl| == |byUrl.Keys|;
      assert StopsEarly(urls, byUrl.Keys) <==> added == 0 && removed == 0 && retained == |byUrl|;
      hide StopsEarly, NoDup, Elems, EntryUrls;
      if added == 0 && removed == 0 && retained == |byUrl| { return; }
      StoreEntries(list);
      StoreByUrl(m);
    }

    /** Applies a freshly parsed list. For distinct URLs the pool ends with exactly the
        parsed URLs and tags and stays valid; every surviving URL keeps its entry object,
        of which only the tags change, and the others start cold. A list naming the URLs
        already held, in whatever order, leaves list and map as they are. */
    method Reload(parsed: seq<ParsedProxy>)
      requires Valid()
      modifies this, byUrl.Values`tags
      ensures NoDup(UrlsOf(parsed)) ==>
                && Valid() && byUrl.Keys == Elems(UrlsOf(parsed))
                && (forall i :: 0 <= i < |parsed| ==>
                     parsed[i].url in byUrl && byUrl[parsed[i].url].tags == parsed[i].tags)
      ensures forall u :: u in byUrl ==> if u in old(byUrl) then byUrl[u] == old(byUrl)[u]
              else fresh(byUrl[u]) && Cold(byUrl[u])
      ensures NoDup(UrlsOf(parsed)) ==>
                if Elems(UrlsOf(parsed)) == old(byUrl.Keys) then entries == old(entries) && byUrl == old(byUrl)
                else EntryUrls(entries) == UrlsOf(parsed)
    {
      hide Prepared, CountOut, StopsEarly, NoDup, Elems, EntryUrls;
      ghost var urls, known := UrlsOf(parsed), byUrl;
      var list, m, added, retained := Prepare(parsed);
      PreparedMeans(urls, known, list, m);
      EarlyReturnIff(urls, known.Keys);
      assert |urls| == |parsed|;
      if NoDup(urls) { TagsByUrl(parsed, list, m); }
      Publish(urls, list, m, added, retained);
    }
  }

  lemma {:induction false} TagsByUrl(parsed: seq<ParsedProxy>, list: seq<Entry>, m: map<string, Entry>)
    requires |list| == |parsed|
             && (forall i :: 0 <= i < |list| ==> list[i].url == UrlsOf(parsed)[i] && list[i].tags == parsed[i].tags)
    requires forall e :: e in list ==> e.url in m && m[e.url] == e
    ensures forall i :: 0 <= i < |parsed| ==> parsed[i].url in m && m[parsed[i].url].tags == parsed[i].tags
  {
    forall i | 0 <= i < |parsed| ensures parsed[i].url in m && m[parsed[i].url].tags == parsed[i].tags {
      assert list[i] in list;
    }
  }

  /** Nothing has happened to this proxy yet. */
  ghost predicate Cold(e: Entry)
    reads e
  {
    e.ok == 0 && e.err == 0 && e.usage == 0 && !e.fatal && e.fatalCount == 0 && e.byRoute == map[]
  }

  /** `list` and `m` are what a reload to `urls` makes of a pool that knew `known`. */
  ghost predicate Prepared(urls: seq<string>, known: map<string, Entry>, list: seq<Entry>, m: map<string, Entry>) {
    && EntryUrls(list) == urls && m.Keys == Elems(urls)
    && (forall u :: u in m ==> m[u] in list && m[u].url == u && (u in known ==> m[u] == known[u]))
    && (forall e :: e in list ==> e.url in known ==> e == known[e.url])
    && (NoDup(urls) ==> forall e :: e in list ==> e.url in m && m[e.url] == e)
  }

  lemma PreparedStart(known: map<string, Entry>)
    ensures Prepared([], known, [], map[])
  {
  }

  lemma {:induction false} PreparedStep(urls: seq<string>, known: map<string, Entry>, list: seq<Entry>,
          m: map<string, Entry>, e: Entry)
    requires Prepared(urls, known, list, m) && (e.url in known ==> e == known[e.url])
    ensures Prepared(urls + [e.url], known, list + [e], m[e.url := e])
  {
    var urls' := urls + [e.url];
    assert EntryUrls(list + [e]) == EntryUrls(list) + [e.url];
    assert Elems(urls') == Elems(urls) + {e.url};
    if NoDup(urls') {
      assert NoDup(urls) by {
        forall i, j | 0 <= i < j < |urls| ensures urls[i] != urls[j] { assert urls'[i] != urls'[j]; }
      }
      forall f | f in list ensures f.url != e.url {
        var j :| 0 <= j < |list| && list[j] == f;
        assert urls'[j] == EntryUrls(list)[j] == f.url;
        assert urls'[j] != urls'[|urls|];
      }
    }
  }

  lemma {:induction false} PreparedMeans(urls: seq<string>, known: map<string, Entry>, list: seq<Entry>,
          m: map<string, Entry>)
    requires Prepared(urls, known, list, m)
    ensures EntryUrls(list) == urls && |list| == |urls| && m.Keys == Elems(urls)
    ensures forall u :: u in m ==> m[u] in list && m[u].url == u && (u in known ==> m[u] == known[u])
    ensures forall e :: e in list && e.url in known ==> e == known[e.url]
    ensures NoDup(urls) ==> forall e :: e in list ==> e.url in m && m[e.url] == e
    ensures NoDup(urls) ==> forall i :: 0 <= i < |urls| ==> list[i].url == urls[i]
  {
    forall i | 0 <= i < |urls| ensures list[i].url == urls[i] { assert EntryUrls(list)[i] == urls[i]; }
  }

  lemma {:induction false} NewUrlIsNew(parsed: seq<ParsedProxy>, i: nat)
    requires i < |parsed| && NoDup(UrlsOf(parsed))
    ensures forall j :: 0 <= j < i ==> parsed[j].url != parsed[i].url
  {
    forall j | 0 <= j < i ensures parsed[j].url != parsed[i].url {
      assert UrlsOf(parsed)[j] != UrlsOf(parsed)[i];
    }
  }

  /** How many of the URLs are not in `known`. */
  function CountOut(urls: seq<string>, known: set<string>): nat {
    if urls == [] then 0 else CountOut(urls[..|urls| - 1], known) + (if urls[|urls| - 1] in known then 0 else 1)
  }

  lemma NothingCounted(known: set<string>)
    ensures CountOut([], known) == 0
  {
  }

  lemma {:induction false} CountNext(urls: seq<string>, i: nat, known: set<string>)
    requires i < |urls|
    ensures urls[..i + 1] == urls[..i] + [urls[i]]
    ensures CountOut(urls[..i + 1], known) == CountOut(urls[..i], known) + (if urls[i] in known then 0 else 1)
  {
    assert urls[..i + 1][..i] == urls[..i];
  }

  /** The counting test for "nothing to do". */
  predicate StopsEarly(urls: seq<string>, known: set<string>) {
    var added := CountOut(urls, known);
    var retained := |urls| - added;
    var removed := if |known| >= retained then |known| - retained else 0;
    added == 0 && removed == 0 && retained == |known|
  }

  lemma {:induction false} CountOutFacts(urls: seq<string>, known: set<string>)
    ensures CountOut(urls, known) <= |urls|
    ensures CountOut(urls, known) == 0 <==> Elems(urls) <= known
  {
    if urls != [] {
      CountOutFacts(urls[..|urls| - 1], known);
      assert urls == urls[..|urls| - 1] + [urls[|urls| - 1]];
      assert Elems(urls) == Elems(urls[..|urls| - 1]) + {urls[|urls| - 1]};
    }
  }

  /** Counting decides "same URLs as before" rightly for distinct URLs. In general it only
      says that all are known and as many as before. */
  lemma {:induction false} EarlyReturnIff(urls: seq<string>, known: set<string>)
    ensures StopsEarly(urls, known) <==> Elems(urls) <= known && |urls| == |known|
    ensures NoDup(urls) ==> (StopsEarly(urls, known) <==> Elems(urls) == known)
  {
    CountOutFacts(urls, known);
    if NoDup(urls) {
      NoDupCard(urls);
      if Elems(urls) <= known { SubsetCard(Elems(urls), known); }
    }
  }

  /** With a repeated URL the test can miss a removal. */
  lemma {:induction false} RepetitionHidesRemoval()
    ensures StopsEarly(["a", "a"], {"a", "b"}) && Elems(["a", "a"]) != {"a", "b"}
  {
    EarlyReturnIff(["a", "a"], {"a", "b"});
    assert "b" !in Elems(["a", "a"]);
  }

  /** What the loader produces meets the pool's demand: loading a file into a pool and
      reloading another one leave list, map and file in agreement. */
  method LoadThenReload(first: string, second: string) returns (pool: ProxyPool, parsed: seq<ParsedProxy>)
    ensures fresh(pool) && pool.Valid() && Means(Lines(second), parsed) && pool.byUrl.Keys == Elems(UrlsOf(parsed))
    ensures forall i :: 0 <= i < |parsed| ==>
              parsed[i].url in pool.byUrl && pool.byUrl[parsed[i].url].tags == parsed[i].tags
  {
    parsed := ParseProxies(first);
    ParsedIsWellFormed(Lines(first), parsed);
    pool := new ProxyPool(parsed);
    parsed := ParseProxies(second);
    ParsedIsWellFormed(Lines(second), parsed);
    pool.Reload(parsed);
  }
}
