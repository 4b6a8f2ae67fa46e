/** Reading the proxy file (`proxy/loader.rs`): one record a line, URLs kept once,
    tags merged. */
module Loader {
  import opened Prelude
  import opened Text

  datatype ParsedProxy = ParsedProxy(url: string, tags: seq<string>)

  // ---- Text ----

  function Lines(s: string): seq<string>
    decreases |s|
  {
    var n := Until(s, c => c == '\n');
    if s == "" then [] else if n == |s| then [s] else [s[..n]] + Lines(s[n + 1..])
  }

  /** The whitespace-separated words of a line. */
  function Words(s: string): seq<string>
    decreases |s|
  {
    var n := Until(s, c => IsWhitespace(c));
    if s == "" then []
    else if n == 0 then Words(s[1..])
    else [s[..n]] + Words(s[n..])
  }

  function SplitAt(s: string, sep: char): seq<string>
    decreases |s|
  {
    var n := Until(s, c => c == sep);
    if n == |s| then [s] else [s[..n]] + SplitAt(s[n + 1..], sep)
  }

  predicate StartsWith(s: string, prefix: string) { prefix <= s }

  // ---- Specification ----

  /** `s` without repetitions, appended to `d`. */
  function MergeInto<T(==)>(d: seq<T>, s: seq<T>): seq<T> {
    if s == [] then d
    else
      var front := MergeInto(d, s[..|s| - 1]);
      if s[|s| - 1] in front then front else front + [s[|s| - 1]]
  }

  function Dedup<T(==)>(s: seq<T>): seq<T> { MergeInto([], s) }

  function NonEmpty(s: seq<string>): seq<string> {
    if s == [] then [] else (if s[0] == "" then [] else [s[0]]) + NonEmpty(s[1..])
  }

  /** All tags written on a line behind the URL, up to a comment. */
  function RawTags(words: seq<string>): seq<string> {
    if words == [] then []
    else if StartsWith(words[0], "tags=") then NonEmpty(SplitAt(words[0][5..], ',')) + RawTags(words[1..])
    else if StartsWith(words[0], "#") then []
    else [words[0]] + RawTags(words[1..])
  }

  predicate IsRecord(line: string) {
    var w := Words(line);
    w != [] && !StartsWith(w[0], "#") && HasScheme(w[0])
  }

  /** The URL column of the file, with repetitions. */
  function UrlColumn(lines: seq<string>): seq<string> {
    if lines == [] then []
    else UrlColumn(lines[..|lines| - 1]) + (if IsRecord(lines[|lines| - 1]) then [Words(lines[|lines| - 1])[0]] else [])
  }

  /** Every tag the file gives to `url`, with repetitions, in order. */
  function TagsOf(lines: seq<string>, url: string): seq<string> {
    if lines == [] then []
    else
      var line := lines[|lines| - 1];
      TagsOf(lines[..|lines| - 1], url)
      + (if IsRecord(line) && Words(line)[0] == url then RawTags(Words(line)[1..]) else [])
  }

  function UrlsOf(out: seq<ParsedProxy>): seq<string> { seq(|out|, i requires 0 <= i < |out| => out[i].url) }

  /** What a file means: every URL once, where it first occurs, with all its tags, each once. */
  ghost predicate Means(lines: seq<string>, out: seq<ParsedProxy>) {
    && UrlsOf(out) == Dedup(UrlColumn(lines))
    && forall i :: 0 <= i < |out| ==> out[i].tags == Dedup(TagsOf(lines, out[i].url))
  }

  // ---- Lines, words and parts ----

  /** Lines end at newlines. */
  lemma {:induction false} LinesJoin(x: string, rest: string)
    requires '\n' !in x
    ensures Lines(x + "\n" + rest) == [x] + Lines(rest)
    ensures Lines(x) == if x == "" then [] else [x]
  {
    var s := x + "\n" + rest;
    UntilOfSum(x, "\n" + rest, c => c == '\n');
    UntilOfSum(x, "", c => c == '\n');
    assert x + "" == x && s == x + ("\n" + rest);
    assert s[..|x|] == x && s[|x| + 1..] == rest;
  }

  /** Words are what whitespace leaves: it separates, and nothing else does. */
  lemma {:induction false} WordsJoin(a: string, w: char, b: string)
    requires w in WHITE_SPACE
    ensures Words(a + [w] + b) == Words(a) + Words(b)
    decreases |a|
  {
    WhitespaceIff(w);
    var s := a + [w] + b;
    hide Words, IsWhitespace;
    OneWord("x");
    if a == "" {
      WordsSkip(s);
      assert s[1..] == b;
    } else if IsWhitespace(a[0]) {
      WordsSkip(a);
      WordsSkip(s);
      WordsJoin(a[1..], w, b);
      assert s[1..] == a[1..] + [w] + b;
    } else {
      var n := FirstWord(a);
      WordsJoin(a[n..], w, b);
      WordEnds(a[..n], a[n..]);
      WordEnds(a[..n], a[n..] + [w] + b);
      assert a == a[..n] + a[n..] && s == a[..n] + (a[n..] + [w] + b);
    }
  }

  lemma WordsSkip(s: string)
    requires s != "" && IsWhitespace(s[0])
    ensures Words(s) == Words(s[1..])
  {
  }

  lemma {:induction false} FirstWord(s: string) returns (n: nat)
    requires s != "" && !IsWhitespace(s[0])
    ensures 0 < n <= |s| && (forall c :: c in s[..n] ==> !IsWhitespace(c)) && (n == |s| || IsWhitespace(s[n]))
  {
    hide IsWhitespace;
    n := Until(s, c => IsWhitespace(c));
  }

  lemma {:induction false} WordEnds(x: string, rest: string)
    requires x != "" && (forall c :: c in x ==> !IsWhitespace(c)) && (rest == "" || IsWhitespace(rest[0]))
    ensures Words(x + rest) == [x] + Words(rest)
  {
    UntilOfSum(x, rest, c => IsWhitespace(c));
    assert (x + rest)[..|x|] == x && (x + rest)[|x|..] == rest;
  }

  lemma {:induction false} OneWord(x: string)
    requires x != "" && forall c :: c in x ==> c !in WHITE_SPACE
    ensures Words(x) == [x] && Words("") == []
  {
    forall c | c in x ensures !IsWhitespace(c) { WhitespaceIff(c); }
    WordEnds(x, "");
    assert x + "" == x;
  }

  /** `x` lies in `s` between two separators, or an end of `s`, and holds none itself. */
  predicate IsPart(s: string, x: string, sep: char) {
    sep !in x && exists i: nat | i <= |s| :: PartAt(s, x, sep, i)
  }

  predicate PartAt(s: string, x: string, sep: char, i: nat) {
    && i + |x| <= |s| && s[i..i + |x|] == x
    && (i == 0 || s[i - 1] == sep) && (i + |x| == |s| || s[i + |x|] == sep)
  }

  lemma {:induction false} PartsIff(s: string, sep: char, x: string)
    ensures x in SplitAt(s, sep) <==> IsPart(s, x, sep)
    decreases |s|
  {
    var n := Until(s, c => c == sep);
    hide IsPart;
    if n == |s| {
      OnlyPart(s, sep, x);
    } else {
      PartsIff(s[n + 1..], sep, x);
      PartsMore(s, sep, n, x);
    }
  }

  lemma {:induction false} OnlyPart(s: string, sep: char, x: string)
    requires forall k :: 0 <= k < |s| ==> s[k] != sep
    ensures x == s <==> IsPart(s, x, sep)
  {
    assert s[0..|s|] == s;
    if x == s { assert PartAt(s, x, sep, 0); }
  }

  lemma {:induction false} PartsMore(s: string, sep: char, n: nat, x: string)
    requires n < |s| && s[n] == sep && (forall k :: 0 <= k < n ==> s[k] != sep)
    ensures IsPart(s, x, sep) <==> x == s[..n] || IsPart(s[n + 1..], x, sep)
  {
    var rest := s[n + 1..];
    hide PartAt;
    if x == s[..n] {
      assert sep !in x && PartAt(s, x, sep, 0) by { FirstPart(s, sep, n); }
    }
    if sep !in x {
      forall i: nat | i <= |rest| && PartAt(rest, x, sep, i) ensures PartAt(s, x, sep, n + 1 + i) && n + 1 + i <= |s| {
        PartMoves(s, x, sep, n, i);
      }
      if IsPart(rest, x, sep) {
        var i: nat :| i <= |rest| && PartAt(rest, x, sep, i);
        assert PartAt(s, x, sep, n + 1 + i);
      }
      if IsPart(s, x, sep) {
        var i: nat :| i <= |s| && PartAt(s, x, sep, i);
        PartInRest(s, x, sep, n, i);
        if i > n { assert PartAt(rest, x, sep, i - n - 1); }
      }
    }
  }

  lemma FirstPart(s: string, sep: char, n: nat)
    requires n < |s| && s[n] == sep && (forall k :: 0 <= k < n ==> s[k] != sep)
    ensures sep !in s[..n] && PartAt(s, s[..n], sep, 0)
  {
    assert s[0..n] == s[..n];
  }

  lemma PartMoves(s: string, x: string, sep: char, n: nat, i: nat)
    requires n < |s| && s[n] == sep && PartAt(s[n + 1..], x, sep, i)
    ensures PartAt(s, x, sep, n + 1 + i)
  {
    assert s[n + 1 + i..n + 1 + i + |x|] == s[n + 1..][i..i + |x|];
  }

  lemma {:induction false} PartInRest(s: string, x: string, sep: char, n: nat, i: nat)
    requires n < |s| && s[n] == sep && (forall k :: 0 <= k < n ==> s[k] != sep)
    requires sep !in x && PartAt(s, x, sep, i)
    ensures if i <= n then x == s[..n] else PartAt(s[n + 1..], x, sep, i - n - 1)
  {
    if i <= n {
      assert i == 0;
      assert forall k :: 0 <= k < |x| ==> s[k] == x[k];
      assert |x| <= n;
      assert s[0..|x|] == s[..|x|];
    } else {
      assert s[n + 1..][i - n - 1..i - n - 1 + |x|] == s[i..i + |x|];
    }
  }

  /** A word gives a tag: itself, or behind `tags=` every non-empty part between commas. */
  predicate GivesTag(w: string, x: string) {
    if "tags=" <= w then x != "" && IsPart(w[5..], x, ',') else x == w
  }

  /** Word `k` gives the tag, and no word up to it begins with a hash. */
  predicate GivenAt(words: seq<string>, x: string, k: nat) {
    k < |words| && GivesTag(words[k], x) && forall j | 0 <= j <= k :: !("#" <= words[j])
  }

  /** A line gives the tags of its words up to a comment: from the first word that begins with
      a hash on none gives any, and every word before that gives its own. */
  lemma {:induction false} TagsIff(words: seq<string>, x: string)
    ensures x in RawTags(words) <==> exists k: nat :: GivenAt(words, x, k)
  {
    if words != [] {
      TagsIff(words[1..], x);
      GivenFurther(words, x);
      hide GivenAt, RawTags;
      FirstGives(words, x);
    }
  }

  lemma FirstGives(words: seq<string>, x: string)
    requires words != []
    ensures x in RawTags(words) <==> !("#" <= words[0]) && (GivesTag(words[0], x) || x in RawTags(words[1..]))
  {
    var w := words[0];
    WordGives(w, x);
    hide GivesTag, SplitAt, NonEmpty;
    if "#" <= w { assert w[0] == '#' && "tags="[0] == 't'; }
  }

  lemma {:induction false} GivenFurther(words: seq<string>, x: string)
    requires words != []
    ensures (exists k: nat :: GivenAt(words, x, k)) <==>
              !("#" <= words[0]) && (GivesTag(words[0], x) || exists k: nat :: GivenAt(words[1..], x, k))
  {
    hide GivesTag;
    var rest := words[1..];
    assert forall j: nat :: j < |rest| ==> rest[j] == words[j + 1];
    if k: nat :| GivenAt(words, x, k) {
      if k > 0 { assert GivenAt(rest, x, k - 1); }
    }
    if !("#" <= words[0]) {
      if GivesTag(words[0], x) { assert GivenAt(words, x, 0); }
      if k: nat :| GivenAt(rest, x, k) {
        forall j | 0 <= j <= k + 1 ensures !("#" <= words[j]) { if j > 0 { assert rest[j - 1] == words[j]; } }
        assert GivenAt(words, x, k + 1);
      }
    }
  }

  lemma {:induction false} WordGives(w: string, x: string)
    ensures "tags=" <= w ==> (x in NonEmpty(SplitAt(w[5..], ',')) <==> GivesTag(w, x))
    ensures !("tags=" <= w) ==> (x == w <==> GivesTag(w, x))
  {
    if "tags=" <= w {
      NonEmptyIs(SplitAt(w[5..], ','), x);
      PartsIff(w[5..], ',', x);
    }
  }

  lemma {:induction false} NonEmptyIs(s: seq<string>, x: string)
    ensures x in NonEmpty(s) <==> x != "" && x in s
  {
    if s != [] { NonEmptyIs(s[1..], x); }
  }

  // ---- Merging ----

  lemma {:induction false} MergeFacts<T>(d: seq<T>, s: seq<T>)
    ensures NoDup(d) ==> NoDup(MergeInto(d, s))
    ensures forall x :: x in MergeInto(d, s) <==> x in d || x in s
    ensures d <= MergeInto(d, s)
  {
    if s != [] {
      MergeFacts(d, s[..|s| - 1]);
      assert forall x :: x in s <==> x in s[..|s| - 1] || x == s[|s| - 1];
    }
  }

  lemma {:induction false} MergeConcat<T>(d: seq<T>, a: seq<T>, b: seq<T>)
    ensures MergeInto(d, a + b) == MergeInto(MergeInto(d, a), b)
  {
    if b == [] {
      assert a + b == a;
    } else {
      assert (a + b)[..|a + b| - 1] == a + b[..|b| - 1];
      MergeConcat(d, a, b[..|b| - 1]);
    }
  }

  /** Repetitions dropped early are dropped all the same. */
  lemma {:induction false} MergeDedup<T>(d: seq<T>, b: seq<T>)
    ensures MergeInto(d, Dedup(b)) == MergeInto(d, b)
  {
    if b != [] {
      var front, x := b[..|b| - 1], b[|b| - 1];
      MergeDedup(d, front);
      MergeFacts(d, front);
      MergeFacts([], front);
      if x !in Dedup(front) {
        assert Dedup(b) == Dedup(front) + [x];
        MergeConcat(d, Dedup(front), [x]);
        assert [x][..0] == [];
      }
    }
  }

  // ---- The code ----

  /** The tag loop of a line. */
  method ReadTags(words: seq<string>) returns (tags: seq<string>)
    ensures tags == Dedup(RawTags(words))
  {
    tags := [];
    var k := 0;
    while k < |words|
      invariant k <= |words|
      invariant Dedup(RawTags(words)) == MergeInto(tags, RawTags(words[k..]))
    {
      var tok := words[k];
      assert words[k..][0] == tok && words[k..][1..] == words[k + 1..];
      if StartsWith(tok, "tags=") {
        var parts := SplitAt(tok[5..], ',');
        MergeConcat(tags, NonEmpty(parts), RawTags(words[k + 1..]));
        tags := PushParts(tags, parts);
      } else if !StartsWith(tok, "#") && tok !in tags {
        MergeConcat(tags, [tok], RawTags(words[k + 1..]));
        assert [tok][..0] == [];
        tags := tags + [tok];
      } else if StartsWith(tok, "#") {
        break;
      } else {
        MergeConcat(tags, [tok], RawTags(words[k + 1..]));
        assert [tok][..0] == [];
      }
      k := k + 1;
    }
  }

  /** The comma loop of a `tags=` word. */
  method PushParts(tags0: seq<string>, parts: seq<string>) returns (tags: seq<string>)
    ensures tags == MergeInto(tags0, NonEmpty(parts))
  {
    tags := tags0;
    for k := 0 to |parts|
      invariant MergeInto(tags0, NonEmpty(parts)) == MergeInto(tags, NonEmpty(parts[k..]))
    {
      assert parts[k..][0] == parts[k] && parts[k..][1..] == parts[k + 1..];
      MergeConcat(tags, [parts[k]], NonEmpty(parts[k + 1..]));
      assert [parts[k]][..0] == [];
      assert [] + NonEmpty(parts[k + 1..]) == NonEmpty(parts[k + 1..]);
      if parts[k] != "" && parts[k] !in tags { tags := tags + [parts[k]]; }
    }
  }

  /** Tags of a URL seen before join those it has. */
  method MergeTags(known: seq<string>, tags: seq<string>) returns (merged: seq<string>)
    ensures merged == MergeInto(known, tags)
  {
    merged := known;
    for k := 0 to |tags|
      invariant merged == MergeInto(known, tags[..k])
    {
      assert tags[..k + 1][..k] == tags[..k];
      if tags[k] !in merged { merged := merged + [tags[k]]; }
    }
    assert tags[..|tags|] == tags;
  }

  method ParseProxies(content: string) returns (out: seq<ParsedProxy>)
    ensures Means(Lines(content), out)
  {
    hide Means, Words, Lines, RawTags, Dedup, HasScheme;
    var lines := Lines(content);
    out := [];
    MeansNothing();
    for k := 0 to |lines|
      invariant Means(lines[..k], out)
    {
      var w := Words(lines[k]);
      if w == [] || StartsWith(w[0], "#") || !HasScheme(w[0]) {
        NotARecord(lines, k, out);
        continue;
      }
      var url := w[0];
      var tags := ReadTags(w[1..]);
      var at := 0;
      while at < |out| && out[at].url != url
        invariant at <= |out| && forall j :: 0 <= j < at ==> out[j].url != url
      {
        at := at + 1;
      }
      if at < |out| {
        var merged := MergeTags(out[at].tags, tags);
        KnownUrl(lines, k, out, at);
        out := out[at := ParsedProxy(url, merged)];
      } else {
        NewUrl(lines, k, out);
        out := out + [ParsedProxy(url, tags)];
      }
    }
    assert lines[..|lines|] == lines;
  }

  // ---- One more line ----

  lemma MeansNothing()
    ensures Means([], [])
  {
  }

  lemma {:induction false} NotARecord(lines: seq<string>, k: nat, out: seq<ParsedProxy>)
    requires k < |lines| && Means(lines[..k], out) && !IsRecord(lines[k])
    ensures Means(lines[..k + 1], out)
  {
    assert lines[..k + 1][..k] == lines[..k];
    assert UrlColumn(lines[..k]) + [] == UrlColumn(lines[..k]);
    forall i | 0 <= i < |out| ensures out[i].tags == Dedup(TagsOf(lines[..k + 1], out[i].url)) {
      assert TagsOf(lines[..k], out[i].url) + [] == TagsOf(lines[..k], out[i].url);
    }
  }

  lemma {:induction false} UrlSeen(lines: seq<string>, out: seq<ParsedProxy>, url: string)
    requires Means(lines, out)
    ensures url in UrlColumn(lines) <==> exists i :: 0 <= i < |out| && out[i].url == url
    ensures url !in UrlColumn(lines) ==> TagsOf(lines, url) == []
    ensures forall i, j :: 0 <= i < j < |out| ==> out[i].url != out[j].url
  {
    MergeFacts([], UrlColumn(lines));
    NoTagsBefore(lines, url);
    assert NoDup(UrlsOf(out));
    forall i, j | 0 <= i < j < |out| ensures out[i].url != out[j].url { assert UrlsOf(out)[i] != UrlsOf(out)[j]; }
    if url in UrlColumn(lines) {
      assert url in UrlsOf(out);
      var i :| 0 <= i < |UrlsOf(out)| && UrlsOf(out)[i] == url;
      assert out[i].url == url;
    }
    if i :| 0 <= i < |out| && out[i].url == url { assert UrlsOf(out)[i] == url; }
  }

  lemma {:induction false} NoTagsBefore(lines: seq<string>, url: string)
    ensures url !in UrlColumn(lines) ==> TagsOf(lines, url) == []
  {
    if lines != [] { NoTagsBefore(lines[..|lines| - 1], url); }
  }

  /** What one more record adds to the columns. */
  lemma {:induction false} RecordAdds(lines: seq<string>, k: nat)
    requires k < |lines| && IsRecord(lines[k])
    ensures Words(lines[k]) != []
    ensures var url, raw := Words(lines[k])[0], RawTags(Words(lines[k])[1..]);
            && UrlColumn(lines[..k + 1]) == UrlColumn(lines[..k]) + [url]
            && TagsOf(lines[..k + 1], url) == TagsOf(lines[..k], url) + raw
            && forall u :: u != url ==> TagsOf(lines[..k + 1], u) == TagsOf(lines[..k], u)
  {
    hide Words, RawTags, HasScheme;
    var url := Words(lines[k])[0];
    assert lines[..k + 1][..k] == lines[..k];
    forall u | u != url ensures TagsOf(lines[..k + 1], u) == TagsOf(lines[..k], u) {
      assert TagsOf(lines[..k], u) + [] == TagsOf(lines[..k], u);
    }
  }

  lemma {:induction false} KnownUrl(lines: seq<string>, k: nat, out: seq<ParsedProxy>, at: nat)
    requires k < |lines| && Means(lines[..k], out) && IsRecord(lines[k])
    requires at < |out| && out[at].url == Words(lines[k])[0]
    ensures var raw := RawTags(Words(lines[k])[1..]);
            Means(lines[..k + 1], out[at := ParsedProxy(out[at].url, MergeInto(out[at].tags, Dedup(raw)))])
  {
    hide Words, RawTags, HasScheme, UrlColumn, TagsOf, IsRecord;
    RecordAdds(lines, k);
    var url, raw := out[at].url, RawTags(Words(lines[k])[1..]);
    var next := out[at := ParsedProxy(url, MergeInto(out[at].tags, Dedup(raw)))];
    UrlSeen(lines[..k], out, url);
    MergeFacts([], UrlColumn(lines[..k]));
    assert UrlsOf(next) == UrlsOf(out);
    MergeConcat([], UrlColumn(lines[..k]), [url]);
    assert [url][..0] == [];
    MergeDedup(out[at].tags, raw);
    MergeConcat([], TagsOf(lines[..k], url), raw);
    forall i | 0 <= i < |next| ensures next[i].tags == Dedup(TagsOf(lines[..k + 1], next[i].url)) {
      if i != at { assert out[i].url != url; }
    }
  }

  lemma {:induction false} NewUrl(lines: seq<string>, k: nat, out: seq<ParsedProxy>)
    requires k < |lines| && Means(lines[..k], out) && IsRecord(lines[k])
    requires forall i :: 0 <= i < |out| ==> out[i].url != Words(lines[k])[0]
    ensures var w := Words(lines[k]);
            Means(lines[..k + 1], out + [ParsedProxy(w[0], Dedup(RawTags(w[1..])))])
  {
    hide Words, RawTags, HasScheme, UrlColumn, TagsOf, IsRecord;
    RecordAdds(lines, k);
    var url, raw := Words(lines[k])[0], RawTags(Words(lines[k])[1..]);
    var next := out + [ParsedProxy(url, Dedup(raw))];
    UrlSeen(lines[..k], out, url);
    MergeFacts([], UrlColumn(lines[..k]));
    assert UrlsOf(next) == UrlsOf(out) + [url];
    MergeConcat([], UrlColumn(lines[..k]), [url]);
    assert [url][..0] == [];
    forall i | 0 <= i < |next| ensures next[i].tags == Dedup(TagsOf(lines[..k + 1], next[i].url)) {
      if i == |out| { assert TagsOf(lines[..k + 1], url) == [] + raw == raw; }
    }
  }

  // ---- What a parsed file guarantees ----

  ghost predicate WellFormed(out: seq<ParsedProxy>) {
    && NoDup(UrlsOf(out))
    && forall p :: p in out ==> NoDup(p.tags) && HasScheme(p.url) && !StartsWith(p.url, "#") && "" !in p.tags
  }

  /** Whatever the file holds, the parsed list has distinct URLs with a scheme and
      duplicate-free, non-empty tags, and no record of the file is missing. */
  lemma {:induction false} ParsedIsWellFormed(lines: seq<string>, out: seq<ParsedProxy>)
    requires Means(lines, out)
    ensures WellFormed(out)
    ensures forall l :: l in lines && IsRecord(l) ==>
              exists p :: p in out && p.url == Words(l)[0] && forall t :: t in RawTags(Words(l)[1..]) ==> t in p.tags
  {
    MergeFacts([], UrlColumn(lines));
    ColumnFacts(lines);
    forall p | p in out ensures NoDup(p.tags) && HasScheme(p.url) && !StartsWith(p.url, "#") && "" !in p.tags {
      var i :| 0 <= i < |out| && out[i] == p;
      MergeFacts([], TagsOf(lines, p.url));
      TagFacts(lines, p.url);
      assert UrlsOf(out)[i] == p.url;
      assert p.url in Dedup(UrlColumn(lines));
    }
    forall l | l in lines && IsRecord(l)
      ensures exists p :: p in out && p.url == Words(l)[0] && forall t :: t in RawTags(Words(l)[1..]) ==> t in p.tags
    {
      var url := Words(l)[0];
      UrlSeen(lines, out, url);
      var i :| 0 <= i < |out| && out[i].url == url;
      MergeFacts([], TagsOf(lines, url));
      TagFacts(lines, url);
      assert out[i] in out;
    }
  }

  lemma {:induction false} ColumnFacts(lines: seq<string>)
    ensures forall u :: u in UrlColumn(lines) ==> HasScheme(u) && !StartsWith(u, "#")
    ensures forall l :: l in lines && IsRecord(l) ==> Words(l)[0] in UrlColumn(lines)
  {
    if lines != [] {
      ColumnFacts(lines[..|lines| - 1]);
      assert forall l :: l in lines <==> l in lines[..|lines| - 1] || l == lines[|lines| - 1];
    }
  }

  lemma {:induction false} TagFacts(lines: seq<string>, url: string)
    ensures "" !in TagsOf(lines, url)
    ensures forall l, t :: l in lines && IsRecord(l) && Words(l)[0] == url && t in RawTags(Words(l)[1..]) ==>
              t in TagsOf(lines, url)
  {
    if lines != [] {
      var line := lines[|lines| - 1];
      TagFacts(lines[..|lines| - 1], url);
      assert forall l :: l in lines <==> l in lines[..|lines| - 1] || l == line;
      if IsRecord(line) {
        WordsNonEmpty(line);
        RawNonEmpty(Words(line)[1..]);
      }
    }
  }

  lemma {:induction false} WordsNonEmpty(s: string)
    ensures "" !in Words(s)
    decreases |s|
  {
    if s != "" {
      var n := Until(s, c => IsWhitespace(c));
      if n == 0 { WordsNonEmpty(s[1..]); } else { WordsNonEmpty(s[n..]); }
    }
  }

  lemma {:induction false} RawNonEmpty(words: seq<string>)
    requires "" !in words
    ensures "" !in RawTags(words)
  {
    if words != [] {
      RawNonEmpty(words[1..]);
      if StartsWith(words[0], "tags=") { PartsNonEmpty(SplitAt(words[0][5..], ',')); }
    }
  }

  lemma {:induction false} PartsNonEmpty(s: seq<string>)
    ensures "" !in NonEmpty(s)
  {
    if s != [] { PartsNonEmpty(s[1..]); }
  }
}
