/** Masking passwords in URLs and in free text (`intermediate-proxy/src/util.rs`). */
module Masking {
  import opened Prelude
  import opened Text

  predicate IsPathStart(c: char) { c in {'/', '?', '#'} }

  /** Where a URL in free text stops. */
  predicate IsDelimiter(c: char) { IsWhitespace(c) || c in {')', '"', '\'', '>', '<', ',', ';'} }

  function PathStart(): char -> bool { (c: char) => IsPathStart(c) }

  function Delimiter(): char -> bool { (c: char) => IsDelimiter(c) }

  function Is(d: char): char -> bool { (c: char) => c == d }

  /** The first "://". */
  function FindScheme(s: string): (r: Option<nat>)
    ensures r.Some? ==> SchemeAt(s, r.value) && forall j: nat :: j < r.value ==> !SchemeAt(s, j)
    ensures r.None? ==> forall j: nat :: !SchemeAt(s, j)
  {
    if s == "" then None
    else if SchemeAt(s, 0) then Some(0)
    else
      var r := FindScheme(s[1..]);
      assert forall j: nat :: j > 0 && SchemeAt(s, j) ==> SchemeAt(s[1..], j - 1);
      if r.Some? then Some(r.value + 1) else None
  }

  /** The last occurrence of a character. */
  function FindLast(s: string, d: char): (r: Option<nat>)
    ensures r.Some? ==> r.value < |s| && s[r.value] == d && forall j :: r.value < j < |s| ==> s[j] != d
    ensures r.None? ==> d !in s
  {
    if s == "" then None
    else if s[|s| - 1] == d then Some(|s| - 1)
    else FindLast(s[..|s| - 1], d)
  }

  // ---- One authority ----

  function MaskUser(user: string): string {
    var c := Until(user, Is(':'));
    if c < |user| then user[..c] + ":***" else user
  }

  function MaskAuthority(authority: string): string {
    match FindLast(authority, '@')
    case None => authority
    case Some(at) => MaskUser(authority[..at]) + "@" + authority[at + 1..]
  }

  /** A URL from behind its scheme. */
  function MaskRest(s: string): string {
    var n := Until(s, PathStart());
    MaskAuthority(s[..n]) + s[n..]
  }

  function Sanitize(url: string): string {
    match FindScheme(url)
    case None => url
    case Some(i) =>
      var afterScheme := url[i + 3..];
      var authorityEnd := Until(afterScheme, PathStart());
      var authority := afterScheme[..authorityEnd];
      match FindLast(authority, '@')
      case None => url
      case Some(at) =>
        url[..i] + "://" + MaskUser(authority[..at]) + "@" + authority[at + 1..] + afterScheme[authorityEnd..]
  }

  // ---- Free text ----

  /** The text up to the delimiter behind a URL, its password masked, and what follows. */
  function ScrubOne(text: string, i: nat): (r: (string, string))
    requires SchemeAt(text, i)
    ensures |r.1| < |text|
  {
    var tail := text[i + 3..];
    var boundary := Until(tail, Delimiter());
    (text[..i + 3] + MaskRest(tail[..boundary]), tail[boundary..])
  }

  function Scrubbed(text: string): string
    decreases |text|
  {
    match FindScheme(text)
    case None => text
    case Some(i) => ScrubOne(text, i).0 + Scrubbed(ScrubOne(text, i).1)
  }

  method Scrub(text: string) returns (out: string)
    ensures out == Scrubbed(text)
    ensures Scrubbed(out) == out
  {
    hide Scrubbed, MaskRest, MaskAuthority, FindScheme, FindLast, IsDelimiter, IsPathStart, Until;
    out := "";
    var rest := text;
    var found := FindScheme(rest);
    while found.Some?
      invariant found == FindScheme(rest)
      invariant out + Scrubbed(rest) == Scrubbed(text)
      decreases |rest|
    {
      var idx := found.value;
      ghost var before, was := out, rest;
      out := out + rest[..idx + 3];
      var tail := rest[idx + 3..];
      var boundary := Until(tail, Delimiter());
      var chunk := tail[..boundary];
      var authorityEnd := Until(chunk, PathStart());
      var authority, afterAuthority := chunk[..authorityEnd], chunk[authorityEnd..];
      var maskedAuthority := authority;
      var at := FindLast(authority, '@');
      if at.Some? {
        var userinfo, host := authority[..at.value], authority[at.value + 1..];
        var colon := Until(userinfo, Is(':'));
        var maskedUserinfo := if colon < |userinfo| then userinfo[..colon] + ":***" else userinfo;
        maskedAuthority := maskedUserinfo + "@" + host;
      }
      AuthorityIs(authority, maskedAuthority);
      out := out + maskedAuthority;
      out := out + afterAuthority;
      rest := tail[boundary..];
      found := FindScheme(rest);
      ScrubStep(was, idx);
      RestIs(chunk);
      assert out + Scrubbed(rest) == before + Scrubbed(was) by {
        Regroup4(before, was[..idx + 3], maskedAuthority, afterAuthority, Scrubbed(rest));
      }
    }
    ScrubPlain(rest);
    out := out + rest;
    ScrubTwice(text);
  }

  lemma Regroup4(a: string, b: string, c: string, d: string, e: string)
    ensures a + b + c + d + e == a + (b + (c + d) + e)
  {
  }

  lemma AuthorityIs(a: string, m: string)
    requires var at := FindLast(a, '@');
             m == if at.None? then a
                  else
                    var user := a[..at.value];
                    var c := Until(user, Is(':'));
                    (if c < |user| then user[..c] + ":***" else user) + "@" + a[at.value + 1..]
    ensures m == MaskAuthority(a)
  {
  }

  lemma RestIs(s: string)
    ensures var n := Until(s, PathStart()); MaskRest(s) == MaskAuthority(s[..n]) + s[n..]
  {
  }

  lemma Regroup(a: string, b: string, c: string)
    ensures a + (b + c) == (a + b) + c
  {
  }

  lemma ScrubPlain(s: string)
    requires FindScheme(s).None?
    ensures Scrubbed(s) == s
  {
  }

  lemma {:induction false} ScrubStep(s: string, i: nat)
    requires FindScheme(s) == Some(i)
    ensures i + 3 <= |s|
    ensures var tail := s[i + 3..];
            var boundary := Until(tail, Delimiter());
            Scrubbed(s) == s[..i + 3] + MaskRest(tail[..boundary]) + Scrubbed(tail[boundary..])
  {
    hide MaskRest, FindScheme, Until, IsDelimiter, ScrubOne;
    assert SchemeAt(s, i);
    assert Scrubbed(s) == ScrubOne(s, i).0 + Scrubbed(ScrubOne(s, i).1);
    ScrubOneIs(s, i);
  }

  lemma ScrubOneIs(s: string, i: nat)
    requires SchemeAt(s, i)
    ensures var tail := s[i + 3..];
            var boundary := Until(tail, Delimiter());
            ScrubOne(s, i) == (s[..i + 3] + MaskRest(tail[..boundary]), tail[boundary..])
  {
  }

  // ---- Searching in what is put together ----

  lemma SchemeIs(s: string, i: nat)
    requires SchemeAt(s, i) && forall j: nat :: j < i ==> !SchemeAt(s, j)
    ensures FindScheme(s) == Some(i)
  {
  }

  /** What follows the first scheme does not move it. */
  lemma {:induction false} SchemeStays(head: string, x: string, y: string)
    requires |head| >= 3 && FindScheme(head + x) == Some(|head| - 3)
    ensures FindScheme(head + y) == Some(|head| - 3)
  {
    var i := |head| - 3;
    assert SchemeAt(head + x, i);
    forall j: nat | j < i ensures !SchemeAt(head + y, j) { assert !SchemeAt(head + x, j); }
    SchemeIs(head + y, i);
  }

  lemma {:induction false} FindLastIs(a: string, b: string, d: char)
    requires d !in b
    ensures FindLast(a + [d] + b, d) == Some(|a|)
  {
    var s := a + [d] + b;
    assert s[|a|] == d;
    assert d in s;
    forall j | |a| < j < |s| ensures s[j] != d {
      assert s[j] == b[j - |a| - 1];
      assert s[j] in b;
    }
  }

  // ---- Masking twice ----

  lemma {:induction false} MaskUserParts(u: string, p: string)
    requires ':' !in u
    ensures MaskUser(u) == u
    ensures MaskUser(u + ":" + p) == u + ":***"
  {
    UntilOfSum(u, "", Is(':'));
    assert u + "" == u;
    assert u + ":" + p == u + (":" + p);
    UntilOfSum(u, ":" + p, Is(':'));
  }

  lemma {:induction false} MaskUserTwice(user: string)
    ensures MaskUser(MaskUser(user)) == MaskUser(user)
  {
    hide Until;
    var c := Until(user, Is(':'));
    if c < |user| {
      var u := user[..c];
      assert ':' !in u;
      MaskUserParts(u, "***");
      assert u + ":***" == u + ":" + "***";
    }
  }

  lemma {:induction false} MaskAuthorityParts(user: string, host: string)
    requires '@' !in host
    ensures MaskAuthority(user + "@" + host) == MaskUser(user) + "@" + host
  {
    hide MaskUser, FindLast;
    var a := user + "@" + host;
    assert a == user + ['@'] + host;
    FindLastIs(user, host, '@');
    assert a[..|user|] == user && a[|user| + 1..] == host;
  }

  lemma {:induction false} MaskAuthorityTwice(a: string)
    ensures MaskAuthority(MaskAuthority(a)) == MaskAuthority(a)
  {
    hide MaskUser, FindLast;
    var r := FindLast(a, '@');
    if r.Some? {
      var user, host := a[..r.value], a[r.value + 1..];
      assert '@' !in host;
      MaskAuthorityParts(MaskUser(user), host);
      MaskUserTwice(user);
    }
  }

  /** Masking adds nothing but colons and stars. */
  lemma {:induction false} MaskAddsLittle(a: string)
    ensures forall c :: c in MaskAuthority(a) ==> c in a || c == ':' || c == '*'
    ensures a == "" ==> MaskAuthority(a) == ""
  {
    var r := FindLast(a, '@');
    if r.Some? {
      var user, host := a[..r.value], a[r.value + 1..];
      var n := Until(user, Is(':'));
      forall c | c in MaskAuthority(a) ensures c in a || c == ':' || c == '*' {
        if c in host || c == '@' {
        } else if n < |user| {
          assert c in user[..n] || c in ":***";
        }
      }
    }
  }

  lemma {:induction false} MaskRestParts(a: string, after: string)
    requires forall c :: c in a ==> !IsPathStart(c)
    requires after == "" || IsPathStart(after[0])
    ensures MaskRest(a + after) == MaskAuthority(a) + after
  {
    UntilOfSum(a, after, PathStart());
    assert (a + after)[..|a|] == a && (a + after)[|a|..] == after;
  }

  lemma {:induction false} MaskRestTwice(s: string)
    ensures MaskRest(MaskRest(s)) == MaskRest(s)
    ensures forall c :: c in MaskRest(s) ==> c in s || c == ':' || c == '*'
  {
    var n := Until(s, PathStart());
    var a, after := s[..n], s[n..];
    MaskAddsLittle(a);
    MaskRestParts(MaskAuthority(a), after);
    MaskAuthorityTwice(a);
  }

  lemma ScrubStart(s: string)
    ensures s == "" <==> Scrubbed(s) == ""
    ensures s != "" ==> Scrubbed(s)[0] == s[0]
  {
    hide FindScheme, MaskRest, Until, IsDelimiter;
  }

  /** A text put together from a head that ends with its first scheme, a URL without
      delimiters, and the rest. */
  lemma {:induction false} ScrubParts(head: string, chunk: string, rest: string)
    requires |head| >= 3 && FindScheme(head + chunk + rest) == Some(|head| - 3)
    requires forall c :: c in chunk ==> !IsDelimiter(c)
    requires rest == "" || IsDelimiter(rest[0])
    ensures Scrubbed(head + chunk + rest) == head + MaskRest(chunk) + Scrubbed(rest)
  {
    hide Scrubbed, MaskRest, FindScheme, IsDelimiter, Until;
    var s := head + chunk + rest;
    assert s[..|head|] == head && s[|head|..] == chunk + rest;
    UntilOfSum(chunk, rest, Delimiter());
    assert (chunk + rest)[..|chunk|] == chunk && (chunk + rest)[|chunk|..] == rest;
    ScrubStep(s, |head| - 3);
  }

  lemma MaskIsClean()
    ensures !IsDelimiter(':') && !IsDelimiter('*')
  {
  }

  /** A URL cut off at its delimiter has none, masked or not. */
  lemma {:induction false} ChunkIsClean(tail: string)
    ensures var b := Until(tail, Delimiter());
            && (forall c :: c in tail[..b] ==> !IsDelimiter(c))
            && (forall c :: c in MaskRest(tail[..b]) ==> !IsDelimiter(c))
            && (tail[b..] == "" || IsDelimiter(tail[b..][0]))
  {
    hide MaskRest, IsDelimiter;
    var b := Until(tail, Delimiter());
    forall c | c in tail[..b] ensures !IsDelimiter(c) {
      var k :| 0 <= k < b && tail[..b][k] == c;
      assert !Delimiter()(tail[k]);
    }
    MaskRestTwice(tail[..b]);
    MaskIsClean();
    if b < |tail| { assert tail[b..][0] == tail[b]; }
  }

  /** Scrubbing again changes nothing, whatever the text. */
  lemma {:induction false} ScrubTwice(s: string)
    ensures Scrubbed(Scrubbed(s)) == Scrubbed(s)
    decreases |s|
  {
    hide Scrubbed, MaskRest, IsDelimiter, FindScheme;
    var f := FindScheme(s);
    if f.None? {
      ScrubPlain(s);
    } else {
      var head, tail := s[..f.value + 3], s[f.value + 3..];
      var b := Until(tail, Delimiter());
      var chunk, rest := tail[..b], tail[b..];
      assert s == head + tail;
      ScrubStep(s, f.value);
      ChunkIsClean(tail);
      MaskRestTwice(chunk);
      ScrubStart(rest);
      ScrubTwice(rest);
      ScrubPartsTwice(head, tail, MaskRest(chunk), Scrubbed(rest));
    }
  }

  lemma {:induction false} ScrubPartsTwice(head: string, tail: string, chunk: string, rest: string)
    requires |head| >= 3 && FindScheme(head + tail) == Some(|head| - 3)
    requires forall c :: c in chunk ==> !IsDelimiter(c)
    requires rest == "" || IsDelimiter(rest[0])
    requires MaskRest(chunk) == chunk && Scrubbed(rest) == rest
    ensures Scrubbed(head + chunk + rest) == head + chunk + rest
  {
    hide Scrubbed, MaskRest, IsDelimiter, FindScheme;
    SchemeStays(head, tail, chunk + rest);
    Regroup(head, chunk, rest);
    ScrubParts(head, chunk, rest);
  }

  // ---- Scrubbing and sanitizing ----

  lemma {:induction false} SanitizeParts(url: string)
    ensures Sanitize(url)
            == match FindScheme(url) case None => url case Some(i) => url[..i + 3] + MaskRest(url[i + 3..])
  {
    hide MaskUser, FindScheme, FindLast, Until, IsPathStart;
    var f := FindScheme(url);
    if f.Some? {
      var i := f.value;
      var rest := url[i + 3..];
      var n := Until(rest, PathStart());
      var authority, after := rest[..n], rest[n..];
      assert url == url[..i + 3] + rest && rest == authority + after;
      assert url[..i] + "://" == url[..i + 3];
      var at := FindLast(authority, '@');
      if at.Some? {
        var user, host := MaskUser(authority[..at.value]), authority[at.value + 1..];
        Regroup(url[..i + 3], user, "@");
        Regroup(url[..i + 3], user + "@", host);
        Regroup(url[..i + 3], user + "@" + host, after);
      }
    }
  }

  /** On a text that is one URL, without a delimiter, scrubbing is sanitizing. */
  lemma {:induction false} ScrubIsSanitize(s: string)
    requires forall c :: c in s ==> !IsDelimiter(c)
    ensures Scrubbed(s) == Sanitize(s)
  {
    hide Scrubbed, Sanitize, MaskRest, FindScheme, IsDelimiter;
    SanitizeParts(s);
    var f := FindScheme(s);
    if f.None? {
      ScrubPlain(s);
    } else {
      var head, chunk := s[..f.value + 3], s[f.value + 3..];
      assert s == head + chunk + "";
      ScrubParts(head, chunk, "");
      ScrubStart("");
      assert head + MaskRest(chunk) + "" == head + MaskRest(chunk);
    }
  }

  lemma {:induction false} SanitizeTwice(url: string)
    ensures Sanitize(Sanitize(url)) == Sanitize(url)
  {
    hide Sanitize, MaskRest, FindScheme;
    SanitizeParts(url);
    var f := FindScheme(url);
    if f.Some? {
      var head, tail := url[..f.value + 3], url[f.value + 3..];
      assert url == head + tail;
      MaskRestTwice(tail);
      SchemeStays(head, tail, MaskRest(tail));
      SanitizeParts(head + MaskRest(tail));
      assert (head + MaskRest(tail))[..|head|] == head && (head + MaskRest(tail))[|head|..] == MaskRest(tail);
    }
  }

  // ---- The password ----

  lemma {:induction false} SchemeBehind(pre: string, x: string)
    requires !HasScheme(pre)
    ensures FindScheme(pre + "://" + x) == Some(|pre|)
  {
    var s := pre + "://" + x;
    assert SchemeAt(s, |pre|);
    assert s[|pre|] == ':' && s[|pre| + 1] == '/';
    forall j: nat | j < |pre| ensures !SchemeAt(s, j) {
      if j + 3 <= |pre| { assert !SchemeAt(pre, j); }
    }
    SchemeIs(s, |pre|);
  }

  function Credentials(user: string, pass: string, host: string): string { user + ":" + pass + "@" + host }

  function Url(pre: string, user: string, pass: string, host: string, rest: string): string {
    pre + "://" + (Credentials(user, pass, host) + rest)
  }

  predicate Plain(s: string) { forall c :: c in s ==> !IsPathStart(c) }

  lemma {:induction false} MaskCredentials(user: string, pass: string, host: string)
    requires ':' !in user && '@' !in host
    ensures MaskAuthority(Credentials(user, pass, host)) == Credentials(user, "***", host)
  {
    MaskAuthorityParts(user + ":" + pass, host);
    MaskUserParts(user, pass);
    assert user + ":***" == user + ":" + "***";
  }

  lemma CredentialsArePlain(user: string, pass: string, host: string)
    requires Plain(user) && Plain(pass) && Plain(host)
    ensures Plain(Credentials(user, pass, host))
  {
  }

  /** Where what follows the host begins a path, a query or a fragment, or is missing,
      a URL comes out with its password masked exactly if neither that nor the user has a
      slash, question mark or hash, and no scheme comes before (or the password is the mask). */
  lemma {:induction false} PasswordIsMaskedIff(pre: string, user: string, pass: string, host: string, rest: string)
    requires Plain(host) && ':' !in user && '@' !in host
    requires rest == "" || IsPathStart(rest[0])
    ensures var out, masked := Sanitize(Url(pre, user, pass, host, rest)), Url(Sanitize(pre), user, "***", host, rest);
            && (Plain(user) && Plain(pass) && !HasScheme(pre) ==> out == masked)
            && (out == masked ==> (Plain(user) && Plain(pass) && !HasScheme(pre)) || pass == "***")
  {
    hide MaskRest, Credentials, IsPathStart, Sanitize, FindScheme, HasScheme, Plain;
    var head, mask := Sanitize(pre) + "://", Credentials(user, "***", host) + rest;
    var cred := Credentials(user, pass, host) + rest;
    SanitizeUrl(pre, cred);
    SameTail(head, if HasScheme(pre) then cred else MaskRest(cred), mask);
    SameCredentials(user, pass, host, rest);
    MaskedCredentials(user, pass, host, rest);
  }

  lemma {:induction false} MaskPlainRest(a: string, after: string)
    requires Plain(a)
    requires after == "" || IsPathStart(after[0])
    ensures MaskRest(a + after) == MaskAuthority(a) + after
  {
    MaskRestParts(a, after);
  }

  lemma {:induction false} SanitizeUrl(pre: string, tail: string)
    ensures Sanitize(pre + "://" + tail) == Sanitize(pre) + "://" + (if HasScheme(pre) then tail else MaskRest(tail))
  {
    hide Sanitize, MaskRest, FindScheme, HasScheme;
    var url := pre + "://" + tail;
    SchemeFound(pre);
    SanitizeParts(pre);
    SanitizeParts(url);
    var f := FindScheme(pre);
    if f.None? {
      SchemeBehind(pre, tail);
      assert url[..|pre| + 3] == pre + "://" && url[|pre| + 3..] == tail;
    } else {
      var head, mid := pre[..f.value + 3], pre[f.value + 3..];
      assert pre == head + mid;
      SchemeStays(head, mid, mid + "://" + tail);
      assert url == head + (mid + "://" + tail);
      assert url[..|head|] == head && url[|head|..] == mid + "://" + tail;
      MaskRestStops(mid, tail);
      Regroup(head, MaskRest(mid), "://");
      Regroup(head, MaskRest(mid) + "://", tail);
    }
  }

  lemma {:induction false} SameTail(head: string, x: string, y: string)
    ensures head + x == head + y <==> x == y
  {
    if head + x == head + y {
      assert x == (head + x)[|head|..] == (head + y)[|head|..] == y;
    }
  }

  lemma PlainSum(a: string, b: string)
    requires Plain(a) && Plain(b)
    ensures Plain(a + ":" + b)
  {
  }

  lemma {:induction false} PlainUpTo(s: string)
    ensures Plain(s[..Until(s, PathStart())])
  {
    var p := s[..Until(s, PathStart())];
    forall c | c in p ensures !IsPathStart(c) {
      var k :| 0 <= k < |p| && p[k] == c;
      assert !PathStart()(s[k]);
    }
  }

  /** A password with a path character in it ends the authority early, and more of the
      URL is kept than a masked one has. */
  lemma {:induction false} MaskStopsShort(user: string, pass: string, host: string, rest: string)
    requires Plain(user) && !Plain(pass) && ':' !in user
    ensures MaskRest(Credentials(user, pass, host) + rest) != Credentials(user, "***", host) + rest
  {
    hide MaskRest, MaskAuthority, IsPathStart, Until;
    var n := Until(pass, PathStart());
    PlainUpTo(pass);
    assert n < |pass| by { assert pass[..|pass|] == pass; }
    assert PathStart()(pass[n]);
    var p, q := pass[..n], pass[n..];
    var a, after := user + ":" + p, q + ("@" + host + rest);
    assert Credentials(user, pass, host) + rest == a + after by {
      hide IsPathStart;
      assert pass == p + q;
    }
    assert after[0] == pass[n];
    PlainSum(user, p);
    MaskPlainRest(a, after);
    MaskEarly(user, p);
    DiffersBehind(user, pass, n, host, rest, MaskAuthority(a), after);
  }

  /** Cut off inside the password, the authority keeps the password's start, or more
      comes behind the mask. */
  lemma {:induction false} MaskEarly(user: string, p: string)
    requires ':' !in user
    ensures MaskAuthority(user + ":" + p) == user + ":" + p
         || (|MaskAuthority(user + ":" + p)| >= |user| + 5)
  {
    var a := user + ":" + p;
    var r := FindLast(a, '@');
    if r.Some? {
      var at := r.value;
      if at < |user| {
        MaskUserParts(user[..at], "");
        assert a[..at] == user[..at];
        assert a == a[..at] + "@" + a[at + 1..];
      } else {
        assert a[|user|] == ':';
        EarlyUser(user, p, at);
      }
    }
  }

  lemma {:induction false} EarlyUser(user: string, p: string, at: nat)
    requires ':' !in user && |user| < at <= |user| + 1 + |p|
    ensures MaskUser((user + ":" + p)[..at]) == user + ":***"
  {
    var k := at - |user| - 1;
    assert (user + ":" + p)[..at] == user + ":" + p[..k];
    MaskUserParts(user, p[..k]);
  }

  lemma {:induction false} DiffersBehind(user: string, pass: string, n: nat, host: string, rest: string, masked: string,
          after: string)
    requires n < |pass| && IsPathStart(pass[n])
    requires after == pass[n..] + ("@" + host + rest)
    requires masked == user + ":" + pass[..n] || |masked| >= |user| + 5
    ensures masked + after != Credentials(user, "***", host) + rest
  {
    var goal := Credentials(user, "***", host) + rest;
    assert |goal| == |user| + 5 + |host| + |rest|;
    assert |after| == |pass| - n + 1 + |host| + |rest|;
    if masked == user + ":" + pass[..n] && |pass| == 3 {
      var k := |user| + 1 + n;
      assert goal[k] == '*';
      assert (masked + after)[k] == after[0] == pass[n];
    }
  }

  // ---- The password in free text ----

  /** A scheme lies in a text or behind the delimiter that follows it, never across. */
  lemma {:induction false} SchemeInSum(a: string, t: string)
    requires t == "" || IsDelimiter(t[0])
    ensures FindScheme(a).Some? ==> FindScheme(a + t) == FindScheme(a)
    ensures FindScheme(a).None? && FindScheme(t).None? ==> FindScheme(a + t).None?
    ensures FindScheme(a).None? && FindScheme(t).Some? ==> FindScheme(a + t) == Some(|a| + FindScheme(t).value)
  {
    hide FindScheme;
    SchemeCharsAreClean();
    forall j: nat ensures SchemeAt(a + t, j) <==> SchemeAt(a, j) || (j >= |a| && SchemeAt(t, j - |a|)) {
      if j < |a| && |a| < j + 3 <= |a + t| { assert (a + t)[|a|] == t[0]; }
    }
    var f, g := FindScheme(a), FindScheme(t);
    if f.Some? {
      SchemeIs(a + t, f.value);
    } else if g.Some? {
      SchemeIs(a + t, |a| + g.value);
    }
  }

  lemma SchemeCharsAreClean()
    ensures !IsDelimiter(':') && !IsDelimiter('/')
  {
  }

  /** Scrubbing works on both sides of a delimiter by itself. */
  lemma {:induction false} ScrubSplits(a: string, t: string)
    requires t == "" || IsDelimiter(t[0])
    ensures Scrubbed(a + t) == Scrubbed(a) + Scrubbed(t)
    decreases |a|
  {
    hide Scrubbed, MaskRest, FindScheme, IsDelimiter, Until;
    SchemeInSum(a, t);
    var f := FindScheme(a);
    if f.None? {
      ScrubPlain(a);
      ScrubBehind(a, t);
    } else {
      var head, tail := a[..f.value + 3], a[f.value + 3..];
      var b := Until(tail, Delimiter());
      ScrubStep(a, f.value);
      ChunkIsClean(tail);
      ScrubSplits(tail[b..], t);
      assert a == head + tail[..b] + tail[b..];
      ScrubPiece(head, tail[..b], tail[b..], t);
    }
  }

  lemma {:induction false} ScrubPiece(head: string, chunk: string, rest: string, t: string)
    requires |head| >= 3 && FindScheme(head + chunk + rest + t) == Some(|head| - 3)
    requires forall c :: c in chunk ==> !IsDelimiter(c)
    requires (rest == "" || IsDelimiter(rest[0])) && (t == "" || IsDelimiter(t[0]))
    requires Scrubbed(rest + t) == Scrubbed(rest) + Scrubbed(t)
    ensures Scrubbed(head + chunk + rest + t) == head + MaskRest(chunk) + Scrubbed(rest) + Scrubbed(t)
  {
    hide Scrubbed, MaskRest, FindScheme, IsDelimiter;
    Regroup(head + chunk, rest, t);
    assert rest + t == "" || (rest + t)[0] == if rest == "" then t[0] else rest[0];
    ScrubParts(head, chunk, rest + t);
    Regroup(head + MaskRest(chunk), Scrubbed(rest), Scrubbed(t));
  }

  lemma {:induction false} ScrubBehind(a: string, t: string)
    requires FindScheme(a).None? && (t == "" || IsDelimiter(t[0]))
    ensures Scrubbed(a + t) == a + Scrubbed(t)
  {
    hide Scrubbed, MaskRest, FindScheme, IsDelimiter, Until;
    SchemeInSum(a, t);
    var g := FindScheme(t);
    if g.None? {
      ScrubPlain(a + t);
      ScrubPlain(t);
    } else {
      var s, i := a + t, |a| + g.value;
      ScrubStep(s, i);
      ScrubStep(t, g.value);
      assert s[..i + 3] == a + t[..g.value + 3] && s[i + 3..] == t[g.value + 3..];
      var tail := t[g.value + 3..];
      var b := Until(tail, Delimiter());
      Regroup(a, t[..g.value + 3], MaskRest(tail[..b]));
      Regroup(a, t[..g.value + 3] + MaskRest(tail[..b]), Scrubbed(tail[b..]));
    }
  }

  predicate Clean(s: string) { forall c :: c in s ==> !IsDelimiter(c) }

  /** The part behind the last delimiter. */
  function Near(s: string): (r: string)
    ensures |r| <= |s| && s[|s| - |r|..] == r && Clean(r)
    ensures r == s || IsDelimiter(s[|s| - |r| - 1])
  {
    if s == "" || IsDelimiter(s[|s| - 1]) then "" else Near(s[..|s| - 1]) + [s[|s| - 1]]
  }

  lemma {:induction false} ScrubDelimiter(d: char, t: string)
    requires IsDelimiter(d)
    ensures Scrubbed([d] + t) == [d] + Scrubbed(t)
  {
    hide Scrubbed, MaskRest, IsDelimiter, FindScheme;
    SchemeBehindDelimiter(d, t);
    var f := FindScheme(t);
    if f.None? {
      ScrubPlain(t);
      ScrubPlain([d] + t);
    } else {
      var tail := t[f.value + 3..];
      var b := Until(tail, Delimiter());
      ScrubStep(t, f.value);
      ScrubStep([d] + t, f.value + 1);
      assert ([d] + t)[..f.value + 4] == [d] + t[..f.value + 3] && ([d] + t)[f.value + 4..] == tail;
      Regroup([d], t[..f.value + 3], MaskRest(tail[..b]));
      Regroup([d], t[..f.value + 3] + MaskRest(tail[..b]), Scrubbed(tail[b..]));
    }
  }

  lemma {:induction false} SchemeBehindDelimiter(d: char, t: string)
    requires IsDelimiter(d)
    ensures FindScheme([d] + t) == if FindScheme(t).Some? then Some(FindScheme(t).value + 1) else None
  {
    SchemeCharsAreClean();
    assert ([d] + t)[1..] == t;
  }

  /** And it works by itself on what follows a delimiter. */
  lemma {:induction false} ScrubSplitsBehind(a: string, t: string)
    requires a == "" || IsDelimiter(a[|a| - 1])
    ensures Scrubbed(a + t) == Scrubbed(a) + Scrubbed(t)
  {
    hide Scrubbed, IsDelimiter;
    ScrubStart("");
    if a == "" {
      assert a + t == t;
    } else {
      var front, d := a[..|a| - 1], a[|a| - 1];
      assert a == front + [d] && a + t == front + ([d] + t);
      ScrubSplits(front, [d]);
      ScrubSplits(front, [d] + t);
      assert [d] + "" == [d];
      ScrubDelimiter(d, "");
      ScrubDelimiter(d, t);
      Regroup(Scrubbed(front), [d], Scrubbed(t));
    }
  }

  /** A scheme later in a stretch does not count: what is masked of the stretch stays, and
      what follows it as well. */
  lemma {:induction false} MaskRestStops(m: string, x: string)
    ensures MaskRest(m + "://" + x) == MaskRest(m) + "://" + x
  {
    hide MaskRest, MaskAuthority, IsPathStart, Until;
    var n := Until(m, PathStart());
    var a, after := m[..n], m[n..];
    PlainUpTo(m);
    assert m == a + after;
    if n < |m| {
      assert PathStart()(m[n]);
      MaskPlainRest(a, after);
      MaskPlainRest(a, after + "://" + x);
      Regroup(a, after, "://");
      Regroup(a, after + "://", x);
      Regroup(MaskAuthority(a), after, "://");
      Regroup(MaskAuthority(a), after + "://", x);
    } else {
      assert a == m;
      MaskWholeRest(m, x);
    }
  }

  lemma {:induction false} MaskWholeRest(m: string, x: string)
    requires Plain(m)
    ensures MaskRest(m + "://" + x) == MaskRest(m) + "://" + x
  {
    hide MaskRest, MaskAuthority;
    MaskPlainRest(m, "");
    assert m + "" == m;
    assert m + "://" + x == m + ":" + ("//" + x);
    MaskPlainRest(m + ":", "//" + x);
    MaskBeforeColon(m);
  }

  lemma {:induction false} MaskBeforeColon(m: string)
    ensures MaskAuthority(m + ":") == MaskAuthority(m) + ":"
  {
    hide MaskUser, FindLast;
    var f := FindLast(m, '@');
    if f.None? {
      assert FindLast(m + ":", '@').None?;
    } else {
      hide MaskAuthority;
      var user, host := m[..f.value], m[f.value + 1..];
      assert m == user + "@" + host;
      Regroup(user + "@", host, ":");
      assert '@' !in host + ":";
      MaskAuthorityParts(user, host);
      MaskAuthorityParts(user, host + ":");
      Regroup(MaskUser(user) + "@", host, ":");
    }
  }

  /** A stretch without delimiters behind `pre` is masked as a URL of its own, unless there
      is another scheme in front of it since the last delimiter: then it stays as it is. */
  lemma {:induction false} UrlInText(pre: string, tail: string, text: string)
    requires Clean(tail) && (text == "" || IsDelimiter(text[0]))
    ensures Scrubbed(pre + "://" + tail + text)
         == Scrubbed(pre) + "://" + (if HasScheme(Near(pre)) then tail else MaskRest(tail)) + Scrubbed(text)
  {
    hide Scrubbed, MaskRest, IsDelimiter, HasScheme, Near;
    var near := Near(pre);
    var far := pre[..|pre| - |near|];
    var made := if HasScheme(near) then tail else MaskRest(tail);
    assert pre == far + near;
    ScrubSplitsBehind(far, near);
    ScrubSplitsBehind(far, near + "://" + tail + text);
    UrlNear(near, tail, text);
    RegroupUrl(far, near, tail, text);
    RegroupUrl(Scrubbed(far), Scrubbed(near), made, Scrubbed(text));
  }

  lemma RegroupUrl(a: string, b: string, c: string, d: string)
    ensures a + b + "://" + c + d == a + (b + "://" + c + d)
  {
  }

  lemma {:induction false} UrlNear(near: string, tail: string, text: string)
    requires Clean(near) && Clean(tail) && (text == "" || IsDelimiter(text[0]))
    ensures Scrubbed(near + "://" + tail + text)
         == Scrubbed(near) + "://" + (if HasScheme(near) then tail else MaskRest(tail)) + Scrubbed(text)
  {
    hide Scrubbed, MaskRest, IsDelimiter, FindScheme, HasScheme;
    SchemeFound(near);
    var f := FindScheme(near);
    if f.None? {
      ScrubPlain(near);
      SchemeBehind(near, tail + text);
      Regroup(near + "://", tail, text);
      ScrubParts(near + "://", tail, text);
    } else {
      var head, mid := near[..f.value + 3], near[f.value + 3..];
      var x := mid + "://" + tail;
      assert Clean(mid);
      assert near == head + mid == head + mid + "" && near + "://" + tail + text == head + x + text;
      Regroup(head, x, text);
      SchemeStays(head, mid, x + text);
      CleanJoins(mid, tail);
      ScrubParts(head, mid, "");
      ScrubParts(head, x, text);
      ScrubStart("");
      MaskRestStops(mid, tail);
    }
  }

  lemma SchemeFound(s: string)
    ensures HasScheme(s) <==> FindScheme(s).Some?
    ensures FindScheme(s).Some? ==> FindScheme(s).value + 3 <= |s|
  {
    hide FindScheme;
  }

  lemma {:induction false} CleanJoins(a: string, b: string)
    requires Clean(a) && Clean(b)
    ensures Clean(a + "://" + b)
  {
    SchemeCharsAreClean();
    hide IsDelimiter;
  }

  // ---- Its password ----

  /** A mask in place of the password is the password itself, or shows at once. */
  lemma {:induction false} SameCredentials(user: string, pass: string, host: string, rest: string)
    ensures Credentials(user, pass, host) + rest == Credentials(user, "***", host) + rest <==> pass == "***"
  {
    var end := "@" + host + rest;
    assert Credentials(user, pass, host) + rest == user + ":" + pass + end;
    assert Credentials(user, "***", host) + rest == user + ":" + "***" + end;
    SameEnd(user + ":" + pass, user + ":" + "***", end);
    SameTail(user + ":", pass, "***");
  }

  /** What masking makes of credentials on their own. */
  lemma {:induction false} MaskedCredentials(user: string, pass: string, host: string, rest: string)
    requires Plain(host) && ':' !in user && '@' !in host
    requires rest == "" || IsPathStart(rest[0])
    ensures Plain(user) && Plain(pass) ==>
              MaskRest(Credentials(user, pass, host) + rest) == Credentials(user, "***", host) + rest
    ensures MaskRest(Credentials(user, pass, host) + rest) == Credentials(user, "***", host) + rest ==>
              (Plain(user) && Plain(pass)) || pass == "***"
  {
    var more := ":" + pass + "@" + host + rest;
    assert Credentials(user, pass, host) + rest == user + more;
    hide MaskRest, Credentials, IsPathStart, Plain;
    if !Plain(user) {
      MaskLateColon(user, more);
      SameCredentials(user, pass, host, rest);
    } else if Plain(pass) {
      CredentialsArePlain(user, pass, host);
      MaskCredentials(user, pass, host);
      MaskPlainRest(Credentials(user, pass, host), rest);
    } else {
      MaskStopsShort(user, pass, host, rest);
    }
  }

  /** An authority that ends before the first colon holds no password to mask. */
  lemma {:induction false} MaskLateColon(user: string, more: string)
    requires ':' !in user && (!Plain(user) || more == "")
    ensures MaskRest(user + more) == user + more
  {
    hide MaskRest, MaskAuthority;
    var n := Until(user, PathStart());
    PlainUpTo(user);
    assert user[..|user|] == user;
    if n < |user| { assert PathStart()(user[n]); }
    var a, after := user[..n], user[n..] + more;
    assert user + more == a + after;
    MaskPlainRest(a, after);
    MaskNoColon(a);
  }

  lemma {:induction false} MaskNoColon(a: string)
    requires ':' !in a
    ensures MaskAuthority(a) == a
  {
    var f := FindLast(a, '@');
    if f.Some? {
      var user, host := a[..f.value], a[f.value + 1..];
      assert a == user + "@" + host;
      MaskUserParts(user, "");
    }
  }

  /** The password can be masked where it stands: neither it nor the user has a slash, question
      mark, hash or delimiter, and no scheme precedes the URL since the last delimiter. */
  predicate Maskable(pre: string, user: string, pass: string) {
    Plain(user) && Plain(pass) && Clean(user) && Clean(pass) && !HasScheme(Near(pre))
  }

  /** In free text a URL comes out with its password masked, and what is around it scrubbed
      by itself, exactly if the password can be masked (or is the mask). Behind another
      scheme it stays as it is. */
  lemma {:induction false} PasswordIsScrubbedIff(pre: string, user: string, pass: string, host: string, rest: string,
          text: string)
    requires Plain(host) && Clean(host) && ':' !in user && '@' !in host
    requires (rest == "" || IsPathStart(rest[0])) && Clean(rest)
    requires text == "" || IsDelimiter(text[0])
    ensures var out := Scrubbed(Url(pre, user, pass, host, rest) + text);
            var masked := Url(Scrubbed(pre), user, "***", host, rest) + Scrubbed(text);
            && (Maskable(pre, user, pass) ==> out == masked)
            && (out == masked ==> Maskable(pre, user, pass) || pass == "***")
    ensures HasScheme(Near(pre)) && Clean(user) && Clean(pass) ==>
              Scrubbed(Url(pre, user, pass, host, rest) + text)
                == Url(Scrubbed(pre), user, pass, host, rest) + Scrubbed(text)
  {
    hide Scrubbed, MaskRest, Credentials, IsDelimiter, IsPathStart, FindScheme, HasScheme, Plain, Clean, Near;
    var head, mask := Scrubbed(pre) + "://", Credentials(user, "***", host) + rest;
    var cred := Credentials(user, pass, host) + rest;
    if Clean(user) && Clean(pass) {
      var made := if HasScheme(Near(pre)) then cred else MaskRest(cred);
      CredentialsAreClean(user, pass, host, rest);
      UrlInText(pre, cred, text);
      SameEnd(head + made, head + mask, Scrubbed(text));
      SameTail(head, made, mask);
      SameCredentials(user, pass, host, rest);
      MaskedCredentials(user, pass, host, rest);
    } else {
      if Clean(user) {
        DelimiterInPass(pre, user, pass, host, rest);
      } else {
        DelimiterInUser(pre, user, pass, host, rest);
      }
      ScrubSplits(Url(pre, user, pass, host, rest), text);
      SameEnd(Scrubbed(Url(pre, user, pass, host, rest)), head + mask, Scrubbed(text));
    }
  }

  lemma {:induction false} SameEnd(a: string, b: string, t: string)
    ensures a + t == b + t <==> a == b
  {
    if a + t == b + t {
      assert |a| == |b|;
      assert a == (a + t)[..|a|] == (b + t)[..|b|] == b;
    }
  }

  lemma {:induction false} CredentialsAreClean(user: string, pass: string, host: string, rest: string)
    requires Clean(user) && Clean(pass) && Clean(host) && Clean(rest)
    ensures Clean(Credentials(user, pass, host) + rest)
  {
    assert !IsDelimiter(':') && !IsDelimiter('@');
    hide IsDelimiter;
  }

  lemma {:induction false} CleanUpTo(s: string) returns (n: nat)
    requires !Clean(s)
    ensures n < |s| && IsDelimiter(s[n]) && Clean(s[..n])
  {
    hide IsDelimiter;
    n := Until(s, Delimiter());
    if n < |s| { assert Delimiter()(s[n]); }
    forall c | c in s[..n] ensures !IsDelimiter(c) {
      var k :| 0 <= k < n && s[..n][k] == c;
      assert !Delimiter()(s[k]);
    }
    assert s[..|s|] == s;
  }

  /** A delimiter in the password ends the URL there, and stays in the text. */
  lemma {:induction false} DelimiterInPass(pre: string, user: string, pass: string, host: string, rest: string)
    requires Clean(user) && !Clean(pass) && Clean(host) && Clean(rest)
    ensures Scrubbed(Url(pre, user, pass, host, rest)) != Url(Scrubbed(pre), user, "***", host, rest)
  {
    hide Scrubbed, MaskRest, IsDelimiter, HasScheme, Near;
    var n := CleanUpTo(pass);
    var head, chunk, more := Scrubbed(pre) + "://", user + ":" + pass[..n], pass[n..] + "@" + host + rest;
    assert Clean(chunk) && Clean("***") by { MaskIsClean(); }
    assert Url(pre, user, pass, host, rest) == pre + "://" + chunk + more by { assert pass == pass[..n] + pass[n..]; }
    UrlInText(pre, chunk, more);
    ScrubStart(more);
    CredentialsAreClean(user, "***", host, rest);
    var made, mask := if HasScheme(Near(pre)) then chunk else MaskRest(chunk), Credentials(user, "***", host) + rest;
    DelimiterInside(made, Scrubbed(more), mask);
    Regroup(head, made, Scrubbed(more));
    SameTail(head, made + Scrubbed(more), mask);
  }

  lemma {:induction false} DelimiterInside(a: string, b: string, clean: string)
    requires b != "" && IsDelimiter(b[0]) && Clean(clean)
    ensures a + b != clean
  {
    assert (a + b)[|a|] == b[0];
    if |a + b| == |clean| { assert clean[|a|] in clean; }
  }

  /** One in the user ends the URL before its password. */
  lemma {:induction false} DelimiterInUser(pre: string, user: string, pass: string, host: string, rest: string)
    requires !Clean(user) && ':' !in user && Plain(host) && (rest == "" || IsPathStart(rest[0])) && Clean(rest)
    ensures Scrubbed(Url(pre, user, pass, host, rest)) == Url(Scrubbed(pre), user, "***", host, rest) ==> pass == "***"
  {
    hide Scrubbed, MaskRest, IsDelimiter, IsPathStart, HasScheme, Near;
    var n := CleanUpTo(user);
    var chunk, user' := user[..n], user[n..];
    var head, end := Scrubbed(pre) + "://", "@" + host + rest;
    assert user == chunk + user';
    assert Url(pre, user, pass, host, rest) == pre + "://" + chunk + (user' + ":" + pass + end);
    assert Credentials(user, "***", host) + rest == chunk + (user' + ":" + "***" + end);
    UrlInText(pre, chunk, user' + ":" + pass + end);
    MaskLateColon(chunk, "");
    assert chunk + "" == chunk;
    Regroup(head, chunk, Scrubbed(user' + ":" + pass + end));
    SameTail(head, chunk + Scrubbed(user' + ":" + pass + end), chunk + (user' + ":" + "***" + end));
    SameTail(chunk, Scrubbed(user' + ":" + pass + end), user' + ":" + "***" + end);
    NoSchemeNoMask(user', pass, host, rest);
  }

  /** Without a scheme in front of them credentials are not masked. */
  lemma {:induction false} NoSchemeNoMask(user: string, pass: string, host: string, rest: string)
    requires ':' !in user && Plain(host) && (rest == "" || IsPathStart(rest[0])) && Clean(rest)
    ensures var end := "@" + host + rest;
            Scrubbed(user + ":" + pass + end) == user + ":" + "***" + end ==> pass == "***"
  {
    hide Scrubbed, MaskRest, IsDelimiter, IsPathStart, FindScheme, Plain, Clean;
    var end := "@" + host + rest;
    var s, goal := user + ":" + pass + end, user + ":" + "***" + end;
    SameTail(user + ":", pass, "***");
    if FindScheme(s).None? {
      ScrubPlain(s);
      SameEnd(user + ":" + pass, user + ":" + "***", end);
    } else if Scrubbed(s) == goal {
      SchemeBehindMask(user, host, rest, s, FindScheme(s).value);
      SchemeBehindPass(user, pass, host, rest, FindScheme(s).value);
      SameFirst(user + ":" + pass, user + ":" + "***", end, FindScheme(s).value);
    }
  }

  /** If a text comes out as masked credentials, then what is behind its first scheme comes out
      as a piece of the path, and the two agree in front of it. */
  lemma {:induction false} SchemeBehindMask(user: string, host: string, rest: string, s: string, k: nat)
    requires ':' !in user && Plain(host) && Clean(rest) && FindScheme(s) == Some(k)
    requires Scrubbed(s) == user + ":" + "***" + ("@" + host + rest)
    ensures var front, end := user + ":" + "***", "@" + host + rest;
            && k + 3 <= |s| && SchemeAt(s, k) && k + 3 <= |front + end| && s[..k + 3] == (front + end)[..k + 3]
            && k >= |front| && SchemeAt(end, k - |front|)
    ensures |MaskRest(s[k + 3..])| + 2 <= |rest|
  {
    hide Scrubbed, MaskRest, IsDelimiter, FindScheme, Plain, Clean;
    var goal := user + ":" + "***" + ("@" + host + rest);
    var made := SchemeLeaves(s, k);
    assert s[..k + 3] == goal[..k + 3] && goal[k + 3..] == made;
    assert SchemeAt(goal, k);
    assert goal[|user|..|user| + 4] == ":***";
    assert forall i: nat :: i < |user| ==> goal[i] in user;
    SchemeInRest(user + ":" + "***", host, rest, k);
    assert made == rest[|rest| - |made|..] && |made| + 2 <= |rest|;
    SuffixIsClean(rest, made);
  }

  /** So the scheme lies behind the password. */
  lemma {:induction false} SchemeBehindPass(user: string, pass: string, host: string, rest: string, k: nat)
    requires Plain(host) && (rest == "" || IsPathStart(rest[0]))
    requires var front, end := user + ":" + pass, "@" + host + rest;
             SchemeAt(front + end, k) && |MaskRest((front + end)[k + 3..])| + 2 <= |rest|
    ensures var front, end := user + ":" + pass, "@" + host + rest;
            k >= |front| && SchemeAt(end, k - |front|)
  {
    hide MaskRest, IsPathStart, Plain;
    var s := user + ":" + pass + ("@" + host + rest);
    if k + 3 <= |s| - |rest| {
      assert s[k + 3..] == s[k + 3..|s| - |rest|] + rest;
      MaskKeepsPath(s[k + 3..|s| - |rest|], rest);
    } else {
      SchemeInRest(user + ":" + pass, host, rest, k);
    }
  }

  /** Two texts that agree up to their first scheme, which lies in an end they share. */
  lemma {:induction false} SameFirst(a: string, b: string, end: string, k: nat)
    requires FindScheme(a + end) == Some(k) && k + 3 <= |b + end| && (a + end)[..k + 3] == (b + end)[..k + 3]
    requires k >= |a| && k >= |b| && SchemeAt(end, k - |a|) && SchemeAt(end, k - |b|)
    ensures a == b
  {
    hide FindScheme;
    var j := |b| + (k - |a|);
    assert SchemeAt(a + end, |a| + (k - |b|)) && SchemeAt(b + end, j);
    if j <= k { SameScheme(a + end, b + end, k + 3, j); }
    assert |a| == |b|;
    assert a == (a + end)[..k + 3][..|a|] && b == (b + end)[..k + 3][..|b|];
  }

  lemma SameScheme(s: string, t: string, n: nat, j: nat)
    requires n <= |s| && n <= |t| && s[..n] == t[..n] && j + 3 <= n
    ensures SchemeAt(s, j) <==> SchemeAt(t, j)
  {
    assert forall i: nat :: i < n ==> s[..n][i] == s[i] && t[..n][i] == t[i];
  }

  lemma SuffixIsClean(s: string, t: string)
    requires Clean(s) && |t| <= |s| && t == s[|s| - |t|..]
    ensures Clean(t)
  {
    hide IsDelimiter;
  }

  /** Masking stops in front of a path. */
  lemma {:induction false} MaskKeepsPath(z: string, path: string)
    requires path == "" || IsPathStart(path[0])
    ensures |MaskRest(z + path)| >= |path|
  {
    hide MaskAuthority;
    if path != "" { assert PathStart()((z + path)[|z|]); }
  }

  /** What comes out behind the first scheme: the masked URL and, from its delimiter on, the rest. */
  lemma {:induction false} SchemeLeaves(s: string, k: nat) returns (made: string)
    requires FindScheme(s) == Some(k)
    ensures SchemeAt(s, k) && Scrubbed(s) == s[..k + 3] + made
    ensures Clean(made) ==> made == MaskRest(s[k + 3..])
  {
    hide Scrubbed, MaskRest, IsDelimiter, FindScheme, Until, Clean;
    var tail := s[k + 3..];
    var b := Until(tail, Delimiter());
    ScrubStep(s, k);
    ChunkIsClean(tail);
    ScrubStart(tail[b..]);
    made := MaskRest(tail[..b]) + Scrubbed(tail[b..]);
    assert SchemeAt(s, k);
    Regroup(s[..k + 3], MaskRest(tail[..b]), Scrubbed(tail[b..]));
    if tail[b..] == "" {
      assert tail[..b] == tail && made == MaskRest(tail);
    } else if Clean(made) {
      DelimiterInside(MaskRest(tail[..b]), Scrubbed(tail[b..]), made);
    }
  }

  /** A scheme that ends behind the at sign lies behind it, its slashes behind the host. */
  lemma {:induction false} SchemeInRest(front: string, host: string, rest: string, k: nat)
    requires Plain(host) && SchemeAt(front + ("@" + host + rest), k) && k + 1 >= |front|
    ensures k >= |front| + |host| && SchemeAt("@" + host + rest, k - |front|)
  {
    var s := front + ("@" + host + rest);
    assert s[k + 1] == '/' && s[|front|] == '@';
    assert forall i: nat :: |front| < i < |front| + 1 + |host| ==> s[i] in host;
  }

  /** The characters that end a URL in free text, or its authority. */
  const TELLTALE: string := ")\"'><,;" + WHITE_SPACE + "/?#"

  /** A password of three characters stays in a text if the one in the middle is one of those,
      and is masked if not. */
  lemma {:induction false} PasswordStaysIff(c: char)
    ensures var text := "s://u:p" + [c] + "w@h";
            Scrubbed(text) == if c in TELLTALE then text else "s://u:***@h"
  {
    hide Scrubbed, MaskRest, MaskAuthority, IsDelimiter, IsPathStart, Near, HasScheme, FindScheme, Plain, Clean;
    var pass := ['p', c, 'w'];
    var text := "s://u:p" + [c] + "w@h";
    assert Url("s", "u", pass, "h", "") + "" == text && Url("s", "u", "***", "h", "") + "" == "s://u:***@h";
    LettersArePlain(c);
    NoSchemeInside(c);
    ScrubPlain("s");
    ScrubStart("");
    if IsDelimiter(c) {
      assert text == "s" + "://" + "u:p" + ([c] + "w@h");
      UrlInText("s", "u:p", [c] + "w@h");
      ScrubPlain([c] + "w@h");
      NoAtNoMask();
    } else if IsPathStart(c) {
      assert text == "s" + "://" + ("u:p" + ([c] + "w@h")) + "";
      UrlInText("s", "u:p" + ([c] + "w@h"), "");
      MaskPlainRest("u:p", [c] + "w@h");
      NoAtNoMask();
    } else {
      PasswordIsScrubbedIff("s", "u", pass, "h", "", "");
    }
  }

  /** And in a URL by itself exactly if it is a slash, question mark or hash. */
  lemma {:induction false} PasswordStaysInUrlIff(c: char)
    ensures var url := "s://u:p" + [c] + "w@h";
            Sanitize(url) == if c in "/?#" then url else "s://u:***@h"
  {
    hide Sanitize, MaskRest, MaskAuthority, IsDelimiter, IsPathStart, HasScheme, FindScheme, Plain, Clean, Near;
    var pass := ['p', c, 'w'];
    var url := "s://u:p" + [c] + "w@h";
    assert Url("s", "u", pass, "h", "") == url && Url("s", "u", "***", "h", "") == "s://u:***@h";
    LettersArePlain(c);
    NoSchemeInside(c);
    SanitizeParts("s");
    if IsPathStart(c) {
      var tail := "u:p" + ([c] + "w@h");
      assert url == "s" + "://" + tail;
      hide Url, Credentials;
      SanitizeUrl("s", tail);
      MaskPlainRest("u:p", [c] + "w@h");
      NoAtNoMask();
      assert MaskRest(tail) == tail;
    } else {
      PasswordIsMaskedIff("s", "u", pass, "h", "");
    }
  }

  lemma NoAtNoMask()
    ensures MaskRest("u:p") == "u:p" && MaskAuthority("u:p") == "u:p"
  {
    hide MaskRest, Until;
    assert FindLast("u:p", '@').None?;
    assert "u:p" + "" == "u:p";
    MaskRestParts("u:p", "");
  }

  lemma {:induction false} LettersArePlain(c: char)
    ensures Clean("u") && Clean("h") && Clean("") && Clean("u:p") && Plain("u") && Plain("h") && Plain("u:p")
    ensures Clean(['p', c, 'w']) <==> !IsDelimiter(c)
    ensures Plain(['p', c, 'w']) <==> !IsPathStart(c)
    ensures IsDelimiter(c) <==> c in ")\"'><,;" + WHITE_SPACE
    ensures IsPathStart(c) <==> c in "/?#"
    ensures !IsDelimiter(c) ==> Clean("u:p" + ([c] + "w@h"))
    ensures Near("s") == "s"
  {
    hide Near;
    WhitespaceIff(c);
    hide IsWhitespace;
    assert c in ['p', c, 'w'] && c in "u:p" + ([c] + "w@h");
    PlainLetters();
  }

  lemma PlainLetters()
    ensures forall c :: c in "shupw:@" ==> !IsDelimiter(c) && !IsPathStart(c)
  {
  }

  lemma {:induction false} NoSchemeInside(c: char)
    ensures FindScheme([c] + "w@h").None? && FindScheme("s").None? && !HasScheme("s")
  {
    hide FindScheme;
    var s := [c] + "w@h";
    forall j: nat ensures !SchemeAt(s, j) { assert j < |s| ==> s[j] in s; }
  }

  /** And one in which it stays behind another URL, with nothing in it that could not be masked. */
  lemma {:induction false} SecondUrlKeepsPassword()
    ensures Scrubbed("s://x/s://u:p@h") == "s://x/s://u:p@h"
  {
    hide IsDelimiter, IsPathStart, Until, FindScheme, Scrubbed, MaskRest, MaskAuthority, Near, HasScheme, Plain, Clean;
    var pre := "s://x/s";
    assert Url(pre, "u", "p", "h", "") + "" == "s://x/s://u:p@h";
    FirstUrlStays();
    PasswordIsScrubbedIff(pre, "u", "p", "h", "", "");
    ScrubStart("");
  }

  lemma {:induction false} FirstUrlStays()
    ensures var pre := "s://x/s";
            Near(pre) == pre && HasScheme(pre) && Scrubbed(pre) == pre
    ensures Clean("u") && Clean("p") && Clean("h") && Clean("") && Plain("h")
  {
    hide Until, FindScheme, Scrubbed, MaskRest, MaskAuthority, Near, IsDelimiter, IsPathStart;
    var pre := "s://x/s";
    LettersAreClean();
    assert SchemeAt(pre, 1);
    assert pre == "s://" + "x/s" + "" && "x/s" + "" == "x/s";
    FirstScheme();
    ScrubParts("s://", "x/s", "");
    MaskLateColon("x/s", "");
    ScrubStart("");
  }

  lemma LettersAreClean()
    ensures Clean("s://x/s") && Clean("x/s") && Clean("u") && Clean("p") && Clean("h") && Clean("") && Plain("h")
  {
  }

  lemma FirstScheme()
    ensures FindScheme("s://x/s") == Some(1)
  {
    hide FindScheme;
    SchemeIs("s://x/s", 1);
  }

  /** Where it can be masked, what is written is the same for every password. */
  lemma {:induction false} PasswordIsScrubbed(pre: string, user: string, pass: string, pass': string, host: string,
          rest: string, text: string)
    requires Plain(host) && Clean(host) && ':' !in user && '@' !in host
    requires (rest == "" || IsPathStart(rest[0])) && Clean(rest)
    requires text == "" || IsDelimiter(text[0])
    requires Maskable(pre, user, pass) && Maskable(pre, user, pass')
    ensures Scrubbed(Url(pre, user, pass, host, rest) + text) == Scrubbed(Url(pre, user, pass', host, rest) + text)
  {
    hide Scrubbed, Url, IsDelimiter, IsPathStart, HasScheme, Plain, Clean, Maskable;
    PasswordIsScrubbedIff(pre, user, pass, host, rest, text);
    PasswordIsScrubbedIff(pre, user, pass', host, rest, text);
  }
}
