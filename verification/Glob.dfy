/** Compiling path globs to regular expressions (`route/matcher.rs`) and choosing a
    path match from a glob (`route/config.rs`). Glob and path are byte strings, a byte
    being the character of that code, as the compiler's cast makes it. */
module Glob {
  import opened Prelude

  // ---- Globs ----

  datatype Token = AnyRun | SegRun | SegOne | Lit(c: char)

  function Tokens(g: string): seq<Token> {
    if g == "" then []
    else if g[0] == '*' then
      if |g| > 1 && g[1] == '*' then [AnyRun] + Tokens(g[2..]) else [SegRun] + Tokens(g[1..])
    else if g[0] == '?' then [SegOne] + Tokens(g[1..])
    else [Lit(g[0])] + Tokens(g[1..])
  }

  /** What a glob means: `**` takes any run of characters `any` allows, `*` any run and
      `?` one character short of a slash, everything else itself. */
  predicate GlobMatch(g: string, p: string, any: char -> bool)
    decreases |g| + |p|
  {
    if g == "" then p == ""
    else if g[0] == '*' then
      if |g| > 1 && g[1] == '*' then
        GlobMatch(g[2..], p, any) || (p != "" && any(p[0]) && GlobMatch(g, p[1..], any))
      else
        GlobMatch(g[1..], p, any) || (p != "" && p[0] != '/' && GlobMatch(g, p[1..], any))
    else if g[0] == '?' then p != "" && p[0] != '/' && GlobMatch(g[1..], p[1..], any)
    else p != "" && p[0] == g[0] && GlobMatch(g[1..], p[1..], any)
  }

  function AnyChar(): char -> bool { (c: char) => true }

  function NotNewline(): char -> bool { (c: char) => c != '\n' }

  // ---- Regular expressions, as far as the compiler writes them ----

  datatype Atom = Chr(c: char) | Dot | NotSlash

  datatype Item = One(atom: Atom) | Star(atom: Atom)

  const META: string := ".+()|[]{}^$\\"

  predicate IsMeta(c: char) { c in META }

  /** The characters with a meaning of their own in a regular expression. */
  predicate IsSpecial(c: char) { c in ".+*?()|[]{}^$\\" }

  predicate AtomAccepts(a: Atom, c: char) {
    match a
    case Chr(d) => c == d
    case Dot => c != '\n'
    case NotSlash => c != '/'
  }

  predicate ItemAccepts(item: Item, p: string) {
    match item
    case One(a) => |p| == 1 && AtomAccepts(a, p[0])
    case Star(a) => forall i | 0 <= i < |p| :: AtomAccepts(a, p[i])
  }

  /** The whole of `p` is cut into one stretch per item. */
  predicate ItemsAccept(items: seq<Item>, p: string) {
    if items == [] then p == ""
    else exists k | 0 <= k <= |p| :: ItemAccepts(items[0], p[..k]) && ItemsAccept(items[1..], p[k..])
  }

  /** Reads one atom as a regular expression does: a special character stands for itself only
      behind a backslash. The number of characters it takes, or none. */
  function ReadAtom(s: string): Option<(Atom, nat)> {
    if s == "" then None
    else if s[0] == '.' then Some((Dot, 1))
    else if "[^/]" <= s then Some((NotSlash, 4))
    else if s[0] == '\\' then if |s| > 1 && IsSpecial(s[1]) then Some((Chr(s[1]), 2)) else None
    else if IsSpecial(s[0]) then None
    else Some((Chr(s[0]), 1))
  }

  /** Reads items up to the closing anchor, which must end the text. */
  function ReadItems(s: string): Option<seq<Item>>
    decreases |s|
  {
    if s == "$" then Some([])
    else
      match ReadAtom(s)
      case None => None
      case Some((a, n)) =>
        if n > |s| || n == 0 then None
        else if n < |s| && s[n] == '*' then
          var rest := ReadItems(s[n + 1..]);
          if rest.Some? then Some([Star(a)] + rest.value) else None
        else
          var rest := ReadItems(s[n..]);
          if rest.Some? then Some([One(a)] + rest.value) else None
  }

  /** An anchored expression of the fragment. */
  function ReadRegex(re: string): Option<seq<Item>> {
    if re != "" && re[0] == '^' then ReadItems(re[1..]) else None
  }

  predicate RegexMatches(re: string, p: string) {
    var items := ReadRegex(re);
    items.Some? && ItemsAccept(items.value, p)
  }

  // ---- The compiler ----

  function Text(t: Token): string {
    match t
    case AnyRun => ".*"
    case SegRun => "[^/]*"
    case SegOne => "[^/]"
    case Lit(c) => if IsMeta(c) then ['\\', c] else [c]
  }

  function TextOf(ts: seq<Token>): string { if ts == [] then "" else Text(ts[0]) + TextOf(ts[1..]) }

  function ItemOf(t: Token): Item {
    match t
    case AnyRun => Star(Dot)
    case SegRun => Star(NotSlash)
    case SegOne => One(NotSlash)
    case Lit(c) => One(Chr(c))
  }

  function ItemsOf(ts: seq<Token>): seq<Item> { if ts == [] then [] else [ItemOf(ts[0])] + ItemsOf(ts[1..]) }

  // Writing the token at position `i` leaves the text of the rest to be written.
  lemma {:induction false} TextPeels(g: string, i: nat, n: nat)
    requires i < |g|
    requires n == if g[i] == '*' && i + 1 < |g| && g[i + 1] == '*' then 2 else 1
    ensures Tokens(g[i..]) != []
    ensures TextOf(Tokens(g[i..])) == Text(Tokens(g[i..])[0]) + TextOf(Tokens(g[i + n..]))
    ensures Tokens(g[i..])[0] ==
              if g[i] == '*' then (if n == 2 then AnyRun else SegRun)
              else if g[i] == '?' then SegOne else Lit(g[i])
  {
    var rest := g[i..];
    assert rest[0] == g[i] && rest[n..] == g[i + n..];
    if i + 1 < |g| { assert rest[1] == g[i + 1]; }
    var tail := Tokens(rest[n..]);
    assert Tokens(rest) == [Tokens(rest)[0]] + tail;
    assert Tokens(rest)[1..] == tail;
  }

  method GlobToRegex(glob: string) returns (re: string)
    ensures re == "^" + TextOf(Tokens(glob)) + "$"
    ensures ReadRegex(re) == Some(ItemsOf(Tokens(glob)))
    ensures forall p :: RegexMatches(re, p) <==> GlobMatch(glob, p, NotNewline())
  {
    hide Tokens, TextOf, ReadRegex, RegexMatches, GlobMatch, ItemsOf;
    re := "^";
    var i := 0;
    assert glob[0..] == glob;
    while i < |glob|
      invariant 0 <= i <= |glob|
      invariant re + TextOf(Tokens(glob[i..])) == "^" + TextOf(Tokens(glob))
    {
      ghost var before, at := re, i;
      ghost var n := if glob[i] == '*' && i + 1 < |glob| && glob[i + 1] == '*' then 2 else 1;
      TextPeels(glob, i, n);
      if glob[i] == '*' {
        if i + 1 < |glob| && glob[i + 1] == '*' {
          re := re + ".*";
          i := i + 2;
        } else {
          re := re + "[^/]*";
          i := i + 1;
        }
      } else if glob[i] == '?' {
        re := re + "[^/]";
        i := i + 1;
      } else {
        if IsMeta(glob[i]) { re := re + "\\"; }
        re := re + [glob[i]];
        i := i + 1;
      }
      assert re == before + Text(Tokens(glob[at..])[0]);
    }
    assert TextOf(Tokens(glob[i..])) == "" by { NothingLeft(glob[i..]); }
    re := re + "$";
    assert re == "^" + TextOf(Tokens(glob)) + "$";
    CompiledReadsBack(glob);
    forall p ensures RegexMatches(re, p) <==> GlobMatch(glob, p, NotNewline()) { CompiledMeansGlob(glob, p); }
  }

  lemma NothingLeft(g: string)
    requires g == ""
    ensures TextOf(Tokens(g)) == ""
  {
  }

  // ---- The text reads back ----

  predicate Writable(ts: seq<Token>) { forall t | t in ts :: t.Lit? ==> t.c !in "*?" }

  lemma {:induction false} TokensWritable(g: string)
    ensures Writable(Tokens(g))
  {
    if g != "" {
      if g[0] == '*' && |g| > 1 && g[1] == '*' { TokensWritable(g[2..]); } else { TokensWritable(g[1..]); }
    }
  }

  lemma {:induction false} TextStart(ts: seq<Token>)
    requires Writable(ts)
    ensures (TextOf(ts) + "$")[0] != '*'
    ensures TextOf(ts) + "$" == "$" ==> ts == []
  {
    if ts != [] {
      assert ts[0] in ts;
      assert |Text(ts[0])| > 0;
      assert (TextOf(ts) + "$")[0] == Text(ts[0])[0];
      assert |TextOf(ts) + "$"| > 1;
    }
  }

  lemma {:induction false} AtomReads(t: Token, rest: string)
    requires t.Lit? ==> t.c !in "*?"
    requires rest != "" && rest[0] != '*'
    ensures ReadAtom(Text(t) + rest)
              == Some((ItemOf(t).atom, if t.SegRun? then 4 else if t.AnyRun? then 1 else |Text(t)|))
  {
    var s := Text(t) + rest;
    match t
    case AnyRun =>
    case SegRun => assert s[..4] == "[^/]";
    case SegOne => assert s[..4] == "[^/]";
    case Lit(c) =>
      if IsMeta(c) {
        assert s[0] == '\\' && s[1] == c;
        assert IsSpecial(c) && !("[^/]" <= s);
      } else {
        assert s[0] == c && !IsSpecial(c);
        assert IsSpecial('[') && IsSpecial('.') && IsSpecial('\\');
      }
  }

  lemma {:induction false} ItemReads(t: Token, rest: string)
    requires t.Lit? ==> t.c !in "*?"
    requires rest != "" && rest[0] != '*'
    ensures ReadItems(Text(t) + rest) ==
              var r := ReadItems(rest); if r.Some? then Some([ItemOf(t)] + r.value) else None
  {
    var s := Text(t) + rest;
    AtomReads(t, rest);
    assert |s| > 1;
    var n := if t.SegRun? then 4 else if t.AnyRun? then 1 else |Text(t)|;
    if ItemOf(t).Star? {
      assert s[n] == '*' && s[n + 1..] == rest;
    } else {
      assert s[n] == rest[0] && s[n..] == rest;
    }
  }

  lemma {:induction false} TextReadsBack(ts: seq<Token>)
    requires Writable(ts)
    ensures ReadItems(TextOf(ts) + "$") == Some(ItemsOf(ts))
  {
    if ts != [] {
      var rest := TextOf(ts[1..]) + "$";
      assert Writable(ts[1..]);
      TextReadsBack(ts[1..]);
      TextStart(ts[1..]);
      assert ts[0] in ts;
      assert TextOf(ts) + "$" == Text(ts[0]) + rest;
      ItemReads(ts[0], rest);
    }
  }

  /** The compiled text is well formed and reads back to exactly the glob's tokens. */
  lemma {:induction false} CompiledReadsBack(g: string)
    ensures ReadRegex("^" + TextOf(Tokens(g)) + "$") == Some(ItemsOf(Tokens(g)))
  {
    TokensWritable(g);
    TextReadsBack(Tokens(g));
    var re := "^" + TextOf(Tokens(g)) + "$";
    assert re[1..] == TextOf(Tokens(g)) + "$";
  }

  /** Every special character a glob does not give a meaning to is escaped. */
  lemma {:induction false} SpecialsAreEscaped()
    ensures TextOf(Tokens("+|(){}")) == "\\+\\|\\(\\)\\{\\}"
    ensures TextOf(Tokens(".^$[]\\")) == "\\.\\^\\$\\[\\]\\\\"
  {
    SixLiterals("+|(){}");
    SixLiterals(".^$[]\\");
  }

  lemma {:induction false} SixLiterals(g: string)
    requires |g| == 6 && forall c :: c in g ==> c !in "*?" && IsMeta(c)
    ensures TextOf(Tokens(g)) == ['\\', g[0], '\\', g[1], '\\', g[2], '\\', g[3], '\\', g[4], '\\', g[5]]
  {
    hide Tokens, TextOf, IsMeta;
    assert g[0..] == g;
    forall i: nat | i < 6 ensures TextOf(Tokens(g[i..])) == ['\\', g[i]] + TextOf(Tokens(g[i + 1..])) {
      assert g[i] in g;
      LiteralText(g, i);
    }
    NothingLeft(g[6..]);
  }

  lemma LiteralText(g: string, i: nat)
    requires i < |g| && g[i] !in "*?" && IsMeta(g[i])
    ensures TextOf(Tokens(g[i..])) == ['\\', g[i]] + TextOf(Tokens(g[i + 1..]))
  {
    hide Tokens, TextOf;
    TextPeels(g, i, 1);
  }

  // ---- The meaning survives ----

  lemma {:induction false} OneStep(a: Atom, items: seq<Item>, p: string)
    ensures ItemsAccept([One(a)] + items, p) <==> p != "" && AtomAccepts(a, p[0]) && ItemsAccept(items, p[1..])
  {
    var all := [One(a)] + items;
    assert all[1..] == items;
    if ItemsAccept(all, p) {
      var k :| 0 <= k <= |p| && ItemAccepts(all[0], p[..k]) && ItemsAccept(all[1..], p[k..]);
      assert k == 1;
    }
    if p != "" && AtomAccepts(a, p[0]) && ItemsAccept(items, p[1..]) {
      assert ItemAccepts(all[0], p[..1]) && ItemsAccept(all[1..], p[1..]);
    }
  }

  lemma {:induction false} StarStep(a: Atom, items: seq<Item>, p: string)
    ensures ItemsAccept([Star(a)] + items, p)
       <==> ItemsAccept(items, p) || (p != "" && AtomAccepts(a, p[0]) && ItemsAccept([Star(a)] + items, p[1..]))
  {
    var all := [Star(a)] + items;
    assert all[1..] == items;
    if ItemsAccept(all, p) {
      var k :| 0 <= k <= |p| && ItemAccepts(all[0], p[..k]) && ItemsAccept(all[1..], p[k..]);
      if k == 0 {
        assert p[0..] == p;
      } else {
        var q := p[1..];
        assert p[..k][0] == p[0] && q[k - 1..] == p[k..];
        assert ItemAccepts(all[0], q[..k - 1]) by {
          var stretch := q[..k - 1];
          forall i | 0 <= i < k - 1 ensures AtomAccepts(a, stretch[i]) { assert p[..k][i + 1] == stretch[i]; }
        }
        assert ItemsAccept(all[1..], q[k - 1..]);
      }
    }
    if ItemsAccept(items, p) {
      assert p[0..] == p && ItemAccepts(all[0], p[..0]) && ItemsAccept(all[1..], p[0..]);
    }
    if p != "" && AtomAccepts(a, p[0]) && ItemsAccept(all, p[1..]) {
      var q := p[1..];
      var k :| 0 <= k <= |q| && ItemAccepts(all[0], q[..k]) && ItemsAccept(all[1..], q[k..]);
      assert q[k..] == p[k + 1..];
      assert ItemAccepts(all[0], p[..k + 1]) by {
        var stretch := p[..k + 1];
        forall i | 0 <= i < k + 1 ensures AtomAccepts(a, stretch[i]) {
          if i > 0 { assert stretch[i] == q[..k][i - 1]; }
        }
      }
      assert ItemsAccept(all[1..], p[k + 1..]);
    }
  }

  /** For every glob and every path the items accept what the glob means, `**` being
      held up by newlines. */
  lemma {:induction false} ItemsMeanGlob(g: string, p: string)
    ensures ItemsAccept(ItemsOf(Tokens(g)), p) <==> GlobMatch(g, p, NotNewline())
    decreases |g| + |p|
  {
    if g != "" {
      var n := if g[0] == '*' && |g| > 1 && g[1] == '*' then 2 else 1;
      var t, ts := Tokens(g)[0], Tokens(g[n..]);
      assert Tokens(g) == [t] + ts && ([t] + ts)[1..] == ts;
      assert ItemsOf(Tokens(g)) == [ItemOf(t)] + ItemsOf(ts);
      if ItemOf(t).Star? {
        StarStep(ItemOf(t).atom, ItemsOf(ts), p);
        ItemsMeanGlob(g[n..], p);
        if p != "" { ItemsMeanGlob(g, p[1..]); }
      } else {
        OneStep(ItemOf(t).atom, ItemsOf(ts), p);
        if p != "" { ItemsMeanGlob(g[1..], p[1..]); }
      }
    }
  }

  lemma {:induction false} CompiledMeansGlob(g: string, p: string)
    ensures RegexMatches("^" + TextOf(Tokens(g)) + "$", p) <==> GlobMatch(g, p, NotNewline())
  {
    CompiledReadsBack(g);
    ItemsMeanGlob(g, p);
  }

  lemma {:induction false} SameAnySameMatch(g: string, p: string, any: char -> bool, any': char -> bool)
    requires forall c :: c in p ==> (any(c) <==> any'(c))
    ensures GlobMatch(g, p, any) <==> GlobMatch(g, p, any')
    decreases |g| + |p|
  {
    if g != "" {
      var n := if g[0] == '*' && |g| > 1 && g[1] == '*' then 2 else 1;
      if g[0] == '*' { SameAnySameMatch(g[n..], p, any, any'); }
      if p != "" {
        assert p[0] in p && forall c :: c in p[1..] ==> c in p;
        SameAnySameMatch(if g[0] == '*' then g else g[1..], p[1..], any, any');
      }
    }
  }

  lemma {:induction false} MoreAnyMoreMatch(g: string, p: string, any: char -> bool, any': char -> bool)
    requires forall c :: any(c) ==> any'(c)
    requires GlobMatch(g, p, any)
    ensures GlobMatch(g, p, any')
    decreases |g| + |p|
  {
    if g != "" {
      var n := if g[0] == '*' && |g| > 1 && g[1] == '*' then 2 else 1;
      if g[0] == '*' && GlobMatch(g[n..], p, any) {
        MoreAnyMoreMatch(g[n..], p, any, any');
      } else {
        MoreAnyMoreMatch(if g[0] == '*' then g else g[1..], p[1..], any, any');
      }
    }
  }

  /** The compiled glob never accepts more than `**` as "any run" would, and on paths
      without newlines exactly that. */
  lemma {:induction false} CompiledMeansDocumentedGlob(g: string, p: string)
    ensures RegexMatches("^" + TextOf(Tokens(g)) + "$", p) ==> GlobMatch(g, p, AnyChar())
    ensures '\n' !in p ==> (RegexMatches("^" + TextOf(Tokens(g)) + "$", p) <==> GlobMatch(g, p, AnyChar()))
  {
    CompiledMeansGlob(g, p);
    if GlobMatch(g, p, NotNewline()) { MoreAnyMoreMatch(g, p, NotNewline(), AnyChar()); }
    if '\n' !in p { SameAnySameMatch(g, p, NotNewline(), AnyChar()); }
  }

  /** With a newline the two differ. */
  lemma {:induction false} NewlineHoldsUpAnyRun()
    ensures GlobMatch("**", "\n", AnyChar()) && !RegexMatches("^" + TextOf(Tokens("**")) + "$", "\n")
  {
    CompiledMeansGlob("**", "\n");
    assert "**"[2..] == "" && "\n"[1..] == "";
    assert GlobMatch("", "", AnyChar()) && GlobMatch("**", "", AnyChar());
  }

  // ---- Choosing the match ----

  datatype PathMatch = Any | Prefix(p: string) | Compiled(re: string)

  // A glob that is a plain directory with "/**" behind it.
  predicate IsPlainTree(g: string) {
    |g| >= 3 && g[|g| - 3..] == "/**" && forall c | c in g[..|g| - 3] :: c !in "*?"
  }

  function PathMatchOf(g: string): PathMatch {
    if g == "*" || g == "/**" then Any
    else if IsPlainTree(g) then Prefix(g[..|g| - 3])
    else Compiled("^" + TextOf(Tokens(g)) + "$")
  }

  predicate Accepts(m: PathMatch, path: string) {
    match m
    case Any => true
    case Prefix(p) => p <= path
    case Compiled(re) => RegexMatches(re, path)
  }

  lemma {:induction false} AnyRunTakesAll(p: string)
    ensures GlobMatch("**", p, AnyChar())
    decreases |p|
  {
    assert "**"[2..] == "";
    if p != "" { AnyRunTakesAll(p[1..]); }
  }

  /** A plain tree glob means: the directory, a slash, anything. */
  lemma {:induction false} PlainTreeMeans(stem: string, p: string)
    requires forall c :: c in stem ==> c !in "*?"
    ensures GlobMatch(stem + "/**", p, AnyChar()) <==> stem + "/" <= p
    decreases |stem|
  {
    var g := stem + "/**";
    if stem == "" {
      assert g == "/**" && g[1..] == "**";
      if p != "" { AnyRunTakesAll(p[1..]); }
      assert stem + "/" == "/";
    } else {
      assert g[0] == stem[0] && stem[0] in stem && g[1..] == stem[1..] + "/**";
      assert (stem + "/")[0] == stem[0] && (stem + "/")[1..] == stem[1..] + "/";
      if p != "" {
        PlainTreeMeans(stem[1..], p[1..]);
        PrefixTail(stem + "/", p);
      }
    }
  }

  lemma {:induction false} PrefixTail(a: string, b: string)
    requires a != "" && b != ""
    ensures a <= b <==> a[0] == b[0] && a[1..] <= b[1..]
  {
    if a[0] == b[0] && a[1..] <= b[1..] {
      assert a == [a[0]] + a[1..] && b == [b[0]] + b[1..];
    }
  }

  lemma {:induction false} StarTakesSegment(p: string)
    ensures GlobMatch("*", p, AnyChar()) <==> '/' !in p
    decreases |p|
  {
    assert "*"[1..] == "";
    if p != "" {
      StarTakesSegment(p[1..]);
      assert p == [p[0]] + p[1..];
    }
  }

  // The chosen match accepts every newline-free path the glob accepts, and beyond them
  // exactly these: for "*", paths with a slash; for a tree, paths that do not go on with
  // a slash behind the directory ("/api/**" also takes "/api" and "/apifoo").
  lemma {:induction false} ChosenMatchIsWiderExactly(g: string, path: string)
    requires '\n' !in path
    ensures Accepts(PathMatchOf(g), path) <==>
              || GlobMatch(g, path, AnyChar())
              || (g == "*" && '/' in path)
              || (g == "/**" && !("/" <= path))
              || (g != "/**" && IsPlainTree(g) && var stem := g[..|g| - 3]; stem <= path && !(stem + "/" <= path))
  {
    if g == "*" {
      StarTakesSegment(path);
    } else if IsPlainTree(g) {
      var stem := g[..|g| - 3];
      assert g == stem + "/**";
      PlainTreeMeans(stem, path);
      if g == "/**" { assert stem == "" && stem + "/" == "/"; }
      if stem + "/" <= path { assert stem <= path; }
    } else {
      assert g == "/**" ==> g[0..] == g;
      CompiledMeansDocumentedGlob(g, path);
    }
  }

  /** Whatever the path, newlines included, no shortcut turns away what the compiled glob
      would have accepted. */
  lemma {:induction false} ShortcutNeverNarrows(g: string, path: string)
    requires RegexMatches("^" + TextOf(Tokens(g)) + "$", path)
    ensures Accepts(PathMatchOf(g), path)
  {
    if g != "*" && IsPlainTree(g) {
      CompiledMeansDocumentedGlob(g, path);
      var stem := g[..|g| - 3];
      assert g == stem + "/**";
      PlainTreeMeans(stem, path);
      if stem + "/" <= path { assert stem <= path; }
    }
  }
}
