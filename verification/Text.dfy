/** Searching in strings of Unicode scalar values. */
module Text {

  predicate IsWhitespace(c: char) {
    || '\t' <= c <= '\r' || c == ' ' || c == '\U{85}' || c == '\U{A0}' || c == '\U{1680}'
    || '\U{2000}' <= c <= '\U{200A}' || c in {'\U{2028}', '\U{2029}', '\U{202F}', '\U{205F}', '\U{3000}'}
  }

  /** The 25 characters of the Unicode property White_Space. */
  const WHITE_SPACE: string :=
    "\U{9}\U{A}\U{B}\U{C}\U{D}\U{20}\U{85}\U{A0}\U{1680}"
    + "\U{2000}\U{2001}\U{2002}\U{2003}\U{2004}\U{2005}\U{2006}\U{2007}\U{2008}\U{2009}\U{200A}"
    + "\U{2028}\U{2029}\U{202F}\U{205F}\U{3000}"

  lemma WhitespaceIff(c: char)
    ensures |WHITE_SPACE| == 25 && (IsWhitespace(c) <==> c in WHITE_SPACE)
  {
  }

  /** The length of the longest prefix without a character satisfying `stop`. */
  function Until(s: string, stop: char -> bool): (n: nat)
    ensures n <= |s|
    ensures forall k :: 0 <= k < n ==> !stop(s[k])
    ensures n < |s| ==> stop(s[n])
  {
    if s == "" || stop(s[0]) then 0 else 1 + Until(s[1..], stop)
  }

  lemma {:induction false} UntilIs(s: string, n: nat, stop: char -> bool)
    requires n <= |s| && (forall k :: 0 <= k < n ==> !stop(s[k])) && (n < |s| ==> stop(s[n]))
    ensures Until(s, stop) == n
  {
    var m := Until(s, stop);
    assert m < |s| ==> stop(s[m]);
  }

  lemma {:induction false} UntilOfSum(a: string, b: string, stop: char -> bool)
    requires forall c :: c in a ==> !stop(c)
    requires b == "" || stop(b[0])
    ensures Until(a + b, stop) == |a|
  {
    UntilIs(a + b, |a|, stop);
  }

  predicate SchemeAt(s: string, i: nat) { i + 3 <= |s| && s[i] == ':' && s[i + 1] == '/' && s[i + 2] == '/' }

  predicate HasScheme(s: string) { exists i: nat | i < |s| :: SchemeAt(s, i) }

  /** A scheme is a colon with two slashes behind it. */
  lemma {:induction false} SchemeFollows(a: string, b: string)
    ensures HasScheme(a + "://" + b)
  {
    assert SchemeAt(a + "://" + b, |a|);
  }

  lemma {:induction false} SchemeIn(s: string) returns (a: string, b: string)
    requires HasScheme(s)
    ensures s == a + "://" + b
  {
    var i: nat :| i < |s| && SchemeAt(s, i);
    a, b := s[..i], s[i + 3..];
  }
}
