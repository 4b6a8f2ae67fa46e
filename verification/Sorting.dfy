/** The one stable sort every ordering step of the router relies on.
    `StableSort` is its specification, `SortInPlace` the array algorithm; the
    lemmas say that it is the only stable sort, and that sorting twice is one
    lexicographic sort. */
module Sorting {

  ghost predicate TotalPreorder<T(!new)>(le: (T, T) -> bool) {
    && (forall a, b :: le(a, b) || le(b, a))
    && (forall a, b, c :: le(a, b) && le(b, c) ==> le(a, c))
  }

  ghost predicate SortedBy<T>(s: seq<T>, le: (T, T) -> bool) {
    forall i, j :: 0 <= i < j < |s| ==> le(s[i], s[j])
  }

  /** The elements of `s` that tie with `x`, in their order in `s`. */
  function Ties<T>(s: seq<T>, x: T, le: (T, T) -> bool): seq<T> {
    if s == [] then []
    else (if le(s[0], x) && le(x, s[0]) then [s[0]] else []) + Ties(s[1..], x, le)
  }

  /** Put `x`, which stood before all of `s`, in front of everything it does not exceed. */
  function Insert<T>(x: T, s: seq<T>, le: (T, T) -> bool): seq<T> {
    if s == [] || le(x, s[0]) then [x] + s else [s[0]] + Insert(x, s[1..], le)
  }

  function StableSort<T>(s: seq<T>, le: (T, T) -> bool): seq<T> {
    if s == [] then [] else Insert(s[0], StableSort(s[1..], le), le)
  }

  /** Sort by `first`; break ties by `second`. */
  function Lex<T>(first: (T, T) -> bool, second: (T, T) -> bool): (T, T) -> bool {
    (a, b) => first(a, b) && (first(b, a) ==> second(a, b))
  }

  // ---- Order, contents and stability ----

  lemma {:induction false} InsertContents<T>(x: T, s: seq<T>, le: (T, T) -> bool)
    ensures multiset(Insert(x, s, le)) == multiset{x} + multiset(s)
  {
    if s != [] && !le(x, s[0]) {
      InsertContents(x, s[1..], le);
      assert s == [s[0]] + s[1..];
    }
  }

  lemma SortedCons<T(!new)>(x: T, s: seq<T>, le: (T, T) -> bool)
    requires SortedBy(s, le) && forall i :: 0 <= i < |s| ==> le(x, s[i])
    ensures SortedBy([x] + s, le)
  {
  }

  lemma {:induction false} InsertKeeps<T(!new)>(x: T, s: seq<T>, le: (T, T) -> bool)
    ensures multiset(Insert(x, s, le)) == multiset{x} + multiset(s)
    ensures TotalPreorder(le) && SortedBy(s, le) ==> SortedBy(Insert(x, s, le), le)
  {
    InsertContents(x, s, le);
    if TotalPreorder(le) && SortedBy(s, le) {
      hide Insert;
      if s == [] || le(x, s[0]) {
        InsertStops(x, s, le);
        forall i | 0 <= i < |s| ensures le(x, s[i]) { if i > 0 { assert le(s[0], s[i]); } }
        SortedCons(x, s, le);
      } else {
        var rest := Insert(x, s[1..], le);
        InsertPasses(x, s, 0, le);
        assert s[0..] == s;
        InsertKeeps(x, s[1..], le);
        forall j | 0 <= j < |rest| ensures le(s[0], rest[j]) {
          assert rest[j] in multiset(rest);
          assert rest[j] == x || rest[j] in s[1..];
        }
        SortedCons(s[0], rest, le);
      }
    }
  }

  lemma {:induction false} SortContents<T(!new)>(s: seq<T>, le: (T, T) -> bool)
    ensures multiset(StableSort(s, le)) == multiset(s)
    ensures |StableSort(s, le)| == |s|
    ensures TotalPreorder(le) ==> SortedBy(StableSort(s, le), le)
  {
    if s != [] {
      SortContents(s[1..], le);
      InsertKeeps(s[0], StableSort(s[1..], le), le);
      assert s == [s[0]] + s[1..];
    }
    assert |multiset(StableSort(s, le))| == |multiset(s)|;
  }

  lemma {:induction false} InsertTies<T(!new)>(x: T, s: seq<T>, y: T, le: (T, T) -> bool)
    requires TotalPreorder(le) && SortedBy(s, le)
    ensures Ties(Insert(x, s, le), y, le) == Ties([x], y, le) + Ties(s, y, le)
  {
    hide Insert, Ties;
    if s == [] || le(x, s[0]) {
      InsertStops(x, s, le);
      TiesCons(x, s, y, le);
    } else {
      var h, rest := s[0], s[1..];
      InsertPasses(x, s, 0, le);
      assert s[0..] == s && s == [h] + rest;
      assert SortedBy(rest, le);
      InsertTies(x, rest, y, le);
      TiesCons(h, Insert(x, rest, le), y, le);
      TiesCons(h, rest, y, le);
      TiesCons(x, rest, y, le);
      hide TotalPreorder, SortedBy;
      if le(x, y) && le(y, x) { NotBoth(x, h, y, le); }
      EitherEmpty(Ties([h], y, le), Ties([x], y, le), Ties(rest, y, le));
    }
  }

  lemma NotBoth<T(!new)>(x: T, h: T, y: T, le: (T, T) -> bool)
    requires TotalPreorder(le) && !le(x, h) && le(x, y)
    ensures !le(y, h)
  {
  }

  lemma EitherEmpty<T>(a: seq<T>, b: seq<T>, c: seq<T>)
    requires a == [] || b == []
    ensures a + (b + c) == b + (a + c)
  {
  }

  lemma {:induction false} TiesCons<T(!new)>(x: T, s: seq<T>, y: T, le: (T, T) -> bool)
    ensures Ties([x] + s, y, le) == Ties([x], y, le) + Ties(s, y, le)
    ensures Ties([x], y, le) == if le(x, y) && le(y, x) then [x] else []
  {
    assert ([x] + s)[1..] == s && [x][1..] == [];
  }

  /** Stability: equals keep the order they came in. */
  lemma {:induction false} SortIsStable<T(!new)>(s: seq<T>, y: T, le: (T, T) -> bool)
    requires TotalPreorder(le)
    ensures Ties(StableSort(s, le), y, le) == Ties(s, y, le)
  {
    if s != [] {
      var h, rest := s[0], s[1..];
      assert StableSort(s, le) == Insert(h, StableSort(rest, le), le) && s == [h] + rest;
      hide StableSort, Insert, Ties, TotalPreorder, SortedBy;
      SortIsStable(rest, y, le);
      SortContents(rest, le);
      InsertTies(h, StableSort(rest, le), y, le);
      TiesCons(h, rest, y, le);
    } else {
      assert StableSort(s, le) == s;
    }
  }

  lemma {:induction false} TiesMember<T(!new)>(s: seq<T>, x: T, le: (T, T) -> bool)
    requires TotalPreorder(le)
    ensures Ties(s, x, le) == [] <==> (forall y :: y in s ==> !(le(x, y) && le(y, x)))
    ensures forall y :: y in Ties(s, x, le) ==> y in s && le(x, y) && le(y, x)
  {
    if s != [] { TiesMember(s[1..], x, le); }
  }

  /** A sorted sequence whose ties stand as in `s` is the stable sort of `s`. */
  lemma {:induction false} OnlyStableSort<T(!new)>(t: seq<T>, s: seq<T>, le: (T, T) -> bool)
    requires TotalPreorder(le) && SortedBy(t, le)
    requires forall y :: Ties(t, y, le) == Ties(s, y, le)
    ensures t == StableSort(s, le)
  {
    var u := StableSort(s, le);
    SortContents(s, le);
    forall y ensures Ties(t, y, le) == Ties(u, y, le) { SortIsStable(s, y, le); }
    SameTiesSameSequence(t, u, le);
  }

  lemma {:induction false} SameTiesSameSequence<T(!new)>(t: seq<T>, u: seq<T>, le: (T, T) -> bool)
    requires TotalPreorder(le) && SortedBy(t, le) && SortedBy(u, le)
    requires forall y :: Ties(t, y, le) == Ties(u, y, le)
    ensures t == u
  {
    if t == [] || u == [] {
      if t != [] { TiesMember(t, t[0], le); TiesMember(u, t[0], le); }
      if u != [] { TiesMember(u, u[0], le); TiesMember(t, u[0], le); }
    } else {
      var a, b := t[0], u[0];
      TiesMember(u, a, le);
      TiesMember(t, b, le);
      assert Ties(t, a, le) == Ties(u, a, le) && Ties(t, b, le) == Ties(u, b, le);
      TiesMember(t, a, le);
      TiesMember(u, b, le);
      assert le(a, b) && le(b, a);
      assert Ties(t, a, le)[0] == a && Ties(u, a, le)[0] == b;
      forall y ensures Ties(t[1..], y, le) == Ties(u[1..], y, le) {
        assert Ties(t, y, le) == Ties(u, y, le);
        assert a == b;
        if le(a, y) && le(y, a) {
          assert Ties(t, y, le)[1..] == Ties(t[1..], y, le);
          assert Ties(u, y, le)[1..] == Ties(u[1..], y, le);
        } else {
          assert Ties(t, y, le) == Ties(t[1..], y, le);
          assert Ties(u, y, le) == Ties(u[1..], y, le);
        }
      }
      SameTiesSameSequence(t[1..], u[1..], le);
    }
  }

  /** Sorting what is already sorted changes nothing. */
  lemma {:induction false} SortSortedIsIdentity<T(!new)>(s: seq<T>, le: (T, T) -> bool)
    requires SortedBy(s, le)
    ensures StableSort(s, le) == s
  {
    if s != [] { SortSortedIsIdentity(s[1..], le); }
  }

  // ---- Two passes are one lexicographic pass ----

  lemma {:induction false} InsertCommutes<T(!new)>(a: T, x: T, u: seq<T>, first: (T, T) -> bool, second: (T, T) -> bool)
    requires TotalPreorder(first) && !second(x, a)
    ensures Insert(a, Insert(x, u, Lex(first, second)), first) == Insert(x, Insert(a, u, first), Lex(first, second))
  {
    var lex := Lex(first, second);
    if u != [] {
      InsertCommutes(a, x, u[1..], first, second);
      assert ([x] + u)[1..] == u && ([a] + u)[1..] == u;
      assert ([u[0]] + Insert(x, u[1..], lex))[1..] == Insert(x, u[1..], lex);
      assert ([u[0]] + Insert(a, u[1..], first))[1..] == Insert(a, u[1..], first);
    }
  }

  lemma {:induction false} InsertSameOrder<T(!new)>(x: T, u: seq<T>, first: (T, T) -> bool, second: (T, T) -> bool)
    requires forall y :: y in u ==> second(x, y)
    ensures Insert(x, u, first) == Insert(x, u, Lex(first, second))
  {
    if u != [] && !first(x, u[0]) { InsertSameOrder(x, u[1..], first, second); }
  }

  lemma {:induction false} SortInserted<T(!new)>(x: T, t: seq<T>, first: (T, T) -> bool, second: (T, T) -> bool)
    requires TotalPreorder(first) && TotalPreorder(second) && SortedBy(t, second)
    ensures StableSort(Insert(x, t, second), first) == Insert(x, StableSort(t, first), Lex(first, second))
  {
    if t == [] || second(x, t[0]) {
      assert ([x] + t)[1..] == t;
      SortContents(t, first);
      forall y | y in StableSort(t, first) ensures second(x, y) {
        assert y in multiset(t);
      }
      InsertSameOrder(x, StableSort(t, first), first, second);
    } else {
      var r := Insert(x, t[1..], second);
      assert ([t[0]] + r)[1..] == r;
      SortInserted(x, t[1..], first, second);
      InsertCommutes(t[0], x, StableSort(t[1..], first), first, second);
    }
  }

  /** A stable pass over a stably sorted sequence is one stable lexicographic sort. */
  lemma {:induction false} TwoPassesAreLex<T(!new)>(s: seq<T>, first: (T, T) -> bool, second: (T, T) -> bool)
    requires TotalPreorder(first) && TotalPreorder(second)
    ensures StableSort(StableSort(s, second), first) == StableSort(s, Lex(first, second))
    ensures TotalPreorder(Lex(first, second))
  {
    if s != [] {
      TwoPassesAreLex(s[1..], first, second);
      SortContents(s[1..], second);
      SortInserted(s[0], StableSort(s[1..], second), first, second);
    }
  }

  // ---- The array algorithm ----

  /** Shifts smaller elements of the sorted tail left and drops `a[i]` into the gap. */
  method InsertInPlace<T>(a: array<T>, i: nat, le: (T, T) -> bool)
    requires i < a.Length
    modifies a
    ensures a[..i] == old(a[..i])
    ensures a[i..] == Insert(old(a[i]), old(a[i + 1..]), le)
  {
    hide Insert;
    var x := a[i];
    var j := i;
    ghost var tail := a[i + 1..];
    while j + 1 < a.Length && !le(x, a[j + 1])
      invariant i <= j < a.Length
      invariant a[..i] == old(a[..i])
      invariant a[j + 1..] == tail[j - i..]
      invariant Insert(x, tail, le) == a[i..j] + Insert(x, tail[j - i..], le)
    {
      InsertPasses(x, tail, j - i, le);
      assert a[j + 1] == tail[j - i];
      ghost var before := a[i..j];
      a[j] := a[j + 1];
      assert a[i..j] == before && a[i..j + 1] == before + [tail[j - i]];
      j := j + 1;
    }
    assert j + 1 < a.Length ==> a[j + 1] == tail[j - i];
    InsertStops(x, tail[j - i..], le);
    ghost var before, rest := a[i..j], a[j + 1..];
    a[j] := x;
    assert a[i..j] == before && a[j + 1..] == rest;
    assert a[i..] == before + ([x] + rest);
  }

  lemma {:induction false} InsertPasses<T>(x: T, s: seq<T>, k: nat, le: (T, T) -> bool)
    requires k < |s| && !le(x, s[k])
    ensures Insert(x, s[k..], le) == [s[k]] + Insert(x, s[k + 1..], le)
  {
    assert s[k..][0] == s[k] && s[k..][1..] == s[k + 1..];
  }

  lemma InsertStops<T>(x: T, s: seq<T>, le: (T, T) -> bool)
    requires s == [] || le(x, s[0])
    ensures Insert(x, s, le) == [x] + s
  {
  }

  method SortInPlace<T>(a: array<T>, le: (T, T) -> bool)
    modifies a
    ensures a[..] == StableSort(old(a[..]), le)
  {
    var i := a.Length;
    ghost var was := a[..];
    while i > 0
      invariant 0 <= i <= a.Length
      invariant a[..i] == was[..i]
      invariant a[i..] == StableSort(was[i..], le)
    {
      i := i - 1;
      assert was[i..][1..] == was[i + 1..] && a[i] == was[i];
      InsertInPlace(a, i, le);
    }
    assert a[0..] == a[..] && was[0..] == was;
  }
}
