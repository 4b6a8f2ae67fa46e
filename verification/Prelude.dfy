/** Small shared vocabulary: optional values and duplicate-free sequences. */
module Prelude {

  datatype Option<+T> = None | Some(value: T)

  function Min(a: int, b: int): int { if a <= b then a else b }

  function Max(a: int, b: int): int { if a >= b then a else b }

  /** No value occurs twice. */
  ghost predicate NoDup<T>(s: seq<T>) {
    forall i, j :: 0 <= i < j < |s| ==> s[i] != s[j]
  }

  /** The elements of `s` as a set. */
  function Elems<T>(s: seq<T>): set<T> { set x | x in s }

  /** A duplicate-free sequence has as many elements as its set. */
  lemma {:induction false} NoDupCard<T>(s: seq<T>)
    requires NoDup(s)
    ensures |Elems(s)| == |s|
  {
    if s == [] {
      assert Elems(s) == {};
    } else {
      var last := |s| - 1;
      var front := s[..last];
      NoDupCard(front);
      assert s == front + [s[last]];
      assert Elems(s) == Elems(front) + {s[last]};
      assert s[last] !in front;
    }
  }

  /** A duplicate-free sequence of members of `bound` is no longer than `bound`. */
  lemma {:induction false} NoDupBound<T>(s: seq<T>, bound: set<T>)
    requires NoDup(s) && Elems(s) <= bound
    ensures |s| <= |bound|
  {
    NoDupCard(s);
    SubsetCard(Elems(s), bound);
  }

  lemma {:induction false} SubsetCard<T>(a: set<T>, b: set<T>)
    requires a <= b
    ensures |a| <= |b|
    ensures |a| == |b| ==> a == b
  {
    if a != {} {
      var x :| x in a;
      SubsetCard(a - {x}, b - {x});
    }
  }

  /** Being duplicate-free is a matter of contents, not of order. */
  lemma {:induction false} NoDupIsMultiset<T>(s: seq<T>)
    ensures NoDup(s) <==> forall x :: x in s ==> multiset(s)[x] == 1
  {
    if s != [] {
      var last := |s| - 1;
      var front := s[..last];
      assert s == front + [s[last]];
      NoDupIsMultiset(front);
      if NoDup(s) {
        assert s[last] !in front;
        forall x | x in s ensures multiset(s)[x] == 1 {
          if x != s[last] { assert x in front; }
        }
      }
      if forall x :: x in s ==> multiset(s)[x] == 1 {
        assert s[last] in s && multiset(s)[s[last]] == multiset(front)[s[last]] + 1;
        assert s[last] !in front;
        forall x | x in front ensures multiset(front)[x] == 1 { assert x in s; }
        forall i, j | 0 <= i < j < |s| ensures s[i] != s[j] {
          if j < last { assert front[i] != front[j]; } else { assert front[i] in front; }
        }
      }
    }
  }
}
