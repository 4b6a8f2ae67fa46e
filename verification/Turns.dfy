/** Taking turns: remainders, rotations, and who comes first when a cursor counts up. */
module Turns {

  lemma Multiple(m: int, d: int)
    requires m > 0
    ensures d >= 1 ==> m * d >= m
    ensures d <= -1 ==> m * d <= -m
  {
  }

  lemma {:induction false} ModUnique(x: int, m: int, q: int, r: int)
    requires m > 0 && x == m * q + r && 0 <= r < m
    ensures x % m == r && x / m == q
  {
    var d := q - x / m;
    assert m * d == x % m - r;
    Multiple(m, d);
  }

  /** The place a cursor value points at. */
  function Slot(cursor: nat, n: nat): (k: nat)
    requires n > 0
    ensures k < n
  {
    cursor % n
  }

  lemma {:induction false} Residue(c: nat, n: nat, i: nat)
    requires i < n
    ensures Slot(c + i, n) == if Slot(c, n) + i < n then Slot(c, n) + i else Slot(c, n) + i - n
  {
    var q, r := c / n, c % n;
    if r + i < n {
      ModUnique(c + i, n, q, r + i);
    } else {
      assert n * (q + 1) == n * q + n;
      ModUnique(c + i, n, q + 1, r + i - n);
    }
  }

  /** Among `n` consecutive cursor values exactly one points at place `k`. */
  lemma {:induction false} TurnOf(c: nat, n: nat, k: nat) returns (turn: nat)
    requires k < n
    ensures c <= turn < c + n
    ensures forall d: nat :: c <= d < c + n ==> (Slot(d, n) == k <==> d == turn)
  {
    var r := Slot(c, n);
    turn := c + if r <= k then k - r else k - r + n;
    forall d: nat | c <= d < c + n ensures Slot(d, n) == k <==> d == turn {
      Residue(c, n, d - c);
    }
  }

  /** The place `i` steps on from place `k`, going round. */
  function From(k: nat, i: nat, n: nat): (p: nat)
    requires k < n && i < n
    ensures p < n
  {
    if k + i < n then k + i else k + i - n
  }

  /** How many steps on from place `k` place `j` is. */
  function StepsTo(k: nat, j: nat, n: nat): (d: nat)
    requires k < n && j < n
    ensures d < n && From(k, d, n) == j
  {
    if k <= j then j - k else j - k + n
  }

  /** The place `i` steps before place `j`. */
  function Back(j: nat, i: nat, n: nat): (p: nat)
    requires j < n && i <= n
    ensures p < n
  {
    if i <= j then j - i else j - i + n
  }

  lemma StepsIs(k: nat, j: nat, i: nat, n: nat)
    requires k < n && j < n && i < n
    ensures StepsTo(k, j, n) == i <==> k == Back(j, i, n)
  {
  }

  /** The cursor values from `c` on, one for each place, that point at place `j` or at one of
      the `m - 1` places before it. */
  function TurnsWithin(c: nat, n: nat, j: nat, m: nat): set<nat>
    requires j < n
  {
    set d: nat | c <= d < c + n && StepsTo(Slot(d, n), j, n) < m
  }

  lemma OneMoreTurn(c: nat, n: nat, j: nat, m: nat, turn: nat)
    requires j < n && 0 < m && c <= turn < c + n
    requires forall d: nat :: c <= d < c + n ==> (StepsTo(Slot(d, n), j, n) == m - 1 <==> d == turn)
    ensures turn !in TurnsWithin(c, n, j, m - 1)
    ensures TurnsWithin(c, n, j, m) == TurnsWithin(c, n, j, m - 1) + {turn}
  {
    hide Slot, StepsTo;
  }

  /** They are `m`. */
  lemma {:induction false} Nearby(c: nat, n: nat, j: nat, m: nat)
    requires j < n && m <= n
    ensures |TurnsWithin(c, n, j, m)| == m
  {
    if m == 0 {
      assert TurnsWithin(c, n, j, 0) == {};
    } else {
      Nearby(c, n, j, m - 1);
      var turn := TurnOf(c, n, Back(j, m - 1, n));
      hide Slot, StepsTo, Back, TurnsWithin;
      forall d: nat | c <= d < c + n ensures StepsTo(Slot(d, n), j, n) == m - 1 <==> d == turn {
        StepsIs(Slot(d, n), j, m - 1, n);
      }
      OneMoreTurn(c, n, j, m, turn);
    }
  }

  function Rotate<T>(s: seq<T>, k: nat): seq<T>
    requires k <= |s|
  {
    s[k..] + s[..k]
  }

  /** A rotation keeps every element and the cyclic order. */
  lemma {:induction false} RotateKeeps<T>(s: seq<T>, k: nat)
    requires k <= |s|
    ensures multiset(Rotate(s, k)) == multiset(s) && |Rotate(s, k)| == |s|
    ensures forall i :: 0 <= i < |s| ==> Rotate(s, k)[i] == s[if i + k < |s| then i + k else i + k - |s|]
  {
    assert s == s[..k] + s[k..];
  }
}
