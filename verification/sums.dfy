/** Sums over sequences, for counting who holds what. */
module Sums {
  function Sum<T>(s: seq<T>, f: T -> nat): nat {
    if s == [] then 0 else Sum(s[..|s| - 1], f) + f(s[|s| - 1])
  }

  lemma {:induction false} SumUpdate<T>(s: seq<T>, i: nat, x: T, f: T -> nat)
    requires i < |s|
    ensures Sum(s[i := x], f) + f(s[i]) == Sum(s, f) + f(x)
  {
    var t := s[i := x];
    if i == |s| - 1 {
      assert t[..|t| - 1] == s[..|s| - 1];
    } else {
      SumUpdate(s[..|s| - 1], i, x, f);
      assert t[..|t| - 1] == s[..|s| - 1][i := x];
    }
  }

  lemma {:induction false} SumAppend<T>(s: seq<T>, t: seq<T>, f: T -> nat)
    ensures Sum(s + t, f) == Sum(s, f) + Sum(t, f)
  {
    if t == [] {
      assert s + t == s;
    } else {
      SumAppend(s, t[..|t| - 1], f);
      assert (s + t)[..|s + t| - 1] == s + t[..|t| - 1];
    }
  }

  lemma {:induction false} SumZero<T>(s: seq<T>, f: T -> nat)
    requires forall x :: x in s ==> f(x) == 0
    ensures Sum(s, f) == 0
  {
    if s != [] {
      SumZero(s[..|s| - 1], f);
    }
  }

  /** Elements that count once each and differ by a key are no more than the keys there are. */
  lemma {:induction false} SumDistinct<T, K>(s: seq<T>, f: T -> nat, key: T -> K, keys: set<K>)
    requires forall x :: x in s ==> f(x) <= 1 && (f(x) > 0 ==> key(x) in keys)
    requires forall i, j :: 0 <= i < j < |s| && f(s[i]) > 0 && f(s[j]) > 0 ==> key(s[i]) != key(s[j])
    ensures Sum(s, f) <= |keys|
  {
    if s != [] {
      var front, last := s[..|s| - 1], s[|s| - 1];
      var others := if f(last) > 0 then keys - {key(last)} else keys;
      forall x | x in front
        ensures f(x) > 0 ==> key(x) in others
      {
        var i :| 0 <= i < |front| && front[i] == x;
        assert s[i] == x;
      }
      SumDistinct(front, f, key, others);
    }
  }

  /** An element counts no more than the sum. */
  lemma {:induction false} SumAtLeast<T>(s: seq<T>, i: nat, f: T -> nat)
    requires i < |s|
    ensures f(s[i]) <= Sum(s, f)
  {
    if i < |s| - 1 {
      SumAtLeast(s[..|s| - 1], i, f);
    }
  }

  lemma {:induction false} SumAtMost<T>(s: seq<T>, f: T -> nat, g: T -> nat)
    requires forall x :: x in s ==> f(x) <= g(x)
    ensures Sum(s, f) <= Sum(s, g)
  {
    if s != [] {
      SumAtMost(s[..|s| - 1], f, g);
    }
  }

  /** When one sum exceeds another, some element does. */
  lemma {:induction false} SumExceeds<T>(s: seq<T>, f: T -> nat, g: T -> nat) returns (i: nat)
    requires Sum(s, f) > Sum(s, g)
    ensures i < |s| && f(s[i]) > g(s[i])
  {
    var last := |s| - 1;
    if f(s[last]) > g(s[last]) {
      i := last;
    } else {
      i := SumExceeds(s[..last], f, g);
    }
  }

  lemma {:induction false} SumPositive<T>(s: seq<T>, f: T -> nat) returns (i: nat)
    requires Sum(s, f) > 0
    ensures i < |s| && f(s[i]) > 0
  {
    var last := |s| - 1;
    if f(s[last]) > 0 {
      i := last;
    } else {
      i := SumPositive(s[..last], f);
    }
  }
}
