/** Package names and their order: code points compared from the left, as the
    standard ordered collections compare strings. */
module Names {
  type Name = string

  predicate Less(a: Name, b: Name) {
    if b == [] then false
    else if a == [] then true
    else if a[0] != b[0] then a[0] < b[0]
    else Less(a[1..], b[1..])
  }

  predicate AtMost(a: Name, b: Name) {
    a == b || Less(a, b)
  }

  lemma {:induction false} LessAsymmetric(a: Name, b: Name)
    ensures !(Less(a, b) && Less(b, a))
    ensures !Less(a, a)
  {
    if a != [] {
      LessAsymmetric(a[1..], a[1..]);
      if b != [] {
        LessAsymmetric(a[1..], b[1..]);
      }
    }
  }

  lemma {:induction false} LessTotal(a: Name, b: Name)
    ensures a == b || Less(a, b) || Less(b, a)
  {
    if a != [] && b != [] {
      LessTotal(a[1..], b[1..]);
      assert a == [a[0]] + a[1..] && b == [b[0]] + b[1..];
    }
  }

  lemma {:induction false} LessTransitive(a: Name, b: Name, c: Name)
    requires Less(a, b) && Less(b, c)
    ensures Less(a, c)
  {
    if a != [] && a[0] == b[0] == c[0] {
      LessTransitive(a[1..], b[1..], c[1..]);
    }
  }

  ghost predicate IsFirst(s: set<Name>, n: Name) {
    n in s && forall x :: x in s ==> AtMost(n, x)
  }

  lemma {:induction false} FirstExists(s: set<Name>) returns (n: Name)
    requires s != {}
    ensures IsFirst(s, n)
    decreases |s|
  {
    n :| n in s;
    if s != {n} {
      var rest := FirstExists(s - {n});
      LessTotal(n, rest);
      forall x | x in s && x != n && Less(n, rest)
        ensures Less(n, x)
      {
        assert x in s - {n};
        if x != rest {
          LessTransitive(n, rest, x);
        }
      }
      if Less(rest, n) {
        n := rest;
      }
    }
  }

  /** The first element of an ordered set. */
  method First(s: set<Name>) returns (n: Name)
    requires s != {}
    ensures IsFirst(s, n)
  {
    ghost var first := FirstExists(s);
    n :| n in s && forall x :: x in s ==> AtMost(n, x);
  }

  /** The elements of a sequence in ascending order. */
  ghost predicate Ascending(s: seq<Name>) {
    forall i, j :: 0 <= i < j < |s| ==> Less(s[i], s[j])
  }

  /** Inserts into a list kept in ascending order. */
  function Insert(s: seq<Name>, n: Name): (r: seq<Name>)
    ensures multiset(r) == multiset(s) + multiset{n}
  {
    if s == [] then [n]
    else if AtMost(n, s[0]) then [n] + s
    else
      assert s == [s[0]] + s[1..];
      [s[0]] + Insert(s[1..], n)
  }

  function Sort(s: seq<Name>): (r: seq<Name>)
    ensures multiset(r) == multiset(s)
  {
    if s == [] then []
    else
      assert s == [s[0]] + s[1..];
      Insert(Sort(s[1..]), s[0])
  }

  lemma SortKeeps(s: seq<Name>)
    ensures |Sort(s)| == |s|
    ensures forall n :: n in Sort(s) <==> n in s
  {
    assert |multiset(Sort(s))| == |multiset(s)|;
    forall n
      ensures n in Sort(s) <==> n in s
    {
      assert n in Sort(s) <==> n in multiset(Sort(s));
      assert n in s <==> n in multiset(s);
    }
  }

  // Sequences of names compared name by name from the left.

  predicate ListAtMost(a: seq<Name>, b: seq<Name>) {
    if a == [] then true
    else if b == [] then false
    else if a[0] != b[0] then Less(a[0], b[0])
    else ListAtMost(a[1..], b[1..])
  }

  lemma {:induction false} ListAntisymmetric(a: seq<Name>, b: seq<Name>)
    requires ListAtMost(a, b) && ListAtMost(b, a)
    ensures a == b
  {
    if a != [] {
      LessAsymmetric(a[0], b[0]);
      ListAntisymmetric(a[1..], b[1..]);
      assert a == [a[0]] + a[1..] && b == [b[0]] + b[1..];
    }
  }
}
