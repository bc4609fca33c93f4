/** Finding a piece of text in another. */
module Text {
  import opened Options

  predicate Occurs(s: string, pat: string, k: nat) {
    k + |pat| <= |s| && s[k..k + |pat|] == pat
  }

  lemma OccursTail(s: string, pat: string, j: nat)
    requires s != "" && j > 0
    ensures Occurs(s, pat, j) <==> Occurs(s[1..], pat, j - 1)
  {
  }

  lemma CharAt(s: string, m: string, p: nat, i: nat)
    requires Occurs(s, m, p) && i < |m|
    ensures s[p + i] == m[i]
  {
  }

  /** The first occurrence of `pat`. */
  function Find(s: string, pat: string): (r: Option<nat>)
    ensures r.Some? ==> Occurs(s, pat, r.value)
    ensures forall j: nat :: Occurs(s, pat, j) ==> r.Some? && r.value <= j
    decreases |s|
  {
    if pat <= s then
      assert s[0..|pat|] == pat;
      Some(0)
    else if s == "" then None
    else
      var r := Find(s[1..], pat);
      assert forall j: nat :: Occurs(s, pat, j) ==> r.Some? && r.value + 1 <= j by {
        forall j: nat | Occurs(s, pat, j)
          ensures r.Some? && r.value + 1 <= j
        {
          assert s[0..|pat|] == s[..|pat|];
          OccursTail(s, pat, j);
        }
      }
      match r
      case None => None
      case Some(k) =>
        OccursTail(s, pat, k + 1);
        Some(k + 1)
  }

  lemma OccursWithin(a: string, b: string, m: string, p: nat)
    requires p + |m| <= |a|
    ensures Occurs(a + b, m, p) <==> Occurs(a, m, p)
  {
  }

  lemma OccursBehind(a: string, b: string, m: string, p: nat)
    ensures Occurs(a + b, m, |a| + p) <==> Occurs(b, m, p)
  {
  }

  lemma FindIs(s: string, m: string, k: nat)
    requires Occurs(s, m, k) && forall j: nat :: j < k ==> !Occurs(s, m, j)
    ensures Find(s, m) == Some(k)
  {
  }

  lemma NoSuchText(s: string, m: string, at: nat)
    requires at < |m| && forall i :: 0 <= i < |s| ==> s[i] != m[at]
    ensures Find(s, m) == None
  {
  }
}
