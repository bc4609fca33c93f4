/** What the byte rewriting does and leaves alone, without reference to how it scans. */
module MachoLaws {
  import opened Options
  import opened MachoStrings
  import opened MachoPatch

  // Fields stay where they are.

  /** Every NUL of the buffer is a NUL afterwards. */
  ghost predicate NulsKept(s: Bytes, r: Bytes) {
    |s| == |r| && forall k :: 0 <= k < |s| && s[k] == 0 ==> r[k] == 0
  }

  lemma {:induction false} NulsSurvive(mode: Mode, old_: Bytes, new_: Bytes, s: Bytes)
    requires old_ != [] && |new_| <= |old_|
    ensures NulsKept(s, RewriteBuffer(mode, old_, new_, s))
    decreases |s|
  {
    var n := FieldLength(s);
    Cut(s);
    if n < |s| {
      BufferSplit(mode, old_, new_, s[..n], s[n..]);
      BufferNul(mode, old_, new_, s[n..]);
      NulsSurvive(mode, old_, new_, s[n..][1..]);
      hide RewriteBuffer, RewritePadded, FieldLength;
      var r := RewriteBuffer(mode, old_, new_, s[n..][1..]);
      forall k | 0 <= k < |s| && s[k] == 0
        ensures RewriteBuffer(mode, old_, new_, s)[k] == 0
      {
        if k > n {
          assert s[n..][1..][k - n - 1] == s[k];
        }
      }
    }
  }

  /** The same for all passes together. */
  lemma {:induction false} PatchKeepsNuls(passes: seq<Pass>, s: Bytes)
    ensures NulsKept(s, ApplyAll(passes, s))
  {
    if passes != [] {
      var i := |passes| - 1;
      PatchKeepsNuls(passes[..i], s);
      var p := passes[i];
      if |p.to| <= |p.from| {
        NulsSurvive(p.mode, p.from, p.to, ApplyAll(passes[..i], s));
      }
    }
  }

  /** Each side of a NUL is rewritten as if it were alone. */
  lemma {:induction false} FieldsAreIndependent(mode: Mode, old_: Bytes, new_: Bytes, a: Bytes, b: Bytes)
    requires old_ != [] && |new_| <= |old_|
    ensures RewriteBuffer(mode, old_, new_, a + ([0] + b)) ==
              RewriteBuffer(mode, old_, new_, a) + ([0] + RewriteBuffer(mode, old_, new_, b))
    decreases |a|
  {
    Cut(a);
    hide RewriteBuffer, RewritePadded, FieldLength;
    var n := FieldLength(a);
    var field, tail := a[..n], a[n..];
    var end := [0] + b;
    var x, y := RewritePadded(mode, old_, new_, field), [0] + RewriteBuffer(mode, old_, new_, b);
    assert RewriteBuffer(mode, old_, new_, end) == y by {
      BufferNul(mode, old_, new_, end);
      assert end[1..] == b;
    }
    BufferSplit(mode, old_, new_, field, tail);
    if tail == [] {
      assert a == field;
      assert RewriteBuffer(mode, old_, new_, tail) == [];
      BufferSplit(mode, old_, new_, field, end);
      assert x + [] + y == x + y;
    } else {
      assert a + end == field + (tail + end);
      BufferSplit(mode, old_, new_, field, tail + end);
      TailWithEnd(mode, old_, new_, tail, end);
      FieldsAreIndependent(mode, old_, new_, tail[1..], b);
      var z := RewriteBuffer(mode, old_, new_, tail[1..]);
      assert x + ([0] + (z + y)) == x + ([0] + z) + y;
    }
  }

  lemma TailWithEnd(mode: Mode, old_: Bytes, new_: Bytes, tail: Bytes, end: Bytes)
    requires old_ != [] && |new_| <= |old_| && tail != [] && tail[0] == 0
    ensures RewriteBuffer(mode, old_, new_, tail) == [0] + RewriteBuffer(mode, old_, new_, tail[1..])
    ensures RewriteBuffer(mode, old_, new_, tail + end) == [0] + RewriteBuffer(mode, old_, new_, tail[1..] + end)
    ensures (tail + end)[0] == 0
  {
    BufferNul(mode, old_, new_, tail);
    BufferNul(mode, old_, new_, tail + end);
    hide RewriteBuffer;
    assert (tail + end)[1..] == tail[1..] + end;
  }

  // The first placeholder of a field.

  /** Without an occurrence a field stays as it is. */
  lemma {:induction false} NoOccurrence(mode: Mode, old_: Bytes, new_: Bytes, field: Bytes)
    requires old_ != []
    requires forall k :: 0 <= k < |field| ==> !Hit(mode, old_, field[k..])
    ensures Rewrite(mode, old_, new_, field) == field
    decreases |field|
  {
    if field != [] {
      assert field[0..] == field;
      forall k | 0 <= k < |field[1..]|
        ensures !Hit(mode, old_, field[1..][k..])
      {
        assert field[1..][k..] == field[k + 1..];
      }
      NoOccurrence(mode, old_, new_, field[1..]);
    }
  }

  ghost predicate Replaces(mode: Mode, old_: Bytes, new_: Bytes, field: Bytes, k: nat)
    requires old_ != []
  {
    && k + |old_| <= |field|
    && var after := field[k + |old_|..];
       Rewrite(mode, old_, new_, field) ==
         field[..k] + new_ + if mode.Placeholder? then after else Rewrite(mode, old_, new_, after)
  }

  lemma {:induction false} FirstIsReplaced(mode: Mode, old_: Bytes, new_: Bytes, field: Bytes, k: nat)
    requires old_ != [] && k < |field| && Hit(mode, old_, field[k..])
    requires forall j :: 0 <= j < k ==> !Hit(mode, old_, field[j..])
    ensures Replaces(mode, old_, new_, field, k)
    decreases k
  {
    hide Replaces, Rewrite, Hit;
    assert field[0..] == field;
    if k == 0 {
      OccurrenceHere(mode, old_, new_, field);
    } else {
      assert field[1..][k - 1..] == field[k..];
      forall j | 0 <= j < k - 1
        ensures !Hit(mode, old_, field[1..][j..])
      {
        assert field[1..][j..] == field[j + 1..];
      }
      FirstIsReplaced(mode, old_, new_, field[1..], k - 1);
      OccurrenceLater(mode, old_, new_, field, k);
    }
  }

  /** Otherwise its first occurrence is replaced; what follows is left alone
      for a placeholder and rewritten by itself for a path prefix. */
  lemma FirstOccurrence(mode: Mode, old_: Bytes, new_: Bytes, field: Bytes, k: nat)
    requires old_ != [] && k < |field| && Hit(mode, old_, field[k..])
    requires forall j :: 0 <= j < k ==> !Hit(mode, old_, field[j..])
    ensures k + |old_| <= |field|
    ensures var after := field[k + |old_|..];
            Rewrite(mode, old_, new_, field) ==
              field[..k] + new_ + if mode.Placeholder? then after else Rewrite(mode, old_, new_, after)
  {
    FirstIsReplaced(mode, old_, new_, field, k);
    hide Rewrite, Hit;
  }

  lemma OccurrenceHere(mode: Mode, old_: Bytes, new_: Bytes, field: Bytes)
    requires old_ != [] && Hit(mode, old_, field) && field != []
    ensures Replaces(mode, old_, new_, field, 0)
  {
  }

  lemma OccurrenceLater(mode: Mode, old_: Bytes, new_: Bytes, field: Bytes, k: nat)
    requires old_ != [] && field != [] && !Hit(mode, old_, field) && k > 0
    requires Replaces(mode, old_, new_, field[1..], k - 1)
    ensures Replaces(mode, old_, new_, field, k)
  {
    NotHere(mode, old_, new_, field);
    hide Rewrite, Hit;
    var after := field[k + |old_|..];
    assert field[1..][k - 1 + |old_|..] == after;
    assert field[..k] == [field[0]] + field[1..k] && field[1..k] == field[1..][..k - 1];
    var rest := if mode.Placeholder? then after else Rewrite(mode, old_, new_, after);
    Joined([field[0]], field[1..][..k - 1], new_, rest);
  }

  lemma Joined(a: Bytes, b: Bytes, c: Bytes, d: Bytes)
    ensures a + (b + c + d) == a + b + c + d
  {
  }

  lemma NotHere(mode: Mode, old_: Bytes, new_: Bytes, field: Bytes)
    requires old_ != [] && field != [] && !Hit(mode, old_, field)
    ensures Rewrite(mode, old_, new_, field) == [field[0]] + Rewrite(mode, old_, new_, field[1..])
  {
  }

  // What is left of the old bytes.

  predicate Agree(a: Bytes, b: Bytes) {
    a <= b || b <= a
  }

  /** No occurrence of the old bytes can start inside the new ones or run into them. */
  ghost predicate Apart(old_: Bytes, new_: Bytes) {
    && (forall k :: 0 <= k < |new_| ==> !Agree(new_[k..], old_))
    && (forall k :: 0 < k < |old_| ==> !Agree(old_[k..], new_))
  }

  /** Old and new bytes of a pass that keep apart. */
  ghost predicate KeepApart(mode: Mode, old_: Bytes, new_: Bytes) {
    && old_ != [] && |new_| <= |old_| && NulFree(old_) && NulFree(new_) && Apart(old_, new_)
    && (mode.PathPrefix? ==> new_ != [] && old_[0] == SLASH && new_[0] == SLASH)
  }

  ghost predicate HitAt(mode: Mode, old_: Bytes, s: Bytes, k: int) {
    0 <= k < |s| && Hit(mode, old_, s[k..])
  }

  ghost predicate NoHit(mode: Mode, old_: Bytes, s: Bytes) {
    forall k :: !HitAt(mode, old_, s, k)
  }

  /** Occurrences do not reach over a NUL. */
  lemma HitFront(mode: Mode, old_: Bytes, a: Bytes, b: Bytes, k: int)
    requires old_ != [] && NulFree(old_) && NulFree(a) && (b == [] || b[0] == 0)
    requires k < |a|
    ensures HitAt(mode, old_, a + b, k) <==> HitAt(mode, old_, a, k)
  {
    if k >= 0 {
      var s := a + b;
      assert s[k..] == a[k..] + b;
      FieldAt(a[k..], b);
      HitInField(mode, old_, s[k..]);
      assert s[k..][..|a| - k] == a[k..];
    }
  }

  lemma HitBehind(mode: Mode, old_: Bytes, a: Bytes, b: Bytes, k: int)
    requires |a| <= k
    ensures HitAt(mode, old_, a + b, k) <==> HitAt(mode, old_, b, k - |a|)
  {
    if k < |a + b| {
      assert (a + b)[k..] == b[k - |a|..];
    }
  }

  lemma NotAtNul(mode: Mode, old_: Bytes, s: Bytes, k: int)
    requires old_ != [] && NulFree(old_) && 0 <= k < |s| && s[k] == 0
    ensures !HitAt(mode, old_, s, k)
  {
    assert s[k..][0] == 0;
  }

  /** The first occurrence that counts, if there is one. */
  lemma {:induction false} FindHit(mode: Mode, old_: Bytes, field: Bytes) returns (k: nat)
    ensures k <= |field|
    ensures forall j :: 0 <= j < k ==> !Hit(mode, old_, field[j..])
    ensures k < |field| ==> Hit(mode, old_, field[k..])
  {
    k := 0;
    while k < |field| && !Hit(mode, old_, field[k..])
      invariant k <= |field|
      invariant forall j :: 0 <= j < k ==> !Hit(mode, old_, field[j..])
    {
      k := k + 1;
    }
  }

  /** An occurrence within kept text counted before. */
  lemma KeptWithin(mode: Mode, old_: Bytes, new_: Bytes, field: Bytes, k: nat, rest: Bytes, j: nat)
    requires KeepApart(mode, old_, new_)
    requires k < |field| && Hit(mode, old_, field[k..]) && j + |old_| <= k
    requires Hit(mode, old_, (field[..k] + new_ + rest)[j..])
    ensures Hit(mode, old_, field[j..])
  {
    var was, now := field[j..], (field[..k] + new_ + rest)[j..];
    assert now[..|old_|] == was[..|old_|];
    if mode.PathPrefix? {
      if j + |old_| < k {
        assert now[|old_|] == was[|old_|];
      } else {
        assert was[|old_|] == field[k..][0] == SLASH;
      }
    }
  }

  /** One reaching into the new bytes agrees with them. */
  lemma KeptAcross(mode: Mode, old_: Bytes, new_: Bytes, front: Bytes, rest: Bytes, j: nat)
    requires j < |front| < j + |old_|
    requires Hit(mode, old_, (front + new_ + rest)[j..])
    ensures Agree(old_[|front| - j..], new_)
  {
    var now, n := (front + new_ + rest)[j..], |front| - j;
    assert old_ == now[..|old_|];
    var reach := old_[n..];
    assert reach == now[n..][..|reach|];
    assert now[n..] == new_ + rest;
  }

  lemma KeptText(mode: Mode, old_: Bytes, new_: Bytes, field: Bytes, k: nat, rest: Bytes, j: nat)
    requires KeepApart(mode, old_, new_)
    requires j < k < |field| && Hit(mode, old_, field[k..]) && !Hit(mode, old_, field[j..])
    ensures !Hit(mode, old_, (field[..k] + new_ + rest)[j..])
  {
    hide Hit;
    if Hit(mode, old_, (field[..k] + new_ + rest)[j..]) {
      if j + |old_| <= k {
        KeptWithin(mode, old_, new_, field, k, rest, j);
      } else {
        KeptAcross(mode, old_, new_, field[..k], rest, j);
      }
    }
  }

  lemma NewAgrees(mode: Mode, old_: Bytes, new_: Bytes, front: Bytes, rest: Bytes, j: nat)
    requires |front| <= j < |front| + |new_|
    requires Hit(mode, old_, (front + new_ + rest)[j..])
    ensures Agree(new_[j - |front|..], old_)
  {
    var now, left := (front + new_ + rest)[j..], new_[j - |front|..];
    assert now == left + rest;
  }

  lemma NewText(mode: Mode, old_: Bytes, new_: Bytes, front: Bytes, rest: Bytes, j: nat)
    requires KeepApart(mode, old_, new_) && |front| <= j < |front| + |new_|
    ensures !Hit(mode, old_, (front + new_ + rest)[j..])
  {
    hide Hit;
    if Hit(mode, old_, (front + new_ + rest)[j..]) {
      NewAgrees(mode, old_, new_, front, rest, j);
    }
  }

  /** Once the first occurrence is replaced, only what follows it matters. */
  lemma OnlyBehind(mode: Mode, old_: Bytes, new_: Bytes, field: Bytes, k: nat, rest: Bytes)
    requires KeepApart(mode, old_, new_) && k < |field| && Hit(mode, old_, field[k..])
    requires forall j :: 0 <= j < k ==> !Hit(mode, old_, field[j..])
    ensures NoHit(mode, old_, field[..k] + new_ + rest) <==> NoHit(mode, old_, rest)
  {
    var front := field[..k] + new_;
    hide Hit, HitAt, KeepApart;
    forall j | j < |front|
      ensures !HitAt(mode, old_, front + rest, j)
    {
      FrontClean(mode, old_, new_, field, k, rest, j);
    }
    forall j | j >= |front|
      ensures HitAt(mode, old_, front + rest, j) <==> HitAt(mode, old_, rest, j - |front|)
    {
      HitBehind(mode, old_, front, rest, j);
    }
    if !NoHit(mode, old_, rest) {
      var j :| HitAt(mode, old_, rest, j);
      HitBehind(mode, old_, front, rest, |front| + j);
      HitIsInside(mode, old_, rest, j);
      assert HitAt(mode, old_, front + rest, |front| + j);
    }
  }

  lemma HitIsInside(mode: Mode, old_: Bytes, s: Bytes, k: int)
    requires HitAt(mode, old_, s, k)
    ensures 0 <= k < |s|
  {
  }

  lemma FrontClean(mode: Mode, old_: Bytes, new_: Bytes, field: Bytes, k: nat, rest: Bytes, j: int)
    requires KeepApart(mode, old_, new_) && k < |field| && Hit(mode, old_, field[k..])
    requires forall i :: 0 <= i < k ==> !Hit(mode, old_, field[i..])
    requires j < k + |new_|
    ensures !HitAt(mode, old_, field[..k] + new_ + rest, j)
  {
    hide Hit, KeepApart;
    if 0 <= j < k {
      KeptText(mode, old_, new_, field, k, rest, j);
    } else if k <= j {
      NewText(mode, old_, new_, field[..k], rest, j);
    }
  }

  lemma {:induction false} FieldClean(old_: Bytes, new_: Bytes, field: Bytes)
    requires KeepApart(PathPrefix, old_, new_)
    ensures NoHit(PathPrefix, old_, Rewrite(PathPrefix, old_, new_, field))
    decreases |field|
  {
    var k := FindHit(PathPrefix, old_, field);
    if k == |field| {
      NoOccurrence(PathPrefix, old_, new_, field);
    } else {
      FirstOccurrence(PathPrefix, old_, new_, field, k);
      var after := field[k + |old_|..];
      FieldClean(old_, new_, after);
      OnlyBehind(PathPrefix, old_, new_, field, k, Rewrite(PathPrefix, old_, new_, after));
    }
  }

  /** Two occurrences of the placeholder in one string, the second behind the first. */
  ghost predicate Repeats(old_: Bytes, s: Bytes) {
    exists i, j :: RepeatsAt(old_, s, i, j)
  }

  ghost predicate RepeatsAt(old_: Bytes, s: Bytes, i: int, j: int) {
    i + |old_| <= j && HitAt(Placeholder, old_, s, i) && HitAt(Placeholder, old_, s, j) && NulFree(s[i..j])
  }

  /** What the placeholder pass leaves of one string. */
  lemma FieldOnce(old_: Bytes, new_: Bytes, field: Bytes)
    requires KeepApart(Placeholder, old_, new_) && NulFree(field)
    ensures NoHit(Placeholder, old_, Rewrite(Placeholder, old_, new_, field)) <==> !Repeats(old_, field)
  {
    var k := FindHit(Placeholder, old_, field);
    if k == |field| {
      NoOccurrence(Placeholder, old_, new_, field);
    } else {
      FirstOccurrence(Placeholder, old_, new_, field, k);
      var after := field[k + |old_|..];
      OnlyBehind(Placeholder, old_, new_, field, k, after);
      assert HitAt(Placeholder, old_, field, k);
      BehindFirst(old_, field, k);
      hide *;
    }
  }

  /** A string with a first placeholder repeats it exactly when another lies behind that one. */
  lemma BehindFirst(old_: Bytes, field: Bytes, k: nat)
    requires NulFree(field) && k + |old_| <= |field| && HitAt(Placeholder, old_, field, k)
    requires forall i :: 0 <= i < k ==> !Hit(Placeholder, old_, field[i..])
    ensures NoHit(Placeholder, old_, field[k + |old_|..]) <==> !Repeats(old_, field)
  {
    assert forall i :: HitAt(Placeholder, old_, field, i) ==> k <= i;
    hide Hit, NulFree, HitAt;
    var front, after := field[..k + |old_|], field[k + |old_|..];
    assert field == front + after;
    if !NoHit(Placeholder, old_, after) {
      var j :| HitAt(Placeholder, old_, after, j);
      HitIsInside(Placeholder, old_, after, j);
      HitBehind(Placeholder, old_, front, after, |front| + j);
      SliceNulFree(field, k, |front| + j);
      assert RepeatsAt(old_, field, k, |front| + j);
    }
    if Repeats(old_, field) {
      var i, j :| RepeatsAt(old_, field, i, j);
      HitBehind(Placeholder, old_, front, after, j);
    }
  }

  lemma SliceNulFree(s: Bytes, i: nat, j: nat)
    requires NulFree(s) && i <= j <= |s|
    ensures NulFree(s[i..j])
  {
  }

  lemma {:induction false} RewriteNulFree(mode: Mode, old_: Bytes, new_: Bytes, field: Bytes)
    requires old_ != [] && NulFree(new_) && NulFree(field)
    ensures NulFree(Rewrite(mode, old_, new_, field))
    decreases |field|
  {
    if field != [] {
      if Hit(mode, old_, field) {
        if mode.PathPrefix? {
          RewriteNulFree(mode, old_, new_, field[|old_|..]);
        }
      } else {
        RewriteNulFree(mode, old_, new_, field[1..]);
      }
    }
  }

  lemma CleanJoin(mode: Mode, old_: Bytes, field: Bytes, tail: Bytes)
    requires old_ != [] && NulFree(old_) && NulFree(field) && (tail == [] || tail[0] == 0)
    ensures NoHit(mode, old_, field + tail) <==> NoHit(mode, old_, field) && NoHit(mode, old_, tail)
  {
    hide HitAt, NulFree;
    forall k
      ensures HitAt(mode, old_, field + tail, k) <==>
              if k < |field| then HitAt(mode, old_, field, k) else HitAt(mode, old_, tail, k - |field|)
    {
      if k < |field| {
        HitFront(mode, old_, field, tail, k);
      } else {
        HitBehind(mode, old_, field, tail, k);
      }
    }
    if !NoHit(mode, old_, field) {
      var k :| HitAt(mode, old_, field, k);
      HitIsInside(mode, old_, field, k);
      assert HitAt(mode, old_, field + tail, k);
    }
    if !NoHit(mode, old_, tail) {
      var k :| HitAt(mode, old_, tail, k);
      HitIsInside(mode, old_, tail, k);
      assert HitAt(mode, old_, field + tail, |field| + k);
    }
  }

  lemma CleanZeros(mode: Mode, old_: Bytes, n: nat, tail: Bytes)
    requires old_ != [] && NulFree(old_)
    ensures NoHit(mode, old_, Zeros(n) + tail) <==> NoHit(mode, old_, tail)
  {
    hide HitAt, NulFree;
    var s := Zeros(n) + tail;
    forall k
      ensures HitAt(mode, old_, s, k) <==> HitAt(mode, old_, tail, k - n)
    {
      if 0 <= k < n {
        NotAtNul(mode, old_, s, k);
      }
      ZerosInFront(mode, old_, n, tail, k);
    }
    if !NoHit(mode, old_, tail) {
      var k :| HitAt(mode, old_, tail, k);
      assert HitAt(mode, old_, s, n + k);
    }
  }

  lemma ZerosInFront(mode: Mode, old_: Bytes, n: nat, tail: Bytes, k: int)
    requires 0 <= k < n ==> !HitAt(mode, old_, Zeros(n) + tail, k)
    ensures HitAt(mode, old_, Zeros(n) + tail, k) <==> HitAt(mode, old_, tail, k - n)
  {
    if k >= n {
      HitBehind(mode, old_, Zeros(n), tail, k);
    }
  }

  /** A rewritten field, padded, in front of the rest of the buffer. */
  lemma CleanPadded(mode: Mode, old_: Bytes, new_: Bytes, field: Bytes, after: Bytes)
    requires KeepApart(mode, old_, new_) && NulFree(field) && (after == [] || after[0] == 0)
    ensures NoHit(mode, old_, RewritePadded(mode, old_, new_, field) + after) <==>
            NoHit(mode, old_, Rewrite(mode, old_, new_, field)) && NoHit(mode, old_, after)
  {
    RewriteNulFree(mode, old_, new_, field);
    RewriteShrinks(mode, old_, new_, field);
    var r := Rewrite(mode, old_, new_, field);
    var pad := Zeros(|field| - |r|);
    hide Rewrite, Hit, NoHit;
    CleanZeros(mode, old_, |pad|, after);
    CleanJoin(mode, old_, r, pad + after);
    assert r + pad + after == r + (pad + after);
  }

  lemma CleanNothing(mode: Mode, old_: Bytes)
    ensures NoHit(mode, old_, [])
  {
  }

  /** When old and new prefix keep apart, no path of the buffer is left under the old prefix. */
  lemma {:induction false} NoneLeft(old_: Bytes, new_: Bytes, s: Bytes)
    requires KeepApart(PathPrefix, old_, new_)
    ensures NoHit(PathPrefix, old_, RewriteBuffer(PathPrefix, old_, new_, s))
    decreases |s|
  {
    Cut(s);
    var n := FieldLength(s);
    var field, tail := s[..n], s[n..];
    hide *;
    CleanBuffer(PathPrefix, old_, new_, field, tail);
    FieldClean(old_, new_, field);
    if tail != [] {
      NoneLeft(old_, new_, tail[1..]);
    }
  }

  /** What is left of the old bytes is left in a field by itself. */
  lemma CleanBuffer(mode: Mode, old_: Bytes, new_: Bytes, field: Bytes, tail: Bytes)
    requires KeepApart(mode, old_, new_) && NulFree(field) && (tail == [] || tail[0] == 0)
    ensures NoHit(mode, old_, RewriteBuffer(mode, old_, new_, field + tail)) <==>
            && NoHit(mode, old_, Rewrite(mode, old_, new_, field))
            && (tail == [] || NoHit(mode, old_, RewriteBuffer(mode, old_, new_, tail[1..])))
  {
    BufferSplit(mode, old_, new_, field, tail);
    CleanNothing(mode, old_);
    assert tail == [] ==> RewriteBuffer(mode, old_, new_, tail) == [];
    hide RewriteBuffer, RewritePadded, Rewrite, Hit, NoHit;
    if tail != [] {
      BufferNul(mode, old_, new_, tail);
      CleanZeros(mode, old_, 1, RewriteBuffer(mode, old_, new_, tail[1..]));
      assert Zeros(1) == [0];
    }
    CleanPadded(mode, old_, new_, field, RewriteBuffer(mode, old_, new_, tail));
  }

  /** Two placeholders in one string lie on the same side of a NUL. */
  lemma RepeatsAround(old_: Bytes, field: Bytes, rest: Bytes)
    requires old_ != [] && NulFree(old_) && NulFree(field)
    ensures Repeats(old_, field + ([0] + rest)) <==> Repeats(old_, field) || Repeats(old_, rest)
  {
    hide RepeatsAt, NulFree;
    var s, n := field + ([0] + rest), |field| + 1;
    assert s == field + [0] + rest;
    if Repeats(old_, field) {
      var i, j :| RepeatsAt(old_, field, i, j);
      RepeatsInside(old_, field, i, j);
      RepeatsInFront(old_, field, [0] + rest, i, j);
    }
    if Repeats(old_, rest) {
      var i, j :| RepeatsAt(old_, rest, i, j);
      RepeatsInside(old_, rest, i, j);
      RepeatsBehind(old_, field + [0], rest, n + i, n + j);
    }
    if Repeats(old_, s) {
      var i, j :| RepeatsAt(old_, s, i, j);
      RepeatsInside(old_, s, i, j);
      RepeatsOneSide(old_, field, rest, i, j);
      if j < |field| {
        RepeatsInFront(old_, field, [0] + rest, i, j);
      } else {
        RepeatsBehind(old_, field + [0], rest, i, j);
      }
    }
  }

  lemma RepeatsInFront(old_: Bytes, a: Bytes, b: Bytes, i: int, j: int)
    requires old_ != [] && NulFree(old_) && NulFree(a) && (b == [] || b[0] == 0)
    requires i + |old_| <= j && j < |a|
    ensures RepeatsAt(old_, a + b, i, j) <==> RepeatsAt(old_, a, i, j)
  {
    HitFront(Placeholder, old_, a, b, i);
    HitFront(Placeholder, old_, a, b, j);
    if i >= 0 {
      assert (a + b)[i..j] == a[i..j];
    }
  }

  lemma RepeatsBehind(old_: Bytes, a: Bytes, b: Bytes, i: int, j: int)
    requires |a| <= i && i + |old_| <= j
    ensures RepeatsAt(old_, a + b, i, j) <==> RepeatsAt(old_, b, i - |a|, j - |a|)
  {
    HitBehind(Placeholder, old_, a, b, i);
    HitBehind(Placeholder, old_, a, b, j);
    if j <= |a + b| {
      assert (a + b)[i..j] == b[i - |a|..j - |a|];
    }
  }

  lemma RepeatsOneSide(old_: Bytes, field: Bytes, rest: Bytes, i: int, j: int)
    requires old_ != [] && NulFree(old_)
    requires RepeatsAt(old_, field + ([0] + rest), i, j)
    ensures j < |field| || |field| < i
  {
    var s, n := field + ([0] + rest), |field|;
    NotAtNul(Placeholder, old_, s, n);
    forall k | i <= k < j
      ensures s[k] != 0
    {
      assert s[i..j][k - i] == s[k];
    }
  }

  lemma RepeatsInside(old_: Bytes, s: Bytes, i: int, j: int)
    requires RepeatsAt(old_, s, i, j)
    ensures 0 <= i && i + |old_| <= j < |s|
  {
  }

  /** The placeholder pass leaves no placeholder exactly when no string of the buffer holds a second one. */
  lemma {:induction false} PlaceholdersGo(old_: Bytes, new_: Bytes, s: Bytes)
    requires KeepApart(Placeholder, old_, new_)
    ensures NoHit(Placeholder, old_, RewriteBuffer(Placeholder, old_, new_, s)) <==> !Repeats(old_, s)
    decreases |s|
  {
    Cut(s);
    var n := FieldLength(s);
    var field, tail := s[..n], s[n..];
    assert old_ != [] && NulFree(old_);
    hide *;
    CleanBuffer(Placeholder, old_, new_, field, tail);
    FieldOnce(old_, new_, field);
    if tail == [] {
      assert s == field;
    } else {
      PlaceholdersGo(old_, new_, tail[1..]);
      assert tail == [0] + tail[1..];
      RepeatsAround(old_, field, tail[1..]);
    }
  }

  /** The markers of the placeholders keep apart from every path without an '@'. */
  lemma PlaceholdersKeepApart(newPrefix: Bytes, newCellar: Option<Bytes>, i: nat)
    requires i < 2
    requires var p := Passes(newPrefix, newCellar)[i];
             |p.to| <= |p.from| && NulFree(p.to) && p.to != [] && p.to[0] == SLASH && forall k :: 0 <= k < |p.to| ==> p.to[k] != 64
    ensures var p := Passes(newPrefix, newCellar)[i];
            p.mode == Placeholder && KeepApart(Placeholder, p.from, p.to)
  {
    var p := Passes(newPrefix, newCellar)[i];
    assert p.from[0] == 64 && forall k :: 0 <= k < |p.from| ==> p.from[k] != SLASH;
    hide Passes;
    forall k | 0 <= k < |p.to|
      ensures !Agree(p.to[k..], p.from)
    {
      assert p.to[k..][0] == p.to[k];
    }
    forall k | 0 < k < |p.from|
      ensures !Agree(p.from[k..], p.to)
    {
      assert p.from[k..][0] == p.from[k];
    }
  }

  /** So a second placeholder in one string stays. */
  lemma SecondPlaceholderStays(newPrefix: Bytes, newCellar: Option<Bytes>, i: nat, between: Bytes)
    requires i < 2 && NulFree(between)
    requires var p := Passes(newPrefix, newCellar)[i];
             |p.to| <= |p.from| && NulFree(p.to) && p.to != [] && p.to[0] == SLASH && forall k :: 0 <= k < |p.to| ==> p.to[k] != 64
    ensures var p := Passes(newPrefix, newCellar)[i];
            !NoHit(Placeholder, p.from, RewriteBuffer(Placeholder, p.from, p.to, p.from + between + p.from))
  {
    hide *;
    var p := Passes(newPrefix, newCellar)[i];
    PlaceholdersKeepApart(newPrefix, newCellar, i);
    PlaceholderPattern(p.from);
    TwoRepeat(p.from, between);
    PlaceholdersGo(p.from, p.to, p.from + between + p.from);
  }

  lemma PlaceholderPattern(b: Pattern)
    ensures b != [] && NulFree(b)
  {
  }

  lemma TwoRepeat(old_: Bytes, between: Bytes)
    requires old_ != [] && NulFree(old_) && NulFree(between)
    ensures Repeats(old_, old_ + between + old_)
  {
    var s, j := old_ + between + old_, |old_| + |between|;
    assert s[0..] == s && s[j..] == old_ && s[0..j] == old_ + between;
    assert RepeatsAt(old_, s, 0, j);
  }
}
