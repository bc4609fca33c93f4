/** Rewriting path strings inside a Mach-O file: shorter paths are written over
    longer ones in place, inside NUL-terminated fields, without moving anything
    else. */
module MachoStrings {
  newtype Byte = b: int | 0 <= b < 256

  type Bytes = seq<Byte>

  /** The rewrites differ in which occurrences of the old bytes count and in how often a field is rewritten. */
  datatype Mode = Placeholder | PathPrefix

  function Zeros(n: nat): (z: Bytes)
    ensures |z| == n
  {
    seq(n, _ => 0)
  }

  const SLASH: Byte := 47

  /** `old` occurs at the front of `s` in a way that counts: anywhere for a
      placeholder; as a whole path prefix otherwise. */
  predicate Hit(mode: Mode, old_: Bytes, s: Bytes) {
    && old_ <= s
    && (mode.PathPrefix? && |s| > |old_| ==> s[|old_|] == 0 || s[|old_|] == SLASH)
  }

  /** One field with its occurrences replaced: the first placeholder, or every path prefix. */
  function Rewrite(mode: Mode, old_: Bytes, new_: Bytes, field: Bytes): (r: Bytes)
    requires old_ != []
    decreases |field|
  {
    if field == [] then []
    else if Hit(mode, old_, field) then
      new_ + (if mode.Placeholder? then field[|old_|..] else Rewrite(mode, old_, new_, field[|old_|..]))
    else [field[0]] + Rewrite(mode, old_, new_, field[1..])
  }

  /** Length of the first NUL-free stretch. */
  function FieldLength(s: Bytes): (n: nat)
    ensures n <= |s|
    ensures forall i :: 0 <= i < n ==> s[i] != 0
    ensures n < |s| ==> s[n] == 0
  {
    if s == [] || s[0] == 0 then 0 else 1 + FieldLength(s[1..])
  }

  lemma {:induction false} RewriteShrinks(mode: Mode, old_: Bytes, new_: Bytes, field: Bytes)
    requires old_ != [] && |new_| <= |old_|
    ensures |Rewrite(mode, old_, new_, field)| <= |field|
    decreases |field|
  {
    if field != [] {
      if Hit(mode, old_, field) {
        RewriteShrinks(mode, old_, new_, field[|old_|..]);
      } else {
        RewriteShrinks(mode, old_, new_, field[1..]);
      }
    }
  }

  /** A field rewritten and filled up with NULs to its old length. */
  function RewritePadded(mode: Mode, old_: Bytes, new_: Bytes, field: Bytes): (r: Bytes)
    requires old_ != [] && |new_| <= |old_|
    ensures |r| == |field|
  {
    RewriteShrinks(mode, old_, new_, field);
    var r := Rewrite(mode, old_, new_, field);
    r + Zeros(|field| - |r|)
  }

  /** The whole buffer: cut at the NULs, every field rewritten by itself. */
  function RewriteBuffer(mode: Mode, old_: Bytes, new_: Bytes, s: Bytes): (r: Bytes)
    requires old_ != [] && |new_| <= |old_|
    ensures |r| == |s|
    decreases |s|
  {
    var n := FieldLength(s);
    RewritePadded(mode, old_, new_, s[..n]) +
    if n == |s| then [] else [0] + RewriteBuffer(mode, old_, new_, s[n + 1..])
  }

  predicate NulFree(s: Bytes) {
    forall i :: 0 <= i < |s| ==> s[i] != 0
  }

  // How the buffer's rewriting moves along.

  lemma FieldAt(field: Bytes, tail: Bytes)
    requires NulFree(field) && (tail == [] || tail[0] == 0)
    ensures FieldLength(field + tail) == |field|
  {
    hide FieldLength;
    var s := field + tail;
    assert forall i :: 0 <= i < |field| ==> s[i] == field[i];
    assert tail != [] ==> s[|field|] == tail[0];
  }

  /** The rewriting of a field followed by the rest of the buffer. */
  lemma BufferSplit(mode: Mode, old_: Bytes, new_: Bytes, field: Bytes, tail: Bytes)
    requires old_ != [] && |new_| <= |old_|
    requires NulFree(field) && (tail == [] || tail[0] == 0)
    ensures RewriteBuffer(mode, old_, new_, field + tail) ==
              RewritePadded(mode, old_, new_, field) + RewriteBuffer(mode, old_, new_, tail)
  {
    FieldAt(field, tail);
    var s := field + tail;
    assert s[..|field|] == field;
    if tail == [] {
      assert s == field;
    } else {
      FieldAt([], tail);
      assert tail[..0] == [];
      assert s[|field| + 1..] == tail[1..];
      assert RewriteBuffer(mode, old_, new_, tail) == [] + ([0] + RewriteBuffer(mode, old_, new_, tail[1..]));
    }
  }

  lemma BufferNul(mode: Mode, old_: Bytes, new_: Bytes, s: Bytes)
    requires old_ != [] && |new_| <= |old_| && s != [] && s[0] == 0
    ensures RewriteBuffer(mode, old_, new_, s) == [0] + RewriteBuffer(mode, old_, new_, s[1..])
  {
    assert s[..0] == [];
    assert RewritePadded(mode, old_, new_, []) == [];
    var rest := [0] + RewriteBuffer(mode, old_, new_, s[1..]);
    assert [] + rest == rest;
  }

  lemma ZerosNext(n: nat, tail: Bytes)
    requires n > 0
    ensures Zeros(n) + tail == [0] + (Zeros(n - 1) + tail)
    ensures (Zeros(n) + tail)[0] == 0 && (Zeros(n) + tail)[1..] == Zeros(n - 1) + tail
  {
  }

  lemma {:induction false} BufferZeros(mode: Mode, old_: Bytes, new_: Bytes, n: nat, tail: Bytes)
    requires old_ != [] && |new_| <= |old_|
    ensures RewriteBuffer(mode, old_, new_, Zeros(n) + tail) == Zeros(n) + RewriteBuffer(mode, old_, new_, tail)
  {
    hide RewriteBuffer;
    var r := RewriteBuffer(mode, old_, new_, tail);
    if n == 0 {
      assert Zeros(0) + tail == tail && Zeros(0) + r == r;
    } else {
      ZerosNext(n, tail);
      BufferNul(mode, old_, new_, Zeros(n) + tail);
      BufferZeros(mode, old_, new_, n - 1, tail);
      ZerosNext(n, r);
    }
  }

  /** The first field of `s` and what follows it. */
  lemma Cut(s: Bytes)
    ensures var n := FieldLength(s);
            && s == s[..n] + s[n..] && NulFree(s[..n]) && (s[n..] == [] || s[n..][0] == 0)
  {
  }

  /** An old string free of NULs is found in the buffer exactly when it is found in the field. */
  lemma HitInField(mode: Mode, old_: Bytes, s: Bytes)
    requires NulFree(old_) && old_ != []
    ensures Hit(mode, old_, s) <==> Hit(mode, old_, s[..FieldLength(s)])
  {
    hide FieldLength;
    var n := FieldLength(s);
    if old_ <= s {
      assert forall i :: 0 <= i < |old_| ==> s[i] == old_[i];
      assert |old_| <= n;
    }
  }

  lemma CutRest(s: Bytes, n: nat)
    requires n <= |s| && s != [] && s[0] != 0 && NulFree(s[..n]) && (n < |s| ==> s[n] == 0)
    ensures s[..n] != [] && s[..n][0] == s[0] && NulFree(s[..n][1..])
    ensures s[1..] == s[..n][1..] + s[n..]
  {
  }

  lemma SkipInField(mode: Mode, old_: Bytes, new_: Bytes, field: Bytes)
    requires old_ != [] && |new_| <= |old_| && field != [] && !Hit(mode, old_, field)
    ensures RewritePadded(mode, old_, new_, field) == [field[0]] + RewritePadded(mode, old_, new_, field[1..])
  {
    RewriteShrinks(mode, old_, new_, field[1..]);
  }

  lemma SkipByte(mode: Mode, old_: Bytes, new_: Bytes, s: Bytes)
    requires old_ != [] && NulFree(old_) && |new_| <= |old_|
    requires s != [] && !Hit(mode, old_, s)
    ensures RewriteBuffer(mode, old_, new_, s) == [s[0]] + RewriteBuffer(mode, old_, new_, s[1..])
  {
    Cut(s);
    HitInField(mode, old_, s);
    hide RewriteBuffer, RewritePadded, FieldLength, Hit;
    var n := FieldLength(s);
    if s[0] == 0 {
      BufferNul(mode, old_, new_, s);
    } else {
      var field, tail := s[..n], s[n..];
      CutRest(s, n);
      BufferSplit(mode, old_, new_, field, tail);
      BufferSplit(mode, old_, new_, field[1..], tail);
      SkipInField(mode, old_, new_, field);
    }
  }

  lemma TooShort(mode: Mode, old_: Bytes, new_: Bytes, s: Bytes)
    requires old_ != [] && NulFree(old_) && |new_| <= |old_|
    requires |s| < |old_|
    ensures RewriteBuffer(mode, old_, new_, s) == s
    decreases |s|
  {
    if s != [] {
      SkipByte(mode, old_, new_, s);
      TooShort(mode, old_, new_, s[1..]);
    }
  }

  /** A replaced field, padding included. */
  lemma HitInFieldRewritten(mode: Mode, old_: Bytes, new_: Bytes, rest: Bytes)
    requires old_ != [] && |new_| <= |old_| && Hit(mode, old_, old_ + rest)
    ensures var pad := Zeros(|old_| - |new_|);
            RewritePadded(mode, old_, new_, old_ + rest) ==
              new_ + (if mode.Placeholder? then rest else RewritePadded(mode, old_, new_, rest)) + pad
  {
    assert (old_ + rest)[|old_|..] == rest;
    RewriteShrinks(mode, old_, new_, rest);
  }

  /** One placeholder replaced: the rest of its field only moves left. */
  lemma TakePlaceholder(old_: Bytes, new_: Bytes, rest: Bytes, tail: Bytes)
    requires old_ != [] && |new_| <= |old_|
    requires NulFree(old_) && NulFree(rest) && (tail == [] || tail[0] == 0)
    ensures RewriteBuffer(Placeholder, old_, new_, old_ + rest + tail) ==
              new_ + rest + Zeros(|old_| - |new_|) + RewriteBuffer(Placeholder, old_, new_, tail)
  {
    HitInFieldRewritten(Placeholder, old_, new_, rest);
    hide RewriteBuffer, RewritePadded;
    BufferSplit(Placeholder, old_, new_, old_ + rest, tail);
  }

  /** One path prefix replaced: the rest of its field, moved left and padded, is rewritten next. */
  lemma TakePrefix(old_: Bytes, new_: Bytes, rest: Bytes, tail: Bytes)
    requires old_ != [] && |new_| <= |old_|
    requires NulFree(old_) && NulFree(rest) && (tail == [] || tail[0] == 0)
    requires Hit(PathPrefix, old_, old_ + rest)
    ensures RewriteBuffer(PathPrefix, old_, new_, old_ + rest + tail) ==
              new_ + RewriteBuffer(PathPrefix, old_, new_, rest + Zeros(|old_| - |new_|) + tail)
  {
    var d := |old_| - |new_|;
    HitInFieldRewritten(PathPrefix, old_, new_, rest);
    hide RewriteBuffer, RewritePadded;
    BufferSplit(PathPrefix, old_, new_, old_ + rest, tail);
    BufferZeros(PathPrefix, old_, new_, d, tail);
    BufferSplit(PathPrefix, old_, new_, rest, Zeros(d) + tail);
    Regroup([], rest, Zeros(d), tail);
    Regroup(new_, RewritePadded(PathPrefix, old_, new_, rest), Zeros(d), RewriteBuffer(PathPrefix, old_, new_, tail));
  }

  lemma Regroup(a: Bytes, b: Bytes, c: Bytes, d: Bytes)
    ensures a + b + c + d == a + (b + (c + d))
    ensures b + c + d == b + (c + d)
  {
  }
}
