/** The in-place passes over a Mach-O file's bytes. */
module MachoPatch {
  import opened Options
  import opened MachoStrings

  // Counting what is left, for termination when the new bytes are empty.

  function NonNul(s: Bytes): nat {
    if s == [] then 0 else (if s[0] != 0 then 1 else 0) + NonNul(s[1..])
  }

  lemma {:induction false} NonNulConcat(a: Bytes, b: Bytes)
    ensures NonNul(a + b) == NonNul(a) + NonNul(b)
  {
    if a == [] {
      assert a + b == b;
    } else {
      NonNulConcat(a[1..], b);
      assert (a + b)[1..] == a[1..] + b;
    }
  }

  lemma {:induction false} NonNulZeros(n: nat)
    ensures NonNul(Zeros(n)) == 0
  {
    if n > 0 {
      NonNulZeros(n - 1);
      assert Zeros(n)[1..] == Zeros(n - 1);
    }
  }

  lemma FewerNonNul(old_: Bytes, rest: Bytes, n: nat, tail: Bytes)
    requires old_ != [] && NulFree(old_)
    ensures NonNul(rest + Zeros(n) + tail) < NonNul(old_ + rest + tail)
  {
    NonNulConcat(old_ + rest, tail);
    NonNulConcat(old_, rest);
    NonNulConcat(rest + Zeros(n), tail);
    NonNulConcat(rest, Zeros(n));
    NonNulZeros(n);
  }

  /** The buffer from `i` on, taken apart at an occurrence of `old_`. */
  ghost predicate AtHit(s: Bytes, i: nat, old_: Bytes, rest: Bytes, tail: Bytes) {
    && i <= |s| && s[i..] == old_ + rest + tail
    && NulFree(rest) && (tail == [] || tail[0] == 0)
  }

  lemma TakeApart(s: Bytes, i: nat, old_: Bytes, at: nat, end: nat)
    requires at == i + |old_| <= |s| && s[i..at] == old_
    requires end == at + FieldLength(s[at..])
    ensures end <= |s| && AtHit(s, i, old_, s[at..end], s[end..])
  {
    hide FieldLength;
    var behind, n := s[at..], FieldLength(s[at..]);
    assert s[i..] == s[i..at] + s[at..end] + s[end..];
    forall k | 0 <= k < n
      ensures s[at..end][k] != 0
    {
      assert s[at..end][k] == behind[k];
    }
    if s[end..] != [] {
      assert s[end..][0] == behind[n];
    }
  }

  /** Puts `newBytes` over the `oldLen` bytes at `i`, moves the rest of the
      field left and clears the bytes this frees; returns the field's end. */
  method ReplaceInCString(contents: array<Byte>, i: nat, oldLen: nat, newBytes: Bytes) returns (strEnd: nat)
    requires i + oldLen <= contents.Length && |newBytes| <= oldLen
    modifies contents
    ensures Replaced(old(contents[..]), i, oldLen, newBytes, strEnd, contents[..])
  {
    ghost var was := contents[..];
    assert contents[i + oldLen..] == was[i + oldLen..];
    strEnd := i + oldLen + FieldLength(contents[i + oldLen..]);
    forall k | 0 <= k < |newBytes| {
      contents[i + k] := newBytes[k];
    }
    forall k | 0 <= k < strEnd - (i + oldLen) {
      contents[i + |newBytes| + k] := contents[i + oldLen + k];
    }
    var padStart := strEnd - (oldLen - |newBytes|);
    forall k | padStart <= k < strEnd {
      contents[k] := 0;
    }
    Assembled(was, contents[..], i, oldLen, newBytes, strEnd);
  }

  lemma Assembled(was: Bytes, now: Bytes, i: nat, oldLen: nat, newBytes: Bytes, strEnd: nat)
    requires |was| == |now| && i + oldLen <= strEnd <= |was| && |newBytes| <= oldLen
    requires forall k :: 0 <= k < i || strEnd <= k < |was| ==> now[k] == was[k]
    requires forall k :: i <= k < i + |newBytes| ==> now[k] == newBytes[k - i]
    requires forall k :: i + |newBytes| <= k < strEnd - (oldLen - |newBytes|) ==> now[k] == was[k + (oldLen - |newBytes|)]
    requires forall k :: strEnd - (oldLen - |newBytes|) <= k < strEnd ==> now[k] == 0
    ensures now == was[..i] + newBytes + was[i + oldLen..strEnd] + Zeros(oldLen - |newBytes|) + was[strEnd..]
  {
  }

  /** The buffer so far, with the rest still to be rewritten, amounts to the rewriting of the whole. */
  ghost predicate Done(mode: Mode, old_: Bytes, new_: Bytes, was: Bytes, now: Bytes, i: nat)
    requires old_ != [] && |new_| <= |old_|
  {
    && i <= |now| && |now| == |was|
    && now[..i] + RewriteBuffer(mode, old_, new_, now[i..]) == RewriteBuffer(mode, old_, new_, was)
  }

  lemma DoneStart(mode: Mode, old_: Bytes, new_: Bytes, was: Bytes)
    requires old_ != [] && |new_| <= |old_|
    ensures Done(mode, old_, new_, was, was, 0)
  {
  }

  lemma DoneSkip(mode: Mode, old_: Bytes, new_: Bytes, was: Bytes, now: Bytes, i: nat)
    requires old_ != [] && NulFree(old_) && |new_| <= |old_| && i < |now|
    requires Done(mode, old_, new_, was, now, i) && !Hit(mode, old_, now[i..])
    ensures Done(mode, old_, new_, was, now, i + 1)
  {
    SkipByte(mode, old_, new_, now[i..]);
    hide RewriteBuffer;
    assert now[i..][1..] == now[i + 1..];
    assert now[..i + 1] == now[..i] + [now[i]];
    Regroup(now[..i], [now[i]], RewriteBuffer(mode, old_, new_, now[i + 1..]), []);
  }

  lemma DoneEnd(mode: Mode, old_: Bytes, new_: Bytes, was: Bytes, now: Bytes, i: nat)
    requires old_ != [] && NulFree(old_) && |new_| <= |old_|
    requires Done(mode, old_, new_, was, now, i) && |now| < i + |old_|
    ensures now == RewriteBuffer(mode, old_, new_, was)
  {
    TooShort(mode, old_, new_, now[i..]);
    assert now == now[..i] + now[i..];
  }

  /** Where the next round starts, the replaced bytes lie behind it. */
  lemma SplitNext(front: Bytes, new_: Bytes, rest: Bytes, pad: Bytes, tail: Bytes)
    ensures var next := front + new_ + rest + pad + tail;
            && next[..|front| + |new_| + |rest|] == front + new_ + rest
            && next[|front| + |new_| + |rest|..] == pad + tail
            && next[..|front| + |new_|] == front + new_
            && next[|front| + |new_|..] == rest + pad + tail
  {
  }

  lemma DonePlaceholder(old_: Bytes, new_: Bytes, was: Bytes, now: Bytes, i: nat, rest: Bytes, tail: Bytes, next: Bytes)
    requires old_ != [] && NulFree(old_) && |new_| <= |old_|
    requires Done(Placeholder, old_, new_, was, now, i) && AtHit(now, i, old_, rest, tail)
    requires next == now[..i] + new_ + rest + Zeros(|old_| - |new_|) + tail && |next| == |now|
    ensures Done(Placeholder, old_, new_, was, next, i + |new_| + |rest|)
  {
    hide RewriteBuffer, NulFree, Zeros;
    var pad := Zeros(|old_| - |new_|);
    var front, r := now[..i], RewriteBuffer(Placeholder, old_, new_, tail);
    assert RewriteBuffer(Placeholder, old_, new_, now[i..]) == new_ + rest + pad + r by {
      TakePlaceholder(old_, new_, rest, tail);
    }
    assert RewriteBuffer(Placeholder, old_, new_, pad + tail) == pad + r by {
      BufferZeros(Placeholder, old_, new_, |pad|, tail);
    }
    assert next[..i + |new_| + |rest|] == front + new_ + rest && next[i + |new_| + |rest|..] == pad + tail by {
      SplitNext(front, new_, rest, pad, tail);
    }
    Regroup3(front, new_, rest, pad, r);
  }

  lemma LessAfterPlaceholder(old_: Bytes, new_: Bytes, now: Bytes, i: nat, rest: Bytes, tail: Bytes, next: Bytes)
    requires old_ != [] && NulFree(old_) && |new_| <= |old_|
    requires AtHit(now, i, old_, rest, tail)
    requires next == now[..i] + new_ + rest + Zeros(|old_| - |new_|) + tail
    ensures NonNul(next[i + |new_| + |rest|..]) < NonNul(now[i..])
  {
    var pad := Zeros(|old_| - |new_|);
    SplitNext(now[..i], new_, rest, pad, tail);
    FewerNonNul(old_, rest, |pad|, tail);
    NonNulConcat(pad, tail);
    NonNulConcat(rest + pad, tail);
    NonNulConcat(rest, pad);
  }

  lemma Regroup3(a: Bytes, b: Bytes, c: Bytes, d: Bytes, e: Bytes)
    ensures a + b + c + (d + e) == a + (b + c + d + e)
  {
  }

  lemma DonePrefix(old_: Bytes, new_: Bytes, was: Bytes, now: Bytes, i: nat, rest: Bytes, tail: Bytes, next: Bytes)
    requires old_ != [] && NulFree(old_) && |new_| <= |old_|
    requires Done(PathPrefix, old_, new_, was, now, i) && AtHit(now, i, old_, rest, tail)
    requires Hit(PathPrefix, old_, now[i..])
    requires next == now[..i] + new_ + rest + Zeros(|old_| - |new_|) + tail && |next| == |now|
    ensures Done(PathPrefix, old_, new_, was, next, i + |new_|)
    ensures NonNul(next[i + |new_|..]) < NonNul(now[i..])
  {
    var pad := Zeros(|old_| - |new_|);
    HitOfRest(old_, rest, tail);
    TakePrefix(old_, new_, rest, tail);
    FewerNonNul(old_, rest, |pad|, tail);
    SplitNext(now[..i], new_, rest, pad, tail);
    Regroup([], now[..i], new_, RewriteBuffer(PathPrefix, old_, new_, rest + pad + tail));
    hide RewriteBuffer, NonNul, Hit, NulFree;
  }

  /** The buffer after one replacement. */
  ghost predicate Replaced(was: Bytes, i: nat, oldLen: nat, newBytes: Bytes, strEnd: nat, now: Bytes) {
    && i + oldLen <= |was| && |newBytes| <= oldLen
    && strEnd == i + oldLen + FieldLength(was[i + oldLen..])
    && now == was[..i] + newBytes + was[i + oldLen..strEnd] + Zeros(oldLen - |newBytes|) + was[strEnd..]
    && |now| == |was|
  }

  /** What the replacement at `i` does for the pass. */
  lemma Account(mode: Mode, old_: Bytes, new_: Bytes, was: Bytes, now: Bytes, i: nat, strEnd: nat, after: Bytes)
    requires old_ != [] && NulFree(old_) && |new_| <= |old_|
    requires Done(mode, old_, new_, was, now, i)
    requires i + |old_| <= |now| && Hit(mode, old_, now[i..])
    requires Replaced(now, i, |old_|, new_, strEnd, after)
    ensures i + |old_| <= strEnd <= |now|
    ensures var next := if mode.Placeholder? then i + |new_| + (strEnd - i - |old_|) else i + |new_|;
            Done(mode, old_, new_, was, after, next) && NonNul(after[next..]) < NonNul(now[i..])
  {
    hide *;
    ReplacedApart(mode, old_, new_, now, i, strEnd, after);
    var rest, tail := now[i + |old_|..strEnd], now[strEnd..];
    assert |rest| == strEnd - i - |old_|;
    if mode.Placeholder? {
      DonePlaceholder(old_, new_, was, now, i, rest, tail, after);
      LessAfterPlaceholder(old_, new_, now, i, rest, tail, after);
    } else {
      DonePrefix(old_, new_, was, now, i, rest, tail, after);
    }
  }

  lemma ReplacedApart(mode: Mode, old_: Bytes, new_: Bytes, now: Bytes, i: nat, strEnd: nat, after: Bytes)
    requires |new_| <= |old_| && i + |old_| <= |now| && Hit(mode, old_, now[i..])
    requires Replaced(now, i, |old_|, new_, strEnd, after)
    ensures i + |old_| <= strEnd <= |now| && |after| == |now|
    ensures AtHit(now, i, old_, now[i + |old_|..strEnd], now[strEnd..])
    ensures after == now[..i] + new_ + now[i + |old_|..strEnd] + Zeros(|old_| - |new_|) + now[strEnd..]
  {
    hide FieldLength, Zeros;
    var at := i + |old_|;
    assert now[i..][..|old_|] == now[i..at];
    TakeApart(now, i, old_, at, strEnd);
  }

  lemma HitOfRest(old_: Bytes, rest: Bytes, tail: Bytes)
    requires old_ != [] && Hit(PathPrefix, old_, old_ + rest + tail)
    requires tail == [] || tail[0] == 0
    ensures Hit(PathPrefix, old_, old_ + rest)
  {
  }

  /** First pass: placeholders. After a replacement the cursor jumps behind the
      rest of the field, so one placeholder a field is rewritten. */
  method PlaceholderPass(contents: array<Byte>, oldBytes: Bytes, newBytes: Bytes) returns (patched: bool)
    requires oldBytes != [] && NulFree(oldBytes)
    modifies contents
    ensures contents[..] == Applied(Placeholder, oldBytes, newBytes, old(contents[..]))
    ensures !patched ==> contents[..] == old(contents[..])
  {
    hide RewriteBuffer, NonNul, Done, Replaced, Hit, FieldLength;
    patched := false;
    if |newBytes| > |oldBytes| {
      return;
    }
    ghost var was := contents[..];
    DoneStart(Placeholder, oldBytes, newBytes, was);
    var i := 0;
    while i + |oldBytes| <= contents.Length
      invariant i <= contents.Length
      invariant Done(Placeholder, oldBytes, newBytes, was, contents[..], i)
      invariant !patched ==> contents[..] == was
      decreases contents.Length - i, NonNul(contents[..][i..])
    {
      PlaceholderTest(contents[..], i, oldBytes);
      if contents[i..i + |oldBytes|] == oldBytes {
        ghost var now := contents[..];
        var strEnd := ReplaceInCString(contents, i, |oldBytes|, newBytes);
        Account(Placeholder, oldBytes, newBytes, was, now, i, strEnd, contents[..]);
        patched := true;
        i := i + |newBytes| + (strEnd - i - |oldBytes|);
      } else {
        DoneSkip(Placeholder, oldBytes, newBytes, was, contents[..], i);
        i := i + 1;
      }
    }
    DoneEnd(Placeholder, oldBytes, newBytes, was, contents[..], i);
  }

  /** Second pass: whole path prefixes, every one that does not overlap an earlier one. */
  method PrefixPass(contents: array<Byte>, oldBytes: Bytes, newBytes: Bytes) returns (patched: bool)
    requires oldBytes != [] && NulFree(oldBytes)
    modifies contents
    ensures contents[..] == Applied(PathPrefix, oldBytes, newBytes, old(contents[..]))
    ensures !patched ==> contents[..] == old(contents[..])
  {
    hide RewriteBuffer, NonNul, Done, Replaced, Hit, FieldLength;
    patched := false;
    if |newBytes| > |oldBytes| {
      return;
    }
    ghost var was := contents[..];
    DoneStart(PathPrefix, oldBytes, newBytes, was);
    var i := 0;
    while i + |oldBytes| <= contents.Length
      invariant i <= contents.Length
      invariant Done(PathPrefix, oldBytes, newBytes, was, contents[..], i)
      invariant !patched ==> contents[..] == was
      decreases contents.Length - i, NonNul(contents[..][i..])
    {
      var next := i + |oldBytes|;
      PrefixTest(contents[..], i, oldBytes);
      if contents[i..next] == oldBytes && (next == contents.Length || contents[next] == 0 || contents[next] == SLASH) {
        ghost var now := contents[..];
        var strEnd := ReplaceInCString(contents, i, |oldBytes|, newBytes);
        Account(PathPrefix, oldBytes, newBytes, was, now, i, strEnd, contents[..]);
        patched := true;
        i := i + |newBytes|;
      } else {
        DoneSkip(PathPrefix, oldBytes, newBytes, was, contents[..], i);
        i := i + 1;
      }
    }
    DoneEnd(PathPrefix, oldBytes, newBytes, was, contents[..], i);
  }

  lemma PlaceholderTest(now: Bytes, i: nat, old_: Bytes)
    requires i + |old_| <= |now|
    ensures Hit(Placeholder, old_, now[i..]) <==> now[i..i + |old_|] == old_
  {
  }

  lemma PrefixTest(now: Bytes, i: nat, old_: Bytes)
    requires old_ != [] && i + |old_| <= |now|
    ensures var next := i + |old_|;
            Hit(PathPrefix, old_, now[i..]) <==>
              now[i..next] == old_ && (next == |now| || now[next] == 0 || now[next] == SLASH)
  {
  }

  /** One pass: nothing happens when the new bytes do not fit. */
  function Applied(mode: Mode, old_: Bytes, new_: Bytes, s: Bytes): (r: Bytes)
    requires old_ != []
    ensures |r| == |s|
  {
    if |new_| > |old_| then s else RewriteBuffer(mode, old_, new_, s)
  }

  // All passes.

  /** Old strings are never empty and hold no NUL. */
  type Pattern = b: Bytes | b != [] && NulFree(b) witness [1]

  datatype Pass = Pass(mode: Mode, from: Pattern, to: Bytes)

  function ApplyAll(passes: seq<Pass>, s: Bytes): (r: Bytes)
    ensures |r| == |s|
  {
    if passes == [] then s
    else
      var last := passes[|passes| - 1];
      Applied(last.mode, last.from, last.to, ApplyAll(passes[..|passes| - 1], s))
  }

  function Ascii(text: string): (b: Bytes)
    ensures |b| == |text|
    ensures (forall i :: 0 <= i < |text| ==> 0 < text[i] as int < 256) ==> NulFree(b)
  {
    seq(|text|, i requires 0 <= i < |text| => (text[i] as int % 256) as Byte)
  }

  function PatternOf(text: string): (b: Pattern)
    requires text != "" && forall i :: 0 <= i < |text| ==> 0 < text[i] as int < 256
  {
    Ascii(text)
  }

  function CellarPlaceholder(): Pattern { PatternOf("@@HOMEBREW_CELLAR@@") }

  function PrefixPlaceholder(): Pattern { PatternOf("@@HOMEBREW_PREFIX@@") }

  function HomebrewPrefixes(): seq<Pattern> {
    [PatternOf("/opt/homebrew"), PatternOf("/usr/local/Homebrew"), PatternOf("/usr/local"), PatternOf("/home/linuxbrew/.linuxbrew")]
  }

  /** The passes in order: the two placeholders, then every known prefix. */
  function Passes(newPrefix: Bytes, newCellar: Option<Bytes>): (passes: seq<Pass>)
    ensures |passes| == 6
  {
    var cellar := match newCellar case Some(c) => c case None => newPrefix + Ascii("/Cellar");
    var olds := HomebrewPrefixes();
    [Pass(Placeholder, CellarPlaceholder(), cellar),
     Pass(Placeholder, PrefixPlaceholder(), newPrefix),
     Pass(PathPrefix, olds[0], newPrefix),
     Pass(PathPrefix, olds[1], newPrefix),
     Pass(PathPrefix, olds[2], newPrefix),
     Pass(PathPrefix, olds[3], newPrefix)]
  }

  /** Writing a prefix over itself changes nothing, so leaving that pass out is not noticed. */
  lemma SamePrefix(mode: Mode, old_: Bytes, s: Bytes)
    requires old_ != []
    ensures Applied(mode, old_, old_, s) == s
  {
    BufferSame(mode, old_, s);
  }

  lemma {:induction false} FieldSame(mode: Mode, old_: Bytes, field: Bytes)
    requires old_ != []
    ensures Rewrite(mode, old_, old_, field) == field
    decreases |field|
  {
    if field != [] {
      if Hit(mode, old_, field) {
        FieldSame(mode, old_, field[|old_|..]);
        assert field == old_ + field[|old_|..];
      } else {
        FieldSame(mode, old_, field[1..]);
      }
    }
  }

  lemma {:induction false} BufferSame(mode: Mode, old_: Bytes, s: Bytes)
    requires old_ != []
    ensures RewriteBuffer(mode, old_, old_, s) == s
    decreases |s|
  {
    var n := FieldLength(s);
    var field, tail := s[..n], s[n..];
    Cut(s);
    BufferSplit(mode, old_, old_, field, tail);
    PaddedSame(mode, old_, field);
    if n < |s| {
      BufferNul(mode, old_, old_, tail);
      BufferSame(mode, old_, tail[1..]);
      hide RewriteBuffer, RewritePadded, FieldLength;
      assert tail == [0] + tail[1..];
    } else {
      assert tail == [];
      assert RewriteBuffer(mode, old_, old_, []) == [];
    }
  }

  lemma PaddedSame(mode: Mode, old_: Bytes, field: Bytes)
    requires old_ != []
    ensures RewritePadded(mode, old_, old_, field) == field
  {
    FieldSame(mode, old_, field);
  }

  lemma OneMore(passes: seq<Pass>, i: nat, s: Bytes)
    requires i < |passes|
    ensures ApplyAll(passes[..i + 1], s) == Applied(passes[i].mode, passes[i].from, passes[i].to, ApplyAll(passes[..i], s))
  {
    assert passes[..i + 1][..i] == passes[..i];
  }

  /** Runs every pass over the buffer; the file is written back only when something changed. */
  method PatchStrings(contents: array<Byte>, newPrefix: Bytes, newCellar: Option<Bytes>) returns (write: bool)
    modifies contents
    ensures contents[..] == ApplyAll(Passes(newPrefix, newCellar), old(contents[..]))
    ensures write <==> contents[..] != old(contents[..])
  {
    hide Passes, NulFree, Applied;
    var original := contents[..];
    var patched := false;
    var passes := Passes(newPrefix, newCellar);
    var i := 0;
    while i < 2
      invariant i <= 2
      invariant contents[..] == ApplyAll(passes[..i], original)
      invariant !patched ==> contents[..] == original
    {
      OneMore(passes, i, original);
      var p := passes[i];
      PassKinds(newPrefix, newCellar, i);
      var hit := PlaceholderPass(contents, p.from, p.to);
      patched := patched || hit;
      i := i + 1;
    }
    while i < 6
      invariant 2 <= i <= 6
      invariant contents[..] == ApplyAll(passes[..i], original)
      invariant !patched ==> contents[..] == original
    {
      OneMore(passes, i, original);
      var p := passes[i];
      PassKinds(newPrefix, newCellar, i);
      if p.from == newPrefix {
        SamePrefix(PathPrefix, p.from, contents[..]);
      } else {
        var hit := PrefixPass(contents, p.from, p.to);
        patched := patched || hit;
      }
      i := i + 1;
    }
    assert passes[..6] == passes;
    write := patched && contents[..] != original;
  }

  lemma PassKinds(newPrefix: Bytes, newCellar: Option<Bytes>, i: nat)
    requires i < 6
    ensures var p := Passes(newPrefix, newCellar)[i];
            if i < 2 then p.mode == Placeholder else p.mode == PathPrefix && p.to == newPrefix
  {
  }
}
