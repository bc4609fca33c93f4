/** The block of shell configuration that initialization manages: found by its
    markers, replaced as a whole, appended when there is none. */
module ManagedBlock {
  import opened Options
  import opened Text

  function BlockStart(): string { "# >>> upkg >>>" }

  function BlockEnd(): string { "# <<< upkg <<<" }

  function OldBlockStart(): string { "# >>> upkg-native >>>" }

  function OldBlockEnd(): string { "# <<< upkg-native <<<" }

  /** Where a block begins and ends, its line break included. */
  function ManagedBlockRange(existing: string, startMarker: string, endMarker: string): (r: Option<(nat, nat)>)
    ensures r.Some? ==> r.value.0 <= r.value.1 <= |existing|
  {
    match Find(existing, startMarker)
    case None => None
    case Some(start) =>
      match Find(existing[start..], endMarker)
      case None => None
      case Some(rel) =>
        var end := start + rel + |endMarker|;
        if "\r\n" <= existing[end..] then Some((start, end + 2))
        else if "\n" <= existing[end..] then Some((start, end + 1))
        else Some((start, end))
  }

  /** The Unicode White_Space characters. */
  predicate IsWhitespace(c: char) {
    var n := c as int;
    || 0x9 <= n <= 0xD || n == 0x20 || n == 0x85 || n == 0xA0 || n == 0x1680 || 0x2000 <= n <= 0x200A
    || n == 0x2028 || n == 0x2029 || n == 0x202F || n == 0x205F || n == 0x3000
  }

  predicate Blank(s: string) {
    forall i :: 0 <= i < |s| ==> IsWhitespace(s[i])
  }

  function CurrentRange(existing: string): Option<(nat, nat)> {
    var r := ManagedBlockRange(existing, BlockStart(), BlockEnd());
    if r.Some? then r else ManagedBlockRange(existing, OldBlockStart(), OldBlockEnd())
  }

  function LineBreak(existing: string): string {
    if existing == "" || existing[|existing| - 1] != '\n' then "\n" else ""
  }

  /** The configuration with the block put in. */
  function Upsert(existing: string, block: string): string {
    match CurrentRange(existing)
    case Some((start, end)) => existing[..start] + block + existing[end..]
    case None => if Blank(existing) then block else existing + LineBreak(existing) + block
  }

  /** Some end marker follows some start marker. */
  ghost predicate HasBlock(s: string, startMarker: string, endMarker: string) {
    exists i: nat, j: nat :: i <= j && Occurs(s, startMarker, i) && Occurs(s, endMarker, j)
  }

  /** `mid` is the first block of `pre + mid + post`: from the first start marker
      over the first end marker behind it to the end of that line, if it ends there. */
  ghost predicate IsBlock(pre: string, mid: string, post: string, startMarker: string, endMarker: string) {
    exists body, lineEnd ::
      && mid == startMarker + body + endMarker + lineEnd
      && lineEnd in ["\r\n", "\n", ""] && (lineEnd == "" ==> !("\r\n" <= post) && !("\n" <= post))
      && (forall k: nat :: k < |pre| ==> !Occurs(pre + mid + post, startMarker, k))
      && (forall k: nat :: k < |startMarker + body| ==> !Occurs(mid, endMarker, k))
  }

  /** Only the first block is replaced. */
  ghost predicate ReplacesBlock(existing: string, out: string, block: string, startMarker: string, endMarker: string) {
    exists pre, mid, post ::
      existing == pre + mid + post && IsBlock(pre, mid, post, startMarker, endMarker) && out == pre + block + post
  }

  lemma BlockFound(s: string, startMarker: string, endMarker: string)
    ensures HasBlock(s, startMarker, endMarker) <==> ManagedBlockRange(s, startMarker, endMarker).Some?
  {
    var range := ManagedBlockRange(s, startMarker, endMarker);
    hide Find;
    var first := Find(s, startMarker);
    if range.Some? {
      var rel := Find(s[first.value..], endMarker).value;
      assert Occurs(s, endMarker, first.value + rel);
    }
    if HasBlock(s, startMarker, endMarker) {
      var i: nat, j: nat :| i <= j && Occurs(s, startMarker, i) && Occurs(s, endMarker, j);
      assert Occurs(s[first.value..], endMarker, j - first.value);
    }
  }

  lemma RangeIsBlock(s: string, startMarker: string, endMarker: string, start: nat, end: nat)
    requires IsMarker(startMarker) && IsMarker(endMarker)
    requires |startMarker| > 2 && |endMarker| > 2 && startMarker[2] != endMarker[2]
    requires ManagedBlockRange(s, startMarker, endMarker) == Some((start, end))
    ensures start <= end <= |s| && s == s[..start] + s[start..end] + s[end..]
    ensures IsBlock(s[..start], s[start..end], s[end..], startMarker, endMarker)
  {
    var rel := RangeFound(s, startMarker, endMarker, start, end);
    hide *;
    var pre, rest := s[..start], s[start..];
    assert s == pre + rest;
    OccursBehind(pre, rest, startMarker, 0);
    var mid, post := s[start..end], s[end..];
    assert rest == mid + post && post == rest[end - start..];
    BlockAt(pre, rest, mid, post, startMarker, endMarker, rel);
    assert s == pre + mid + post;
  }

  /** Where the range comes from. */
  lemma RangeFound(s: string, startMarker: string, endMarker: string, start: nat, end: nat) returns (rel: nat)
    requires ManagedBlockRange(s, startMarker, endMarker) == Some((start, end))
    ensures start <= end <= |s|
    ensures Occurs(s, startMarker, start) && forall k: nat :: k < start ==> !Occurs(s, startMarker, k)
    ensures Occurs(s[start..], endMarker, rel) && forall k: nat :: k < rel ==> !Occurs(s[start..], endMarker, k)
    ensures var behind := rel + |endMarker|;
            end - start == if "\r\n" <= s[start..][behind..] then behind + 2
                           else if "\n" <= s[start..][behind..] then behind + 1
                           else behind
  {
    rel := Find(s[start..], endMarker).value;
    hide Find;
    assert s[start..][rel + |endMarker|..] == s[start + rel + |endMarker|..];
  }

  /** The rest of a text that begins with a block. */
  lemma BlockAt(pre: string, rest: string, mid: string, post: string, startMarker: string, endMarker: string, rel: nat)
    requires IsMarker(startMarker) && IsMarker(endMarker)
    requires |startMarker| > 2 && |endMarker| > 2 && startMarker[2] != endMarker[2]
    requires Occurs(rest, startMarker, 0) && forall k: nat :: k < |pre| ==> !Occurs(pre + rest, startMarker, k)
    requires Occurs(rest, endMarker, rel) && forall k: nat :: k < rel ==> !Occurs(rest, endMarker, k)
    requires var behind := rel + |endMarker|;
             |mid| == if "\r\n" <= rest[behind..] then behind + 2 else if "\n" <= rest[behind..] then behind + 1 else behind
    requires rest == mid + post
    ensures IsBlock(pre, mid, post, startMarker, endMarker)
  {
    assert startMarker <= rest;
    var inside := rest[|startMarker|..];
    assert rest == startMarker + inside;
    if rel < |startMarker| {
      HashOnlyFirst(startMarker, inside, endMarker, rel);
    }
    BlockParts(rest, startMarker, endMarker, rel, |mid|);
    hide Occurs, Find, IsMarker;
    assert mid == rest[..|mid|] && post == rest[|mid|..] && pre + mid + post == pre + rest;
    forall k: nat | k < rel
      ensures !Occurs(mid, endMarker, k)
    {
      if Occurs(mid, endMarker, k) {
        OccursIn(mid, post, endMarker, k);
      }
    }
  }

  lemma OccursIn(a: string, b: string, m: string, k: nat)
    requires Occurs(a, m, k)
    ensures Occurs(a + b, m, k)
  {
    OccursWithin(a, b, m, k);
  }

  /** A block taken apart at its markers. */
  lemma BlockParts(rest: string, startMarker: string, endMarker: string, rel: nat, end: nat)
    requires startMarker <= rest && |startMarker| <= rel && Occurs(rest, endMarker, rel)
    requires var behind := rel + |endMarker|;
             end == if "\r\n" <= rest[behind..] then behind + 2 else if "\n" <= rest[behind..] then behind + 1 else behind
    ensures end <= |rest|
    ensures var body, lineEnd := rest[|startMarker|..rel], rest[rel + |endMarker|..end];
            && rest[..end] == startMarker + body + endMarker + lineEnd
            && lineEnd in ["\r\n", "\n", ""] && (lineEnd == "" ==> !("\r\n" <= rest[end..]) && !("\n" <= rest[end..]))
  {
    var behind := rel + |endMarker|;
    LineEndTaken(rest, behind, end);
    assert rest[..rel] == rest[..|startMarker|] + rest[|startMarker|..rel];
    assert rest[..behind] == rest[..rel] + rest[rel..behind];
    assert rest[..end] == rest[..behind] + rest[behind..end];
  }

  lemma LineEndTaken(rest: string, behind: nat, end: nat)
    requires behind <= |rest|
    requires end == if "\r\n" <= rest[behind..] then behind + 2 else if "\n" <= rest[behind..] then behind + 1 else behind
    ensures end <= |rest| && rest[behind..end] in ["\r\n", "\n", ""]
    ensures rest[behind..end] == "" ==> !("\r\n" <= rest[end..]) && !("\n" <= rest[end..])
  {
    var tail := rest[behind..];
    if "\r\n" <= tail {
      assert rest[behind..end] == tail[..2] == "\r\n";
    } else if "\n" <= tail {
      assert rest[behind..end] == tail[..1] == "\n";
    } else {
      assert rest[behind..end] == "";
    }
  }

  method UpsertManagedBlock(existing: string, managedBlock: string) returns (out: string)
    ensures HasBlock(existing, BlockStart(), BlockEnd()) ==>
              ReplacesBlock(existing, out, managedBlock, BlockStart(), BlockEnd())
    ensures !HasBlock(existing, BlockStart(), BlockEnd()) && HasBlock(existing, OldBlockStart(), OldBlockEnd()) ==>
              ReplacesBlock(existing, out, managedBlock, OldBlockStart(), OldBlockEnd())
    ensures !HasBlock(existing, BlockStart(), BlockEnd()) && !HasBlock(existing, OldBlockStart(), OldBlockEnd()) ==>
              if Blank(existing) then out == managedBlock
              else if existing[|existing| - 1] == '\n' then out == existing + managedBlock
              else out == existing + "\n" + managedBlock
    ensures out == Upsert(existing, managedBlock)
  {
    Markers();
    OldMarkers();
    BlockFound(existing, BlockStart(), BlockEnd());
    BlockFound(existing, OldBlockStart(), OldBlockEnd());
    hide BlockStart, BlockEnd, OldBlockStart, OldBlockEnd, IsBlock, ManagedBlockRange, HasBlock, IsMarker, IsWhitespace;
    var range := ManagedBlockRange(existing, BlockStart(), BlockEnd());
    if range.None? {
      range := ManagedBlockRange(existing, OldBlockStart(), OldBlockEnd());
    }
    if range.Some? {
      var (start, end) := range.value;
      if ManagedBlockRange(existing, BlockStart(), BlockEnd()).Some? {
        RangeIsBlock(existing, BlockStart(), BlockEnd(), start, end);
      } else {
        RangeIsBlock(existing, OldBlockStart(), OldBlockEnd(), start, end);
      }
      out := existing[..start];
      out := out + managedBlock;
      out := out + existing[end..];
      return;
    }
    if Blank(existing) {
      out := managedBlock;
    } else {
      out := existing;
      if !(existing != "" && existing[|existing| - 1] == '\n') {
        out := out + "\n";
      }
      out := out + managedBlock;
    }
  }

  // Markers begin with the only '#' they hold and fit on a line.

  predicate IsMarker(m: string) {
    && m != "" && m[0] == '#'
    && forall i :: 0 <= i < |m| ==> m[i] != '\n' && (i > 0 ==> m[i] != '#')
  }

  lemma Markers()
    ensures IsMarker(BlockStart()) && IsMarker(BlockEnd()) && IsMarker(OldBlockStart()) && IsMarker(OldBlockEnd())
    ensures |BlockStart()| > 2 && |BlockEnd()| > 2 && BlockStart()[2] != BlockEnd()[2]
  {
  }

  lemma OldMarkers()
    ensures |OldBlockStart()| > 2 && |OldBlockEnd()| > 2 && OldBlockStart()[2] != OldBlockEnd()[2]
  {
  }

  /** No marker reaches from one text into another that begins with '#' or a line break. */
  lemma NoStraddle(a: string, b: string, m: string, p: nat)
    requires IsMarker(m) && p < |a| && Occurs(a + b, m, p)
    requires b == "" || b[0] == '#' || b[0] == '\n'
    ensures Occurs(a, m, p)
  {
    if p + |m| > |a| {
      CharAt(a + b, m, p, |a| - p);
    } else {
      OccursWithin(a, b, m, p);
    }
  }

  /** What the program writes: the markers around a body that holds no end marker. */
  function Block(body: string): string {
    BlockStart() + body + "\n" + BlockEnd() + "\n"
  }

  ghost predicate CleanBody(body: string) {
    forall k: nat :: !Occurs(body, BlockEnd(), k)
  }

  lemma StartsWithHash(body: string, post: string)
    ensures Block(body) + post != "" && (Block(body) + post)[0] == '#'
  {
  }

  /** In a block nothing before its last line is an end marker. */
  lemma NoEarlierEnd(body: string, p: nat)
    requires CleanBody(body)
    ensures p < |BlockStart() + body + "\n"| ==> !Occurs(Block(body), BlockEnd(), p)
  {
    Markers();
    hide BlockStart, BlockEnd;
    var front := BlockStart() + body;
    var last := BlockEnd() + "\n";
    assert Block(body) == front + ("\n" + last);
    assert Block(body) == (front + "\n") + last;
    if p < |front + "\n"| && Occurs(Block(body), BlockEnd(), p) {
      NoStraddle(front + "\n", last, BlockEnd(), p);
      if p < |front| {
        NoStraddle(front, "\n", BlockEnd(), p);
        if p < |BlockStart()| {
          HashOnlyFirst(BlockStart(), body, BlockEnd(), p);
        } else {
          OccursBehind(BlockStart(), body, BlockEnd(), p - |BlockStart()|);
        }
      }
    }
  }

  /** An end marker cannot begin inside the start marker. */
  lemma HashOnlyFirst(start: string, rest: string, m: string, p: nat)
    requires IsMarker(start) && IsMarker(m) && |start| > 2 && |m| > 2 && start[2] != m[2]
    requires p < |start|
    ensures !Occurs(start + rest, m, p)
  {
  }

  lemma OwnEnd(body: string, post: string)
    requires CleanBody(body)
    ensures Find(Block(body) + post, BlockEnd()) == Some(|Block(body)| - 1 - |BlockEnd()|)
  {
    Markers();
    hide BlockStart, BlockEnd, Find;
    var front, last := BlockStart() + body + "\n", BlockEnd() + "\n";
    var s := Block(body) + post;
    var at := |front|;
    assert s == front + (BlockEnd() + ("\n" + post));
    assert Occurs(s, BlockEnd(), at);
    forall j: nat | Occurs(s, BlockEnd(), j)
      ensures j >= at
    {
      if j < at {
        assert s == front + (last + post);
        assert (last + post)[0] == '#';
        NoStraddle(front, last + post, BlockEnd(), j);
        assert Block(body) == front + last;
        OccursWithin(front, last, BlockEnd(), j);
        NoEarlierEnd(body, j);
      }
    }
  }

  /** A block written behind text without a start marker is found again as it is. */
  lemma FoundAgain(pre: string, body: string, post: string)
    requires CleanBody(body)
    requires forall k: nat :: !Occurs(pre, BlockStart(), k)
    ensures ManagedBlockRange(pre + Block(body) + post, BlockStart(), BlockEnd()) == Some((|pre|, |pre| + |Block(body)|))
  {
    Markers();
    hide BlockStart, BlockEnd, Find;
    var s := pre + Block(body) + post;
    var rest := Block(body) + post;
    assert s == pre + rest;
    StartsWithHash(body, post);
    assert Occurs(rest, BlockStart(), 0) by {
      assert rest == BlockStart() + (body + "\n" + BlockEnd() + "\n" + post);
    }
    OccursBehind(pre, rest, BlockStart(), 0);
    forall j: nat | Occurs(s, BlockStart(), j)
      ensures j >= |pre|
    {
      if j < |pre| {
        NoStraddle(pre, rest, BlockStart(), j);
      }
    }
    assert s[|pre|..] == rest;
    OwnEnd(body, post);
    LineBreakTaken(pre, body, post);
    RangeIs(s, BlockStart(), BlockEnd(), |pre|, |pre| + |Block(body)| - 1);
  }

  predicate EndsLine(s: string, end: nat) {
    end < |s| && s[end] == '\n'
  }

  lemma LineBreakTaken(pre: string, body: string, post: string)
    ensures |Block(body)| > |BlockEnd()| + 1
    ensures EndsLine(pre + Block(body) + post, |pre| + |Block(body)| - 1)
  {
  }

  lemma RangeIs(s: string, startMarker: string, endMarker: string, start: nat, end: nat)
    requires Find(s, startMarker) == Some(start) && start <= end - |endMarker| && EndsLine(s, end)
    requires Find(s[start..], endMarker) == Some(end - |endMarker| - start)
    ensures ManagedBlockRange(s, startMarker, endMarker) == Some((start, end + 1))
  {
  }

  /** Behind a start marker that lacks its end the block's end closes both. */
  lemma DanglingFound(pre: string, body: string, post: string, start: nat)
    requires CleanBody(body)
    requires Find(pre, BlockStart()) == Some(start) && start <= |pre| && Find(pre[start..], BlockEnd()) == None
    ensures ManagedBlockRange(pre + Block(body) + post, BlockStart(), BlockEnd()) == Some((start, |pre| + |Block(body)|))
  {
    hide *;
    DanglingStart(pre, body, post, start);
    ClosedBehind(pre, body, post, start);
    LineBreakTaken(pre, body, post);
    RangeIs(pre + Block(body) + post, BlockStart(), BlockEnd(), start, |pre| + |Block(body)| - 1);
  }

  lemma DanglingStart(pre: string, body: string, post: string, start: nat)
    requires Find(pre, BlockStart()) == Some(start)
    ensures Find(pre + Block(body) + post, BlockStart()) == Some(start)
  {
    hide *;
    StartsWithHash(body, post);
    SameFirstStart(pre, Block(body) + post, start);
    assert pre + Block(body) + post == pre + (Block(body) + post);
  }

  lemma ClosedBehind(pre: string, body: string, post: string, start: nat)
    requires CleanBody(body)
    requires start <= |pre| && Find(pre[start..], BlockEnd()) == None
    ensures |Block(body)| > |BlockEnd()|
    ensures Find((pre + Block(body) + post)[start..], BlockEnd()) == Some(|pre| + |Block(body)| - 1 - |BlockEnd()| - start)
  {
    LineBreakTaken(pre, body, post);
    hide *;
    var tail, rest := pre[start..], Block(body) + post;
    StartsWithHash(body, post);
    OwnEnd(body, post);
    EndBehind(tail, rest, |Block(body)| - 1 - |BlockEnd()|);
    assert (pre + Block(body) + post)[start..] == tail + rest;
  }

  lemma SameFirstStart(pre: string, rest: string, start: nat)
    requires Find(pre, BlockStart()) == Some(start) && rest != "" && rest[0] == '#'
    ensures Find(pre + rest, BlockStart()) == Some(start)
  {
    Markers();
    hide BlockStart, BlockEnd, Find, IsMarker;
    OccursWithin(pre, rest, BlockStart(), start);
    forall j: nat | j < start
      ensures !Occurs(pre + rest, BlockStart(), j)
    {
      if Occurs(pre + rest, BlockStart(), j) {
        NoStraddle(pre, rest, BlockStart(), j);
      }
    }
    FindIs(pre + rest, BlockStart(), start);
  }

  lemma NotInTail(tail: string, rest: string, j: nat)
    requires Find(tail, BlockEnd()) == None && rest != "" && rest[0] == '#' && j < |tail|
    ensures !Occurs(tail + rest, BlockEnd(), j)
  {
    Markers();
    hide BlockStart, BlockEnd, Find, Occurs, IsMarker;
    if Occurs(tail + rest, BlockEnd(), j) {
      NoStraddle(tail, rest, BlockEnd(), j);
    }
  }

  lemma EndBehind(tail: string, rest: string, at: nat)
    requires Find(tail, BlockEnd()) == None && Find(rest, BlockEnd()) == Some(at) && rest != "" && rest[0] == '#'
    ensures Find(tail + rest, BlockEnd()) == Some(|tail| + at)
  {
    Markers();
    hide BlockStart, BlockEnd, Find, Occurs, IsMarker;
    OccursBehind(tail, rest, BlockEnd(), at);
    forall j: nat | j < |tail| + at
      ensures !Occurs(tail + rest, BlockEnd(), j)
    {
      if j < |tail| {
        NotInTail(tail, rest, j);
      } else {
        assert !Occurs(rest, BlockEnd(), j - |tail|);
        OccursBehind(tail, rest, BlockEnd(), j - |tail|);
      }
    }
    FindIs(tail + rest, BlockEnd(), |tail| + at);
  }

  // Writing the block twice.

  /** A start marker without its end that the block is going to be written behind. */
  ghost predicate Dangling(existing: string) {
    var start := Find(existing, BlockStart());
    && start.Some? && ManagedBlockRange(existing, BlockStart(), BlockEnd()) == None
    && match ManagedBlockRange(existing, OldBlockStart(), OldBlockEnd())
       case None => true
       case Some((oldStart, _)) => start.value < oldStart
  }

  /** The text the block is written behind and before. */
  function Around(existing: string): (string, string) {
    match CurrentRange(existing)
    case Some((start, end)) => (existing[..start], existing[end..])
    case None => if Blank(existing) then ("", "") else (existing + LineBreak(existing), "")
  }

  lemma UpsertAround(existing: string, block: string)
    ensures var (pre, post) := Around(existing); Upsert(existing, block) == pre + block + post
  {
  }

  lemma BlankHasNoMarker(existing: string, m: string, k: nat)
    requires IsMarker(m) && Occurs(existing, m, k)
    ensures !Blank(existing)
  {
  }

  /** Without a dangling marker no start marker is in front of the block. */
  lemma NothingInFront(existing: string, k: nat)
    requires !Dangling(existing)
    ensures !Occurs(Around(existing).0, BlockStart(), k)
  {
    Markers();
    hide BlockStart, BlockEnd, OldBlockStart, OldBlockEnd;
    var pre := Around(existing).0;
    if Occurs(pre, BlockStart(), k) {
      match CurrentRange(existing) {
        case Some((start, end)) =>
          assert existing == pre + existing[start..];
          OccursWithin(pre, existing[start..], BlockStart(), k);
        case None =>
          if !Blank(existing) {
            if k < |existing| {
              NoStraddle(existing, LineBreak(existing), BlockStart(), k);
            }
          }
      }
    }
  }

  /** With one, the marker and everything behind it up to the block goes next time. */
  lemma DanglingInFront(existing: string)
    requires Dangling(existing)
    ensures var pre, start := Around(existing).0, Find(existing, BlockStart()).value;
            start < |pre| && Find(pre, BlockStart()) == Some(start) && Find(pre[start..], BlockEnd()) == None
  {
    Markers();
    hide BlockStart, BlockEnd, OldBlockStart, OldBlockEnd, IsMarker, Find, Occurs, Blank;
    var pre, start := Around(existing).0, Find(existing, BlockStart()).value;
    BlankHasNoMarker(existing, BlockStart(), start);
    match CurrentRange(existing) {
      case Some((oldStart, end)) =>
        InFrontOfOld(existing, start, oldStart);
      case None =>
        InFrontOfBreak(existing, start);
    }
  }

  lemma InFrontOfOld(existing: string, start: nat, oldStart: nat)
    requires Find(existing, BlockStart()) == Some(start) && start < oldStart
    requires start <= |existing| && Find(existing[start..], BlockEnd()) == None
    requires Find(existing, OldBlockStart()) == Some(oldStart) && oldStart <= |existing|
    ensures var pre := existing[..oldStart];
            Find(pre, BlockStart()) == Some(start) && Find(pre[start..], BlockEnd()) == None
  {
    Markers();
    hide BlockStart, BlockEnd, OldBlockStart, OldBlockEnd, Find;
    var pre, rest := existing[..oldStart], existing[oldStart..];
    assert existing == pre + rest;
    assert rest[0] == '#' by {
      assert existing[oldStart..oldStart + |OldBlockStart()|] == OldBlockStart();
    }
    NoStraddle(pre, rest, BlockStart(), start);
    InFrontOf(pre, rest, start);
  }

  lemma InFrontOf(pre: string, rest: string, start: nat)
    requires Find(pre + rest, BlockStart()) == Some(start) && Find((pre + rest)[start..], BlockEnd()) == None
    requires Occurs(pre, BlockStart(), start) && start < |pre|
    ensures Find(pre, BlockStart()) == Some(start) && Find(pre[start..], BlockEnd()) == None
  {
    hide BlockStart, BlockEnd, Find;
    forall j: nat | Occurs(pre, BlockStart(), j)
      ensures j >= start
    {
      OccursWithin(pre, rest, BlockStart(), j);
    }
    forall j: nat
      ensures !Occurs(pre[start..], BlockEnd(), j)
    {
      assert (pre + rest)[start..] == pre[start..] + rest;
      if j + |BlockEnd()| <= |pre[start..]| {
        OccursWithin(pre[start..], rest, BlockEnd(), j);
      }
    }
  }

  lemma InFrontOfBreak(existing: string, start: nat)
    requires Find(existing, BlockStart()) == Some(start) && Find(existing[start..], BlockEnd()) == None
    ensures var pre := existing + LineBreak(existing);
            start < |pre| && Find(pre, BlockStart()) == Some(start) && Find(pre[start..], BlockEnd()) == None
  {
    Markers();
    hide BlockStart, BlockEnd, Find;
    var b := LineBreak(existing);
    var pre := existing + b;
    OccursWithin(existing, b, BlockStart(), start);
    forall j: nat | Occurs(pre, BlockStart(), j)
      ensures j >= start
    {
      if j < start {
        NoStraddle(existing, b, BlockStart(), j);
      }
    }
    var tail := existing[start..];
    assert pre[start..] == tail + b;
    forall j: nat
      ensures !Occurs(tail + b, BlockEnd(), j)
    {
      if Occurs(tail + b, BlockEnd(), j) && j < |tail| {
        NoStraddle(tail, b, BlockEnd(), j);
      }
    }
  }

  /** Writing a block and then another gives what writing the second alone
      gives, exactly when no start marker dangles in front of it. */
  lemma LastWriteWins(existing: string, first: string, second: string)
    requires CleanBody(first) && CleanBody(second)
    ensures Upsert(Upsert(existing, Block(first)), Block(second)) == Upsert(existing, Block(second)) <==> !Dangling(existing)
  {
    hide BlockStart, BlockEnd, OldBlockStart, OldBlockEnd, Block;
    var (pre, post) := Around(existing);
    var once := Upsert(existing, Block(first));
    UpsertAround(existing, Block(first));
    UpsertAround(existing, Block(second));
    hide Around;
    assert once == pre + Block(first) + post;
    assert once[|pre| + |Block(first)|..] == post;
    if Dangling(existing) {
      DanglingInFront(existing);
      var start := Find(existing, BlockStart()).value;
      DanglingFound(pre, first, post, start);
      assert once[..start] + Block(second) + post != pre + Block(second) + post;
    } else {
      forall k: nat
        ensures !Occurs(pre, BlockStart(), k)
      {
        NothingInFront(existing, k);
      }
      FoundAgain(pre, first, post);
      assert once[..|pre|] == pre;
    }
  }

  /** Idempotence, with the exact condition. */
  lemma IdempotentExactly(existing: string, body: string)
    requires CleanBody(body)
    ensures Upsert(Upsert(existing, Block(body)), Block(body)) == Upsert(existing, Block(body)) <==> !Dangling(existing)
  {
    LastWriteWins(existing, body, body);
  }

  /** What has been written once no longer dangles. */
  lemma NeverDanglesAgain(existing: string, body: string)
    requires CleanBody(body)
    ensures !Dangling(Upsert(existing, Block(body)))
  {
    hide BlockStart, BlockEnd, OldBlockStart, OldBlockEnd, Block;
    var (pre, post) := Around(existing);
    UpsertAround(existing, Block(body));
    if Dangling(existing) {
      DanglingInFront(existing);
      DanglingFound(pre, body, post, Find(existing, BlockStart()).value);
    } else {
      forall k: nat
        ensures !Occurs(pre, BlockStart(), k)
      {
        NothingInFront(existing, k);
      }
      FoundAgain(pre, body, post);
    }
  }

  /** From the second write on nothing changes, whatever the configuration was. */
  lemma SettlesAfterTwo(existing: string, body: string)
    requires CleanBody(body)
    ensures var once := Upsert(existing, Block(body));
            var twice := Upsert(once, Block(body));
            Upsert(twice, Block(body)) == twice
  {
    NeverDanglesAgain(existing, body);
    IdempotentExactly(Upsert(existing, Block(body)), body);
  }

  /** A configuration whose second write loses the text behind a dangling marker. */
  lemma DanglingLosesText(body: string)
    requires CleanBody(body)
    ensures var s := BlockStart() + "keep me";
            && Upsert(s, Block(body)) == s + "\n" + Block(body)
            && Upsert(Upsert(s, Block(body)), Block(body)) == Block(body)
  {
    var s := BlockStart() + "keep me";
    DanglingExample();
    hide Block, Find, BlockStart, BlockEnd, OldBlockStart, OldBlockEnd;
    DanglingInFront(s);
    var (pre, post) := Around(s);
    UpsertAround(s, Block(body));
    DanglingFound(pre, body, post, 0);
    var once := Upsert(s, Block(body));
    assert once[|pre| + |Block(body)|..] == [];
    assert once[..0] + Block(body) + once[|once|..] == Block(body);
  }

  lemma DanglingExample()
    ensures var s := BlockStart() + "keep me";
            Dangling(s) && Find(s, BlockStart()) == Some(0) && Around(s) == (s + "\n", "")
  {
    Markers();
    var s := BlockStart() + "keep me";
    assert Occurs(s, BlockStart(), 0);
    assert Find(s, BlockStart()) == Some(0);
    assert s[0..] == s;
    assert forall i :: 0 <= i < |s| ==> s[i] != '<';
    NoSuchText(s, BlockEnd(), 2);
    NoSuchText(s, OldBlockStart(), 10);
  }

}
