/** `chunkTranscript` of `apps/workers/src/activities/chunk-transcript.ts`.  The digest in a chunk's
    ref is a parameter: any function of the whole text.  */
module Chunker {
  import opened Options

  datatype ChunkRef = ChunkRef(digest: string, index: nat)

  datatype Chunk = Chunk(ref: ChunkRef, text: string, offset: nat)

  datatype Outcome = Chunked(chunks: seq<Chunk>) | RangeError

  const DEFAULT_MAX_CHARS := 4000
  const DEFAULT_OVERLAP_CHARS := 200

  function Min(a: int, b: int): int { if a < b then a else b }

  function Max(a: int, b: int): int { if a < b then b else a }

  /** `text.lastIndexOf(c, from)`; the character at `from` itself counts. */
  function LastIndexOf(text: string, c: char, from: int): (r: int)
    requires from < |text|
    ensures -1 <= r <= from || r == -1
    ensures r >= 0 ==> text[r] == c
    decreases from + 1
  {
    if from < 0 then -1
    else if text[from] == c then from
    else LastIndexOf(text, c, from - 1)
  }

  lemma {:induction false} LastIndexOfIsLast(text: string, c: char, from: int, j: nat)
    requires from < |text| && LastIndexOf(text, c, from) < j <= from
    ensures text[j] != c
    decreases from + 1
  {
    if j < from {
      LastIndexOfIsLast(text, c, from - 1, j);
    }
  }

  /** Where a chunk that starts at `start` ends: the window, snapped back to just after its last line
      break when at least half of the window is left. */
  function CutAt(text: string, maxChars: nat, start: nat): (end: nat)
    requires maxChars > 0 && start < |text|
    ensures start < end <= |text|
  {
    var end := Min(start + maxChars, |text|);
    if end == |text| then end
    else
      var nl := LastIndexOf(text, '\n', end);
      if nl > start && 2 * (nl - start) >= maxChars then nl + 1 else end
  }

  function Next(overlapChars: nat, start: nat, end: nat): nat
    requires start < end
  {
    Max(end - overlapChars, start + 1)
  }

  function ChunksFrom(digest: string, text: string, maxChars: nat, overlapChars: nat, start: nat,
      index: nat): seq<Chunk>
    requires maxChars > 0 && start < |text|
    decreases |text| - start
  {
    var end := CutAt(text, maxChars, start);
    [ChunkAt(digest, text, start, end, index)]
    + if end == |text| then []
      else ChunksFrom(digest, text, maxChars, overlapChars, Next(overlapChars, start, end), index + 1)
  }

  function ChunkAt(digest: string, text: string, start: nat, end: nat, index: nat): Chunk
    requires start <= end <= |text|
  {
    Chunk(ChunkRef(digest, index), text[start..end], start)
  }

  /** What is left of the chunks after the first `i`. */
  ghost predicate Left(all: seq<Chunk>, i: nat, rest: seq<Chunk>) {
    i <= |all| && all[i..] == rest
  }

  lemma OneMoreChunk(digest: string, text: string, maxChars: nat, overlapChars: nat, start: nat, index: nat,
      all: seq<Chunk>)
    requires maxChars > 0 && start < |text|
      && Left(all, index, ChunksFrom(digest, text, maxChars, overlapChars, start, index))
    ensures var end := CutAt(text, maxChars, start);
      && index < |all| && all[index] == ChunkAt(digest, text, start, end, index)
      && if end == |text| then |all| == index + 1
         else Left(all, index + 1,
           ChunksFrom(digest, text, maxChars, overlapChars, Next(overlapChars, start, end), index + 1))
  {
    var rest := ChunksFrom(digest, text, maxChars, overlapChars, start, index);
    assert all[index + 1..] == rest[1..];
  }

  predicate ValidOptions(maxChars: int, overlapChars: int) {
    0 <= overlapChars < maxChars
  }

  function ChunksOf(digest: string, text: string, maxChars: nat, overlapChars: nat): seq<Chunk>
    requires maxChars > 0
  {
    if text == "" then [] else ChunksFrom(digest, text, maxChars, overlapChars, 0, 0)
  }

  method FindCut(text: string, maxChars: nat, start: nat) returns (end: nat)
    requires maxChars > 0 && start < |text|
    ensures end == CutAt(text, maxChars, start)
  {
    end := Min(start + maxChars, |text|);
    if end < |text| {
      var nl := LastIndexOf(text, '\n', end);
      if nl > start && 2 * (nl - start) >= maxChars {
        end := nl + 1;
      }
    }
  }

  /** The loop. */
  method Windows(digest: string, text: string, maxChars: nat, overlapChars: nat) returns (chunks: seq<Chunk>)
    requires maxChars > 0 && text != ""
    ensures chunks == ChunksFrom(digest, text, maxChars, overlapChars, 0, 0)
  {
    chunks := [];
    ghost var all := ChunksFrom(digest, text, maxChars, overlapChars, 0, 0);
    var start, i := 0, 0;
    while start < |text|
      invariant start < |text|
      invariant Left(all, i, ChunksFrom(digest, text, maxChars, overlapChars, start, i)) && chunks == all[..i]
      decreases |text| - start
    {
      var end := FindCut(text, maxChars, start);
      OneMoreChunk(digest, text, maxChars, overlapChars, start, i, all);
      chunks := chunks + [ChunkAt(digest, text, start, end, i)];
      if end >= |text| {
        break;
      }
      start, i := Next(overlapChars, start, end), i + 1;
    }
  }

  method ChunkTranscript(digest: string -> string, text: string, maxOpt: Option<int>, overlapOpt: Option<int>)
    returns (r: Outcome)
    ensures var maxChars := if maxOpt.Some? then maxOpt.value else 4000;
      var overlapChars := if overlapOpt.Some? then overlapOpt.value
        else if maxChars < 800 then maxChars / 4 else 200;
      r == if ValidOptions(maxChars, overlapChars) then Chunked(ChunksOf(digest(text), text, maxChars, overlapChars))
        else RangeError
  {
    var maxChars := if maxOpt.Some? then maxOpt.value else DEFAULT_MAX_CHARS;
    if maxChars <= 0 {
      return RangeError;
    }
    var overlapChars := if overlapOpt.Some? then overlapOpt.value else Min(DEFAULT_OVERLAP_CHARS, maxChars / 4);
    if overlapChars < 0 || overlapChars >= maxChars {
      return RangeError;
    }
    var d := digest(text);
    if |text| == 0 {
      return Chunked([]);
    }
    if |text| <= maxChars {
      assert text[0..|text|] == text;
      return Chunked([Chunk(ChunkRef(d, 0), text, 0)]);
    }
    var chunks := Windows(d, text, maxChars, overlapChars);
    return Chunked(chunks);
  }

  // ---------------------------------------------------------------------------
  // Any options: the chunks are slices of the text that leave no gap
  // ---------------------------------------------------------------------------

  function End(c: Chunk): nat {
    c.offset + |c.text|
  }

  predicate SliceOf(text: string, c: Chunk) {
    End(c) <= |text| && c.text == text[c.offset..End(c)]
  }

  ghost predicate Slices(text: string, chunks: seq<Chunk>) {
    forall i :: 0 <= i < |chunks| ==>
      chunks[i].ref.index == chunks[0].ref.index + i && chunks[i].text != "" && SliceOf(text, chunks[i])
  }

  /** Starts at `start`, moves on with every chunk, leaves no gap, and ends with the text. */
  ghost predicate Covers(text: string, start: nat, chunks: seq<Chunk>) {
    && chunks != []
    && chunks[0].offset == start
    && End(chunks[|chunks| - 1]) == |text|
    && forall i :: 0 < i < |chunks| ==> chunks[i - 1].offset < chunks[i].offset <= End(chunks[i - 1])
  }

  lemma ConsCovers(text: string, c: Chunk, rest: seq<Chunk>)
    requires rest != [] && Slices(text, rest) && Covers(text, rest[0].offset, rest)
      && rest[0].ref.index == c.ref.index + 1
    requires c.offset < rest[0].offset <= End(c) && SliceOf(text, c)
    ensures Slices(text, [c] + rest) && Covers(text, c.offset, [c] + rest)
  {
  }

  lemma {:induction false} ChunksCover(digest: string, text: string, maxChars: nat, overlapChars: nat, start: nat,
      index: nat)
    requires maxChars > 0 && start < |text|
    ensures var chunks := ChunksFrom(digest, text, maxChars, overlapChars, start, index);
      Slices(text, chunks) && Covers(text, start, chunks) && chunks[0].ref.index == index
    decreases |text| - start
  {
    var end := CutAt(text, maxChars, start);
    if end < |text| {
      var next := Next(overlapChars, start, end);
      ChunksCover(digest, text, maxChars, overlapChars, next, index + 1);
      ConsCovers(text, Chunk(ChunkRef(digest, index), text[start..end], start),
                 ChunksFrom(digest, text, maxChars, overlapChars, next, index + 1));
    }
  }

  /** Chunks are numbered from 0 under the digest of the whole text. */
  lemma {:induction false} ChunkRefs(digest: string, text: string, maxChars: nat, overlapChars: nat, i: nat)
    requires maxChars > 0 && i < |ChunksOf(digest, text, maxChars, overlapChars)|
    ensures ChunksOf(digest, text, maxChars, overlapChars)[i].ref == ChunkRef(digest, i)
  {
    RefsFrom(digest, text, maxChars, overlapChars, 0, 0, i);
  }

  lemma {:induction false} RefsFrom(digest: string, text: string, maxChars: nat, overlapChars: nat, start: nat,
      index: nat, i: nat)
    requires maxChars > 0 && start < |text| && i < |ChunksFrom(digest, text, maxChars, overlapChars, start, index)|
    ensures ChunksFrom(digest, text, maxChars, overlapChars, start, index)[i].ref == ChunkRef(digest, index + i)
    decreases i
  {
    if i > 0 {
      var end := CutAt(text, maxChars, start);
      RefsFrom(digest, text, maxChars, overlapChars, Next(overlapChars, start, end), index + 1, i - 1);
    }
  }

  /** A line break stands right after the window that begins at `start`. */
  predicate BreakAfterWindow(text: string, maxChars: nat, start: nat) {
    start + maxChars < |text| && text[start + maxChars] == '\n'
  }

  lemma CutLength(text: string, maxChars: nat, start: nat)
    requires maxChars > 0 && start < |text|
    ensures var n := CutAt(text, maxChars, start) - start;
      if BreakAfterWindow(text, maxChars, start) then n == maxChars + 1 else n <= maxChars
  {
  }

  lemma {:induction false} ChunkLengths(digest: string, text: string, maxChars: nat, overlapChars: nat, start: nat,
      index: nat, c: Chunk)
    requires maxChars > 0 && start < |text| && c in ChunksFrom(digest, text, maxChars, overlapChars, start, index)
    ensures if BreakAfterWindow(text, maxChars, c.offset) then |c.text| == maxChars + 1 else |c.text| <= maxChars
    decreases |text| - start
  {
    var end := CutAt(text, maxChars, start);
    CutLength(text, maxChars, start);
    if c != ChunkAt(digest, text, start, end, index) {
      ChunkLengths(digest, text, maxChars, overlapChars, Next(overlapChars, start, end), index + 1, c);
    }
  }

  /** `maxChars` is called a hard ceiling; a chunk exceeds it, by one character, exactly when a line
      break stands right after its window. */
  lemma {:induction false} CeilingExactly(digest: string, text: string, maxChars: nat, overlapChars: nat, c: Chunk)
    requires maxChars > 0 && c in ChunksOf(digest, text, maxChars, overlapChars)
    ensures |c.text| <= maxChars + 1
    ensures |c.text| > maxChars <==> BreakAfterWindow(text, maxChars, c.offset)
  {
    ChunkLengths(digest, text, maxChars, overlapChars, 0, 0, c);
  }

  /** Whatever the options, a line break right after the first window makes a chunk too long. */
  lemma {:induction false} CeilingExceeded(digest: string, text: string, maxChars: nat, overlapChars: nat)
    requires maxChars > 0 && |text| > maxChars && text[maxChars] == '\n'
    ensures var chunks := ChunksOf(digest, text, maxChars, overlapChars);
      chunks != [] && chunks[0].offset == 0 && |chunks[0].text| == maxChars + 1
  {
    CutLength(text, maxChars, 0);
  }

  /** A line break in the second half of the window that begins at `start`, or right after the window. */
  predicate BreakIn(text: string, maxChars: nat, start: nat, j: nat) {
    start < j < |text| && j <= start + maxChars && 2 * (j - start) >= maxChars && text[j] == '\n'
  }

  lemma CutExactly(text: string, maxChars: nat, start: nat, j: nat)
    requires maxChars > 0 && start + maxChars < |text| && BreakIn(text, maxChars, start, j)
    ensures var end := CutAt(text, maxChars, start); j < end && BreakIn(text, maxChars, start, end - 1)
  {
    var window := start + maxChars;
    if LastIndexOf(text, '\n', window) < j {
      LastIndexOfIsLast(text, '\n', window, j);
    }
  }

  /** Where a chunk ends.  One whose window reaches the end of the text goes to the end.  Any other ends just
      after the last line break of the second half of its window, or with the window when there is none. */
  lemma {:induction false} ChunkEnds(digest: string, text: string, maxChars: nat, overlapChars: nat, c: Chunk, j: nat)
    requires maxChars > 0 && c in ChunksOf(digest, text, maxChars, overlapChars)
    ensures if c.offset + maxChars >= |text| then End(c) == |text|
      else if BreakIn(text, maxChars, c.offset, j) then
        j < End(c) <= |text| && BreakIn(text, maxChars, c.offset, End(c) - 1)
      else
        End(c) == c.offset + maxChars || (End(c) > 0 && BreakIn(text, maxChars, c.offset, End(c) - 1))
  {
    ChunkIsCut(digest, text, maxChars, overlapChars, 0, 0, c);
    CutCases(text, maxChars, c.offset, j);
  }

  lemma CutCases(text: string, maxChars: nat, start: nat, j: nat)
    requires maxChars > 0 && start < |text|
    ensures var end := CutAt(text, maxChars, start);
      if start + maxChars >= |text| then end == |text|
      else if BreakIn(text, maxChars, start, j) then j < end <= |text| && BreakIn(text, maxChars, start, end - 1)
      else end == start + maxChars || BreakIn(text, maxChars, start, end - 1)
  {
    if start + maxChars < |text| && BreakIn(text, maxChars, start, j) {
      CutExactly(text, maxChars, start, j);
    }
  }

  lemma {:induction false} ChunkIsCut(digest: string, text: string, maxChars: nat, overlapChars: nat, start: nat,
      index: nat, c: Chunk)
    requires maxChars > 0 && start < |text| && c in ChunksFrom(digest, text, maxChars, overlapChars, start, index)
    ensures c.offset < |text| && End(c) == CutAt(text, maxChars, c.offset)
    decreases |text| - start
  {
    var end := CutAt(text, maxChars, start);
    if c != ChunkAt(digest, text, start, end, index) {
      ChunkIsCut(digest, text, maxChars, overlapChars, Next(overlapChars, start, end), index + 1, c);
    }
  }

  /** Where a chunk begins: `overlapChars` before the end of the one before it if that is longer than the
      overlap, else one character after its beginning. */
  lemma {:induction false} ChunkStarts(digest: string, text: string, maxChars: nat, overlapChars: nat, i: nat)
    requires maxChars > 0 && i + 1 < |ChunksOf(digest, text, maxChars, overlapChars)|
    ensures var (a, b) := (ChunksOf(digest, text, maxChars, overlapChars)[i],
        ChunksOf(digest, text, maxChars, overlapChars)[i + 1]);
      b.offset == if |a.text| > overlapChars then End(a) - overlapChars else a.offset + 1
  {
    StartsFrom(digest, text, maxChars, overlapChars, 0, 0, i);
  }

  lemma {:induction false} StartsFrom(digest: string, text: string, maxChars: nat, overlapChars: nat, start: nat,
      index: nat, i: nat)
    requires maxChars > 0 && start < |text|
    requires i + 1 < |ChunksFrom(digest, text, maxChars, overlapChars, start, index)|
    ensures var (a, b) := (ChunksFrom(digest, text, maxChars, overlapChars, start, index)[i],
        ChunksFrom(digest, text, maxChars, overlapChars, start, index)[i + 1]);
      b.offset == if |a.text| > overlapChars then End(a) - overlapChars else a.offset + 1
    decreases i
  {
    var end := CutAt(text, maxChars, start);
    if i > 0 {
      StartsFrom(digest, text, maxChars, overlapChars, Next(overlapChars, start, end), index + 1, i - 1);
    }
  }

  // ---------------------------------------------------------------------------
  // Overlap at most half the window: exact overlaps, and no short quote is torn apart
  // ---------------------------------------------------------------------------

  /** Each chunk repeats exactly `overlapChars` of the one before it, and reaches further. */
  ghost predicate Overlaps(overlapChars: nat, chunks: seq<Chunk>) {
    forall i :: 0 < i < |chunks| ==>
      chunks[i].offset == End(chunks[i - 1]) - overlapChars && End(chunks[i - 1]) < End(chunks[i])
  }

  lemma CutLeavesHalf(text: string, maxChars: nat, overlapChars: nat, start: nat)
    requires overlapChars < maxChars && 2 * overlapChars <= maxChars + 1 && start < |text|
    ensures var end := CutAt(text, maxChars, start); end < |text| ==> end - start > overlapChars
  {
  }

  lemma {:induction false} ChunksOverlap(digest: string, text: string, maxChars: nat, overlapChars: nat, start: nat,
      index: nat)
    requires overlapChars < maxChars && 2 * overlapChars <= maxChars + 1 && start < |text|
    ensures Overlaps(overlapChars, ChunksFrom(digest, text, maxChars, overlapChars, start, index))
    decreases |text| - start
  {
    var end := CutAt(text, maxChars, start);
    if end < |text| {
      var next := Next(overlapChars, start, end);
      CutLeavesHalf(text, maxChars, overlapChars, start);
      CutLeavesHalf(text, maxChars, overlapChars, next);
      ChunksOverlap(digest, text, maxChars, overlapChars, next, index + 1);
      ChunksCover(digest, text, maxChars, overlapChars, next, index + 1);
    }
  }

  /** The chunks with their repeated beginnings taken off, joined. */
  function Joined(overlapChars: nat, chunks: seq<Chunk>): string {
    if chunks == [] then ""
    else if |chunks| == 1 then chunks[0].text
    else
      var last := chunks[|chunks| - 1].text;
      Joined(overlapChars, chunks[..|chunks| - 1]) + if overlapChars <= |last| then last[overlapChars..] else ""
  }

  lemma {:induction false} JoinedIsPrefix(text: string, overlapChars: nat, chunks: seq<Chunk>)
    requires chunks != [] && chunks[0].offset == 0
    requires forall i :: 0 <= i < |chunks| ==> SliceOf(text, chunks[i])
    requires Overlaps(overlapChars, chunks)
    ensures End(chunks[|chunks| - 1]) <= |text|
    ensures Joined(overlapChars, chunks) == text[..End(chunks[|chunks| - 1])]
  {
    var n := |chunks| - 1;
    if n > 0 {
      JoinedIsPrefix(text, overlapChars, chunks[..n]);
      JoinStep(text, overlapChars, End(chunks[n - 1]), chunks[n]);
    }
  }

  lemma JoinStep(text: string, overlapChars: nat, a: nat, c: Chunk)
    requires c.offset == a - overlapChars && a < End(c) && SliceOf(text, c)
    ensures text[..a] + c.text[overlapChars..] == text[..End(c)]
  {
    assert c.text[overlapChars..] == text[a..End(c)];
  }

  /** Whatever can be quoted in `overlapChars + 1` characters stands whole in some chunk. */
  ghost predicate KeepsShortSpans(text: string, overlapChars: nat, chunks: seq<Chunk>) {
    forall s: nat, e: nat :: s < e <= |text| && e - s <= overlapChars + 1 ==> Holds(chunks, s, e)
  }

  ghost predicate Holds(chunks: seq<Chunk>, s: nat, e: nat) {
    exists c :: c in chunks && c.offset <= s && e <= End(c)
  }

  lemma {:induction false} SpanIsHeld(text: string, overlapChars: nat, chunks: seq<Chunk>, start: nat, s: nat,
      e: nat, n: nat)
    requires Covers(text, start, chunks) && Overlaps(overlapChars, chunks)
    requires n < |chunks| && start <= s < e <= End(chunks[n]) && e - s <= overlapChars + 1
    ensures Holds(chunks, s, e)
    decreases n
  {
    if chunks[n].offset <= s {
      assert chunks[n] in chunks;
    } else {
      SpanIsHeld(text, overlapChars, chunks, start, s, e, n - 1);
    }
  }

  lemma ShortSpansAreHeld(text: string, overlapChars: nat, chunks: seq<Chunk>)
    requires Covers(text, 0, chunks) && Overlaps(overlapChars, chunks)
    ensures KeepsShortSpans(text, overlapChars, chunks)
  {
    forall s: nat, e: nat | s < e <= |text| && e - s <= overlapChars + 1 ensures Holds(chunks, s, e) {
      SpanIsHeld(text, overlapChars, chunks, 0, s, e, |chunks| - 1);
    }
  }

  /** All of it at once, for one text and one pair of options. */
  ghost predicate Faithful(digest: string, text: string, maxChars: nat, overlapChars: nat)
    requires maxChars > 0
  {
    var chunks := ChunksOf(digest, text, maxChars, overlapChars);
    Overlaps(overlapChars, chunks) && Joined(overlapChars, chunks) == text
      && KeepsShortSpans(text, overlapChars, chunks)
  }

  lemma {:induction false} ChunksAreFaithful(digest: string, text: string, maxChars: nat, overlapChars: nat)
    requires overlapChars < maxChars && 2 * overlapChars <= maxChars + 1
    ensures Faithful(digest, text, maxChars, overlapChars)
  {
    var chunks := ChunksOf(digest, text, maxChars, overlapChars);
    if text != "" {
      ChunksCover(digest, text, maxChars, overlapChars, 0, 0);
      ChunksOverlap(digest, text, maxChars, overlapChars, 0, 0);
      JoinedIsPrefix(text, overlapChars, chunks);
      ShortSpansAreHeld(text, overlapChars, chunks);
    }
  }

  /** One line break, just past the middle of the first window. */
  function TornText(maxChars: nat): string {
    seq(maxChars + 1, i => if i == (maxChars + 1) / 2 then '\n' else 'a')
  }

  lemma TornCut(maxChars: nat)
    requires maxChars > 0
    ensures CutAt(TornText(maxChars), maxChars, 0) == (maxChars + 1) / 2 + 1
  {
    var text, half := TornText(maxChars), (maxChars + 1) / 2;
    assert text[half] == '\n';
    if LastIndexOf(text, '\n', maxChars) < half {
      LastIndexOfIsLast(text, '\n', maxChars, half);
    }
    assert LastIndexOf(text, '\n', maxChars) == half;
  }

  /** A larger overlap cannot be kept: the snapped chunk is too short to hold it. */
  lemma {:induction false} LargeOverlapTears(digest: string, maxChars: nat, overlapChars: nat)
    requires overlapChars < maxChars && 2 * overlapChars > maxChars + 1
    ensures var text := TornText(maxChars);
      var chunks := ChunksOf(digest, text, maxChars, overlapChars);
      !Overlaps(overlapChars, chunks) && !KeepsShortSpans(text, overlapChars, chunks)
  {
    var text := TornText(maxChars);
    var chunks := ChunksOf(digest, text, maxChars, overlapChars);
    var end := (maxChars + 1) / 2 + 1;
    TornCut(maxChars);
    ChunksCover(digest, text, maxChars, overlapChars, 0, 0);
    assert End(chunks[0]) == end && |chunks| > 1;
    assert chunks[1].offset == 1;
    forall c | c in chunks ensures !(c.offset <= 0 && overlapChars + 1 <= End(c)) {
      var i :| 0 <= i < |chunks| && chunks[i] == c;
      if i > 0 {
        OffsetsGrow(text, 0, chunks, i);
      }
    }
    assert !Holds(chunks, 0, overlapChars + 1);
  }

  lemma {:induction false} OffsetsGrow(text: string, start: nat, chunks: seq<Chunk>, i: nat)
    requires Covers(text, start, chunks) && 0 < i < |chunks|
    ensures chunks[i].offset > start
  {
    if i > 1 {
      OffsetsGrow(text, start, chunks, i - 1);
    }
  }

  /** Exactly which options keep every promise for every text. */
  lemma {:induction false} FaithfulExactly(digest: string, maxChars: nat, overlapChars: nat)
    requires overlapChars < maxChars
    ensures (forall text :: Faithful(digest, text, maxChars, overlapChars)) <==> 2 * overlapChars <= maxChars + 1
  {
    if 2 * overlapChars <= maxChars + 1 {
      forall text ensures Faithful(digest, text, maxChars, overlapChars) {
        ChunksAreFaithful(digest, text, maxChars, overlapChars);
      }
    } else {
      LargeOverlapTears(digest, maxChars, overlapChars);
      assert !Faithful(digest, TornText(maxChars), maxChars, overlapChars);
    }
  }

  /** The default overlap always qualifies. */
  lemma {:induction false} DefaultsAreFaithful(digest: string, text: string, maxChars: nat)
    requires maxChars > 0
    ensures Faithful(digest, text, maxChars, Min(DEFAULT_OVERLAP_CHARS, maxChars / 4))
  {
    ChunksAreFaithful(digest, text, maxChars, Min(DEFAULT_OVERLAP_CHARS, maxChars / 4));
  }
}
