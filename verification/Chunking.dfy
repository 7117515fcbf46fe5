/** Splitting a file into overlapping windows for the search index, with the
    line range of each, and joining small neighbours again. */
module Chunking {
  import opened Common
  import opened Texts

  const NEWLINE: CodeUnit := 10
  const MIN_CHUNK_SIZE := 200

  type Space = CodeUnit -> bool

  datatype Window = Window(start: nat, end: nat)

  datatype Chunk = Chunk(text: Text, startLine: int, endLine: int, symbolName: Option<Text>)

  // ---------------------------------------------------------------------
  // Lines

  function Newlines(text: Text): nat {
    if text == [] then 0
    else Newlines(text[..|text| - 1]) + if text[|text| - 1] == NEWLINE then 1 else 0
  }

  /** The number of the line an offset lies in: one more than the newlines before it. */
  function LineAt(text: Text, offset: nat): int {
    1 + Newlines(text[..Min(offset, |text|)])
  }

  /** Lines are counted from one and change after each line feed. */
  lemma LineExact(text: Text, k: nat)
    requires k < |text|
    ensures LineAt(text, 0) == 1 && LineAt(text, k + 1) == LineAt(text, k) + if text[k] == 10 then 1 else 0
  {
    assert text[..0] == [] && text[..k + 1][..k] == text[..k];
  }

  function LineOffsets(text: Text): seq<nat> {
    if text == [] then [0]
    else LineOffsets(text[..|text| - 1]) + if text[|text| - 1] == NEWLINE then [|text|] else []
  }

  /** The offsets are those where a line starts: increasing, and as many of them
      lie at or before an offset as its line number says. */
  lemma {:induction false} LineOffsetsExact(text: Text)
    ensures var offsets := LineOffsets(text);
            && |offsets| == 1 + Newlines(text) && offsets[0] == 0
            && (forall i, j | 0 <= i < j < |offsets| :: offsets[i] < offsets[j])
            && forall i | 0 <= i < |offsets| :: offsets[i] <= |text| && Newlines(text[..offsets[i]]) == i
  {
    if text != [] {
      var init := text[..|text| - 1];
      LineOffsetsExact(init);
      var offsets := LineOffsets(text);
      forall i | 0 <= i < |offsets|
        ensures offsets[i] <= |text| && Newlines(text[..offsets[i]]) == i
      {
        if i < |LineOffsets(init)| {
          assert init[..offsets[i]] == text[..offsets[i]];
        } else {
          assert text[..|text|] == text;
        }
      }
    } else {
      assert text[..0] == [];
    }
  }

  lemma {:induction false} NewlinesMonotone(text: Text, a: nat, b: nat)
    requires a <= b <= |text|
    ensures Newlines(text[..a]) <= Newlines(text[..b])
    decreases b - a
  {
    if a < b {
      NewlinesMonotone(text, a, b - 1);
      assert text[..b][..b - 1] == text[..b - 1];
    }
  }

  /** A line starts at or before an offset exactly when its index is at most
      the newlines before the offset. */
  lemma StartOfLineIsNotLater(text: Text, offset: nat, i: nat)
    requires offset <= |text| && i < |LineOffsets(text)|
    ensures LineOffsets(text)[i] <= offset <==> i <= Newlines(text[..offset])
  {
    LineOffsetsExact(text);
    var at := LineOffsets(text)[i];
    if at <= offset {
      NewlinesMonotone(text, at, offset);
    } else {
      NewlinesMonotone(text, offset, at - 1);
      LineStartAfterNewline(text, i);
    }
  }

  lemma {:induction false} LineStartAfterNewline(text: Text, i: nat)
    requires 0 < i < |LineOffsets(text)|
    ensures 0 < LineOffsets(text)[i] <= |text| && Newlines(text[..LineOffsets(text)[i] - 1]) == i - 1
  {
    if text != [] {
      var init := text[..|text| - 1];
      LineOffsetsExact(init);
      LineOffsetsExact(text);
      if i < |LineOffsets(init)| {
        LineStartAfterNewline(init, i);
        assert init[..LineOffsets(text)[i] - 1] == text[..LineOffsets(text)[i] - 1];
      } else {
        assert text[..|text| - 1] == init;
      }
    }
  }

  method BuildLineOffsets(text: Text) returns (offsets: seq<nat>)
    ensures offsets == LineOffsets(text)
  {
    offsets := [0];
    for index := 0 to |text|
      invariant offsets == LineOffsets(text[..index])
    {
      assert text[..index + 1][..index] == text[..index];
      if text[index] == NEWLINE { offsets := offsets + [index + 1]; }
    }
    assert text[..|text|] == text;
  }

  /** Binary search for the line of an offset: it agrees with counting. */
  method OffsetToLine(ghost text: Text, offset: nat, lineOffsets: seq<nat>) returns (line: int)
    requires lineOffsets == LineOffsets(text) && offset <= |text|
    ensures line == LineAt(text, offset)
  {
    ghost var target := Newlines(text[..offset]);
    LineOffsetsExact(text);
    NewlinesMonotone(text, offset, |text|);
    assert text[..|text|] == text;
    var low, high := 0, |lineOffsets| - 1;
    while low <= high
      invariant 0 <= low && high < |lineOffsets| && low <= target <= high
      decreases high - low
    {
      var middle := (low + high) / 2;
      StartOfLineIsNotLater(text, offset, middle);
      if middle + 1 < |lineOffsets| { StartOfLineIsNotLater(text, offset, middle + 1); }
      if offset >= lineOffsets[middle] && (middle + 1 == |lineOffsets| || offset < lineOffsets[middle + 1]) {
        return middle + 1;
      }
      if offset < lineOffsets[middle] { high := middle - 1; } else { low := middle + 1; }
    }
    return |lineOffsets|;
  }

  // ---------------------------------------------------------------------
  // Windows

  function SafeSize(chunkSize: int): int {
    Max(chunkSize, MIN_CHUNK_SIZE)
  }

  function SafeOverlap(chunkSize: int, chunkOverlap: int): int {
    Min(Max(chunkOverlap, 0), SafeSize(chunkSize) / 2)
  }

  /** Windows are as large as asked for, at least 200; they overlap as asked for,
      never less than nothing or more than half. */
  lemma SettingsExact(chunkSize: int, chunkOverlap: int)
    ensures var size, overlap := SafeSize(chunkSize), SafeOverlap(chunkSize, chunkOverlap);
            && Sized(size, overlap)
            && size == (if chunkSize < 200 then 200 else chunkSize)
            && overlap == (if chunkOverlap < 0 then 0 else if 2 * chunkOverlap > size then size / 2 else chunkOverlap)
  {
  }

  /** A window size with an overlap of at most half of it. */
  ghost predicate Sized(size: int, overlap: int) {
    size >= MIN_CHUNK_SIZE && 0 <= overlap <= size / 2
  }

  function Windows(length: nat, size: int, overlap: int, start: nat): (w: seq<Window>)
    requires Sized(size, overlap)
    ensures forall i | 0 <= i < |w| :: w[i].start < w[i].end <= length
    decreases length - start
  {
    if start >= length then []
    else
      var end := Min(start + size, length);
      [Window(start, end)] + if end >= length then [] else Windows(length, size, overlap, Max(end - overlap, start + 1))
  }

  /** Each window starts `overlap` before its predecessor ends. */
  ghost predicate Spaced(w: seq<Window>, overlap: int) {
    forall i, j {:trigger w[i], w[j]} | 0 <= i < j < |w| && j == i + 1 :: w[j].start == w[i].end - overlap
  }

  /** The windows tile the text: each but the last is full and ends before the
      text does, the next one starts `overlap` before it ends, and the last one
      ends with the text. */
  ghost predicate Tiles(w: seq<Window>, length: nat, size: int, overlap: int, start: nat) {
    && w != [] && w[0].start == start
    && (forall i {:trigger w[i]} | 0 <= i < |w| - 1 :: w[i].end == w[i].start + size < length)
    && Spaced(w, overlap)
    && w[|w| - 1].start < w[|w| - 1].end == length <= w[|w| - 1].start + size
  }

  lemma {:induction false} WindowsTile(length: nat, size: int, overlap: int, start: nat)
    requires Sized(size, overlap) && start < length
    ensures Tiles(Windows(length, size, overlap, start), length, size, overlap, start)
    decreases length - start
  {
    if start + size < length {
      var rest := Windows(length, size, overlap, start + size - overlap);
      WindowsTile(length, size, overlap, start + size - overlap);
      TilesPrepend(rest, length, size, overlap, start);
      assert Windows(length, size, overlap, start) == [Window(start, start + size)] + rest;
    } else {
      TilesOnce(length, size, overlap, start);
    }
  }

  lemma TilesOnce(length: nat, size: int, overlap: int, start: nat)
    requires Sized(size, overlap) && start < length <= start + size
    ensures Tiles([Window(start, length)], length, size, overlap, start)
  {
  }

  lemma TilesPrepend(rest: seq<Window>, length: nat, size: int, overlap: int, start: nat)
    requires Sized(size, overlap) && start + size < length && Tiles(rest, length, size, overlap, start + size - overlap)
    ensures Tiles([Window(start, start + size)] + rest, length, size, overlap, start)
  {
    var w := [Window(start, start + size)] + rest;
    forall i | 0 < i < |w| ensures w[i] == rest[i - 1] {}
  }

  ghost predicate Covered(w: seq<Window>, k: nat) {
    exists i :: 0 <= i < |w| && w[i].start <= k < w[i].end
  }

  lemma InWindow(w: seq<Window>, length: nat, size: int, overlap: int, k: nat) returns (i: nat)
    requires Sized(size, overlap) && Tiles(w, length, size, overlap, 0) && k < length
    ensures i < |w| && w[i].start <= k < w[i].end
  {
    i := 0;
    while i + 1 < |w| && w[i + 1].start <= k
      invariant i < |w| && w[i].start <= k
    {
      i := i + 1;
    }
  }

  /** The start of a window is its number of steps. */
  lemma {:induction false} WindowStart(w: seq<Window>, length: nat, size: int, overlap: int, i: nat)
    requires Sized(size, overlap) && Tiles(w, length, size, overlap, 0) && i < |w|
    ensures w[i].start == i * (size - overlap)
  {
    if i > 0 {
      WindowStart(w, length, size, overlap, i - 1);
      assert w[i - 1].end == w[i - 1].start + size;
      assert (i - 1) * (size - overlap) + (size - overlap) == i * (size - overlap);
    }
  }

  lemma {:induction false} TwoSteps(i: nat, j: nat, step: nat)
    requires i + 2 <= j
    ensures i * step + 2 * step <= j * step
  {
    if j > i + 2 { TwoSteps(i, j - 1, step); }
    assert j * step == (j - 1) * step + step;
  }

  ghost predicate NoTriple(w: seq<Window>) {
    forall i, j | 0 <= i && i + 2 <= j < |w| :: w[i].end <= w[j].start
  }

  lemma TilesNoTriple(w: seq<Window>, length: nat, size: int, overlap: int)
    requires Sized(size, overlap) && Tiles(w, length, size, overlap, 0)
    ensures NoTriple(w)
  {
    forall i, j | 0 <= i && i + 2 <= j < |w|
      ensures w[i].end <= w[j].start
    {
      WindowStart(w, length, size, overlap, i);
      WindowStart(w, length, size, overlap, j);
      TwoSteps(i, j, size - overlap);
    }
  }

  /** As many windows as steps are needed, no fewer would do. */
  ghost predicate LeastCount(n: nat, length: nat, size: int, step: int) {
    && (n - 1) * step < length <= (n - 1) * step + size
    && (n > 1 ==> (n - 2) * step + size < length)
  }

  lemma TilesLeastCount(w: seq<Window>, length: nat, size: int, overlap: int)
    requires Sized(size, overlap) && Tiles(w, length, size, overlap, 0)
    ensures LeastCount(|w|, length, size, size - overlap)
  {
    WindowStart(w, length, size, overlap, |w| - 1);
    if |w| > 1 { WindowStart(w, length, size, overlap, |w| - 2); }
  }

  /** Every offset lies in a window, neighbours overlap by exactly the overlap,
      no offset lies in three windows, and the count is the least that covers the
      text in such steps, so linear in its length. */
  lemma WindowsCover(length: nat, size: int, overlap: int)
    requires Sized(size, overlap) && length > 0
    ensures var w := Windows(length, size, overlap, 0);
            && (forall k: nat | k < length :: Covered(w, k))
            && Spaced(w, overlap) && NoTriple(w) && LeastCount(|w|, length, size, size - overlap)
  {
    var w := Windows(length, size, overlap, 0);
    WindowsTile(length, size, overlap, 0);
    forall k: nat | k < length
      ensures Covered(w, k)
    {
      var i := InWindow(w, length, size, overlap, k);
    }
    TilesNoTriple(w, length, size, overlap);
    TilesLeastCount(w, length, size, overlap);
  }

  // ---------------------------------------------------------------------
  // Chunks

  function TrimStart(s: Text, space: Space): Text {
    if s != [] && space(s[0]) then TrimStart(s[1..], space) else s
  }

  function TrimEnd(s: Text, space: Space): Text {
    if s != [] && space(s[|s| - 1]) then TrimEnd(s[..|s| - 1], space) else s
  }

  function Trim(s: Text, space: Space): Text {
    TrimEnd(TrimStart(s, space), space)
  }

  /** The chunk of a window, if anything visible is in it. */
  function WindowChunk(text: Text, w: Window, space: Space): seq<Chunk> {
    if !(w.start < w.end <= |text|) then []
    else
      var trimmed := Trim(text[w.start..w.end], space);
      if trimmed == [] then [] else [Chunk(trimmed, LineAt(text, w.start), LineAt(text, w.end - 1), None)]
  }

  /** What trimming leaves: nothing of white space alone, and otherwise the stretch
      from the first to the last visible character. */
  lemma {:induction false} TrimExact(s: Text, space: Space) returns (a: nat, b: nat)
    ensures a <= b <= |s| && Trim(s, space) == s[a..b] && forall i | 0 <= i < |s| && !(a <= i < b) :: space(s[i])
    ensures a < b ==> !space(s[a]) && !space(s[b - 1])
  {
    a := TrimStartDrops(s, space);
    TrimStartStops(s, space);
    var rest := s[a..];
    var e := TrimEndDrops(rest, space);
    b := a + e;
    TrimEndStops(rest, space);
    assert rest[..b - a] == s[a..b];
    assert forall i | a <= i < |s| :: s[i] == rest[i - a];
  }

  lemma {:induction false} TrimStartStops(s: Text, space: Space)
    ensures TrimStart(s, space) != [] ==> !space(TrimStart(s, space)[0])
  {
    if s != [] && space(s[0]) { TrimStartStops(s[1..], space); }
  }

  lemma {:induction false} TrimEndStops(s: Text, space: Space)
    ensures var t := TrimEnd(s, space); t != [] ==> !space(t[|t| - 1]) && t[0] == s[0]
  {
    if s != [] && space(s[|s| - 1]) { TrimEndStops(s[..|s| - 1], space); }
  }

  lemma TrimmedWindow(text: Text, w: Window, space: Space) returns (a: nat, b: nat)
    requires w.start < w.end <= |text|
    ensures w.start <= a <= b <= w.end && forall i | w.start <= i < w.end && !(a <= i < b) :: space(text[i])
    ensures a < b ==> !space(text[a]) && !space(text[b - 1])
    ensures Trim(text[w.start..w.end], space) == text[a..b]
  {
    var s := text[w.start..w.end];
    var i, j := TrimExact(s, space);
    a, b := w.start + i, w.start + j;
    SliceOfSlice(text, w.start, w.end, i, j);
    assert forall k | w.start <= k < w.end :: text[k] == s[k - w.start];
  }

  /** A window in which anything is visible gives one chunk: its text from the first
      to the last visible character, no symbol, and the lines of the window's first
      and last character. Any other window gives none. */
  lemma WindowChunkExact(text: Text, w: Window, space: Space) returns (a: nat, b: nat)
    requires w.start < w.end <= |text|
    ensures w.start <= a <= b <= w.end && forall i | w.start <= i < w.end && !(a <= i < b) :: space(text[i])
    ensures a < b ==> !space(text[a]) && !space(text[b - 1])
    ensures WindowChunk(text, w, space) ==
              if a == b then [] else [Chunk(text[a..b], LineAt(text, w.start), LineAt(text, w.end - 1), None)]
  {
    a, b := TrimmedWindow(text, w, space);
    assert |text[a..b]| == b - a;
  }

  /** The chunks come in the order of their windows. */
  lemma {:induction false} CollectInOrder(w: seq<Window>, chunkOf: Window -> seq<Chunk>, i: nat)
    requires i < |w|
    ensures Collect(w[..i], chunkOf) + chunkOf(w[i]) <= Collect(w, chunkOf)
  {
    if i < |w| - 1 {
      CollectInOrder(w[..|w| - 1], chunkOf, i);
      assert w[..|w| - 1][..i] == w[..i];
    }
  }

  function Collect(w: seq<Window>, chunkOf: Window -> seq<Chunk>): seq<Chunk> {
    if w == [] then [] else Collect(w[..|w| - 1], chunkOf) + chunkOf(w[|w| - 1])
  }

  function Chunker(text: Text, space: Space): Window -> seq<Chunk> {
    w => WindowChunk(text, w, space)
  }

  function ChunksOf(text: Text, w: seq<Window>, space: Space): seq<Chunk> {
    Collect(w, Chunker(text, space))
  }

  /** Trimming drops a prefix and a suffix of white space and nothing else. */
  lemma {:induction false} TrimStartDrops(s: Text, space: Space) returns (a: nat)
    ensures a <= |s| && TrimStart(s, space) == s[a..] && forall i | 0 <= i < a :: space(s[i])
  {
    a := 0;
    if s != [] && space(s[0]) {
      var rest := TrimStartDrops(s[1..], space);
      a := rest + 1;
      assert s[1..][rest..] == s[a..];
      assert forall i | 0 < i < a :: s[i] == s[1..][i - 1];
    }
  }

  lemma {:induction false} TrimEndDrops(s: Text, space: Space) returns (b: nat)
    ensures b <= |s| && TrimEnd(s, space) == s[..b] && forall i | b <= i < |s| :: space(s[i])
  {
    b := |s|;
    if s != [] && space(s[|s| - 1]) {
      b := TrimEndDrops(s[..|s| - 1], space);
      assert s[..|s| - 1][..b] == s[..b];
    }
  }

  lemma TrimDrops(s: Text, space: Space) returns (a: nat, b: nat)
    ensures a <= b <= |s| && Trim(s, space) == s[a..b]
    ensures forall i | 0 <= i < |s| && !space(s[i]) :: a <= i < b
  {
    a := TrimStartDrops(s, space);
    var rest := s[a..];
    var e := TrimEndDrops(rest, space);
    b := a + e;
    assert rest[..e] == s[a..b];
    assert forall i | a <= i < |s| :: s[i] == rest[i - a];
  }

  lemma {:induction false} CollectHolds(w: seq<Window>, chunkOf: Window -> seq<Chunk>, i: nat, c: Chunk)
    requires i < |w| && c in chunkOf(w[i])
    ensures c in Collect(w, chunkOf)
  {
    if i < |w| - 1 {
      assert w[..|w| - 1][i] == w[i];
      CollectHolds(w[..|w| - 1], chunkOf, i, c);
    }
  }

  /** The chunk is the stretch of the text from `a` to `b`, which holds offset
      `k`, and reports the line of that offset. */
  ghost predicate Shows(chunk: Chunk, text: Text, k: nat, a: nat, b: nat) {
    && a <= k < b <= |text| && chunk.text == text[a..b]
    && chunk.startLine <= LineAt(text, k) <= chunk.endLine
  }

  lemma SliceOfSlice(text: Text, p: nat, q: nat, i: nat, j: nat)
    requires p <= q <= |text| && i <= j <= q - p
    ensures text[p..q][i..j] == text[p + i..p + j]
  {
    var u := text[p..q];
    assert |u[i..j]| == |text[p + i..p + j]|;
    assert forall k | 0 <= k < j - i :: u[i..j][k] == u[i + k] == text[p + i + k] == text[p + i..p + j][k];
  }

  lemma WindowSpansLine(text: Text, w: Window, k: nat)
    requires w.start <= k < w.end <= |text|
    ensures LineAt(text, w.start) <= LineAt(text, k) <= LineAt(text, w.end - 1)
  {
    NewlinesMonotone(text, w.start, k);
    NewlinesMonotone(text, k, w.end - 1);
  }

  /** Trimming a window keeps a stretch of the text with everything visible. */
  lemma WindowKeeps(text: Text, w: Window, space: Space, k: nat) returns (a: nat, b: nat)
    requires w.start <= k < w.end <= |text| && !space(text[k])
    ensures a <= k < b <= |text| && Trim(text[w.start..w.end], space) == text[a..b]
  {
    var s := text[w.start..w.end];
    var i, j := TrimDrops(s, space);
    a, b := w.start + i, w.start + j;
    assert s[k - w.start] == text[k];
    SliceOfSlice(text, w.start, w.end, i, j);
  }

  lemma WindowShows(text: Text, w: Window, space: Space, k: nat) returns (a: nat, b: nat)
    requires w.start <= k < w.end <= |text| && !space(text[k])
    ensures WindowChunk(text, w, space) != [] && Shows(WindowChunk(text, w, space)[0], text, k, a, b)
  {
    a, b := WindowKeeps(text, w, space, k);
    assert |text[a..b]| > 0;
    WindowSpansLine(text, w, k);
  }

  /** Nothing visible is lost: the offset of every character that is not white
      space lies in the stretch of text that some chunk is, and the chunk's line
      range contains its line. */
  lemma EveryVisibleCharacterIsIndexed(text: Text, size: int, overlap: int, space: Space, k: nat)
    requires Sized(size, overlap) && k < |text| && !space(text[k])
    ensures exists chunk, a, b :: chunk in ChunksOf(text, Windows(|text|, size, overlap, 0), space) && Shows(chunk, text, k, a, b)
  {
    var w := Windows(|text|, size, overlap, 0);
    WindowsTile(|text|, size, overlap, 0);
    var i := InWindow(w, |text|, size, overlap, k);
    var a, b := WindowShows(text, w[i], space, k);
    CollectHolds(w, Chunker(text, space), i, WindowChunk(text, w[i], space)[0]);
  }

  lemma CollectNext(w: seq<Window>, chunkOf: Window -> seq<Chunk>, n: nat, chunks: seq<Chunk>)
    requires n < |w| && chunks == Collect(w[..n], chunkOf)
    ensures chunks + chunkOf(w[n]) == Collect(w[..n + 1], chunkOf)
  {
    assert w[..n + 1][..n] == w[..n];
  }

  /** What the loop knows of window `n`, and where it goes on. */
  lemma NextWindow(w: seq<Window>, length: nat, size: int, overlap: int, n: nat)
    requires Sized(size, overlap) && Tiles(w, length, size, overlap, 0) && n < |w|
    ensures w[n].end == Min(w[n].start + size, length)
    ensures if w[n].end >= length then n + 1 == |w|
            else n + 1 < |w| && w[n + 1].start == Max(w[n].end - overlap, w[n].start + 1)
  {
  }

  /** One round: the chunk of the window that starts at `start`, its lines found
      by binary search, and the start of the next window if there is one. */
  method ChunkWindow(text: Text, size: int, overlap: int, start: nat, lineOffsets: seq<nat>, space: Space, ghost w: seq<Window>, ghost n: nat)
    returns (chunk: seq<Chunk>, more: bool, next: nat)
    requires Sized(size, overlap) && Tiles(w, |text|, size, overlap, 0) && lineOffsets == LineOffsets(text)
    requires n < |w| && w[n].start == start < |text|
    ensures chunk == Chunker(text, space)(w[n])
    ensures if more then n + 1 < |w| && w[n + 1].start == next && start < next < |text| else n + 1 == |w|
  {
    var end := Min(start + size, |text|);
    NextWindow(w, |text|, size, overlap, n);
    var trimmed := Trim(text[start..end], space);
    chunk := [];
    if trimmed != [] {
      var startLine := OffsetToLine(text, start, lineOffsets);
      var endLine := OffsetToLine(text, Max(end - 1, start), lineOffsets);
      chunk := [Chunk(trimmed, startLine, endLine, None)];
    }
    more, next := end < |text|, Max(end - overlap, start + 1);
  }

  method ChunkWindows(text: Text, size: int, overlap: int, space: Space, ghost w: seq<Window>) returns (chunks: seq<Chunk>)
    requires Sized(size, overlap) && |text| > 0 && Tiles(w, |text|, size, overlap, 0)
    ensures chunks == Collect(w, Chunker(text, space))
  {
    var lineOffsets := BuildLineOffsets(text);
    chunks := [];
    var start := 0;
    ghost var n, chunkOf := 0, Chunker(text, space);
    while start < |text|
      invariant n < |w| && w[n].start == start < |text|
      invariant chunks == Collect(w[..n], chunkOf)
      decreases |text| - start
    {
      var chunk, more, next := ChunkWindow(text, size, overlap, start, lineOffsets, space, w, n);
      CollectNext(w, chunkOf, n, chunks);
      chunks := chunks + chunk;
      if !more { break; }
      start, n := next, n + 1;
    }
    assert w[..n + 1] == w;
  }

  method ChunkTextFixed(text: Text, chunkSize: int, chunkOverlap: int, space: Space) returns (chunks: seq<Chunk>)
    ensures chunks == ChunksOf(text, Windows(|text|, SafeSize(chunkSize), SafeOverlap(chunkSize, chunkOverlap), 0), space)
  {
    if |text| == 0 { return []; }
    WindowsTile(|text|, SafeSize(chunkSize), SafeOverlap(chunkSize, chunkOverlap), 0);
    chunks := ChunkWindows(text, SafeSize(chunkSize), SafeOverlap(chunkSize, chunkOverlap), space,
                           Windows(|text|, SafeSize(chunkSize), SafeOverlap(chunkSize, chunkOverlap), 0));
  }

  // ---------------------------------------------------------------------
  // Joining small neighbours

  predicate Joinable(a: Chunk, b: Chunk, chunkSize: int) {
    a.symbolName.None? && b.symbolName.None? && |a.text| + |b.text| < chunkSize
  }

  function Join(a: Chunk, b: Chunk, space: Space): Chunk {
    Chunk(Trim(a.text + [NEWLINE] + b.text, space), a.startLine, b.endLine, None)
  }

  /** A run of neighbours; never empty. */
  type Run = seq<Chunk>

  function JoinAll(r: Run, space: Space): Chunk {
    if r == [] then Chunk([], 0, 0, None)
    else if |r| == 1 then r[0]
    else Join(JoinAll(r[..|r| - 1], space), r[|r| - 1], space)
  }

  /** The runs of neighbours that are joined into one chunk each. */
  function Runs(chunks: seq<Chunk>, chunkSize: int, space: Space): seq<Run> {
    if chunks == [] then []
    else
      var runs, last := Runs(chunks[..|chunks| - 1], chunkSize, space), chunks[|chunks| - 1];
      if runs != [] && Joinable(JoinAll(runs[|runs| - 1], space), last, chunkSize)
      then runs[..|runs| - 1] + [runs[|runs| - 1] + [last]]
      else runs + [[last]]
  }

  function Joined(runs: seq<Run>, space: Space): seq<Chunk> {
    if runs == [] then [] else Joined(runs[..|runs| - 1], space) + [JoinAll(runs[|runs| - 1], space)]
  }

  function Laid(runs: seq<Run>): seq<Chunk> {
    if runs == [] then [] else Laid(runs[..|runs| - 1]) + runs[|runs| - 1]
  }

  lemma {:induction false} JoinedLines(r: Run, space: Space)
    requires r != []
    ensures JoinAll(r, space).startLine == r[0].startLine && JoinAll(r, space).endLine == r[|r| - 1].endLine
  {
    if |r| > 1 { JoinedLines(r[..|r| - 1], space); }
  }

  /** A run has a chunk, and if it has several there is no symbol among them. */
  ghost predicate Plain(r: Run, space: Space) {
    r != [] && (|r| > 1 ==> JoinAll(r, space).symbolName.None? && forall c | c in r :: c.symbolName.None?)
  }

  lemma PlainGrows(r: Run, c: Chunk, chunkSize: int, space: Space)
    requires Plain(r, space) && Joinable(JoinAll(r, space), c, chunkSize)
    ensures Plain(r + [c], space)
  {
    assert (r + [c])[..|r|] == r;
    assert |r| == 1 ==> r[0] == JoinAll(r, space);
  }

  /** One more chunk joins the last run or opens a new one. */
  lemma RunsStep(chunks: seq<Chunk>, n: nat, chunkSize: int, space: Space, closed: seq<Run>, last: Run)
    requires n < |chunks| && Runs(chunks[..n], chunkSize, space) == closed + [last]
    ensures Runs(chunks[..n + 1], chunkSize, space) ==
              if Joinable(JoinAll(last, space), chunks[n], chunkSize) then closed + [last + [chunks[n]]]
              else (closed + [last]) + [[chunks[n]]]
  {
    assert chunks[..n + 1][..n] == chunks[..n];
    assert (closed + [last])[..|closed|] == closed;
  }

  lemma JoinedSnoc(runs: seq<Run>, last: Run, space: Space)
    ensures Joined(runs + [last], space) == Joined(runs, space) + [JoinAll(last, space)]
  {
    assert (runs + [last])[..|runs|] == runs;
  }

  lemma JoinAllSnoc(r: Run, c: Chunk, space: Space)
    requires r != []
    ensures JoinAll(r + [c], space) == Join(JoinAll(r, space), c, space)
  {
    assert (r + [c])[..|r|] == r;
  }

  lemma LaidOpens(runs: seq<Run>, r: Run)
    ensures Laid(runs + [r]) == Laid(runs) + r
  {
    assert (runs + [r])[..|runs|] == runs;
  }

  lemma {:induction false} LaidGrows(runs: seq<Run>, last: Chunk)
    requires runs != []
    ensures Laid(runs[..|runs| - 1] + [runs[|runs| - 1] + [last]]) == Laid(runs) + [last]
  {
    LaidOpens(runs[..|runs| - 1], runs[|runs| - 1] + [last]);
  }

  /** Joining keeps every chunk, in order, in exactly one run. */
  lemma {:induction false} RunsPartition(chunks: seq<Chunk>, chunkSize: int, space: Space)
    ensures Laid(Runs(chunks, chunkSize, space)) == chunks
  {
    if chunks != [] {
      var n := |chunks| - 1;
      RunsPartition(chunks[..n], chunkSize, space);
      var runs, c := Runs(chunks[..n], chunkSize, space), chunks[n];
      assert chunks[..n + 1] == chunks == chunks[..n] + [c];
      LaidOpens(runs, [c]);
      if runs != [] {
        assert runs == runs[..|runs| - 1] + [runs[|runs| - 1]];
        RunsStep(chunks, n, chunkSize, space, runs[..|runs| - 1], runs[|runs| - 1]);
        LaidGrows(runs, c);
      }
    }
  }

  /** Symbols stay alone, and two neighbouring runs were kept apart because
      joining them was not allowed. */
  lemma {:induction false} RunsAreMaximal(chunks: seq<Chunk>, chunkSize: int, space: Space)
    ensures var runs := Runs(chunks, chunkSize, space);
            (forall r | r in runs :: Plain(r, space)) && Apart(runs, chunkSize, space)
  {
    if chunks != [] {
      var n := |chunks| - 1;
      RunsAreMaximal(chunks[..n], chunkSize, space);
      var before := Runs(chunks[..n], chunkSize, space);
      var m := |before| - 1;
      if before != [] && Joinable(JoinAll(before[m], space), chunks[n], chunkSize) {
        PlainGrows(before[m], chunks[n], chunkSize, space);
        assert before[m] in before && (before[m] + [chunks[n]])[0] == before[m][0];
        ApartGrows(before, before[m] + [chunks[n]], chunkSize, space);
      } else {
        ApartSnoc(before, [chunks[n]], chunkSize, space);
      }
    }
  }

  /** Every chunk that was joined was one that, with those before it, was small. */
  ghost predicate Small(r: Run, chunkSize: int, space: Space) {
    forall i | 0 < i < |r| :: |JoinAll(r[..i], space).text| + |r[i].text| < chunkSize
  }

  lemma SmallGrows(r: Run, c: Chunk, chunkSize: int, space: Space)
    requires Small(r, chunkSize, space) && Joinable(JoinAll(r, space), c, chunkSize)
    ensures Small(r + [c], chunkSize, space)
  {
    forall i | 0 < i < |r + [c]|
      ensures |JoinAll((r + [c])[..i], space).text| + |(r + [c])[i].text| < chunkSize
    {
      assert (r + [c])[..i] == r[..i];
      if i == |r| { assert r[..i] == r; }
    }
  }

  lemma {:induction false} RunsAreSmall(chunks: seq<Chunk>, chunkSize: int, space: Space)
    ensures forall r | r in Runs(chunks, chunkSize, space) :: Small(r, chunkSize, space)
  {
    if chunks != [] {
      var n := |chunks| - 1;
      RunsAreSmall(chunks[..n], chunkSize, space);
      var before := Runs(chunks[..n], chunkSize, space);
      if before != [] && Joinable(JoinAll(before[|before| - 1], space), chunks[n], chunkSize) {
        assert before[|before| - 1] in before;
        SmallGrows(before[|before| - 1], chunks[n], chunkSize, space);
      }
    }
  }

  /** Nothing can be trimmed off the text. */
  ghost predicate Tight(t: Text, space: Space) {
    t != [] && !space(t[0]) && !space(t[|t| - 1])
  }

  /** The texts of a run, a line feed between neighbours. */
  function Lines(r: Run): Text {
    if r == [] then [] else if |r| == 1 then r[0].text
    else Lines(r[..|r| - 1]) + [10] + r[|r| - 1].text
  }

  lemma {:induction false} TrimTight(t: Text, space: Space)
    requires Tight(t, space)
    ensures Trim(t, space) == t
  {
    var a, b := TrimExact(t, space);
    assert t[0..|t|] == t;
  }

  /** Joining keeps all of the texts: they follow each other on lines of their own. */
  lemma {:induction false} JoinedText(r: Run, space: Space)
    requires r != [] && forall c | c in r :: Tight(c.text, space)
    ensures JoinAll(r, space).text == Lines(r) && Tight(Lines(r), space)
    ensures |r| == 1 ==> JoinAll(r, space) == r[0]
  {
    if |r| > 1 {
      var init, last := r[..|r| - 1], r[|r| - 1];
      assert r == init + [last] && last in r;
      JoinedText(init, space);
      TrimTight(Lines(init) + [10] + last.text, space);
    }
  }

  ghost predicate Apart(runs: seq<Run>, chunkSize: int, space: Space) {
    forall i, j {:trigger runs[i], runs[j]} | 0 <= i < j < |runs| && j == i + 1 :: KeptApart(runs[i], runs[j], chunkSize, space)
  }

  ghost predicate KeptApart(a: Run, b: Run, chunkSize: int, space: Space) {
    && b != []
    && var joined := JoinAll(a, space);
       joined.symbolName.Some? || b[0].symbolName.Some? || |joined.text| + |b[0].text| >= chunkSize
  }

  lemma ApartGrows(runs: seq<Run>, grown: Run, chunkSize: int, space: Space)
    requires Apart(runs, chunkSize, space) && runs != [] && grown != []
    requires runs[|runs| - 1] != [] && grown[0] == runs[|runs| - 1][0]
    ensures Apart(runs[..|runs| - 1] + [grown], chunkSize, space)
  {
    var after := runs[..|runs| - 1] + [grown];
    forall i, j | 0 <= i < j < |after| && j == i + 1 ensures KeptApart(after[i], after[j], chunkSize, space) {
      assert KeptApart(runs[i], runs[j], chunkSize, space);
    }
  }

  lemma ApartSnoc(runs: seq<Run>, r: Run, chunkSize: int, space: Space)
    requires Apart(runs, chunkSize, space) && r != []
    requires runs != [] ==> !Joinable(JoinAll(runs[|runs| - 1], space), r[0], chunkSize)
    ensures Apart(runs + [r], chunkSize, space)
  {
    var after := runs + [r];
    forall i, j | 0 <= i < j < |after| && j == i + 1 ensures KeptApart(after[i], after[j], chunkSize, space) {
      if j < |runs| { assert KeptApart(runs[i], runs[j], chunkSize, space); }
    }
  }

  method MergeAdjacentSmallChunks(chunks: seq<Chunk>, chunkSize: int, space: Space) returns (merged: seq<Chunk>)
    ensures merged == Joined(Runs(chunks, chunkSize, space), space)
  {
    if |chunks| <= 1 {
      assert |chunks| == 1 ==> chunks[..0] == [];
      return chunks;
    }
    merged := [];
    var buffer := chunks[0];
    ghost var closed: seq<Run>, last: Run := [], [chunks[0]];
    assert chunks[..1][..0] == [] && chunks[..1] == [chunks[0]];
    for index := 1 to |chunks|
      invariant Runs(chunks[..index], chunkSize, space) == closed + [last]
      invariant merged == Joined(closed, space)
      invariant last != [] && buffer == JoinAll(last, space)
    {
      var current := chunks[index];
      RunsStep(chunks, index, chunkSize, space, closed, last);
      if Joinable(buffer, current, chunkSize) {
        JoinAllSnoc(last, current, space);
        last := last + [current];
        buffer := Join(buffer, current, space);
        continue;
      }
      JoinedSnoc(closed, last, space);
      closed, last := closed + [last], [current];
      merged := merged + [buffer];
      buffer := current;
    }
    assert chunks[..|chunks|] == chunks;
    JoinedSnoc(closed, last, space);
    merged := merged + [buffer];
  }
}
