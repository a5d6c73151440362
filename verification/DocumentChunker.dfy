/** Splitting the text of a document into overlapping chunks, each stripped of surrounding white space. */
module DocumentChunker {
  import Text

  datatype Chunk = Chunk(index: nat, text: string, startOffset: nat, endOffset: nat)

  function FullText(title: string, body: string): string {
    if Text.Strip(title) != "" then Text.Strip(title + "\n\n" + body) else Text.Strip(body)
  }

  /**
   The text of a document is its title, unless that is blank, with its body below, without white space at
   either end: no other character of either is left out.
   */
  lemma {:induction false} FullTextIsTitleAndBody(title: string, body: string) returns (a: nat, b: nat)
    ensures var whole := if Text.Blank(title) then body else title + "\n\n" + body;
            && a <= b <= |whole| && FullText(title, body) == whole[a..b]
            && forall p | 0 <= p < |whole| && !(a <= p < b) :: Text.IsSpace(whole[p])
  {
    var whole := if Text.Blank(title) then body else title + "\n\n" + body;
    Text.StripCuts(title);
    Text.StripCuts(whole);
    if Text.Blank(whole) {
      a, b := 0, 0;
    } else {
      a, b := Text.Start(whole), Text.End(whole);
    }
  }

  function WindowStart(w: nat, step: nat): nat {
    w * step
  }

  function WindowEnd(text: string, w: nat, size: nat, step: nat): nat {
    if WindowStart(w, step) + size < |text| then WindowStart(w, step) + size else |text|
  }

  predicate BlankBetween(text: string, lo: int, hi: int) {
    forall p | lo <= p < hi && 0 <= p < |text| :: Text.IsSpace(text[p])
  }

  /** The chunk is the text from `lo` to `hi`, between the first and the last character that is no white space. */
  ghost predicate IsCut(text: string, lo: nat, hi: nat, c: Chunk) {
    && lo <= c.startOffset < c.endOffset <= hi <= |text|
    && c.text == text[c.startOffset..c.endOffset]
    && !Text.IsSpace(text[c.startOffset]) && !Text.IsSpace(text[c.endOffset - 1])
    && BlankBetween(text, lo, c.startOffset) && BlankBetween(text, c.endOffset, hi)
  }

  ghost predicate OfWindow(text: string, size: nat, step: nat, c: Chunk) {
    IsCut(text, WindowStart(c.index, step), WindowEnd(text, c.index, size, step), c)
  }

  ghost predicate HasWindow(chunks: seq<Chunk>, w: nat) {
    exists c | c in chunks :: c.index == w
  }

  /** One chunk for every window that is not blank, in the order of the windows. */
  ghost predicate IsChunking(text: string, size: nat, step: nat, chunks: seq<Chunk>, windows: nat) {
    && (forall c | c in chunks :: OfWindow(text, size, step, c) && c.index < windows)
    && (forall i, j | 0 <= i < j < |chunks| :: chunks[i].index < chunks[j].index)
    && (forall w: nat | w < windows ::
          HasWindow(chunks, w) || BlankBetween(text, WindowStart(w, step), WindowEnd(text, w, size, step)))
  }

  /** The chunk of a window that holds `raw` from `lo` to `hi`, unless that is blank. */
  function ChunkOf(raw: string, lo: nat, hi: nat, w: nat): seq<Chunk>
    requires lo + |raw| == hi
  {
    Text.StripCuts(raw);
    if Text.Strip(raw) == "" then []
    else [Chunk(w, Text.Strip(raw), lo + (|raw| - |Text.LStrip(raw)|), hi - (|raw| - |Text.RStrip(raw)|))]
  }

  function ChunkAt(text: string, size: nat, step: nat, w: nat): seq<Chunk>
    requires WindowStart(w, step) < |text|
  {
    var lo, hi := WindowStart(w, step), WindowEnd(text, w, size, step);
    ChunkOf(text[lo..hi], lo, hi, w)
  }

  function ChunksUpTo(text: string, size: nat, step: nat, windows: nat): seq<Chunk>
    requires size > 0 && (windows > 0 ==> WindowStart(windows - 1, step) < |text|)
  {
    if windows == 0 then []
    else
      var w := windows - 1;
      NextWindow(w - 1, step);
      ChunksUpTo(text, size, step, w) + ChunkAt(text, size, step, w)
  }

  /** The body of the loop: the stripped text of a window with its offsets, or nothing. */
  method WindowText(raw: string, start: nat, end: nat, index: nat) returns (found: seq<Chunk>)
    requires start + |raw| == end
    ensures found == ChunkOf(raw, start, end, index)
  {
    var chunkText := Text.Strip(raw);
    if chunkText == "" {
      return [];
    }
    Text.StripCuts(raw);
    var adjustedStart := start + (|raw| - |Text.LStrip(raw)|);
    var adjustedEnd := end - (|raw| - |Text.RStrip(raw)|);
    return [Chunk(index, chunkText, adjustedStart, adjustedEnd)];
  }

  method ChunkText(text: string, size: nat, overlap: nat) returns (chunks: seq<Chunk>, windows: nat)
    requires overlap < size
    ensures IsChunking(text, size, size - overlap, chunks, windows)
    ensures WindowStart(windows, size - overlap) >= |text|
  {
    var step := size - overlap;
    chunks := [];
    windows := 0;
    var start := 0;
    while start < |text|
      invariant start == WindowStart(windows, step)
      invariant windows > 0 ==> WindowStart(windows - 1, step) < |text|
      invariant chunks == ChunksUpTo(text, size, step, windows)
      decreases |text| - start
    {
      var end := if start + size < |text| then start + size else |text|;
      var found := WindowText(text[start..end], start, end, windows);
      chunks := chunks + found;
      NextWindow(windows, step);
      assert WindowStart(windows + 1 - 1, step) < |text|;
      assert end == WindowEnd(text, windows, size, step);
      assert chunks == ChunksUpTo(text, size, step, windows + 1);
      windows := windows + 1;
      start := start + step;
    }
    UpToIsChunking(text, size, step, windows);
  }

  lemma {:induction false} UpToIsChunking(text: string, size: nat, step: nat, windows: nat)
    requires size > 0 && (windows > 0 ==> WindowStart(windows - 1, step) < |text|)
    ensures IsChunking(text, size, step, ChunksUpTo(text, size, step, windows), windows)
  {
    if windows > 0 {
      var w := windows - 1;
      var lo, hi := WindowStart(w, step), WindowEnd(text, w, size, step);
      NextWindow(w - 1, step);
      UpToIsChunking(text, size, step, w);
      var before := ChunksUpTo(text, size, step, w);
      if Text.Strip(text[lo..hi]) == "" {
        BlankWindow(text, lo, hi);
        SkipWindow(text, size, step, before, w);
        assert before + [] == before;
      } else {
        WindowCut(text, lo, hi, text[lo..hi], ChunkAt(text, size, step, w)[0]);
        AddChunk(text, size, step, before, w, ChunkAt(text, size, step, w)[0]);
      }
    }
  }

  lemma {:induction false} NextWindow(w: int, step: nat)
    requires w >= -1
    ensures w >= 0 ==> WindowStart(w + 1, step) == WindowStart(w, step) + step
  {
  }

  lemma {:induction false} WindowCut(text: string, lo: nat, hi: nat, raw: string, c: Chunk)
    requires lo <= hi <= |text| && raw == text[lo..hi] && ChunkOf(raw, lo, hi, c.index) == [c]
    ensures IsCut(text, lo, hi, c)
  {
    OffsetsAreCuts(raw, lo, hi, c);
    var a, b := c.startOffset - lo, c.endOffset - lo;
    CutSlice(text, lo, hi, raw, a, b);
    assert lo + a == c.startOffset && lo + b == c.endOffset;
    assert c.text == text[c.startOffset..c.endOffset];
  }

  lemma {:induction false} OffsetsAreCuts(raw: string, lo: nat, hi: nat, c: Chunk)
    requires lo + |raw| == hi && ChunkOf(raw, lo, hi, c.index) == [c]
    ensures lo <= c.startOffset < c.endOffset <= hi && c.text == raw[c.startOffset - lo..c.endOffset - lo]
    ensures Text.BlankIn(raw, 0, c.startOffset - lo) && Text.BlankIn(raw, c.endOffset - lo, |raw|)
    ensures !Text.IsSpace(raw[c.startOffset - lo]) && !Text.IsSpace(raw[c.endOffset - lo - 1])
  {
    Text.StripCuts(raw);
    Text.StrippedIsBlankOnlyIfEmpty(raw);
  }

  lemma {:induction false} CutSlice(text: string, lo: nat, hi: nat, raw: string, a: nat, b: nat)
    requires lo <= hi <= |text| && raw == text[lo..hi] && a < b <= |raw|
    requires Text.BlankIn(raw, 0, a) && Text.BlankIn(raw, b, |raw|)
    requires !Text.IsSpace(raw[a]) && !Text.IsSpace(raw[b - 1])
    ensures BlankBetween(text, lo, lo + a) && BlankBetween(text, lo + b, hi)
    ensures !Text.IsSpace(text[lo + a]) && !Text.IsSpace(text[lo + b - 1])
    ensures raw[a..b] == text[lo + a..lo + b]
  {
    forall k | 0 <= k < |raw| ensures raw[k] == text[lo + k] {
    }
    forall p | lo <= p < lo + a || lo + b <= p < hi ensures Text.IsSpace(text[p]) {
      assert text[p] == raw[p - lo];
    }
  }

  lemma {:induction false} BlankWindow(text: string, lo: nat, hi: nat)
    requires lo <= hi <= |text| && Text.Strip(text[lo..hi]) == ""
    ensures BlankBetween(text, lo, hi)
  {
    Text.StripCuts(text[lo..hi]);
    forall p | lo <= p < hi ensures Text.IsSpace(text[p]) {
      assert text[p] == text[lo..hi][p - lo];
    }
  }

  lemma {:induction false} AddChunk(text: string, size: nat, step: nat, chunks: seq<Chunk>, w: nat, c: Chunk)
    requires IsChunking(text, size, step, chunks, w) && OfWindow(text, size, step, c) && c.index == w
    ensures IsChunking(text, size, step, chunks + [c], w + 1)
  {
    assert (chunks + [c])[|chunks|] == c;
    forall v: nat | v < w + 1
      ensures HasWindow(chunks + [c], v) || BlankBetween(text, WindowStart(v, step), WindowEnd(text, v, size, step))
    {
      if v < w && HasWindow(chunks, v) {
        var d :| d in chunks && d.index == v;
        assert d in chunks + [c];
      } else if v == w {
        assert c in chunks + [c];
      }
    }
  }

  lemma {:induction false} SkipWindow(text: string, size: nat, step: nat, chunks: seq<Chunk>, w: nat)
    requires IsChunking(text, size, step, chunks, w)
    requires BlankBetween(text, WindowStart(w, step), WindowEnd(text, w, size, step))
    ensures IsChunking(text, size, step, chunks, w + 1)
  {
  }

  // What follows from being the chunking of a text

  /** Each chunk is the slice of the text at its offsets, not empty, and at most `size` long. */
  lemma {:induction false} ChunksAreSlices(text: string, size: nat, step: nat, chunks: seq<Chunk>, windows: nat,
                                           c: Chunk)
    requires IsChunking(text, size, step, chunks, windows) && c in chunks
    ensures c.startOffset <= c.endOffset <= |text| && c.text == text[c.startOffset..c.endOffset]
    ensures 0 < |c.text| <= size
  {
    assert OfWindow(text, size, step, c);
  }

  /** Neither the start nor the end offset ever decreases from one chunk to a later one. */
  lemma {:induction false} OffsetsNeverDecrease(text: string, size: nat, step: nat, chunks: seq<Chunk>, windows: nat,
                                                i: nat, j: nat)
    requires IsChunking(text, size, step, chunks, windows) && i < j < |chunks|
    ensures chunks[i].startOffset <= chunks[j].startOffset && chunks[i].endOffset <= chunks[j].endOffset
  {
    var c, d := chunks[i], chunks[j];
    assert OfWindow(text, size, step, c) && OfWindow(text, size, step, d);
    WindowsInOrder(c.index, d.index, step);
    OverlapInOrder(text, c, WindowStart(d.index, step), d);
  }

  lemma {:induction false} WindowsInOrder(w: nat, v: nat, step: nat)
    requires w <= v
    ensures WindowStart(w, step) <= WindowStart(v, step)
  {
    assert v * step == w * step + (v - w) * step;
  }

  lemma {:induction false} OverlapInOrder(text: string, c: Chunk, lo: nat, d: Chunk)
    requires c.startOffset < c.endOffset <= |text| && lo <= d.startOffset < d.endOffset <= |text|
    requires !Text.IsSpace(text[c.endOffset - 1]) && !Text.IsSpace(text[d.startOffset])
    requires !Text.IsSpace(text[c.startOffset]) && BlankBetween(text, lo, d.startOffset)
    requires exists hi :: c.endOffset <= hi && BlankBetween(text, d.endOffset, hi)
    requires exists from :: from <= lo && BlankBetween(text, from, c.startOffset)
    ensures c.startOffset <= d.startOffset && c.endOffset <= d.endOffset
  {
  }

  /** Every character that is no white space lies in some chunk. */
  lemma {:induction false} NonSpaceIsCovered(text: string, size: nat, step: nat, chunks: seq<Chunk>, windows: nat,
                                             p: nat)
    requires 0 < step <= size && IsChunking(text, size, step, chunks, windows)
    requires WindowStart(windows, step) >= |text|
    requires p < |text| && !Text.IsSpace(text[p])
    ensures exists c | c in chunks :: c.startOffset <= p < c.endOffset
  {
    var w := WindowAt(p, step);
    if windows <= w {
      WindowsInOrder(windows, w, step);
    }
    assert !BlankBetween(text, WindowStart(w, step), WindowEnd(text, w, size, step));
    assert HasWindow(chunks, w);
    var c :| c in chunks && c.index == w;
    assert OfWindow(text, size, step, c);
  }

  /**
   Consecutive chunks overlap: a character that is no white space lies in the chunk of every window that
   reaches over it, `size` characters from each multiple of `step`.
   */
  lemma {:induction false} OverlapIsCovered(text: string, size: nat, step: nat, chunks: seq<Chunk>, windows: nat,
                                            p: nat, w: nat)
    requires 0 < step <= size && IsChunking(text, size, step, chunks, windows)
    requires WindowStart(windows, step) >= |text|
    requires p < |text| && !Text.IsSpace(text[p]) && w * step <= p < w * step + size
    ensures exists c | c in chunks :: c.index == w && c.startOffset <= p < c.endOffset
  {
    if windows <= w {
      WindowsInOrder(windows, w, step);
    }
    assert !BlankBetween(text, WindowStart(w, step), WindowEnd(text, w, size, step));
    assert HasWindow(chunks, w);
    var c :| c in chunks && c.index == w;
    assert OfWindow(text, size, step, c);
  }

  lemma {:induction false} WindowAt(p: nat, step: nat) returns (w: nat)
    requires step > 0
    ensures WindowStart(w, step) <= p < WindowStart(w, step) + step
    decreases p
  {
    if p < step {
      w := 0;
    } else {
      var v := WindowAt(p - step, step);
      w := v + 1;
      assert WindowStart(v + 1, step) == WindowStart(v, step) + step;
    }
  }

  /** There are no chunks exactly when the text is blank, which for the text of a document means empty. */
  lemma {:induction false} NoChunksIffBlank(text: string, size: nat, step: nat, chunks: seq<Chunk>, windows: nat)
    requires 0 < step <= size && IsChunking(text, size, step, chunks, windows)
    requires WindowStart(windows, step) >= |text|
    ensures chunks == [] <==> Text.Blank(text)
  {
    if chunks == [] {
      forall p | 0 <= p < |text| ensures Text.IsSpace(text[p]) {
        if !Text.IsSpace(text[p]) {
          NonSpaceIsCovered(text, size, step, chunks, windows, p);
        }
      }
    } else {
      assert OfWindow(text, size, step, chunks[0]);
    }
  }

  lemma {:induction false} FullTextIsStripped(title: string, body: string)
    ensures Text.Blank(FullText(title, body)) <==> FullText(title, body) == ""
  {
    Text.StrippedIsBlankOnlyIfEmpty(title + "\n\n" + body);
    Text.StrippedIsBlankOnlyIfEmpty(body);
  }

  lemma {:induction false} NoChunksIffEmpty(title: string, body: string, size: nat, step: nat, chunks: seq<Chunk>,
                                            windows: nat)
    requires 0 < step <= size && IsChunking(FullText(title, body), size, step, chunks, windows)
    requires WindowStart(windows, step) >= |FullText(title, body)|
    ensures chunks == [] <==> FullText(title, body) == ""
  {
    var text := FullText(title, body);
    NoChunksIffBlank(text, size, step, chunks, windows);
    FullTextIsStripped(title, body);
  }

  /** The text as the chunks give it back: the covered positions hold their chunk's text, the rest a space. */
  ghost function LaidBack(chunks: seq<Chunk>, p: nat): char
    requires forall c | c in chunks :: c.startOffset + |c.text| == c.endOffset
  {
    if c :| c in chunks && c.startOffset <= p < c.endOffset then c.text[p - c.startOffset] else ' '
  }

  /** Laying the chunks back at their offsets reproduces the text, up to white space that no chunk holds. */
  lemma {:induction false} LayingBackReproduces(text: string, size: nat, step: nat, chunks: seq<Chunk>, windows: nat,
                                                p: nat)
    requires 0 < step <= size && IsChunking(text, size, step, chunks, windows)
    requires WindowStart(windows, step) >= |text| && p < |text|
    ensures forall c | c in chunks :: c.startOffset + |c.text| == c.endOffset
    ensures LaidBack(chunks, p) == text[p] || (LaidBack(chunks, p) == ' ' && Text.IsSpace(text[p]))
  {
    forall c | c in chunks ensures c.startOffset + |c.text| == c.endOffset
      ensures c.startOffset <= p < c.endOffset ==> c.text[p - c.startOffset] == text[p]
    {
      assert OfWindow(text, size, step, c);
    }
    if !Text.IsSpace(text[p]) {
      NonSpaceIsCovered(text, size, step, chunks, windows, p);
    }
  }
}
