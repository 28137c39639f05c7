/** The overlapping fixed-window chunker that turns a merged document into the records
    stored in the vector collection, and the shape those records take when read back. */
module Chunking {
  import opened Wrappers
  import opened Strings

  /** One chunk as `simple_chunk_text` builds it. */
  datatype Chunk = Chunk(id: string, text: string, startChar: nat, endChar: nat)

  /** The metadata stored beside a chunk; every key may be absent in a record read back. */
  datatype Metadata = Metadata(id: Option<string>, startChar: Option<int>, endChar: Option<int>)

  /** A record of the collection as `get_all_chunks_from_collection` returns it; the store
      may hand back no metadata at all for a record (Python's None). */
  datatype StoredChunk = StoredChunk(id: string, text: string, metadata: Option<Metadata>)

  /** A chunk is a non-empty stripped window of at most `chunkSize` characters of `text`. */
  predicate WellFormed(c: Chunk, text: string, chunkSize: int)
  {
    c.startChar < c.endChar <= |text| && c.endChar - c.startChar <= chunkSize
    && c.text == StripSlice(text, c.startChar, c.endChar) && c.text != ""
  }

  /** `f"chunk_{k}"`. */
  function ChunkId(k: nat): string
  {
    "chunk_" + NatToString(k)
  }

  lemma ChunkIdInjective(m: nat, n: nat)
    requires m != n
    ensures ChunkId(m) != ChunkId(n)
  {
    NatToStringInjective(m, n);
    assert ChunkId(m)[6..] == NatToString(m);
    assert ChunkId(n)[6..] == NatToString(n);
  }

  /** The bounds `[lo, hi)` of one window of the text. */
  datatype Window = Window(lo: nat, hi: nat)

  /** The end of the window starting at `start`: `min(start + chunk_size, len(text))`. */
  function WindowEnd(textLen: nat, chunkSize: int, start: nat): int
  {
    if start + chunkSize < textLen then start + chunkSize else textLen
  }

  /** The windows the loop of `simple_chunk_text` visits from `start` on, for a text of
      length `textLen`: the next window starts `overlap` characters before the current one
      ends, and the loop stops after a window that reaches the end of the text. (The source
      clamps the next start at 0; with `overlap < chunkSize` the next start is always past
      the current one, so the clamp never applies.) */
  function WindowsFrom(textLen: nat, chunkSize: int, overlap: int, start: nat): seq<Window>
    requires 0 < chunkSize && overlap < chunkSize
    decreases textLen - start
  {
    if start >= textLen then []
    else
      var end := WindowEnd(textLen, chunkSize, start);
      [Window(start, end)] + (if end >= textLen then [] else WindowsFrom(textLen, chunkSize, overlap, end - overlap))
  }

  predicate ValidWindows(ws: seq<Window>, textLen: nat)
  {
    forall i | 0 <= i < |ws| :: ws[i].lo < ws[i].hi <= textLen
  }

  predicate Increasing(ws: seq<Window>)
  {
    forall i, j | 0 <= i < j < |ws| :: ws[i].lo < ws[j].lo
  }

  predicate Covers(ws: seq<Window>, p: nat)
  {
    exists i | 0 <= i < |ws| :: ws[i].lo <= p < ws[i].hi
  }

  /** The stripped text of each window. */
  function WindowTexts(text: string, ws: seq<Window>): (ts: seq<string>)
    requires ValidWindows(ws, |text|)
    ensures |ts| == |ws|
  {
    if ws == [] then [] else [StripSlice(text, ws[0].lo, ws[0].hi)] + WindowTexts(text, ws[1..])
  }

  lemma {:induction false} WindowTextsAt(text: string, ws: seq<Window>, k: nat)
    requires ValidWindows(ws, |text|) && k < |ws|
    ensures WindowTexts(text, ws)[k] == StripSlice(text, ws[k].lo, ws[k].hi)
  {
    if k > 0 {
      WindowTextsAt(text, ws[1..], k - 1);
    }
  }

  /** The chunks a list of windows yields, given the stripped text `ts[k]` of each window
      `ws[k]`, numbered from `nextId`: a window that strips to nothing is skipped without
      using up an id. */
  function ChunksOf(ts: seq<string>, ws: seq<Window>, nextId: nat): (r: seq<Chunk>)
    requires |ts| == |ws|
    ensures |r| <= |ws|
  {
    if ws == [] then []
    else
      var here := if ts[0] != "" then [Chunk(ChunkId(nextId), ts[0], ws[0].lo, ws[0].hi)] else [];
      here + ChunksOf(ts[1..], ws[1..], nextId + |here|)
  }

  /** The chunks of the windows from `start` on, numbered from `nextId`. */
  function ChunksFrom(text: string, chunkSize: int, overlap: int, start: nat, nextId: nat): seq<Chunk>
    requires 0 < chunkSize && overlap < chunkSize
  {
    var ws := WindowsFrom(|text|, chunkSize, overlap, start);
    WindowsValid(|text|, chunkSize, overlap, start);
    ChunksOf(WindowTexts(text, ws), ws, nextId)
  }

  /** What `simple_chunk_text(text, chunk_size, overlap)` returns. */
  function Chunks(text: string, chunkSize: int, overlap: int): seq<Chunk>
    requires 0 < chunkSize && overlap < chunkSize
  {
    ChunksFrom(text, chunkSize, overlap, 0, 0)
  }

  /** Every window from `start` on is non-empty, inside the text, no wider than
      `chunkSize` and starts at or after `start`; there is one exactly when `start` is
      inside the text, and the first one starts at `start`. */
  lemma {:induction false} WindowsValid(textLen: nat, chunkSize: int, overlap: int, start: nat)
    requires 0 < chunkSize && overlap < chunkSize
    ensures ValidWindows(WindowsFrom(textLen, chunkSize, overlap, start), textLen)
    ensures forall w | w in WindowsFrom(textLen, chunkSize, overlap, start) ::
      start <= w.lo && w.hi - w.lo <= chunkSize
    ensures start < textLen <==> WindowsFrom(textLen, chunkSize, overlap, start) != []
    decreases textLen - start
  {
    if start < textLen {
      var end := WindowEnd(textLen, chunkSize, start);
      if end < textLen {
        WindowsValid(textLen, chunkSize, overlap, end - overlap);
        var ws := WindowsFrom(textLen, chunkSize, overlap, start);
        var rest := WindowsFrom(textLen, chunkSize, overlap, end - overlap);
        assert ws == [Window(start, end)] + rest;
        forall i | 0 < i < |ws| ensures ws[i] == rest[i - 1] {}
      }
    }
  }

  /** Window starts strictly increase. */
  lemma {:induction false} WindowsIncreasing(textLen: nat, chunkSize: int, overlap: int, start: nat)
    requires 0 < chunkSize && overlap < chunkSize
    ensures Increasing(WindowsFrom(textLen, chunkSize, overlap, start))
    decreases textLen - start
  {
    if start < textLen {
      var end := WindowEnd(textLen, chunkSize, start);
      var next := if end >= textLen then textLen else end - overlap;
      WindowsFromStep(textLen, chunkSize, overlap, start, end, next);
      WindowsIncreasing(textLen, chunkSize, overlap, next);
      WindowsValid(textLen, chunkSize, overlap, next);
      IncreasingCons(Window(start, end), WindowsFrom(textLen, chunkSize, overlap, next));
    }
  }

  lemma IncreasingCons(w: Window, rest: seq<Window>)
    requires Increasing(rest) && forall v | v in rest :: w.lo < v.lo
    ensures Increasing([w] + rest)
  {
    var ws := [w] + rest;
    forall i, j | 0 <= i < j < |ws| ensures ws[i].lo < ws[j].lo {
      assert ws[j] == rest[j - 1] && ws[j] in rest;
      if i > 0 {
        assert ws[i] == rest[i - 1];
      }
    }
  }

  /** With `overlap >= 0` the windows leave no gap: every position from `start` to the end
      of the text lies in one. */
  lemma {:induction false} WindowsCover(textLen: nat, chunkSize: int, overlap: int, start: nat, p: nat)
    requires 0 < chunkSize && 0 <= overlap < chunkSize
    requires start <= p < textLen
    ensures Covers(WindowsFrom(textLen, chunkSize, overlap, start), p)
    decreases textLen - start
  {
    var ws := WindowsFrom(textLen, chunkSize, overlap, start);
    var end := WindowEnd(textLen, chunkSize, start);
    assert ws[0] == Window(start, end);
    if p >= end {
      var rest := WindowsFrom(textLen, chunkSize, overlap, end - overlap);
      WindowsCover(textLen, chunkSize, overlap, end - overlap, p);
      var i :| 0 <= i < |rest| && rest[i].lo <= p < rest[i].hi;
      assert ws[i + 1] == rest[i];
    }
  }

  /** The ids of `cs` are `chunk_n, chunk_{n+1}, …` in order. */
  predicate NumberedFrom(cs: seq<Chunk>, n: nat)
  {
    forall i | 0 <= i < |cs| :: cs[i].id == ChunkId(n + i)
  }

  /** Ids count up from `nextId` without gaps. */
  lemma {:induction false} ChunksOfIds(ts: seq<string>, ws: seq<Window>, nextId: nat)
    requires |ts| == |ws|
    ensures NumberedFrom(ChunksOf(ts, ws, nextId), nextId)
  {
    if ws != [] {
      ChunksOfCons(ts, ws, nextId);
      if ts[0] == "" {
        ChunksOfIds(ts[1..], ws[1..], nextId);
      } else {
        ChunksOfIds(ts[1..], ws[1..], nextId + 1);
        NumberedCons(Chunk(ChunkId(nextId), ts[0], ws[0].lo, ws[0].hi), ChunksOf(ts[1..], ws[1..], nextId + 1), nextId);
      }
    }
  }

  lemma NumberedCons(c: Chunk, rest: seq<Chunk>, n: nat)
    requires c.id == ChunkId(n) && NumberedFrom(rest, n + 1)
    ensures NumberedFrom([c] + rest, n)
  {
    var cs := [c] + rest;
    forall i | 0 <= i < |cs| ensures cs[i].id == ChunkId(n + i) {
      if i > 0 {
        assert cs[i] == rest[i - 1];
        assert n + 1 + (i - 1) == n + i;
      }
    }
  }


  /** Each chunk of `cs` is the non-empty text `ts[k]` of a window `ws[k]`, with that
      window's bounds. */
  predicate FromWindows(cs: seq<Chunk>, ts: seq<string>, ws: seq<Window>)
    requires |ts| == |ws|
  {
    forall c | c in cs ::
      c.text != "" && exists k | 0 <= k < |ws| :: ws[k] == Window(c.startChar, c.endChar) && ts[k] == c.text
  }

  /** Each chunk is the non-empty text of one of the windows, with that window's bounds. */
  lemma {:induction false} ChunksOfSource(ts: seq<string>, ws: seq<Window>, nextId: nat)
    requires |ts| == |ws|
    ensures FromWindows(ChunksOf(ts, ws, nextId), ts, ws)
  {
    if ws != [] {
      var here := if ts[0] != "" then [Chunk(ChunkId(nextId), ts[0], ws[0].lo, ws[0].hi)] else [];
      var rest := ChunksOf(ts[1..], ws[1..], nextId + |here|);
      ChunksOfSource(ts[1..], ws[1..], nextId + |here|);
      forall c: Chunk | c in here + rest
        ensures c.text != "" && exists k | 0 <= k < |ws| :: ws[k] == Window(c.startChar, c.endChar) && ts[k] == c.text
      {
        if c in rest {
          var k :| 0 <= k < |ws[1..]| && ws[1..][k] == Window(c.startChar, c.endChar) && ts[1..][k] == c.text;
          assert ws[k + 1] == ws[1..][k] && ts[k + 1] == ts[1..][k];
        } else {
          assert ws[0] == Window(c.startChar, c.endChar) && ts[0] == c.text;
        }
      }
    }
  }

  /** Chunk starts strictly increase. */
  predicate StartsIncreasing(cs: seq<Chunk>)
  {
    forall i, j | 0 <= i < j < |cs| :: cs[i].startChar < cs[j].startChar
  }

  /** Chunks start where their windows start, so a bound below every window start is
      below every chunk start. */
  lemma {:induction false} ChunksOfStartAbove(ts: seq<string>, ws: seq<Window>, nextId: nat, bound: int)
    requires |ts| == |ws|
    requires forall w | w in ws :: bound < w.lo
    ensures forall c | c in ChunksOf(ts, ws, nextId) :: bound < c.startChar
  {
    if ws != [] {
      assert ws[0] in ws;
      assert forall w | w in ws[1..] :: w in ws;
      if ts[0] == "" {
        ChunksOfStartAbove(ts[1..], ws[1..], nextId, bound);
      } else {
        ChunksOfStartAbove(ts[1..], ws[1..], nextId + 1, bound);
      }
    }
  }

  /** Chunks keep the order of their windows: with strictly increasing window starts,
      chunk starts strictly increase. */
  lemma {:induction false} ChunksOfIncreasing(ts: seq<string>, ws: seq<Window>, nextId: nat)
    requires |ts| == |ws|
    requires Increasing(ws)
    ensures StartsIncreasing(ChunksOf(ts, ws, nextId))
  {
    if ws != [] {
      var cs := ChunksOf(ts, ws, nextId);
      assert Increasing(ws[1..]) by {
        forall i, j | 0 <= i < j < |ws[1..]| ensures ws[1..][i].lo < ws[1..][j].lo {
          assert ws[1..][i] == ws[i + 1] && ws[1..][j] == ws[j + 1];
        }
      }
      if ts[0] == "" {
        assert cs == ChunksOf(ts[1..], ws[1..], nextId);
        ChunksOfIncreasing(ts[1..], ws[1..], nextId);
      } else {
        var rest := ChunksOf(ts[1..], ws[1..], nextId + 1);
        ChunksOfIncreasing(ts[1..], ws[1..], nextId + 1);
        forall w | w in ws[1..] ensures ws[0].lo < w.lo {
          var k :| 0 <= k < |ws[1..]| && ws[1..][k] == w;
          assert ws[k + 1] == w;
        }
        ChunksOfStartAbove(ts[1..], ws[1..], nextId + 1, ws[0].lo);
        assert cs == [Chunk(ChunkId(nextId), ts[0], ws[0].lo, ws[0].hi)] + rest;
        forall i, j | 0 <= i < j < |cs| ensures cs[i].startChar < cs[j].startChar {
          assert cs[j] == rest[j - 1] && rest[j - 1] in rest;
          if i > 0 {
            assert cs[i] == rest[i - 1];
          }
        }
      }
    }
  }

  /** A window whose text is not empty yields a chunk with exactly its bounds. */
  lemma {:induction false} ChunksOfKeeps(ts: seq<string>, ws: seq<Window>, nextId: nat, k: nat)
    requires |ts| == |ws| && k < |ws| && ts[k] != ""
    ensures exists c | c in ChunksOf(ts, ws, nextId) :: c.startChar == ws[k].lo && c.endChar == ws[k].hi
  {
    var here := if ts[0] != "" then [Chunk(ChunkId(nextId), ts[0], ws[0].lo, ws[0].hi)] else [];
    var rest := ChunksOf(ts[1..], ws[1..], nextId + |here|);
    var cs := ChunksOf(ts, ws, nextId);
    assert cs == here + rest;
    if k == 0 {
      assert cs[0] == here[0];
    } else {
      assert ws[1..][k - 1] == ws[k] && ts[1..][k - 1] == ts[k];
      ChunksOfKeeps(ts[1..], ws[1..], nextId + |here|, k - 1);
      var c :| c in rest && c.startChar == ws[k].lo && c.endChar == ws[k].hi;
      assert c in cs;
    }
  }

  /** One turn of the chunker's loop: the window at `start` contributes its strip, if not
      empty, under the next id, and the rest comes from the next window on. */
  lemma ChunksFromStep(text: string, chunkSize: int, overlap: int, start: nat, end: nat, next: nat, nextId: nat)
    requires 0 < chunkSize && overlap < chunkSize && start < |text|
    requires end == WindowEnd(|text|, chunkSize, start)
    requires next == if end >= |text| then |text| else end - overlap
    ensures Strip(text[start..end]) != "" ==>
      ChunksFrom(text, chunkSize, overlap, start, nextId)
      == [Chunk(ChunkId(nextId), Strip(text[start..end]), start, end)] + ChunksFrom(text, chunkSize, overlap, next, nextId + 1)
    ensures Strip(text[start..end]) == "" ==>
      ChunksFrom(text, chunkSize, overlap, start, nextId) == ChunksFrom(text, chunkSize, overlap, next, nextId)
  {
    WindowsFromStep(|text|, chunkSize, overlap, start, end, next);
    var ws := WindowsFrom(|text|, chunkSize, overlap, start);
    var rest := WindowsFrom(|text|, chunkSize, overlap, next);
    WindowsValid(|text|, chunkSize, overlap, start);
    WindowsValid(|text|, chunkSize, overlap, next);
    assert ws[1..] == rest;
    var ts := WindowTexts(text, ws);
    assert ts[1..] == WindowTexts(text, rest);
    ChunksOfCons(ts, ws, nextId);
    StripSliceIsStrip(text, start, end);
  }

  /** The windows from `start` are the window at `start` followed by the windows from the
      next start. */
  lemma WindowsFromStep(textLen: nat, chunkSize: int, overlap: int, start: nat, end: nat, next: nat)
    requires 0 < chunkSize && overlap < chunkSize && start < textLen
    requires end == WindowEnd(textLen, chunkSize, start)
    requires next == if end >= textLen then textLen else end - overlap
    ensures WindowsFrom(textLen, chunkSize, overlap, start)
      == [Window(start, end)] + WindowsFrom(textLen, chunkSize, overlap, next)
  {
    if end >= textLen {
      assert WindowsFrom(textLen, chunkSize, overlap, next) == [];
    }
  }

  lemma ChunksOfCons(ts: seq<string>, ws: seq<Window>, nextId: nat)
    requires |ts| == |ws| && ws != []
    ensures ChunksOf(ts, ws, nextId)
      == if ts[0] != "" then [Chunk(ChunkId(nextId), ts[0], ws[0].lo, ws[0].hi)] + ChunksOf(ts[1..], ws[1..], nextId + 1)
         else ChunksOf(ts[1..], ws[1..], nextId)
  {
  }

  /** `simple_chunk_text`: slide the window, keep the windows that do not strip to nothing. */
  method SimpleChunkText(text: string, chunkSize: int, overlap: int) returns (chunks: seq<Chunk>)
    requires 0 < chunkSize && overlap < chunkSize
    ensures chunks == Chunks(text, chunkSize, overlap)
  {
    chunks := [];
    var start: nat := 0;
    var chunkId: nat := 0;
    while start < |text|
      invariant chunkId == |chunks|
      invariant chunks + ChunksFrom(text, chunkSize, overlap, start, chunkId) == Chunks(text, chunkSize, overlap)
      decreases |text| - start
    {
      var end := if start + chunkSize < |text| then start + chunkSize else |text|;
      var chunkText := Strip(text[start..end]);
      var next := end - overlap;
      ChunksFromStep(text, chunkSize, overlap, start, end, if end >= |text| then |text| else next, chunkId);
      if chunkText != "" {
        var c := Chunk(ChunkId(chunkId), chunkText, start, end);
        assert chunks + ([c] + ChunksFrom(text, chunkSize, overlap, if end >= |text| then |text| else next, chunkId + 1))
          == (chunks + [c]) + ChunksFrom(text, chunkSize, overlap, if end >= |text| then |text| else next, chunkId + 1);
        chunks := chunks + [c];
        chunkId := chunkId + 1;
      }
      if end >= |text| {
        assert ChunksFrom(text, chunkSize, overlap, |text|, chunkId) == [];
        return;
      }
      if next < 0 { next := 0; }
      start := next;
    }
  }

  /** The chunker's promises: ids `chunk_0, chunk_1, …` in order; each chunk is the
      non-empty strip of a window `0 <= start < end <= |text|` no wider than `chunkSize`;
      starts strictly increase. */
  lemma ChunksShape(text: string, chunkSize: int, overlap: int)
    requires 0 < chunkSize && overlap < chunkSize
    ensures NumberedFrom(Chunks(text, chunkSize, overlap), 0)
    ensures StartsIncreasing(Chunks(text, chunkSize, overlap))
    ensures forall c | c in Chunks(text, chunkSize, overlap) :: WellFormed(c, text, chunkSize)
  {
    var ws := WindowsFrom(|text|, chunkSize, overlap, 0);
    WindowsValid(|text|, chunkSize, overlap, 0);
    WindowsIncreasing(|text|, chunkSize, overlap, 0);
    var ts := WindowTexts(text, ws);
    var cs := ChunksOf(ts, ws, 0);
    assert cs == Chunks(text, chunkSize, overlap);
    ChunksOfSource(ts, ws, 0);
    ChunksOfIds(ts, ws, 0);
    ChunksOfIncreasing(ts, ws, 0);
    forall c | c in cs ensures WellFormed(c, text, chunkSize) {
      var k :| 0 <= k < |ws| && ws[k] == Window(c.startChar, c.endChar) && ts[k] == c.text;
      assert ws[k] in ws;
      WindowTextsAt(text, ws, k);
    }
  }

  /** A chunk's text is exactly Python's `text[start:end].strip()`. */
  lemma WellFormedIsStrip(c: Chunk, text: string, chunkSize: int)
    requires WellFormed(c, text, chunkSize)
    ensures c.text == Strip(text[c.startChar..c.endChar]) && !Blank(text[c.startChar..c.endChar])
  {
    StripSliceIsStrip(text, c.startChar, c.endChar);
    StripEmptyIffBlank(text[c.startChar..c.endChar]);
  }

  /** Empty text gives no chunks. */
  lemma ChunksOfEmpty(chunkSize: int, overlap: int)
    requires 0 < chunkSize && overlap < chunkSize
    ensures Chunks("", chunkSize, overlap) == []
  {
  }

  /** With `overlap >= 0` no text is skipped: every non-whitespace character lies inside
      some chunk's window. */
  lemma ChunksCover(text: string, chunkSize: int, overlap: int, p: nat)
    requires 0 < chunkSize && 0 <= overlap < chunkSize
    requires p < |text| && !IsSpace(text[p])
    ensures exists c | c in Chunks(text, chunkSize, overlap) :: c.startChar <= p < c.endChar
  {
    var ws := WindowsFrom(|text|, chunkSize, overlap, 0);
    WindowsValid(|text|, chunkSize, overlap, 0);
    WindowsCover(|text|, chunkSize, overlap, 0, p);
    var k :| 0 <= k < |ws| && ws[k].lo <= p < ws[k].hi;
    var ts := WindowTexts(text, ws);
    assert Chunks(text, chunkSize, overlap) == ChunksOf(ts, ws, 0);
    WindowTextsAt(text, ws, k);
    NonBlankWindow(text, ws[k].lo, ws[k].hi, p);
    ChunksOfKeeps(ts, ws, 0, k);
    var c :| c in ChunksOf(ts, ws, 0) && c.startChar == ws[k].lo && c.endChar == ws[k].hi;
  }

  /** A window holding a non-whitespace character does not strip to nothing. */
  lemma NonBlankWindow(text: string, lo: nat, hi: nat, p: nat)
    requires lo <= p < hi <= |text| && !IsSpace(text[p])
    ensures StripSlice(text, lo, hi) != ""
  {
    StripSliceIsStrip(text, lo, hi);
    StripEmptyIffBlank(text[lo..hi]);
    assert text[lo..hi][p - lo] == text[p];
  }

  /** The metadata `upsert_chunks_to_chroma` stores: offsets only, no id. */
  function StoredMetadata(c: Chunk): Metadata
  {
    Metadata(None, Some(c.startChar), Some(c.endChar))
  }
}
