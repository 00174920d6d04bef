/** The laws of the chunker: its windows partition the text, and its chunks are those windows
    stretched back by the overlap. */
module ChunkLaws {
  import opened PyText
  import opened ChunkSpec

  // ---------- Tilings ----------

  lemma {:induction false} TilesConcat(a: seq<Span>, b: seq<Span>, lo: nat, mid: nat, hi: nat)
    requires Tiles(a, lo, mid) && Tiles(b, mid, hi)
    ensures Tiles(a + b, lo, hi)
    decreases |a|
  {
    TilesWithin(b, mid, hi);
    if a == [] {
      assert a + b == b;
    } else {
      TilesConcat(a[1..], b, a[0].end, mid, hi);
      TilesWithin(a[1..], a[0].end, mid);
      assert (a + b)[1..] == a[1..] + b;
    }
  }

  /** Adjacent non-empty spans, seen by position. */
  predicate Linked(ws: seq<Span>, lo: nat, hi: nat) {
    && (ws != [] ==> ws[0].start == lo && ws[|ws| - 1].end == hi)
    && (forall i :: 0 <= i < |ws| ==> lo <= ws[i].start < ws[i].end <= hi)
    && (forall i :: 0 < i < |ws| ==> ws[i - 1].end == ws[i].start)
  }

  lemma {:induction false} TilesLinked(ws: seq<Span>, lo: nat, hi: nat)
    requires Tiles(ws, lo, hi)
    ensures Linked(ws, lo, hi)
    decreases |ws|
  {
    TilesWithin(ws, lo, hi);
    if ws != [] {
      var rest := ws[1..];
      TilesLinked(rest, ws[0].end, hi);
      forall i | 0 < i < |ws| ensures ws[i - 1].end == ws[i].start {
        if i > 1 {
          assert rest[i - 2].end == rest[i - 1].start;
        }
      }
    }
  }

  function Shift(ws: seq<Span>, off: nat): seq<Span> {
    seq(|ws|, i requires 0 <= i < |ws| => Span(off + ws[i].start, off + ws[i].end))
  }

  lemma {:induction false} ShiftTiles(ws: seq<Span>, off: nat, lo: nat, hi: nat)
    requires Tiles(ws, lo, hi)
    ensures Tiles(Shift(ws, off), off + lo, off + hi)
    decreases |ws|
  {
    if ws != [] {
      ShiftTiles(ws[1..], off, ws[0].end, hi);
      assert Shift(ws, off)[1..] == Shift(ws[1..], off);
    }
  }

  // ---------- The overlap pass ----------

  /** Window `i` stretched back by `overlap` characters, but never before the text. */
  function Stretched(overlap: nat, text: string, windows: seq<Span>, i: nat): Chunk
    requires i < |windows| && windows[i].start <= windows[i].end <= |text|
  {
    var start := Max(0, windows[i].start - overlap);
    Chunk(text[start..windows[i].end], i, start, windows[i].end)
  }

  /** The skip guard does not fire on a window that begins where the previous chunk ends. */
  lemma {:induction false} ExtendStretches(overlap: nat, text: string, windows: seq<Span>, i: nat, out: seq<Chunk>)
    requires i < |windows| && |out| == i && windows[i].start < windows[i].end <= |text|
    requires if i == 0 then windows[i].start == 0 else out[i - 1].charEnd == windows[i].start
    ensures Extend(overlap, text, out, windows[i], i == 0) == out + [Stretched(overlap, text, windows, i)]
  {
    var w := windows[i];
    var prevEnd := if out == [] then 0 else out[|out| - 1].charEnd;
    assert Rewound(overlap, prevEnd, w, i == 0) == Max(0, w.start - overlap);
  }

  /** On adjacent windows there is one chunk per window, numbered from 0. */
  lemma {:induction false} EmitClosed(overlap: nat, text: string, windows: seq<Span>, n: nat)
    requires Linked(windows, 0, |text|) && n <= |windows|
    ensures |Emit(overlap, text, windows, n)| == n
    ensures forall i :: 0 <= i < n ==> Emit(overlap, text, windows, n)[i] == Stretched(overlap, text, windows, i)
    decreases n
  {
    if n > 0 {
      var out := Emit(overlap, text, windows, n - 1);
      EmitClosed(overlap, text, windows, n - 1);
      if n > 1 {
        assert windows[n - 2].end == windows[n - 1].start;
        assert out[n - 2] == Stretched(overlap, text, windows, n - 2);
      }
      ExtendStretches(overlap, text, windows, n - 1, out);
    }
  }

  // ---------- Partition ----------

  /** A tiling by windows of at most `size` characters. */
  predicate Partition(ws: seq<Span>, size: Size, lo: nat, hi: nat) {
    Tiles(ws, lo, hi) && forall w :: w in ws ==> w.Len() <= size
  }

  lemma {:induction false} ShiftPartition(ws: seq<Span>, size: Size, off: nat, hi: nat)
    requires Partition(ws, size, 0, hi)
    ensures Partition(Shift(ws, off), size, off, off + hi)
  {
    ShiftTiles(ws, off, 0, hi);
    forall w | w in Shift(ws, off) ensures w.Len() <= size {
      var i :| 0 <= i < |ws| && w == Shift(ws, off)[i];
      assert ws[i] in ws;
    }
  }

  /** Without overlap each chunk has the span of its window. */
  lemma {:induction false} EmitSpans(text: string, ws: seq<Span>)
    requires Tiles(ws, 0, |text|)
    ensures var chunks := Emit(0, text, ws, |ws|);
      |chunks| == |ws|
      && forall i :: 0 <= i < |ws| ==> chunks[i].charStart == ws[i].start && chunks[i].charEnd == ws[i].end
  {
    TilesLinked(ws, 0, |text|);
    EmitClosed(0, text, ws, |ws|);
  }

  lemma {:induction false} ShiftOfSpans(chunks: seq<Chunk>, ws: seq<Span>, off: nat)
    requires |chunks| == |ws|
    requires forall i :: 0 <= i < |ws| ==> chunks[i].charStart == ws[i].start && chunks[i].charEnd == ws[i].end
    ensures SpansOf(chunks, off) == Shift(ws, off)
  {
  }

  /** Expanding an oversized piece is shifting the windows of its text. */
  lemma {:induction false} OversizedIsShift(size: Size, seps: seq<string>, text: string, g: Span, sep: string)
    requires g.start < g.end <= |text|
    requires Tiles(Windows(size, Finer(seps, sep), text[g.start..g.end]), 0, g.Len())
    ensures Oversized(size, seps, text, g, sep) == Shift(Windows(size, Finer(seps, sep), text[g.start..g.end]), g.start)
  {
    var sub := text[g.start..g.end];
    var ws := Windows(size, Finer(seps, sep), sub);
    EmitSpans(sub, ws);
    ShiftOfSpans(Emit(0, sub, ws, |ws|), ws, g.start);
  }

  /** The part of `Refine` that stands for the group `g`. */
  function Expansion(size: Size, seps: seq<string>, text: string, sep: string, g: Span): seq<Span>
    requires g.start <= g.end <= |text|
  {
    if g.Len() <= size then [g] else Oversized(size, seps, text, g, sep)
  }

  lemma {:induction false} SingletonPartition(g: Span, size: Size)
    requires g.start < g.end && g.Len() <= size
    ensures Partition([g], size, g.start, g.end)
  {
    assert Tiles([g][1..], g.end, g.end);
  }

  lemma {:induction false} ExpansionPartition(size: Size, seps: seq<string>, text: string, sep: string, g: Span)
    requires g.start < g.end <= |text|
    requires g.Len() > size ==> Rank(Finer(seps, sep)) < Rank(seps)
    ensures Partition(Expansion(size, seps, text, sep, g), size, g.start, g.end)
    ensures g.Len() > size ==>
      Expansion(size, seps, text, sep, g) == Shift(Windows(size, Finer(seps, sep), text[g.start..g.end]), g.start)
    decreases Rank(seps), 0
  {
    if g.Len() <= size {
      SingletonPartition(g, size);
    } else {
      var sub := text[g.start..g.end];
      var ws := Windows(size, Finer(seps, sep), sub);
      WindowsPartition(size, Finer(seps, sep), sub);
      assert |sub| == g.Len() && g.start + |sub| == g.end;
      ShiftPartition(ws, size, g.start, |sub|);
      OversizedIsShift(size, seps, text, g, sep);
      assert Expansion(size, seps, text, sep, g) == Shift(ws, g.start);
    }
  }

  lemma {:induction false} RefinePartition(
    size: Size, seps: seq<string>, text: string, sep: string, groups: seq<Span>, lo: nat)
    requires Refinable(size, seps, text, sep, groups) && Tiles(groups, lo, |text|)
    ensures Partition(Refine(size, seps, text, sep, groups), size, lo, |text|)
    decreases Rank(seps), 1, |groups|
  {
    if groups != [] {
      var g, rest := groups[0], groups[1..];
      ExpansionPartition(size, seps, text, sep, g);
      RefinePartition(size, seps, text, sep, rest, g.end);
      TilesConcat(Expansion(size, seps, text, sep, g), Refine(size, seps, text, sep, rest), lo, g.end, |text|);
    }
  }

  /** Whatever the separators, the windows are non-empty, at most `size` long, adjacent, and cover
      the text exactly. */
  lemma {:induction false} WindowsPartition(size: Size, seps: seq<string>, text: string)
    ensures Partition(Windows(size, seps, text), size, 0, |text|)
    decreases Rank(seps), 2
  {
    var sep := Pick(seps, text);
    PiecesSpell(text, sep);
    GreedyTiles(size, text, Pieces(text, sep), None, 0);
    RefinePartition(size, seps, text, sep, Groups(size, seps, text), 0);
  }

  /** Chunks are the stretched windows, also for the empty text. */
  lemma {:induction false} ChunksAreStretched(size: Size, overlap: nat, seps: seq<string>, text: string)
    ensures var cs, ws := Chunks(size, overlap, seps, text), Windows(size, seps, text);
      && Linked(ws, 0, |text|) && |cs| == |ws| && (forall w :: w in ws ==> w.Len() <= size)
      && forall i :: 0 <= i < |cs| ==> cs[i] == Stretched(overlap, text, ws, i)
  {
    var ws := Windows(size, seps, text);
    WindowsPartition(size, seps, text);
    TilesLinked(ws, 0, |text|);
    EmitClosed(overlap, text, ws, |ws|);
  }

  /** The overlap law. Chunk `i` is the text from `overlap` characters before window `i` (or from 0)
      to the end of window `i`. So ends strictly increase, starts never fall, each chunk goes back
      exactly `min(overlap, previous end)` characters, and is at most `size + overlap` long. */
  lemma {:induction false} OverlapLaw(size: Size, overlap: nat, seps: seq<string>, text: string, i: nat)
    requires i < |Chunks(size, overlap, seps, text)|
    ensures var cs, ws := Chunks(size, overlap, seps, text), Windows(size, seps, text);
      && |cs| == |ws| && ws[i].start < ws[i].end <= |text|
      && cs[i].chunkIndex == i && cs[i].charEnd == ws[i].end
      && cs[i].charStart == Max(0, ws[i].start - overlap)
      && cs[i].text == text[cs[i].charStart..cs[i].charEnd]
      && 0 < |cs[i].text| <= size + overlap
      && (i == 0 ==> cs[i].charStart == 0) && (i == |cs| - 1 ==> cs[i].charEnd == |text|)
      && (i + 1 < |cs| ==>
            && cs[i].charEnd < cs[i + 1].charEnd && cs[i].charStart <= cs[i + 1].charStart
            && cs[i].charEnd - cs[i + 1].charStart == Min(overlap, cs[i].charEnd))
  {
    ChunksAreStretched(size, overlap, seps, text);
    StretchedLaw(size, overlap, text, Windows(size, seps, text), i);
  }

  lemma {:induction false} StretchedLaw(size: Size, overlap: nat, text: string, ws: seq<Span>, i: nat)
    requires Linked(ws, 0, |text|) && (forall w :: w in ws ==> w.Len() <= size) && i < |ws|
    ensures ws[i].start < ws[i].end <= |text| && ws[i].Len() <= size
    ensures i == 0 ==> ws[i].start == 0
    ensures i == |ws| - 1 ==> ws[i].end == |text|
    ensures i + 1 < |ws| ==> ws[i].end == ws[i + 1].start < ws[i + 1].end <= |text|
  {
    assert ws[i] in ws;
  }

  /** A text has no chunks exactly when it is empty. */
  lemma {:induction false} ChunksEmpty(size: Size, overlap: nat, seps: seq<string>, text: string)
    ensures Chunks(size, overlap, seps, text) == [] <==> text == ""
  {
    ChunksAreStretched(size, overlap, seps, text);
    WindowsPartition(size, seps, text);
  }
}
