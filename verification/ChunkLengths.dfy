/** How long the emitted chunks are: a chunk is its window and what it goes back, so it can be longer than
    the size that bounds the window. */
module ChunkLengths {
  import opened PyText
  import opened ChunkSpec
  import opened ChunkLaws
  import opened ChunkCounts

  /** A chunk is as long as its window and the overlap, as far as there is text before the window. */
  lemma {:induction false} ChunkLength(size: Size, overlap: nat, seps: seq<string>, text: string, i: nat)
    requires i < |Chunks(size, overlap, seps, text)|
    ensures var cs, ws := Chunks(size, overlap, seps, text), Windows(size, seps, text);
      i < |ws| && 0 < ws[i].Len() <= size && |cs[i].text| == ws[i].Len() + Min(overlap, ws[i].start)
  {
    OverlapLaw(size, overlap, seps, text, i);
    ChunksAreStretched(size, overlap, seps, text);
    StretchedLaw(size, overlap, text, Windows(size, seps, text), i);
  }

  /** Character by character, every group but the last is full. */
  lemma {:induction false} CharGroupsFull(size: Size, text: string, pieces: seq<Piece>, cur: Option<Span>, at: nat)
    requires Spell(text, pieces, at) && CurAt(cur, at)
    requires forall p :: p in pieces ==> |p.text| == 1
    ensures forall g :: g in Greedy(size, pieces, cur) ==> g.end == |text| || g.Len() >= size
    decreases |pieces|
  {
    if pieces != [] {
      var p, rest := pieces[0], pieces[1..];
      assert p in pieces;
      if cur.Some? && cur.value.Len() + |p.text| <= size {
        CharGroupsFull(size, text, rest, Some(Span(cur.value.start, p.End())), p.End());
      } else {
        CharGroupsFull(size, text, rest, Some(p.AsSpan()), p.End());
      }
    }
  }

  lemma {:induction false} CharWindowsFull(size: Size, seps: seq<string>, text: string)
    requires Pick(seps, text) == ""
    ensures forall w :: w in Windows(size, seps, text) ==> w.end <= |text| && (w.end == |text| || w.Len() >= size)
  {
    var pieces := Pieces(text, "");
    var groups := Groups(size, seps, text);
    PiecesSpell(text, "");
    GreedyTiles(size, text, pieces, None, 0);
    TilesWithin(groups, 0, |text|);
    GreedyFits(size, text, pieces, None, 0);
    CharGroupsFull(size, text, pieces, None, 0);
    RefineNothing(size, seps, text, "", groups);
  }

  /** Cut into characters, the first window is full unless the text ends in it, and so is the second. */
  lemma {:induction false} FirstTwoWindows(size: Size, seps: seq<string>, text: string)
    requires Pick(seps, text) == "" && text != ""
    ensures var ws := Windows(size, seps, text);
      && ws != [] && ws[0] == Span(0, Min(size, |text|))
      && (|text| <= size ==> |ws| == 1)
      && (|text| > size ==> |ws| > 1 && ws[1] == Span(size, Min(2 * size, |text|)))
      && (|text| <= 2 * size ==> |ws| <= 2)
  {
    var ws := Windows(size, seps, text);
    CharWindowsFull(size, seps, text);
    WindowsPartition(size, seps, text);
    assert ws[0] in ws;
    TilesWithin(ws[1..], ws[0].end, |text|);
    if |ws| > 1 {
      assert ws[1] in ws && ws[1..][0] == ws[1];
      TilesWithin(ws[1..][1..], ws[1].end, |text|);
      assert |ws| > 2 ==> ws[1..][1..][0] == ws[2];
    }
  }

  /** So the second chunk of a text that is longer than a window is longer than its window by the overlap. */
  lemma {:induction false} SecondChunk(size: Size, overlap: nat, seps: seq<string>, text: string)
    requires Pick(seps, text) == "" && |text| > size && overlap < size
    ensures var cs := Chunks(size, overlap, seps, text);
      |cs| > 1 && |cs[1].text| == Min(2 * size, |text|) - size + overlap
  {
    FirstTwoWindows(size, seps, text);
    ChunksAreStretched(size, overlap, seps, text);
    ChunkLength(size, overlap, seps, text, 1);
  }

  /** Cut into characters, all chunks keep to the size if and only if there is no overlap or the text ends
      before the second chunk is too long. */
  lemma {:induction false} ChunksFitExactly(size: Size, overlap: nat, seps: seq<string>, text: string)
    requires Pick(seps, text) == "" && overlap < size
    ensures (forall c :: c in Chunks(size, overlap, seps, text) ==> |c.text| <= size) <==>
      overlap == 0 || |text| + overlap <= 2 * size
  {
    var cs := Chunks(size, overlap, seps, text);
    if overlap == 0 || |text| + overlap <= 2 * size {
      forall c | c in cs ensures |c.text| <= size {
        var i :| 0 <= i < |cs| && cs[i] == c;
        ChunkLength(size, overlap, seps, text, i);
        if overlap > 0 {
          FirstTwoWindows(size, seps, text);
        }
      }
    } else {
      SecondChunk(size, overlap, seps, text);
      assert cs[1] in cs;
    }
  }
}
