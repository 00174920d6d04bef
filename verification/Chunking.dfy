/** The recursive chunker as the program runs it: loops that update the current piece, window and
    output, proved to compute the functions of `ChunkSpec`. */
module Chunking {
  import opened PyText
  import opened ChunkSpec
  import opened ChunkLaws

  datatype RecursiveCharacterChunker =
    RecursiveCharacterChunker(chunkSize: int, chunkOverlap: int, separators: seq<string>)
  {
    /** What the constructor checks. */
    predicate Valid() { 0 < chunkSize && 0 <= chunkOverlap < chunkSize }

    static function Create(chunkSize: int, chunkOverlap: int, separators: seq<string>)
      : (r: Result<RecursiveCharacterChunker, string>)
      ensures r.Ok? <==> 0 < chunkSize && 0 <= chunkOverlap < chunkSize
      ensures r.Ok? ==> r.value == RecursiveCharacterChunker(chunkSize, chunkOverlap, separators) && r.value.Valid()
    {
      if chunkSize <= 0 then Err("chunk_size must be > 0")
      else if chunkOverlap < 0 then Err("chunk_overlap must be >= 0")
      else if chunkOverlap >= chunkSize then Err("chunk_overlap must be < chunk_size")
      else Ok(RecursiveCharacterChunker(chunkSize, chunkOverlap, separators))
    }

    function ChunksOf(text: string): seq<Chunk>
      requires Valid()
    {
      Chunks(chunkSize, chunkOverlap, separators, text)
    }

    method Chunk(text: string) returns (chunks: seq<Chunk>)
      requires Valid()
      ensures chunks == ChunksOf(text)
      decreases Rank(separators), 3
    {
      if text == "" {
        return [];
      }
      var windows := BuildWindows(text);
      chunks := AddOverlap(windows, text);
    }

    method PickSeparator(text: string) returns (sep: string)
      ensures sep == Pick(separators, text)
    {
      for i := 0 to |separators|
        invariant Pick(separators, text) == Pick(separators[i..], text)
      {
        if separators[i] == "" || Contains(text, separators[i]) {
          return separators[i];
        }
      }
      return "";
    }

    method SplitWithPositions(text: string, sep: string) returns (pieces: seq<Piece>)
      ensures pieces == Pieces(text, sep)
    {
      if sep == "" {
        return seq(|text|, i requires 0 <= i < |text| => Piece(i, [text[i]]));
      }
      pieces := [];
      var start: nat := 0;
      CutsAfterIs(text, sep, [], 0);
      while true
        invariant start <= |text| && CutsAfter(text, sep, pieces, start) == Pieces(text, sep)
        decreases |text| - start
      {
        var idx := Find(text, sep, start);
        if idx == -1 {
          pieces := pieces + [Piece(start, text[start..])];
          return;
        }
        var end := idx + |sep|;
        pieces := pieces + [Piece(start, text[start..end])];
        start := end;
      }
    }

    /** The pieces that the loop ends with, from its state at `start`. */
    static function CutsAfter(text: string, sep: string, pieces: seq<Piece>, start: nat): seq<Piece>
      requires sep != "" && start <= |text|
      decreases |text| - start
    {
      var idx := Find(text, sep, start);
      if idx == -1 then pieces + [Piece(start, text[start..])]
      else CutsAfter(text, sep, pieces + [Piece(start, text[start..idx + |sep|])], idx + |sep|)
    }

    static lemma {:induction false} CutsAfterIs(text: string, sep: string, pieces: seq<Piece>, start: nat)
      requires sep != "" && start <= |text|
      ensures CutsAfter(text, sep, pieces, start) == pieces + Cuts(text, sep, start)
      decreases |text| - start
    {
      var idx := Find(text, sep, start);
      if idx != -1 {
        var piece, end := Piece(start, text[start..idx + |sep|]), idx + |sep|;
        CutsAfterIs(text, sep, pieces + [piece], end);
        FirstMoves(pieces, piece, Cuts(text, sep, end), Cuts(text, sep, start));
      }
    }

    method BuildWindows(text: string) returns (windows: seq<Span>)
      requires Valid()
      ensures windows == Windows(chunkSize, separators, text)
      ensures Partition(windows, chunkSize, 0, |text|)
      decreases Rank(separators), 2
    {
      var sep := PickSeparator(text);
      var pieces := SplitWithPositions(text, sep);
      PiecesFit(text);
      windows := GroupPieces(text, sep, pieces);
      RestIsWindows(text);
      WindowsPartition(chunkSize, separators, text);
    }

    /** The loop of `_build_windows`. */
    method GroupPieces(text: string, sep: string, pieces: seq<Piece>) returns (windows: seq<Span>)
      requires Valid() && Fit(text, sep, pieces)
      ensures windows == Rest(text, sep, pieces, 0, [], None)
      decreases Rank(separators), 1
    {
      windows := [];
      var curStart: Option<nat> := None;
      var curEnd: nat, curLen: nat := 0, 0;
      ghost var all := Rest(text, sep, pieces, 0, [], None);
      for i := 0 to |pieces|
        invariant all == Rest(text, sep, pieces, i, windows, Current(curStart, curEnd))
        invariant curStart.Some? ==> curLen == curEnd - curStart.value && 0 < i && curEnd == pieces[i - 1].End()
      {
        var p := pieces[i];
        if p.text == "" {
          continue;
        }
        var pieceLen := |p.text|;
        if curStart.None? {
          windows, curStart, curEnd, curLen := OpenWindow(text, sep, p, windows);
          continue;
        }
        if curLen + pieceLen <= chunkSize {
          curEnd := p.start + pieceLen;
          curLen := curLen + pieceLen;
        } else {
          windows := windows + [Span(curStart.value, curEnd)];
          windows, curStart, curEnd, curLen := OpenWindow(text, sep, p, windows);
        }
      }
      if curStart.Some? {
        windows := windows + [Span(curStart.value, curEnd)];
      }
    }

    /** Start a window at a piece, as both branches of the loop do; an oversized piece is expanded at once. */
    method OpenWindow(text: string, sep: string, p: Piece, windows: seq<Span>)
      returns (out: seq<Span>, curStart: Option<nat>, curEnd: nat, curLen: nat)
      requires Valid() && p.End() <= |text|
      requires |p.text| > chunkSize ==> Rank(Finer(separators, sep)) < Rank(separators)
      ensures if |p.text| <= chunkSize then out == windows && curStart == Some(p.start)
              else out == windows + Oversized(chunkSize, separators, text, p.AsSpan(), sep) && curStart == None
      ensures curStart.Some? ==> curEnd == p.End() && curLen == |p.text|
      decreases Rank(separators), 0
    {
      out := windows;
      curStart, curEnd, curLen := Some(p.start), p.start + |p.text|, |p.text|;
      if curLen > chunkSize {
        var expanded := ExpandOversized(text, p.start, curEnd, sep);
        out := out + expanded;
        curStart, curEnd, curLen := None, 0, 0;
      }
    }

    /** The pieces lie in the text side by side, and a piece that is too long leaves finer separators. */
    predicate Fit(text: string, sep: string, pieces: seq<Piece>) {
      && (forall i :: 0 < i < |pieces| ==> pieces[i].start == pieces[i - 1].End())
      && (forall i :: 0 <= i < |pieces| ==>
            && pieces[i].End() <= |text|
            && (|pieces[i].text| > chunkSize ==> Rank(Finer(separators, sep)) < Rank(separators)))
    }

    /** The windows that the loop ends with, from its state before piece `i`. */
    function Rest(
      text: string, sep: string, pieces: seq<Piece>, i: nat, windows: seq<Span>, cur: Option<Span>): seq<Span>
      requires Valid() && Fit(text, sep, pieces) && i <= |pieces|
      decreases |pieces| - i
    {
      if i == |pieces| then Closed(windows, cur)
      else
        var p := pieces[i];
        if p.text == "" then Rest(text, sep, pieces, i + 1, windows, cur)
        else if cur.Some? && cur.value.Len() + |p.text| <= chunkSize then
          Rest(text, sep, pieces, i + 1, windows, Some(Span(cur.value.start, p.End())))
        else if |p.text| <= chunkSize then
          Rest(text, sep, pieces, i + 1, Closed(windows, cur), Some(p.AsSpan()))
        else
          var expanded := Oversized(chunkSize, separators, text, p.AsSpan(), sep);
          Rest(text, sep, pieces, i + 1, Closed(windows, cur) + expanded, None)
    }

    static function Closed(windows: seq<Span>, cur: Option<Span>): seq<Span> {
      if cur.None? then windows else windows + [cur.value]
    }

    lemma {:induction false} PiecesFit(text: string)
      requires Valid()
      ensures Fit(text, Pick(separators, text), Pieces(text, Pick(separators, text)))
    {
      var sep := Pick(separators, text);
      var pieces := Pieces(text, sep);
      PiecesSpell(text, sep);
      forall i | 0 <= i < |pieces|
        ensures pieces[i].End() <= |text| && (i > 0 ==> pieces[i].start == pieces[i - 1].End())
        ensures |pieces[i].text| > chunkSize ==> Rank(Finer(separators, sep)) < Rank(separators)
      {
        SpellAt(text, pieces, 0, i);
        LongPieceRefines(text, sep, i);
      }
    }

    static lemma {:induction false} SpellAt(text: string, pieces: seq<Piece>, lo: nat, i: nat)
      requires Spell(text, pieces, lo) && i < |pieces|
      ensures pieces[i].start == (if i == 0 then lo else pieces[i - 1].End()) && pieces[i].End() <= |text|
      decreases i
    {
      if i > 0 {
        SpellAt(text, pieces[1..], pieces[0].End(), i - 1);
      }
    }

    /** Closing the current window comes to the same as refining it first. */
    lemma {:induction false} CloseFirst(
      text: string, sep: string, pieces: seq<Piece>, windows: seq<Span>, cur: Option<Span>)
      requires Valid() && pieces != [] && pieces[0].text != ""
      requires cur.Some? ==> cur.value.Len() <= chunkSize < cur.value.Len() + |pieces[0].text|
      requires Refinable(chunkSize, separators, text, sep, Greedy(chunkSize, pieces, cur))
      ensures var groups := Greedy(chunkSize, pieces[1..], Some(pieces[0].AsSpan()));
        && Refinable(chunkSize, separators, text, sep, groups)
        && windows + Refine(chunkSize, separators, text, sep, Greedy(chunkSize, pieces, cur))
           == Closed(windows, cur) + Refine(chunkSize, separators, text, sep, groups)
    {
      if cur.Some? {
        var groups := Greedy(chunkSize, pieces[1..], Some(pieces[0].AsSpan()));
        RefineFirst(text, sep, cur.value, groups);
        Regroup(windows, [cur.value], Refine(chunkSize, separators, text, sep, groups));
      }
    }

    lemma {:induction false} RefineLast(text: string, sep: string, windows: seq<Span>, cur: Option<Span>)
      requires Valid() && (cur.Some? ==> cur.value.Len() <= chunkSize)
      requires Refinable(chunkSize, separators, text, sep, Greedy(chunkSize, [], cur))
      ensures Closed(windows, cur) == windows + Refine(chunkSize, separators, text, sep, Greedy(chunkSize, [], cur))
    {
      if cur.Some? {
        assert [cur.value] + [] == [cur.value];
        RefineFirst(text, sep, cur.value, []);
      }
    }

    /** A state that the loop reaches before piece `i`. */
    predicate InLoop(text: string, sep: string, pieces: seq<Piece>, i: nat, cur: Option<Span>)
      requires Valid()
    {
      && Fit(text, sep, pieces) && i <= |pieces|
      && (cur.Some? ==> 0 < i && cur.value.start < cur.value.end == pieces[i - 1].End() && cur.value.Len() <= chunkSize)
      && Refinable(chunkSize, separators, text, sep, Greedy(chunkSize, pieces[i..], cur))
    }

    /** The loop, which drops its window at every oversized piece, ends with what grouping first and
        expanding the groups afterwards gives. */
    lemma {:induction false} RestIsRefined(
      text: string, sep: string, pieces: seq<Piece>, i: nat, windows: seq<Span>, cur: Option<Span>)
      requires Valid() && InLoop(text, sep, pieces, i, cur)
      ensures Rest(text, sep, pieces, i, windows, cur)
           == windows + Refine(chunkSize, separators, text, sep, Greedy(chunkSize, pieces[i..], cur))
      decreases |pieces| - i, 1
    {
      if i == |pieces| {
        RefineLast(text, sep, windows, cur);
      } else {
        var p := pieces[i];
        assert pieces[i..][0] == p && pieces[i..][1..] == pieces[i + 1..];
        if p.text == "" {
          RestIsRefined(text, sep, pieces, i + 1, windows, cur);
        } else if cur.Some? && cur.value.Len() + |p.text| <= chunkSize {
          RestIsRefined(text, sep, pieces, i + 1, windows, Some(Span(cur.value.start, p.End())));
        } else {
          RestCloses(text, sep, pieces, i, windows, cur);
        }
      }
    }

    /** The same where the piece closes the current window. */
    lemma {:induction false} RestCloses(
      text: string, sep: string, pieces: seq<Piece>, i: nat, windows: seq<Span>, cur: Option<Span>)
      requires Valid() && InLoop(text, sep, pieces, i, cur) && i < |pieces| && pieces[i].text != ""
      requires cur.Some? ==> chunkSize < cur.value.Len() + |pieces[i].text|
      ensures Rest(text, sep, pieces, i, windows, cur)
           == windows + Refine(chunkSize, separators, text, sep, Greedy(chunkSize, pieces[i..], cur))
      decreases |pieces| - i, 0
    {
      var p, closed := pieces[i], Closed(windows, cur);
      assert pieces[i..][0] == p && pieces[i..][1..] == pieces[i + 1..];
      CloseFirst(text, sep, pieces[i..], windows, cur);
      if |p.text| <= chunkSize {
        RestIsRefined(text, sep, pieces, i + 1, closed, Some(p.AsSpan()));
      } else {
        FlushOversized(text, sep, pieces[i + 1..], closed, p.AsSpan());
        RestIsRefined(text, sep, pieces, i + 1, closed + Oversized(chunkSize, separators, text, p.AsSpan(), sep), None);
      }
    }

    lemma {:induction false} RestIsWindows(text: string)
      requires Valid() && Fit(text, Pick(separators, text), Pieces(text, Pick(separators, text)))
      ensures Rest(text, Pick(separators, text), Pieces(text, Pick(separators, text)), 0, [], None)
           == Windows(chunkSize, separators, text)
    {
      var sep := Pick(separators, text);
      var pieces := Pieces(text, sep);
      assert pieces[0..] == pieces;
      GroupsRefinable(chunkSize, separators, text);
      RestIsRefined(text, sep, pieces, 0, [], None);
    }

    lemma {:induction false} RefineFirst(text: string, sep: string, w: Span, later: seq<Span>)
      requires Valid() && Refinable(chunkSize, separators, text, sep, [w] + later)
      ensures Refinable(chunkSize, separators, text, sep, later)
      ensures Refine(chunkSize, separators, text, sep, [w] + later)
           == Expansion(chunkSize, separators, text, sep, w) + Refine(chunkSize, separators, text, sep, later)
    {
      assert forall g :: g in later ==> g in [w] + later;
      assert ([w] + later)[0] == w && ([w] + later)[1..] == later;
    }

    /** Only a non-empty separator leaves long pieces, and the finer ones rank below it. */
    lemma {:induction false} LongPieceRefines(text: string, sep: string, i: nat)
      requires Valid() && sep == Pick(separators, text) && i < |Pieces(text, sep)|
      ensures |Pieces(text, sep)[i].text| > chunkSize ==> Rank(Finer(separators, sep)) < Rank(separators)
    {
      if sep != "" {
        FinerRank(separators, text);
      }
    }

    lemma {:induction false} FlushOversized(text: string, sep: string, rest: seq<Piece>, windows: seq<Span>, w: Span)
      requires Valid() && chunkSize < w.Len() && w.end <= |text|
      requires Refinable(chunkSize, separators, text, sep, Greedy(chunkSize, rest, Some(w)))
      ensures Refinable(chunkSize, separators, text, sep, Greedy(chunkSize, rest, None))
      ensures windows + Refine(chunkSize, separators, text, sep, Greedy(chunkSize, rest, Some(w)))
           == windows + Oversized(chunkSize, separators, text, w, sep)
              + Refine(chunkSize, separators, text, sep, Greedy(chunkSize, rest, None))
    {
      var groups := Greedy(chunkSize, rest, None);
      GreedyFlush(chunkSize, rest, w);
      RefineFirst(text, sep, w, groups);
      var expanded := Oversized(chunkSize, separators, text, w, sep);
      Regroup(windows, expanded, Refine(chunkSize, separators, text, sep, groups));
    }

    static function Current(curStart: Option<nat>, curEnd: nat): Option<Span> {
      if curStart.None? then None else Some(Span(curStart.value, curEnd))
    }

    method ExpandOversized(text: string, start: nat, end: nat, parentSep: string) returns (windows: seq<Span>)
      requires Valid() && start <= end <= |text|
      ensures windows == Oversized(chunkSize, separators, text, Span(start, end), parentSep)
      decreases Rank(Finer(separators, parentSep)), 4
    {
      var finer;
      var idx := IndexOf(separators, parentSep);
      if idx == -1 {
        finer := [""];
      } else {
        finer := separators[idx + 1..];
      }
      if finer == [] {
        finer := [""];
      }
      var sub := RecursiveCharacterChunker(chunkSize, 0, finer);
      var subChunks := sub.Chunk(text[start..end]);
      windows := SpansOf(subChunks, start);
    }

    method AddOverlap(windows: seq<Span>, text: string) returns (out: seq<Chunk>)
      requires Valid()
      ensures out == Emit(chunkOverlap, text, windows, |windows|)
    {
      out := [];
      var prevEnd := 0;
      for i := 0 to |windows|
        invariant out == Emit(chunkOverlap, text, windows, i)
        invariant prevEnd == if out == [] then 0 else out[|out| - 1].charEnd
      {
        var ws, we := windows[i].start, windows[i].end;
        ghost var next := Extend(chunkOverlap, text, out, windows[i], i == 0);
        assert next == Emit(chunkOverlap, text, windows, i + 1);
        var start: nat;
        if i == 0 || chunkOverlap == 0 {
          start := ws;
        } else {
          start := Max(0, Min(prevEnd, ws) - chunkOverlap);
        }
        assert start == Rewound(chunkOverlap, prevEnd, windows[i], i == 0);
        if out != [] && start <= out[|out| - 1].charStart && we <= out[|out| - 1].charEnd {
          continue;
        }
        var chunkText := Slice(text, start, we);
        if chunkText == "" {
          continue;
        }
        out := out + [ChunkSpec.Chunk(chunkText, |out|, start, we)];
        assert out == next;
        prevEnd := we;
      }
    }
  }

  /** Dropping an oversized window and going on from nothing, as the program does, and keeping it as
      the current window, as `Greedy` does, come to the same groups. */
  lemma {:induction false} GreedyFlush(size: Size, pieces: seq<Piece>, w: Span)
    requires w.Len() > size
    ensures Greedy(size, pieces, Some(w)) == [w] + Greedy(size, pieces, None)
    decreases |pieces|
  {
    if pieces != [] && pieces[0].text == "" {
      GreedyFlush(size, pieces[1..], w);
    }
  }
}
