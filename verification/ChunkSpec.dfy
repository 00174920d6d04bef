/** What the recursive chunker computes, as functions: cut the text after every occurrence of the
    coarsest separator it contains, group consecutive pieces greedily, cut every group that is still
    too long again with finer separators, then stretch each window back over its predecessor. */
module ChunkSpec {
  import opened PyText

  type Size = n: nat | 0 < n witness 1

  datatype Span = Span(start: nat, end: nat) {
    function Len(): int { end - start }
  }

  /** A piece of a text together with the position where it begins. */
  datatype Piece = Piece(start: nat, text: string) {
    function End(): nat { start + |text| }
    function AsSpan(): Span { Span(start, End()) }
  }

  datatype Chunk = Chunk(text: string, chunkIndex: nat, charStart: nat, charEnd: nat)

  /** The coarsest separator that occurs in the text; `""` always applies. */
  function Pick(seps: seq<string>, text: string): (sep: string)
    ensures sep == "" || sep in seps
  {
    if seps == [] then ""
    else if seps[0] == "" || Contains(text, seps[0]) then seps[0]
    else Pick(seps[1..], text)
  }

  /** The pieces of `text[start..]`, each but the last one ending with the separator. */
  function Cuts(text: string, sep: string, start: nat): seq<Piece>
    requires sep != "" && start <= |text|
    decreases |text| - start
  {
    var idx := Find(text, sep, start);
    if idx == -1 then [Piece(start, text[start..])]
    else [Piece(start, text[start..idx + |sep|])] + Cuts(text, sep, idx + |sep|)
  }

  function Pieces(text: string, sep: string): seq<Piece> {
    if sep == "" then seq(|text|, i requires 0 <= i < |text| => Piece(i, [text[i]]))
    else Cuts(text, sep, 0)
  }

  /** Greedy grouping: extend the current window while it stays within `size`. */
  function Greedy(size: Size, pieces: seq<Piece>, cur: Option<Span>): seq<Span>
    decreases |pieces|
  {
    if pieces == [] then
      if cur.None? then [] else [cur.value]
    else
      var p, rest := pieces[0], pieces[1..];
      if p.text == "" then Greedy(size, rest, cur)
      else if cur.None? then Greedy(size, rest, Some(p.AsSpan()))
      else if cur.value.Len() + |p.text| <= size then Greedy(size, rest, Some(Span(cur.value.start, p.End())))
      else [cur.value] + Greedy(size, rest, Some(p.AsSpan()))
  }

  /** Position of the first occurrence of `sep` among the separators, or -1. */
  function IndexOf(seps: seq<string>, sep: string): (i: int)
    ensures i == -1 <==> sep !in seps
    ensures i != -1 ==> 0 <= i < |seps| && seps[i] == sep
  {
    if seps == [] then -1
    else if seps[0] == sep then 0
    else
      var i := IndexOf(seps[1..], sep);
      if i == -1 then -1 else i + 1
  }

  /** The separators that come after `parent`, or `("",)` when there are none. */
  function Finer(seps: seq<string>, parent: string): seq<string> {
    var i := IndexOf(seps, parent);
    if i == -1 || i + 1 == |seps| then [""] else seps[i + 1..]
  }

  /** The number of non-empty separators: what every recursive pass uses up. */
  function Rank(seps: seq<string>): nat {
    if seps == [] then 0 else (if seps[0] == "" then 0 else 1) + Rank(seps[1..])
  }

  /** The groups lie in the text, and a group that is too long leaves finer separators to try. */
  predicate Refinable(size: Size, seps: seq<string>, text: string, sep: string, groups: seq<Span>) {
    forall g :: g in groups ==>
      g.start <= g.end <= |text| && (g.Len() > size ==> Rank(Finer(seps, sep)) < Rank(seps))
  }

  /** Replace every group longer than `size` by the windows of its own text. */
  function Refine(size: Size, seps: seq<string>, text: string, sep: string, groups: seq<Span>): seq<Span>
    requires Refinable(size, seps, text, sep, groups)
    decreases Rank(seps), 1, |groups|
  {
    if groups == [] then []
    else
      (if groups[0].Len() <= size then [groups[0]] else Oversized(size, seps, text, groups[0], sep))
      + Refine(size, seps, text, sep, groups[1..])
  }

  /** The windows of one oversized piece, found by a chunker with the finer separators. */
  function Oversized(size: Size, seps: seq<string>, text: string, g: Span, sep: string): seq<Span>
    requires g.start <= g.end <= |text|
    decreases Rank(Finer(seps, sep)), 4
  {
    SpansOf(Chunks(size, 0, Finer(seps, sep), text[g.start..g.end]), g.start)
  }

  /** The spans of the chunks, counted from `off` characters further on. */
  function SpansOf(chunks: seq<Chunk>, off: nat): seq<Span> {
    seq(|chunks|, i requires 0 <= i < |chunks| => Span(off + chunks[i].charStart, off + chunks[i].charEnd))
  }

  function Groups(size: Size, seps: seq<string>, text: string): (groups: seq<Span>)
    ensures Refinable(size, seps, text, Pick(seps, text), groups)
  {
    var groups := Greedy(size, Pieces(text, Pick(seps, text)), None);
    GroupsRefinable(size, seps, text);
    groups
  }

  function Windows(size: Size, seps: seq<string>, text: string): seq<Span>
    decreases Rank(seps), 2
  {
    Refine(size, seps, text, Pick(seps, text), Groups(size, seps, text))
  }

  /** Where the chunk for window `w` begins. */
  function Rewound(overlap: nat, prevEnd: nat, w: Span, first: bool): nat {
    if first || overlap == 0 then w.start else Max(0, Min(prevEnd, w.start) - overlap)
  }

  /** The chunks after one more window: stretched back by `overlap` unless it is the first window, and
      dropped when it adds nothing to the previous chunk. */
  function Extend(overlap: nat, text: string, out: seq<Chunk>, w: Span, first: bool): seq<Chunk> {
    var start := Rewound(overlap, if out == [] then 0 else out[|out| - 1].charEnd, w, first);
    if out != [] && start <= out[|out| - 1].charStart && w.end <= out[|out| - 1].charEnd then out
    else if Slice(text, start, w.end) == "" then out
    else out + [Chunk(Slice(text, start, w.end), |out|, start, w.end)]
  }

  /** The chunks emitted for the first `n` windows. */
  function Emit(overlap: nat, text: string, windows: seq<Span>, n: nat): seq<Chunk>
    requires n <= |windows|
  {
    if n == 0 then [] else Extend(overlap, text, Emit(overlap, text, windows, n - 1), windows[n - 1], n == 1)
  }

  /** All chunks of a text. */
  function Chunks(size: Size, overlap: nat, seps: seq<string>, text: string): seq<Chunk>
    decreases Rank(seps), 3
  {
    if text == "" then []
    else var windows := Windows(size, seps, text); Emit(overlap, text, windows, |windows|)
  }

  // ---------- Pieces and groups tile the text ----------

  /** The pieces spell `text[lo..]`, one after the other. */
  predicate Spell(text: string, pieces: seq<Piece>, lo: nat) {
    if pieces == [] then lo == |text|
    else
      var p := pieces[0];
      p.start == lo && p.End() <= |text| && p.text == text[lo..p.End()] && Spell(text, pieces[1..], p.End())
  }

  /** The spans are non-empty, adjacent and cover exactly `[lo, hi)`. */
  predicate Tiles(ws: seq<Span>, lo: nat, hi: nat) {
    if ws == [] then lo == hi
    else ws[0].start == lo && lo < ws[0].end <= hi && Tiles(ws[1..], ws[0].end, hi)
  }

  lemma {:induction false} CutsSpell(text: string, sep: string, start: nat)
    requires sep != "" && start <= |text|
    ensures Spell(text, Cuts(text, sep, start), start)
    decreases |text| - start
  {
    var idx := Find(text, sep, start);
    if idx == -1 {
      assert Cuts(text, sep, start)[1..] == [];
    } else {
      var end := idx + |sep|;
      CutsSpell(text, sep, end);
      assert Cuts(text, sep, start)[1..] == Cuts(text, sep, end);
    }
  }

  lemma {:induction false} CharsSpell(text: string, lo: nat)
    requires lo <= |text|
    ensures Spell(text, Pieces(text, "")[lo..], lo)
    decreases |text| - lo
  {
    if lo < |text| {
      CharsSpell(text, lo + 1);
      assert Pieces(text, "")[lo..][1..] == Pieces(text, "")[lo + 1..];
    }
  }

  lemma {:induction false} PiecesSpell(text: string, sep: string)
    ensures Spell(text, Pieces(text, sep), 0)
  {
    if sep == "" {
      CharsSpell(text, 0);
      assert Pieces(text, "")[0..] == Pieces(text, "");
    } else {
      CutsSpell(text, sep, 0);
    }
  }

  /** The current window, if any, is a non-empty window that ends at `at`. */
  predicate CurAt(cur: Option<Span>, at: nat) {
    cur.Some? ==> cur.value.start < cur.value.end == at
  }

  /** Greedy groups tile the text from the start of the current window. */
  lemma {:induction false} GreedyTiles(size: Size, text: string, pieces: seq<Piece>, cur: Option<Span>, at: nat)
    requires Spell(text, pieces, at) && CurAt(cur, at)
    ensures Tiles(Greedy(size, pieces, cur), if cur.Some? then cur.value.start else at, |text|)
    decreases |pieces|
  {
    if pieces != [] {
      var p, rest := pieces[0], pieces[1..];
      if p.text == "" {
        GreedyTiles(size, text, rest, cur, at);
      } else if cur.Some? && cur.value.Len() + |p.text| <= size {
        GreedyTiles(size, text, rest, Some(Span(cur.value.start, p.End())), p.End());
      } else {
        GreedyTiles(size, text, rest, Some(p.AsSpan()), p.End());
        if cur.Some? {
          TilesWithin(Greedy(size, rest, Some(p.AsSpan())), p.start, |text|);
        }
      }
    } else if cur.Some? {
      assert Tiles([], |text|, |text|);
    }
  }

  lemma {:induction false} TilesWithin(ws: seq<Span>, lo: nat, hi: nat)
    requires Tiles(ws, lo, hi)
    ensures lo <= hi
    ensures forall w :: w in ws ==> lo <= w.start < w.end <= hi
    decreases |ws|
  {
    if ws != [] {
      TilesWithin(ws[1..], ws[0].end, hi);
      forall w | w in ws ensures lo <= w.start < w.end <= hi {
        assert w == ws[0] || w in ws[1..];
      }
    }
  }

  /** When no piece is too long, no group is. */
  lemma {:induction false} GreedyFits(size: Size, text: string, pieces: seq<Piece>, cur: Option<Span>, at: nat)
    requires Spell(text, pieces, at) && CurAt(cur, at)
    requires forall p :: p in pieces ==> |p.text| <= size
    requires cur.Some? ==> cur.value.Len() <= size
    ensures forall g :: g in Greedy(size, pieces, cur) ==> g.Len() <= size
    decreases |pieces|
  {
    if pieces != [] {
      var p, rest := pieces[0], pieces[1..];
      if p.text == "" {
        GreedyFits(size, text, rest, cur, at);
      } else if cur.Some? && cur.value.Len() + |p.text| <= size {
        GreedyFits(size, text, rest, Some(Span(cur.value.start, p.End())), p.End());
      } else {
        GreedyFits(size, text, rest, Some(p.AsSpan()), p.End());
      }
    }
  }

  lemma {:induction false} RankSuffix(seps: seq<string>, i: nat)
    requires i < |seps| && seps[i] != ""
    ensures Rank(seps[i + 1..]) < Rank(seps)
    decreases i
  {
    if i > 0 {
      RankSuffix(seps[1..], i - 1);
      assert seps[1..][i..] == seps[i + 1..];
    }
  }

  /** Every oversized expansion uses up a separator, even when the piece is the whole text. */
  lemma {:induction false} FinerRank(seps: seq<string>, text: string)
    requires Pick(seps, text) != ""
    ensures Rank(Finer(seps, Pick(seps, text))) < Rank(seps)
  {
    var i := IndexOf(seps, Pick(seps, text));
    RankSuffix(seps, i);
  }

  lemma {:induction false} GroupsRefinable(size: Size, seps: seq<string>, text: string)
    ensures Refinable(size, seps, text, Pick(seps, text), Greedy(size, Pieces(text, Pick(seps, text)), None))
  {
    var sep := Pick(seps, text);
    var groups := Greedy(size, Pieces(text, sep), None);
    PiecesSpell(text, sep);
    GreedyTiles(size, text, Pieces(text, sep), None, 0);
    TilesWithin(groups, 0, |text|);
    if sep == "" {
      GreedyFits(size, text, Pieces(text, sep), None, 0);
    } else {
      FinerRank(seps, text);
    }
  }
}
