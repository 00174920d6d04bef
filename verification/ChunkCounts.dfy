/** How many windows there are: the minimum possible when every piece fits, and a number linear in
    the length of the text in every case. */
module ChunkCounts {
  import opened PyText
  import opened ChunkSpec
  import opened ChunkLaws

  // ---------- Greedy grouping is optimal ----------

  /** `v` groups consecutive pieces into windows of at most `size`: it tiles `[lo, hi)` and cuts only
      where a piece ends. */
  predicate Grouping(size: Size, pieces: seq<Piece>, v: seq<Span>, lo: nat, hi: nat) {
    Partition(v, size, lo, hi) && forall w :: w in v ==> exists p :: p in pieces && p.End() == w.end
  }

  /** A piece that ends before `p` does, ends by the start of `p`. */
  predicate Ordered(pieces: seq<Piece>, rest: seq<Piece>) {
    forall p, q :: p in pieces && q in rest && p.End() < q.End() ==> p.End() <= q.start
  }

  lemma {:induction false} SpellEnds(text: string, pieces: seq<Piece>, at: nat)
    requires Spell(text, pieces, at)
    ensures forall p :: p in pieces ==> at <= p.start <= p.End() <= |text|
    ensures Ordered(pieces, pieces) && at <= |text|
    decreases |pieces|
  {
    if pieces != [] {
      var rest := pieces[1..];
      SpellEnds(text, rest, pieces[0].End());
      forall p | p in pieces ensures at <= p.start <= p.End() <= |text| {
        assert p == pieces[0] || p in rest;
      }
      forall p, q | p in pieces && q in pieces && p.End() < q.End() ensures p.End() <= q.start {
        assert p == pieces[0] || p in rest;
        assert q == pieces[0] || q in rest;
      }
    }
  }

  /** Greedy stays ahead: a grouping that starts no later needs at least as many windows. */
  lemma {:induction false} GreedyAhead(
    size: Size, text: string, all: seq<Piece>, pieces: seq<Piece>, cur: Span, at: nat, v: seq<Span>, lo: nat)
    requires Spell(text, pieces, at) && cur.start < cur.end == at
    requires Ordered(all, pieces)
    requires Grouping(size, all, v, lo, |text|) && lo <= cur.start
    ensures |Greedy(size, pieces, Some(cur))| <= |v|
    decreases |pieces|
  {
    SpellEnds(text, pieces, at);
    assert lo < |text|;
    if pieces != [] {
      var p, rest := pieces[0], pieces[1..];
      if p.text == "" {
        GreedyAhead(size, text, all, rest, cur, at, v, lo);
      } else if cur.Len() + |p.text| <= size {
        GreedyAhead(size, text, all, rest, Span(cur.start, p.End()), p.End(), v, lo);
      } else {
        var first := v[0];
        assert first in v && p in pieces;
        assert first.end < p.End();
        assert first.end <= p.start;
        forall w | w in v[1..] ensures w in v {}
        GreedyAhead(size, text, all, rest, p.AsSpan(), p.End(), v[1..], first.end);
      }
    }
  }

  lemma {:induction false} GreedyStart(
    size: Size, text: string, all: seq<Piece>, pieces: seq<Piece>, at: nat, v: seq<Span>)
    requires Spell(text, pieces, at) && Ordered(all, pieces)
    requires Grouping(size, all, v, at, |text|)
    ensures |Greedy(size, pieces, None)| <= |v|
    decreases |pieces|
  {
    if pieces != [] {
      var p, rest := pieces[0], pieces[1..];
      if p.text == "" {
        GreedyStart(size, text, all, rest, at, v);
      } else {
        GreedyAhead(size, text, all, rest, p.AsSpan(), p.End(), v, at);
      }
    }
  }

  /** When all groups fit, nothing is expanded. */
  lemma {:induction false} RefineNothing(size: Size, seps: seq<string>, text: string, sep: string, groups: seq<Span>)
    requires Refinable(size, seps, text, sep, groups)
    requires forall g :: g in groups ==> g.Len() <= size
    ensures Refine(size, seps, text, sep, groups) == groups
    decreases |groups|
  {
    if groups != [] {
      RefineNothing(size, seps, text, sep, groups[1..]);
    }
  }

  /** Each piece at the chosen separator fits in a window. */
  predicate AllPiecesFit(size: Size, seps: seq<string>, text: string) {
    forall p :: p in Pieces(text, Pick(seps, text)) ==> |p.text| <= size
  }

  /** When every piece at the chosen separator fits, the windows are themselves a grouping of
      consecutive pieces, and no grouping has fewer windows. */
  lemma {:induction false} GreedyOptimal(size: Size, seps: seq<string>, text: string, v: seq<Span>)
    requires AllPiecesFit(size, seps, text)
    ensures Grouping(size, Pieces(text, Pick(seps, text)), Windows(size, seps, text), 0, |text|)
    ensures Grouping(size, Pieces(text, Pick(seps, text)), v, 0, |text|) ==> |Windows(size, seps, text)| <= |v|
  {
    var sep := Pick(seps, text);
    var pieces := Pieces(text, sep);
    PiecesSpell(text, sep);
    SpellEnds(text, pieces, 0);
    GreedyFits(size, text, pieces, None, 0);
    GreedyTiles(size, text, pieces, None, 0);
    GreedyCutsAtPieces(size, text, pieces, None, 0);
    RefineNothing(size, seps, text, sep, Groups(size, seps, text));
    if Grouping(size, pieces, v, 0, |text|) {
      GreedyStart(size, text, pieces, pieces, 0, v);
    }
  }

  lemma {:induction false} GreedyCutsAtPieces(size: Size, text: string, pieces: seq<Piece>, cur: Option<Span>, at: nat)
    requires Spell(text, pieces, at) && CurAt(cur, at)
    ensures forall g :: g in Greedy(size, pieces, cur) ==>
      (cur.Some? && g == cur.value) || exists p :: p in pieces && p.text != "" && p.End() == g.end
    decreases |pieces|
  {
    if pieces != [] {
      var p, rest := pieces[0], pieces[1..];
      if p.text == "" {
        GreedyCutsAtPieces(size, text, rest, cur, at);
      } else if cur.Some? && cur.value.Len() + |p.text| <= size {
        GreedyCutsAtPieces(size, text, rest, Some(Span(cur.value.start, p.End())), p.End());
        assert p in pieces;
      } else {
        GreedyCutsAtPieces(size, text, rest, Some(p.AsSpan()), p.End());
        assert p in pieces;
      }
    }
  }

  /** A non-empty text that fits is one window, whatever the separators. */
  lemma {:induction false} ShortTextOneWindow(size: Size, seps: seq<string>, text: string)
    requires 0 < |text| <= size
    ensures Windows(size, seps, text) == [Span(0, |text|)]
  {
    var whole := [Span(0, |text|)];
    WholeIsGrouping(size, seps, text);
    GreedyOptimal(size, seps, text, whole);
    WindowsPartition(size, seps, text);
    TilesLinked(Windows(size, seps, text), 0, |text|);
  }

  lemma {:induction false} WholeIsGrouping(size: Size, seps: seq<string>, text: string)
    requires 0 < |text| <= size
    ensures AllPiecesFit(size, seps, text)
    ensures Grouping(size, Pieces(text, Pick(seps, text)), [Span(0, |text|)], 0, |text|)
  {
    var pieces := Pieces(text, Pick(seps, text));
    PiecesSpell(text, Pick(seps, text));
    SpellEnds(text, pieces, 0);
    LastPieceEnd(text, pieces, 0);
    SingletonPartition(Span(0, |text|), size);
  }

  lemma {:induction false} LastPieceEnd(text: string, pieces: seq<Piece>, at: nat)
    requires Spell(text, pieces, at) && at < |text|
    ensures exists p :: p in pieces && p.End() == |text|
    decreases |pieces|
  {
    if pieces[0].End() == |text| {
      assert pieces[0] in pieces;
    } else {
      LastPieceEnd(text, pieces[1..], pieces[0].End());
      var p :| p in pieces[1..] && p.End() == |text|;
      assert p in pieces;
    }
  }

  // ---------- The number of windows is linear ----------

  /** Any two adjacent groups are together longer than `size`. */
  predicate Crowded(size: Size, groups: seq<Span>) {
    forall i :: 0 < i < |groups| ==> groups[i - 1].Len() + groups[i].Len() > size
  }

  /** The first group extends the current window and, if others follow, is at least that long. */
  lemma {:induction false} GreedyCrowded(size: Size, text: string, pieces: seq<Piece>, cur: Option<Span>, at: nat)
    requires Spell(text, pieces, at) && CurAt(cur, at)
    ensures Crowded(size, Greedy(size, pieces, cur))
    ensures cur.Some? ==>
      var groups := Greedy(size, pieces, cur);
      groups != [] && groups[0].start == cur.value.start && groups[0].end >= cur.value.end
    decreases |pieces|
  {
    if pieces != [] {
      var p, rest := pieces[0], pieces[1..];
      if p.text == "" {
        GreedyCrowded(size, text, rest, cur, at);
      } else if cur.Some? && cur.value.Len() + |p.text| <= size {
        GreedyCrowded(size, text, rest, Some(Span(cur.value.start, p.End())), p.End());
      } else {
        GreedyCrowded(size, text, rest, Some(p.AsSpan()), p.End());
      }
    }
  }

  lemma {:induction false} Loosen(k: int, c: nat, a: nat, b: nat, n: nat)
    requires k * c <= a * n && a <= b
    ensures k * c <= b * n
  {
    assert b * n == a * n + (b - a) * n;
  }

  lemma {:induction false} CrowdedBound(size: Size, groups: seq<Span>, lo: nat, hi: nat)
    requires groups != [] && Tiles(groups, lo, hi) && Crowded(size, groups)
    ensures (|groups| - 1) * (size + 1) + groups[0].Len() + groups[|groups| - 1].Len() <= 2 * (hi - lo)
    decreases |groups|
  {
    if |groups| == 1 {
      assert Tiles(groups[1..], groups[0].end, hi);
    } else {
      var rest := groups[1..];
      forall i | 0 < i < |rest| ensures rest[i - 1].Len() + rest[i].Len() > size {
        assert rest[i - 1] == groups[i] && rest[i] == groups[i + 1];
      }
      CrowdedBound(size, rest, groups[0].end, hi);
      assert groups[0].Len() + groups[1].Len() > size;
      assert (|groups| - 1) * (size + 1) == (|rest| - 1) * (size + 1) + (size + 1);
    }
  }

  lemma {:induction false} BoundsAdd(a: int, b: int, ab: int, c: nat, d: nat, x: nat, y: nat, xy: nat)
    requires a * c <= d * x && b * c <= d * y && ab == a + b && xy == x + y
    ensures ab * c <= d * xy
  {
    assert ab * c == a * c + b * c && d * xy == d * x + d * y;
  }

  lemma {:induction false} RefineLength(size: Size, seps: seq<string>, text: string, sep: string, groups: seq<Span>)
    requires Refinable(size, seps, text, sep, groups) && groups != []
    ensures Refinable(size, seps, text, sep, groups[1..])
    ensures |Refine(size, seps, text, sep, groups)|
         == |Expansion(size, seps, text, sep, groups[0])| + |Refine(size, seps, text, sep, groups[1..])|
  {
  }

  /** Expanding oversized groups adds windows in proportion to the text they cover. */
  lemma {:induction false} RefineBound(
    size: Size, seps: seq<string>, text: string, sep: string, groups: seq<Span>, lo: nat)
    requires Refinable(size, seps, text, sep, groups) && Tiles(groups, lo, |text|)
    ensures |Refine(size, seps, text, sep, groups)| >= |groups|
    ensures (|Refine(size, seps, text, sep, groups)| - |groups|) * (size + 1) <= 2 * Rank(seps) * (|text| - lo)
    decreases Rank(seps), 1, |groups|
  {
    if groups == [] {
      assert |text| - lo == 0 && Refine(size, seps, text, sep, groups) == [];
      Loosen(0, size + 1, 0, 2 * Rank(seps), 0);
    } else {
      var g, rest := groups[0], groups[1..];
      TilesWithin(groups, lo, |text|);
      RefineBound(size, seps, text, sep, rest, g.end);
      ExpansionBound(size, seps, text, sep, g);
      var here, there := |Expansion(size, seps, text, sep, g)|, |Refine(size, seps, text, sep, rest)|;
      var k := |Refine(size, seps, text, sep, groups)|;
      RefineLength(size, seps, text, sep, groups);
      BoundsAdd(here - 1, there - |rest|, k - |groups|, size + 1, 2 * Rank(seps), g.Len(), |text| - g.end, |text| - lo);
    }
  }

  lemma {:induction false} ExpansionBound(size: Size, seps: seq<string>, text: string, sep: string, g: Span)
    requires g.start < g.end <= |text|
    requires g.Len() > size ==> Rank(Finer(seps, sep)) < Rank(seps)
    ensures Expansion(size, seps, text, sep, g) != []
    ensures (|Expansion(size, seps, text, sep, g)| - 1) * (size + 1) <= 2 * Rank(seps) * g.Len()
    decreases Rank(seps), 0
  {
    ExpansionPartition(size, seps, text, sep, g);
    var k := |Expansion(size, seps, text, sep, g)|;
    var len: nat := g.Len();
    if len <= size {
      assert k == 1;
      Loosen(k - 1, size + 1, 0, 2 * Rank(seps), len);
    } else {
      var finer, sub := Finer(seps, sep), text[g.start..g.end];
      WindowsLinear(size, finer, sub);
      assert k == |Windows(size, finer, sub)| && |sub| == len;
      Loosen(k - 1, size + 1, 2 + 2 * Rank(finer), 2 * Rank(seps), len);
    }
  }

  lemma {:induction false} WindowBounds(windows: nat, groups: nat, unit: nat, rank: nat, length: nat)
    requires (groups - 1) * unit <= 2 * length && (windows - groups) * unit <= 2 * rank * length
    ensures (windows - 1) * unit <= (2 + 2 * rank) * length
  {
    assert (windows - 1) * unit == (groups - 1) * unit + (windows - groups) * unit;
    assert (2 + 2 * rank) * length == 2 * length + 2 * rank * length;
  }

  /** With `k` windows and `d` non-empty separators, `(k - 1) * (size + 1) <= (2 + 2 * d) * n`. */
  lemma {:induction false} WindowsLinear(size: Size, seps: seq<string>, text: string)
    requires text != ""
    ensures Windows(size, seps, text) != []
    ensures (|Windows(size, seps, text)| - 1) * (size + 1) <= (2 + 2 * Rank(seps)) * |text|
    decreases Rank(seps), 2
  {
    var sep := Pick(seps, text);
    var groups := Groups(size, seps, text);
    PiecesSpell(text, sep);
    GreedyTiles(size, text, Pieces(text, sep), None, 0);
    GreedyCrowded(size, text, Pieces(text, sep), None, 0);
    CrowdedBound(size, groups, 0, |text|);
    RefineBound(size, seps, text, sep, groups, 0);
    TilesWithin(groups, 0, |text|);
    assert groups[0] in groups && groups[|groups| - 1] in groups;
    WindowBounds(|Windows(size, seps, text)|, |groups|, size + 1, Rank(seps), |text|);
  }
}
