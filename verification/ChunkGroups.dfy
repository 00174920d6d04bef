/** The greedy grouping of one pass is the only one of its kind, also when some pieces are too long. */
module ChunkGroups {
  import opened PyText
  import opened ChunkSpec
  import opened ChunkLaws
  import opened ChunkCounts

  /** A group longer than `size` is a single piece. */
  lemma {:induction false} LongGroupIsPiece(size: Size, text: string, pieces: seq<Piece>, cur: Option<Span>, at: nat)
    requires Spell(text, pieces, at) && CurAt(cur, at)
    ensures forall g :: g in Greedy(size, pieces, cur) && g.Len() > size ==>
      (cur.Some? && g == cur.value) || exists p :: p in pieces && p.AsSpan() == g
    decreases |pieces|
  {
    if pieces != [] {
      var p, rest := pieces[0], pieces[1..];
      assert p in pieces;
      if p.text == "" {
        LongGroupIsPiece(size, text, rest, cur, at);
      } else if cur.Some? && cur.value.Len() + |p.text| <= size {
        LongGroupIsPiece(size, text, rest, Some(Span(cur.value.start, p.End())), p.End());
      } else {
        LongGroupIsPiece(size, text, rest, Some(p.AsSpan()), p.End());
      }
    }
  }

  /** No group could have taken the piece that follows it. */
  predicate NextTooLong(size: Size, pieces: seq<Piece>, v: seq<Span>) {
    forall i, p :: 0 < i < |v| && p in pieces && p.text != "" && p.start == v[i].start ==>
      v[i - 1].Len() + |p.text| > size
  }

  /** The groups follow one another, end where pieces end, are too long only as single pieces, and none could have
      taken the next piece. */
  ghost predicate GroupsOf(size: Size, pieces: seq<Piece>, v: seq<Span>, lo: nat, hi: nat) {
    && Tiles(v, lo, hi) && NextTooLong(size, pieces, v)
    && (forall w :: w in v ==> exists p :: p in pieces && p.End() == w.end)
    && (forall w :: w in v && w.Len() > size ==> exists p :: p in pieces && p.AsSpan() == w)
  }

  lemma {:induction false} GreedyNext(size: Size, text: string, pieces: seq<Piece>, cur: Option<Span>, at: nat)
    requires Spell(text, pieces, at) && CurAt(cur, at)
    ensures NextTooLong(size, pieces, Greedy(size, pieces, cur))
    decreases |pieces|
  {
    if pieces != [] {
      var p, rest := pieces[0], pieces[1..];
      SpellEnds(text, rest, p.End());
      if p.text == "" {
        GreedyNext(size, text, rest, cur, at);
      } else {
        var fits := cur.Some? && cur.value.Len() + |p.text| <= size;
        var next := if fits then Span(cur.value.start, p.End()) else p.AsSpan();
        GreedyNext(size, text, rest, Some(next), p.End());
        GreedyLater(size, text, rest, next, p.End());
      }
    }
  }

  /** The first group holds the current window, and the others begin after it. */
  lemma {:induction false} GreedyLater(size: Size, text: string, pieces: seq<Piece>, cur: Span, at: nat)
    requires Spell(text, pieces, at) && cur.start < cur.end == at
    ensures var v := Greedy(size, pieces, Some(cur));
      v != [] && v[0].start == cur.start && forall i :: 0 < i < |v| ==> v[i].start >= at
  {
    var v := Greedy(size, pieces, Some(cur));
    GreedyCrowded(size, text, pieces, Some(cur), at);
    GreedyTiles(size, text, pieces, Some(cur), at);
    TilesWithin(v[1..], v[0].end, |text|);
    forall i | 0 < i < |v| ensures v[i].start >= at {
      assert v[i] == v[1..][i - 1];
    }
  }

  /** A piece begins wherever another one ends, except at the end of the text. */
  lemma {:induction false} NextPiece(text: string, pieces: seq<Piece>, at: nat, x: nat) returns (p: Piece)
    requires Spell(text, pieces, at) && x < |text| && (x == at || exists q :: q in pieces && q.End() == x)
    ensures p in pieces && p.text != "" && p.start == x
    decreases |pieces|
  {
    SpellEnds(text, pieces, at);
    var first, rest := pieces[0], pieces[1..];
    if x == at && first.text != "" {
      p := first;
    } else {
      p := NextPiece(text, rest, first.End(), x);
    }
  }

  /** The piece behind the first group of `u` would still fit in the first group of `v`, which is thus too long. */
  lemma {:induction false} ShorterFirst(
    size: Size, text: string, pieces: seq<Piece>, u: seq<Span>, v: seq<Span>, lo: nat)
    requires Spell(text, pieces, 0) && Ordered(pieces, pieces) && u != [] && v != []
    requires GroupsOf(size, pieces, u, lo, |text|) && GroupsOf(size, pieces, v, lo, |text|)
    requires u[0].end < v[0].end
    ensures v[0].Len() > size
  {
    TilesLinked(u, lo, |text|);
    TilesLinked(v, lo, |text|);
    assert u[0] in u && v[0] in v;
    var p := NextPiece(text, pieces, 0, u[0].end);
    var q :| q in pieces && q.End() == v[0].end;
    assert p.End() <= q.End();
    assert u[1].start == p.start;
  }

  lemma {:induction false} FirstEnds(size: Size, pieces: seq<Piece>, v: seq<Span>, lo: nat, hi: nat) returns (p: Piece)
    requires GroupsOf(size, pieces, v, lo, hi) && v != []
    ensures p in pieces && p.End() == v[0].end
  {
    assert v[0] in v;
    p :| p in pieces && p.End() == v[0].end;
  }

  lemma {:induction false} LongFirst(size: Size, pieces: seq<Piece>, v: seq<Span>, lo: nat, hi: nat) returns (p: Piece)
    requires GroupsOf(size, pieces, v, lo, hi) && v != [] && v[0].Len() > size
    ensures p in pieces && p.AsSpan() == v[0]
  {
    assert v[0] in v;
    p :| p in pieces && p.AsSpan() == v[0];
  }

  lemma {:induction false} NoShorterFirst(
    size: Size, text: string, pieces: seq<Piece>, u: seq<Span>, v: seq<Span>, lo: nat)
    requires Spell(text, pieces, 0) && u != [] && v != []
    requires GroupsOf(size, pieces, u, lo, |text|) && GroupsOf(size, pieces, v, lo, |text|)
    ensures u[0].end >= v[0].end
  {
    SpellEnds(text, pieces, 0);
    if u[0].end < v[0].end {
      ShorterFirst(size, text, pieces, u, v, lo);
      var q := FirstEnds(size, pieces, u, lo, |text|);
      var r := LongFirst(size, pieces, v, lo, |text|);
    }
  }

  lemma {:induction false} GroupsRest(size: Size, pieces: seq<Piece>, v: seq<Span>, lo: nat, hi: nat)
    requires GroupsOf(size, pieces, v, lo, hi) && v != []
    ensures GroupsOf(size, pieces, v[1..], v[0].end, hi)
  {
    forall w | w in v[1..] ensures w in v {}
    forall i, p | 0 < i < |v[1..]| && p in pieces && p.text != "" && p.start == v[1..][i].start
      ensures v[1..][i - 1].Len() + |p.text| > size
    {
      assert v[1..][i] == v[i + 1];
    }
  }

  lemma {:induction false} GroupsUnique(
    size: Size, text: string, pieces: seq<Piece>, u: seq<Span>, v: seq<Span>, lo: nat)
    requires Spell(text, pieces, 0)
    requires GroupsOf(size, pieces, u, lo, |text|) && GroupsOf(size, pieces, v, lo, |text|)
    ensures u == v
    decreases |u|
  {
    if u != [] && v != [] {
      NoShorterFirst(size, text, pieces, u, v, lo);
      NoShorterFirst(size, text, pieces, v, u, lo);
      GroupsRest(size, pieces, u, lo, |text|);
      GroupsRest(size, pieces, v, lo, |text|);
      GroupsUnique(size, text, pieces, u[1..], v[1..], u[0].end);
      FirstAndRest(u, v);
    } else {
      TilesWithin(u, lo, |text|);
      TilesWithin(v, lo, |text|);
    }
  }

  /** A grouping of the pieces is the greedy one if and only if no group could have taken the next piece and only
      single pieces are too long. */
  lemma {:induction false} GreedyExactly(size: Size, seps: seq<string>, text: string, v: seq<Span>)
    ensures v == Groups(size, seps, text) <==> GroupsOf(size, Pieces(text, Pick(seps, text)), v, 0, |text|)
  {
    var pieces, groups := Pieces(text, Pick(seps, text)), Groups(size, seps, text);
    PiecesSpell(text, Pick(seps, text));
    GreedyTiles(size, text, pieces, None, 0);
    GreedyNext(size, text, pieces, None, 0);
    GreedyCutsAtPieces(size, text, pieces, None, 0);
    LongGroupIsPiece(size, text, pieces, None, 0);
    assert GroupsOf(size, pieces, groups, 0, |text|);
    if GroupsOf(size, pieces, v, 0, |text|) {
      GroupsUnique(size, text, pieces, v, groups, 0);
    }
  }

  // ---------- Windows keep to the groups ----------

  predicate Inside(w: Span, g: Span) { g.start <= w.start && w.end <= g.end }

  lemma {:induction false} RefineInside(
    size: Size, seps: seq<string>, text: string, sep: string, groups: seq<Span>, lo: nat)
    requires Refinable(size, seps, text, sep, groups) && Tiles(groups, lo, |text|)
    ensures forall w :: w in Refine(size, seps, text, sep, groups) ==> exists g :: g in groups && Inside(w, g)
    ensures forall g :: g in groups && g.Len() <= size ==> g in Refine(size, seps, text, sep, groups)
    decreases |groups|
  {
    if groups != [] {
      var g, rest := groups[0], groups[1..];
      RefineInside(size, seps, text, sep, rest, g.end);
      ExpansionPartition(size, seps, text, sep, g);
      TilesWithin(Expansion(size, seps, text, sep, g), g.start, g.end);
      assert Refine(size, seps, text, sep, groups)
        == Expansion(size, seps, text, sep, g) + Refine(size, seps, text, sep, rest);
      forall w | w in Refine(size, seps, text, sep, groups) ensures exists h :: h in groups && Inside(w, h) {
        if w in Expansion(size, seps, text, sep, g) {
          assert g in groups && Inside(w, g);
        } else {
          var h :| h in rest && Inside(w, h);
          assert h in groups;
        }
      }
    }
  }

  /** A group that fits is a window, and no window reaches over the ends of a group, so what is left of a piece that is
      too long is not joined with what follows it. */
  lemma {:induction false} GroupsAreKept(size: Size, seps: seq<string>, text: string, g: Span, w: Span)
    requires g in Groups(size, seps, text)
    ensures g.Len() <= size ==> g in Windows(size, seps, text)
    ensures w in Windows(size, seps, text) ==> Inside(w, g) || w.end <= g.start || g.end <= w.start
  {
    var groups := Groups(size, seps, text);
    PiecesSpell(text, Pick(seps, text));
    GreedyTiles(size, text, Pieces(text, Pick(seps, text)), None, 0);
    RefineInside(size, seps, text, Pick(seps, text), groups, 0);
    if w in Windows(size, seps, text) {
      assert w in Refine(size, seps, text, Pick(seps, text), groups);
      var h :| h in groups && Inside(w, h);
      TilesApart(groups, 0, |text|, g, h);
    }
  }

  lemma {:induction false} TilesApart(ws: seq<Span>, lo: nat, hi: nat, g: Span, h: Span)
    requires Tiles(ws, lo, hi) && g in ws && h in ws
    ensures g == h || g.end <= h.start || h.end <= g.start
    decreases |ws|
  {
    TilesWithin(ws[1..], ws[0].end, hi);
    if g in ws[1..] && h in ws[1..] {
      TilesApart(ws[1..], ws[0].end, hi, g, h);
    }
  }
}
