/** In which order the separators are tried: a chunk that does not end where a coarse separator ends lies in a
    stretch, free of all separators that are as coarse, that is too long for one window. */
module ChunkDescent {
  import opened PyText
  import opened ChunkSpec
  import opened ChunkLaws
  import opened ChunkCounts
  import opened ChunkGroups

  /** One of the separators ends at position `x`. */
  predicate Closes(text: string, seps: seq<string>, x: nat) {
    exists s :: s in seps && At(text, s, x - |s|)
  }

  /** None of the separators lies in `text[c..d]`, except at its end. */
  predicate Uncut(text: string, seps: seq<string>, c: nat, d: nat) {
    forall s, i :: s in seps && c <= i < d - |s| ==> !At(text, s, i)
  }

  /** From the text's start or the end of a separator to the next one's end or the text's end. */
  predicate Stretch(text: string, seps: seq<string>, c: nat, d: nat) {
    && c < d <= |text| && Uncut(text, seps, c, d)
    && (c == 0 || Closes(text, seps, c)) && (d == |text| || Closes(text, seps, d))
  }

  /** The length of a number of full windows. */
  predicate FullWindows(size: Size, length: nat) {
    length == 0 || (length >= size && FullWindows(size, length - size))
  }

  /** Cutting at `e` inside a stretch that is too long; if nothing finer is left, after a number of full windows. */
  predicate CutsLong(size: Size, text: string, seps: seq<string>, last: bool, e: nat, c: nat, d: nat) {
    Stretch(text, seps, c, d) && d - c > size && c < e < d && (last ==> FullWindows(size, e - c))
  }

  ghost predicate DescentCut(size: Size, text: string, seps: seq<string>, last: bool, e: nat) {
    || e == |text| || Closes(text, seps, e)
    || exists c: nat, d: nat :: CutsLong(size, text, seps, last, e, c, d)
  }

  predicate NoneEmpty(seps: seq<string>, n: nat)
    requires n <= |seps|
  {
    forall j :: 0 <= j < n ==> seps[j] != ""
  }

  /** Behind the first `n` separators only characters are left. */
  predicate LastOnes(seps: seq<string>, n: nat)
    requires n <= |seps|
  {
    n == |seps| || seps[n] == ""
  }

  // ---------- What splitting leaves in a piece ----------

  /** A piece ends with the separator, or ends the text, and holds no earlier whole separator. */
  predicate CutPiece(text: string, sep: string, p: Piece) {
    && p.End() <= |text| && p.text == text[p.start..p.End()]
    && (p.End() == |text| || At(text, sep, p.End() - |sep|))
    && forall i :: p.start <= i < p.End() - |sep| ==> !At(text, sep, i)
  }

  lemma {:induction false} FirstCut(text: string, sep: string, start: nat)
    requires sep != "" && start <= |text|
    ensures var idx := Find(text, sep, start);
      var end := if idx == -1 then |text| else idx + |sep|;
      CutPiece(text, sep, Piece(start, text[start..end]))
  {
    FindIsFirst(text, sep, start);
  }

  lemma {:induction false} CutsAreCutPieces(text: string, sep: string, start: nat)
    requires sep != "" && start <= |text|
    ensures forall p :: p in Cuts(text, sep, start) ==> CutPiece(text, sep, p)
    decreases |text| - start
  {
    var idx := Find(text, sep, start);
    FirstCut(text, sep, start);
    if idx == -1 {
      assert text[start..|text|] == text[start..];
    } else {
      var end := idx + |sep|;
      CutsAreCutPieces(text, sep, end);
      assert Cuts(text, sep, start) == [Piece(start, text[start..end])] + Cuts(text, sep, end);
    }
  }

  // ---------- One pass ----------

  lemma {:induction false} NotContained(text: string, sep: string, i: int)
    requires !Contains(text, sep)
    ensures !At(text, sep, i)
  {
    FindIsFirst(text, sep, 0);
  }

  /** The separator of a pass is the first of the first `n` that occurs, or none of them occurs. */
  lemma {:induction false} PickIndex(seps: seq<string>, text: string, n: nat) returns (m: nat)
    requires n <= |seps| && NoneEmpty(seps, n)
    ensures m <= n && forall j :: 0 <= j < m ==> !Contains(text, seps[j])
    ensures m < n ==> Contains(text, seps[m]) && Pick(seps, text) == seps[m] && IndexOf(seps, seps[m]) == m
    ensures m == n && LastOnes(seps, n) ==> Pick(seps, text) == ""
    decreases n
  {
    if n == 0 || Contains(text, seps[0]) {
      m := 0;
    } else {
      var rest := PickIndex(seps[1..], text, n - 1);
      m := rest + 1;
      assert forall j :: 0 < j < n ==> seps[j] == seps[1..][j - 1];
    }
  }

  lemma {:induction false} AtInside(text: string, g: Span, sep: string, i: nat)
    requires g.start <= g.end <= |text| && i + |sep| <= g.Len()
    ensures At(text[g.start..g.end], sep, i) <==> At(text, sep, g.start + i)
  {
    PartOfPart(text, g.start, g.end, i, i + |sep|);
  }

  /** A piece begins where the text does or where a separator ends. */
  lemma {:induction false} CutsBeginAfter(text: string, sep: string, start: nat)
    requires sep != "" && start <= |text|
    ensures forall p :: p in Cuts(text, sep, start) ==> p.start == start || At(text, sep, p.start - |sep|)
    decreases |text| - start
  {
    var idx := Find(text, sep, start);
    FindIsFirst(text, sep, start);
    if idx != -1 {
      CutsBeginAfter(text, sep, idx + |sep|);
    }
  }

  lemma {:induction false} CutIs(text: string, sep: string, p: Piece)
    requires sep != "" && p in Cuts(text, sep, 0)
    ensures CutPiece(text, sep, p) && (p.start == 0 || At(text, sep, p.start - |sep|))
  {
    CutsAreCutPieces(text, sep, 0);
    CutsBeginAfter(text, sep, 0);
  }

  /** A piece between the ends of coarse separators, and those of them that are left to try in it. */
  predicate Nested(text: string, coarse: seq<string>, left: seq<string>, g: Span) {
    && g.start < g.end <= |text| && (forall s :: s in left ==> s in coarse)
    && (g.start == 0 || Closes(text, coarse, g.start)) && (g.end == |text| || Closes(text, coarse, g.end))
    && (forall s, i :: s in coarse && s !in left && g.start <= i < g.end - |s| ==> !At(text, s, i))
  }

  /** The separators before the one of this pass do not occur, and a piece has its own only at the end. */
  predicate Exhausted(text: string, seps: seq<string>, m: nat, g: Span)
    requires m < |seps|
  {
    forall j, i :: 0 <= j <= m && g.start <= i < g.end - |seps[j]| ==> !At(text, seps[j], i)
  }

  lemma {:induction false} CutIsExhausted(seps: seq<string>, text: string, m: nat, p: Piece)
    requires m < |seps| && CutPiece(text, seps[m], p) && forall j :: 0 <= j < m ==> !Contains(text, seps[j])
    ensures Exhausted(text, seps, m, p.AsSpan())
  {
    forall j, i | 0 <= j <= m && p.start <= i < p.End() - |seps[j]| ensures !At(text, seps[j], i) {
      if j < m {
        NotContained(text, seps[j], i);
      }
    }
  }

  lemma {:induction false} ClosesAt(text: string, seps: seq<string>, m: nat, n: nat, x: nat)
    requires m < n <= |seps| && At(text, seps[m], x - |seps[m]|)
    ensures Closes(text, seps[..n], x)
  {
    assert seps[..n][m] == seps[m];
  }

  lemma {:induction false} TriedBy(seps: seq<string>, m: nat, n: nat, s: string) returns (j: nat)
    requires m < n <= |seps| && s in seps[..n] && s !in seps[m + 1..n]
    ensures j <= m && seps[j] == s
  {
    assert seps[..n] == seps[..m + 1] + seps[m + 1..n];
    j :| 0 <= j < |seps[..m + 1]| && seps[..m + 1][j] == s;
  }

  lemma {:induction false} FinerAreCoarse(seps: seq<string>, m: nat, n: nat, s: string)
    requires m < n <= |seps| && s in seps[m + 1..n]
    ensures s in seps[..n]
  {
    var j :| 0 <= j < n - m - 1 && seps[m + 1..n][j] == s;
    assert seps[..n][m + 1 + j] == s;
  }

  lemma {:induction false} ExhaustedIsNested(seps: seq<string>, text: string, m: nat, n: nat, g: Span)
    requires m < n <= |seps| && Exhausted(text, seps, m, g) && g.start < g.end <= |text|
    requires g.start == 0 || At(text, seps[m], g.start - |seps[m]|)
    requires g.end == |text| || At(text, seps[m], g.end - |seps[m]|)
    ensures Nested(text, seps[..n], seps[m + 1..n], g)
  {
    if g.start != 0 {
      ClosesAt(text, seps, m, n, g.start);
    }
    if g.end != |text| {
      ClosesAt(text, seps, m, n, g.end);
    }
    forall s | s in seps[m + 1..n] ensures s in seps[..n] {
      FinerAreCoarse(seps, m, n, s);
    }
    forall s, i | s in seps[..n] && s !in seps[m + 1..n] && g.start <= i < g.end - |s| ensures !At(text, s, i) {
      var j := TriedBy(seps, m, n, s);
    }
  }

  lemma {:induction false} CutIsNested(seps: seq<string>, text: string, m: nat, n: nat, p: Piece)
    requires m < n <= |seps| && seps[m] != "" && p in Cuts(text, seps[m], 0) && p.text != ""
    requires forall j :: 0 <= j < m ==> !Contains(text, seps[j])
    ensures Nested(text, seps[..n], seps[m + 1..n], p.AsSpan())
  {
    CutIs(text, seps[m], p);
    CutIsExhausted(seps, text, m, p);
    ExhaustedIsNested(seps, text, m, n, p.AsSpan());
  }

  lemma {:induction false} LongGroupIsNested(size: Size, seps: seq<string>, text: string, m: nat, n: nat, g: Span)
    requires m < n <= |seps| && seps[m] != "" && Pick(seps, text) == seps[m]
    requires forall j :: 0 <= j < m ==> !Contains(text, seps[j])
    requires g in Groups(size, seps, text) && g.start < g.end && g.Len() > size
    ensures Nested(text, seps[..n], seps[m + 1..n], g)
  {
    var pieces := Pieces(text, seps[m]);
    PiecesSpell(text, seps[m]);
    LongGroupIsPiece(size, text, pieces, None, 0);
    var p :| p in pieces && p.AsSpan() == g;
    CutIsNested(seps, text, m, n, p);
  }

  lemma {:induction false} PieceCloses(text: string, seps: seq<string>, m: nat, n: nat, p: Piece)
    requires m < n <= |seps| && seps[m] != "" && p in Cuts(text, seps[m], 0)
    ensures p.End() == |text| || Closes(text, seps[..n], p.End())
  {
    CutIs(text, seps[m], p);
    if p.End() != |text| {
      ClosesAt(text, seps, m, n, p.End());
    }
  }

  lemma {:induction false} GroupCloses(size: Size, seps: seq<string>, text: string, n: nat, m: nat, g: Span)
    requires m < n <= |seps| && seps[m] != "" && Pick(seps, text) == seps[m] && g in Groups(size, seps, text)
    ensures g.end == |text| || Closes(text, seps[..n], g.end)
  {
    var pieces := Pieces(text, seps[m]);
    PiecesSpell(text, seps[m]);
    GreedyCutsAtPieces(size, text, pieces, None, 0);
    var p :| p in pieces && p.text != "" && p.End() == g.end;
    PieceCloses(text, seps, m, n, p);
  }

  // ---------- From a piece to its text ----------

  lemma {:induction false} ClosesLifts(
    text: string, coarse: seq<string>, left: seq<string>, g: Span, sub: string, x: nat)
    requires Nested(text, coarse, left, g) && sub == text[g.start..g.end] && x <= |sub| && Closes(sub, left, x)
    ensures Closes(text, coarse, g.start + x)
  {
    var s :| s in left && At(sub, s, x - |s|);
    AtInside(text, g, s, x - |s|);
    assert At(text, s, g.start + x - |s|);
  }

  lemma {:induction false} UncutLifts(
    text: string, coarse: seq<string>, left: seq<string>, g: Span, sub: string, c: nat, d: nat)
    requires Nested(text, coarse, left, g) && sub == text[g.start..g.end] && d <= |sub| && Uncut(sub, left, c, d)
    ensures Uncut(text, coarse, g.start + c, g.start + d)
  {
    forall s, i | s in coarse && g.start + c <= i < g.start + d - |s| ensures !At(text, s, i) {
      if s in left {
        AtInside(text, g, s, i - g.start);
      }
    }
  }

  lemma {:induction false} StretchLifts(
    text: string, coarse: seq<string>, left: seq<string>, g: Span, sub: string, c: nat, d: nat)
    requires Nested(text, coarse, left, g) && sub == text[g.start..g.end] && Stretch(sub, left, c, d)
    ensures Stretch(text, coarse, g.start + c, g.start + d)
  {
    if c > 0 {
      ClosesLifts(text, coarse, left, g, sub, c);
    }
    if d < |sub| {
      ClosesLifts(text, coarse, left, g, sub, d);
    }
    UncutLifts(text, coarse, left, g, sub, c, d);
  }

  lemma {:induction false} LongLifts(
    size: Size, text: string, coarse: seq<string>, left: seq<string>, last: bool, g: Span, sub: string, e: nat, at: nat,
    c: nat, d: nat)
    requires Nested(text, coarse, left, g) && sub == text[g.start..g.end] && at == g.start + e
    requires CutsLong(size, sub, left, last, e, c, d)
    ensures CutsLong(size, text, coarse, last, at, g.start + c, g.start + d)
  {
    StretchLifts(text, coarse, left, g, sub, c, d);
    assert at - (g.start + c) == e - c;
  }

  lemma {:induction false} CutLifts(
    size: Size, text: string, coarse: seq<string>, left: seq<string>, last: bool, g: Span, sub: string, e: nat, at: nat)
    requires Nested(text, coarse, left, g) && sub == text[g.start..g.end] && e <= |sub| && at == g.start + e
    requires DescentCut(size, sub, left, last, e)
    ensures DescentCut(size, text, coarse, last, at)
  {
    if e < |sub| {
      if Closes(sub, left, e) {
        ClosesLifts(text, coarse, left, g, sub, e);
      } else {
        var c: nat, d: nat :| CutsLong(size, sub, left, last, e, c, d);
        LongLifts(size, text, coarse, left, last, g, sub, e, at, c, d);
      }
    }
  }

  /** All windows end at such cuts. */
  ghost predicate AllDescend(size: Size, text: string, seps: seq<string>, last: bool, ws: seq<Span>) {
    forall i :: 0 <= i < |ws| ==> DescentCut(size, text, seps, last, ws[i].end)
  }

  lemma {:induction false} CutsLift(
    size: Size, text: string, coarse: seq<string>, left: seq<string>, last: bool, g: Span, sub: string, ws: seq<Span>)
    requires Nested(text, coarse, left, g) && sub == text[g.start..g.end]
    requires Linked(ws, 0, |sub|) && AllDescend(size, sub, left, last, ws)
    ensures AllDescend(size, text, coarse, last, Shift(ws, g.start))
  {
    forall i | 0 <= i < |ws| ensures DescentCut(size, text, coarse, last, Shift(ws, g.start)[i].end) {
      CutLifts(size, text, coarse, left, last, g, sub, ws[i].end, Shift(ws, g.start)[i].end);
    }
  }

  // ---------- Character by character ----------

  /** Character by character, every group but the last ends after a number of full windows. */
  lemma {:induction false} CharGroupsExact(size: Size, text: string, pieces: seq<Piece>, cur: Option<Span>, at: nat)
    requires Spell(text, pieces, at) && CurAt(cur, at)
    requires forall p :: p in pieces ==> |p.text| == 1
    requires if cur.Some? then FullWindows(size, cur.value.start) && cur.value.Len() <= size else FullWindows(size, at)
    ensures forall g :: g in Greedy(size, pieces, cur) ==> g.end == |text| || FullWindows(size, g.end)
    decreases |pieces|
  {
    if pieces != [] {
      var p, rest := pieces[0], pieces[1..];
      assert p in pieces;
      if cur.Some? && cur.value.Len() + |p.text| <= size {
        CharGroupsExact(size, text, rest, Some(Span(cur.value.start, p.End())), p.End());
      } else {
        CharGroupsExact(size, text, rest, Some(p.AsSpan()), p.End());
      }
    }
  }

  lemma {:induction false} CharWindowsExact(size: Size, seps: seq<string>, text: string)
    requires Pick(seps, text) == ""
    ensures forall w :: w in Windows(size, seps, text) ==> w.end == |text| || FullWindows(size, w.end)
  {
    var pieces := Pieces(text, "");
    PiecesSpell(text, "");
    GreedyFits(size, text, pieces, None, 0);
    CharGroupsExact(size, text, pieces, None, 0);
    RefineNothing(size, seps, text, "", Groups(size, seps, text));
  }

  // ---------- All passes ----------

  /** None of the first `n` separators occurs: the text is one stretch. */
  lemma {:induction false} WholeDescends(size: Size, seps: seq<string>, text: string, n: nat)
    requires n <= |seps| && |text| > size && forall j :: 0 <= j < n ==> !Contains(text, seps[j])
    requires LastOnes(seps, n) ==> Pick(seps, text) == ""
    ensures AllDescend(size, text, seps[..n], LastOnes(seps, n), Windows(size, seps, text))
  {
    WindowsPartition(size, seps, text);
    TilesWithin(Windows(size, seps, text), 0, |text|);
    forall s, i | s in seps[..n] && 0 <= i < |text| - |s| ensures !At(text, s, i) {
      NotContained(text, s, i);
    }
    if LastOnes(seps, n) {
      CharWindowsExact(size, seps, text);
    }
    forall w | w in Windows(size, seps, text) ensures DescentCut(size, text, seps[..n], LastOnes(seps, n), w.end) {
      if w.end < |text| {
        assert CutsLong(size, text, seps[..n], LastOnes(seps, n), w.end, 0, |text|);
      }
    }
  }

  /** The pass on an oversized piece cuts the text as it cuts the piece. */
  lemma {:induction false} OversizedDescends(
    size: Size, seps: seq<string>, text: string, n: nat, m: nat, g: Span, finer: seq<string>, sub: string)
    requires m < n <= |seps| && NoneEmpty(seps, n) && Pick(seps, text) == seps[m]
    requires forall j :: 0 <= j < m ==> !Contains(text, seps[j])
    requires g in Groups(size, seps, text) && g.start < g.end <= |text| && g.Len() > size
    requires finer == Finer(seps, seps[m]) && sub == text[g.start..g.end] && Rank(finer) < Rank(seps)
    requires AllDescend(size, sub, seps[m + 1..n], LastOnes(seps, n), Windows(size, finer, sub))
    ensures AllDescend(size, text, seps[..n], LastOnes(seps, n), Expansion(size, seps, text, seps[m], g))
  {
    var ws := Windows(size, finer, sub);
    WindowsPartition(size, finer, sub);
    TilesLinked(ws, 0, |sub|);
    LongGroupIsNested(size, seps, text, m, n, g);
    CutsLift(size, text, seps[..n], seps[m + 1..n], LastOnes(seps, n), g, sub, ws);
    ExpansionPartition(size, seps, text, seps[m], g);
  }

  lemma {:induction false} FinerLeft(seps: seq<string>, m: nat, n: nat)
    requires m < n <= |seps| && NoneEmpty(seps, n) && IndexOf(seps, seps[m]) == m
    ensures var finer, k := Finer(seps, seps[m]), n - m - 1;
      && k <= |finer| && finer[..k] == seps[m + 1..n] && NoneEmpty(finer, k)
      && LastOnes(finer, k) == LastOnes(seps, n)
  {
  }

  lemma {:induction false} ExpansionDescends(size: Size, seps: seq<string>, text: string, n: nat, m: nat, g: Span)
    requires m < n <= |seps| && NoneEmpty(seps, n)
    requires Pick(seps, text) == seps[m] && IndexOf(seps, seps[m]) == m
    requires forall j :: 0 <= j < m ==> !Contains(text, seps[j])
    requires g in Groups(size, seps, text) && g.start < g.end <= |text|
    ensures AllDescend(size, text, seps[..n], LastOnes(seps, n), Expansion(size, seps, text, seps[m], g))
    decreases Rank(seps), 0
  {
    if g.Len() <= size {
      GroupCloses(size, seps, text, n, m, g);
    } else {
      var finer, sub := Finer(seps, seps[m]), text[g.start..g.end];
      FinerRank(seps, text);
      FinerLeft(seps, m, n);
      WindowsDescend(size, finer, sub, n - m - 1);
      OversizedDescends(size, seps, text, n, m, g, finer, sub);
    }
  }

  lemma {:induction false} RefineDescends(
    size: Size, seps: seq<string>, text: string, n: nat, m: nat, groups: seq<Span>)
    requires m < n <= |seps| && NoneEmpty(seps, n)
    requires Pick(seps, text) == seps[m] && IndexOf(seps, seps[m]) == m
    requires forall j :: 0 <= j < m ==> !Contains(text, seps[j])
    requires Refinable(size, seps, text, seps[m], groups)
    requires forall g :: g in groups ==> g in Groups(size, seps, text) && g.start < g.end
    ensures AllDescend(size, text, seps[..n], LastOnes(seps, n), Refine(size, seps, text, seps[m], groups))
    decreases Rank(seps), 1, |groups|
  {
    if groups != [] {
      ExpansionDescends(size, seps, text, n, m, groups[0]);
      RefineDescends(size, seps, text, n, m, groups[1..]);
      assert Refine(size, seps, text, seps[m], groups)
        == Expansion(size, seps, text, seps[m], groups[0]) + Refine(size, seps, text, seps[m], groups[1..]);
    }
  }

  lemma {:induction false} WindowsDescend(size: Size, seps: seq<string>, text: string, n: nat)
    requires n <= |seps| && NoneEmpty(seps, n)
    ensures AllDescend(size, text, seps[..n], LastOnes(seps, n), Windows(size, seps, text))
    decreases Rank(seps), 2
  {
    if |text| <= size {
      WindowsPartition(size, seps, text);
      if text != "" {
        ShortTextOneWindow(size, seps, text);
      }
    } else {
      var m := PickIndex(seps, text, n);
      if m == n {
        WholeDescends(size, seps, text, n);
      } else {
        PiecesSpell(text, seps[m]);
        GreedyTiles(size, text, Pieces(text, seps[m]), None, 0);
        TilesWithin(Groups(size, seps, text), 0, |text|);
        RefineDescends(size, seps, text, n, m, Groups(size, seps, text));
      }
    }
  }

  /** The descent law, for any separators and any number `n` of them: a chunk ends at the end of the text, or
      where one of the first `n` separators ends, or strictly inside a stretch between them that is longer than
      a window. If only characters are left to try, it then ends after a number of full windows. */
  lemma {:induction false} DescentLaw(size: Size, overlap: nat, seps: seq<string>, n: nat, text: string, i: nat)
    requires n <= |seps| && NoneEmpty(seps, n) && i < |Chunks(size, overlap, seps, text)|
    ensures DescentCut(size, text, seps[..n], LastOnes(seps, n), Chunks(size, overlap, seps, text)[i].charEnd)
  {
    OverlapLaw(size, overlap, seps, text, i);
    WindowsDescend(size, seps, text, n);
    assert Windows(size, seps, text)[i] in Windows(size, seps, text);
  }
}
