/** What rebuilding gives: exactly the covered characters of the original text, whatever the order of
    the scan, and citations that are the exact hulls of what was found. */
module QueryLaws {
  import opened PyText
  import opened VectorStore
  import opened Query

  // ---------- Sorting ----------

  lemma {:induction false} SplitLast<T>(s: seq<T>)
    requires s != []
    ensures multiset(s) == multiset(s[..|s| - 1]) + multiset{s[|s| - 1]}
  {
    assert s == s[..|s| - 1] + [s[|s| - 1]];
  }

  lemma {:induction false} InsertKeeps(cs: seq<RetrievedChunk>, c: RetrievedChunk)
    ensures multiset(Insert(cs, c)) == multiset(cs) + multiset{c}
    decreases |cs|
  {
    if cs != [] && cs[|cs| - 1].chunkIndex > c.chunkIndex {
      InsertKeeps(cs[..|cs| - 1], c);
      SplitLast(cs);
    }
  }

  lemma {:induction false} LastIsGreatest(cs: seq<RetrievedChunk>, m: int)
    requires SortedByIndex(cs) && cs != [] && cs[|cs| - 1].chunkIndex <= m
    ensures forall i :: 0 <= i < |cs| ==> cs[i].chunkIndex <= m
  {
  }

  lemma {:induction false} InsertSorted(cs: seq<RetrievedChunk>, c: RetrievedChunk, m: int)
    requires SortedByIndex(cs) && c.chunkIndex <= m && (cs != [] ==> cs[|cs| - 1].chunkIndex <= m)
    ensures SortedByIndex(Insert(cs, c)) && Insert(cs, c)[|cs|].chunkIndex <= m
    decreases |cs|
  {
    if cs != [] && cs[|cs| - 1].chunkIndex > c.chunkIndex {
      var n := |cs| - 1;
      InsertSorted(cs[..n], c, cs[n].chunkIndex);
      LastIsGreatest(Insert(cs[..n], c), cs[n].chunkIndex);
    }
  }

  /** Sorting puts the indices in order and keeps every chunk as often as it occurs. */
  lemma {:induction false} SortSorts(cs: seq<RetrievedChunk>)
    ensures SortedByIndex(SortByIndex(cs))
    ensures multiset(SortByIndex(cs)) == multiset(cs)
    decreases |cs|
  {
    if cs != [] {
      var n := |cs| - 1;
      SortSorts(cs[..n]);
      var before := SortByIndex(cs[..n]);
      InsertSorted(before, cs[n], if n == 0 then cs[n].chunkIndex else Max(cs[n].chunkIndex, before[n - 1].chunkIndex));
      InsertKeeps(before, cs[n]);
      SplitLast(cs);
    }
  }

  /** The chunks with the index, in order. */
  function WithIndex(cs: seq<RetrievedChunk>, k: int): seq<RetrievedChunk> {
    if cs == [] then []
    else
      var n := |cs| - 1;
      if cs[n].chunkIndex == k then WithIndex(cs[..n], k) + [cs[n]] else WithIndex(cs[..n], k)
  }

  lemma {:induction false} WithIndexSnoc(cs: seq<RetrievedChunk>, c: RetrievedChunk, k: int)
    ensures WithIndex(cs + [c], k) == if c.chunkIndex == k then WithIndex(cs, k) + [c] else WithIndex(cs, k)
  {
    assert (cs + [c])[..|cs|] == cs;
  }

  lemma {:induction false} InsertStable(cs: seq<RetrievedChunk>, c: RetrievedChunk, k: int)
    ensures WithIndex(Insert(cs, c), k) == WithIndex(cs + [c], k)
    decreases |cs|
  {
    if cs != [] {
      var n := |cs| - 1;
      if cs[n].chunkIndex > c.chunkIndex {
        InsertStable(cs[..n], c, k);
        WithIndexSnoc(Insert(cs[..n], c), cs[n], k);
        WithIndexSnoc(cs[..n], c, k);
        WithIndexSnoc(cs, c, k);
      }
    }
  }

  /** Sorting is stable: chunks with the same index keep their order. */
  lemma {:induction false} SortStable(cs: seq<RetrievedChunk>, k: int)
    ensures WithIndex(SortByIndex(cs), k) == WithIndex(cs, k)
    decreases |cs|
  {
    if cs != [] {
      var n := |cs| - 1;
      SortStable(cs[..n], k);
      InsertStable(SortByIndex(cs[..n]), cs[n], k);
      WithIndexSnoc(SortByIndex(cs[..n]), cs[n], k);
    }
  }

  lemma {:induction false} SplitFirst<T>(s: seq<T>)
    requires s != []
    ensures multiset(s[1..]) == multiset(s) - multiset{s[0]}
  {
    assert s == [s[0]] + s[1..];
  }

  lemma {:induction false} LeastFirst<T>(a: seq<T>, b: seq<T>, key: T -> int)
    requires a != [] && b != [] && multiset(a) == multiset(b)
    requires forall j :: 0 < j < |b| ==> key(b[0]) <= key(b[j])
    ensures key(b[0]) <= key(a[0])
  {
    assert a[0] in multiset(b);
  }

  predicate OrderedBy<T>(s: seq<T>, key: T -> int) {
    forall i, j :: 0 <= i < j < |s| ==> key(s[i]) <= key(s[j])
  }

  /** Between the two sequences, elements with equal keys are equal. */
  predicate KeysTell<T(==)>(a: seq<T>, b: seq<T>, key: T -> int) {
    forall i, j :: 0 <= i < |a| && 0 <= j < |b| && key(a[i]) == key(b[j]) ==> a[i] == b[j]
  }

  lemma {:induction false} SameFirst<T>(a: seq<T>, b: seq<T>, key: T -> int)
    requires a != [] && b != [] && multiset(a) == multiset(b)
    requires OrderedBy(a, key) && OrderedBy(b, key) && KeysTell(a, b, key)
    ensures a[0] == b[0]
  {
    LeastFirst(a, b, key);
    LeastFirst(b, a, key);
  }

  lemma {:induction false} TailsFit<T>(a: seq<T>, b: seq<T>, key: T -> int)
    requires a != [] && b != [] && OrderedBy(a, key) && OrderedBy(b, key) && KeysTell(a, b, key)
    ensures OrderedBy(a[1..], key) && OrderedBy(b[1..], key) && KeysTell(a[1..], b[1..], key)
  {
  }

  /** Two sorted arrangements agree when elements with equal keys are equal. */
  lemma {:induction false} SortedUnique<T>(a: seq<T>, b: seq<T>, key: T -> int)
    requires |a| == |b| && multiset(a) == multiset(b)
    requires OrderedBy(a, key) && OrderedBy(b, key) && KeysTell(a, b, key)
    ensures a == b
    decreases |a|
  {
    if a != [] {
      SameFirst(a, b, key);
      TailsFit(a, b, key);
      SplitFirst(a);
      SplitFirst(b);
      SortedUnique(a[1..], b[1..], key);
      FirstAndRest(a, b);
    }
  }

  /** When chunks with equal indices are equal, the order of the scan does not matter. */
  lemma {:induction false} SortForgetsOrder(a: seq<RetrievedChunk>, b: seq<RetrievedChunk>)
    requires multiset(a) == multiset(b)
    requires forall x, y :: x in a && y in a && x.chunkIndex == y.chunkIndex ==> x == y
    ensures SortByIndex(a) == SortByIndex(b)
  {
    SortSorts(a);
    SortSorts(b);
    var s, t := SortByIndex(a), SortByIndex(b);
    assert |a| == |multiset(a)| == |multiset(b)| == |b|;
    forall i, j | 0 <= i < |s| && 0 <= j < |t| && s[i].chunkIndex == t[j].chunkIndex ensures s[i] == t[j] {
      assert s[i] in multiset(a) && t[j] in multiset(a);
    }
    var index := (c: RetrievedChunk) => c.chunkIndex;
    assert OrderedBy(s, index) && OrderedBy(t, index) && KeysTell(s, t, index);
    SortedUnique(s, t, index);
  }

  lemma {:induction false} OfDocMultiset(chunks: seq<RetrievedChunk>, d: string, c: RetrievedChunk)
    ensures multiset(OfDoc(chunks, d))[c] == if c.documentId == d then multiset(chunks)[c] else 0
    decreases |chunks|
  {
    if chunks != [] {
      var n := |chunks| - 1;
      OfDocMultiset(chunks[..n], d, c);
      assert chunks == chunks[..n] + [chunks[n]];
    }
  }

  /** A scan in which each document's chunks are told apart by their indices. */
  predicate IndexedScan(chunks: seq<RetrievedChunk>) {
    forall x, y :: x in chunks && y in chunks && x.documentId == y.documentId && x.chunkIndex == y.chunkIndex ==> x == y
  }

  /** Any reordering of such a scan rebuilds the same text for every document. */
  lemma {:induction false} AssembleForgetsOrder(a: seq<RetrievedChunk>, b: seq<RetrievedChunk>, d: string)
    requires multiset(a) == multiset(b) && IndexedScan(a)
    ensures DocText(a, d) == DocText(b, d)
    ensures d in DocOrder(a) <==> d in DocOrder(b)
  {
    forall c ensures multiset(OfDoc(a, d))[c] == multiset(OfDoc(b, d))[c] {
      OfDocMultiset(a, d, c);
      OfDocMultiset(b, d, c);
    }
    assert multiset(OfDoc(a, d)) == multiset(OfDoc(b, d));
    OfDocElements(a, d);
    SortForgetsOrder(OfDoc(a, d), OfDoc(b, d));
    DocOrderElements(a);
    DocOrderElements(b);
    assert |OfDoc(a, d)| == |multiset(OfDoc(a, d))| == |OfDoc(b, d)|;
  }

  // ---------- Covered characters ----------

  predicate Covered(cs: seq<RetrievedChunk>, x: int) {
    exists i :: 0 <= i < |cs| && cs[i].charStart <= x < cs[i].charEnd
  }

  /** The characters of `text[lo..hi]` at covered positions, each once and in order. */
  function Kept(text: string, cs: seq<RetrievedChunk>, lo: nat, hi: nat): string
    requires hi <= |text|
    decreases hi - lo
  {
    if lo >= hi then ""
    else (if Covered(cs, lo) then [text[lo]] else "") + Kept(text, cs, lo + 1, hi)
  }

  /** Each chunk is the non-empty part of the text that its span names. */
  predicate PartsOf(text: string, cs: seq<RetrievedChunk>) {
    forall i :: 0 <= i < |cs| ==>
      0 <= cs[i].charStart < cs[i].charEnd <= |text| && cs[i].text == text[cs[i].charStart..cs[i].charEnd]
  }

  /** A greater index never starts or ends earlier. */
  predicate Monotone(cs: seq<RetrievedChunk>) {
    forall i, j :: 0 <= i < |cs| && 0 <= j < |cs| && cs[i].chunkIndex <= cs[j].chunkIndex ==>
      cs[i].charStart <= cs[j].charStart && cs[i].charEnd <= cs[j].charEnd
  }

  lemma {:induction false} KeptSplit(text: string, cs: seq<RetrievedChunk>, lo: nat, mid: nat, hi: nat)
    requires lo <= mid <= hi <= |text|
    ensures Kept(text, cs, lo, hi) == Kept(text, cs, lo, mid) + Kept(text, cs, mid, hi)
    decreases mid - lo
  {
    if lo < mid {
      KeptSplit(text, cs, lo + 1, mid, hi);
    }
  }

  lemma {:induction false} KeptAll(text: string, cs: seq<RetrievedChunk>, lo: nat, hi: nat)
    requires lo <= hi <= |text| && forall x :: lo <= x < hi ==> Covered(cs, x)
    ensures Kept(text, cs, lo, hi) == text[lo..hi]
    decreases hi - lo
  {
    if lo < hi {
      assert text[lo..hi] == [text[lo]] + text[lo + 1..hi];
      KeptAll(text, cs, lo + 1, hi);
    }
  }

  lemma {:induction false} KeptNone(text: string, cs: seq<RetrievedChunk>, lo: nat, hi: nat)
    requires hi <= |text| && forall x :: lo <= x < hi ==> !Covered(cs, x)
    ensures Kept(text, cs, lo, hi) == ""
    decreases hi - lo
  {
    if lo < hi {
      KeptNone(text, cs, lo + 1, hi);
    }
  }

  lemma {:induction false} KeptSame(text: string, a: seq<RetrievedChunk>, b: seq<RetrievedChunk>, lo: nat, hi: nat)
    requires hi <= |text| && forall x :: lo <= x < hi ==> (Covered(a, x) <==> Covered(b, x))
    ensures Kept(text, a, lo, hi) == Kept(text, b, lo, hi)
    decreases hi - lo
  {
    if lo < hi {
      KeptSame(text, a, b, lo + 1, hi);
    }
  }

  lemma {:induction false} TailIsPart(text: string, c: RetrievedChunk, cursor: nat)
    requires PartsOf(text, [c]) && cursor <= |text|
    ensures Max(cursor, c.charStart) <= Max(cursor, c.charEnd) <= |text|
    ensures Tail(c, cursor) == text[Max(cursor, c.charStart)..Max(cursor, c.charEnd)]
  {
    assert [c][0] == c;
    if c.charStart < cursor < c.charEnd {
      PartOfPart(text, c.charStart, c.charEnd, cursor - c.charStart, c.charEnd - c.charStart);
    }
  }

  lemma {:induction false} OrderedRest(text: string, cs: seq<RetrievedChunk>)
    requires PartsOf(text, cs) && Monotone(cs) && SortedByIndex(cs) && cs != []
    ensures PartsOf(text, [cs[0]]) && PartsOf(text, cs[1..]) && Monotone(cs[1..]) && SortedByIndex(cs[1..])
    ensures forall i :: 0 <= i < |cs[1..]| ==>
      cs[0].charStart <= cs[1..][i].charStart && cs[0].charEnd <= cs[1..][i].charEnd
  {
    assert forall i :: 0 <= i < |cs[1..]| ==> cs[1..][i] == cs[i + 1];
  }

  /** What is covered from a cursor on: the first part, and then what the others cover. */
  lemma {:induction false} KeptFirst(text: string, cs: seq<RetrievedChunk>, cursor: nat, from: nat, to: nat)
    requires cs != [] && from == Max(cursor, cs[0].charStart) && to == Max(cursor, cs[0].charEnd)
    requires cursor <= from <= to <= |text| && forall i :: 0 <= i < |cs| ==> cs[0].charStart <= cs[i].charStart
    ensures Kept(text, cs, cursor, |text|) == text[from..to] + Kept(text, cs[1..], to, |text|)
  {
    forall x | from <= x < to ensures Covered(cs, x) {
      assert cs[0].charStart <= x < cs[0].charEnd;
    }
    forall x | to <= x < |text| ensures Covered(cs, x) <==> Covered(cs[1..], x) {
      CoveredLater(cs, x);
    }
    KeptNone(text, cs, cursor, from);
    KeptAll(text, cs, from, to);
    KeptSame(text, cs, cs[1..], to, |text|);
    KeptSplit(text, cs, cursor, from, |text|);
    KeptSplit(text, cs, from, to, |text|);
  }

  /** Joining ordered parts from a cursor on gives the covered characters from the cursor on. */
  lemma {:induction false} JoinIsKept(text: string, cs: seq<RetrievedChunk>, cursor: nat)
    requires PartsOf(text, cs) && Monotone(cs) && SortedByIndex(cs) && cursor <= |text|
    ensures Join(cs, cursor) == Kept(text, cs, cursor, |text|)
    decreases |cs|
  {
    if cs == [] {
      KeptNone(text, cs, cursor, |text|);
    } else {
      var from, to := Max(cursor, cs[0].charStart), Max(cursor, cs[0].charEnd);
      OrderedRest(text, cs);
      TailIsPart(text, cs[0], cursor);
      JoinIsKept(text, cs[1..], to);
      KeptFirst(text, cs, cursor, from, to);
    }
  }

  lemma {:induction false} CoveredLater(cs: seq<RetrievedChunk>, x: int)
    requires cs != [] && cs[0].charEnd <= x
    ensures Covered(cs, x) <==> Covered(cs[1..], x)
  {
    if Covered(cs, x) {
      var i :| 0 <= i < |cs| && cs[i].charStart <= x < cs[i].charEnd;
      assert cs[1..][i - 1] == cs[i];
    }
  }

  lemma {:induction false} SameElementsSameCover(a: seq<RetrievedChunk>, b: seq<RetrievedChunk>, x: int)
    requires multiset(a) == multiset(b)
    ensures Covered(a, x) <==> Covered(b, x)
  {
    CoverMoves(a, b, x);
    CoverMoves(b, a, x);
  }

  lemma {:induction false} CoverMoves(a: seq<RetrievedChunk>, b: seq<RetrievedChunk>, x: int)
    requires multiset(a) == multiset(b)
    ensures Covered(a, x) ==> Covered(b, x)
  {
    if Covered(a, x) {
      var i :| 0 <= i < |a| && a[i].charStart <= x < a[i].charEnd;
      assert a[i] in multiset(b);
      var j :| 0 <= j < |b| && b[j] == a[i];
    }
  }

  /** Partial assembly: any chunks of a text, in any order and with repeats, rebuild exactly its
      characters at the covered positions, each once and in order. */
  lemma {:induction false} PartialAssembly(text: string, cs: seq<RetrievedChunk>)
    requires PartsOf(text, cs) && Monotone(cs)
    ensures Join(SortByIndex(cs), 0) == Kept(text, cs, 0, |text|)
  {
    var sorted := SortByIndex(cs);
    SortSorts(cs);
    forall i | 0 <= i < |sorted| ensures sorted[i] in cs {
      assert sorted[i] in multiset(sorted);
    }
    JoinIsKept(text, sorted, 0);
    forall x | 0 <= x < |text| ensures Covered(sorted, x) <==> Covered(cs, x) {
      SameElementsSameCover(sorted, cs, x);
    }
    KeptSame(text, sorted, cs, 0, |text|);
  }

  // ---------- Citations ----------

  /** The hull is exact: it bounds every chunk, and each bound is met by some chunk. */
  lemma {:induction false} HullExact(cs: seq<RetrievedChunk>)
    requires cs != []
    ensures var h := HullOf(cs);
      && h.corpusId == cs[0].corpusId
      && (forall i :: 0 <= i < |cs| ==>
            h.chunkIndex <= cs[i].chunkIndex && h.charStart <= cs[i].charStart && cs[i].charEnd <= h.charEnd)
      && (exists i :: 0 <= i < |cs| && cs[i].chunkIndex == h.chunkIndex)
      && (exists i :: 0 <= i < |cs| && cs[i].charStart == h.charStart)
      && (exists i :: 0 <= i < |cs| && cs[i].charEnd == h.charEnd)
    decreases |cs|
  {
    var n := |cs| - 1;
    if n > 0 {
      HullExact(cs[..n]);
      var g := HullOf(cs[..n]);
      var i :| 0 <= i < n && cs[..n][i].chunkIndex == g.chunkIndex;
      var j :| 0 <= j < n && cs[..n][j].charStart == g.charStart;
      var k :| 0 <= k < n && cs[..n][k].charEnd == g.charEnd;
      assert cs[i].chunkIndex == g.chunkIndex && cs[j].charStart == g.charStart && cs[k].charEnd == g.charEnd;
      forall l | 0 <= l < n ensures cs[l] == cs[..n][l] {}
    }
  }

  lemma {:induction false} CitationsAt(chunks: seq<RetrievedChunk>, order: seq<string>, i: nat)
    requires (forall d :: d in order ==> OfDoc(chunks, d) != []) && i < |order|
    ensures CitationsOf(chunks, order)[i] == Cite(order[i], HullOf(OfDoc(chunks, order[i])))
    decreases |order|
  {
    if i < |order| - 1 {
      CitationsAt(chunks, order[..|order| - 1], i);
    }
  }

  /** Each citation, field by field: the corpus of the first listed chunk of its document, the least index, the least
      start and the greatest end of the document's chunks, each met by one of them, and no score. */
  lemma {:induction false} CitationFields(chunks: seq<RetrievedChunk>, i: nat)
    requires i < |FullDocCitations(chunks)|
    ensures |FullDocCitations(chunks)| == |DocOrder(chunks)|
    ensures var c := FullDocCitations(chunks)[i]; var cs := OfDoc(chunks, c.documentId);
      && c.documentId == DocOrder(chunks)[i] && cs != [] && c.corpusId == cs[0].corpusId && c.score == 0.0
      && (forall j :: 0 <= j < |cs| ==>
            c.chunkIndex <= cs[j].chunkIndex && c.charStart <= cs[j].charStart && cs[j].charEnd <= c.charEnd)
      && (exists j :: 0 <= j < |cs| && cs[j].chunkIndex == c.chunkIndex)
      && (exists j :: 0 <= j < |cs| && cs[j].charStart == c.charStart)
      && (exists j :: 0 <= j < |cs| && cs[j].charEnd == c.charEnd)
  {
    var order := DocOrder(chunks);
    DocOrderElements(chunks);
    CitationsAt(chunks, order, i);
    assert order[i] in order;
    HullExact(OfDoc(chunks, order[i]));
  }

  lemma {:induction false} TextsAt(chunks: seq<RetrievedChunk>, order: seq<string>, i: nat)
    requires i < |order|
    ensures TextsOf(chunks, order)[i] == (order[i], DocText(chunks, order[i]))
    decreases |order|
  {
    if i < |order| - 1 {
      TextsAt(chunks, order[..|order| - 1], i);
    }
  }

  lemma {:induction false} KeptLength(text: string, cs: seq<RetrievedChunk>, lo: nat, hi: nat)
    requires lo <= hi <= |text|
    ensures |Kept(text, cs, lo, hi)| <= hi - lo
    ensures |Kept(text, cs, lo, hi)| == hi - lo <==> forall x :: lo <= x < hi ==> Covered(cs, x)
    decreases hi - lo
  {
    if lo < hi {
      KeptLength(text, cs, lo + 1, hi);
    }
  }

  /** Citations and rebuilt documents go together: the same documents in the same order, each span the
      hull of the document's chunks, and for chunks of one text the rebuilt length is the length of the
      span exactly when the chunks leave no gap. */
  lemma {:induction false} CitationHull(chunks: seq<RetrievedChunk>, i: nat, text: string)
    requires i < |FullDocCitations(chunks)|
    requires var cs := OfDoc(chunks, DocOrder(chunks)[i]); PartsOf(text, cs) && Monotone(cs)
    ensures var c, doc := FullDocCitations(chunks)[i], Assemble(chunks)[i];
      var cs := OfDoc(chunks, doc.0);
      && |FullDocCitations(chunks)| == |Assemble(chunks)| && c.documentId == doc.0 && cs != []
      && c == Cite(doc.0, HullOf(cs))
      && (|doc.1| == c.charEnd - c.charStart <==> forall x :: c.charStart <= x < c.charEnd ==> Covered(cs, x))
  {
    var order := DocOrder(chunks);
    DocOrderElements(chunks);
    CitationsAt(chunks, order, i);
    TextsAt(chunks, order, i);
    var cs := OfDoc(chunks, order[i]);
    assert order[i] in order;
    HullExact(cs);
    PartialAssembly(text, cs);
    KeptInHull(text, cs, HullOf(cs));
  }

  /** All covered positions lie in the hull. */
  lemma {:induction false} KeptInHull(text: string, cs: seq<RetrievedChunk>, h: Hull)
    requires PartsOf(text, cs) && cs != [] && h == HullOf(cs)
    ensures |Kept(text, cs, 0, |text|)| == h.charEnd - h.charStart
        <==> forall x :: h.charStart <= x < h.charEnd ==> Covered(cs, x)
  {
    HullExact(cs);
    var s, e: nat := h.charStart, h.charEnd;
    assert s <= e <= |text|;
    KeptNone(text, cs, 0, s);
    KeptNone(text, cs, e, |text|);
    KeptSplit(text, cs, 0, s, |text|);
    KeptSplit(text, cs, s, e, |text|);
    KeptLength(text, cs, s, e);
  }
}
