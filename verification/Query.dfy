/** Rebuilding whole documents, and their citations, from a scanned list of chunks. */
module Query {
  import opened PyText
  import opened VectorStore

  // ---------- Chunks by document ----------

  /** The documents in the order of their first chunk. */
  function DocOrder(chunks: seq<RetrievedChunk>): seq<string> {
    if chunks == [] then []
    else
      var n := |chunks| - 1;
      var order := DocOrder(chunks[..n]);
      if chunks[n].documentId in order then order else order + [chunks[n].documentId]
  }

  /** The chunks of one document, in scan order. */
  function OfDoc(chunks: seq<RetrievedChunk>, documentId: string): seq<RetrievedChunk> {
    if chunks == [] then []
    else
      var n := |chunks| - 1;
      var before := OfDoc(chunks[..n], documentId);
      if chunks[n].documentId == documentId then before + [chunks[n]] else before
  }

  lemma {:induction false} OfDocElements(chunks: seq<RetrievedChunk>, d: string)
    ensures forall c :: c in OfDoc(chunks, d) <==> c in chunks && c.documentId == d
    decreases |chunks|
  {
    if chunks != [] {
      var n := |chunks| - 1;
      OfDocElements(chunks[..n], d);
      assert chunks == chunks[..n] + [chunks[n]];
    }
  }

  lemma {:induction false} DocOrderElements(chunks: seq<RetrievedChunk>)
    ensures forall d :: d in DocOrder(chunks) <==> OfDoc(chunks, d) != []
    ensures forall i, j :: 0 <= i < j < |DocOrder(chunks)| ==> DocOrder(chunks)[i] != DocOrder(chunks)[j]
    decreases |chunks|
  {
    if chunks != [] {
      DocOrderElements(chunks[..|chunks| - 1]);
    }
  }

  // ---------- Sorting by chunk index ----------

  /** Insert after every chunk whose index is not greater. */
  function Insert(cs: seq<RetrievedChunk>, c: RetrievedChunk): (r: seq<RetrievedChunk>)
    ensures |r| == |cs| + 1
  {
    if cs == [] then [c]
    else
      var n := |cs| - 1;
      if cs[n].chunkIndex <= c.chunkIndex then cs + [c] else Insert(cs[..n], c) + [cs[n]]
  }

  /** Python's stable `list.sort(key=chunk_index)`. */
  function SortByIndex(cs: seq<RetrievedChunk>): (r: seq<RetrievedChunk>)
    ensures |r| == |cs|
  {
    if cs == [] then [] else Insert(SortByIndex(cs[..|cs| - 1]), cs[|cs| - 1])
  }

  predicate SortedByIndex(cs: seq<RetrievedChunk>) {
    forall i, j :: 0 <= i < j < |cs| ==> cs[i].chunkIndex <= cs[j].chunkIndex
  }

  // ---------- Joining ----------

  /** What a chunk adds to a text that already reaches `cursor`. */
  function Tail(c: RetrievedChunk, cursor: int): string {
    if c.charStart >= cursor then c.text
    else Slice(c.text, cursor - c.charStart, |c.text|)
  }

  /** Chunks one after the other, each without the part that is already there. */
  function Join(cs: seq<RetrievedChunk>, cursor: int): string {
    if cs == [] then "" else Tail(cs[0], cursor) + Join(cs[1..], Max(cursor, cs[0].charEnd))
  }

  function Concat(pieces: seq<string>): string {
    if pieces == [] then "" else Concat(pieces[..|pieces| - 1]) + pieces[|pieces| - 1]
  }

  function DocText(chunks: seq<RetrievedChunk>, documentId: string): string {
    Join(SortByIndex(OfDoc(chunks, documentId)), 0)
  }

  /** The text of each listed document. */
  function TextsOf(chunks: seq<RetrievedChunk>, order: seq<string>): (docs: seq<(string, string)>)
    ensures |docs| == |order|
  {
    if order == [] then []
    else
      var n := |order| - 1;
      TextsOf(chunks, order[..n]) + [(order[n], DocText(chunks, order[n]))]
  }

  /** Every document in the list with its rebuilt text. */
  function Assemble(chunks: seq<RetrievedChunk>): seq<(string, string)> {
    TextsOf(chunks, DocOrder(chunks))
  }

  method JoinDocument(docChunks: seq<RetrievedChunk>) returns (text: string)
    ensures text == Join(docChunks, 0)
  {
    var pieces: seq<string> := [];
    var cursor := 0;
    for i := 0 to |docChunks|
      invariant Concat(pieces) + Join(docChunks[i..], cursor) == Join(docChunks, 0)
    {
      var c := docChunks[i];
      ghost var before, rest := pieces, Join(docChunks[i + 1..], Max(cursor, c.charEnd));
      assert docChunks[i..][1..] == docChunks[i + 1..];
      assert Join(docChunks[i..], cursor) == Tail(c, cursor) + rest;
      if c.charStart >= cursor {
        pieces := pieces + [c.text];
      } else {
        var overlap := cursor - c.charStart;
        pieces := pieces + [Slice(c.text, overlap, |c.text|)];
      }
      assert pieces[..|before|] == before && pieces[|before|] == Tail(c, cursor);
      Regroup(Concat(before), Tail(c, cursor), rest);
      cursor := Max(cursor, c.charEnd);
    }
    text := Concat(pieces);
  }

  method AssembleDocuments(chunks: seq<RetrievedChunk>) returns (out: seq<(string, string)>)
    ensures out == Assemble(chunks)
  {
    var order: seq<string> := [];
    var byDoc: map<string, seq<RetrievedChunk>> := map[];
    for i := 0 to |chunks|
      invariant order == DocOrder(chunks[..i])
      invariant forall d :: d in order <==> d in byDoc
      invariant forall d :: d in byDoc ==> byDoc[d] == OfDoc(chunks[..i], d)
      invariant forall d :: d !in byDoc ==> OfDoc(chunks[..i], d) == []
    {
      var c := chunks[i];
      assert chunks[..i + 1][..i] == chunks[..i] && chunks[..i + 1][i] == c;
      if c.documentId !in byDoc {
        order := order + [c.documentId];
        byDoc := byDoc[c.documentId := []];
      }
      byDoc := byDoc[c.documentId := byDoc[c.documentId] + [c]];
    }
    assert chunks[..|chunks|] == chunks;
    out := [];
    for j := 0 to |order|
      invariant out == TextsOf(chunks, order[..j])
    {
      assert order[j] in byDoc;
      var docChunks := SortByIndex(byDoc[order[j]]);
      var text := JoinDocument(docChunks);
      assert order[..j + 1][..j] == order[..j];
      out := out + [(order[j], text)];
    }
    assert order[..|order|] == order;
  }

  // ---------- Citations ----------

  datatype Citation = Citation(
    documentId: string, corpusId: string, chunkIndex: int, charStart: int, charEnd: int, score: real)

  datatype Hull = Hull(corpusId: string, chunkIndex: int, charStart: int, charEnd: int)

  function HullOfOne(c: RetrievedChunk): Hull {
    Hull(c.corpusId, c.chunkIndex, c.charStart, c.charEnd)
  }

  function Widen(h: Hull, c: RetrievedChunk): Hull {
    Hull(h.corpusId, Min(h.chunkIndex, c.chunkIndex), Min(h.charStart, c.charStart), Max(h.charEnd, c.charEnd))
  }

  /** The corpus of the first chunk, the least index and the span of all chunks. */
  function HullOf(cs: seq<RetrievedChunk>): Hull
    requires cs != []
  {
    if |cs| == 1 then HullOfOne(cs[0]) else Widen(HullOf(cs[..|cs| - 1]), cs[|cs| - 1])
  }

  function Cite(documentId: string, h: Hull): Citation {
    Citation(documentId, h.corpusId, h.chunkIndex, h.charStart, h.charEnd, 0.0)
  }

  function CitationsOf(chunks: seq<RetrievedChunk>, order: seq<string>): (r: seq<Citation>)
    requires forall d :: d in order ==> OfDoc(chunks, d) != []
    ensures |r| == |order|
  {
    if order == [] then []
    else
      var n := |order| - 1;
      CitationsOf(chunks, order[..n]) + [Cite(order[n], HullOf(OfDoc(chunks, order[n])))]
  }

  function FullDocCitations(chunks: seq<RetrievedChunk>): seq<Citation> {
    DocOrderElements(chunks);
    CitationsOf(chunks, DocOrder(chunks))
  }

  /** The recorded spans are the hulls of the documents seen. */
  ghost predicate SpansFit(seen: seq<RetrievedChunk>, spans: map<string, Hull>) {
    forall d :: if d in spans then OfDoc(seen, d) != [] && spans[d] == HullOf(OfDoc(seen, d)) else OfDoc(seen, d) == []
  }

  lemma {:induction false} SeenOneMore(seen: seq<RetrievedChunk>, c: RetrievedChunk)
    ensures forall d :: OfDoc(seen + [c], d) == if c.documentId == d then OfDoc(seen, d) + [c] else OfDoc(seen, d)
    ensures DocOrder(seen + [c]) ==
      if c.documentId in DocOrder(seen) then DocOrder(seen) else DocOrder(seen) + [c.documentId]
  {
    assert (seen + [c])[..|seen|] == seen;
  }

  lemma {:induction false} SpansNext(seen: seq<RetrievedChunk>, c: RetrievedChunk, spans: map<string, Hull>)
    requires SpansFit(seen, spans)
    ensures SpansFit(seen + [c],
      spans[c.documentId := if c.documentId in spans then Widen(spans[c.documentId], c) else HullOfOne(c)])
  {
    SeenOneMore(seen, c);
    var before := OfDoc(seen, c.documentId);
    assert (before + [c])[..|before|] == before;
  }

  method CitationsForFullDoc(chunks: seq<RetrievedChunk>) returns (citations: seq<Citation>)
    ensures citations == FullDocCitations(chunks)
  {
    var order: seq<string> := [];
    var spans: map<string, Hull> := map[];
    ghost var seen: seq<RetrievedChunk> := [];
    for i := 0 to |chunks|
      invariant seen == chunks[..i] && order == DocOrder(seen) && SpansFit(seen, spans)
    {
      var c := chunks[i];
      DocOrderElements(seen);
      SeenOneMore(seen, c);
      SpansNext(seen, c, spans);
      seen := seen + [c];
      if c.documentId !in spans {
        order := order + [c.documentId];
        spans := spans[c.documentId := HullOfOne(c)];
      } else {
        var s := spans[c.documentId];
        spans := spans[c.documentId := Widen(s, c)];
      }
    }
    assert seen == chunks;
    DocOrderElements(chunks);
    citations := [];
    for j := 0 to |order|
      invariant citations == CitationsOf(chunks, order[..j])
    {
      assert order[j] in order;
      assert order[..j + 1][..j] == order[..j];
      citations := citations + [Cite(order[j], spans[order[j]])];
    }
    assert order[..|order|] == order;
  }
}
