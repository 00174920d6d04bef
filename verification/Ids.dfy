/** Deterministic chunk ids: a UUIDv5 (section 5.5 of RFC 9562) of `document:index`. */
module Ids {
  import opened PyText

  /** The number that a UUID spells; the vector store orders points by it. A UUID has 128 bits, so a real hash
      cannot tell all strings apart; the model leaves the range open so that an ideal one exists. */
  type PointId = nat

  /** The string that is hashed. */
  function ChunkKey(documentId: string, chunkIndex: nat): string {
    documentId + ":" + Decimal(chunkIndex)
  }

  /** `uuid5` is the hash under the fixed chunk namespace. */
  function ChunkIdFor(uuid5: string -> PointId, documentId: string, chunkIndex: nat): PointId {
    uuid5(ChunkKey(documentId, chunkIndex))
  }

  /** The hash has no collisions: the one idealisation that the model relies on. */
  ghost predicate Injective(uuid5: string -> PointId) {
    forall s, t :: uuid5(s) == uuid5(t) ==> s == t
  }

  /** The hashed string is the document id, a colon and the digits of the index. */
  lemma {:induction false} ChunkKeyReads(d: string, i: nat)
    ensures var s := ChunkKey(d, i);
      && |d| < |s| && s[..|d|] == d && s[|d|] == ':' && Reading(s[|d| + 1..]) == i
      && (forall k :: |d| < k < |s| ==> '0' <= s[k] <= '9') && (i > 0 ==> s[|d| + 1] != '0')
  {
    var s := ChunkKey(d, i);
    DecimalReads(i);
    assert s[|d| + 1..] == Decimal(i);
    assert forall k :: |d| < k < |s| ==> s[k] == Decimal(i)[k - |d| - 1];
  }

  /** It determines document and index, even when document ids contain colons. */
  lemma {:induction false} ChunkKeyInjective(d: string, i: nat, e: string, j: nat)
    requires ChunkKey(d, i) == ChunkKey(e, j)
    ensures d == e && i == j
  {
    ChunkKeyReads(d, i);
    ChunkKeyReads(e, j);
    assert |d| == |e|;
  }

  lemma {:induction false} ChunkIdInjective(uuid5: string -> PointId, d: string, i: nat, e: string, j: nat)
    requires Injective(uuid5) && ChunkIdFor(uuid5, d, i) == ChunkIdFor(uuid5, e, j)
    ensures d == e && i == j
  {
    ChunkKeyInjective(d, i, e, j);
  }
}
