/** A store of points keyed by number, with any kind of point: removal by a condition, and a scan of the
    points that meet a condition, in key order and page by page. */
module KeyedStore {
  import opened PyText

  // ---------- Keys in order ----------

  predicate Ascending(ids: seq<nat>) {
    forall i, j :: 0 <= i < j < |ids| ==> ids[i] < ids[j]
  }

  lemma {:induction false} HasLeast(s: set<nat>) returns (m: nat)
    requires s != {}
    ensures m in s && forall x :: x in s ==> m <= x
  {
    var y :| y in s;
    var t := s - {y};
    m := y;
    if t != {} {
      var l := HasLeast(t);
      m := if l < y then l else y;
    }
    forall x | x in s ensures m <= x {
      assert x == y || x in t;
    }
  }

  function Least(s: set<nat>): (m: nat)
    requires s != {}
    ensures m in s && forall x :: x in s ==> m <= x
  {
    assert exists m :: m in s && forall x :: x in s ==> m <= x by {
      var m := HasLeast(s);
    }
    var m :| m in s && forall x :: x in s ==> m <= x;
    m
  }

  /** The sequence holds exactly the elements of the set. */
  predicate Lists(ids: seq<nat>, s: set<nat>) {
    (forall i :: 0 <= i < |ids| ==> ids[i] in s) && forall x :: x in s ==> x in ids
  }

  lemma {:induction false} ListsFrom(m: nat, rest: seq<nat>, s: set<nat>)
    requires m in s && Lists(rest, s - {m}) && Ascending(rest) && forall x :: x in s ==> m <= x
    ensures Lists([m] + rest, s) && Ascending([m] + rest)
  {
    forall x | x in s ensures x in [m] + rest {
      assert x == m || x in s - {m};
    }
  }

  /** The elements of the set, least first. */
  function InOrder(s: set<nat>): (ids: seq<nat>)
    ensures Lists(ids, s) && Ascending(ids)
  {
    if s == {} then []
    else
      var m := Least(s);
      var rest := InOrder(s - {m});
      ListsFrom(m, rest, s);
      [m] + rest
  }

  lemma {:induction false} ListsNothing(a: seq<nat>, s: set<nat>)
    requires Lists(a, s)
    ensures a == [] <==> s == {}
  {
    if a != [] {
      assert a[0] in s;
    }
  }

  /** There is only one way to put a set in order. */
  lemma {:induction false} OrderUnique(a: seq<nat>, b: seq<nat>, s: set<nat>)
    requires Ascending(a) && Ascending(b) && Lists(a, s) && Lists(b, s)
    ensures a == b
    decreases s
  {
    ListsNothing(a, s);
    ListsNothing(b, s);
    if s != {} {
      HeadIsLeast(a, s);
      HeadIsLeast(b, s);
      assert a[0] == b[0];
      OrderUnique(a[1..], b[1..], s - {a[0]});
      FirstAndRest(a, b);
    }
  }

  lemma {:induction false} HeadIsLeast(a: seq<nat>, s: set<nat>)
    requires Ascending(a) && Lists(a, s) && a != []
    ensures a[0] in s && (forall x :: x in s ==> a[0] <= x) && Ascending(a[1..]) && Lists(a[1..], s - {a[0]})
  {
    forall x | x in s ensures a[0] <= x && (x != a[0] ==> x in a[1..]) {
      var i :| 0 <= i < |a| && a[i] == x;
      assert i > 0 ==> a[1..][i - 1] == x;
    }
    forall i | 0 <= i < |a[1..]| ensures a[1..][i] in s - {a[0]} {
      assert a[1..][i] == a[i + 1];
    }
  }

  // ---------- Writing ----------

  /** Write the items one by one; a later item replaces an earlier one with its key. */
  function PutAll<T>(points: map<nat, T>, items: seq<T>, key: T -> nat): map<nat, T> {
    if items == [] then points
    else
      var n := |items| - 1;
      PutAll(points, items[..n], key)[key(items[n]) := items[n]]
  }

  /** The last item with the key. */
  function Latest<T>(items: seq<T>, key: T -> nat, k: nat): (r: Option<T>)
    ensures r.None? <==> forall i :: 0 <= i < |items| ==> key(items[i]) != k
    ensures r.Some? ==> r.value in items && key(r.value) == k
  {
    if items == [] then None
    else
      var n := |items| - 1;
      if key(items[n]) == k then Some(items[n])
      else assert forall i :: 0 <= i < n ==> items[..n][i] == items[i]; Latest(items[..n], key, k)
  }

  /** After writing, a key holds the last item written to it, or what it held before. */
  lemma {:induction false} PutLookup<T>(points: map<nat, T>, items: seq<T>, key: T -> nat, k: nat)
    ensures k in PutAll(points, items, key) <==> k in points || Latest(items, key, k).Some?
    ensures k in PutAll(points, items, key) ==>
      PutAll(points, items, key)[k] == if Latest(items, key, k).Some? then Latest(items, key, k).value else points[k]
    decreases |items|
  {
    if items != [] {
      PutLookup(points, items[..|items| - 1], key, k);
    }
  }

  /** Writing the same items again at once changes nothing. */
  lemma {:induction false} PutTwice<T>(points: map<nat, T>, items: seq<T>, key: T -> nat)
    ensures PutAll(PutAll(points, items, key), items, key) == PutAll(points, items, key)
  {
    var once, twice := PutAll(points, items, key), PutAll(PutAll(points, items, key), items, key);
    forall k ensures (k in twice <==> k in once) && (k in once ==> twice[k] == once[k]) {
      PutLookup(points, items, key, k);
      PutLookup(once, items, key, k);
    }
    assert twice.Keys == once.Keys;
  }

  // ---------- Removal ----------

  /** The points that do not meet the condition. */
  function Without<T>(points: map<nat, T>, doomed: T -> bool): map<nat, T> {
    map id | id in points && !doomed(points[id]) :: points[id]
  }

  function Doomed<T>(points: map<nat, T>, doomed: T -> bool): set<nat> {
    set id | id in points && doomed(points[id])
  }

  /** The number of points that meet the condition. */
  function Count<T>(points: map<nat, T>, doomed: T -> bool): nat {
    |Doomed(points, doomed)|
  }

  lemma {:induction false} UnionSize(a: set<nat>, b: set<nat>)
    requires a !! b
    ensures |a + b| == |a| + |b|
  {
  }

  /** The count is the number of points that go. */
  lemma {:induction false} CountIsRemoved<T>(points: map<nat, T>, doomed: T -> bool)
    ensures Count(points, doomed) == |points| - |Without(points, doomed)|
  {
    var gone, kept := Doomed(points, doomed), Without(points, doomed);
    assert gone !! kept.Keys && gone + kept.Keys == points.Keys;
    UnionSize(gone, kept.Keys);
    assert |kept| == |kept.Keys| && |points| == |points.Keys|;
  }

  /** When the count is 0, nothing goes. */
  lemma {:induction false} WithoutNone<T>(points: map<nat, T>, doomed: T -> bool)
    requires Count(points, doomed) == 0
    ensures Without(points, doomed) == points
  {
    forall id | id in points ensures id in Without(points, doomed) {
      assert id !in Doomed(points, doomed);
    }
  }

  // ---------- The scroll ----------

  /** The ids from `offset` on whose points meet the condition. */
  function Candidates<T>(points: map<nat, T>, keep: T -> bool, offset: Option<nat>): set<nat> {
    set id | id in points && keep(points[id]) && (offset.Some? ==> offset.value <= id)
  }

  predicate Present<T>(points: map<nat, T>, ids: seq<nat>) {
    forall i :: 0 <= i < |ids| ==> ids[i] in points
  }

  function PointsAt<T>(points: map<nat, T>, ids: seq<nat>): (r: seq<T>)
    requires Present(points, ids)
    ensures |r| == |ids|
  {
    if ids == [] then [] else [points[ids[0]]] + PointsAt(points, ids[1..])
  }

  lemma {:induction false} PointsAtIndex<T>(points: map<nat, T>, ids: seq<nat>, i: nat)
    requires Present(points, ids) && i < |ids|
    ensures PointsAt(points, ids)[i] == points[ids[i]]
    decreases |ids|
  {
    if i > 0 {
      PointsAtIndex(points, ids[1..], i - 1);
    }
  }

  function ElementAt(ids: seq<nat>, i: nat): Option<nat> {
    if i < |ids| then Some(ids[i]) else None
  }

  datatype Page<T> = Page(points: seq<T>, next: Option<nat>)

  /** The first `limit` of the listed points, and the id that follows them, if there is one. */
  function FirstPage<T>(points: map<nat, T>, ids: seq<nat>, limit: nat): Page<T>
    requires Present(points, ids)
  {
    Page(PointsAt(points, ids[..Min(limit, |ids|)]), ElementAt(ids, limit))
  }

  /** One page of the scan in id order, and the id where the next page begins. */
  function Scroll<T>(points: map<nat, T>, keep: T -> bool, limit: nat, offset: Option<nat>): Page<T> {
    FirstPage(points, InOrder(Candidates(points, keep, offset)), limit)
  }

  function MatchingIds<T>(points: map<nat, T>, keep: T -> bool): (ids: seq<nat>)
    ensures Present(points, ids)
  {
    InOrder(Candidates(points, keep, None))
  }

  /** What one unlimited, unpaged scan would find. */
  function Matching<T>(points: map<nat, T>, keep: T -> bool): seq<T> {
    PointsAt(points, MatchingIds(points, keep))
  }

  /** The first `limit` matching points. */
  function Scan<T>(points: map<nat, T>, keep: T -> bool, limit: int): seq<T> {
    var all := Matching(points, keep);
    all[..Max(0, Min(limit, |all|))]
  }

  /** The scan is full when it leaves out a match, and then every point found has a smaller key. */
  lemma {:induction false} ScanIsFirst<T>(points: map<nat, T>, keep: T -> bool, limit: nat, id: nat)
    requires id in points && keep(points[id])
    requires forall j :: 0 <= j < |Scan(points, keep, limit)| ==> MatchingIds(points, keep)[j] != id
    ensures |Scan(points, keep, limit)| == limit
    ensures forall i :: 0 <= i < limit ==> MatchingIds(points, keep)[i] < id
  {
    var ids := MatchingIds(points, keep);
    assert id in Candidates(points, keep, None);
    var j :| 0 <= j < |ids| && ids[j] == id;
  }

  lemma {:induction false} PointsAtSame<T>(p: map<nat, T>, q: map<nat, T>, ids: seq<nat>)
    requires Present(p, ids) && Present(q, ids) && forall i :: 0 <= i < |ids| ==> p[ids[i]] == q[ids[i]]
    ensures PointsAt(p, ids) == PointsAt(q, ids)
    decreases |ids|
  {
    if ids != [] {
      PointsAtSame(p, q, ids[1..]);
    }
  }

  /** Stores with the same matching points are scanned alike. */
  lemma {:induction false} MatchingSame<T>(p: map<nat, T>, q: map<nat, T>, keep: T -> bool)
    requires forall id :: id in p && keep(p[id]) ==> id in q && q[id] == p[id]
    requires forall id :: id in q && keep(q[id]) ==> id in p && p[id] == q[id]
    ensures Matching(p, keep) == Matching(q, keep)
  {
    assert Candidates(p, keep, None) == Candidates(q, keep, None);
    PointsAtSame(p, q, MatchingIds(p, keep));
  }

  // ---------- Pages follow one another ----------

  /** From the `k`-th on, an ascending sequence lists the elements that are not below its `k`-th. */
  lemma {:induction false} TailLists(ids: seq<nat>, s: set<nat>, k: nat, rest: set<nat>)
    requires Ascending(ids) && Lists(ids, s) && k < |ids|
    requires rest == set x | x in s && ids[k] <= x
    ensures Ascending(ids[k..]) && Lists(ids[k..], rest)
  {
    forall x | x in rest ensures x in ids[k..] {
      var j :| 0 <= j < |ids| && ids[j] == x;
      assert ids[k..][j - k] == x;
    }
    forall i | 0 <= i < |ids[k..]| ensures ids[k..][i] in rest {
      assert ids[k..][i] == ids[k + i];
    }
  }

  /** A page that begins at `offset` begins after the first `k` matches. */
  predicate BeginsAt<T>(points: map<nat, T>, keep: T -> bool, offset: Option<nat>, k: nat) {
    var ids := MatchingIds(points, keep);
    if offset.None? then k == 0 else k < |ids| && offset.value == ids[k]
  }

  /** Such a page continues the scan there: no gap and no repeat. */
  lemma {:induction false} ScrollContinues<T>(points: map<nat, T>, keep: T -> bool, offset: Option<nat>, k: nat)
    requires BeginsAt(points, keep, offset, k)
    ensures InOrder(Candidates(points, keep, offset)) == MatchingIds(points, keep)[k..]
  {
    if offset.Some? {
      var ids := MatchingIds(points, keep);
      var rest := Candidates(points, keep, offset);
      TailLists(ids, Candidates(points, keep, None), k, rest);
      OrderUnique(InOrder(rest), ids[k..], rest);
    }
  }

  lemma {:induction false} TailPage<T>(points: map<nat, T>, ids: seq<nat>, k: nat, n: nat)
    requires Present(points, ids) && k <= |ids|
    ensures var page := FirstPage(points, ids[k..], n);
      && |page.points| == Min(n, |ids| - k)
      && forall i :: 0 <= i < |page.points| ==> page.points[i] == PointsAt(points, ids)[k + i]
  {
    var m := Min(n, |ids| - k);
    forall i | 0 <= i < m ensures PointsAt(points, ids[k..][..m])[i] == PointsAt(points, ids)[k + i] {
      PointsAtIndex(points, ids[k..][..m], i);
      PointsAtIndex(points, ids, k + i);
    }
  }

  /** The part of a listing that begins at `k`. */
  ghost predicate PartFrom<T>(all: seq<T>, k: nat, part: seq<T>) {
    k + |part| <= |all| && forall i :: 0 <= i < |part| ==> part[i] == all[k + i]
  }

  /** The page holds the matches that follow the first `k`. */
  lemma {:induction false} PageAt<T>(points: map<nat, T>, keep: T -> bool, n: nat, offset: Option<nat>, k: nat)
    requires BeginsAt(points, keep, offset, k)
    ensures var all, page := Matching(points, keep), Scroll(points, keep, n, offset).points;
      |page| == Min(n, |all| - k) && PartFrom(all, k, page)
  {
    ScrollContinues(points, keep, offset, k);
    TailPage(points, MatchingIds(points, keep), k, n);
  }

  /** The next page begins right after this one. */
  lemma {:induction false} NextPageAt<T>(points: map<nat, T>, keep: T -> bool, n: nat, offset: Option<nat>, k: nat)
    requires BeginsAt(points, keep, offset, k)
    ensures var page := Scroll(points, keep, n, offset);
      if page.next.None? then |Matching(points, keep)| <= k + n
      else |page.points| == n && BeginsAt(points, keep, page.next, k + n)
  {
    ScrollContinues(points, keep, offset, k);
  }

  // ---------- Mapping a sequence ----------

  function MapAll<A, B>(f: A -> B, s: seq<A>): (r: seq<B>)
    ensures |r| == |s|
  {
    if s == [] then [] else MapAll(f, s[..|s| - 1]) + [f(s[|s| - 1])]
  }

  /** `out` maps the first elements of `s`. */
  ghost predicate Mapped<A, B>(f: A -> B, s: seq<A>, out: seq<B>) {
    |out| <= |s| && forall i :: 0 <= i < |out| ==> out[i] == f(s[i])
  }

  lemma {:induction false} MapNext<A, B>(f: A -> B, s: seq<A>, out: seq<B>, x: A)
    requires Mapped(f, s, out) && |out| < |s| && x == s[|out|]
    ensures Mapped(f, s, out + [f(x)])
  {
  }

  lemma {:induction false} MappedIsMapAll<A, B>(f: A -> B, s: seq<A>, out: seq<B>)
    requires Mapped(f, s, out)
    ensures out == MapAll(f, s[..|out|])
  {
    forall i | 0 <= i < |out| ensures out[i] == MapAll(f, s[..|out|])[i] {
      MapAt(f, s[..|out|], i);
    }
  }

  lemma {:induction false} MapAt<A, B>(f: A -> B, s: seq<A>, i: nat)
    requires i < |s|
    ensures MapAll(f, s)[i] == f(s[i])
    decreases |s|
  {
    if i < |s| - 1 {
      MapAt(f, s[..|s| - 1], i);
    }
  }
}
