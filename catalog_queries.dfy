/** The pieces the read handlers of the track controller are built from: the
    visibility and genre filters, the newest-first order, MongoDB's skip and
    limit, the page arithmetic, the album member count and the track-number
    order of an album's members. */
module CatalogQueries {
  import opened Wrappers
  import opened TrackSchema

  /** The stored documents by id. */
  type Store = map<Id, Track>

  // ---------------------------------------------------------------------------
  // Filters

  /** The visibility clause of the listing and of search: albums, and singles
      whose `album` path is absent or null. Tracks that belong to an album are
      hidden from both. */
  predicate Visible(t: Track): (b: bool)
    ensures t.album.Val? || t.album.Uncastable? ==> (b <==> t.kind == "Album")
    ensures t.kind != "Album" && t.kind != "Single" ==> !b
  {
    t.kind == "Album" || (t.kind == "Single" && t.album.Unset?)
  }

  /** The front end's pseudo-genres, which do not filter. */
  const Categories: set<string> := {"all", "new", "popular", "featured"}

  /** The genre the listing filters on: none when the parameter is empty or a pseudo-genre. */
  function GenreFilter(genre: string): (g: Option<string>)
    ensures g.None? <==> genre == "" || genre in Categories
    ensures g.Some? ==> g.value == genre
  {
    if genre == "" || genre in Categories then None else Some(genre)
  }

  /** The filters the handlers pass to the store: the listing's (visibility and
      an optional genre; search uses it with no genre) and an album's members. */
  datatype Query = Listing(genre: Option<string>) | AlbumMembers(album: Id)

  predicate Matches(q: Query, t: Track) {
    match q
    case Listing(g) => Visible(t) && (g.Some? ==> t.genre == g.value)
    case AlbumMembers(a) => t.album == Val(a)
  }

  /** The ids `countDocuments(query)` counts. */
  function MatchSet(store: Store, q: Query): set<Id> {
    set k | k in store && Matches(q, store[k])
  }

  // ---------------------------------------------------------------------------
  // Order

  /** The matching ids below `n`, highest first. Ids are handed out in creation
      order, so under `Ordered` this is newest first (see `NewestFirstByCreation`). */
  function NewestFirst(store: Store, n: nat, q: Query): (ids: seq<Id>)
    ensures forall i :: 0 <= i < |ids| ==> ids[i] < n && ids[i] in store && Matches(q, store[ids[i]])
    ensures forall k :: 0 <= k < n && k in store && Matches(q, store[k]) ==> k in ids
    ensures forall i, j :: 0 <= i < j < |ids| ==> ids[i] > ids[j]
  {
    if n == 0 then []
    else
      var rest := NewestFirst(store, n - 1, q);
      if n - 1 in store && Matches(q, store[n - 1]) then [n - 1] + rest else rest
  }

  /** Of two stored documents, the one with the lower id was created first. */
  predicate CreatedInOrder(store: Store, j: Id, k: Id) {
    j in store && k in store && j < k ==> store[j].createdAt < store[k].createdAt
  }

  /** Creation time grows with the id. */
  ghost predicate Ordered(store: Store) {
    forall j, k :: CreatedInOrder(store, j, k)
  }

  /** `sort({ createdAt: -1 })`: newest first, with no ties. */
  lemma NewestFirstByCreation(store: Store, n: nat, q: Query)
    requires Ordered(store)
    ensures var ids := NewestFirst(store, n, q);
      forall i, j :: 0 <= i < j < |ids| ==> store[ids[i]].createdAt > store[ids[j]].createdAt
  {
    var ids := NewestFirst(store, n, q);
    forall i, j | 0 <= i < j < |ids| ensures store[ids[i]].createdAt > store[ids[j]].createdAt {
      assert CreatedInOrder(store, ids[j], ids[i]);
    }
  }

  function Elems(s: seq<Id>): set<Id> {
    set x | x in s
  }

  /** A strictly decreasing sequence has no repeated element. */
  lemma {:induction false} DecreasingDistinct(s: seq<Id>)
    requires forall i, j :: 0 <= i < j < |s| ==> s[i] > s[j]
    ensures |Elems(s)| == |s|
  {
    if s != [] {
      var rest := s[1..];
      DecreasingDistinct(rest);
      assert Elems(s) == Elems(rest) + {s[0]} by {
        assert s == [s[0]] + rest;
      }
      assert s[0] !in Elems(rest) by {
        forall i | 0 <= i < |rest| ensures rest[i] < s[0] {
          assert rest[i] == s[i + 1];
        }
      }
    }
  }

  /** When every id is below `n`, the ordered ids are exactly the matches, so
      the listing's length before windowing is the count the handlers report. */
  lemma NewestFirstIsMatchSet(store: Store, n: nat, q: Query)
    requires forall k :: k in store ==> k < n
    ensures Elems(NewestFirst(store, n, q)) == MatchSet(store, q)
    ensures |NewestFirst(store, n, q)| == |MatchSet(store, q)|
  {
    var ids := NewestFirst(store, n, q);
    assert Elems(ids) == MatchSet(store, q);
    DecreasingDistinct(ids);
  }

  // ---------------------------------------------------------------------------
  // skip and limit

  /** What `.skip(skip).limit(limit)` returns of the sorted matches: MongoDB
      refuses a negative skip, a limit of 0 means no limit, and a negative limit
      returns at most its absolute value. */
  function Window<T>(s: seq<T>, skip: int, limit: int): (w: Option<seq<T>>)
    ensures w.None? <==> skip < 0
    ensures w.Some? ==>
      var avail := if skip < |s| then |s| - skip else 0;
      |w.value| == (if limit == 0 then avail else Min(Abs(limit), avail))
    ensures w.Some? ==> forall i :: 0 <= i < |w.value| ==> w.value[i] == s[skip + i]
  {
    if skip < 0 then None
    else
      var rest := if skip < |s| then s[skip..] else [];
      Some(if limit == 0 || Abs(limit) >= |rest| then rest else rest[..Abs(limit)])
  }

  // ---------------------------------------------------------------------------
  // Pages

  /** `Math.ceil(a / b)` for a count `a` and a non-zero page size `b` of either sign. */
  function CeilDiv(a: nat, b: int): (c: int)
    requires b != 0
    ensures b > 0 ==> (c - 1) * b < a <= c * b
    ensures b < 0 ==> c * b <= a < (c - 1) * b
  {
    if b > 0 then
      var c := (a + b - 1) / b;
      assert a + b - 1 == c * b + (a + b - 1) % b;
      assert (c - 1) * b == c * b - b;
      c
    else
      var d := -b;
      var q := a / d;
      assert a == q * d + a % d;
      assert -q * b == q * d;
      assert (-q - 1) * b == q * d + d;
      -q
  }

  /** With a positive page size, page `p` (counting from 1) holds some of the
      `a` matches exactly when `p` is at most the reported page count, and
      every match lies on one of those pages. */
  lemma PagesCoverMatches(a: nat, b: int, p: int)
    requires b > 0 && p >= 1
    ensures b * (p - 1) < a <==> p <= CeilDiv(a, b)
    ensures forall i :: 0 <= i < a ==> i / b < CeilDiv(a, b)
  {
    var c := CeilDiv(a, b);
    if p <= c {
      MulMonotone(b, p - 1, c - 1);
    } else {
      MulMonotone(b, c, p - 1);
    }
    forall i | 0 <= i < a ensures i / b < c {
      assert (i / b) * b <= i by { assert i == (i / b) * b + i % b; }
      MulCancelStrict(b, i / b, c);
    }
  }

  lemma MulCancelStrict(b: int, x: int, y: int)
    requires b > 0 && x * b < y * b
    ensures x < y
  {
    assert b * (y - x) > 0 by { assert y * b - x * b == b * (y - x); }
  }

  lemma MulMonotone(b: int, x: int, y: int)
    requires b > 0 && x <= y
    ensures b * x <= b * y
  {
    assert b * y - b * x == b * (y - x);
  }

  // ---------------------------------------------------------------------------
  // Album member counts

  /** `countDocuments({ album: id })`: every document referring to the album, visible or not. */
  function TrackCount(store: Store, album: Id): (n: nat)
    ensures n == 0 <==> forall k :: k in store ==> store[k].album != Val(album)
    ensures n <= |store|
  {
    assert MatchSet(store, AlbumMembers(album)) <= store.Keys;
    CardinalityOfSubset(MatchSet(store, AlbumMembers(album)), store.Keys);
    MemberIsCounted(store, album);
    |MatchSet(store, AlbumMembers(album))|
  }

  lemma MemberIsCounted(store: Store, album: Id)
    ensures (exists k :: k in store && store[k].album == Val(album)) ==> MatchSet(store, AlbumMembers(album)) != {}
  {
    if k :| k in store && store[k].album == Val(album) {
      assert k in MatchSet(store, AlbumMembers(album));
    }
  }

  lemma {:induction false} CardinalityOfSubset<T>(a: set<T>, b: set<T>)
    requires a <= b
    ensures |a| <= |b|
    decreases b
  {
    if a != {} {
      var x :| x in a;
      CardinalityOfSubset(a - {x}, b - {x});
    }
  }

  /** One entry of a listing: the document and, for an album, its member count. */
  datatype Listed = Listed(track: Track, trackCount: Option<nat>)

  /** An album carries its member count and nothing else carries one. */
  predicate CountedFor(store: Store, e: Listed) {
    && (e.trackCount.Some? <==> e.track.kind == "Album")
    && (e.trackCount.Some? ==> e.trackCount.value == TrackCount(store, e.track.id))
  }

  function WithCounts(store: Store, ts: seq<Track>): (r: seq<Listed>)
    ensures |r| == |ts|
    ensures forall i :: 0 <= i < |ts| ==> r[i].track == ts[i] && CountedFor(store, r[i])
  {
    seq(|ts|, i requires 0 <= i < |ts| =>
      Listed(ts[i], if ts[i].kind == "Album" then Some(TrackCount(store, ts[i].id)) else None))
  }

  /** The documents the given ids name, in the same order. */
  function Fetch(store: Store, ids: seq<Id>): (ts: seq<Track>)
    requires forall i :: 0 <= i < |ids| ==> ids[i] in store
    ensures |ts| == |ids|
    ensures forall i :: 0 <= i < |ids| ==> ts[i] == store[ids[i]]
  {
    seq(|ids|, i requires 0 <= i < |ids| => store[ids[i]])
  }

  // ---------------------------------------------------------------------------
  // A page of the listing

  /** `es` is what `find(q).sort({ createdAt: -1 }).skip(skip).limit(limit)`
      returns, with album member counts: as many entries as the window admits,
      each the match at its rank, newest first. */
  ghost predicate IsWindow(store: Store, n: nat, es: seq<Listed>, q: Query, skip: int, limit: int) {
    var ranked := NewestFirst(store, n, q);
    var count := |MatchSet(store, q)|;
    var avail := if skip < count then count - skip else 0;
    && |es| == (if limit == 0 then avail else Min(Abs(limit), avail))
    && (forall i :: 0 <= i < |es| ==>
          && 0 <= skip + i < |ranked| && es[i].track == store[ranked[skip + i]]
          && Matches(q, es[i].track)
          && CountedFor(store, es[i]))
    && (forall i, j :: 0 <= i < j < |es| ==> es[i].track.createdAt > es[j].track.createdAt)
  }

  function ListWindow(store: Store, n: nat, q: Query, skip: int, limit: int): (w: Option<seq<Listed>>)
    requires forall k :: k in store ==> k < n
    requires Ordered(store)
    ensures w.None? <==> skip < 0
    ensures w.Some? ==> IsWindow(store, n, w.value, q, skip, limit)
  {
    var ranked := NewestFirst(store, n, q);
    match Window(ranked, skip, limit)
    case None => None
    case Some(ids) =>
      var es := WithCounts(store, Fetch(store, ids));
      WindowIsWindow(store, n, q, skip, limit, ids, es);
      Some(es)
  }

  lemma WindowIsWindow(store: Store, n: nat, q: Query, skip: int, limit: int, ids: seq<Id>, es: seq<Listed>)
    requires forall k :: k in store ==> k < n
    requires Ordered(store)
    requires Window(NewestFirst(store, n, q), skip, limit) == Some(ids)
    requires forall i :: 0 <= i < |ids| ==> ids[i] in store
    requires es == WithCounts(store, Fetch(store, ids))
    ensures IsWindow(store, n, es, q, skip, limit)
  {
    var ranked := NewestFirst(store, n, q);
    NewestFirstIsMatchSet(store, n, q);
    WindowEntries(store, ranked, skip, limit, ids, es);
    NewestFirstByCreation(store, n, q);
    WindowOrder(store, ranked, skip, es);
  }

  /** A window of a newest-first list is newest first. */
  lemma WindowOrder(store: Store, ranked: seq<Id>, skip: int, es: seq<Listed>)
    requires forall i :: 0 <= i < |ranked| ==> ranked[i] in store
    requires forall i, j :: 0 <= i < j < |ranked| ==> store[ranked[i]].createdAt > store[ranked[j]].createdAt
    requires forall i :: 0 <= i < |es| ==> 0 <= skip + i < |ranked| && es[i].track == store[ranked[skip + i]]
    ensures forall i, j :: 0 <= i < j < |es| ==> es[i].track.createdAt > es[j].track.createdAt
  {
    forall i, j | 0 <= i < j < |es| ensures es[i].track.createdAt > es[j].track.createdAt {
      assert es[i].track == store[ranked[skip + i]] && es[j].track == store[ranked[skip + j]];
    }
  }

  /** The entries of a window are the documents at the window's ranks, with their counts. */
  lemma WindowEntries(store: Store, ranked: seq<Id>, skip: int, limit: int, ids: seq<Id>, es: seq<Listed>)
    requires Window(ranked, skip, limit) == Some(ids)
    requires forall i :: 0 <= i < |ids| ==> ids[i] in store
    requires es == WithCounts(store, Fetch(store, ids))
    ensures |es| == |ids|
    ensures forall i :: 0 <= i < |es| ==>
      0 <= skip + i < |ranked| && es[i].track == store[ranked[skip + i]] && CountedFor(store, es[i])
  {
    var ts := Fetch(store, ids);
    forall i | 0 <= i < |es|
      ensures 0 <= skip + i < |ranked| && es[i].track == store[ranked[skip + i]] && CountedFor(store, es[i])
    {
      assert ids[i] == ranked[skip + i];
      assert es[i].track == ts[i];
    }
  }

  // ---------------------------------------------------------------------------
  // `sort({ trackNumber: 1 })`

  /** `a` may precede `b` in ascending track-number order; a member without a
      number sorts before every numbered one. */
  predicate NumberedNoLater(a: Track, b: Track) {
    a.trackNumber.Val? ==> b.trackNumber.Val? && a.trackNumber.value <= b.trackNumber.value
  }

  predicate ByTrackNumber(s: seq<Track>) {
    forall i, j :: 0 <= i < j < |s| ==> NumberedNoLater(s[i], s[j])
  }

  function InsertByNumber(t: Track, s: seq<Track>): (r: seq<Track>)
    requires ByTrackNumber(s)
    ensures ByTrackNumber(r)
    ensures multiset(r) == multiset(s) + multiset{t}
  {
    if s == [] then [t]
    else if NumberedNoLater(t, s[0]) then [t] + s
    else
      var rest := InsertByNumber(t, s[1..]);
      assert s == [s[0]] + s[1..];
      HeadPrecedes(t, s, rest);
      ConsSorted(s[0], rest);
      assert multiset([s[0]] + rest) == multiset(s) + multiset{t} by {
        assert multiset(s) == multiset{s[0]} + multiset(s[1..]);
      }
      [s[0]] + rest
  }

  /** The head of a sorted list may precede every element of its tail with `t`
      inserted, when it may not follow `t`. */
  lemma HeadPrecedes(t: Track, s: seq<Track>, rest: seq<Track>)
    requires s != [] && ByTrackNumber(s) && !NumberedNoLater(t, s[0])
    requires multiset(rest) == multiset(s[1..]) + multiset{t}
    ensures forall x :: x in rest ==> NumberedNoLater(s[0], x)
  {
    forall x | x in rest ensures NumberedNoLater(s[0], x) {
      assert x in multiset(rest);
      if x != t {
        assert x in s[1..];
        var j :| 0 <= j < |s[1..]| && s[1..][j] == x;
        assert s[j + 1] == x;
      }
    }
  }

  lemma ConsSorted(x: Track, s: seq<Track>)
    requires ByTrackNumber(s)
    requires forall y :: y in s ==> NumberedNoLater(x, y)
    ensures ByTrackNumber([x] + s)
  {
    var r := [x] + s;
    forall i, j | 0 <= i < j < |r| ensures NumberedNoLater(r[i], r[j]) {
      assert r[j] == s[j - 1];
      if i > 0 {
        assert r[i] == s[i - 1];
      }
    }
  }

  /** The members in ascending track-number order: the same documents, reordered. */
  function SortByTrackNumber(s: seq<Track>): (r: seq<Track>)
    ensures ByTrackNumber(r)
    ensures multiset(r) == multiset(s)
  {
    if s == [] then []
    else
      assert s == [s[0]] + s[1..];
      InsertByNumber(s[0], SortByTrackNumber(s[1..]))
  }
}
