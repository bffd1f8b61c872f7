/** Email/query of `protocol/jmapd`: the page over rows already folded into the summary
    projection, merged with a live scan of the rows that are not. */
module EmailQuery {
  import opened EmailRows
  import opened EmailSort
  import opened EmailPlaces

  const MaxObjectsInQuery := 1000

  // ---------------------------------------------------------------------------
  // The merge path
  // ---------------------------------------------------------------------------

  /** The folded rows followed by the live rows of other groups. */
  function Joined(folded: seq<QRow>, live: seq<QRow>): seq<QRow> {
    folded + Others(live, Gids(folded))
  }

  /** The one list that pages should be slices of. */
  function Listing(folded: seq<QRow>, live: seq<QRow>, asc: bool): seq<QRow> {
    Sort(Joined(folded, live), asc)
  }

  function Prefix(s: seq<QRow>, w: nat): seq<QRow> {
    s[..Min(w, |s|)]
  }

  /** What the code has of it: made from the first `w` folded rows. */
  function Window(folded: seq<QRow>, live: seq<QRow>, asc: bool, w: nat): seq<QRow> {
    Listing(Prefix(folded, w), live, asc)
  }

  /** The page as it is made: from a window that grows with the position. */
  function MergedPage(folded: seq<QRow>, live: seq<QRow>, asc: bool, position: nat, limit: nat): seq<int> {
    Slice(Ids(Window(folded, live, asc, position + limit + |live|)), position, limit)
  }

  lemma JoinedDistinct(folded: seq<QRow>, live: seq<QRow>)
    requires DistinctGids(folded) && DistinctGids(live)
    ensures DistinctGids(Joined(folded, live))
  {
    OthersRows(live, Gids(folded));
    var rest := Others(live, Gids(folded));
    forall i, j | 0 <= i < |folded| && 0 <= j < |rest| ensures folded[i].gid != rest[j].gid {
      assert rest[j] in rest && folded[i] in folded;
    }
  }

  /** The list holds each group on either side exactly once. */
  lemma ListingHoldsEachGroup(folded: seq<QRow>, live: seq<QRow>, asc: bool)
    requires DistinctGids(folded) && DistinctGids(live)
    ensures DistinctGids(Listing(folded, live, asc)) && WeaklySorted(Listing(folded, live, asc), asc)
    ensures Gids(Listing(folded, live, asc)) == Gids(folded) + Gids(live)
  {
    var base, u := Joined(folded, live), Listing(folded, live, asc);
    JoinedDistinct(folded, live);
    SortIsSorted(base, asc);
    SortedDistinct(u, base, asc);
    OthersRows(live, Gids(folded));
    forall g | g in Gids(folded) + Gids(live) ensures g in Gids(u) {
      if g in Gids(folded) {
        var r :| r in folded && r.gid == g;
        assert r in base && r in u;
      } else {
        var r :| r in live && r.gid == g;
        assert r in base && r in u;
      }
    }
  }

  lemma WindowRows(folded: seq<QRow>, live: seq<QRow>, asc: bool, w: nat)
    requires DistinctGids(folded) && DistinctGids(live)
    ensures DistinctGids(Window(folded, live, asc, w)) && |Window(folded, live, asc, w)| >= Min(w, |folded|)
  {
    ListingHoldsEachGroup(Prefix(folded, w), live, asc);
    SortLength(Joined(Prefix(folded, w), live), asc);
  }

  // ---------------------------------------------------------------------------
  // What moves when the window grows by a row
  // ---------------------------------------------------------------------------

  /** Siblings of one group, folded and live, share the sort key. */
  ghost predicate SiblingsShareKey(folded: seq<QRow>, live: seq<QRow>) {
    forall a, b :: a in folded && b in live && a.gid == b.gid ==> a.key == b.key
  }

  ghost predicate Rows(folded: seq<QRow>, live: seq<QRow>) {
    DistinctGids(folded) && DistinctGids(live) && SiblingsShareKey(folded, live)
  }

  /** Where the group is among the rows, if it is. */
  function Find(rows: seq<QRow>, gid: int): (i: nat)
    ensures i <= |rows| && (i < |rows| ==> rows[i].gid == gid) && forall k :: 0 <= k < i ==> rows[k].gid != gid
  {
    if rows == [] || rows[0].gid == gid then 0 else 1 + Find(rows[1..], gid)
  }

  /** The live rows that the first `w` folded ones leave over. */
  function Left(folded: seq<QRow>, rows: seq<QRow>, w: nat): seq<QRow>
    requires w <= |folded|
  {
    Others(rows, Gids(folded[..w]))
  }

  /** The place that the folded row `w` gets, when its group is new to the list. */
  function NewPlace(folded: seq<QRow>, live: seq<QRow>, asc: bool, w: nat): nat
    requires w < |folded|
  {
    Place(folded[..w], folded[w], Left(folded, live, w), asc)
  }

  /** The place that its live sibling, at `i`, has before it, and the place it gets. */
  function OldPlace(folded: seq<QRow>, live: seq<QRow>, asc: bool, w: nat, i: nat): nat
    requires w < |folded| && i < |live|
  {
    Place(folded[..w] + Left(folded, live[..i], w), folded[w], Left(folded, live[i + 1..], w), asc)
  }

  function SiblingPlace(folded: seq<QRow>, live: seq<QRow>, asc: bool, w: nat, i: nat): nat
    requires w < |folded| && i < |live|
  {
    Place(folded[..w], folded[w], Left(folded, live[..i], w) + Left(folded, live[i + 1..], w), asc)
  }

  /** Whether place `q` shows another group once the folded row `w` is in the window. */
  predicate Moves(folded: seq<QRow>, live: seq<QRow>, asc: bool, w: nat, q: nat)
    requires w < |folded|
  {
    var i := Find(live, folded[w].gid);
    if i == |live| then NewPlace(folded, live, asc, w) <= q
    else Between(OldPlace(folded, live, asc, w, i), SiblingPlace(folded, live, asc, w, i), q)
  }

  lemma NextGids(folded: seq<QRow>, w: nat)
    requires DistinctGids(folded) && w < |folded|
    ensures folded[..w + 1] == folded[..w] + [folded[w]] && Gids(folded[..w + 1]) == Gids(folded[..w]) + {folded[w].gid}
    ensures folded[w].gid !in Gids(folded[..w])
  {
    assert folded[..w + 1] == folded[..w] + [folded[w]];
  }

  lemma NewGroup(folded: seq<QRow>, live: seq<QRow>, asc: bool, w: nat)
    requires Rows(folded, live) && w < |folded| && Find(live, folded[w].gid) == |live|
    ensures Window(folded, live, asc, w + 1) == PutAt(Window(folded, live, asc, w), NewPlace(folded, live, asc, w), folded[w])
  {
    NextGids(folded, w);
    OthersMore(live, Gids(folded[..w]), folded[w].gid);
    SortWithOneMore(folded[..w], folded[w], Left(folded, live, w), asc);
  }

  /** Without the sibling: what both windows have in common. */
  function Without(folded: seq<QRow>, live: seq<QRow>, asc: bool, w: nat, i: nat): seq<QRow>
    requires w < |folded| && i < |live|
  {
    Sort(folded[..w] + (Left(folded, live[..i], w) + Left(folded, live[i + 1..], w)), asc)
  }

  lemma LeftAround(folded: seq<QRow>, live: seq<QRow>, w: nat, i: nat)
    requires Rows(folded, live) && w < |folded| && i < |live| && live[i].gid == folded[w].gid
    ensures Left(folded, live, w) == Left(folded, live[..i], w) + [folded[w]] + Left(folded, live[i + 1..], w)
    ensures Left(folded, live, w + 1) == Left(folded, live[..i], w) + Left(folded, live[i + 1..], w)
  {
    var a, y, b, gids := live[..i], live[i], live[i + 1..], Gids(folded[..w]);
    NextGids(folded, w);
    assert y in live && folded[w] in folded && y == folded[w];
    assert live == a + [y] + b;
    OthersAround(a, y, b, gids);
    OthersAround(a, y, b, gids + {y.gid});
    OthersMore(a, gids, y.gid);
    OthersMore(b, gids, y.gid);
  }

  lemma OthersAround(a: seq<QRow>, y: QRow, b: seq<QRow>, gids: set<int>)
    ensures Others(a + [y] + b, gids) == Others(a, gids) + (if y.gid in gids then [] else [y]) + Others(b, gids)
  {
    OthersAppend(a + [y], b, gids);
    OthersAppend(a, [y], gids);
    assert [y][..0] == [];
  }

  lemma SiblingMoves(folded: seq<QRow>, live: seq<QRow>, asc: bool, w: nat, i: nat)
    requires Rows(folded, live) && w < |folded| && i < |live| && live[i].gid == folded[w].gid
    ensures Window(folded, live, asc, w) == PutAt(Without(folded, live, asc, w, i), OldPlace(folded, live, asc, w, i), folded[w])
    ensures Window(folded, live, asc, w + 1) == PutAt(Without(folded, live, asc, w, i), SiblingPlace(folded, live, asc, w, i), folded[w])
  {
    var p, y, a, b := folded[..w], folded[w], Left(folded, live[..i], w), Left(folded, live[i + 1..], w);
    LeftAround(folded, live, w, i);
    NextGids(folded, w);
    SortWithOneMore(p + a, y, b, asc);
    SortWithOneMore(p, y, a + b, asc);
    Regroups(p, y, a, b);
  }

  lemma Regroups(p: seq<QRow>, y: QRow, a: seq<QRow>, b: seq<QRow>)
    ensures (p + a) + [y] + b == p + (a + [y] + b) && (p + a) + b == p + (a + b)
  {
  }

  /** Two lists show the same group at a place, or nothing. */
  predicate SameAt(a: seq<QRow>, b: seq<QRow>, q: nat) {
    (|a| > q <==> |b| > q) && (|a| > q && |b| > q ==> a[q].gid == b[q].gid)
  }

  /** From one place to the other. */
  predicate Between(p: nat, p': nat, q: nat) {
    p != p' && (p <= q <= p' || p' <= q <= p)
  }

  /** A list with a row at one place and the same list with it at another differ from the one
      place to the other, if no group comes twice. */
  lemma PutElsewhere(s: seq<QRow>, p: nat, p': nat, y: QRow, q: nat)
    requires p <= |s| && p' <= |s| && q <= |s| && DistinctGids(PutAt(s, p, y)) && DistinctGids(PutAt(s, p', y))
    ensures SameAt(PutAt(s, p, y), PutAt(s, p', y), q) <==> !Between(p, p', q)
  {
    PutAtIndex(s, p, y, q);
    PutAtIndex(s, p', y, q);
    PutAtIndex(s, p, y, p);
    PutAtIndex(s, p', y, p');
    if p <= q < p' {
      PutAtIndex(s, p, y, q + 1);
    } else if p' <= q < p {
      PutAtIndex(s, p', y, q + 1);
    }
  }

  lemma PutAnother(s: seq<QRow>, p: nat, y: QRow, q: nat)
    requires p <= |s| && q < |s| && DistinctGids(PutAt(s, p, y))
    ensures SameAt(s, PutAt(s, p, y), q) <==> q < p
  {
    PutAtIndex(s, p, y, q);
    PutAtIndex(s, p, y, q + 1);
  }

  lemma NewGroupMoves(folded: seq<QRow>, live: seq<QRow>, asc: bool, w: nat, q: nat)
    requires Rows(folded, live) && q < w < |folded| && Find(live, folded[w].gid) == |live|
    ensures SameAt(Window(folded, live, asc, w), Window(folded, live, asc, w + 1), q) <==> q < NewPlace(folded, live, asc, w)
  {
    NewGroup(folded, live, asc, w);
    WindowRows(folded, live, asc, w);
    WindowRows(folded, live, asc, w + 1);
    SortLength(folded[..w] + Left(folded, live, w), asc);
    PutAnother(Window(folded, live, asc, w), NewPlace(folded, live, asc, w), folded[w], q);
  }

  lemma SiblingGroupMoves(folded: seq<QRow>, live: seq<QRow>, asc: bool, w: nat, q: nat, i: nat)
    requires Rows(folded, live) && q < w < |folded| && i < |live| && live[i].gid == folded[w].gid
    ensures SameAt(Window(folded, live, asc, w), Window(folded, live, asc, w + 1), q)
      <==> !Between(OldPlace(folded, live, asc, w, i), SiblingPlace(folded, live, asc, w, i), q)
  {
    SiblingMoves(folded, live, asc, w, i);
    WindowRows(folded, live, asc, w);
    WindowRows(folded, live, asc, w + 1);
    SortLength(folded[..w] + (Left(folded, live[..i], w) + Left(folded, live[i + 1..], w)), asc);
    PutElsewhere(Without(folded, live, asc, w, i), OldPlace(folded, live, asc, w, i), SiblingPlace(folded, live, asc, w, i), folded[w], q);
  }

  /** Exactly the places that are said to move show another group afterwards. */
  lemma MovesExactly(folded: seq<QRow>, live: seq<QRow>, asc: bool, w: nat, q: nat)
    requires Rows(folded, live) && q < w < |folded|
    ensures SameAt(Window(folded, live, asc, w), Window(folded, live, asc, w + 1), q) <==> !Moves(folded, live, asc, w, q)
  {
    var i := Find(live, folded[w].gid);
    if i == |live| {
      NewGroupMoves(folded, live, asc, w, q);
    } else {
      SiblingGroupMoves(folded, live, asc, w, q, i);
    }
  }

  // ---------------------------------------------------------------------------
  // When pages are slices of one list
  // ---------------------------------------------------------------------------

  /** No window that a page is cut from differs from the next in a place of that page. */
  predicate Settled(folded: seq<QRow>, live: seq<QRow>, asc: bool) {
    forall w, q: nat :: 0 <= w < |folded| && q < w - |live| ==> !Moves(folded, live, asc, w, q)
  }

  /** The same for the windows of pages of at most the query cap. */
  predicate SettledInSight(folded: seq<QRow>, live: seq<QRow>, asc: bool) {
    forall w, q: nat :: 0 <= w < |folded| && w - |live| - MaxObjectsInQuery < q < w - |live| ==> !Moves(folded, live, asc, w, q)
  }

  ghost predicate PagesAreSlicesOf(list: seq<int>, folded: seq<QRow>, live: seq<QRow>, asc: bool) {
    forall position: nat, limit: nat :: 0 < limit <= MaxObjectsInQuery ==>
      MergedPage(folded, live, asc, position, limit) == Slice(list, position, limit)
  }

  lemma WholeWindow(folded: seq<QRow>, live: seq<QRow>, asc: bool, w: nat)
    requires w >= |folded|
    ensures Window(folded, live, asc, w) == Listing(folded, live, asc)
  {
    assert Prefix(folded, w) == folded;
  }

  /** Place `q` of the window of the smallest page that shows it. */
  function Shown(folded: seq<QRow>, live: seq<QRow>, asc: bool, q: nat): seq<QRow> {
    Window(folded, live, asc, q + 1 + |live|)
  }

  lemma SameAtOn(a: seq<QRow>, b: seq<QRow>, c: seq<QRow>, q: nat)
    requires SameAt(a, b, q) && SameAt(b, c, q)
    ensures SameAt(a, c, q)
  {
  }

  lemma StaysOnce(folded: seq<QRow>, live: seq<QRow>, asc: bool, q: nat, w: nat)
    requires Rows(folded, live) && q < w && (w < |folded| ==> !Moves(folded, live, asc, w, q))
    ensures SameAt(Window(folded, live, asc, w), Window(folded, live, asc, w + 1), q)
  {
    if w < |folded| {
      MovesExactly(folded, live, asc, w, q);
    } else {
      WholeWindow(folded, live, asc, w);
      WholeWindow(folded, live, asc, w + 1);
    }
  }

  ghost predicate SameInWindows(folded: seq<QRow>, live: seq<QRow>, asc: bool, q: nat, v: nat, w: nat) {
    SameAt(Window(folded, live, asc, v), Window(folded, live, asc, w), q)
  }

  lemma StaysOnceMore(folded: seq<QRow>, live: seq<QRow>, asc: bool, q: nat, v: nat, w: nat)
    requires Rows(folded, live) && q < w && (w < |folded| ==> !Moves(folded, live, asc, w, q))
    requires SameInWindows(folded, live, asc, q, v, w)
    ensures SameInWindows(folded, live, asc, q, v, w + 1)
  {
    StaysOnce(folded, live, asc, q, w);
    SameAtOn(Window(folded, live, asc, v), Window(folded, live, asc, w), Window(folded, live, asc, w + 1), q);
  }

  /** A place that does not move stays the same while the window grows. */
  lemma {:induction false} StaysWhileGrowing(folded: seq<QRow>, live: seq<QRow>, asc: bool, q: nat, v: nat, w: nat)
    requires Rows(folded, live) && q < v <= w
    requires forall u :: v <= u < w && u < |folded| ==> !Moves(folded, live, asc, u, q)
    ensures SameInWindows(folded, live, asc, q, v, w)
    decreases w
  {
    if v < w {
      StaysWhileGrowing(folded, live, asc, q, v, w - 1);
      StaysOnceMore(folded, live, asc, q, v, w - 1);
    }
  }

  /** The rows of pages of one row, one after the other. */
  function RowByRow(folded: seq<QRow>, live: seq<QRow>, asc: bool): (list: seq<int>)
    ensures |list| == |Listing(folded, live, asc)|
    ensures forall q :: 0 <= q < |list| ==> q < |Shown(folded, live, asc, q)| ==> list[q] == Shown(folded, live, asc, q)[q].gid
  {
    seq(|Listing(folded, live, asc)|, q requires 0 <= q =>
      if q < |Shown(folded, live, asc, q)| then Shown(folded, live, asc, q)[q].gid else 0)
  }

  lemma PageLength(folded: seq<QRow>, live: seq<QRow>, asc: bool, position: nat, limit: nat)
    requires Rows(folded, live)
    ensures var n := |Window(folded, live, asc, position + limit + |live|)|;
      var m := |Listing(folded, live, asc)|;
      Min(position, n) == Min(position, m) && Min(position + limit, n) == Min(position + limit, m)
  {
    var w := position + limit + |live|;
    WindowRows(folded, live, asc, w);
    WindowRows(folded, live, asc, |folded|);
    WholeWindow(folded, live, asc, |folded|);
    if w >= |folded| {
      WholeWindow(folded, live, asc, w);
    }
  }

  lemma SettledPlace(folded: seq<QRow>, live: seq<QRow>, asc: bool, w: nat, q: nat)
    requires Rows(folded, live) && SettledInSight(folded, live, asc) && q + |live| < w <= q + |live| + MaxObjectsInQuery
    requires q < |Listing(folded, live, asc)| && q < |Window(folded, live, asc, w)|
    ensures RowByRow(folded, live, asc)[q] == Window(folded, live, asc, w)[q].gid
  {
    forall v | q + |live| < v < w && v < |folded| ensures !Moves(folded, live, asc, v, q) {
      assert v - |live| - MaxObjectsInQuery < q < v - |live|;
    }
    StaysWhileGrowing(folded, live, asc, q, q + 1 + |live|, w);
  }

  lemma SettledSlices(folded: seq<QRow>, live: seq<QRow>, asc: bool, position: nat, limit: nat)
    requires Rows(folded, live) && SettledInSight(folded, live, asc) && 0 < limit <= MaxObjectsInQuery
    ensures MergedPage(folded, live, asc, position, limit) == Slice(RowByRow(folded, live, asc), position, limit)
  {
    var w := position + limit + |live|;
    PageLength(folded, live, asc, position, limit);
    forall q | position <= q < position + limit && q < |Listing(folded, live, asc)| && q < |Window(folded, live, asc, w)|
      ensures Ids(Window(folded, live, asc, w))[q] == RowByRow(folded, live, asc)[q]
    {
      SettledPlace(folded, live, asc, w, q);
    }
    SameSlices(Ids(Window(folded, live, asc, w)), RowByRow(folded, live, asc), position, limit);
  }

  lemma SameSlices(a: seq<int>, b: seq<int>, position: nat, limit: nat)
    requires Min(position, |a|) == Min(position, |b|) && Min(position + limit, |a|) == Min(position + limit, |b|)
    requires forall q :: position <= q < position + limit && q < |a| && q < |b| ==> a[q] == b[q]
    ensures Slice(a, position, limit) == Slice(b, position, limit)
  {
  }

  /** The merged pages, in either order and with siblings on both sides, are slices of one list
      if and only if no row that comes into a window moves a place within sight. */
  lemma PagesExactly(folded: seq<QRow>, live: seq<QRow>, asc: bool)
    requires Rows(folded, live)
    ensures (exists list :: PagesAreSlicesOf(list, folded, live, asc)) <==> SettledInSight(folded, live, asc)
  {
    if SettledInSight(folded, live, asc) {
      forall position: nat, limit: nat | 0 < limit <= MaxObjectsInQuery
        ensures MergedPage(folded, live, asc, position, limit) == Slice(RowByRow(folded, live, asc), position, limit)
      {
        SettledSlices(folded, live, asc, position, limit);
      }
      assert PagesAreSlicesOf(RowByRow(folded, live, asc), folded, live, asc);
    }
    if list :| PagesAreSlicesOf(list, folded, live, asc) {
      forall w, q: nat | 0 <= w < |folded| && w - |live| - MaxObjectsInQuery < q < w - |live| ensures !Moves(folded, live, asc, w, q) {
        SlicesAreSettled(list, folded, live, asc, w, q);
      }
    }
  }

  lemma SlicesAreSettled(list: seq<int>, folded: seq<QRow>, live: seq<QRow>, asc: bool, w: nat, q: nat)
    requires Rows(folded, live) && PagesAreSlicesOf(list, folded, live, asc)
    requires w < |folded| && w - |live| - MaxObjectsInQuery < q < w - |live|
    ensures !Moves(folded, live, asc, w, q)
  {
    var n := w - |live| - q;
    MovesExactly(folded, live, asc, w, q);
    WindowRows(folded, live, asc, w);
    WindowRows(folded, live, asc, w + 1);
    FirstShown(list, folded, live, asc, q, n);
    FirstShown(list, folded, live, asc, q, n + 1);
  }

  lemma FirstShown(list: seq<int>, folded: seq<QRow>, live: seq<QRow>, asc: bool, q: nat, n: nat)
    requires PagesAreSlicesOf(list, folded, live, asc) && 0 < n <= MaxObjectsInQuery
    requires q < |Window(folded, live, asc, q + n + |live|)|
    ensures q < |list| && list[q] == Window(folded, live, asc, q + n + |live|)[q].gid
  {
    assert MergedPage(folded, live, asc, q, n) == Slice(list, q, n);
    FirstOfSlice(Ids(Window(folded, live, asc, q + n + |live|)), q, n);
    FirstOfSlice(list, q, n);
  }

  lemma FirstOfSlice(s: seq<int>, q: nat, n: nat)
    requires n > 0
    ensures |Slice(s, q, n)| > 0 <==> q < |s|
    ensures q < |s| ==> Slice(s, q, n)[0] == s[q]
  {
  }

  /** Where nothing moves at all, that list is the sorted union. */
  lemma SettledPageIsSlice(folded: seq<QRow>, live: seq<QRow>, asc: bool, position: nat, limit: nat)
    requires Rows(folded, live) && Settled(folded, live, asc)
    ensures MergedPage(folded, live, asc, position, limit) == Slice(Ids(Listing(folded, live, asc)), position, limit)
  {
    var w, far := position + limit + |live|, position + limit + |live| + |folded|;
    PageLength(folded, live, asc, position, limit);
    WholeWindow(folded, live, asc, far);
    forall q | position <= q < position + limit && q < |Listing(folded, live, asc)| && q < |Window(folded, live, asc, w)|
      ensures Ids(Window(folded, live, asc, w))[q] == Ids(Listing(folded, live, asc))[q]
    {
      StaysWhileGrowing(folded, live, asc, q, w, far);
    }
    SameSlices(Ids(Window(folded, live, asc, w)), Ids(Listing(folded, live, asc)), position, limit);
  }

  // ---------------------------------------------------------------------------
  // Orders and ties
  // ---------------------------------------------------------------------------

  /** The folded rows come in the order in which the sort leaves them. */
  predicate Steady(folded: seq<QRow>, asc: bool) {
    WeaklySorted(folded, asc) && (asc || NoTies(folded))
  }

  /** What moves is at or behind the folded rows that stay in front. */
  lemma MovesBehind(folded: seq<QRow>, live: seq<QRow>, asc: bool, w: nat, q: nat)
    requires w < |folded| && Moves(folded, live, asc, w, q)
    ensures Ahead(folded[..w], folded[w], asc) <= q
  {
    var i := Find(live, folded[w].gid);
    if i < |live| {
      AheadAppend(folded[..w], Left(folded, live[..i], w), folded[w], asc);
    }
  }

  /** Every page is the requested slice of the sorted union, whatever the position and limit,
      when ascending, for any ties, and when no two folded rows tie. */
  lemma PageIsSlice(folded: seq<QRow>, live: seq<QRow>, asc: bool, position: nat, limit: nat)
    requires Rows(folded, live) && Steady(folded, asc)
    ensures Settled(folded, live, asc)
    ensures MergedPage(folded, live, asc, position, limit) == Slice(Ids(Listing(folded, live, asc)), position, limit)
  {
    forall w, q: nat | 0 <= w < |folded| && q < w - |live| ensures !Moves(folded, live, asc, w, q) {
      forall i | 0 <= i < w ensures !Before(folded[w], folded[..w][i], asc) {
        assert Ord(folded[i], asc) <= Ord(folded[w], asc);
      }
      AheadAll(folded[..w], folded[w], asc);
      if Moves(folded, live, asc, w, q) {
        MovesBehind(folded, live, asc, w, q);
      }
    }
    SettledPageIsSlice(folded, live, asc, position, limit);
  }

  predicate Disjoint(folded: seq<QRow>, live: seq<QRow>) {
    Gids(folded) !! Gids(live)
  }

  /** No folded rows tie in numbers beyond the live rows, the live rows not below them, and
      one. */
  predicate TiesFit(folded: seq<QRow>, live: seq<QRow>) {
    forall i :: 0 <= i < |folded| ==> Ties(folded, folded[i].key) <= |live| + Overtaking(live, folded[i], false) + 1
  }

  /** The same, where only live rows above them count, and only those without a sibling. */
  predicate TiesFitSiblings(folded: seq<QRow>, live: seq<QRow>) {
    forall i :: 0 <= i < |folded| ==>
      Ties(folded, folded[i].key) <= |live| + Ahead(Others(live, Gids(folded)), folded[i], false) + 1
  }

  /** In front of a folded row are larger keys and at most the other ties. */
  lemma FoldedAhead(folded: seq<QRow>, w: nat)
    requires WeaklySorted(folded, false) && w < |folded|
    ensures Ahead(folded[..w], folded[w], false) + Ties(folded[..w], folded[w].key) == w
    ensures Ties(folded[..w], folded[w].key) < Ties(folded, folded[w].key)
  {
    forall i | 0 <= i < w ensures folded[..w][i].key >= folded[w].key {
      assert Ord(folded[i], false) <= Ord(folded[w], false);
    }
    AheadAndTies(folded[..w], folded[w]);
    TiesAround(folded, w);
  }

  lemma NoGroup(live: seq<QRow>, folded: seq<QRow>, w: nat)
    requires Disjoint(folded, live) && w < |folded|
    ensures Find(live, folded[w].gid) == |live| && Left(folded, live, w) == live
  {
    var i := Find(live, folded[w].gid);
    assert folded[w].gid in Gids(folded) && Gids(folded[..w]) <= Gids(folded);
    assert forall k :: 0 <= k < |live| ==> live[k].gid in Gids(live);
    OthersAll(live, Gids(folded[..w]));
  }

  lemma FewTiesSettle(folded: seq<QRow>, live: seq<QRow>)
    requires Rows(folded, live) && WeaklySorted(folded, false) && Disjoint(folded, live) && TiesFit(folded, live)
    ensures Settled(folded, live, false)
  {
    forall w, q: nat | 0 <= w < |folded| && q < w - |live| ensures !Moves(folded, live, false, w, q) {
      FoldedAhead(folded, w);
      NoGroup(live, folded, w);
    }
  }

  lemma {:induction false} LastTied(folded: seq<QRow>, i: nat) returns (k: nat)
    requires i < |folded|
    ensures i <= k < |folded| && folded[k].key == folded[i].key
    ensures forall j :: k < j < |folded| ==> folded[j].key != folded[i].key
    decreases |folded|
  {
    if folded[|folded| - 1].key == folded[i].key {
      k := |folded| - 1;
    } else {
      k := LastTied(folded[..|folded| - 1], i);
    }
  }

  lemma {:induction false} SameKeySamePlace(rows: seq<QRow>, a: QRow, b: QRow)
    requires a.key == b.key
    ensures Overtaking(rows, a, false) == Overtaking(rows, b, false)
  {
    if rows != [] {
      SameKeySamePlace(rows[..|rows| - 1], a, b);
    }
  }

  lemma ManyTiesMove(folded: seq<QRow>, live: seq<QRow>, i: nat)
    requires Rows(folded, live) && WeaklySorted(folded, false) && Disjoint(folded, live) && i < |folded|
    requires Ties(folded, folded[i].key) > |live| + Overtaking(live, folded[i], false) + 1
    ensures !SettledInSight(folded, live, false)
  {
    var k := LastTied(folded, i);
    FoldedAhead(folded, k);
    TiesAround(folded, k);
    NoTiesLeft(folded[k + 1..], folded[k].key);
    NoGroup(live, folded, k);
    SameKeySamePlace(live, folded[i], folded[k]);
    assert Moves(folded, live, false, k, k - |live| - 1);
  }

  /** Descending, without siblings on both sides: there is one list that all pages are slices
      of if and only if no folded rows tie in numbers beyond the live rows, the live rows not
      below them, and one. */
  lemma DescendingPagesExactly(folded: seq<QRow>, live: seq<QRow>)
    requires Rows(folded, live) && WeaklySorted(folded, false) && Disjoint(folded, live)
    ensures (exists list :: PagesAreSlicesOf(list, folded, live, false)) <==> TiesFit(folded, live)
  {
    PagesExactly(folded, live, false);
    if TiesFit(folded, live) {
      FewTiesSettle(folded, live);
    } else {
      var i :| 0 <= i < |folded| && Ties(folded, folded[i].key) > |live| + Overtaking(live, folded[i], false) + 1;
      ManyTiesMove(folded, live, i);
    }
  }

  /** What moves with siblings around is behind the live rows above, too. */
  lemma MovesBehindLive(folded: seq<QRow>, live: seq<QRow>, w: nat, q: nat)
    requires Rows(folded, live) && w < |folded| && Moves(folded, live, false, w, q)
    ensures Ahead(folded[..w], folded[w], false) + Ahead(Others(live, Gids(folded)), folded[w], false) <= q
  {
    var i, y := Find(live, folded[w].gid), folded[w];
    if i == |live| {
      assert Gids(folded[..w]) <= Gids(folded);
      AheadFewer(live, Gids(folded[..w]), Gids(folded), y, false);
      PutsAhead(Left(folded, live, w), y);
    } else {
      SiblingsAhead(folded, live, w, i);
      BehindBoth(folded[..w], Left(folded, live[..i], w), Left(folded, live[i + 1..], w), y);
    }
  }

  /** Either way, a sibling is behind what stays in front of it. */
  lemma BehindBoth(p: seq<QRow>, a: seq<QRow>, b: seq<QRow>, y: QRow)
    ensures Ahead(p, y, false) + Ahead(a, y, false) + Ahead(b, y, false) <= Place(p + a, y, b, false)
    ensures Ahead(p, y, false) + Ahead(a, y, false) + Ahead(b, y, false) <= Place(p, y, a + b, false)
  {
    AheadAppend(p, a, y, false);
    OvertakingAppend(a, b, y, false);
    PutsAhead(a, y);
    PutsAhead(b, y);
  }

  lemma SiblingsAhead(folded: seq<QRow>, live: seq<QRow>, w: nat, i: nat)
    requires w < |folded| && i < |live| && live[i].gid == folded[w].gid
    ensures Ahead(Others(live, Gids(folded)), folded[w], false)
         <= Ahead(Left(folded, live[..i], w), folded[w], false) + Ahead(Left(folded, live[i + 1..], w), folded[w], false)
  {
    assert folded[w] in folded && Gids(folded[..w]) <= Gids(folded);
    Around(live, i);
    FewerAround(live[..i], live[i], live[i + 1..], Gids(folded[..w]), Gids(folded), folded[w]);
  }

  lemma Around(rows: seq<QRow>, i: nat)
    requires i < |rows|
    ensures rows == rows[..i] + [rows[i]] + rows[i + 1..]
  {
  }

  lemma FewerAround(a: seq<QRow>, x: QRow, b: seq<QRow>, gids: set<int>, more: set<int>, y: QRow)
    requires gids <= more && x.gid in more
    ensures Ahead(Others(a + [x] + b, more), y, false) <= Ahead(Others(a, gids), y, false) + Ahead(Others(b, gids), y, false)
  {
    WithoutSibling(a, x, b, more, y);
    AheadFewer(a, gids, more, y, false);
    AheadFewer(b, gids, more, y, false);
  }

  lemma WithoutSibling(a: seq<QRow>, x: QRow, b: seq<QRow>, gids: set<int>, y: QRow)
    requires x.gid in gids
    ensures Ahead(Others(a + [x] + b, gids), y, false) == Ahead(Others(a, gids), y, false) + Ahead(Others(b, gids), y, false)
  {
    OthersAround(a, x, b, gids);
    assert Others(a, gids) + [] == Others(a, gids);
    AheadAppend(Others(a, gids), Others(b, gids), y, false);
  }

  /** Descending, with siblings on both sides: few enough ties are always safe. */
  lemma FewTiesSettleSiblings(folded: seq<QRow>, live: seq<QRow>)
    requires Rows(folded, live) && WeaklySorted(folded, false) && TiesFitSiblings(folded, live)
    ensures Settled(folded, live, false)
  {
    forall w, q: nat | 0 <= w < |folded| && q < w - |live| ensures !Moves(folded, live, false, w, q) {
      FoldedAhead(folded, w);
      if Moves(folded, live, false, w, q) {
        MovesBehindLive(folded, live, w, q);
      }
    }
  }

  lemma OneRowSlice(s: seq<QRow>, p: nat)
    ensures Slice(Ids(s), p, 1) == if p < |s| then [s[p].gid] else []
  {
  }

  function Reversed(s: seq<QRow>): seq<QRow> {
    seq(|s|, i requires 0 <= i < |s| => s[|s| - 1 - i])
  }

  lemma {:induction false} InsertTied(s: seq<QRow>, x: QRow)
    requires forall i :: 0 <= i < |s| ==> s[i].key == x.key
    ensures Insert(s, x, false) == [x] + s
  {
    if s != [] {
      InsertTied(s[..|s| - 1], x);
      assert s == s[..|s| - 1] + [s[|s| - 1]];
    }
  }

  lemma {:induction false} TiedAreReversed(rows: seq<QRow>, key: int)
    requires forall i :: 0 <= i < |rows| ==> rows[i].key == key
    ensures Sort(rows, false) == Reversed(rows)
  {
    if rows != [] {
      var front, last := rows[..|rows| - 1], rows[|rows| - 1];
      TiedAreReversed(front, key);
      forall i | 0 <= i < |Reversed(front)| ensures Reversed(front)[i].key == last.key {
        assert Reversed(front)[i] == front[|front| - 1 - i] == rows[|front| - 1 - i];
      }
      InsertTied(Reversed(front), last);
      ReversedNext(front, last);
      assert rows == front + [last];
    }
  }

  lemma ReversedNext(s: seq<QRow>, x: QRow)
    ensures Reversed(s + [x]) == [x] + Reversed(s)
  {
  }

  lemma {:induction false} OthersAll(rows: seq<QRow>, gids: set<int>)
    requires Gids(rows) !! gids
    ensures Others(rows, gids) == rows
  {
    if rows != [] {
      var front, last := rows[..|rows| - 1], rows[|rows| - 1];
      assert rows == front + [last] && last.gid in Gids(rows);
      OthersAll(front, gids);
    }
  }

  /** Where everything ties, every page of one row behind the live rows shows one group. */
  lemma TiedPagesRepeat(folded: seq<QRow>, live: seq<QRow>, key: int, position: nat)
    requires Disjoint(folded, live) && |live| <= position && position + 1 + |live| <= |folded|
    requires forall i :: 0 <= i < |folded| ==> folded[i].key == key
    requires forall i :: 0 <= i < |live| ==> live[i].key == key
    ensures MergedPage(folded, live, false, position, 1) == [folded[2 * |live|].gid]
  {
    var pre := Prefix(folded, position + 1 + |live|);
    assert Gids(pre) <= Gids(folded);
    TiedListing(pre, live, key);
    var r := Reversed(pre + live);
    assert r[position] == (pre + live)[2 * |live|] == folded[2 * |live|];
    OneRowSlice(r, position);
  }

  lemma TiedListing(rows: seq<QRow>, live: seq<QRow>, key: int)
    requires Disjoint(rows, live)
    requires forall i :: 0 <= i < |rows| ==> rows[i].key == key
    requires forall i :: 0 <= i < |live| ==> live[i].key == key
    ensures Listing(rows, live, false) == Reversed(rows + live)
  {
    OthersAll(live, Gids(rows));
    TiedAreReversed(rows + live, key);
  }

  /** Groups 1 to `n`, all of one size. */
  function Numbered(n: nat): (rows: seq<QRow>)
    ensures |rows| == n && forall i :: 0 <= i < n ==> rows[i] == QRow(i + 1, 5)
  {
    seq(n, i => QRow(i + 1, 5))
  }

  /** Four folded rows and a live one, all of one size, listed from the largest: the second
      and the third page of one row show the same group. */
  lemma TiesRepeatAGroup() returns (folded: seq<QRow>, live: seq<QRow>)
    ensures folded == Numbered(4) && live == [QRow(9, 5)]
    ensures Rows(folded, live) && Disjoint(folded, live) && WeaklySorted(folded, false)
    ensures MergedPage(folded, live, false, 1, 1) == [3] == MergedPage(folded, live, false, 2, 1)
  {
    folded, live := Numbered(4), [QRow(9, 5)];
    assert forall g :: g in Gids(folded) ==> g <= 4;
    assert Gids(live) == {9};
    PagesOfTies(folded, live);
  }

  lemma PagesOfTies(folded: seq<QRow>, live: seq<QRow>)
    requires |folded| == 4 && |live| == 1 && Disjoint(folded, live) && folded[2].gid == 3
    requires (forall i :: 0 <= i < |folded| ==> folded[i].key == 5) && forall i :: 0 <= i < |live| ==> live[i].key == 5
    ensures MergedPage(folded, live, false, 1, 1) == [3] == MergedPage(folded, live, false, 2, 1)
  {
    TiedPagesRepeat(folded, live, 5, 1);
    TiedPagesRepeat(folded, live, 5, 2);
  }

  // ---------------------------------------------------------------------------
  // The query
  // ---------------------------------------------------------------------------

  /** An unfolded message, with what the live filter says of it. */
  datatype Msg = Msg(row: QRow, matches: bool)

  /** The rows of the messages that the live filter accepts. */
  function Matching(scanned: seq<Msg>): seq<QRow> {
    if scanned == [] then []
    else
      var m := scanned[|scanned| - 1];
      Matching(scanned[..|scanned| - 1]) + if m.matches then [m.row] else []
  }

  lemma UniqueNext(rows: seq<QRow>, x: QRow)
    ensures Unique(rows + [x]) == (if x.gid in Gids(Unique(rows)) then Unique(rows) else Unique(rows) + [x])
    ensures Gids(Unique(rows) + [x]) == Gids(Unique(rows)) + {x.gid}
  {
    assert (rows + [x])[..|rows|] == rows;
  }

  lemma MatchingNext(scanned: seq<Msg>, m: Msg)
    ensures Matching(scanned + [m]) == Matching(scanned) + if m.matches then [m.row] else []
  {
    assert (scanned + [m])[..|scanned|] == scanned;
  }

  /** The live matches: the first matching row of each group, in scan order. */
  method LiveRows(scanned: seq<Msg>) returns (live: seq<QRow>)
    ensures live == Unique(Matching(scanned))
    ensures DistinctGids(live) && Gids(live) == Gids(Matching(scanned))
  {
    live := [];
    var liveSeen: set<int> := {};
    for i := 0 to |scanned|
      invariant live == Unique(Matching(scanned[..i])) && liveSeen == Gids(live)
    {
      var m := scanned[i];
      assert scanned[..i + 1] == scanned[..i] + [m];
      MatchingNext(scanned[..i], m);
      if !m.matches {
        assert Matching(scanned[..i]) + [] == Matching(scanned[..i]);
        continue;
      }
      UniqueNext(Matching(scanned[..i]), m.row);
      if m.row.gid in liveSeen {
        continue;
      }
      liveSeen := liveSeen + {m.row.gid};
      live := live + [m.row];
    }
    assert scanned[..|scanned|] == scanned;
    UniqueRows(Matching(scanned));
  }

  /** Keeps the first row of each group. */
  method Dedup(rows: seq<QRow>) returns (uniq: seq<QRow>)
    ensures uniq == Unique(rows)
    ensures DistinctGids(uniq) && Gids(uniq) == Gids(rows)
  {
    uniq := [];
    var seen: set<int> := {};
    for i := 0 to |rows|
      invariant uniq == Unique(rows[..i]) && seen == Gids(uniq)
    {
      assert rows[..i + 1] == rows[..i] + [rows[i]];
      UniqueNext(rows[..i], rows[i]);
      if rows[i].gid in seen {
        continue;
      }
      seen := seen + {rows[i].gid};
      uniq := uniq + [rows[i]];
    }
    assert rows[..|rows|] == rows;
    UniqueRows(rows);
  }

  /** The folded side of the total that the live side counts too. */
  method CountIn(folded: seq<QRow>, gids: set<int>) returns (n: nat)
    requires DistinctGids(folded)
    ensures n == |Gids(folded) * gids|
  {
    n := 0;
    for i := 0 to |folded|
      invariant n == |Gids(folded[..i]) * gids|
    {
      CountNext(folded, i, gids);
      if folded[i].gid in gids {
        n := n + 1;
      }
    }
    assert folded[..|folded|] == folded;
  }

  lemma CountNext(folded: seq<QRow>, i: nat, gids: set<int>)
    requires DistinctGids(folded) && i < |folded|
    ensures |Gids(folded[..i + 1]) * gids| == |Gids(folded[..i]) * gids| + if folded[i].gid in gids then 1 else 0
  {
    GidsNext(folded, i);
    OneMore(Gids(folded[..i]), folded[i].gid, gids);
  }

  lemma GidsNext(folded: seq<QRow>, i: nat)
    requires DistinctGids(folded) && i < |folded|
    ensures Gids(folded[..i + 1]) == Gids(folded[..i]) + {folded[i].gid} && folded[i].gid !in Gids(folded[..i])
  {
    assert folded[..i + 1] == folded[..i] + [folded[i]];
  }

  lemma OneMore(before: set<int>, g: int, gids: set<int>)
    requires g !in before
    ensures |(before + {g}) * gids| == |before * gids| + if g in gids then 1 else 0
  {
    if g in gids {
      assert (before + {g}) * gids == before * gids + {g};
    } else {
      assert (before + {g}) * gids == before * gids;
    }
  }

  lemma {:induction false} DistinctCount(s: seq<QRow>)
    requires DistinctGids(s)
    ensures |Gids(s)| == |s|
  {
    if s != [] {
      DistinctCount(s[..|s| - 1]);
      OneGidMore(s);
    }
  }

  lemma OneGidMore(s: seq<QRow>)
    requires DistinctGids(s) && s != []
    ensures |Gids(s)| == |Gids(s[..|s| - 1])| + 1
  {
    var front, last := s[..|s| - 1], s[|s| - 1];
    LastIsNew(s);
    assert s == front + [last] && Gids([last]) == {last.gid};
    GidsOfBoth(front, [last]);
    assert last.gid !in Gids(front);
  }

  function PageSize(limit: int): nat {
    if limit <= 0 || limit > MaxObjectsInQuery then MaxObjectsInQuery else limit
  }

  function Start(position: int): nat {
    if position < 0 then 0 else position
  }

  /** The merge path, over at least one live row. */
  method MergePage(folded: seq<QRow>, live: seq<QRow>, asc: bool, position: nat, limit: nat) returns (ids: seq<int>)
    requires DistinctGids(folded) && DistinctGids(live)
    ensures ids == MergedPage(folded, live, asc, position, limit) && |ids| <= limit
  {
    var window := position + limit + |live|;
    var rows := folded[..Min(window, |folded|)] + live;
    var uniq := Dedup(rows);
    UniqueParts(Prefix(folded, window), live);
    StableSortIsSort(uniq, asc);
    ids := Cut(Ids(StableSort(uniq, asc)), position, limit);
  }

  /** Position and limit, as the code applies them to a slice. */
  method Cut(all: seq<int>, position: nat, limit: nat) returns (ids: seq<int>)
    ensures ids == Slice(all, position, limit) && |ids| <= limit
  {
    SliceInSteps(all, position, limit);
    if position < |all| {
      ids := all[position..];
    } else {
      ids := [];
    }
    if limit < |ids| {
      ids := ids[..limit];
    }
  }

  lemma SliceInSteps(s: seq<int>, position: nat, limit: nat)
    ensures var t := if position < |s| then s[position..] else [];
      Slice(s, position, limit) == if limit < |t| then t[..limit] else t
  {
  }

  /** What the live scan reads: nothing unless a summary column is filtered on, and never
      more than the query cap. */
  function Scanned(unfolded: seq<Msg>, fallback: bool): seq<Msg> {
    if fallback then unfolded[..Min(MaxObjectsInQuery, |unfolded|)] else []
  }

  /** The list that pages are promised to be slices of: without live rows the database's
      own, ties and all. */
  function Promised(folded: seq<QRow>, live: seq<QRow>, asc: bool): seq<QRow> {
    if live == [] then folded else Listing(folded, live, asc)
  }

  /** When they are: siblings share their key and nothing moves. */
  ghost predicate PagesHold(folded: seq<QRow>, live: seq<QRow>, asc: bool) {
    live == [] || (SiblingsShareKey(folded, live) && Settled(folded, live, asc))
  }

  /** Email/query over the folded groups (deduplicated and sorted by the database) and the
      unfolded messages.  The total is the number of groups on either side, and up to the
      query cap no unfolded match is missed in it; and the page is the requested slice of
      one list that does not depend on position and limit. */
  method Query(folded: seq<QRow>, unfolded: seq<Msg>, fallback: bool, asc: bool, position: int, limit: int)
    returns (ids: seq<int>, total: int)
    requires DistinctGids(folded)
    ensures total == |Gids(folded) + Gids(Matching(Scanned(unfolded, fallback)))|
    ensures fallback && |unfolded| <= MaxObjectsInQuery ==> total == |Gids(folded) + Gids(Matching(unfolded))|
    ensures var live := Unique(Matching(Scanned(unfolded, fallback)));
      PagesHold(folded, live, asc) ==> ids == Slice(Ids(Promised(folded, live, asc)), Start(position), PageSize(limit))
    ensures |ids| <= PageSize(limit)
  {
    var live := LiveRows(Scanned(unfolded, fallback));
    assert |unfolded| <= MaxObjectsInQuery ==> unfolded[..Min(MaxObjectsInQuery, |unfolded|)] == unfolded;
    total := |folded| + |live|;
    DistinctCount(folded);
    DistinctCount(live);
    if live == [] {
      assert Gids(folded) + Gids(live) == Gids(folded);
      ids := Slice(Ids(folded), Start(position), PageSize(limit));
      return;
    }
    var overlap := CountIn(folded, Gids(live));
    total := total - overlap;
    ids := MergePage(folded, live, asc, Start(position), PageSize(limit));
    if PagesHold(folded, live, asc) {
      SettledPageIsSlice(folded, live, asc, Start(position), PageSize(limit));
    }
  }

  /** The first `n` pages in a row are the first `n * limit` places, so walking the pages of
      one list shows every group exactly once. */
  function Pages(s: seq<int>, limit: nat, n: nat): seq<int> {
    if n == 0 then [] else Pages(s, limit, n - 1) + Slice(s, (n - 1) * limit, limit)
  }

  lemma {:induction false} PagesTile(s: seq<int>, limit: nat, n: nat)
    ensures Pages(s, limit, n) == s[..Min(n * limit, |s|)]
  {
    if n > 0 {
      PagesTile(s, limit, n - 1);
      assert (n - 1) * limit + limit == n * limit;
    }
  }
}
