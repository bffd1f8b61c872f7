/** The sort of Email/query in `protocol/jmapd`: Go's `sort.SliceStable` with the comparator
    that the query gives it, which is not strict when descending.  The library sorts blocks of
    20 rows by insertion and merges them with SymMerge.  It compares a row only with rows that
    came before it, so on any number of rows it does what insertion does. */
module EmailSort {
  import opened EmailRows

  /** The comparator.  When descending it holds on ties. */
  predicate Before(a: QRow, b: QRow, asc: bool) {
    if asc then a.key < b.key else !(a.key < b.key)
  }

  /** Insertion sort: each row moves to the front past those it is before. */
  function Sort(rows: seq<QRow>, asc: bool): seq<QRow> {
    if rows == [] then [] else Insert(Sort(rows[..|rows| - 1], asc), rows[|rows| - 1], asc)
  }

  function Insert(s: seq<QRow>, x: QRow, asc: bool): seq<QRow> {
    if s == [] || !Before(x, s[|s| - 1], asc) then s + [x] else Insert(s[..|s| - 1], x, asc) + [s[|s| - 1]]
  }

  lemma InsertBehind(s: seq<QRow>, last: QRow, x: QRow, asc: bool)
    ensures Insert(s + [last], x, asc) == if Before(x, last, asc) then Insert(s, x, asc) + [last] else s + [last] + [x]
  {
    assert (s + [last])[..|s|] == s;
  }

  /** Where the row goes: in front of those at the end that it is before. */
  lemma {:induction false} InsertPlace(s: seq<QRow>, x: QRow, asc: bool) returns (j: nat)
    ensures j <= |s| && Insert(s, x, asc) == s[..j] + [x] + s[j..]
    ensures forall k :: j <= k < |s| ==> Before(x, s[k], asc)
    ensures j > 0 ==> !Before(x, s[j - 1], asc)
  {
    if s == [] || !Before(x, s[|s| - 1], asc) {
      j := |s|;
    } else {
      var n := |s| - 1;
      j := InsertPlace(s[..n], x, asc);
      assert s[..n][..j] == s[..j] && s[j..] == s[..n][j..] + [s[n]];
    }
  }

  lemma SortNext(rows: seq<QRow>, x: QRow, asc: bool)
    ensures Sort(rows + [x], asc) == Insert(Sort(rows, asc), x, asc)
  {
    assert (rows + [x])[..|rows|] == rows;
  }

  // ---------------------------------------------------------------------------
  // The order it gives
  // ---------------------------------------------------------------------------

  /** What the sort sorts by: the key, and among equal keys the order of the input,
      turned around when descending. */
  ghost predicate Precedes(base: seq<QRow>, a: QRow, b: QRow, asc: bool) {
    Ord(a, asc) < Ord(b, asc) || (a.key == b.key && if asc then InOrder(base, a, b) else InOrder(base, b, a))
  }

  ghost predicate SortedBy(u: seq<QRow>, base: seq<QRow>, asc: bool) {
    && |u| == |base| && (forall r :: r in u <==> r in base)
    && forall i, j :: 0 <= i < j < |u| ==> Precedes(base, u[i], u[j], asc)
  }

  lemma PrecedesOnce(base: seq<QRow>, a: QRow, b: QRow, asc: bool)
    requires DistinctGids(base) && Precedes(base, a, b, asc)
    ensures !Precedes(base, b, a, asc) && (a in base && b in base ==> a.gid != b.gid)
  {
    if a.key == b.key {
      if asc { OrderOnce(base, a, b); } else { OrderOnce(base, b, a); }
    }
  }

  lemma InsertKeepsSorted(s: seq<QRow>, base: seq<QRow>, x: QRow, asc: bool)
    requires SortedBy(s, base, asc)
    ensures SortedBy(Insert(s, x, asc), base + [x], asc)
  {
    var j := InsertPlace(s, x, asc);
    var u := Insert(s, x, asc);
    forall r ensures r in u <==> r in base + [x] {
      assert r in s <==> r in s[..j] || r in s[j..] by {
        assert s == s[..j] + s[j..];
      }
    }
    forall k, l | 0 <= k < l < |u| ensures Precedes(base + [x], u[k], u[l], asc) {
      InsertedPrecedes(s, base, x, asc, j, k, l);
    }
  }

  lemma InsertedPrecedes(s: seq<QRow>, base: seq<QRow>, x: QRow, asc: bool, j: nat, k: nat, l: nat)
    requires SortedBy(s, base, asc) && j <= |s| && k < l <= |s|
    requires forall i :: j <= i < |s| ==> Before(x, s[i], asc)
    requires j > 0 ==> !Before(x, s[j - 1], asc)
    ensures var u := s[..j] + [x] + s[j..]; Precedes(base + [x], u[k], u[l], asc)
  {
    if k == j {
      AfterNew(s, base, x, asc, j, l - 1);
    } else if l == j {
      BeforeNew(s, base, x, asc, j, k);
    } else {
      StillPrecedes(base, [x], s[if k < j then k else k - 1], s[if l < j then l else l - 1], asc);
    }
  }

  lemma StillPrecedes(base: seq<QRow>, more: seq<QRow>, a: QRow, b: QRow, asc: bool)
    requires Precedes(base, a, b, asc)
    ensures Precedes(base + more, a, b, asc)
  {
    if InOrder(base, a, b) { OrderLeft(base, more, a, b); }
    if InOrder(base, b, a) { OrderLeft(base, more, b, a); }
  }

  lemma AfterNew(s: seq<QRow>, base: seq<QRow>, x: QRow, asc: bool, j: nat, k: nat)
    requires SortedBy(s, base, asc) && j <= k < |s| && forall i :: j <= i < |s| ==> Before(x, s[i], asc)
    ensures Precedes(base + [x], x, s[k], asc)
  {
    assert Before(x, s[k], asc) && s[k] in s;
    OrderAcross(base, [x], s[k], x);
  }

  lemma BeforeNew(s: seq<QRow>, base: seq<QRow>, x: QRow, asc: bool, j: nat, k: nat)
    requires SortedBy(s, base, asc) && k < j <= |s| && !Before(x, s[j - 1], asc)
    ensures Precedes(base + [x], s[k], x, asc)
  {
    assert k < j - 1 ==> Precedes(base, s[k], s[j - 1], asc);
    assert s[k] in s;
    OrderAcross(base, [x], s[k], x);
  }

  lemma {:induction false} SortIsSorted(rows: seq<QRow>, asc: bool)
    ensures SortedBy(Sort(rows, asc), rows, asc)
  {
    if rows != [] {
      var front, last := rows[..|rows| - 1], rows[|rows| - 1];
      SortIsSorted(front, asc);
      InsertKeepsSorted(Sort(front, asc), front, last, asc);
      assert rows == front + [last];
    }
  }

  lemma SortedDistinct(u: seq<QRow>, base: seq<QRow>, asc: bool)
    requires SortedBy(u, base, asc) && DistinctGids(base)
    ensures DistinctGids(u)
  {
    forall i, j | 0 <= i < j < |u| ensures u[i].gid != u[j].gid {
      assert u[i] in u && u[j] in u;
      PrecedesOnce(base, u[i], u[j], asc);
    }
  }

  // ---------------------------------------------------------------------------
  // Merging
  // ---------------------------------------------------------------------------

  /** Merges two lists, rows of the second going in front of those they are before. */
  function Merge(l: seq<QRow>, r: seq<QRow>, asc: bool): seq<QRow>
    decreases |l| + |r|
  {
    if l == [] then r
    else if r == [] then l
    else if Before(r[|r| - 1], l[|l| - 1], asc) then Merge(l[..|l| - 1], r, asc) + [l[|l| - 1]]
    else Merge(l, r[..|r| - 1], asc) + [r[|r| - 1]]
  }

  lemma MergeBehind(l: seq<QRow>, x: QRow, r: seq<QRow>, y: QRow, asc: bool)
    ensures Merge(l + [x], r + [y], asc)
         == if Before(y, x, asc) then Merge(l, r + [y], asc) + [x] else Merge(l + [x], r, asc) + [y]
  {
    assert (l + [x])[..|l|] == l && (r + [y])[..|r|] == r;
  }

  lemma Regroup(s: seq<QRow>)
    requires s != []
    ensures s == s[..|s| - 1] + [s[|s| - 1]]
  {
  }

  lemma {:induction false} InsertIsMerge(l: seq<QRow>, z: QRow, asc: bool)
    ensures Insert(l, z, asc) == Merge(l, [z], asc)
  {
    if l != [] {
      InsertIsMerge(l[..|l| - 1], z, asc);
      assert [z][..0] == [] && Merge(l, [], asc) == l;
    }
  }

  /** Inserting into a merged list is inserting into its second part. */
  lemma {:induction false} InsertIntoMerge(l: seq<QRow>, r: seq<QRow>, z: QRow, asc: bool)
    ensures Insert(Merge(l, r, asc), z, asc) == Merge(l, Insert(r, z, asc), asc)
    decreases |l| + |r|
  {
    if r == [] {
      InsertIsMerge(l, z, asc);
    } else if l != [] {
      var l', x, r', y := l[..|l| - 1], l[|l| - 1], r[..|r| - 1], r[|r| - 1];
      Regroup(l);
      Regroup(r);
      InsertBehind(r', y, z, asc);
      MergeBehind(l', x, r', y, asc);
      MergeBehind(l', x, r, z, asc);
      MergeBehind(l', x, Insert(r', z, asc), y, asc);
      InsertBehind(Merge(l', r, asc), x, z, asc);
      InsertBehind(Merge(l, r', asc), y, z, asc);
      InsertIntoMerge(l', r, z, asc);
      InsertIntoMerge(l, r', z, asc);
    }
  }

  /** So sorted parts merge to the sorted whole. */
  lemma {:induction false} MergeSorts(l: seq<QRow>, r: seq<QRow>, asc: bool)
    ensures Merge(Sort(l, asc), Sort(r, asc), asc) == Sort(l + r, asc)
  {
    if r == [] {
      assert l + r == l;
    } else {
      var r', z := r[..|r| - 1], r[|r| - 1];
      MergeSorts(l, r', asc);
      assert l + r == (l + r') + [z];
      SortNext(l + r', z, asc);
      InsertIntoMerge(Sort(l, asc), Sort(r', asc), z, asc);
    }
  }

  // ---------------------------------------------------------------------------
  // SymMerge
  // ---------------------------------------------------------------------------

  /** All of `r` is before all of `l`. */
  predicate AllBefore(r: seq<QRow>, l: seq<QRow>, asc: bool) {
    forall i, j :: 0 <= i < |l| && 0 <= j < |r| ==> Before(r[j], l[i], asc)
  }

  /** Nothing of `r` is before anything of `l`. */
  predicate NoneBefore(r: seq<QRow>, l: seq<QRow>, asc: bool) {
    forall i, j :: 0 <= i < |l| && 0 <= j < |r| ==> !Before(r[j], l[i], asc)
  }

  /** Where the fronts stay in front of the backs, they can be merged on their own. */
  lemma {:induction false} MergeInParts(l1: seq<QRow>, l2: seq<QRow>, r1: seq<QRow>, r2: seq<QRow>, asc: bool)
    requires AllBefore(r1, l2, asc) && NoneBefore(r2, l1, asc)
    ensures Merge(l1 + l2, r1 + r2, asc) == Merge(l1, r1, asc) + Merge(l2, r2, asc)
    decreases |l2| + |r2|
  {
    if l2 == [] && r2 == [] {
      assert l1 + l2 == l1 && r1 + r2 == r1;
    } else if r2 == [] || (l2 != [] && Before(r2[|r2| - 1], l2[|l2| - 1], asc)) {
      MergeInParts(l1, l2[..|l2| - 1], r1, r2, asc);
      LastFromLeft(l1, l2, r1, r2, asc);
      LastFromLeft([], l2, [], r2, asc);
      Empties(l2, r2);
      Empties(l2[..|l2| - 1], r2);
      Join(Merge(l1, r1, asc), Merge(l2[..|l2| - 1], r2, asc), l2[|l2| - 1]);
    } else {
      MergeInParts(l1, l2, r1, r2[..|r2| - 1], asc);
      LastFromRight(l1, l2, r1, r2, asc);
      LastFromRight([], l2, [], r2, asc);
      Empties(l2, r2);
      Empties(l2, r2[..|r2| - 1]);
      Join(Merge(l1, r1, asc), Merge(l2, r2[..|r2| - 1], asc), r2[|r2| - 1]);
    }
  }

  lemma Empties(l: seq<QRow>, r: seq<QRow>)
    ensures [] + l == l && [] + r == r
  {
  }

  lemma Join(a: seq<QRow>, b: seq<QRow>, x: QRow)
    ensures (a + b) + [x] == a + (b + [x])
  {
  }

  lemma LastFromLeft(l1: seq<QRow>, l2: seq<QRow>, r1: seq<QRow>, r2: seq<QRow>, asc: bool)
    requires l2 != [] && AllBefore(r1, l2, asc) && (r2 == [] || Before(r2[|r2| - 1], l2[|l2| - 1], asc))
    ensures Merge(l1 + l2, r1 + r2, asc) == Merge(l1 + l2[..|l2| - 1], r1 + r2, asc) + [l2[|l2| - 1]]
  {
    var l, r := l1 + l2, r1 + r2;
    assert l[..|l| - 1] == l1 + l2[..|l2| - 1] && l[|l| - 1] == l2[|l2| - 1];
    if r == [] {
      Regroup(l);
    } else {
      assert r[|r| - 1] == if r2 == [] then r1[|r1| - 1] else r2[|r2| - 1];
    }
  }

  lemma LastFromRight(l1: seq<QRow>, l2: seq<QRow>, r1: seq<QRow>, r2: seq<QRow>, asc: bool)
    requires r2 != [] && NoneBefore(r2, l1, asc) && (l2 == [] || !Before(r2[|r2| - 1], l2[|l2| - 1], asc))
    ensures Merge(l1 + l2, r1 + r2, asc) == Merge(l1 + l2, r1 + r2[..|r2| - 1], asc) + [r2[|r2| - 1]]
  {
    var l, r := l1 + l2, r1 + r2;
    assert r[..|r| - 1] == r1 + r2[..|r2| - 1] && r[|r| - 1] == r2[|r2| - 1];
    if l == [] {
      Regroup(r);
    } else {
      assert l[|l| - 1] == if l2 == [] then l1[|l1| - 1] else l2[|l2| - 1];
    }
  }

  /** How many rows of `r` are before `x`, by binary search. */
  function RowsBefore(r: seq<QRow>, x: QRow, asc: bool, i: nat, j: nat): (k: nat)
    requires i <= j <= |r|
    ensures i <= k <= j && (i < k ==> Before(r[k - 1], x, asc)) && (k < j ==> !Before(r[k], x, asc))
    decreases j - i
  {
    if i == j then i
    else
      var h := (i + j) / 2;
      if Before(r[h], x, asc) then RowsBefore(r, x, asc, h + 1, j) else RowsBefore(r, x, asc, i, h)
  }

  /** How many rows of `l` stay in front of `y`, by binary search. */
  function RowsKept(l: seq<QRow>, y: QRow, asc: bool, i: nat, j: nat): (k: nat)
    requires i <= j <= |l|
    ensures i <= k <= j && (i < k ==> !Before(y, l[k - 1], asc)) && (k < j ==> Before(y, l[k], asc))
    decreases j - i
  {
    if i == j then i
    else
      var h := (i + j) / 2;
      if !Before(y, l[h], asc) then RowsKept(l, y, asc, h + 1, j) else RowsKept(l, y, asc, i, h)
  }

  /** Whether the `c`-th row of `l` is among the first `mid` rows of the merged list: against
      the row of `r` that it would keep out. */
  predicate InFront(l: seq<QRow>, r: seq<QRow>, mid: nat, asc: bool, c: nat)
    requires c < |l| && c < mid <= c + |r|
  {
    !Before(r[mid - 1 - c], l[c], asc)
  }

  /** How many rows of `l` are, by binary search. */
  function RowsInFront(l: seq<QRow>, r: seq<QRow>, mid: nat, asc: bool, i: nat, j: nat): (k: nat)
    requires i <= j <= |l| && j <= mid <= i + |r|
    ensures i <= k <= j && (i < k ==> InFront(l, r, mid, asc, k - 1)) && (k < j ==> !InFront(l, r, mid, asc, k))
    decreases j - i
  {
    if i == j then i
    else
      var c := (i + j) / 2;
      if InFront(l, r, mid, asc, c) then RowsInFront(l, r, mid, asc, c + 1, j) else RowsInFront(l, r, mid, asc, i, c)
  }

  function RowsInHalf(l: seq<QRow>, r: seq<QRow>, mid: nat, asc: bool): (k: nat)
    requires 2 * mid <= |l| + |r| <= 2 * mid + 1
    ensures k <= |l| && k <= mid <= k + |r|
    ensures 0 < k && mid - k < |r| ==> InFront(l, r, mid, asc, k - 1)
    ensures k < |l| && k < mid ==> !InFront(l, r, mid, asc, k)
  {
    if |l| > mid then RowsInFront(l, r, mid, asc, mid - |r|, mid) else RowsInFront(l, r, mid, asc, 0, |l|)
  }

  datatype Cut = Cut(i: nat, j: nat)

  /** Where SymMerge cuts the two lists: in front of the cut is half of the merged list. */
  function CutAt(l: seq<QRow>, r: seq<QRow>, asc: bool): (c: Cut)
    requires |l| > 1 && |r| > 1
    ensures c.i <= |l| && c.j <= |r| && 0 < c.i + c.j < |l| + |r|
    ensures c.i < |l| && 0 < c.j ==> Before(r[c.j - 1], l[c.i], asc)
    ensures 0 < c.i && c.j < |r| ==> !Before(r[c.j], l[c.i - 1], asc)
  {
    var mid := (|l| + |r|) / 2;
    var k := RowsInHalf(l, r, mid, asc);
    Cut(k, mid - k)
  }

  /** Sorted rows from `j` on: as the first of them, so all. */
  lemma SortedSplit(l: seq<QRow>, i: nat, r: seq<QRow>, j: nat, asc: bool)
    requires WeaklySorted(l, asc) && WeaklySorted(r, asc) && i <= |l| && j <= |r|
    ensures (i < |l| && 0 < j ==> Before(r[j - 1], l[i], asc)) ==> AllBefore(r[..j], l[i..], asc)
    ensures (0 < i && j < |r| ==> !Before(r[j], l[i - 1], asc)) ==> NoneBefore(r[j..], l[..i], asc)
  {
  }

  lemma SortedParts(s: seq<QRow>, k: nat, asc: bool)
    requires WeaklySorted(s, asc) && k <= |s|
    ensures WeaklySorted(s[..k], asc) && WeaklySorted(s[k..], asc)
  {
  }

  function PutInto(s: seq<QRow>, k: nat, x: seq<QRow>): seq<QRow>
    requires k <= |s|
  {
    s[..k] + x + s[k..]
  }

  lemma MergeAt(l: seq<QRow>, i: nat, r: seq<QRow>, j: nat, asc: bool)
    requires WeaklySorted(l, asc) && WeaklySorted(r, asc) && i <= |l| && j <= |r|
    requires i < |l| && 0 < j ==> Before(r[j - 1], l[i], asc)
    requires 0 < i && j < |r| ==> !Before(r[j], l[i - 1], asc)
    ensures Merge(l, r, asc) == Merge(l[..i], r[..j], asc) + Merge(l[i..], r[j..], asc)
  {
    SortedSplit(l, i, r, j, asc);
    MergeHalves(l, i, r, j, asc);
  }

  lemma MergeHalves(l: seq<QRow>, i: nat, r: seq<QRow>, j: nat, asc: bool)
    requires i <= |l| && j <= |r| && AllBefore(r[..j], l[i..], asc) && NoneBefore(r[j..], l[..i], asc)
    ensures Merge(l, r, asc) == Merge(l[..i], r[..j], asc) + Merge(l[i..], r[j..], asc)
  {
    assert l == l[..i] + l[i..] && r == r[..j] + r[j..];
    MergeInParts(l[..i], l[i..], r[..j], r[j..], asc);
  }

  lemma OneOnTheLeft(l: seq<QRow>, r: seq<QRow>, asc: bool)
    requires |l| == 1 && WeaklySorted(l, asc) && WeaklySorted(r, asc)
    ensures Merge(l, r, asc) == PutInto(r, RowsBefore(r, l[0], asc, 0, |r|), l)
  {
    var k := RowsBefore(r, l[0], asc, 0, |r|);
    SortedSplit(l, 0, r, k, asc);
    SortedSplit(l, 1, r, k, asc);
    LeftInto(l, r, k, asc);
  }

  lemma LeftInto(l: seq<QRow>, r: seq<QRow>, k: nat, asc: bool)
    requires |l| == 1 && k <= |r| && AllBefore(r[..k], l[0..], asc) && NoneBefore(r[k..], l[..1], asc)
    ensures Merge(l, r, asc) == PutInto(r, k, l)
  {
    var back := r[k..];
    MergeHalves(l, 0, r, k, asc);
    MergeHalves(l, 1, back, 0, asc);
    assert l[0..] == l[..1] == l && l[..0] == l[1..] == [] && back[0..] == back && back[..0] == [];
  }

  lemma OneOnTheRight(l: seq<QRow>, r: seq<QRow>, asc: bool)
    requires |r| == 1 && WeaklySorted(l, asc) && WeaklySorted(r, asc)
    ensures Merge(l, r, asc) == PutInto(l, RowsKept(l, r[0], asc, 0, |l|), r)
  {
    var k := RowsKept(l, r[0], asc, 0, |l|);
    SortedSplit(l, k, r, 0, asc);
    SortedSplit(l, k, r, 1, asc);
    RightInto(l, r, k, asc);
  }

  lemma RightInto(l: seq<QRow>, r: seq<QRow>, k: nat, asc: bool)
    requires |r| == 1 && k <= |l| && AllBefore(r[..1], l[k..], asc) && NoneBefore(r[0..], l[..k], asc)
    ensures Merge(l, r, asc) == PutInto(l, k, r)
  {
    var back := l[k..];
    MergeHalves(l, k, r, 0, asc);
    MergeHalves(back, 0, r, 1, asc);
    assert r[0..] == r[..1] == r && r[..0] == r[1..] == [] && back[0..] == back && back[..0] == [];
  }

  /** At the cut the merged list falls into the merged parts, which are sorted like the whole. */
  lemma CutMerges(l: seq<QRow>, r: seq<QRow>, asc: bool)
    requires |l| > 1 && |r| > 1
    ensures var c := CutAt(l, r, asc);
      WeaklySorted(l, asc) && WeaklySorted(r, asc) ==>
        && WeaklySorted(l[..c.i], asc) && WeaklySorted(r[..c.j], asc) && WeaklySorted(l[c.i..], asc) && WeaklySorted(r[c.j..], asc)
        && Merge(l, r, asc) == Merge(l[..c.i], r[..c.j], asc) + Merge(l[c.i..], r[c.j..], asc)
  {
    if WeaklySorted(l, asc) && WeaklySorted(r, asc) {
      var c := CutAt(l, r, asc);
      SortedParts(l, c.i, asc);
      SortedParts(r, c.j, asc);
      MergeAt(l, c.i, r, c.j, asc);
    }
  }

  lemma SmallMerges(l: seq<QRow>, r: seq<QRow>, asc: bool)
    requires WeaklySorted(l, asc) && WeaklySorted(r, asc)
    ensures l == [] || r == [] ==> Merge(l, r, asc) == l + r
    ensures |l| == 1 ==> Merge(l, r, asc) == PutInto(r, RowsBefore(r, l[0], asc, 0, |r|), l)
    ensures |r| == 1 ==> Merge(l, r, asc) == PutInto(l, RowsKept(l, r[0], asc, 0, |l|), r)
  {
    if l == [] || r == [] {
      assert l + r == if l == [] then r else l;
    }
    if |l| == 1 {
      OneOnTheLeft(l, r, asc);
    }
    if |r| == 1 {
      OneOnTheRight(l, r, asc);
    }
  }

  /** The library's merge of two neighbouring blocks.  On sorted blocks it is the plain merge,
      in which rows of the second go in front of those they are before. */
  function SymMerge(l: seq<QRow>, r: seq<QRow>, asc: bool): (m: seq<QRow>)
    ensures |m| == |l| + |r|
    ensures WeaklySorted(l, asc) && WeaklySorted(r, asc) ==> m == Merge(l, r, asc)
    decreases |l| + |r|
  {
    if |l| > 1 && |r| > 1 then
      var c := CutAt(l, r, asc);
      CutMerges(l, r, asc);
      SymMerge(l[..c.i], r[..c.j], asc) + SymMerge(l[c.i..], r[c.j..], asc)
    else
      assert WeaklySorted(l, asc) && WeaklySorted(r, asc) ==> MergeOfFew(l, r, asc) == Merge(l, r, asc) by {
        if WeaklySorted(l, asc) && WeaklySorted(r, asc) {
          SmallMerges(l, r, asc);
        }
      }
      MergeOfFew(l, r, asc)
  }

  /** With at most one row on a side, that row is put in its place. */
  function MergeOfFew(l: seq<QRow>, r: seq<QRow>, asc: bool): (m: seq<QRow>)
    requires |l| <= 1 || |r| <= 1
    ensures |m| == |l| + |r|
  {
    if l == [] || r == [] then l + r
    else if |l| == 1 then PutInto(r, RowsBefore(r, l[0], asc, 0, |r|), l)
    else PutInto(l, RowsKept(l, r[0], asc, 0, |l|), r)
  }

  // ---------------------------------------------------------------------------
  // The library sort
  // ---------------------------------------------------------------------------

  const BLOCK := 20

  function SortBlocks(rows: seq<QRow>, asc: bool): seq<QRow> {
    if |rows| <= BLOCK then Sort(rows, asc) else Sort(rows[..BLOCK], asc) + SortBlocks(rows[BLOCK..], asc)
  }

  /** Merges each two neighbouring blocks of `n` rows. */
  function MergeBlocks(rows: seq<QRow>, n: nat, asc: bool): seq<QRow>
    requires n > 0
  {
    if |rows| <= n then rows
    else if |rows| <= 2 * n then SymMerge(rows[..n], rows[n..], asc)
    else SymMerge(rows[..n], rows[n..2 * n], asc) + MergeBlocks(rows[2 * n..], n, asc)
  }

  function MergeAll(rows: seq<QRow>, n: nat, asc: bool): seq<QRow>
    requires n > 0
    decreases |rows| - n
  {
    if n < |rows| then
      MergeBlocksLength(rows, n, asc);
      MergeAll(MergeBlocks(rows, n, asc), 2 * n, asc)
    else rows
  }

  function StableSort(rows: seq<QRow>, asc: bool): seq<QRow> {
    MergeAll(SortBlocks(rows, asc), BLOCK, asc)
  }

  lemma {:induction false} MergeBlocksLength(rows: seq<QRow>, n: nat, asc: bool)
    requires n > 0
    ensures |MergeBlocks(rows, n, asc)| == |rows|
  {
    if 2 * n < |rows| {
      MergeBlocksLength(rows[2 * n..], n, asc);
    }
  }

  /** Each block of `n` rows is the same block of `rows`, sorted. */
  predicate BlocksSorted(data: seq<QRow>, rows: seq<QRow>, n: nat, asc: bool)
    requires n > 0
    decreases |rows|
  {
    |data| == |rows| &&
    if |rows| <= n then data == Sort(rows, asc)
    else data[..n] == Sort(rows[..n], asc) && BlocksSorted(data[n..], rows[n..], n, asc)
  }

  lemma {:induction false} SortLength(rows: seq<QRow>, asc: bool)
    ensures |Sort(rows, asc)| == |rows|
  {
    if rows != [] {
      SortLength(rows[..|rows| - 1], asc);
      InsertLength(Sort(rows[..|rows| - 1], asc), rows[|rows| - 1], asc);
    }
  }

  lemma {:induction false} InsertLength(s: seq<QRow>, x: QRow, asc: bool)
    ensures |Insert(s, x, asc)| == |s| + 1
  {
    if s != [] {
      InsertLength(s[..|s| - 1], x, asc);
    }
  }

  lemma InsertKeepsOrder(s: seq<QRow>, x: QRow, asc: bool)
    requires WeaklySorted(s, asc)
    ensures WeaklySorted(Insert(s, x, asc), asc)
  {
    var j := InsertPlace(s, x, asc);
    assert j > 0 ==> Ord(s[j - 1], asc) <= Ord(x, asc);
  }

  lemma {:induction false} SortOrders(rows: seq<QRow>, asc: bool)
    ensures WeaklySorted(Sort(rows, asc), asc)
  {
    if rows != [] {
      SortOrders(rows[..|rows| - 1], asc);
      InsertKeepsOrder(Sort(rows[..|rows| - 1], asc), rows[|rows| - 1], asc);
    }
  }

  lemma SymMergeSorts(l: seq<QRow>, r: seq<QRow>, asc: bool)
    ensures SymMerge(Sort(l, asc), Sort(r, asc), asc) == Sort(l + r, asc)
  {
    SortOrders(l, asc);
    SortOrders(r, asc);
    MergeSorts(l, r, asc);
  }

  lemma {:induction false} SortBlocksSorts(rows: seq<QRow>, asc: bool)
    ensures BlocksSorted(SortBlocks(rows, asc), rows, BLOCK, asc)
  {
    if |rows| <= BLOCK {
      SortLength(rows, asc);
    } else {
      SortLength(rows[..BLOCK], asc);
      SortBlocksSorts(rows[BLOCK..], asc);
    }
  }

  lemma {:induction false} MergeBlocksSorts(data: seq<QRow>, rows: seq<QRow>, n: nat, asc: bool)
    requires n > 0 && BlocksSorted(data, rows, n, asc)
    ensures BlocksSorted(MergeBlocks(data, n, asc), rows, 2 * n, asc)
    decreases |rows|
  {
    if |rows| <= 2 * n {
      LastBlocks(data, rows, n, asc);
    } else {
      TwoBlocks(data, rows, n, asc);
      MergeBlocksSorts(data[2 * n..], rows[2 * n..], n, asc);
      BlocksAppend(rows, MergeBlocks(data[2 * n..], n, asc), 2 * n, asc);
    }
  }

  lemma LastBlocks(data: seq<QRow>, rows: seq<QRow>, n: nat, asc: bool)
    requires n > 0 && BlocksSorted(data, rows, n, asc) && |rows| <= 2 * n
    ensures BlocksSorted(MergeBlocks(data, n, asc), rows, 2 * n, asc)
  {
    LastSorted(data, rows, n, asc);
    SortLength(rows, asc);
    OneBlockSorted(MergeBlocks(data, n, asc), rows, 2 * n, asc);
  }

  lemma OneBlockSorted(data: seq<QRow>, rows: seq<QRow>, n: nat, asc: bool)
    requires n > 0 && |data| == |rows| <= n && data == Sort(rows, asc)
    ensures BlocksSorted(data, rows, n, asc)
  {
  }

  lemma InTwo(rows: seq<QRow>, n: nat)
    requires n <= |rows|
    ensures rows[..n] + rows[n..] == rows
  {
  }

  lemma LastSorted(data: seq<QRow>, rows: seq<QRow>, n: nat, asc: bool)
    requires n > 0 && BlocksSorted(data, rows, n, asc) && |rows| <= 2 * n
    ensures MergeBlocks(data, n, asc) == Sort(rows, asc)
  {
    if n < |rows| {
      LastTwoSorted(data, rows, n, asc);
      LastTwoMerged(data, rows[..n], rows[n..], n, asc);
      InTwo(rows, n);
    }
  }

  lemma LastTwoSorted(data: seq<QRow>, rows: seq<QRow>, n: nat, asc: bool)
    requires 0 < n < |rows| <= 2 * n && BlocksSorted(data, rows, n, asc)
    ensures data[..n] == Sort(rows[..n], asc) && data[n..] == Sort(rows[n..], asc)
  {
  }

  lemma LastTwoMerged(data: seq<QRow>, x: seq<QRow>, y: seq<QRow>, n: nat, asc: bool)
    requires 0 < n < |data| <= 2 * n && data[..n] == Sort(x, asc) && data[n..] == Sort(y, asc)
    ensures MergeBlocks(data, n, asc) == Sort(x + y, asc)
  {
    SymMergeSorts(x, y, asc);
    TwoBlocksMerge(data, n, asc);
  }

  lemma TwoBlocksMerge(data: seq<QRow>, n: nat, asc: bool)
    requires 0 < n < |data| <= 2 * n
    ensures MergeBlocks(data, n, asc) == SymMerge(data[..n], data[n..], asc)
  {
  }

  lemma BlocksAppend(rows: seq<QRow>, rest: seq<QRow>, n: nat, asc: bool)
    requires 0 < n < |rows| && BlocksSorted(rest, rows[n..], n, asc)
    ensures BlocksSorted(Sort(rows[..n], asc) + rest, rows, n, asc)
  {
    SortLength(rows[..n], asc);
    TwoParts(Sort(rows[..n], asc), rest);
  }

  lemma TwoParts(a: seq<QRow>, b: seq<QRow>)
    ensures (a + b)[..|a|] == a && (a + b)[|a|..] == b
  {
  }

  lemma BlockSlices(s: seq<QRow>, n: nat)
    requires 2 * n <= |s|
    ensures s[n..][n..] == s[2 * n..] && s[n..][..n] == s[n..2 * n] && s[..2 * n] == s[..n] + s[n..2 * n]
  {
  }

  lemma TwoBlocks(data: seq<QRow>, rows: seq<QRow>, n: nat, asc: bool)
    requires n > 0 && 2 * n < |rows| && BlocksSorted(data, rows, n, asc)
    ensures SymMerge(data[..n], data[n..2 * n], asc) == Sort(rows[..2 * n], asc)
    ensures BlocksSorted(data[2 * n..], rows[2 * n..], n, asc)
  {
    BlockSlices(data, n);
    BlockSlices(rows, n);
    SecondBlock(data[n..], rows[n..], n, asc);
    SymMergeSorts(rows[..n], rows[n..2 * n], asc);
  }

  lemma SecondBlock(data: seq<QRow>, rows: seq<QRow>, n: nat, asc: bool)
    requires 0 < n < |rows| && BlocksSorted(data, rows, n, asc)
    ensures data[..n] == Sort(rows[..n], asc) && BlocksSorted(data[n..], rows[n..], n, asc)
  {
  }

  lemma {:induction false} MergeAllSorts(data: seq<QRow>, rows: seq<QRow>, n: nat, asc: bool)
    requires n > 0 && BlocksSorted(data, rows, n, asc)
    ensures MergeAll(data, n, asc) == Sort(rows, asc)
    decreases |rows| - n
  {
    if n < |rows| {
      MergeBlocksSorts(data, rows, n, asc);
      MergeBlocksLength(data, n, asc);
      MergeAllSorts(MergeBlocks(data, n, asc), rows, 2 * n, asc);
    }
  }

  /** Whatever the number of rows and the ties among them, the library sorts as insertion
      does, in spite of the comparator. */
  lemma StableSortIsSort(rows: seq<QRow>, asc: bool)
    ensures StableSort(rows, asc) == Sort(rows, asc)
  {
    SortBlocksSorts(rows, asc);
    MergeAllSorts(SortBlocks(rows, asc), rows, BLOCK, asc);
  }
}
