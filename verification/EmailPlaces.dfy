/** Where a row stands in the list that Email/query sorts, from the rows that come before and
    after it in the input. */
module EmailPlaces {
  import opened EmailRows
  import opened EmailSort

  /** How many rows stay in front of one that comes after them. */
  function Ahead(a: seq<QRow>, y: QRow, asc: bool): (n: nat)
    ensures n <= |a|
  {
    if a == [] then 0 else Ahead(a[..|a| - 1], y, asc) + if Before(y, a[|a| - 1], asc) then 0 else 1
  }

  /** How many rows go in front of one that comes before them. */
  function Overtaking(b: seq<QRow>, y: QRow, asc: bool): (n: nat)
    ensures n <= |b|
  {
    if b == [] then 0 else Overtaking(b[..|b| - 1], y, asc) + if Before(b[|b| - 1], y, asc) then 1 else 0
  }

  /** The place of a row in the sorted list, from what comes before and after it. */
  function Place(a: seq<QRow>, y: QRow, b: seq<QRow>, asc: bool): (n: nat)
    ensures n <= |a| + |b|
  {
    Ahead(a, y, asc) + Overtaking(b, y, asc)
  }

  lemma {:induction false} AheadAppend(a: seq<QRow>, b: seq<QRow>, y: QRow, asc: bool)
    ensures Ahead(a + b, y, asc) == Ahead(a, y, asc) + Ahead(b, y, asc)
  {
    if b == [] {
      assert a + b == a;
    } else {
      AheadAppend(a, b[..|b| - 1], y, asc);
      assert (a + b)[..|a + b| - 1] == a + b[..|b| - 1];
    }
  }

  lemma {:induction false} OvertakingAppend(a: seq<QRow>, b: seq<QRow>, y: QRow, asc: bool)
    ensures Overtaking(a + b, y, asc) == Overtaking(a, y, asc) + Overtaking(b, y, asc)
  {
    if b == [] {
      assert a + b == a;
    } else {
      OvertakingAppend(a, b[..|b| - 1], y, asc);
      assert (a + b)[..|a + b| - 1] == a + b[..|b| - 1];
    }
  }

  lemma {:induction false} AheadAll(a: seq<QRow>, y: QRow, asc: bool)
    requires forall i :: 0 <= i < |a| ==> !Before(y, a[i], asc)
    ensures Ahead(a, y, asc) == |a|
  {
    if a != [] {
      AheadAll(a[..|a| - 1], y, asc);
    }
  }

  lemma {:induction false} AheadNone(a: seq<QRow>, y: QRow, asc: bool)
    requires forall i :: 0 <= i < |a| ==> Before(y, a[i], asc)
    ensures Ahead(a, y, asc) == 0
  {
    if a != [] {
      AheadNone(a[..|a| - 1], y, asc);
    }
  }

  /** The list with one row more, at place `p`. */
  function PutAt(s: seq<QRow>, p: nat, y: QRow): (t: seq<QRow>)
    ensures |t| == |s| + 1
  {
    if p >= |s| then s + [y] else PutAt(s[..|s| - 1], p, y) + [s[|s| - 1]]
  }

  lemma PutBehind(s: seq<QRow>, last: QRow, p: nat, y: QRow)
    requires p <= |s|
    ensures PutAt(s + [last], p, y) == PutAt(s, p, y) + [last]
  {
    assert (s + [last])[..|s|] == s;
  }

  lemma {:induction false} PutAtIndex(s: seq<QRow>, p: nat, y: QRow, q: nat)
    requires p <= |s| && q <= |s|
    ensures PutAt(s, p, y)[q] == if q < p then s[q] else if q == p then y else s[q - 1]
  {
    if p < |s| && q < |s| {
      PutAtIndex(s[..|s| - 1], p, y, q);
    }
  }

  /** Sorting does not change how many rows stay in front. */
  lemma {:induction false} AheadSorted(a: seq<QRow>, y: QRow, asc: bool)
    ensures Ahead(Sort(a, asc), y, asc) == Ahead(a, y, asc)
  {
    if a != [] {
      AheadSorted(a[..|a| - 1], y, asc);
      AheadInserted(Sort(a[..|a| - 1], asc), a[|a| - 1], y, asc);
    }
  }

  lemma {:induction false} AheadInserted(s: seq<QRow>, x: QRow, y: QRow, asc: bool)
    ensures Ahead(Insert(s, x, asc), y, asc) == Ahead(s + [x], y, asc)
  {
    AheadAppend(s, [x], y, asc);
    if s != [] && Before(x, s[|s| - 1], asc) {
      var front, last := s[..|s| - 1], s[|s| - 1];
      AheadInserted(front, x, y, asc);
      AheadAppend(front, [x], y, asc);
      AheadAppend(Insert(front, x, asc), [last], y, asc);
    }
  }

  /** A row that comes last goes behind those that stay in front of it. */
  lemma {:induction false} InsertedLast(s: seq<QRow>, y: QRow, asc: bool)
    requires WeaklySorted(s, asc)
    ensures Insert(s, y, asc) == PutAt(s, Ahead(s, y, asc), y)
  {
    if s != [] {
      if Before(y, s[|s| - 1], asc) {
        InsertedLast(s[..|s| - 1], y, asc);
      } else {
        AheadAll(s, y, asc);
      }
    }
  }

  lemma InsertPastLast(s: seq<QRow>, y: QRow, z: QRow, asc: bool)
    requires s != [] ==> Ord(s[|s| - 1], asc) <= Ord(y, asc)
    ensures Insert(s + [y], z, asc) == PutAt(Insert(s, z, asc), |s| + if Before(z, y, asc) then 1 else 0, y)
  {
    InsertLength(s, z, asc);
    InsertBehind(s, y, z, asc);
    if !Before(z, y, asc) {
      PutBehind(s, z, |s|, y);
    }
  }

  lemma PastAnother(s: seq<QRow>, last: QRow, p: nat, p': nat, y: QRow, z: QRow, asc: bool)
    requires p <= |s| && Ord(y, asc) <= Ord(last, asc) && p' == p + if Before(z, y, asc) then 1 else 0
    requires Insert(PutAt(s, p, y), z, asc) == PutAt(Insert(s, z, asc), p', y)
    ensures Insert(PutAt(s + [last], p, y), z, asc) == PutAt(Insert(s + [last], z, asc), p', y)
  {
    InsertLength(s, z, asc);
    PutBehind(s, last, p, y);
    InsertBehind(PutAt(s, p, y), last, z, asc);
    InsertBehind(s, last, z, asc);
    if Before(z, last, asc) {
      PutBehind(Insert(s, z, asc), last, p', y);
    } else {
      PutBehind(s + [last], z, p, y);
    }
  }

  /** Inserting one more row moves an earlier one by a place or not at all. */
  lemma {:induction false} InsertPast(s: seq<QRow>, p: nat, y: QRow, z: QRow, asc: bool)
    requires p <= |s| && WeaklySorted(PutAt(s, p, y), asc)
    ensures Insert(PutAt(s, p, y), z, asc) == PutAt(Insert(s, z, asc), p + if Before(z, y, asc) then 1 else 0, y)
    decreases |s|
  {
    if p == |s| {
      assert s != [] ==> (s + [y])[|s| - 1] == s[|s| - 1] && (s + [y])[|s|] == y;
      InsertPastLast(s, y, z, asc);
    } else {
      var front, last, t := s[..|s| - 1], s[|s| - 1], PutAt(s, p, y);
      PutAtIndex(s, p, y, p);
      assert t[|s|] == last && Ord(t[p], asc) <= Ord(t[|s|], asc);
      SortedParts(t, |s|, asc);
      assert t[..|s|] == PutAt(front, p, y);
      InsertPast(front, p, y, z, asc);
      PastAnother(front, last, p, p + if Before(z, y, asc) then 1 else 0, y, z, asc);
      Regroup(s);
    }
  }

  /** One row more, somewhere in the input, is one row more at its place. */
  lemma {:induction false} SortWithOneMore(a: seq<QRow>, y: QRow, b: seq<QRow>, asc: bool)
    ensures Sort(a + [y] + b, asc) == PutAt(Sort(a + b, asc), Place(a, y, b, asc), y)
    decreases |b|
  {
    if b == [] {
      assert a + [y] + b == a + [y] && a + b == a;
      SortNext(a, y, asc);
      SortOrders(a, asc);
      AheadSorted(a, y, asc);
      InsertedLast(Sort(a, asc), y, asc);
    } else {
      var b', z := b[..|b| - 1], b[|b| - 1];
      SortWithOneMore(a, y, b', asc);
      LastApart(a, b);
      LastApart(a + [y], b);
      SortNext(a + [y] + b', z, asc);
      SortNext(a + b', z, asc);
      OneMoreNext(a + b', a + [y] + b', Place(a, y, b', asc), y, z, asc);
    }
  }

  lemma LastApart(a: seq<QRow>, b: seq<QRow>)
    requires b != []
    ensures a + b == (a + b[..|b| - 1]) + [b[|b| - 1]]
  {
  }

  lemma OneMoreNext(s: seq<QRow>, t: seq<QRow>, p: nat, y: QRow, z: QRow, asc: bool)
    requires p <= |s| && Sort(t, asc) == PutAt(Sort(s, asc), p, y)
    ensures Insert(Sort(t, asc), z, asc) == PutAt(Insert(Sort(s, asc), z, asc), p + if Before(z, y, asc) then 1 else 0, y)
  {
    SortLength(s, asc);
    SortOrders(t, asc);
    InsertPast(Sort(s, asc), p, y, z, asc);
  }

  lemma {:induction false} PutsAhead(a: seq<QRow>, y: QRow)
    ensures Ahead(a, y, false) <= Overtaking(a, y, false)
  {
    if a != [] {
      PutsAhead(a[..|a| - 1], y);
    }
  }

  /** Fewer rows, fewer in front. */
  lemma {:induction false} AheadFewer(rows: seq<QRow>, gids: set<int>, more: set<int>, y: QRow, asc: bool)
    requires gids <= more
    ensures Ahead(Others(rows, more), y, asc) <= Ahead(Others(rows, gids), y, asc)
  {
    if rows != [] {
      var front, last := rows[..|rows| - 1], rows[|rows| - 1];
      AheadFewer(front, gids, more, y, asc);
      AheadAppend(Others(front, gids), if last.gid in gids then [] else [last], y, asc);
      AheadAppend(Others(front, more), if last.gid in more then [] else [last], y, asc);
    }
  }

  // ---------------------------------------------------------------------------
  // Ties
  // ---------------------------------------------------------------------------

  function Ties(s: seq<QRow>, key: int): nat {
    if s == [] then 0 else Ties(s[..|s| - 1], key) + if s[|s| - 1].key == key then 1 else 0
  }

  lemma {:induction false} TiesAppend(a: seq<QRow>, b: seq<QRow>, key: int)
    ensures Ties(a + b, key) == Ties(a, key) + Ties(b, key)
  {
    if b == [] {
      assert a + b == a;
    } else {
      TiesAppend(a, b[..|b| - 1], key);
      assert (a + b)[..|a + b| - 1] == a + b[..|b| - 1];
    }
  }

  lemma {:induction false} NoTiesLeft(s: seq<QRow>, key: int)
    requires forall i :: 0 <= i < |s| ==> s[i].key != key
    ensures Ties(s, key) == 0
  {
    if s != [] {
      NoTiesLeft(s[..|s| - 1], key);
    }
  }

  /** Descending, a row has only larger keys and ties in front of it. */
  lemma {:induction false} AheadAndTies(s: seq<QRow>, y: QRow)
    requires forall i :: 0 <= i < |s| ==> s[i].key >= y.key
    ensures Ahead(s, y, false) + Ties(s, y.key) == |s|
  {
    if s != [] {
      AheadAndTies(s[..|s| - 1], y);
    }
  }

  /** Of a class of ties, those up to one of its rows, that row, and the rest. */
  lemma TiesAround(s: seq<QRow>, w: nat)
    requires w < |s|
    ensures Ties(s, s[w].key) == Ties(s[..w], s[w].key) + 1 + Ties(s[w + 1..], s[w].key)
  {
    var key := s[w].key;
    assert s == s[..w] + ([s[w]] + s[w + 1..]);
    TiesAppend(s[..w], [s[w]] + s[w + 1..], key);
    TiesAppend([s[w]], s[w + 1..], key);
    assert [s[w]][..0] == [];
  }
}
