/** The rows that Email/query of `protocol/jmapd` pages over: first rows of groups, and the
    order of lists. */
module EmailRows {
  /** An Email group with the sort key (received time or size) of its representative. */
  datatype QRow = QRow(gid: int, key: int)

  function Ord(r: QRow, asc: bool): int {
    if asc then r.key else -r.key
  }

  predicate DistinctGids(s: seq<QRow>) {
    forall i, j :: 0 <= i < j < |s| ==> s[i].gid != s[j].gid
  }

  function Gids(s: seq<QRow>): set<int> {
    set r | r in s :: r.gid
  }

  function Ids(s: seq<QRow>): seq<int> {
    seq(|s|, i requires 0 <= i < |s| => s[i].gid)
  }

  /** In the order of the sort keys; rows with equal keys may come in any order. */
  predicate WeaklySorted(s: seq<QRow>, asc: bool) {
    forall i, j :: 0 <= i < j < |s| ==> Ord(s[i], asc) <= Ord(s[j], asc)
  }

  predicate NoTies(s: seq<QRow>) {
    forall i, j :: 0 <= i < j < |s| ==> s[i].key != s[j].key
  }

  function Min(a: int, b: int): int {
    if a < b then a else b
  }

  function Slice(s: seq<int>, position: nat, limit: nat): seq<int> {
    s[Min(position, |s|)..Min(position + limit, |s|)]
  }

  // ---------------------------------------------------------------------------
  // First rows of groups
  // ---------------------------------------------------------------------------

  /** The first row of each group. */
  function Unique(rows: seq<QRow>): seq<QRow> {
    if rows == [] then []
    else
      var front, last := Unique(rows[..|rows| - 1]), rows[|rows| - 1];
      if last.gid in Gids(front) then front else front + [last]
  }

  lemma {:induction false} UniqueRows(rows: seq<QRow>)
    ensures DistinctGids(Unique(rows)) && Gids(Unique(rows)) == Gids(rows)
    ensures forall r :: r in Unique(rows) ==> r in rows
  {
    if rows != [] {
      var front, last := rows[..|rows| - 1], rows[|rows| - 1];
      UniqueRows(front);
      assert rows == front + [last];
      assert Gids(rows) == Gids(front) + {last.gid};
      assert Gids(Unique(front) + [last]) == Gids(Unique(front)) + {last.gid};
    }
  }

  /** The rows of groups that are not among `gids`. */
  function Others(rows: seq<QRow>, gids: set<int>): seq<QRow> {
    if rows == [] then []
    else
      var last := rows[|rows| - 1];
      Others(rows[..|rows| - 1], gids) + if last.gid in gids then [] else [last]
  }

  lemma {:induction false} OthersRows(rows: seq<QRow>, gids: set<int>)
    requires DistinctGids(rows)
    ensures DistinctGids(Others(rows, gids))
    ensures forall r :: r in Others(rows, gids) <==> r in rows && r.gid !in gids
  {
    if rows != [] {
      var front, last := rows[..|rows| - 1], rows[|rows| - 1];
      OthersRows(front, gids);
      assert rows == front + [last];
    }
  }

  lemma {:induction false} OthersAppend(a: seq<QRow>, b: seq<QRow>, gids: set<int>)
    ensures Others(a + b, gids) == Others(a, gids) + Others(b, gids)
  {
    if b == [] {
      assert a + b == a;
    } else {
      OthersAppend(a, b[..|b| - 1], gids);
      assert (a + b)[..|a + b| - 1] == a + b[..|b| - 1];
    }
  }

  /** Groups that do not occur make no difference. */
  lemma {:induction false} OthersMore(rows: seq<QRow>, gids: set<int>, g: int)
    requires forall r :: r in rows ==> r.gid != g
    ensures Others(rows, gids + {g}) == Others(rows, gids)
  {
    if rows != [] {
      var front, last := rows[..|rows| - 1], rows[|rows| - 1];
      assert rows == front + [last] && last in rows;
      OthersMore(front, gids, g);
    }
  }

  /** Two lists of distinct groups in a row: the second loses the groups of the first. */
  lemma {:induction false} UniqueParts(a: seq<QRow>, b: seq<QRow>)
    requires DistinctGids(a) && DistinctGids(b)
    ensures Unique(a + b) == a + Others(b, Gids(a))
  {
    if b != [] {
      var front, last := b[..|b| - 1], b[|b| - 1];
      UniqueParts(a, front);
      assert (a + b)[..|a + b| - 1] == a + front;
      LastIsNew(b);
      OthersRows(front, Gids(a));
      GidsOfBoth(a, Others(front, Gids(a)));
    } else {
      assert a + b == a;
      UniqueOfDistinct(a);
    }
  }

  lemma LastIsNew(b: seq<QRow>)
    requires DistinctGids(b) && b != []
    ensures forall r :: r in b[..|b| - 1] ==> r.gid != b[|b| - 1].gid
  {
    var front := b[..|b| - 1];
    forall r | r in front ensures r.gid != b[|b| - 1].gid {
      var i :| 0 <= i < |front| && front[i] == r;
      assert b[i] == r;
    }
  }

  lemma GidsOfBoth(a: seq<QRow>, b: seq<QRow>)
    ensures Gids(a + b) == Gids(a) + Gids(b)
  {
  }

  lemma {:induction false} UniqueOfDistinct(a: seq<QRow>)
    requires DistinctGids(a)
    ensures Unique(a) == a
  {
    if a != [] {
      UniqueOfDistinct(a[..|a| - 1]);
      assert a[|a| - 1].gid !in Gids(a[..|a| - 1]);
    }
  }

  // ---------------------------------------------------------------------------
  // The order of a list
  // ---------------------------------------------------------------------------

  /** `a` comes before `b` in the list. */
  ghost predicate InOrder(s: seq<QRow>, a: QRow, b: QRow) {
    exists i, j :: 0 <= i < j < |s| && s[i] == a && s[j] == b
  }

  lemma OrderOnce(s: seq<QRow>, a: QRow, b: QRow)
    requires DistinctGids(s) && InOrder(s, a, b)
    ensures !InOrder(s, b, a) && a in s && b in s && a.gid != b.gid
  {
  }

  lemma OrderLeft(s: seq<QRow>, t: seq<QRow>, a: QRow, b: QRow)
    requires InOrder(s, a, b)
    ensures InOrder(s + t, a, b)
  {
    var i, j :| 0 <= i < j < |s| && s[i] == a && s[j] == b;
    assert (s + t)[i] == a && (s + t)[j] == b;
  }

  lemma OrderAcross(s: seq<QRow>, t: seq<QRow>, a: QRow, b: QRow)
    requires a in s && b in t
    ensures InOrder(s + t, a, b)
  {
    var i :| 0 <= i < |s| && s[i] == a;
    var j :| 0 <= j < |t| && t[j] == b;
    assert (s + t)[i] == a && (s + t)[|s| + j] == b;
  }
}
