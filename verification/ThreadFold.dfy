/** What the left-to-right fold of `ThreadGraph` computes.

  The partition it builds is exactly connectivity, whatever the order of the
  messages.  The id that names a thread is the smallest *root* of its component (a
  root shares no reference with a message folded before it), which is the smallest
  id of the component exactly when the component's smallest message is a root. */
module ThreadFold {
  import opened Sets
  import opened ThreadGraph

  /** The messages that shared no reference with anything folded before them. */
  ghost function Roots(ms: seq<Msg>): set<MsgId> {
    if ms == [] then {} else
      var pre, m := ms[..|ms| - 1], ms[|ms| - 1];
      Roots(pre) + if LinksInto(GraphOf(pre), m.RefSet()) then {} else {m.id}
  }

  ghost predicate LinksInto(g: Graph, rs: set<Ref>) {
    exists b :: b in g && g[b] * rs != {}
  }

  /** The tables hold exactly the messages of `g`, each in a thread named by a root. */
  ghost predicate Named(t: Threads, g: Graph, roots: set<MsgId>) {
    && t.threadOf.Keys == g.Keys
    && (forall x :: x in t.refs ==> x.id in g && x.ref in g[x.id])
    && (forall a, r :: a in g && r in g[a] ==> Link(a, r) in t.refs)
    && (forall a :: a in g ==> t.threadOf[a] in roots)
    && (forall r :: r in roots ==> r in g && t.threadOf[r] <= r)
    && (forall a :: a in g ==> t.threadOf[a] in g && t.threadOf[t.threadOf[a]] == t.threadOf[a])
  }

  /** Threads are the connected components. */
  ghost predicate Grouped(t: Threads, g: Graph) {
    g.Keys <= t.threadOf.Keys && forall a, b :: a in g && b in g ==> (t.threadOf[a] == t.threadOf[b] <==> Connected(g, a, b))
  }

  /** The state of the tables after exactly the messages of `g` have been folded. */
  ghost predicate Sound(t: Threads, g: Graph, roots: set<MsgId>) {
    Named(t, g, roots) && Grouped(t, g)
  }

  lemma ExistingThreads(t: Threads, g: Graph, roots: set<MsgId>, rs: set<Ref>)
    requires Sound(t, g, roots)
    ensures forall b :: b in g && g[b] * rs != {} ==> t.threadOf[b] in Existing(t, rs)
    ensures forall x :: x in Existing(t, rs) ==>
              x in g && t.threadOf[x] == x && exists b :: b in g && g[b] * rs != {} && t.threadOf[b] == x
    ensures Existing(t, rs) == {} <==> !LinksInto(g, rs)
  {
    forall b | b in g && g[b] * rs != {} ensures t.threadOf[b] in Existing(t, rs) {
      var r := Pick(g[b] * rs);
      assert Link(b, r) in t.refs;
    }
    forall x | x in Existing(t, rs)
      ensures x in g && t.threadOf[x] == x && exists b :: b in g && g[b] * rs != {} && t.threadOf[b] == x
    {
      var e :| e in t.refs && e.ref in rs && e.id in t.threadOf && t.threadOf[e.id] == x;
      assert e.id in g && e.ref in g[e.id] * rs;
    }
    if Existing(t, rs) != {} {
      var x := Pick(Existing(t, rs));
      var b :| b in g && g[b] * rs != {} && t.threadOf[b] == x;
    }
  }

  /** One fold step keeps the tables sound for the graph with the message added. */
  lemma FoldOneSound(t: Threads, g: Graph, roots: set<MsgId>, m: Msg)
    requires Sound(t, g, roots) && m.id !in g
    ensures Sound(FoldOne(t, m), g[m.id := m.RefSet()],
                  roots + if LinksInto(g, m.RefSet()) then {} else {m.id})
  {
    FoldOneNamed(t, g, roots, m);
    forall a, b | a in g[m.id := m.RefSet()] && b in g[m.id := m.RefSet()]
      ensures FoldOne(t, m).threadOf[a] == FoldOne(t, m).threadOf[b] <==> Connected(g[m.id := m.RefSet()], a, b)
    {
      FoldOnePartition(t, g, roots, m, a, b);
    }
  }

  lemma FoldOneNamed(t: Threads, g: Graph, roots: set<MsgId>, m: Msg)
    requires Sound(t, g, roots) && m.id !in g
    ensures Named(FoldOne(t, m), g[m.id := m.RefSet()], roots + if LinksInto(g, m.RefSet()) then {} else {m.id})
  {
    ExistingThreads(t, g, roots, m.RefSet());
    assert FoldOne(t, m).threadOf.Keys == g[m.id := m.RefSet()].Keys;
  }

  /** After the step, threads are exactly the connected components. */
  lemma FoldOnePartition(t: Threads, g: Graph, roots: set<MsgId>, m: Msg, a: MsgId, b: MsgId)
    requires Sound(t, g, roots) && m.id !in g
    requires a in g[m.id := m.RefSet()] && b in g[m.id := m.RefSet()]
    ensures g[m.id := m.RefSet()].Keys <= FoldOne(t, m).threadOf.Keys
    ensures FoldOne(t, m).threadOf[a] == FoldOne(t, m).threadOf[b] <==> Connected(g[m.id := m.RefSet()], a, b)
  {
    var g', t' := g[m.id := m.RefSet()], FoldOne(t, m);
    assert g'.Keys <= t'.threadOf.Keys;
    if t'.threadOf[a] == t'.threadOf[b] {
      SameThreadConnected(t, g, roots, m, a, b);
    }
    if Connected(g', a, b) {
      forall x, y | Linked(g', x, y) ensures t'.threadOf[x] == t'.threadOf[y] {
        LinkedSameThread(t, g, roots, m, x, y);
      }
      var p :| PathFromTo(g', p, a, b);
      LabelAlongPath(g', t'.threadOf, p);
    }
  }

  lemma LinkedSameThread(t: Threads, g: Graph, roots: set<MsgId>, m: Msg, a: MsgId, b: MsgId)
    requires Sound(t, g, roots) && m.id !in g && Linked(g[m.id := m.RefSet()], a, b)
    ensures a in FoldOne(t, m).threadOf && b in FoldOne(t, m).threadOf
    ensures FoldOne(t, m).threadOf[a] == FoldOne(t, m).threadOf[b]
  {
    ExistingThreads(t, g, roots, m.RefSet());
    if a in g && b in g {
      assert Linked(g, a, b);
      LinkedConnected(g, a, b);
    }
  }

  /** Two messages the step puts in one thread were connected before, or are
      connected through the new message. */
  lemma SameThreadConnected(t: Threads, g: Graph, roots: set<MsgId>, m: Msg, a: MsgId, b: MsgId)
    requires Sound(t, g, roots) && m.id !in g
    requires a in g[m.id := m.RefSet()] && b in g[m.id := m.RefSet()]
    requires FoldOne(t, m).threadOf[a] == FoldOne(t, m).threadOf[b]
    ensures Connected(g[m.id := m.RefSet()], a, b)
  {
    var rs := m.RefSet();
    var g' := g[m.id := rs];
    ExistingThreads(t, g, roots, rs);
    if a in g && b in g && t.threadOf[a] == t.threadOf[b] {
      ConnectedMono(g, m.id, rs, a, b);
    } else if a == m.id && b == m.id {
      ConnectedRefl(g', a);
    } else {
      JoinsThroughNew(t, g, roots, m, a);
      JoinsThroughNew(t, g, roots, m, b);
      ConnectedSym(g', b, m.id);
      ConnectedTrans(g', a, m.id, b);
    }
  }

  lemma JoinsThroughNew(t: Threads, g: Graph, roots: set<MsgId>, m: Msg, a: MsgId)
    requires Sound(t, g, roots) && m.id !in g
    requires a == m.id || (a in g && t.threadOf[a] in Existing(t, m.RefSet()))
    ensures Connected(g[m.id := m.RefSet()], a, m.id)
  {
    var rs := m.RefSet();
    var g' := g[m.id := rs];
    if a == m.id {
      ConnectedRefl(g', a);
    } else {
      ExistingThreads(t, g, roots, rs);
      var b :| b in g && g[b] * rs != {} && t.threadOf[b] == t.threadOf[a];
      ConnectedMono(g, m.id, rs, a, b);
      assert Linked(g', b, m.id);
      LinkedConnected(g', b, m.id);
      ConnectedTrans(g', a, b, m.id);
    }
  }

  lemma {:induction false} FoldSound(ms: seq<Msg>)
    requires DistinctIds(ms)
    ensures Sound(Fold(NoThreads, ms), GraphOf(ms), Roots(ms))
  {
    if ms != [] {
      var pre, m := ms[..|ms| - 1], ms[|ms| - 1];
      FoldSound(pre);
      GraphOfDomain(pre);
      assert m.id !in GraphOf(pre);
      FoldOneSound(Fold(NoThreads, pre), GraphOf(pre), Roots(pre), m);
    }
  }

  // ---------------------------------------------------------------------------
  // Main results about the thread map
  // ---------------------------------------------------------------------------

  /** Messages share a thread exactly when a chain of shared references joins them,
      in whatever order they were folded. */
  lemma PartitionIsConnectivity(ms: seq<Msg>, a: MsgId, b: MsgId)
    requires DistinctIds(ms) && a in GraphOf(ms) && b in GraphOf(ms)
    ensures a in Fold(NoThreads, ms).threadOf && b in Fold(NoThreads, ms).threadOf
    ensures Fold(NoThreads, ms).threadOf[a] == Fold(NoThreads, ms).threadOf[b] <==> Connected(GraphOf(ms), a, b)
  {
    FoldSound(ms);
  }

  /** The partition does not depend on the order in which messages are folded. */
  lemma PartitionIgnoresOrder(ms: seq<Msg>, ns: seq<Msg>, a: MsgId, b: MsgId)
    requires DistinctIds(ms) && DistinctIds(ns) && forall m :: m in ms <==> m in ns
    requires a in GraphOf(ms) && b in GraphOf(ms)
    ensures a in GraphOf(ns) && b in GraphOf(ns)
    ensures a in Fold(NoThreads, ms).threadOf && b in Fold(NoThreads, ms).threadOf
    ensures a in Fold(NoThreads, ns).threadOf && b in Fold(NoThreads, ns).threadOf
    ensures Fold(NoThreads, ms).threadOf[a] == Fold(NoThreads, ms).threadOf[b]
       <==> Fold(NoThreads, ns).threadOf[a] == Fold(NoThreads, ns).threadOf[b]
  {
    GraphOfOrder(ms, ns);
    PartitionIsConnectivity(ms, a, b);
    PartitionIsConnectivity(ns, a, b);
  }

  /** The id of a thread is the smallest root of the component. */
  lemma ThreadIsLeastRoot(ms: seq<Msg>, a: MsgId)
    requires DistinctIds(ms) && a in GraphOf(ms)
    ensures var tid := Fold(NoThreads, ms).threadOf;
            && a in tid && tid[a] in Roots(ms) && Connected(GraphOf(ms), tid[a], a)
            && forall r :: r in Roots(ms) && Connected(GraphOf(ms), r, a) ==> tid[a] <= r
  {
    FoldSound(ms);
  }

  ghost function Component(g: Graph, a: MsgId): set<MsgId> {
    set b | b in g && Connected(g, b, a)
  }

  /** The id of a thread is the smallest id of its component if and only if the
      component's smallest message shares no reference with an earlier one. */
  lemma ThreadIsLeastIdExactly(ms: seq<Msg>, a: MsgId)
    requires DistinctIds(ms) && a in GraphOf(ms)
    ensures a in Component(GraphOf(ms), a) && a in Fold(NoThreads, ms).threadOf
    ensures Fold(NoThreads, ms).threadOf[a] == Least(Component(GraphOf(ms), a))
       <==> Least(Component(GraphOf(ms), a)) in Roots(ms)
  {
    var g := GraphOf(ms);
    ConnectedRefl(g, a);
    ThreadIsLeastRoot(ms, a);
    FoldSound(ms);
    var c := Component(g, a);
    var tid := Fold(NoThreads, ms).threadOf[a];
    assert tid in c;
  }

  ghost predicate IncreasingIds(ms: seq<Msg>) {
    forall i, j :: 0 <= i < j < |ms| ==> ms[i].id < ms[j].id
  }

  /** Folding in the order of ids, as delivery assigns them, names each thread by
      the smallest message id of the connected component. */
  lemma ThreadIsLeastId(ms: seq<Msg>, a: MsgId)
    requires IncreasingIds(ms) && a in GraphOf(ms)
    ensures a in Component(GraphOf(ms), a) && a in Fold(NoThreads, ms).threadOf
    ensures Fold(NoThreads, ms).threadOf[a] == Least(Component(GraphOf(ms), a))
  {
    var g := GraphOf(ms);
    ThreadIsLeastIdExactly(ms, a);
    var least := Least(Component(g, a));
    if least !in Roots(ms) {
      var b := EarlierLink(ms, least);
      assert b !in Component(g, a);
      LinkedConnected(g, b, least);
      ConnectedTrans(g, b, least, a);
    }
  }

  /** A message that is not a root shares a reference with one of smaller id. */
  lemma {:induction false} EarlierLink(ms: seq<Msg>, a: MsgId) returns (b: MsgId)
    requires IncreasingIds(ms) && a in GraphOf(ms) && a !in Roots(ms)
    ensures b < a && Linked(GraphOf(ms), b, a)
  {
    var pre, m := ms[..|ms| - 1], ms[|ms| - 1];
    GraphOfDomain(pre);
    if a == m.id {
      b :| b in GraphOf(pre) && GraphOf(pre)[b] * m.RefSet() != {};
      assert b < a;
      var r := Pick(GraphOf(pre)[b] * m.RefSet());
      assert r in GraphOf(ms)[b] * GraphOf(ms)[a];
    } else {
      b := EarlierLink(pre, a);
      assert b != m.id;
    }
  }

  /** Out of id order the smallest id need not name the thread: folding message 5
      and then message 3, which share a reference, yields thread 5. */
  lemma ThreadIdNotLeastOutOfOrder()
    ensures var ms := [Msg(5, 1, Readable(["<x@y>"])), Msg(3, 2, Readable(["<x@y>"]))];
            DistinctIds(ms) && 3 in Fold(NoThreads, ms).threadOf && Fold(NoThreads, ms).threadOf[3] == 5
  {
    var m5, m3 := Msg(5, 1, Readable(["<x@y>"])), Msg(3, 2, Readable(["<x@y>"]));
    var ms := [m5, m3];
    assert ms[..1] == [m5] && ms[..1][..0] == [];
    var t1 := Fold(NoThreads, [m5]);
    assert [m5][..|[m5]| - 1] == [];
    assert Fold(NoThreads, []) == NoThreads;
    assert t1 == FoldOne(NoThreads, m5);
    assert "<x@y>" in m5.RefSet() && "<x@y>" in m3.RefSet();
    assert Existing(NoThreads, m5.RefSet()) == {};
    assert Link(5, "<x@y>") in t1.refs && t1.threadOf == map[5 := 5];
    assert 5 in Existing(t1, m3.RefSet());
    assert Existing(t1, m3.RefSet()) == {5};
  }

  /** Quarantined and reference-less messages stay alone in their own thread. */
  lemma UnlinkedStaysAlone(ms: seq<Msg>, i: nat, b: MsgId)
    requires DistinctIds(ms) && i < |ms| && ms[i].RefSet() == {}
    requires b in GraphOf(ms)
    ensures ms[i].id in Fold(NoThreads, ms).threadOf && b in Fold(NoThreads, ms).threadOf
    ensures Fold(NoThreads, ms).threadOf[ms[i].id] == ms[i].id
    ensures Fold(NoThreads, ms).threadOf[b] == ms[i].id <==> b == ms[i].id
  {
    var g, a := GraphOf(ms), ms[i].id;
    GraphOfDomain(ms);
    FoldSound(ms);
    var tid := Fold(NoThreads, ms).threadOf;
    assert Connected(g, a, tid[a]);
    RefLessIsAlone(g, a, tid[a]);
    if tid[b] == a {
      assert Connected(g, a, b);
      RefLessIsAlone(g, a, b);
    }
  }

  // ---------------------------------------------------------------------------
  // Re-folding, chunks and leftover thread ids
  // ---------------------------------------------------------------------------

  /** The threads a folded message would join are just its own. */
  lemma ExistingOfFolded(t: Threads, g: Graph, roots: set<MsgId>, id: MsgId)
    requires Sound(t, g, roots) && id in g && g[id] != {}
    ensures Existing(t, g[id]) == {t.threadOf[id]}
  {
    ExistingThreads(t, g, roots, g[id]);
    var r := Pick(g[id]);
    assert r in g[id] * g[id];
    forall x | x in Existing(t, g[id]) ensures x == t.threadOf[id] {
      var b :| b in g && g[b] * g[id] != {} && t.threadOf[b] == x;
      assert Linked(g, b, id);
      LinkedConnected(g, b, id);
    }
  }

  /** Folding a message a second time changes nothing. */
  lemma RefoldIsNoOp(ms: seq<Msg>, i: nat)
    requires DistinctIds(ms) && i < |ms|
    ensures FoldOne(Fold(NoThreads, ms), ms[i]) == Fold(NoThreads, ms)
  {
    GraphOfDomain(ms);
    FoldSound(ms);
    if ms[i].RefSet() == {} {
      UnlinkedStaysAlone(ms, i, ms[i].id);
    }
    RefoldSound(Fold(NoThreads, ms), GraphOf(ms), Roots(ms), ms[i]);
  }

  lemma RefoldSound(t: Threads, g: Graph, roots: set<MsgId>, m: Msg)
    requires Sound(t, g, roots) && m.id in g && g[m.id] == m.RefSet()
    requires m.RefSet() == {} ==> t.threadOf[m.id] == m.id
    ensures FoldOne(t, m) == t
  {
    var rs := m.RefSet();
    if rs != {} {
      ExistingOfFolded(t, g, roots, m.id);
    } else {
      assert Existing(t, rs) == {};
    }
    assert FoldOne(t, m).threadOf == t.threadOf;
    assert FoldOne(t, m).refs == t.refs;
  }

  /** `t` is the folded state `f`, plus thread ids on rows that are not folded yet
      (a copied message is inserted with its sibling's thread id). */
  ghost predicate Extends(t: Threads, f: Threads) {
    t.refs == f.refs && forall a :: a in f.threadOf ==> a in t.threadOf && t.threadOf[a] == f.threadOf[a]
  }

  /** Leftover thread ids on unfolded rows never influence a fold step. */
  lemma FoldOneExtends(t: Threads, f: Threads, m: Msg)
    requires Extends(t, f) && forall x :: x in f.refs ==> x.id in f.threadOf
    ensures Extends(FoldOne(t, m), FoldOne(f, m))
  {
    var rs := m.RefSet();
    forall x | x in Existing(t, rs) ensures x in Existing(f, rs) {
      var e :| e in t.refs && e.ref in rs && e.id in t.threadOf && t.threadOf[e.id] == x;
      assert e in f.refs && e.id in f.threadOf && f.threadOf[e.id] == x;
    }
    forall x | x in Existing(f, rs) ensures x in Existing(t, rs) {
      var e :| e in f.refs && e.ref in rs && e.id in f.threadOf && f.threadOf[e.id] == x;
      assert e in t.refs && e.id in t.threadOf && t.threadOf[e.id] == x;
    }
    assert Existing(t, rs) == Existing(f, rs);
  }

  /** Folding `log[lo..hi]` on top of the first `done` messages, `lo <= done`, gives
      the first `max(done, hi)` messages: overlaps are harmless. */
  lemma {:induction false} ChunkOverlaps(log: seq<Msg>, done: nat, lo: nat, hi: nat)
    requires DistinctIds(log) && lo <= done <= |log| && lo <= hi <= |log|
    ensures Fold(Fold(NoThreads, log[..done]), log[lo..hi])
         == Fold(NoThreads, log[..if done < hi then hi else done])
  {
    if lo < hi {
      var k := hi - 1;
      ChunkOverlaps(log, done, lo, k);
      ChunkLast(log, lo, hi);
      if k < done {
        assert log[..done][k] == log[k];
        RefoldIsNoOp(log[..done], k);
      } else {
        assert log[..hi][..|log[..hi]| - 1] == log[..k];
      }
    }
  }

  lemma ChunkLast(log: seq<Msg>, lo: nat, hi: nat)
    requires lo < hi <= |log|
    ensures var c := log[lo..hi]; c[..|c| - 1] == log[lo..hi - 1] && c[|c| - 1] == log[hi - 1]
  {
  }

  lemma {:induction false} FoldExtends(t: Threads, f: Threads, ms: seq<Msg>)
    requires Extends(t, f) && forall x :: x in f.refs ==> x.id in f.threadOf
    ensures Extends(Fold(t, ms), Fold(f, ms)) && forall x :: x in Fold(f, ms).refs ==> x.id in Fold(f, ms).threadOf
  {
    if ms != [] {
      FoldExtends(t, f, ms[..|ms| - 1]);
      FoldOneExtends(Fold(t, ms[..|ms| - 1]), Fold(f, ms[..|ms| - 1]), ms[|ms| - 1]);
    }
  }

  /** The same on top of a state with leftover thread ids. */
  lemma ChunkExtends(t: Threads, log: seq<Msg>, done: nat, lo: nat, hi: nat)
    requires DistinctIds(log) && lo <= done <= |log| && lo <= hi <= |log|
    requires Extends(t, Fold(NoThreads, log[..done]))
    ensures Extends(Fold(t, log[lo..hi]), Fold(NoThreads, log[..if done < hi then hi else done]))
  {
    ChunkOverlaps(log, done, lo, hi);
    FoldSound(log[..done]);
    FoldExtends(t, Fold(NoThreads, log[..done]), log[lo..hi]);
  }

  /** Folding in two parts is folding at once. */
  lemma {:induction false} FoldAppend(t: Threads, a: seq<Msg>, b: seq<Msg>)
    ensures Fold(Fold(t, a), b) == Fold(t, a + b)
  {
    if b == [] {
      assert a + b == a;
    } else {
      FoldAppend(t, a, b[..|b| - 1]);
      assert (a + b)[..|a + b| - 1] == a + b[..|b| - 1];
    }
  }

  lemma FoldRanges(t: Threads, log: seq<Msg>, lo: nat, mid: nat, hi: nat)
    requires lo <= mid <= hi <= |log|
    ensures Fold(Fold(t, log[lo..mid]), log[mid..hi]) == Fold(t, log[lo..hi])
  {
    FoldAppend(t, log[lo..mid], log[mid..hi]);
    assert log[lo..mid] + log[mid..hi] == log[lo..hi];
  }

  /** A batch of the log, `log[lo..hi]`. */
  datatype Chunk = Chunk(lo: nat, hi: nat)

  /** Batches, in commit order, each starting at or before what is already folded. */
  ghost predicate Schedule(log: seq<Msg>, chunks: seq<Chunk>, done: nat) {
    if chunks == [] then done == 0 else
      var pre, c := chunks[..|chunks| - 1], chunks[|chunks| - 1];
      && c.lo <= c.hi <= |log|
      && exists d :: 0 <= d <= |log| && Schedule(log, pre, d) && c.lo <= d && done == if d < c.hi then c.hi else d
  }

  ghost function FoldChunks(log: seq<Msg>, chunks: seq<Chunk>): Threads
    requires forall c :: c in chunks ==> c.lo <= c.hi <= |log|
  {
    if chunks == [] then NoThreads else
      var c := chunks[|chunks| - 1];
      Fold(FoldChunks(log, chunks[..|chunks| - 1]), log[c.lo..c.hi])
  }

  /** Any batch sizes, with any batch repeated any number of times, end in the
      state of one left-to-right fold. */
  lemma {:induction false} AnyScheduleSameThreads(log: seq<Msg>, chunks: seq<Chunk>, done: nat)
    requires DistinctIds(log) && done <= |log| && Schedule(log, chunks, done)
    requires forall c :: c in chunks ==> c.lo <= c.hi <= |log|
    ensures FoldChunks(log, chunks) == Fold(NoThreads, log[..done])
  {
    if chunks != [] {
      var pre, c := chunks[..|chunks| - 1], chunks[|chunks| - 1];
      var d :| 0 <= d <= |log| && Schedule(log, pre, d) && c.lo <= d && done == if d < c.hi then c.hi else d;
      AnyScheduleSameThreads(log, pre, d);
      ChunkOverlaps(log, d, c.lo, c.hi);
    } else {
      assert log[..0] == [];
    }
  }
}
