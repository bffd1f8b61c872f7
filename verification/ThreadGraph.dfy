/** Conversations as connected components.

  `projection/threads.go` groups messages whose reference sets (Message-ID,
  In-Reply-To, References) are connected.  This module holds the data model, the
  graph the specification talks about, and the pure left-to-right fold that the
  worker in `ThreadWorker` is proved to implement. */
module ThreadGraph {
  import opened Sets

  type MsgId = int
  type Ref = string

  /** What reading a stored message yields: its canonical references, or a
      permanent blob failure, which the worker quarantines. */
  datatype Blob = Readable(refs: seq<Ref>) | Unreadable

  datatype Msg = Msg(id: MsgId, createSeq: int, blob: Blob) {
    function RefSet(): set<Ref> {
      if blob.Readable? then set r | r in blob.refs else {}
    }
  }

  ghost predicate DistinctIds(ms: seq<Msg>) {
    forall i, j :: 0 <= i < j < |ms| ==> ms[i].id != ms[j].id
  }

  // ---------------------------------------------------------------------------
  // The specification: connectivity by shared references
  // ---------------------------------------------------------------------------

  /** Message ids with the references they carry. */
  type Graph = map<MsgId, set<Ref>>

  ghost function GraphOf(ms: seq<Msg>): Graph {
    if ms == [] then map[] else GraphOf(ms[..|ms| - 1])[ms[|ms| - 1].id := ms[|ms| - 1].RefSet()]
  }

  ghost predicate Linked(g: Graph, a: MsgId, b: MsgId) {
    a in g && b in g && g[a] * g[b] != {}
  }

  ghost predicate Path(g: Graph, p: seq<MsgId>) {
    && p != []
    && (forall i :: 0 <= i < |p| ==> p[i] in g)
    && (forall i :: 0 <= i < |p| - 1 ==> Linked(g, p[i], p[i + 1]))
  }

  ghost predicate PathFromTo(g: Graph, p: seq<MsgId>, a: MsgId, b: MsgId) {
    Path(g, p) && p[0] == a && p[|p| - 1] == b
  }

  /** Two messages belong together when a chain of shared references joins them. */
  ghost predicate Connected(g: Graph, a: MsgId, b: MsgId) {
    exists p :: PathFromTo(g, p, a, b)
  }

  // ---------------------------------------------------------------------------
  // The fold
  // ---------------------------------------------------------------------------

  /** A row of `thread_refs`. */
  datatype Link = Link(id: MsgId, ref: Ref)

  /** `messages.thread_id` (absent = NULL) and the `thread_refs` table. */
  datatype Threads = Threads(threadOf: map<MsgId, MsgId>, refs: set<Link>)

  const NoThreads := Threads(map[], {})

  /** The distinct threads that some already recorded reference in `rs` belongs to. */
  function Existing(t: Threads, rs: set<Ref>): set<MsgId> {
    set x | x in t.refs && x.ref in rs && x.id in t.threadOf :: t.threadOf[x.id]
  }

  /** Folding one message: join every thread that shares a reference into the
      smallest of them, or start a thread; an unreadable message stands alone. */
  ghost function FoldOne(t: Threads, m: Msg): Threads {
    if m.blob.Unreadable? then
      t.(threadOf := t.threadOf[m.id := m.id])
    else
      var ex := Existing(t, m.RefSet());
      var tid := if ex == {} then m.id else Least(ex);
      Threads((map k | k in t.threadOf :: if t.threadOf[k] in ex then tid else t.threadOf[k])[m.id := tid],
              t.refs + set r | r in m.RefSet() :: Link(m.id, r))
  }

  ghost function Fold(t: Threads, ms: seq<Msg>): Threads {
    if ms == [] then t else FoldOne(Fold(t, ms[..|ms| - 1]), ms[|ms| - 1])
  }

  // ---------------------------------------------------------------------------
  // Facts about connectivity
  // ---------------------------------------------------------------------------

  lemma ConnectedRefl(g: Graph, a: MsgId)
    requires a in g
    ensures Connected(g, a, a)
  {
    assert PathFromTo(g, [a], a, a);
  }

  lemma ConnectedSym(g: Graph, a: MsgId, b: MsgId)
    requires Connected(g, a, b)
    ensures Connected(g, b, a)
  {
    var p :| PathFromTo(g, p, a, b);
    var q := seq(|p|, i requires 0 <= i < |p| => p[|p| - 1 - i]);
    forall i | 0 <= i < |q| - 1 ensures Linked(g, q[i], q[i + 1]) {
      var k := |p| - 2 - i;
      assert q[i] == p[k + 1] && q[i + 1] == p[k];
      assert Linked(g, p[k], p[k + 1]);
    }
    assert PathFromTo(g, q, b, a);
  }

  lemma ConnectedTrans(g: Graph, a: MsgId, b: MsgId, c: MsgId)
    requires Connected(g, a, b) && Connected(g, b, c)
    ensures Connected(g, a, c)
  {
    var p :| PathFromTo(g, p, a, b);
    var q :| PathFromTo(g, q, b, c);
    var r := p + q[1..];
    forall i | 0 <= i < |r| - 1 ensures Linked(g, r[i], r[i + 1]) {
      if i < |p| - 1 {
        assert Linked(g, p[i], p[i + 1]);
      } else {
        var k := i - (|p| - 1);
        assert r[i] == q[k] && r[i + 1] == q[k + 1];
        assert Linked(g, q[k], q[k + 1]);
      }
    }
    assert PathFromTo(g, r, a, c);
  }

  lemma LinkedConnected(g: Graph, a: MsgId, b: MsgId)
    requires Linked(g, a, b)
    ensures Connected(g, a, b)
  {
    assert PathFromTo(g, [a, b], a, b);
  }

  /** A path survives adding a message. */
  lemma ConnectedMono(g: Graph, id: MsgId, rs: set<Ref>, a: MsgId, b: MsgId)
    requires id !in g && Connected(g, a, b)
    ensures Connected(g[id := rs], a, b)
  {
    var p :| PathFromTo(g, p, a, b);
    forall i | 0 <= i < |p| - 1 ensures Linked(g[id := rs], p[i], p[i + 1]) {
      assert Linked(g, p[i], p[i + 1]);
    }
    assert PathFromTo(g[id := rs], p, a, b);
  }

  /** A labelling that agrees along every link agrees along every path. */
  lemma {:induction false} LabelAlongPath(g: Graph, color: map<MsgId, MsgId>, p: seq<MsgId>)
    requires g.Keys <= color.Keys && Path(g, p)
    requires forall a, b :: Linked(g, a, b) ==> color[a] == color[b]
    ensures color[p[0]] == color[p[|p| - 1]]
  {
    if |p| > 1 {
      var q := p[..|p| - 1];
      assert Path(g, q) by {
        forall i | 0 <= i < |q| - 1 ensures Linked(g, q[i], q[i + 1]) {
          assert Linked(g, p[i], p[i + 1]);
        }
      }
      LabelAlongPath(g, color, q);
      assert Linked(g, p[|p| - 2], p[|p| - 1]);
    }
  }

  /** A message without references is connected to itself only. */
  lemma RefLessIsAlone(g: Graph, a: MsgId, b: MsgId)
    requires a in g && g[a] == {} && Connected(g, a, b)
    ensures a == b
  {
    var p :| PathFromTo(g, p, a, b);
    assert |p| > 1 ==> Linked(g, p[0], p[1]);
  }

  lemma {:induction false} GraphOfDomain(ms: seq<Msg>)
    ensures forall i :: 0 <= i < |ms| ==> ms[i].id in GraphOf(ms)
    ensures forall a :: a in GraphOf(ms) ==> exists i :: 0 <= i < |ms| && ms[i].id == a
    ensures DistinctIds(ms) ==> forall i :: 0 <= i < |ms| ==> GraphOf(ms)[ms[i].id] == ms[i].RefSet()
  {
    if ms != [] {
      var pre, m := ms[..|ms| - 1], ms[|ms| - 1];
      GraphOfDomain(pre);
      forall i | 0 <= i < |ms| ensures ms[i].id in GraphOf(ms) {
        if i < |pre| { assert pre[i] == ms[i]; }
      }
      forall a | a in GraphOf(ms) ensures exists i :: 0 <= i < |ms| && ms[i].id == a {
        if a in GraphOf(pre) {
          var i :| 0 <= i < |pre| && pre[i].id == a;
          assert ms[i].id == a;
        } else {
          assert ms[|ms| - 1].id == a;
        }
      }
      if DistinctIds(ms) {
        forall i | 0 <= i < |ms| ensures GraphOf(ms)[ms[i].id] == ms[i].RefSet() {
          if i < |pre| { assert pre[i] == ms[i]; }
        }
      }
    }
  }

  /** The graph does not depend on the order of the messages. */
  lemma GraphOfOrder(ms: seq<Msg>, ns: seq<Msg>)
    requires DistinctIds(ms) && DistinctIds(ns)
    requires forall m :: m in ms <==> m in ns
    ensures GraphOf(ms) == GraphOf(ns)
  {
    GraphOfDomain(ms);
    GraphOfDomain(ns);
    forall a | a in GraphOf(ms) ensures a in GraphOf(ns) && GraphOf(ns)[a] == GraphOf(ms)[a] {
      var i :| 0 <= i < |ms| && ms[i].id == a;
      assert ms[i] in ns;
      var j :| 0 <= j < |ns| && ns[j] == ms[i];
    }
    forall a | a in GraphOf(ns) ensures a in GraphOf(ms) {
      var i :| 0 <= i < |ns| && ns[i].id == a;
      assert ns[i] in ms;
    }
  }
}
