/** Rebuilding the threads of an account while workers fold it.

  RebuildAccount is three statements, each committed on its own and each able to fail,
  and then a drain.  Workers read the cursor, then select a batch after it and then commit
  the batch, each on its own; deliveries go on, and a rebuild may stop after any of its
  statements.  `folded` remembers which messages the
  tables still hold the fold of; it is not stored, and `Recorded` says it in terms of
  the tables. */
module ThreadRebuild {
  import opened Options
  import opened Sets
  import opened ThreadGraph
  import opened ThreadFold
  import opened ThreadWorker

  // ---------------------------------------------------------------------------
  // The tables
  // ---------------------------------------------------------------------------

  /** The part of the tables, and of the graph, that concerns some of the messages. */
  ghost function Seen(t: Threads, ids: set<MsgId>): Threads {
    Threads(map a | a in t.threadOf && a in ids :: t.threadOf[a], set x | x in t.refs && x.id in ids)
  }

  ghost function Restrict(g: Graph, ids: set<MsgId>): Graph {
    map a | a in g && a in ids :: g[a]
  }

  ghost predicate SoundFor(t: Threads, g: Graph, folded: set<MsgId>) {
    exists roots :: Sound(Seen(t, folded), Restrict(g, folded), roots)
  }

  /** The folded messages are threaded by connectivity among themselves.  References of
      other messages belong to rows without a thread; and no other message without
      references stands in a thread of its own. */
  ghost predicate Kept(g: Graph, t: Threads, folded: set<MsgId>) {
    && folded <= g.Keys
    && SoundFor(t, g, folded)
    && (forall x :: x in t.refs ==> x.id in g && x.ref in g[x.id] && (x.id in t.threadOf ==> x.id in folded))
    && (forall a :: a in g && a !in folded && g[a] == {} && a in t.threadOf ==> t.threadOf[a] != a)
  }

  lemma SameExisting(g: Graph, t: Threads, folded: set<MsgId>, rs: set<Ref>)
    requires Kept(g, t, folded)
    ensures Existing(t, rs) == Existing(Seen(t, folded), rs)
  {
    var s := Seen(t, folded);
    forall x | x in Existing(t, rs) ensures x in Existing(s, rs) {
      var e :| e in t.refs && e.ref in rs && e.id in t.threadOf && t.threadOf[e.id] == x;
      assert e in s.refs && e.id in s.threadOf && s.threadOf[e.id] == x;
    }
    forall x | x in Existing(s, rs) ensures x in Existing(t, rs) {
      var e :| e in s.refs && e.ref in rs && e.id in s.threadOf && s.threadOf[e.id] == x;
      assert e in t.refs && e.id in t.threadOf && t.threadOf[e.id] == x;
    }
  }

  lemma FoldedHaveThreads(g: Graph, t: Threads, folded: set<MsgId>)
    requires Kept(g, t, folded)
    ensures forall a :: a in folded ==> a in t.threadOf
  {
    var roots :| Sound(Seen(t, folded), Restrict(g, folded), roots);
    forall a | a in folded ensures a in t.threadOf {
      assert a in Restrict(g, folded).Keys && a in Seen(t, folded).threadOf.Keys;
    }
  }

  /** Folding a message that is not folded does to the folded part what a fold does. */
  lemma SeenFoldOne(g: Graph, t: Threads, folded: set<MsgId>, m: Msg)
    requires Kept(g, t, folded) && m.id in g && m.id !in folded && g[m.id] == m.RefSet()
    ensures Seen(FoldOne(t, m), folded + {m.id}) == FoldOne(Seen(t, folded), m)
    ensures Restrict(g, folded + {m.id}) == Restrict(g, folded)[m.id := m.RefSet()]
  {
    SameExisting(g, t, folded, m.RefSet());
    FoldedHaveThreads(g, t, folded);
    SeenThreads(t, folded, m);
  }

  lemma SeenThreads(t: Threads, folded: set<MsgId>, m: Msg)
    requires m.id !in folded && Existing(t, m.RefSet()) == Existing(Seen(t, folded), m.RefSet())
    requires (forall a :: a in folded ==> a in t.threadOf) && forall x :: x in t.refs && x.id == m.id ==> x.ref in m.RefSet()
    ensures Seen(FoldOne(t, m), folded + {m.id}) == FoldOne(Seen(t, folded), m)
  {
    var l, r := Seen(FoldOne(t, m), folded + {m.id}), FoldOne(Seen(t, folded), m);
    assert l.threadOf == r.threadOf;
    assert l.refs == r.refs;
  }

  lemma FoldNew(g: Graph, t: Threads, folded: set<MsgId>, m: Msg)
    requires Kept(g, t, folded) && m.id in g && m.id !in folded && g[m.id] == m.RefSet()
    ensures Kept(g, FoldOne(t, m), folded + {m.id})
  {
    var s := Seen(t, folded);
    var roots :| Sound(s, Restrict(g, folded), roots);
    NewIsSound(g, t, folded, m, roots);
    SameExisting(g, t, folded, m.RefSet());
    ExistingThreads(s, Restrict(g, folded), roots, m.RefSet());
  }

  lemma NewIsSound(g: Graph, t: Threads, folded: set<MsgId>, m: Msg, roots: set<MsgId>)
    requires Kept(g, t, folded) && m.id in g && m.id !in folded && g[m.id] == m.RefSet()
    requires Sound(Seen(t, folded), Restrict(g, folded), roots)
    ensures SoundFor(FoldOne(t, m), g, folded + {m.id})
  {
    SeenFoldOne(g, t, folded, m);
    FoldOneSound(Seen(t, folded), Restrict(g, folded), roots, m);
  }

  /** Folding a folded message changes nothing. */
  lemma FoldAgain(g: Graph, t: Threads, folded: set<MsgId>, m: Msg)
    requires Kept(g, t, folded) && m.id in folded && g[m.id] == m.RefSet()
    ensures FoldOne(t, m) == t
  {
    var s, h, rs := Seen(t, folded), Restrict(g, folded), m.RefSet();
    var roots :| Sound(s, h, roots);
    SameExisting(g, t, folded, rs);
    if rs == {} {
      AloneInThread(s, h, roots, m.id);
      assert Existing(t, rs) == {};
    } else {
      ExistingOfFolded(s, h, roots, m.id);
    }
    assert FoldOne(t, m).threadOf == t.threadOf;
    assert FoldOne(t, m).refs == t.refs;
  }

  lemma AloneInThread(t: Threads, g: Graph, roots: set<MsgId>, a: MsgId)
    requires Sound(t, g, roots) && a in g && g[a] == {}
    ensures t.threadOf[a] == a
  {
    assert Connected(g, a, t.threadOf[a]);
    RefLessIsAlone(g, a, t.threadOf[a]);
  }

  function Ids(ms: seq<Msg>): set<MsgId> {
    set m | m in ms :: m.id
  }

  /** Whatever batch is folded, in whatever state, its messages are folded then. */
  lemma {:induction false} FoldKeeps(g: Graph, t: Threads, folded: set<MsgId>, ms: seq<Msg>)
    requires Kept(g, t, folded) && forall m :: m in ms ==> m.id in g && g[m.id] == m.RefSet()
    ensures Kept(g, Fold(t, ms), folded + Ids(ms))
  {
    if ms == [] {
      assert folded + Ids(ms) == folded;
    } else {
      var pre, m := ms[..|ms| - 1], ms[|ms| - 1];
      FoldKeeps(g, t, folded, pre);
      assert ms == pre + [m];
      var before := folded + Ids(pre);
      assert folded + Ids(ms) == before + {m.id};
      if m.id in before {
        FoldAgain(g, Fold(t, pre), before, m);
        assert before + {m.id} == before;
      } else {
        FoldNew(g, Fold(t, pre), before, m);
      }
    }
  }

  // ---------------------------------------------------------------------------
  // All interleavings
  // ---------------------------------------------------------------------------

  type WorkerId = nat

  /** What a worker holds in a round: the cursor it has read, then the batch `log[lo..hi]` it
      has selected. */
  datatype Job = HasRead(seen: int) | HasBatch(lo: nat, hi: nat)

  datatype State = State(log: seq<Msg>, t: Threads, cursor: int, jobs: map<WorkerId, Job>, folded: set<MsgId>)

  datatype Action =
    | Deliver(m: Msg, preset: Option<MsgId>)   // a copy brings its source's thread id
    | ReadCursor(worker: WorkerId)
    | Select(worker: WorkerId, n: nat)
    | Commit(worker: WorkerId)
    | Drop(worker: WorkerId)                   // the round ends, nothing is written
    | ClearThreads                             // the statements of a rebuild
    | ClearRefs
    | ResetCursor

  ghost predicate Enabled(s: State, a: Action) {
    match a
    case Deliver(m, preset) =>
      && 0 < m.createSeq
      && (forall i :: 0 <= i < |s.log| ==> s.log[i].id != m.id && s.log[i].createSeq < m.createSeq)
      && preset != Some(m.id)
    case ReadCursor(w) => w !in s.jobs
    case Select(w, n) => w in s.jobs && s.jobs[w].HasRead? && n > 0 && Behind(s.log, s.jobs[w].seen) < |s.log|
    case Commit(w) => w in s.jobs && s.jobs[w].HasBatch? && s.jobs[w].lo < s.jobs[w].hi <= |s.log|
    case Drop(w) => w in s.jobs
    case _ => true
  }

  ghost function Selected(log: seq<Msg>, seen: int, n: nat): Job {
    var lo := Behind(log, seen);
    HasBatch(lo, if |log| - lo < n then |log| else lo + n)
  }

  ghost function FoldRange(s: State, lo: nat, hi: nat): State
    requires lo <= hi <= |s.log|
  {
    s.(t := Fold(s.t, s.log[lo..hi]), folded := s.folded + Ids(s.log[lo..hi]),
       cursor := if lo < hi then s.log[hi - 1].createSeq else s.cursor)
  }

  ghost function Step(s: State, a: Action): State
    requires Enabled(s, a)
  {
    match a
    case Deliver(m, preset) =>
      s.(log := s.log + [m],
         t := if preset.Some? then s.t.(threadOf := s.t.threadOf[m.id := preset.value]) else s.t)
    case ReadCursor(w) => s.(jobs := s.jobs[w := HasRead(s.cursor)])
    case Select(w, n) => s.(jobs := s.jobs[w := Selected(s.log, s.jobs[w].seen, n)])
    case Commit(w) => FoldRange(s, s.jobs[w].lo, s.jobs[w].hi).(jobs := s.jobs - {w})
    case Drop(w) => s.(jobs := s.jobs - {w})
    case ClearThreads => s.(t := s.t.(threadOf := map[]), folded := {})
    case ClearRefs => s.(t := s.t.(refs := {}), folded := set a | a in s.folded && Refless(s.log, a))
    case ResetCursor => s.(cursor := 0)
  }

  ghost predicate Refless(log: seq<Msg>, a: MsgId) {
    a in GraphOf(log) && GraphOf(log)[a] == {}
  }

  const Empty := State([], NoThreads, 0, map[], {})

  ghost predicate IsRun(states: seq<State>, actions: seq<Action>) {
    && |states| == |actions| + 1
    && states[0] == Empty
    && forall i :: 0 <= i < |actions| ==> Enabled(states[i], actions[i]) && states[i + 1] == Step(states[i], actions[i])
  }

  /** A cursor is at most the last message's. */
  ghost predicate Reached(log: seq<Msg>, cursor: int) {
    cursor <= 0 || (log != [] && cursor <= log[|log| - 1].createSeq)
  }

  ghost predicate JobOk(log: seq<Msg>, j: Job) {
    if j.HasRead? then Reached(log, j.seen) else j.lo < j.hi <= |log|
  }

  /** Threads, cursors and batches are of messages of the log. */
  ghost predicate InLog(s: State) {
    && (forall x :: x in s.t.threadOf ==> x in GraphOf(s.log))
    && Reached(s.log, s.cursor)
    && (forall w :: w in s.jobs ==> JobOk(s.log, s.jobs[w]))
  }

  ghost predicate Inv(s: State) {
    Ordered(s.log) && Kept(GraphOf(s.log), s.t, s.folded) && InLog(s)
  }

  lemma DeliverKeeps(s: State, m: Msg, preset: Option<MsgId>)
    requires Inv(s) && Enabled(s, Deliver(m, preset))
    ensures Inv(Step(s, Deliver(m, preset)))
  {
    DeliverGraph(s.log, m);
    NewRowKeeps(GraphOf(s.log), s.t, s.folded, m, preset);
    DeliverInLog(s, m, preset);
  }

  lemma OrderedNext(log: seq<Msg>, m: Msg)
    requires Ordered(log) && 0 < m.createSeq
    requires forall i :: 0 <= i < |log| ==> log[i].id != m.id && log[i].createSeq < m.createSeq
    ensures Ordered(log + [m])
  {
  }

  lemma DeliverGraph(log: seq<Msg>, m: Msg)
    requires Ordered(log) && 0 < m.createSeq
    requires forall i :: 0 <= i < |log| ==> log[i].id != m.id && log[i].createSeq < m.createSeq
    ensures Ordered(log + [m]) && m.id !in GraphOf(log) && GraphOf(log + [m]) == GraphOf(log)[m.id := m.RefSet()]
  {
    OrderedNext(log, m);
    GraphOfDomain(log);
    assert (log + [m])[..|log|] == log && (log + [m])[|log|] == m;
  }

  lemma ReachedNext(log: seq<Msg>, m: Msg, cursor: int)
    requires 0 < m.createSeq && (log != [] ==> log[|log| - 1].createSeq < m.createSeq) && Reached(log, cursor)
    ensures Reached(log + [m], cursor)
  {
  }

  lemma DeliverInLog(s: State, m: Msg, preset: Option<MsgId>)
    requires Ordered(s.log) && InLog(s) && Enabled(s, Deliver(m, preset))
    ensures InLog(Step(s, Deliver(m, preset)))
  {
    DeliverGraph(s.log, m);
    ReachedNext(s.log, m, s.cursor);
    forall w | w in s.jobs ensures JobOk(s.log + [m], s.jobs[w]) {
      if s.jobs[w].HasRead? {
        ReachedNext(s.log, m, s.jobs[w].seen);
      }
    }
  }

  lemma NewRowKeeps(g: Graph, t: Threads, folded: set<MsgId>, m: Msg, preset: Option<MsgId>)
    requires Kept(g, t, folded) && m.id !in g && m.id !in t.threadOf && preset != Some(m.id)
    ensures Kept(g[m.id := m.RefSet()], if preset.Some? then t.(threadOf := t.threadOf[m.id := preset.value]) else t, folded)
  {
    var t' := if preset.Some? then t.(threadOf := t.threadOf[m.id := preset.value]) else t;
    var roots :| Sound(Seen(t, folded), Restrict(g, folded), roots);
    assert Seen(t', folded) == Seen(t, folded);
    assert Restrict(g[m.id := m.RefSet()], folded) == Restrict(g, folded);
  }

  lemma RangeRefs(s: State, lo: nat, hi: nat)
    requires Ordered(s.log) && lo <= hi <= |s.log|
    ensures forall m :: m in s.log[lo..hi] ==> m.id in GraphOf(s.log) && GraphOf(s.log)[m.id] == m.RefSet()
  {
    var ms := s.log[lo..hi];
    GraphOfDomain(s.log);
    forall m | m in ms ensures m.id in GraphOf(s.log) && GraphOf(s.log)[m.id] == m.RefSet() {
      var i :| 0 <= i < |ms| && ms[i] == m;
      assert s.log[lo + i] == m;
    }
  }

  lemma FoldRangeKept(s: State, lo: nat, hi: nat)
    requires Ordered(s.log) && Kept(GraphOf(s.log), s.t, s.folded) && lo <= hi <= |s.log|
    ensures Kept(GraphOf(s.log), FoldRange(s, lo, hi).t, FoldRange(s, lo, hi).folded)
  {
    RangeRefs(s, lo, hi);
    FoldKeeps(GraphOf(s.log), s.t, s.folded, s.log[lo..hi]);
  }

  lemma FoldRangeInLog(s: State, lo: nat, hi: nat)
    requires Ordered(s.log) && InLog(s) && lo <= hi <= |s.log|
    ensures InLog(FoldRange(s, lo, hi))
  {
    FoldDomain(s.t, s.log[lo..hi]);
    RangeRefs(s, lo, hi);
    assert lo < hi ==> s.log[hi - 1].createSeq <= s.log[|s.log| - 1].createSeq;
  }

  lemma FoldRangeKeeps(s: State, lo: nat, hi: nat)
    requires Inv(s) && lo <= hi <= |s.log|
    ensures Inv(FoldRange(s, lo, hi))
  {
    FoldRangeKept(s, lo, hi);
    FoldRangeInLog(s, lo, hi);
  }

  lemma {:induction false} FoldDomain(t: Threads, ms: seq<Msg>)
    ensures forall a :: a in Fold(t, ms).threadOf ==> a in t.threadOf || a in Ids(ms)
  {
    if ms != [] {
      var pre, m := ms[..|ms| - 1], ms[|ms| - 1];
      FoldDomain(t, pre);
      assert ms == pre + [m];
    }
  }

  lemma ClearRefsKeeps(s: State)
    requires Inv(s)
    ensures Inv(Step(s, ClearRefs))
  {
    var s', g := Step(s, ClearRefs), GraphOf(s.log);
    var roots :| Sound(Seen(s.t, s.folded), Restrict(g, s.folded), roots);
    var t', g' := Seen(s'.t, s'.folded), Restrict(g, s'.folded);
    forall a | a in s'.folded ensures a in t'.threadOf && t'.threadOf[a] == a {
      AloneInThread(Seen(s.t, s.folded), Restrict(g, s.folded), roots, a);
    }
    forall a, b | a in g' && b in g' ensures t'.threadOf[a] == t'.threadOf[b] <==> Connected(g', a, b) {
      ConnectedRefl(g', a);
      if Connected(g', a, b) {
        RefLessIsAlone(g', a, b);
      }
    }
    assert Sound(t', g', s'.folded);
  }

  lemma StepKeeps(s: State, a: Action)
    requires Inv(s) && Enabled(s, a)
    ensures Inv(Step(s, a))
  {
    match a
    case Deliver(m, preset) => DeliverKeeps(s, m, preset);
    case Commit(w) => FoldRangeKeeps(s, s.jobs[w].lo, s.jobs[w].hi);
    case ClearRefs => ClearRefsKeeps(s);
    case ClearThreads =>
      var s' := Step(s, ClearThreads);
      assert Seen(s'.t, {}) == NoThreads && Restrict(GraphOf(s.log), {}) == map[];
      assert Sound(NoThreads, map[], {});
    case _ =>
  }

  lemma {:induction false} RunKeeps(states: seq<State>, actions: seq<Action>, n: nat)
    requires IsRun(states, actions) && n < |states|
    ensures Inv(states[n])
  {
    if n > 0 {
      RunKeeps(states, actions, n - 1);
      StepKeeps(states[n - 1], actions[n - 1]);
    } else {
      assert Seen(NoThreads, {}) == NoThreads && Restrict(GraphOf([]), {}) == map[];
      assert Sound(NoThreads, map[], {});
    }
  }

  // ---------------------------------------------------------------------------
  // When a drain threads everything
  // ---------------------------------------------------------------------------

  /** The projection is complete: every message is in the thread of a message it is
      connected to, threads are the connected components, all references are recorded. */
  ghost predicate Complete(log: seq<Msg>, t: Threads) {
    var g := GraphOf(log);
    && (forall a :: a in g ==> a in t.threadOf && t.threadOf[a] in g && Connected(g, a, t.threadOf[a]))
    && Grouped(t, g)
    && (forall a, r :: a in g && r in g[a] ==> Link(a, r) in t.refs)
  }

  /** What the tables show of a message that is folded: a thread and all its references,
      or a thread of its own if it has none. */
  ghost predicate Recorded(s: State, i: nat)
    requires i < |s.log|
  {
    var m := s.log[i];
    && m.id in s.t.threadOf
    && (forall r :: r in m.RefSet() ==> Link(m.id, r) in s.t.refs)
    && (m.RefSet() == {} ==> s.t.threadOf[m.id] == m.id)
  }

  lemma RecordedIsFolded(s: State, i: nat)
    requires Inv(s) && i < |s.log|
    ensures Recorded(s, i) <==> s.log[i].id in s.folded
  {
    var m, g, v := s.log[i], GraphOf(s.log), Seen(s.t, s.folded);
    GraphOfDomain(s.log);
    var roots :| Sound(v, Restrict(g, s.folded), roots);
    if m.id in s.folded {
      FoldedHaveThreads(g, s.t, s.folded);
      forall r | r in m.RefSet() ensures Link(m.id, r) in s.t.refs {
        assert Link(m.id, r) in v.refs;
      }
      if m.RefSet() == {} {
        AloneInThread(v, Restrict(g, s.folded), roots, m.id);
      }
    } else if m.RefSet() != {} {
      var r := Pick(m.RefSet());
      assert Recorded(s, i) ==> Link(m.id, r) in s.t.refs;
    }
  }

  lemma FoldedIsComplete(s: State)
    requires Inv(s) && s.folded == GraphOf(s.log).Keys
    ensures Complete(s.log, s.t)
  {
    var g, v := GraphOf(s.log), Seen(s.t, s.folded);
    var roots :| Sound(v, Restrict(g, s.folded), roots);
    assert Restrict(g, s.folded) == g;
    assert forall a :: a in s.t.threadOf ==> a in s.folded;
    assert v.threadOf == s.t.threadOf;
    assert Grouped(s.t, g);
    forall a, r | a in g && r in g[a] ensures Link(a, r) in s.t.refs {
      assert Link(a, r) in v.refs;
    }
  }

  lemma CompleteHasFolded(s: State, a: MsgId)
    requires Inv(s) && a in GraphOf(s.log) && Complete(s.log, s.t)
    ensures a in s.folded
  {
    var g := GraphOf(s.log);
    if g[a] == {} {
      RefLessIsAlone(g, a, s.t.threadOf[a]);
    } else {
      var r := Pick(g[a]);
      assert Link(a, r) in s.t.refs;
    }
  }

  lemma CompleteIsFolded(s: State)
    requires Inv(s)
    ensures Complete(s.log, s.t) <==> s.folded == GraphOf(s.log).Keys
  {
    var g := GraphOf(s.log);
    if s.folded == g.Keys {
      FoldedIsComplete(s);
    } else if Complete(s.log, s.t) {
      forall a | a in g ensures a in s.folded {
        CompleteHasFolded(s, a);
      }
    }
  }

  /** A drain that reports success has folded everything from the cursor on. */
  ghost function Drained(s: State): State
  {
    FoldRange(s, Behind(s.log, s.cursor), |s.log|)
  }

  ghost predicate NoGap(s: State) {
    forall i :: 0 <= i < Behind(s.log, s.cursor) ==> Recorded(s, i)
  }

  /** In every reachable state, whatever rebuilds have begun and batches committed, a
      drain that reports success completes the projection if and only if every message
      up to the cursor is recorded. */
  lemma DrainCompletesExactly(states: seq<State>, actions: seq<Action>, n: nat)
    requires IsRun(states, actions) && n < |states|
    ensures Complete(states[n].log, Drained(states[n]).t) <==> NoGap(states[n])
  {
    RunKeeps(states, actions, n);
    DrainCompletes(states[n]);
  }

  lemma FoldedByDrain(s: State, i: nat)
    requires Inv(s) && i < |s.log|
    ensures s.log[i].id in Drained(s).folded <==> i >= Behind(s.log, s.cursor) || Recorded(s, i)
  {
    RangeFolded(s, Behind(s.log, s.cursor), |s.log|, i);
    RecordedIsFolded(s, i);
  }

  lemma AllFolded(s: State)
    requires Inv(s)
    ensures s.folded == GraphOf(s.log).Keys <==> forall i :: 0 <= i < |s.log| ==> s.log[i].id in s.folded
  {
    GraphOfDomain(s.log);
    if forall i :: 0 <= i < |s.log| ==> s.log[i].id in s.folded {
      forall a | a in GraphOf(s.log) ensures a in s.folded {
        var i :| 0 <= i < |s.log| && s.log[i].id == a;
      }
    }
  }

  lemma DrainCompletes(s: State)
    requires Inv(s)
    ensures Complete(s.log, Drained(s).t) <==> NoGap(s)
  {
    FoldRangeKeeps(s, Behind(s.log, s.cursor), |s.log|);
    CompleteIsFolded(Drained(s));
    AllFolded(Drained(s));
    forall i | 0 <= i < |s.log| ensures s.log[i].id in Drained(s).folded <==> i >= Behind(s.log, s.cursor) || Recorded(s, i) {
      FoldedByDrain(s, i);
    }
  }

  /** Which messages are folded after a range is. */
  lemma RangeFolded(s: State, lo: nat, hi: nat, i: nat)
    requires Ordered(s.log) && lo <= hi <= |s.log| && i < |s.log|
    ensures s.log[i].id in FoldRange(s, lo, hi).folded <==> lo <= i < hi || s.log[i].id in s.folded
  {
    var ms := s.log[lo..hi];
    if lo <= i < hi {
      assert ms[i - lo] == s.log[i];
    }
    if s.log[i].id in Ids(ms) {
      var k :| 0 <= k < |ms| && ms[k].id == s.log[i].id;
      assert s.log[lo + k].id == s.log[i].id;
    }
  }

  // ---------------------------------------------------------------------------
  // Rebuilds
  // ---------------------------------------------------------------------------

  /** Without any threads nothing is recorded. */
  lemma ClearedDrains(s: State)
    requires Inv(s) && s.t.threadOf == map[]
    ensures Complete(s.log, Drained(s).t) <==> Behind(s.log, s.cursor) == 0
  {
    DrainCompletes(s);
    assert Behind(s.log, s.cursor) > 0 ==> !Recorded(s, 0);
  }

  /** A rebuild that stops before its third statement leaves the account to be completed
      by a drain exactly when there was no message up to the cursor. */
  lemma UnfinishedRebuildExactly(s: State)
    requires Inv(s)
    ensures var s1 := Step(s, ClearThreads); Complete(s.log, Drained(s1).t) <==> Behind(s.log, s.cursor) == 0
    ensures var s2 := Step(Step(s, ClearThreads), ClearRefs); Complete(s.log, Drained(s2).t) <==> Behind(s.log, s.cursor) == 0
    ensures var s3 := Step(Step(Step(s, ClearThreads), ClearRefs), ResetCursor); Complete(s.log, Drained(s3).t)
  {
    var s1 := Step(s, ClearThreads);
    var s2 := Step(s1, ClearRefs);
    StepKeeps(s, ClearThreads);
    StepKeeps(s1, ClearRefs);
    StepKeeps(s2, ResetCursor);
    ClearedDrains(s1);
    ClearedDrains(s2);
    DrainCompletes(Step(s2, ResetCursor));
    BehindAt(s.log, 0, 0);
  }

  lemma RecordedByCommit(s: State, w: WorkerId, i: nat)
    requires Inv(s) && Enabled(s, Commit(w)) && i < s.jobs[w].hi
    ensures Recorded(Step(s, Commit(w)), i) <==> s.jobs[w].lo <= i || Recorded(s, i)
  {
    StepKeeps(s, Commit(w));
    RecordedIsFolded(s, i);
    RecordedIsFolded(Step(s, Commit(w)), i);
    RangeFolded(s, s.jobs[w].lo, s.jobs[w].hi, i);
  }

  /** The commit of a batch leaves no gap exactly when the messages before the batch are
      recorded: a batch after a cursor that was read before a rebuild reset it, committed
      after that, may leave one. */
  lemma CommitLeavesNoGapExactly(s: State, w: WorkerId)
    requires Inv(s) && Enabled(s, Commit(w))
    ensures NoGap(Step(s, Commit(w))) <==> forall i :: 0 <= i < s.jobs[w].lo ==> Recorded(s, i)
  {
    BehindAt(s.log, Step(s, Commit(w)).cursor, s.jobs[w].hi);
    forall i | 0 <= i < s.jobs[w].hi ensures Recorded(Step(s, Commit(w)), i) <==> s.jobs[w].lo <= i || Recorded(s, i) {
      RecordedByCommit(s, w, i);
    }
  }

  ghost predicate FoldedUpTo(s: State, k: nat) {
    k <= |s.log| && forall i :: 0 <= i < k ==> s.log[i].id in s.folded
  }

  /** Where the batch of a job begins or will begin. */
  ghost function Begin(log: seq<Msg>, j: Job): nat {
    if j.HasRead? then Behind(log, j.seen) else j.lo
  }

  /** No gap now, and none to come from the jobs under way, but for the `stale` ones. */
  ghost predicate Healthy(s: State, stale: set<WorkerId>) {
    && FoldedUpTo(s, Behind(s.log, s.cursor))
    && (forall w :: w in s.jobs && w !in stale ==> FoldedUpTo(s, Begin(s.log, s.jobs[w])))
  }

  lemma FoldedStays(s: State, a: Action, k: nat)
    requires Enabled(s, a) && !a.ClearThreads? && !a.ClearRefs? && FoldedUpTo(s, k)
    ensures FoldedUpTo(Step(s, a), k)
  {
  }

  /** A delivery comes after every cursor. */
  lemma DeliveredAhead(log: seq<Msg>, m: Msg, cursor: int)
    requires Ordered(log + [m]) && Reached(log, cursor)
    ensures Behind(log + [m], cursor) == Behind(log, cursor)
  {
    assert (log + [m])[..|log|] == log && (log + [m])[|log|] == m;
    assert log != [] ==> (log + [m])[|log| - 1] == log[|log| - 1];
  }

  lemma DeliverStaysHealthy(s: State, m: Msg, preset: Option<MsgId>, stale: set<WorkerId>)
    requires Inv(s) && Enabled(s, Deliver(m, preset)) && Healthy(s, stale)
    ensures Healthy(Step(s, Deliver(m, preset)), stale)
  {
    var a := Deliver(m, preset);
    DeliverKeeps(s, m, preset);
    DeliveredAhead(s.log, m, s.cursor);
    FoldedStays(s, a, Behind(s.log, s.cursor));
    forall w | w in s.jobs && w !in stale ensures FoldedUpTo(Step(s, a), Begin(s.log + [m], s.jobs[w])) {
      FoldedStays(s, a, Begin(s.log, s.jobs[w]));
      if s.jobs[w].HasRead? {
        DeliveredAhead(s.log, m, s.jobs[w].seen);
      }
    }
  }

  lemma CommitStaysHealthy(s: State, w: WorkerId, stale: set<WorkerId>)
    requires Inv(s) && Enabled(s, Commit(w)) && Healthy(s, stale) && w !in stale
    ensures FoldedUpTo(Step(s, Commit(w)), s.jobs[w].hi) && Behind(s.log, Step(s, Commit(w)).cursor) == s.jobs[w].hi
  {
    var s', b := Step(s, Commit(w)), s.jobs[w];
    assert FoldedUpTo(s, b.lo);
    BehindAt(s.log, s'.cursor, b.hi);
    forall i | 0 <= i < b.hi ensures s.log[i].id in s'.folded {
      RangeFolded(s, b.lo, b.hi, i);
    }
  }

  /** Who is still stale after a step: reading the cursor again makes a worker fresh. */
  function Fresher(stale: set<WorkerId>, a: Action): set<WorkerId> {
    if a.ReadCursor? then stale - {a.worker} else stale
  }

  lemma StaysHealthy(s: State, a: Action, stale: set<WorkerId>)
    requires Inv(s) && Enabled(s, a) && Healthy(s, stale)
    requires !a.ClearThreads? && !a.ClearRefs? && (a.Commit? ==> a.worker !in stale)
    ensures Healthy(Step(s, a), Fresher(stale, a))
  {
    if a.Deliver? {
      DeliverStaysHealthy(s, a.m, a.preset, stale);
    } else {
      var s' := Step(s, a);
      FoldedStays(s, a, Behind(s.log, s.cursor));
      forall w | w in s.jobs && w !in stale ensures FoldedUpTo(s', Begin(s.log, s.jobs[w])) {
        FoldedStays(s, a, Begin(s.log, s.jobs[w]));
      }
      if a.Commit? {
        CommitStaysHealthy(s, a.worker, stale);
      } else if a.ResetCursor? {
        BehindAt(s.log, 0, 0);
      }
    }
  }

  lemma HealthyCompletes(s: State, stale: set<WorkerId>)
    requires Inv(s) && Healthy(s, stale)
    ensures Complete(s.log, Drained(s).t)
  {
    forall i | 0 <= i < Behind(s.log, s.cursor) ensures Recorded(s, i) {
      RecordedIsFolded(s, i);
    }
    DrainCompletes(s);
  }

  /** A worker finds nothing to select: its drain ends and reports success. */
  ghost predicate FindsNothing(s: State, w: WorkerId) {
    w in s.jobs && s.jobs[w].HasRead? && Behind(s.log, s.jobs[w].seen) == |s.log|
  }

  lemma SuccessIsComplete(s: State, stale: set<WorkerId>, w: WorkerId)
    requires Inv(s) && Healthy(s, stale) && w !in stale && FindsNothing(s, w)
    ensures Complete(s.log, s.t)
  {
    AllFolded(s);
    CompleteIsFolded(s);
  }

  /** Worker `w` has read the cursor after step `r` and before step `n`. */
  predicate ReadSince(actions: seq<Action>, r: nat, n: nat, w: WorkerId)
    requires n <= |actions|
  {
    exists j :: r < j < n && actions[j] == ReadCursor(w)
  }

  /** After the reset at step `r`, and before step `n`, no new rebuild begins, and whoever
      commits has read the cursor since. */
  ghost predicate FreshSince(actions: seq<Action>, r: nat, n: nat)
    requires n <= |actions|
  {
    && (forall k :: r < k < n ==> !actions[k].ClearThreads? && !actions[k].ClearRefs?)
    && (forall k :: r < k < n && actions[k].Commit? ==> ReadSince(actions, r, k, actions[k].worker))
  }

  /** Once the reset has committed, and as long as no worker commits on a cursor that it
      read before it and no new rebuild begins, every drain that reports success completes
      the projection: one made from here on without disturbance, and one that ends here
      having read the cursor since, whatever went on meanwhile. */
  lemma RebuildThenDrain(states: seq<State>, actions: seq<Action>, r: nat, n: nat)
    requires IsRun(states, actions) && r < n < |states| && actions[r] == ResetCursor && FreshSince(actions, r, n)
    ensures Complete(states[n].log, Drained(states[n]).t)
    ensures forall w :: FindsNothing(states[n], w) && ReadSince(actions, r, n, w) ==> Complete(states[n].log, states[n].t)
  {
    RunKeeps(states, actions, n);
    var stale := HealthySinceReset(states, actions, r, n);
    HealthyCompletes(states[n], stale);
    forall w | FindsNothing(states[n], w) && ReadSince(actions, r, n, w) ensures Complete(states[n].log, states[n].t) {
      SuccessIsComplete(states[n], stale, w);
    }
  }

  /** No gap, and only workers stale that have not read the cursor since step `r`. */
  ghost predicate HealthySince(s: State, actions: seq<Action>, r: nat, n: nat, stale: set<WorkerId>)
    requires n <= |actions|
  {
    Healthy(s, stale) && forall w :: ReadSince(actions, r, n, w) ==> w !in stale
  }

  lemma HealthyAtReset(s: State)
    requires Inv(s)
    ensures Healthy(Step(s, ResetCursor), s.jobs.Keys)
  {
    BehindAt(s.log, 0, 0);
  }

  lemma HealthyNext(s: State, actions: seq<Action>, r: nat, n: nat, before: set<WorkerId>)
    requires r + 1 < n <= |actions| && FreshSince(actions, r, n)
    requires Inv(s) && Enabled(s, actions[n - 1]) && HealthySince(s, actions, r, n - 1, before)
    ensures HealthySince(Step(s, actions[n - 1]), actions, r, n, Fresher(before, actions[n - 1]))
  {
    StaysHealthy(s, actions[n - 1], before);
    ReadersAreFresh(actions, r, n, before);
  }

  lemma FreshBefore(actions: seq<Action>, r: nat, n: nat)
    requires n < |actions| && FreshSince(actions, r, n + 1)
    ensures FreshSince(actions, r, n)
  {
  }

  lemma {:induction false} HealthySinceReset(states: seq<State>, actions: seq<Action>, r: nat, n: nat)
    returns (stale: set<WorkerId>)
    requires IsRun(states, actions) && r < n < |states| && actions[r] == ResetCursor && FreshSince(actions, r, n)
    ensures HealthySince(states[n], actions, r, n, stale)
  {
    RunKeeps(states, actions, n - 1);
    if n == r + 1 {
      HealthyAtReset(states[r]);
      stale := states[r].jobs.Keys;
    } else {
      FreshBefore(actions, r, n - 1);
      var before := HealthySinceReset(states, actions, r, n - 1);
      HealthyNext(states[n - 1], actions, r, n, before);
      stale := Fresher(before, actions[n - 1]);
    }
  }

  lemma ReadersAreFresh(actions: seq<Action>, r: nat, n: nat, before: set<WorkerId>)
    requires r + 1 < n <= |actions| && forall w :: ReadSince(actions, r, n - 1, w) ==> w !in before
    ensures forall w :: ReadSince(actions, r, n, w) ==> w !in Fresher(before, actions[n - 1])
  {
    forall w | ReadSince(actions, r, n, w) ensures w !in Fresher(before, actions[n - 1]) {
      var j :| r < j < n && actions[j] == ReadCursor(w);
      assert j < n - 1 ==> ReadSince(actions, r, n - 1, w);
    }
  }

  /** Without a rebuild nothing is ever missed. */
  lemma NoRebuildNoGap(states: seq<State>, actions: seq<Action>, n: nat)
    requires IsRun(states, actions) && n < |states|
    requires forall k :: 0 <= k < n ==> !actions[k].ClearThreads? && !actions[k].ClearRefs?
    ensures Complete(states[n].log, Drained(states[n]).t)
    ensures forall w :: FindsNothing(states[n], w) ==> Complete(states[n].log, states[n].t)
  {
    RunKeeps(states, actions, n);
    HealthyFromStart(states, actions, n);
    HealthyCompletes(states[n], {});
    forall w | FindsNothing(states[n], w) ensures Complete(states[n].log, states[n].t) {
      SuccessIsComplete(states[n], {}, w);
    }
  }

  lemma {:induction false} HealthyFromStart(states: seq<State>, actions: seq<Action>, n: nat)
    requires IsRun(states, actions) && n < |states|
    requires forall k :: 0 <= k < n ==> !actions[k].ClearThreads? && !actions[k].ClearRefs?
    ensures Healthy(states[n], {})
  {
    if n > 0 {
      RunKeeps(states, actions, n - 1);
      HealthyFromStart(states, actions, n - 1);
      StaysHealthy(states[n - 1], actions[n - 1], {});
    }
  }

  // ---------------------------------------------------------------------------
  // Two runs that lose threads
  // ---------------------------------------------------------------------------

  const First := Msg(1, 1, Unreadable)
  const Second := Msg(2, 2, Unreadable)

  /** A run of some actions, up to a state. */
  ghost predicate RunsTo(states: seq<State>, actions: seq<Action>, s: State) {
    IsRun(states, actions) && states[|actions|] == s
  }

  lemma RunGrows(states: seq<State>, actions: seq<Action>, s: State, a: Action)
    requires RunsTo(states, actions, s) && Enabled(s, a)
    ensures RunsTo(states + [Step(s, a)], actions + [a], Step(s, a))
  {
  }

  /** The first message is delivered and folded. */
  lemma FoldTheFirst() returns (states: seq<State>, actions: seq<Action>)
    ensures RunsTo(states, actions, State([First], Threads(map[1 := 1], {}), 1, map[], {1}))
  {
    var s;
    states, actions, s := SelectTheFirst();
    FirstCommits(s);
    RunGrows(states, actions, s, Commit(0));
    states, actions := states + [Step(s, Commit(0))], actions + [Commit(0)];
  }

  lemma SelectTheFirst() returns (states: seq<State>, actions: seq<Action>, s: State)
    ensures RunsTo(states, actions, s) && s == State([First], NoThreads, 0, map[0 := HasBatch(0, 1)], {})
  {
    states, actions, s := ReadAtFirst();
    BehindAt([First], 0, 0);
    RunGrows(states, actions, s, Select(0, 100));
    states, actions, s := states + [Step(s, Select(0, 100))], actions + [Select(0, 100)], Step(s, Select(0, 100));
  }

  lemma ReadAtFirst() returns (states: seq<State>, actions: seq<Action>, s: State)
    ensures RunsTo(states, actions, s) && s == State([First], NoThreads, 0, map[0 := HasRead(0)], {})
  {
    var s1 := Step(Empty, Deliver(First, None));
    assert RunsTo([Empty], [], Empty) && [] + [First] == [First];
    RunGrows([Empty], [], Empty, Deliver(First, None));
    RunGrows([Empty] + [s1], [] + [Deliver(First, None)], s1, ReadCursor(0));
    s := Step(s1, ReadCursor(0));
    states, actions := [Empty] + [s1] + [s], [] + [Deliver(First, None)] + [ReadCursor(0)];
  }

  lemma FirstCommits(s: State)
    requires s == State([First], NoThreads, 0, map[0 := HasBatch(0, 1)], {})
    ensures Enabled(s, Commit(0)) && Step(s, Commit(0)) == State([First], Threads(map[1 := 1], {}), 1, map[], {1})
  {
    assert [First][0..1] == [First] && Ids([First]) == {1};
    assert [First][..0] == [] && Fold(NoThreads, []) == NoThreads;
    assert Fold(NoThreads, [First]) == FoldOne(NoThreads, First) == Threads(map[1 := 1], {});
    assert map[0 := HasBatch(0, 1)] - {0} == map[];
  }

  /** A message is delivered and folded; then a rebuild stops after its first statement.
      Every later drain finds nothing to do and reports success, and the message has no
      thread. */
  lemma UnfinishedRebuildLosesThreads() returns (states: seq<State>, actions: seq<Action>, s: State)
    ensures RunsTo(states, actions, s) && |s.log| == 1
    ensures Behind(s.log, s.cursor) == 1 && s.log[0].id !in s.t.threadOf && Drained(s) == s
  {
    states, actions := FoldTheFirst();
    s := states[|actions|];
    RunGrows(states, actions, s, ClearThreads);
    states, actions, s := states + [Step(s, ClearThreads)], actions + [ClearThreads], Step(s, ClearThreads);
    BehindAt([First], 1, 1);
    assert [First][1..1] == [] && Ids([]) == {} && Fold(NoThreads, []) == NoThreads;
  }

  /** A worker reads the cursor after the first message.  A rebuild commits all its
      statements, a second message arrives, and the worker folds it: the cursor is after
      both then, and the first message has no thread.  No batch was selected before the
      reset. */
  lemma StaleCursorLosesThreads() returns (states: seq<State>, actions: seq<Action>, r: nat, s: State)
    ensures RunsTo(states, actions, s) && r < |actions| && actions[r] == ResetCursor
    ensures forall w :: w in states[r].jobs ==> states[r].jobs[w].HasRead?
    ensures forall k :: r < k < |actions| ==> !actions[k].ClearThreads? && !actions[k].ClearRefs?
    ensures |s.log| == 2 && Behind(s.log, s.cursor) == 2 && s.log[0].id !in s.t.threadOf && Drained(s) == s
  {
    states, actions := ReadAndRebuild();
    r := |actions|;
    s := states[r];
    var s1 := Step(s, ResetCursor);
    RunGrows(states, actions, s, ResetCursor);
    var s2, s3, s4 := SecondIsFolded(s1);
    RunGrows(states + [s1], actions + [ResetCursor], s1, Deliver(Second, None));
    RunGrows(states + [s1] + [s2], actions + [ResetCursor] + [Deliver(Second, None)], s2, Select(1, 100));
    RunGrows(states + [s1] + [s2] + [s3], actions + [ResetCursor] + [Deliver(Second, None)] + [Select(1, 100)], s3, Commit(1));
    states := states + [s1] + [s2] + [s3] + [s4];
    actions := actions + [ResetCursor] + [Deliver(Second, None)] + [Select(1, 100)] + [Commit(1)];
    s := s4;
  }

  lemma ReadAndRebuild() returns (states: seq<State>, actions: seq<Action>)
    ensures RunsTo(states, actions, State([First], NoThreads, 1, map[1 := HasRead(1)], {}))
  {
    states, actions := FoldTheFirst();
    var s := states[|actions|];
    var s1 := Step(s, ReadCursor(1));
    var s2 := Step(s1, ClearThreads);
    RunGrows(states, actions, s, ReadCursor(1));
    RunGrows(states + [s1], actions + [ReadCursor(1)], s1, ClearThreads);
    RunGrows(states + [s1] + [s2], actions + [ReadCursor(1)] + [ClearThreads], s2, ClearRefs);
    states := states + [s1] + [s2] + [Step(s2, ClearRefs)];
    actions := actions + [ReadCursor(1)] + [ClearThreads] + [ClearRefs];
  }

  lemma SecondIsFolded(s: State) returns (s1: State, s2: State, s3: State)
    requires s == State([First], NoThreads, 0, map[1 := HasRead(1)], {})
    ensures Enabled(s, Deliver(Second, None)) && s1 == Step(s, Deliver(Second, None))
    ensures Enabled(s1, Select(1, 100)) && s2 == Step(s1, Select(1, 100))
    ensures Enabled(s2, Commit(1)) && s3 == Step(s2, Commit(1))
    ensures s3 == State([First, Second], Threads(map[2 := 2], {}), 2, map[], {2})
    ensures Behind(s3.log, 2) == 2 && Drained(s3) == s3
  {
    var log := [First, Second];
    assert [First] + [Second] == log;
    s1 := State(log, NoThreads, 0, map[1 := HasRead(1)], {});
    s2 := State(log, NoThreads, 0, map[1 := HasBatch(1, 2)], {});
    s3 := State(log, Threads(map[2 := 2], {}), 2, map[], {2});
    BehindAt(log, 1, 1);
    BehindAt(log, 2, 2);
    SecondCommits(s2, s3);
  }

  lemma SecondCommits(s2: State, s3: State)
    requires s2 == State([First, Second], NoThreads, 0, map[1 := HasBatch(1, 2)], {})
    requires s3 == State([First, Second], Threads(map[2 := 2], {}), 2, map[], {2}) && Behind(s3.log, 2) == 2
    ensures Enabled(s2, Commit(1)) && s3 == Step(s2, Commit(1)) && Drained(s3) == s3
  {
    var log := [First, Second];
    assert log[1..2] == [Second] && Ids([Second]) == {2};
    assert [Second][..0] == [] && Fold(NoThreads, []) == NoThreads;
    assert Fold(NoThreads, [Second]) == FoldOne(NoThreads, Second) == Threads(map[2 := 2], {});
    assert map[1 := HasBatch(1, 2)] - {1} == map[];
    assert log[2..2] == [] && Ids([]) == {} && Fold(Threads(map[2 := 2], {}), []) == Threads(map[2 := 2], {});
  }
}
