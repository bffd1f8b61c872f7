/** The thread projection worker of `projection/threads.go`: batches behind a
  cursor, one transaction per batch, union by re-pointing rows, rebuild. */
module ThreadWorker {
  import opened Sets
  import opened ThreadGraph
  import opened ThreadFold

  /** What may go wrong in one run: a blob store that cannot be reached for some
      messages, or a transaction that dies after some of its folds. */
  datatype Fault = NoFault | BlobUnreachable(ids: set<MsgId>) | TxDies(after: nat)

  datatype Outcome = Processed(n: nat) | Failed

  /** The number of leading messages at or before the cursor. */
  ghost function Behind(log: seq<Msg>, cursor: int): (n: nat)
    ensures n <= |log|
  {
    if log == [] || log[|log| - 1].createSeq <= cursor then |log| else Behind(log[..|log| - 1], cursor)
  }

  ghost predicate Ordered(log: seq<Msg>) {
    && DistinctIds(log)
    && (forall i, j :: 0 <= i < j < |log| ==> log[i].createSeq < log[j].createSeq)
    && (forall i :: 0 <= i < |log| ==> 0 < log[i].createSeq)
  }

  lemma {:induction false} BehindSplits(log: seq<Msg>, cursor: int)
    requires Ordered(log)
    ensures forall i :: 0 <= i < |log| ==> (log[i].createSeq <= cursor <==> i < Behind(log, cursor))
  {
    if log != [] && log[|log| - 1].createSeq > cursor {
      var pre := log[..|log| - 1];
      BehindSplits(pre, cursor);
      forall i | 0 <= i < |log| ensures log[i].createSeq <= cursor <==> i < Behind(log, cursor) {
        if i < |pre| { assert pre[i] == log[i]; }
      }
    }
  }

  lemma BehindAt(log: seq<Msg>, cursor: int, b: nat)
    requires Ordered(log) && b <= |log|
    requires b > 0 ==> log[b - 1].createSeq <= cursor
    requires b < |log| ==> log[b].createSeq > cursor
    ensures Behind(log, cursor) == b
  {
    BehindSplits(log, cursor);
  }

  class ThreadWorker {
    const batch: int
    /** The account's messages in `createseq` order. */
    var log: seq<Msg>
    /** `messages.thread_id`; absent = NULL.  Rows not folded yet may carry one. */
    var threadOf: map<MsgId, MsgId>
    var refs: set<Link>
    /** `projection_cursor.seq` for "threads". */
    var cursor: int

    constructor (batch: int)
      ensures this.batch == batch && log == [] && threadOf == map[] && refs == {} && cursor == 0
      ensures FoldedTo(0)
    {
      this.batch := batch;
      log, threadOf, refs, cursor := [], map[], {}, 0;
    }

    function Tables(): Threads
      reads this
    {
      Threads(threadOf, refs)
    }

    function BatchSize(): nat {
      if batch <= 0 then 100 else batch
    }

    /** The first `done` messages are folded (and the cursor is not past them);
        unfolded rows may hold leftover thread ids. */
    ghost predicate FoldedTo(done: nat)
      reads this
    {
      && Ordered(log)
      && Behind(log, cursor) <= done <= |log|
      && Extends(Tables(), Fold(NoThreads, log[..done]))
    }

    /** `SELECT DISTINCT thread_id` over the recorded references, in any row order. */
    method SelectThreads(rs: seq<Ref>) returns (existing: seq<MsgId>)
      ensures forall x :: x in existing <==> x in Existing(Tables(), set r | r in rs)
      ensures existing == [] <==> Existing(Tables(), set r | r in rs) == {}
    {
      var rows := Existing(Tables(), set r | r in rs);
      ghost var found := rows;
      existing := [];
      while rows != {}
        invariant forall x :: x in existing || x in rows <==> x in found
        invariant if existing == [] then rows == found else found != {}
        decreases |rows|
      {
        ghost var _ := Pick(rows);
        var row :| row in rows;
        existing, rows := existing + [row], rows - {row};
      }
    }

    static method Smallest(existing: seq<MsgId>) returns (survivor: MsgId)
      requires existing != []
      ensures survivor in existing && forall x :: x in existing ==> survivor <= x
    {
      survivor := existing[0];
      for i := 1 to |existing|
        invariant survivor in existing && forall k :: 0 <= k < i ==> survivor <= existing[k]
      {
        if existing[i] < survivor { survivor := existing[i]; }
      }
    }

    /** The thread for a message with these references: the smallest thread any of
        them belongs to, after re-pointing the other ones to it. */
    method AssignThread(id: MsgId, rs: seq<Ref>) returns (tid: MsgId)
      modifies `threadOf, `refs
      ensures var found := Existing(old(Tables()), set r | r in rs);
              && tid == (if found == {} then id else Least(found))
              && threadOf == map k | k in old(threadOf) ::
                   if old(threadOf)[k] in found then tid else old(threadOf)[k]
      ensures refs == old(refs) + set r | r in rs :: Link(id, r)
    {
      tid := id;
      ghost var found := Existing(Tables(), set r | r in rs);
      if |rs| > 0 {
        var existing := SelectThreads(rs);
        if |existing| > 0 {
          var survivor := Smallest(existing);
          tid := survivor;
          assert survivor in found && Least(found) in existing;
          var losers: seq<MsgId> := [];
          for i := 0 to |existing|
            invariant forall x :: x in losers <==> x in existing[..i] && x != survivor
          {
            if existing[i] != survivor { losers := losers + [existing[i]]; }
          }
          assert existing[..|existing|] == existing;
          assert forall x :: x in found <==> x in losers || x == survivor;
          if |losers| > 0 {
            threadOf := map k | k in threadOf :: if threadOf[k] in losers then survivor else threadOf[k];
          }
        }
      } else {
        assert found == {};
      }
      for i := 0 to |rs|
        invariant refs == old(refs) + set r | r in rs[..i] :: Link(id, r)
        invariant threadOf == map k | k in old(threadOf) ::
                    if old(threadOf)[k] in found then tid else old(threadOf)[k]
      {
        refs := refs + {Link(id, rs[i])};
      }
      assert rs[..|rs|] == rs;
    }

    /** Folds one message of a batch. */
    method FoldMessage(m: Msg)
      modifies `threadOf, `refs
      ensures Tables() == FoldOne(old(Tables()), m)
    {
      if m.blob.Unreadable? {
        threadOf := threadOf[m.id := m.id];
      } else {
        var tid := AssignThread(m.id, m.blob.refs);
        threadOf := threadOf[m.id := tid];
      }
    }

    /** `SELECT ... WHERE createseq > cursor ORDER BY createseq LIMIT batch`. */
    method SelectBatch() returns (msgs: seq<Msg>)
      requires Ordered(log)
      ensures var p := Behind(log, cursor);
              msgs == log[p..if |log| - p < BatchSize() then |log| else p + BatchSize()]
    {
      ghost var p := Behind(log, cursor);
      BehindSplits(log, cursor);
      msgs := [];
      for i := 0 to |log|
        invariant msgs == if i <= p then [] else log[p..if i - p < BatchSize() then i else p + BatchSize()]
      {
        if log[i].createSeq > cursor && |msgs| < BatchSize() { msgs := msgs + [log[i]]; }
      }
    }

    /** Folds the batch in one transaction, which may die and roll back. */
    method FoldBatch(msgs: seq<Msg>, fault: Fault) returns (committed: bool)
      modifies `threadOf, `refs
      ensures Tables() == if committed then Fold(old(Tables()), msgs) else old(Tables())
    {
      var savedThreads, savedRefs := threadOf, refs;
      for i := 0 to |msgs|
        invariant Tables() == Fold(old(Tables()), msgs[..i])
      {
        if fault == TxDies(i) {
          threadOf, refs := savedThreads, savedRefs;
          return false;
        }
        FoldMessage(msgs[i]);
        assert msgs[..i + 1][..|msgs[..i + 1]| - 1] == msgs[..i] && msgs[..i + 1][|msgs[..i + 1]| - 1] == msgs[i];
      }
      assert msgs[..|msgs|] == msgs;
      committed := true;
    }

    /** Phase 2: fold the batch and advance the cursor in one transaction.  `seen` is
        the cursor this run read; another run may have moved it since. */
    method CommitBatch(msgs: seq<Msg>, seen: int, fault: Fault) returns (committed: bool)
      requires Ordered(log) && msgs != []
      requires var p := Behind(log, seen); p + |msgs| <= |log| && msgs == log[p..p + |msgs|]
      modifies `threadOf, `refs, `cursor
      ensures !committed ==> Tables() == old(Tables()) && cursor == old(cursor)
      ensures committed ==> Tables() == Fold(old(Tables()), msgs)
                            && Behind(log, cursor) == Behind(log, seen) + |msgs|
    {
      ghost var p := Behind(log, seen);
      BehindSplits(log, seen);
      var maxSeq := seen;
      for i := 0 to |msgs|
        invariant maxSeq == if i == 0 then seen else msgs[i - 1].createSeq
      {
        if msgs[i].createSeq > maxSeq { maxSeq := msgs[i].createSeq; }
      }
      committed := FoldBatch(msgs, fault);
      if committed {
        cursor := maxSeq;
        BehindAt(log, cursor, p + |msgs|);
      }
    }

    /** A run that read an older cursor and commits late folds messages again and
        moves the cursor back.  As long as its batch begins within the folded prefix, the
        prefix is kept. */
    method CommitLate(msgs: seq<Msg>, seen: int, fault: Fault, ghost done: nat) returns (committed: bool, ghost done': nat)
      requires Ordered(log) && msgs != []
      requires var p := Behind(log, seen); p + |msgs| <= |log| && msgs == log[p..p + |msgs|]
      modifies `threadOf, `refs, `cursor
      ensures !committed ==> Tables() == old(Tables()) && cursor == old(cursor)
      ensures committed ==> Tables() == Fold(old(Tables()), msgs) && Behind(log, cursor) == Behind(log, seen) + |msgs|
      ensures old(FoldedTo(done)) && Behind(log, seen) <= done ==> done <= done' && FoldedTo(done')
    {
      ghost var before, p := Tables(), Behind(log, seen);
      committed := CommitBatch(msgs, seen, fault);
      done' := done;
      if committed && old(FoldedTo(done)) && p <= done {
        ChunkExtends(before, log, done, p, p + |msgs|);
        done' := if done < p + |msgs| then p + |msgs| else done;
      }
    }

    /** Threads up to a batch of new messages. */
    method RunOnceAccount(fault: Fault) returns (r: Outcome)
      requires Ordered(log)
      modifies `threadOf, `refs, `cursor
      ensures r.Failed? ==> Tables() == old(Tables()) && cursor == old(cursor)
      ensures r.Processed? ==>
                var p := Behind(log, old(cursor));
                && r.n == (if |log| - p < BatchSize() then |log| - p else BatchSize())
                && Tables() == Fold(old(Tables()), log[p..p + r.n])
                && Behind(log, cursor) == p + r.n
    {
      ghost var p := Behind(log, cursor);
      BehindSplits(log, cursor);
      var msgs := SelectBatch();
      if |msgs| == 0 {
        assert log[p..p] == [];
        return Processed(0);
      }
      // Phase 1: read the blobs outside any transaction.
      if fault.BlobUnreachable? {
        for i := 0 to |msgs| {
          if msgs[i].id in fault.ids { return Failed; }
        }
      }
      var committed := CommitBatch(msgs, cursor, fault);
      if !committed { return Failed; }
      r := Processed(|msgs|);
    }

    /** From tables `before`, the log has been folded from `p` up to the cursor. */
    ghost predicate FoldedFrom(before: Threads, p: nat, upTo: nat)
      reads this
    {
      p <= upTo <= |log| && Behind(log, cursor) == upTo && Tables() == Fold(before, log[p..upTo])
    }

    /** One run of a drain. */
    method Advance(fault: Fault, ghost before: Threads, ghost p: nat, ghost upTo: nat) returns (r: Outcome)
      requires Ordered(log) && FoldedFrom(before, p, upTo)
      modifies `threadOf, `refs, `cursor
      ensures FoldedFrom(before, p, if r.Processed? then upTo + r.n else upTo)
      ensures r.Processed? && r.n == 0 ==> upTo == |log|
    {
      r := RunOnceAccount(fault);
      if r.Processed? {
        FoldRanges(before, log, p, upTo, upTo + r.n);
      }
    }

    /** Runs until threading is caught up, from whatever state the tables and the cursor
        are in.  The i-th run meets fault `faults[i]`.  What comes after the cursor of the
        start is folded in order, all of it if the drain reports success. */
    method DrainAccount(faults: seq<Fault>) returns (ok: bool, ghost upTo: nat)
      requires Ordered(log)
      modifies `threadOf, `refs, `cursor
      ensures FoldedFrom(old(Tables()), Behind(log, old(cursor)), upTo)
      ensures ok ==> upTo == |log|
    {
      var runs := 0;
      ghost var before, p := Tables(), Behind(log, cursor);
      upTo := p;
      assert log[p..p] == [];
      while true
        invariant FoldedFrom(before, p, upTo)
        decreases |log| - upTo
      {
        var r := Advance(if runs < |faults| then faults[runs] else NoFault, before, p, upTo);
        if r.Failed? { return false, upTo; }
        upTo := upTo + r.n;
        if r.n == 0 { return true, upTo; }
        runs := runs + 1;
      }
    }

    /** After a drain from a state whose first `done` messages were folded, the messages up
        to where it came are; after a successful one every message is threaded. */
    lemma DrainedFrom(before: Threads, p: nat, done: nat, upTo: nat)
      requires Ordered(log) && p <= done <= |log| && FoldedFrom(before, p, upTo)
      requires Extends(before, Fold(NoThreads, log[..done]))
      ensures FoldedTo(if done < upTo then upTo else done)
      ensures upTo == |log| ==> ThreadedCorrectly()
    {
      ChunkExtends(before, log, done, p, upTo);
      if upTo == |log| {
        assert log[..|log|] == log;
        CaughtUpIsCorrect();
      }
    }

    /** Every message has a thread; two messages share it exactly when connected;
        the map is the one a single left-to-right fold of the log yields. */
    ghost predicate ThreadedCorrectly()
      reads this
    {
      && (forall i :: 0 <= i < |log| ==>
            log[i].id in threadOf && log[i].id in Fold(NoThreads, log).threadOf
            && threadOf[log[i].id] == Fold(NoThreads, log).threadOf[log[i].id])
      && (forall i, j :: 0 <= i < |log| && 0 <= j < |log| ==>
            (threadOf[log[i].id] == threadOf[log[j].id] <==> Connected(GraphOf(log), log[i].id, log[j].id)))
    }

    lemma CaughtUpIsCorrect()
      requires Ordered(log) && Extends(Tables(), Fold(NoThreads, log))
      ensures ThreadedCorrectly()
    {
      FoldSound(log);
      GraphOfDomain(log);
    }

    /** Clears threads, references and cursor, each in a statement of its own, and folds
        the whole log again.  `statements` of the three commit; when it is less than
        three, the rebuild stops there. */
    method RebuildAccount(statements: nat, faults: seq<Fault>) returns (ok: bool, ghost done: nat)
      requires Ordered(log)
      modifies `threadOf, `refs, `cursor
      ensures statements < 3 ==> !ok && cursor == old(cursor)
      ensures statements < 3 ==> threadOf == (if statements >= 1 then map[] else old(threadOf))
      ensures statements < 3 ==> refs == (if statements >= 2 then {} else old(refs))
      ensures statements >= 3 ==> FoldedTo(done)
      ensures ok ==> done == |log| && ThreadedCorrectly()
    {
      done := 0;
      if statements < 1 {
        return false, done;
      }
      threadOf := map[];
      if statements < 2 {
        return false, done;
      }
      refs := {};
      if statements < 3 {
        return false, done;
      }
      cursor := 0;
      BehindAt(log, 0, 0);
      assert log[..0] == [];
      ok, done := DrainAccount(faults);
      DrainedFrom(NoThreads, 0, 0, done);
    }

    /** A delivery appends to the log; a copied message brings a thread id along. */
    method Deliver(m: Msg, copied: bool, tid: MsgId, ghost done: nat)
      requires FoldedTo(done)
      requires forall i :: 0 <= i < |log| ==> log[i].id != m.id && log[i].createSeq < m.createSeq
      requires 0 < m.createSeq && cursor < m.createSeq
      modifies `log, `threadOf
      ensures log == old(log) + [m] && FoldedTo(done)
    {
      ghost var f := Fold(NoThreads, log[..done]);
      NotFoldedYet(log[..done], m.id);
      log := log + [m];
      if copied { threadOf := threadOf[m.id := tid]; }
      assert log[..|log| - 1] == old(log);
      assert log[..done] == old(log)[..done];
      assert Extends(Tables(), f);
      assert Ordered(log);
    }
  }

  lemma NotFoldedYet(ms: seq<Msg>, id: MsgId)
    requires DistinctIds(ms) && forall i :: 0 <= i < |ms| ==> ms[i].id != id
    ensures id !in Fold(NoThreads, ms).threadOf
  {
    FoldSound(ms);
    GraphOfDomain(ms);
  }
}
