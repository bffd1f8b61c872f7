/** What every run of the outbound queue keeps: the log, the projection and the
  delivery status agree; a message ends at most once; hooks fire at most once;
  attempts are counted and bounded. */
module QueueSafety {
  import opened Options
  import opened QueueFacts
  import opened QueueRun

  function Terminals(history: seq<Kind>): nat {
    if history == [] then 0
    else Terminals(history[..|history| - 1]) + if history[|history| - 1].Terminal() then 1 else 0
  }

  function Count(history: seq<Kind>, kind: Kind): nat {
    if history == [] then 0
    else Count(history[..|history| - 1], kind) + if history[|history| - 1] == kind then 1 else 0
  }

  /** The projection agrees with the log, for one message. */
  ghost predicate LogAgrees(it: Item) {
    var f, past := it.facts, it.past;
    && Terminals(past.history) == (if f.row.Some? then 0 else 1)
    && Count(past.history, Enqueued) == 1
    && (f.row.Some? ==> KindsOf(f.log) == past.history)
    && (f.row.Some? ==> forall e :: e in f.log ==> e.keepUntil.None?)
    && (f.row.Some? ==> f.row.value.linked == past.linked && f.row.value.maxAttempts == past.maxAttempts)
    && (f.status.Some? <==> past.linked)
    && (f.status.Some? ==> (f.status.value.Terminal() <==> f.row.None?))
    && (f.status.Some? ==> (f.status.value.StatusDelivered? <==> Count(past.history, Delivered) == 1))
    && Terminals(past.history) == Count(past.history, Delivered) + Count(past.history, Failed) + Count(past.history, Dropped)
  }

  ghost predicate HooksOnce(it: Item) {
    var f, past := it.facts, it.past;
    && past.failHooks <= 1 && past.delayHooks <= 1
    && (past.failOwner.Nobody? ==> past.failHooks == 0)
    && (past.delayOwner.Nobody? ==> past.delayHooks == 0)
    && (!past.failOwner.Nobody? ==> Count(past.history, Failed) == 1)
    && Count(past.history, Delayed) == (if past.delayOwner.Nobody? then 0 else 1)
    && (f.row.Some? ==> past.failOwner.Nobody? && (f.row.value.delayedDsn <==> !past.delayOwner.Nobody?))
  }

  ghost predicate AttemptsCounted(it: Item) {
    var f, past := it.facts, it.past;
    && (f.row.Some? ==> f.row.value.attempts == past.starts)
    && past.settled <= past.starts
    && (f.row.Some? ==> past.settled == 0 || past.settled < past.maxAttempts)
    && past.settled <= (if past.maxAttempts < 1 then 1 else past.maxAttempts)
    && (forall k :: past.calls[k] <= 1)
    && (forall k :: k in past.calls ==> 1 <= k <= past.starts)
  }

  ghost predicate ItemOk(it: Item) {
    LogAgrees(it) && HooksOnce(it) && AttemptsCounted(it)
  }

  ghost predicate BatchOk(s: State, batch: seq<Claimed>) {
    forall c :: c in batch ==> c.id in s.items && c.maxAttempts == s.items[c.id].past.maxAttempts
  }

  /** What holds of a node and the message it is working on. */
  ghost predicate PhaseOk(s: State, n: NodeId)
    requires n in s.phases
  {
    var p := s.phases[n];
    && BatchOk(s, p.batch)
    && (p.Attempting() ==>
          && p.m.id in s.items && p.m.maxAttempts == s.items[p.m.id].past.maxAttempts
          && AttemptOk(s.items[p.m.id], n, p.m.attempts))
    && (p.Renewed? ==> s.items[p.m.id].past.calls[p.m.attempts] == 0)
    && (p.FailHook? ==> p.m.id in s.items && OwesFail(s.items[p.m.id], Node(n)))
    && (p.DelayHook? ==> p.m.id in s.items && OwesDelay(s.items[p.m.id], Node(n)))
  }

  ghost predicate AttemptOk(it: Item, n: NodeId, k: int) {
    && 1 <= k <= it.past.starts
    && (LeasedTo(it.facts, n) ==> it.facts.row.value.attempts == k && it.past.settled < it.past.starts)
  }

  ghost predicate OwesFail(it: Item, o: Owner) {
    it.past.failOwner == o && it.past.failHooks == 0
  }

  ghost predicate OwesDelay(it: Item, o: Owner) {
    it.past.delayOwner == o && it.past.delayHooks == 0
  }

  /** Two nodes attempt the same message. */
  ghost predicate SameMessage(s: State, n: NodeId, n': NodeId) {
    && n in s.phases && n' in s.phases && n != n'
    && s.phases[n].Attempting() && s.phases[n'].Attempting() && s.phases[n].m.id == s.phases[n'].m.id
  }

  /** What a step by `actor` on a message leaves alone for everybody else. */
  ghost predicate LeavesOthers(it: Item, it': Item, actor: Owner) {
    && it'.past.maxAttempts == it.past.maxAttempts
    && it.past.starts <= it'.past.starts
    && it'.past.calls == it.past.calls
    && (forall n :: LeasedTo(it'.facts, n) && Node(n) != actor ==>
          && LeasedTo(it.facts, n) && it'.facts.row.value.attempts == it.facts.row.value.attempts
          && it'.past.starts == it.past.starts && it'.past.settled == it.past.settled)
    && (forall o :: OwesFail(it, o) && !o.Nobody? && o != actor ==> OwesFail(it', o))
    && (forall o :: OwesDelay(it, o) && !o.Nobody? && o != actor ==> OwesDelay(it', o))
  }

  ghost predicate DistinctAttempts(s: State) {
    forall n, n' :: SameMessage(s, n, n') ==> s.phases[n].m.attempts != s.phases[n'].m.attempts
  }

  ghost predicate ItemsOk(s: State) {
    forall id :: id in s.items ==> ItemOk(s.items[id])
  }

  ghost predicate PhasesOk(s: State) {
    forall n :: n in s.phases ==> PhaseOk(s, n)
  }

  ghost predicate OperatorOk(s: State) {
    forall id :: id in s.operatorHooks ==> id in s.items && OwesFail(s.items[id], Operator)
  }

  /** What ties the nodes and the operator to the messages. */
  ghost predicate ActorsOk(s: State) {
    PhasesOk(s) && OperatorOk(s) && DistinctAttempts(s)
  }

  ghost predicate Safe(s: State) {
    ItemsOk(s) && ActorsOk(s)
  }

  // ---------------------------------------------------------------------------
  // Counting over an extended history
  // ---------------------------------------------------------------------------

  lemma Append(h: seq<Kind>, k: Kind)
    ensures Terminals(h + [k]) == Terminals(h) + if k.Terminal() then 1 else 0
    ensures forall x :: Count(h + [k], x) == Count(h, x) + if k == x then 1 else 0
  {
    assert (h + [k])[..|h + [k]| - 1] == h;
  }

  /** Appending one entry to the log of a message appends its kind to the history. */
  lemma TouchOne(it: Item, f: Facts, e: Entry)
    requires f.log == it.facts.log + [e]
    ensures Touch(it, f).past == it.past.(history := it.past.history + [e.kind])
    ensures KindsOf(f.log) == KindsOf(it.facts.log) + [e.kind]
  {
    assert f.log[|it.facts.log|..] == [e];
    assert KindsOf([e]) == [e.kind];
    assert KindsOf(f.log) == KindsOf(it.facts.log) + [e.kind];
  }

  lemma TouchNone(it: Item, f: Facts)
    requires f.log == it.facts.log
    ensures Touch(it, f) == Item(f, it.past)
  {
    assert f.log[|it.facts.log|..] == [];
    assert it.past.history + KindsOf([]) == it.past.history;
  }

  // ---------------------------------------------------------------------------
  // Each transaction keeps the facts about its message
  // ---------------------------------------------------------------------------

  /** A log entry that changes nothing else. */
  lemma NoteKeeps(it: Item, f: Facts, e: Entry)
    requires ItemOk(it) && f.log == it.facts.log + [e] && e.keepUntil.None? && f.status == it.facts.status
    requires !e.kind.Terminal() && !e.kind.Enqueued? && !e.kind.Delayed?
    requires f.row.Some? <==> it.facts.row.Some?
    requires f.row.Some? ==> var r, r' := it.facts.row.value, f.row.value;
                             r'.linked == r.linked && r'.maxAttempts == r.maxAttempts && r'.attempts == r.attempts
                             && r'.delayedDsn == r.delayedDsn
    ensures ItemOk(Touch(it, f)) && Touch(it, f).past == it.past.(history := it.past.history + [e.kind])
  {
    TouchOne(it, f, e);
    Append(it.past.history, e.kind);
  }

  lemma CloseKeeps(it: Item, kind: Kind, keepUntil: Time)
    requires ItemOk(it) && it.facts.row.Some? && kind.Terminal()
    ensures LogAgrees(Touch(it, Close(it.facts, kind, keepUntil)))
    ensures HooksOnce(Touch(it, Close(it.facts, kind, keepUntil)))
    ensures AttemptsCounted(Touch(it, Close(it.facts, kind, keepUntil)))
    ensures Close(it.facts, kind, keepUntil).row.None?
    ensures Touch(it, Close(it.facts, kind, keepUntil)).past == it.past.(history := it.past.history + [kind])
    ensures Count(it.past.history + [kind], Failed) == if kind.Failed? then 1 else 0
  {
    TouchOne(it, Close(it.facts, kind, keepUntil), Entry(kind, Some(keepUntil)));
    Append(it.past.history, kind);
  }

  lemma RenewKeeps(cfg: Config, it: Item, n: NodeId, now: Time)
    requires ItemOk(it) && StillHolds(it.facts, n, now)
    ensures var it' := RenewItem(cfg, it, n, now);
            && ItemOk(it') && LeavesOthers(it, it', Node(n))
            && it'.facts.row.Some? && it'.facts.row.value.attempts == it'.past.starts == it.past.starts + 1
            && AttemptOk(it', n, it.past.starts + 1) && it'.past.calls[it.past.starts + 1] == 0
  {
    TouchNone(it, Renew(it.facts, n, now, cfg.lease));
  }

  lemma RescheduleHistory(it: Item, n: NodeId, next: Time, want: bool)
    requires LeasedTo(it.facts, n)
    ensures var f, added := Reschedule(it.facts, n, next, want),
                            [Rescheduled] + if FiresDelay(it.facts, want) then [Delayed] else [];
            && |it.facts.log| <= |f.log|
            && KindsOf(f.log) == KindsOf(it.facts.log) + added
            && Touch(it, f).past == it.past.(history := it.past.history + added)
            && (forall e :: e in f.log && e !in it.facts.log ==> e.keepUntil.None?)
  {
    var f := Reschedule(it.facts, n, next, want);
    var tail := [Note(Rescheduled)] + if FiresDelay(it.facts, want) then [Note(Delayed)] else [];
    assert f.log == it.facts.log + tail;
    assert f.log[|it.facts.log|..] == tail;
    assert KindsOf(tail) == [Rescheduled] + if FiresDelay(it.facts, want) then [Delayed] else [];
  }

  lemma RescheduleCounts(h: seq<Kind>, fires: bool)
    ensures var h' := h + ([Rescheduled] + if fires then [Delayed] else []);
            && Terminals(h') == Terminals(h)
            && (forall k: Kind :: !k.Rescheduled? && !k.Delayed? ==> Count(h', k) == Count(h, k))
            && Count(h', Delayed) == Count(h, Delayed) + if fires then 1 else 0
  {
    Append(h, Rescheduled);
    if fires {
      Append(h + [Rescheduled], Delayed);
      assert h + [Rescheduled] + [Delayed] == h + ([Rescheduled] + [Delayed]);
    } else {
      assert h + ([Rescheduled] + []) == h + [Rescheduled];
    }
  }

  /** The message as rescheduling leaves it. */
  function RescheduledItem(it: Item, n: NodeId, next: Time, want: bool): Item
    requires LeasedTo(it.facts, n)
  {
    var f := Reschedule(it.facts, n, next, want);
    Item(f, Touch(it, f).past.(settled := it.past.settled + 1,
                               delayOwner := if FiresDelay(it.facts, want) then Node(n) else it.past.delayOwner))
  }

  lemma RescheduleKeeps(it: Item, it': Item, n: NodeId, next: Time, want: bool)
    requires ItemOk(it) && LeasedTo(it.facts, n) && it.past.settled + 1 < it.past.maxAttempts
    requires it.past.settled < it.past.starts && it' == RescheduledItem(it, n, next, want)
    ensures ItemOk(it')
  {
    RescheduleHistory(it, n, next, want);
    RescheduleCounts(it.past.history, FiresDelay(it.facts, want));
  }

  lemma RescheduleLeaves(it: Item, it': Item, n: NodeId, next: Time, want: bool)
    requires HooksOnce(it) && LeasedTo(it.facts, n) && it' == RescheduledItem(it, n, next, want)
    ensures LeavesOthers(it, it', Node(n)) && (FiresDelay(it.facts, want) ==> OwesDelay(it', Node(n)))
  {
    RescheduleHistory(it, n, next, want);
  }

  /** The message as retiring leaves it. */
  function RetiredItem(it: Item, kind: Kind, keepUntil: Time, o: Owner): Item
    requires it.facts.row.Some?
  {
    var f := Close(it.facts, kind, keepUntil);
    Item(f, Touch(it, f).past.(settled := it.past.settled + 1, failOwner := o))
  }

  lemma RetireKeeps(it: Item, it': Item, n: NodeId, kind: Kind, keepUntil: Time, o: Owner)
    requires ItemOk(it) && AttemptOk(it, n, it.past.starts) && LeasedTo(it.facts, n)
    requires kind.Terminal() && (o.Nobody? || kind.Failed?) && it' == RetiredItem(it, kind, keepUntil, o)
    ensures ItemOk(it') && LeavesOthers(it, it', Node(n)) && OwesFail(it', o)
  {
    CloseKeeps(it, kind, keepUntil);
  }

  lemma SettleKeeps(cfg: Config, it: Item, n: NodeId, m: Claimed, verdict: Verdict, aged: bool, now: Time, delay: Time)
    requires ItemOk(it) && LeasedTo(it.facts, n) && AttemptOk(it, n, m.attempts)
    requires m.maxAttempts == it.past.maxAttempts
    ensures var it' := SettleItem(cfg, it, n, m, verdict, aged, now, delay);
            && ItemOk(it') && LeavesOthers(it, it', Node(n)) && it'.past.maxAttempts == it.past.maxAttempts
            && (FailHookDue(cfg, m, verdict, aged) ==> OwesFail(it', Node(n)))
            && (DelayHookDue(cfg, it, m, verdict, aged) ==> OwesDelay(it', Node(n)))
  {
    if verdict.Accepted? || GivesUp(m, verdict, aged) {
      CloseSettles(cfg, it, n, m, verdict, aged, now, delay);
    } else {
      BackOffKeeps(cfg, it, n, m, verdict, aged, now, delay);
    }
  }

  lemma CloseSettles(cfg: Config, it: Item, n: NodeId, m: Claimed, verdict: Verdict, aged: bool, now: Time, delay: Time)
    requires ItemOk(it) && LeasedTo(it.facts, n) && AttemptOk(it, n, m.attempts)
    requires m.maxAttempts == it.past.maxAttempts && (verdict.Accepted? || GivesUp(m, verdict, aged))
    ensures var it' := SettleItem(cfg, it, n, m, verdict, aged, now, delay);
            ItemOk(it') && LeavesOthers(it, it', Node(n)) && (FailHookDue(cfg, m, verdict, aged) ==> OwesFail(it', Node(n)))
  {
    var it' := SettleItem(cfg, it, n, m, verdict, aged, now, delay);
    var kind := if verdict.Accepted? then Delivered else Failed;
    var o := if FailHookDue(cfg, m, verdict, aged) then Node(n) else Nobody;
    SettledByClose(cfg, it, n, m, verdict, aged, now, delay, kind, o);
    RetireKeeps(it, it', n, kind, now + cfg.retiredKeep, o);
  }

  lemma SettledByClose(cfg: Config, it: Item, n: NodeId, m: Claimed, verdict: Verdict, aged: bool, now: Time, delay: Time, kind: Kind, o: Owner)
    requires LeasedTo(it.facts, n) && it.past.failOwner.Nobody? && (verdict.Accepted? || GivesUp(m, verdict, aged))
    requires kind == if verdict.Accepted? then Delivered else Failed
    requires o == if FailHookDue(cfg, m, verdict, aged) then Node(n) else Nobody
    ensures SettleItem(cfg, it, n, m, verdict, aged, now, delay) == RetiredItem(it, kind, now + cfg.retiredKeep, o)
  {
  }

  lemma BudgetLeft(it: Item, n: NodeId, m: Claimed, verdict: Verdict, aged: bool)
    requires AttemptsCounted(it) && LeasedTo(it.facts, n) && AttemptOk(it, n, m.attempts)
    requires m.maxAttempts == it.past.maxAttempts && !GivesUp(m, verdict, aged)
    ensures it.past.settled + 1 < it.past.maxAttempts && it.past.settled < it.past.starts
  {
  }

  lemma BackOffKeeps(cfg: Config, it: Item, n: NodeId, m: Claimed, verdict: Verdict, aged: bool, now: Time, delay: Time)
    requires ItemOk(it) && LeasedTo(it.facts, n) && AttemptOk(it, n, m.attempts)
    requires m.maxAttempts == it.past.maxAttempts
    requires !verdict.Accepted? && !GivesUp(m, verdict, aged)
    ensures var it' := SettleItem(cfg, it, n, m, verdict, aged, now, delay);
            && ItemOk(it') && LeavesOthers(it, it', Node(n))
            && (DelayHookDue(cfg, it, m, verdict, aged) ==> OwesDelay(it', Node(n)))
  {
    var it', want := SettleItem(cfg, it, n, m, verdict, aged, now, delay), WantsDelay(cfg, m);
    SettledByReschedule(cfg, it, n, m, verdict, aged, now, delay);
    BudgetLeft(it, n, m, verdict, aged);
    RescheduleKeeps(it, it', n, now + delay, want);
    RescheduleLeaves(it, it', n, now + delay, want);
  }

  lemma SettledByReschedule(cfg: Config, it: Item, n: NodeId, m: Claimed, verdict: Verdict, aged: bool, now: Time, delay: Time)
    requires LeasedTo(it.facts, n) && !verdict.Accepted? && !GivesUp(m, verdict, aged)
    ensures SettleItem(cfg, it, n, m, verdict, aged, now, delay) == RescheduledItem(it, n, now + delay, WantsDelay(cfg, m))
  {
  }

  lemma AdminKeeps(it: Item, op: AdminOp, now: Time)
    requires ItemOk(it)
    ensures |it.facts.log| <= |Admin(it.facts, op, now).log|
    ensures ItemOk(Touch(it, Admin(it.facts, op, now)))
    ensures var past' := Touch(it, Admin(it.facts, op, now)).past;
            past' == it.past.(history := past'.history)
  {
    var f := Admin(it.facts, op, now);
    if it.facts.row.None? || !AdminSelects(op, it.facts.row.value) || op.HoldRule? {
      TouchNone(it, f);
    } else if op.Drop? {
      CloseKeeps(it, Dropped, op.keepUntil);
    } else {
      NoteKeeps(it, f, Note(AdminKind(op)));
    }
  }

  lemma AdminLeaves(it: Item, op: AdminOp, now: Time, past': Past)
    requires past' == it.past.(history := past'.history)
    ensures LeavesOthers(it, Item(Admin(it.facts, op, now), past'), Nobody)
  {
  }

  lemma AdminFailKeeps(cfg: Config, it: Item, now: Time, hook: bool)
    requires ItemOk(it) && it.facts.row.Some?
    ensures var it' := AdminFailItem(cfg, it, now, hook);
            && ItemOk(it') && LeavesOthers(it, it', Nobody)
            && (hook ==> OwesFail(it', Operator)) && it.past.failOwner.Nobody?
  {
    CloseKeeps(it, Failed, now + cfg.retiredKeep);
  }

  lemma RecordKeeps(it: Item, n: NodeId)
    requires ItemOk(it)
    ensures ItemOk(Touch(it, RecordResult(it.facts))) && LeavesOthers(it, Touch(it, RecordResult(it.facts)), Node(n))
    ensures var it' := Touch(it, RecordResult(it.facts));
            it'.facts.row == it.facts.row && it'.past == it.past.(history := it'.past.history)
  {
    NoteKeeps(it, RecordResult(it.facts), Note(Attempt));
  }

  lemma ClaimKeeps(it: Item, n: NodeId, now: Time, lease: Time)
    requires ItemOk(it) && it.facts.row.Some?
    ensures var it' := it.(facts := it.facts.(row := Some(ClaimRow(it.facts.row.value, n, now, lease))));
            ItemOk(it') && LeavesOthers(it, it', Node(n))
  {
  }

  lemma FreshCounts()
    ensures Terminals([Enqueued]) == 0 && Count([Enqueued], Enqueued) == 1
    ensures forall k: Kind :: k != Enqueued ==> Count([Enqueued], k) == 0
  {
    Append([], Enqueued);
    assert [] + [Enqueued] == [Enqueued];
  }

  lemma FreshOk(linked: bool, maxAttempts: int, now: Time, notBefore: Option<Time>, held: bool)
    ensures ItemOk(Item(EnqueueTx(linked, maxAttempts, now, notBefore, held),
                        Past(linked, maxAttempts, [Enqueued], 0, 0, multiset{}, Nobody, 0, Nobody, 0)))
  {
    FreshCounts();
    var it := Item(EnqueueTx(linked, maxAttempts, now, notBefore, held),
                   Past(linked, maxAttempts, [Enqueued], 0, 0, multiset{}, Nobody, 0, Nobody, 0));
    assert KindsOf(it.facts.log) == [Enqueued];
    assert HooksOnce(it) && AttemptsCounted(it);
  }

  /** The sweep only ever reaches messages that have ended. */
  lemma SweepKeeps(it: Item, now: Time)
    requires ItemOk(it)
    ensures ItemOk(it.(facts := Sweep(it.facts, now)))
    ensures it.facts.row.Some? ==> Sweep(it.facts, now) == it.facts
    ensures LeavesOthers(it, it.(facts := Sweep(it.facts, now)), Nobody)
  {
  }

  /** Delivering with a fresh attempt number. */
  lemma CallKeeps(it: Item, k: int)
    requires ItemOk(it) && 1 <= k <= it.past.starts && it.past.calls[k] == 0
    ensures ItemOk(it.(past := it.past.(calls := it.past.calls + multiset{k})))
  {
  }

  /** A failure or delay notice that is owed goes out. */
  lemma HookKeeps(it: Item, o: Owner, fail: bool)
    requires ItemOk(it) && !o.Nobody? && if fail then OwesFail(it, o) else OwesDelay(it, o)
    ensures ItemOk(HookItem(it, fail)) && LeavesOthers(it, HookItem(it, fail), o)
  {
  }

  // ---------------------------------------------------------------------------
  // Each step keeps the system safe
  // ---------------------------------------------------------------------------

  /** `actor` changes one message, and its own phase if it is a node. */
  ghost predicate Changes(s: State, s': State, id: QId, actor: Owner) {
    && id in s.items && s'.items.Keys == s.items.Keys && s'.phases.Keys == s.phases.Keys
    && (forall x :: x in s.items && x != id ==> s'.items[x] == s.items[x])
    && (forall n :: n in s.phases && Node(n) != actor ==> s'.phases[n] == s.phases[n])
    && LeavesOthers(s.items[id], s'.items[id], actor)
  }

  lemma OtherPhasesOk(s: State, s': State, id: QId, actor: Owner)
    requires PhasesOk(s) && Changes(s, s', id, actor)
    ensures forall n :: n in s.phases && Node(n) != actor ==> PhaseOk(s', n)
  {
    forall n | n in s.phases && Node(n) != actor ensures PhaseOk(s', n) {
      assert PhaseOk(s, n);
      assert BatchOk(s', s'.phases[n].batch);
    }
  }

  /** No node starts attempting anything new. */
  lemma StillDistinct(s: State, s': State)
    requires DistinctAttempts(s) && s'.phases.Keys == s.phases.Keys
    requires forall x :: x in s.phases && s'.phases[x].Attempting() ==> s.phases[x].Attempting() && s'.phases[x].m == s.phases[x].m
    ensures DistinctAttempts(s')
  {
    forall x, y | SameMessage(s', x, y) ensures s'.phases[x].m.attempts != s'.phases[y].m.attempts {
      assert SameMessage(s, x, y);
    }
  }

  lemma ItemsKept(s: State, id: QId, it: Item)
    requires ItemsOk(s) && ItemOk(it)
    ensures ItemsOk(WithItem(s, id, it))
  {
  }

  /** A step of one node on one message. */
  lemma NodeStepActors(s: State, s': State, n: NodeId, id: QId)
    requires ActorsOk(s) && n in s.phases && Changes(s, s', id, Node(n)) && s'.operatorHooks == s.operatorHooks
    requires PhaseOk(s', n) && DistinctAttempts(s')
    ensures ActorsOk(s')
  {
    OtherPhasesOk(s, s', id, Node(n));
    assert PhasesOk(s');
    assert OperatorOk(s');
  }

  /** A step of one node on one message after which it attempts nothing. */
  lemma NodeMoveActors(s: State, n: NodeId, id: QId, it: Item, p: Phase)
    requires ActorsOk(s) && n in s.phases && id in s.items && BatchOk(s, p.batch)
    requires LeavesOthers(s.items[id], it, Node(n))
    requires p.Working? || p.Claiming? || (p.FailHook? && p.m.id == id && OwesFail(it, Node(n)))
             || (p.DelayHook? && p.m.id == id && OwesDelay(it, Node(n)))
    ensures ActorsOk(WithPhase(WithItem(s, id, it), n, p))
  {
    var s' := WithPhase(WithItem(s, id, it), n, p);
    assert BatchOk(s', p.batch);
    assert PhaseOk(s', n);
    StillDistinct(s, s');
    NodeStepActors(s, s', n, id);
  }

  lemma NodeMoveSafe(s: State, n: NodeId, id: QId, it: Item, p: Phase)
    requires Safe(s) && n in s.phases && id in s.items && BatchOk(s, p.batch)
    requires ItemOk(it) && LeavesOthers(s.items[id], it, Node(n))
    requires p.Working? || p.Claiming? || (p.FailHook? && p.m.id == id && OwesFail(it, Node(n)))
             || (p.DelayHook? && p.m.id == id && OwesDelay(it, Node(n)))
    ensures Safe(WithPhase(WithItem(s, id, it), n, p))
  {
    NodeMoveActors(s, n, id, it, p);
    ItemsKept(s, id, it);
  }

  /** A step of nobody in particular, or of the operator, on one message. */
  lemma ItemStepActors(s: State, id: QId, it: Item, actor: Owner, hooks: set<QId>)
    requires ActorsOk(s) && id in s.items && !actor.Node? && LeavesOthers(s.items[id], it, actor)
    requires forall x :: x in hooks ==> (x == id && OwesFail(it, Operator)) || (x != id && x in s.operatorHooks)
    ensures ActorsOk(WithItem(s, id, it).(operatorHooks := hooks))
  {
    var s' := WithItem(s, id, it).(operatorHooks := hooks);
    assert Changes(s, s', id, actor);
    OtherPhasesOk(s, s', id, actor);
    assert PhasesOk(s');
    assert OperatorOk(s');
    StillDistinct(s, s');
  }

  lemma ItemStepSafe(s: State, id: QId, it: Item, actor: Owner, hooks: set<QId>)
    requires Safe(s) && id in s.items && !actor.Node?
    requires ItemOk(it) && LeavesOthers(s.items[id], it, actor)
    requires forall x :: x in hooks ==> (x == id && OwesFail(it, Operator)) || (x != id && x in s.operatorHooks)
    ensures Safe(WithItem(s, id, it).(operatorHooks := hooks))
  {
    ItemStepActors(s, id, it, actor, hooks);
    ItemsKept(s, id, it);
  }

  /** Steps that leave every message alone. */
  lemma QuietSafe(s: State, s': State)
    requires Safe(s) && s'.items == s.items && s'.phases.Keys == s.phases.Keys && s'.operatorHooks <= s.operatorHooks
    requires forall n :: n in s.phases ==> s'.phases[n] == s.phases[n] || PhaseOk(s', n)
    requires forall x :: x in s.phases && s'.phases[x].Attempting() ==> s.phases[x].Attempting() && s'.phases[x].m == s.phases[x].m
    ensures Safe(s')
  {
    QuietActors(s, s');
    assert ItemsOk(s');
  }

  lemma QuietActors(s: State, s': State)
    requires ActorsOk(s) && s'.items == s.items && s'.phases.Keys == s.phases.Keys && s'.operatorHooks <= s.operatorHooks
    requires forall n :: n in s.phases ==> s'.phases[n] == s.phases[n] || PhaseOk(s', n)
    requires forall x :: x in s.phases && s'.phases[x].Attempting() ==> s.phases[x].Attempting() && s'.phases[x].m == s.phases[x].m
    ensures ActorsOk(s')
  {
    forall n | n in s'.phases ensures PhaseOk(s', n) {
      assert PhaseOk(s, n);
      assert s'.phases[n] == s.phases[n] ==> BatchOk(s', s'.phases[n].batch);
    }
    StillDistinct(s, s');
    assert PhasesOk(s') && OperatorOk(s');
  }

  lemma EnqueueActors(s: State, id: QId, it: Item)
    requires ActorsOk(s) && id !in s.items
    ensures ActorsOk(WithItem(s, id, it))
  {
    var s' := WithItem(s, id, it);
    forall n | n in s'.phases ensures PhaseOk(s', n) {
      assert PhaseOk(s, n);
      assert BatchOk(s', s'.phases[n].batch);
    }
    StillDistinct(s, s');
    assert PhasesOk(s') && OperatorOk(s');
  }

  lemma EnqueueSafe(s: State, id: QId, linked: bool, maxAttempts: int, notBefore: Option<Time>, held: bool)
    requires Safe(s) && id !in s.items
    ensures Safe(DoEnqueue(s, id, linked, maxAttempts, notBefore, held))
  {
    var it := DoEnqueue(s, id, linked, maxAttempts, notBefore, held).items[id];
    FreshOk(linked, maxAttempts, s.now, notBefore, held);
    EnqueueActors(s, id, it);
    ItemsKept(s, id, it);
  }

  lemma BatchGrows(s: State, batch: seq<Claimed>, c: Claimed)
    requires BatchOk(s, batch) && c.id in s.items && c.maxAttempts == s.items[c.id].past.maxAttempts
    ensures BatchOk(s, batch + [c])
  {
  }

  lemma ClaimSafe(cfg: Config, s: State, n: NodeId, id: QId)
    requires Safe(s) && Enabled(cfg, s, Claim(n, id))
    ensures Safe(DoClaim(cfg, s, n, id))
  {
    var it := s.items[id];
    var row := it.facts.row.value;
    ClaimKeeps(it, n, s.now, cfg.lease);
    assert PhaseOk(s, n);
    BatchGrows(s, s.phases[n].batch, Claimed(id, row.maxAttempts, row.attempts));
    NodeMoveSafe(s, n, id, it.(facts := it.facts.(row := Some(ClaimRow(row, n, s.now, cfg.lease)))),
                 Claiming(s.phases[n].batch + [Claimed(id, row.maxAttempts, row.attempts)]));
  }

  lemma RenewSafe(cfg: Config, s: State, n: NodeId, reply: Reply)
    requires Safe(s) && Enabled(cfg, s, RenewLease(n, reply))
    ensures Safe(DoRenew(cfg, s, n, reply))
  {
    var c, rest := s.phases[n].batch[0], s.phases[n].batch[1..];
    var it := s.items[c.id];
    assert PhaseOk(s, n);
    assert BatchOk(s, rest);
    if reply.NotRun? || !StillHolds(it.facts, n, s.now) {
      MoveSafe(s, n, Working(rest));
    } else {
      RenewKeeps(cfg, it, n, s.now);
      var it' := RenewItem(cfg, it, n, s.now);
      if reply.ReplyLost? {
        NodeMoveSafe(s, n, c.id, it', Working(rest));
      } else {
        RenewedSafe(s, n, c.id, it', Renewed(c.(attempts := it'.facts.row.value.attempts), s.now, rest));
      }
    }
  }

  lemma RenewedSafe(s: State, n: NodeId, id: QId, it: Item, p: Phase)
    requires Safe(s) && n in s.phases && id in s.items && p.Renewed? && p.m.id == id && BatchOk(s, p.batch)
    requires ItemOk(it) && LeavesOthers(s.items[id], it, Node(n))
    requires p.m.maxAttempts == it.past.maxAttempts && p.m.attempts == s.items[id].past.starts + 1
    requires AttemptOk(it, n, p.m.attempts) && it.past.calls[p.m.attempts] == 0
    ensures Safe(WithPhase(WithItem(s, id, it), n, p))
  {
    RenewedActors(s, n, id, it, p);
    ItemsKept(s, id, it);
  }

  lemma RenewedActors(s: State, n: NodeId, id: QId, it: Item, p: Phase)
    requires ActorsOk(s) && n in s.phases && id in s.items && p.Renewed? && p.m.id == id && BatchOk(s, p.batch)
    requires LeavesOthers(s.items[id], it, Node(n))
    requires p.m.maxAttempts == it.past.maxAttempts && p.m.attempts == s.items[id].past.starts + 1
    requires AttemptOk(it, n, p.m.attempts) && it.past.calls[p.m.attempts] == 0
    ensures ActorsOk(WithPhase(WithItem(s, id, it), n, p))
  {
    var s' := WithPhase(WithItem(s, id, it), n, p);
    assert BatchOk(s', p.batch);
    RenewDistinct(s, s', n, id);
    NodeStepActors(s, s', n, id);
  }

  /** A renewal hands out an attempt number nobody else holds. */
  lemma RenewDistinct(s: State, s': State, n: NodeId, id: QId)
    requires PhasesOk(s) && DistinctAttempts(s) && n in s.phases && id in s.items && s'.phases.Keys == s.phases.Keys
    requires forall x :: x in s.phases && x != n ==> s'.phases[x] == s.phases[x]
    requires s'.phases[n].Attempting() ==>
               s'.phases[n].m.id == id && s'.phases[n].m.attempts == s.items[id].past.starts + 1
    ensures DistinctAttempts(s')
  {
    forall x, y | SameMessage(s', x, y) ensures s'.phases[x].m.attempts != s'.phases[y].m.attempts {
      if x != n && y != n {
        assert SameMessage(s, x, y);
      } else {
        assert PhaseOk(s, if x == n then y else x);
      }
    }
  }

  lemma StartSafe(cfg: Config, s: State, n: NodeId)
    requires Safe(s) && Enabled(cfg, s, StartDelivery(n))
    ensures Safe(DoStart(cfg, s, n))
  {
    var s' := DoStart(cfg, s, n);
    var p := s.phases[n];
    assert PhaseOk(s, n);
    CallKeeps(s.items[p.m.id], p.m.attempts);
    StartPhases(s, s', n, p.m.attempts);
    StillDistinct(s, s');
    assert ItemsOk(s') && PhasesOk(s') && OperatorOk(s');
  }

  lemma StartPhases(s: State, s': State, n: NodeId, k: int)
    requires PhasesOk(s) && DistinctAttempts(s) && n in s.phases && s.phases[n].Renewed? && s.phases[n].m.attempts == k
    requires s.phases[n].m.id in s.items
    requires s'.phases.Keys == s.phases.Keys && forall x :: x in s.phases && x != n ==> s'.phases[x] == s.phases[x]
    requires s'.phases[n].Sending? && s'.phases[n].m == s.phases[n].m && s'.phases[n].batch == s.phases[n].batch
    requires var id := s.phases[n].m.id;
             s'.items == s.items[id := s.items[id].(past := s.items[id].past.(calls := s.items[id].past.calls + multiset{k}))]
    ensures PhasesOk(s')
  {
    forall x | x in s'.phases ensures PhaseOk(s', x) {
      assert PhaseOk(s, x);
      assert BatchOk(s', s'.phases[x].batch);
      if x != n && s.phases[x].Renewed? && s.phases[x].m.id == s.phases[n].m.id {
        assert SameMessage(s, x, n);
      }
    }
  }

  lemma RecordSafe(cfg: Config, s: State, n: NodeId, reply: Reply)
    requires Safe(s) && Enabled(cfg, s, Record(n, reply))
    ensures Safe(DoRecord(cfg, s, n, reply))
  {
    var p := s.phases[n];
    assert PhaseOk(s, n);
    if reply.NotRun? {
      MoveSafe(s, n, Logged(p.m, p.verdict, p.batch));
    } else {
      RecordKeeps(s.items[p.m.id], n);
      LoggedSafe(s, n, Touch(s.items[p.m.id], RecordResult(s.items[p.m.id].facts)), Logged(p.m, p.verdict, p.batch));
    }
  }

  lemma LoggedSafe(s: State, n: NodeId, it: Item, p: Phase)
    requires Safe(s) && n in s.phases && s.phases[n].Sent? && p == Logged(s.phases[n].m, s.phases[n].verdict, s.phases[n].batch)
    requires p.m.id in s.items && ItemOk(it) && LeavesOthers(s.items[p.m.id], it, Node(n))
    requires it.facts.row == s.items[p.m.id].facts.row && it.past == s.items[p.m.id].past.(history := it.past.history)
    ensures Safe(WithPhase(WithItem(s, p.m.id, it), n, p))
  {
    LoggedActors(s, n, it, p);
    ItemsKept(s, p.m.id, it);
  }

  lemma LoggedActors(s: State, n: NodeId, it: Item, p: Phase)
    requires ActorsOk(s) && n in s.phases && s.phases[n].Sent? && p == Logged(s.phases[n].m, s.phases[n].verdict, s.phases[n].batch)
    requires p.m.id in s.items && LeavesOthers(s.items[p.m.id], it, Node(n))
    requires it.facts.row == s.items[p.m.id].facts.row && it.past == s.items[p.m.id].past.(history := it.past.history)
    ensures ActorsOk(WithPhase(WithItem(s, p.m.id, it), n, p))
  {
    var s' := WithPhase(WithItem(s, p.m.id, it), n, p);
    assert PhaseOk(s, n);
    assert BatchOk(s', p.batch);
    StillDistinct(s, s');
    NodeStepActors(s, s', n, p.m.id);
  }

  lemma SettleSafe(cfg: Config, s: State, n: NodeId, aged: bool, delay: Time, reply: Reply)
    requires Safe(s) && Enabled(cfg, s, Settle(n, aged, delay, reply))
    ensures Safe(DoSettle(cfg, s, n, aged, delay, reply))
  {
    var m, verdict, rest := s.phases[n].m, s.phases[n].verdict, s.phases[n].batch;
    var it := s.items[m.id];
    assert PhaseOk(s, n);
    if reply.NotRun? || !LeasedTo(it.facts, n) {
      MoveSafe(s, n, Working(rest));
    } else {
      SettleKeeps(cfg, it, n, m, verdict, aged, s.now, delay);
      var p := if reply.ReplyLost? then Working(rest)
               else if FailHookDue(cfg, m, verdict, aged) then FailHook(m, rest)
               else if DelayHookDue(cfg, it, m, verdict, aged) then DelayHook(m, rest)
               else Working(rest);
      NodeMoveSafe(s, n, m.id, SettleItem(cfg, it, n, m, verdict, aged, s.now, delay), p);
    }
  }

  lemma HookSafe(s: State, n: NodeId)
    requires Safe(s) && n in s.phases && (s.phases[n].FailHook? || s.phases[n].DelayHook?) && s.phases[n].m.id in s.items
    ensures Safe(DoHook(s, n))
  {
    var p := s.phases[n];
    var it := s.items[p.m.id];
    assert PhaseOk(s, n);
    HookKeeps(it, Node(n), p.FailHook?);
    NodeMoveSafe(s, n, p.m.id, HookItem(it, p.FailHook?), Working(p.batch));
  }

  lemma AdminSafe(s: State, id: QId, op: AdminOp)
    requires Safe(s) && id in s.items
    ensures Safe(DoAdmin(s, id, op))
  {
    AdminKeeps(s.items[id], op, s.now);
    var it := Touch(s.items[id], Admin(s.items[id].facts, op, s.now));
    AdminLeaves(s.items[id], op, s.now, it.past);
    ItemStepSafe(s, id, it, Nobody, s.operatorHooks);
  }

  /** Whoever the operator owes a notice besides, this message is no longer one of them. */
  lemma OperatorOwes(s: State, id: QId, it: Item, hook: bool)
    requires Safe(s) && id in s.items && s.items[id].past.failOwner.Nobody? && (hook ==> OwesFail(it, Operator))
    ensures var hooks := if hook then s.operatorHooks + {id} else s.operatorHooks;
      forall x :: x in hooks ==> (x == id && OwesFail(it, Operator)) || (x != id && x in s.operatorHooks)
  {
    assert OperatorOk(s);
  }

  lemma AdminFailSafe(cfg: Config, s: State, id: QId, hook: bool)
    requires Safe(s) && id in s.items
    ensures Safe(DoAdminFail(cfg, s, id, hook))
  {
    if s.items[id].facts.row.Some? {
      var it, hooks := AdminFailItem(cfg, s.items[id], s.now, hook), if hook then s.operatorHooks + {id} else s.operatorHooks;
      AdminFailKeeps(cfg, s.items[id], s.now, hook);
      OperatorOwes(s, id, it, hook);
      ItemStepSafe(s, id, it, Nobody, hooks);
    }
  }

  lemma AdminHookSafe(s: State, id: QId)
    requires Safe(s) && id in s.operatorHooks && id in s.items
    ensures Safe(DoAdminHook(s, id))
  {
    var it := s.items[id];
    HookKeeps(it, Operator, true);
    ItemStepSafe(s, id, HookItem(it, true), Operator, s.operatorHooks - {id});
  }

  lemma SweepSafe(s: State, id: QId)
    requires Safe(s) && id in s.items
    ensures Safe(DoSweep(s, id))
  {
    SweepKeeps(s.items[id], s.now);
    ItemStepSafe(s, id, s.items[id].(facts := Sweep(s.items[id].facts, s.now)), Nobody, s.operatorHooks);
  }

  /** Steps that only move a node along. */
  lemma MoveActors(s: State, n: NodeId, p: Phase)
    requires ActorsOk(s) && n in s.phases && BatchOk(s, p.batch)
    requires p.Working? || p.Claiming?
             || (s.phases[n].Attempting() && p.m == s.phases[n].m && (p.Sent? || p.Logged?))
    ensures ActorsOk(WithPhase(s, n, p))
  {
    var s' := WithPhase(s, n, p);
    assert PhaseOk(s, n);
    assert BatchOk(s', p.batch);
    QuietActors(s, s');
  }

  lemma MoveSafe(s: State, n: NodeId, p: Phase)
    requires Safe(s) && n in s.phases && BatchOk(s, p.batch)
    requires p.Working? || p.Claiming?
             || (s.phases[n].Attempting() && p.m == s.phases[n].m && (p.Sent? || p.Logged?))
    ensures Safe(WithPhase(s, n, p))
  {
    MoveActors(s, n, p);
    assert ItemsOk(WithPhase(s, n, p));
  }

  /** Every action keeps the system safe. */
  lemma StepSafe(cfg: Config, s: State, a: Action)
    requires Safe(s) && Enabled(cfg, s, a)
    ensures Safe(Step(cfg, s, a))
  {
    assert a.Begin? || a.EndDelivery? ==> PhaseOk(s, a.node);
    match a
    case Enqueue(id, linked, max, notBefore, held) => EnqueueSafe(s, id, linked, max, notBefore, held);
    case Claim(n, id) => ClaimSafe(cfg, s, n, id);
    case RenewLease(n, reply) => RenewSafe(cfg, s, n, reply);
    case StartDelivery(n) => StartSafe(cfg, s, n);
    case Record(n, reply) => RecordSafe(cfg, s, n, reply);
    case Settle(n, aged, delay, reply) => SettleSafe(cfg, s, n, aged, delay, reply);
    case FireHook(n) => HookSafe(s, n);
    case AdminDo(id, op) => AdminSafe(s, id, op);
    case AdminFail(id, hook) => AdminFailSafe(cfg, s, id, hook);
    case AdminHook(id) => AdminHookSafe(s, id);
    case SweepLog(id) => SweepSafe(s, id);
    case Begin(n) => MoveSafe(s, n, Working(s.phases[n].batch));
    case EndDelivery(n, verdict) => MoveSafe(s, n, Sent(s.phases[n].m, verdict, s.phases[n].batch));
    case EndRun(n) => MoveSafe(s, n, Claiming([]));
    case Crash(n) => MoveSafe(s, n, Claiming([]));
    case AdminCrash => QuietSafe(s, s.(operatorHooks := {}));
    case Tick(t) => QuietSafe(s, s.(now := t));
  }

  lemma {:induction false} RunSafe(cfg: Config, states: seq<State>, actions: seq<Action>, i: nat)
    requires IsRun(cfg, states, actions) && i < |states|
    ensures Safe(states[i])
  {
    if i > 0 {
      RunSafe(cfg, states, actions, i - 1);
      StepSafe(cfg, states[i - 1], actions[i - 1]);
    }
  }
}
