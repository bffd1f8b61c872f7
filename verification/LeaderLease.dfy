/** Leader election and fencing of `ops/ha`, over all nodes.

  The steps below are the SQL statements of TryAcquire, Heartbeat, Resign, release
  and FenceExec, and the events around them: lost connections, a promotion, and the
  fenced work of leader goroutines.  `tenure` numbers the acquisitions; the code does
  not store it, it only serves to say which tenure a fencing token came from. */
module LeaderLease {
  import opened Options

  type NodeId = string
  type FenceId = nat

  /** The replicated row of `leader_lease`. */
  datatype LeaseRow = LeaseRow(holder: NodeId, epoch: nat, tenure: nat)

  /** The leadership connection of a node.  `Lost`: the server side is gone, or is a
      demoted primary, and the node has not noticed yet. */
  datatype Conn = NoConn | Campaigning | Live | Lost

  datatype Leader = Leader(conn: Conn, epoch: nat, tenure: nat)

  const Follower := Leader(NoConn, 0, 0)

  /** A FenceExec in flight: the epoch it captured, and how far it got. */
  datatype Stage = Captured | Checked | Committed | Fenced | Aborted
  datatype Fence = Fence(node: NodeId, epoch: nat, tenure: nat, stage: Stage)

  /** The session that has the advisory lock, and how often it took it: the leadership
      connection of a node, or one that is back in the node's pool. */
  datatype Session = Session(node: NodeId, leading: bool, depth: nat)

  datatype State = State(
    lease: Option<LeaseRow>,
    lock: Option<Session>,          // session advisory lock on the current primary
    rowLock: Option<FenceId>,       // FOR UPDATE lock on the lease row
    leaders: map<NodeId, Leader>,
    fences: map<FenceId, Fence>,
    tenures: nat,                   // acquisitions so far
    deletions: nat)                 // clean handovers so far

  datatype Action =
    | TakeLock(node: NodeId)
    | TakeLockAgain(node: NodeId)   // the pool hands out the very session that has the lock
    | LoseLockReply(node: NodeId)   // the lock is taken, the reply lost, the session pooled
    | ClaimLease(node: NodeId)
    | ClaimFails(node: NodeId, unlocked: bool)
    | LoseConn(node: NodeId)
    | StepDown(node: NodeId)        // IsLeader or Heartbeat found the lock or the lease gone
    | Heartbeat(node: NodeId, unlocked: bool)
    | Resign(node: NodeId, deleted: bool, unlocked: bool)
    | ClosePooled                   // the pool closes the session that has the lock
    | Promote
    | Capture(node: NodeId, fence: FenceId)
    | Check(fence: FenceId)
    | Commit(fence: FenceId)
    | Abort(fence: FenceId)

  predicate Names(lease: Option<LeaseRow>, node: NodeId, epoch: nat) {
    lease.Some? && lease.value.holder == node && lease.value.epoch == epoch
  }

  /** The leadership connection of `n` has the lock. */
  predicate Holds(s: State, n: NodeId) {
    s.lock.Some? && s.lock.value.node == n && s.lock.value.leading
  }

  /** A session in the pool of `n` has the lock. */
  predicate Pooled(s: State, n: NodeId) {
    s.lock.Some? && s.lock.value.node == n && !s.lock.value.leading
  }

  predicate Enabled(s: State, a: Action) {
    match a
    case TakeLock(n) => n in s.leaders && s.leaders[n].conn.NoConn? && s.lock.None?
    case TakeLockAgain(n) => n in s.leaders && s.leaders[n].conn.NoConn? && Pooled(s, n)
    case LoseLockReply(n) => n in s.leaders && s.leaders[n].conn.NoConn? && (s.lock.None? || Pooled(s, n))
    // The upsert, like the delete below, waits for a fenced transaction that has
    // locked the row.
    case ClaimLease(n) => n in s.leaders && s.leaders[n].conn.Campaigning? && Holds(s, n) && s.rowLock.None?
    case ClaimFails(n, _) => n in s.leaders && s.leaders[n].conn.Campaigning?
    case LoseConn(n) => n in s.leaders && !s.leaders[n].conn.NoConn?
    case StepDown(n) => n in s.leaders && s.leaders[n].conn.Lost?
    case Heartbeat(n, _) => n in s.leaders && s.leaders[n].conn.Live?
    case Resign(n, deleted, _) =>
      && n in s.leaders && (s.leaders[n].conn.Live? || s.leaders[n].conn.Lost?)
      && (deleted && s.leaders[n].conn.Live? && Names(s.lease, n, s.leaders[n].epoch) ==> s.rowLock.None?)
    case ClosePooled => s.lock.Some? && !s.lock.value.leading
    case Promote => true
    case Capture(n, f) => n in s.leaders && s.leaders[n].epoch != 0 && f !in s.fences
    case Check(f) => f in s.fences && s.fences[f].stage.Captured? && s.rowLock.None?
    case Commit(f) => f in s.fences && s.fences[f].stage.Checked?
    case Abort(f) => f in s.fences && s.fences[f].stage.Checked?
  }

  function Depth(lock: Option<Session>): nat {
    if lock.None? then 0 else lock.value.depth
  }

  /** The lock, as the session of `n` that has it `depth` times goes back to the pool. */
  function BackInPool(n: NodeId, depth: nat): Option<Session> {
    if depth == 0 then None else Some(Session(n, false, depth))
  }

  /** The session ends, and its lock with it. */
  function Unlock(s: State, n: NodeId): State {
    if Holds(s, n) then s.(lock := None) else s
  }

  /** Gives the connection back to the pool, after an attempt to unlock whose error is
      ignored. */
  function Release(s: State, n: NodeId, unlocked: bool): State {
    var depth := if unlocked && Depth(s.lock) > 0 then Depth(s.lock) - 1 else Depth(s.lock);
    var lock := if Holds(s, n) then BackInPool(n, depth) else s.lock;
    s.(lock := lock, leaders := s.leaders[n := Follower])
  }

  function NextEpoch(lease: Option<LeaseRow>): nat {
    if lease.None? then 1 else lease.value.epoch + 1
  }

  function SetStage(s: State, f: FenceId, stage: Stage): State
    requires f in s.fences
  {
    s.(fences := s.fences[f := s.fences[f].(stage := stage)])
  }

  function Step(s: State, a: Action): State
    requires Enabled(s, a)
  {
    match a
    case TakeLock(n) => s.(lock := Some(Session(n, true, 1)), leaders := s.leaders[n := Leader(Campaigning, 0, 0)])
    case TakeLockAgain(n) =>
      s.(lock := Some(Session(n, true, Depth(s.lock) + 1)), leaders := s.leaders[n := Leader(Campaigning, 0, 0)])
    case LoseLockReply(n) => s.(lock := Some(Session(n, false, Depth(s.lock) + 1)))
    case ClaimLease(n) =>
      var row := LeaseRow(n, NextEpoch(s.lease), s.tenures + 1);
      s.(lease := Some(row), tenures := s.tenures + 1, leaders := s.leaders[n := Leader(Live, row.epoch, row.tenure)])
    case ClaimFails(n, unlocked) => Release(s, n, unlocked)
    case LoseConn(n) => Unlock(s, n).(leaders := s.leaders[n := s.leaders[n].(conn := Lost)])
    case StepDown(n) => Release(s, n, false)
    case Heartbeat(n, unlocked) => if Names(s.lease, n, s.leaders[n].epoch) then s else Release(s, n, unlocked)
    case Resign(n, deleted, unlocked) =>
      if deleted && s.leaders[n].conn.Live? && Names(s.lease, n, s.leaders[n].epoch)
      then Release(s, n, unlocked).(lease := None, deletions := s.deletions + 1)
      else Release(s, n, unlocked)
    case ClosePooled => s.(lock := None)
    // The new primary has the lease row but neither session locks nor transactions.
    case Promote =>
      s.(lock := None, rowLock := None,
         leaders := map n | n in s.leaders ::
           if s.leaders[n].conn.NoConn? then s.leaders[n] else s.leaders[n].(conn := Lost),
         fences := map f | f in s.fences ::
           if s.fences[f].stage.Checked? then s.fences[f].(stage := Aborted) else s.fences[f])
    case Capture(n, f) => s.(fences := s.fences[f := Fence(n, s.leaders[n].epoch, s.leaders[n].tenure, Captured)])
    case Check(f) =>
      if Names(s.lease, s.fences[f].node, s.fences[f].epoch) then SetStage(s, f, Checked).(rowLock := Some(f))
      else SetStage(s, f, Fenced)
    case Commit(f) => SetStage(s, f, Committed).(rowLock := None)
    case Abort(f) => SetStage(s, f, Aborted).(rowLock := None)
  }

  predicate Initial(s: State) {
    && s.lease.None? && s.lock.None? && s.rowLock.None? && s.fences == map[] && s.tenures == 0 && s.deletions == 0
    && forall n :: n in s.leaders ==> s.leaders[n] == Follower
  }

  ghost predicate IsRun(states: seq<State>, actions: seq<Action>) {
    && |states| == |actions| + 1
    && Initial(states[0])
    && forall i :: 0 <= i < |actions| ==> Enabled(states[i], actions[i]) && states[i + 1] == Step(states[i], actions[i])
  }

  // ---------------------------------------------------------------------------
  // Invariants
  // ---------------------------------------------------------------------------

  ghost predicate FencesOk(s: State) {
    && (forall f :: f in s.fences && s.fences[f].stage.Checked? ==>
          s.rowLock == Some(f) && Names(s.lease, s.fences[f].node, s.fences[f].epoch))
    && (s.rowLock.Some? ==> s.rowLock.value in s.fences && s.fences[s.rowLock.value].stage.Checked?)
  }

  ghost predicate SessionsOk(s: State) {
    && (s.lock.Some? ==> s.lock.value.depth > 0)
    && (forall n :: n in s.leaders && (s.leaders[n].conn.Campaigning? || s.leaders[n].conn.Live?) ==> Holds(s, n))
    && (forall n :: n in s.leaders && s.leaders[n].conn.Live? ==>
          Names(s.lease, n, s.leaders[n].epoch) && s.lease.value.tenure == s.leaders[n].tenure)
  }

  ghost predicate TenuresOk(s: State) {
    && (s.lease.Some? ==> 0 < s.lease.value.epoch && s.lease.value.tenure == s.tenures)
    && (forall n :: n in s.leaders ==> s.leaders[n].tenure <= s.tenures && (s.leaders[n].epoch > 0 ==> s.leaders[n].tenure > 0))
    && (forall f :: f in s.fences ==> 0 < s.fences[f].tenure <= s.tenures)
  }

  lemma StepFences(s: State, a: Action)
    requires FencesOk(s) && Enabled(s, a)
    ensures FencesOk(Step(s, a))
  {
  }

  lemma StepSessions(s: State, a: Action)
    requires SessionsOk(s) && Enabled(s, a)
    ensures SessionsOk(Step(s, a))
  {
  }

  lemma StepTenures(s: State, a: Action)
    requires TenuresOk(s) && Enabled(s, a)
    ensures TenuresOk(Step(s, a))
  {
  }

  lemma {:induction false} RunOk(states: seq<State>, actions: seq<Action>, i: nat)
    requires IsRun(states, actions) && i < |states|
    ensures FencesOk(states[i]) && SessionsOk(states[i]) && TenuresOk(states[i])
  {
    if i > 0 {
      RunOk(states, actions, i - 1);
      StepFences(states[i - 1], actions[i - 1]);
      StepSessions(states[i - 1], actions[i - 1]);
      StepTenures(states[i - 1], actions[i - 1]);
    }
  }

  /** A node with a live leadership session is the only one, and the lease row names
      it: as long as the session lasts, no heartbeat finds the lease taken over. */
  lemma LiveLeaderHoldsLease(states: seq<State>, actions: seq<Action>, i: nat, n: NodeId, n': NodeId)
    requires IsRun(states, actions) && i < |states|
    requires n in states[i].leaders && states[i].leaders[n].conn.Live?
    ensures Names(states[i].lease, n, states[i].leaders[n].epoch)
    ensures n' in states[i].leaders && states[i].leaders[n'].conn.Live? ==> n' == n
  {
    RunOk(states, actions, i);
  }

  // ---------------------------------------------------------------------------
  // A committed fence excludes takeovers
  // ---------------------------------------------------------------------------

  /** Once checked, a fence never goes back to waiting for its check. */
  lemma {:induction false} CheckedOnce(states: seq<State>, actions: seq<Action>, i: nat, k: nat, f: FenceId)
    requires IsRun(states, actions) && i < k < |states| && actions[i] == Check(f)
    ensures f in states[k].fences && !states[k].fences[f].stage.Captured?
  {
    if k > i + 1 {
      CheckedOnce(states, actions, i, k - 1, f);
    }
  }

  /** A fence that commits at `j` has held the row lock ever since its check at `i`. */
  lemma {:induction false} LockedSinceCheck(states: seq<State>, actions: seq<Action>, i: nat, k: nat, j: nat, f: FenceId)
    requires IsRun(states, actions) && i < k <= j < |actions| && actions[i] == Check(f) && actions[j] == Commit(f)
    ensures states[k].rowLock == Some(f) && states[k].lease == states[j].lease
    ensures f in states[k].fences && states[k].fences[f].stage.Checked?
    decreases j - k
  {
    RunOk(states, actions, k);
    if k < j {
      LockedSinceCheck(states, actions, i, k + 1, j, f);
      CheckedOnce(states, actions, i, k, f);
    }
  }

  /** A fenced transaction commits while the lease row names its node at the epoch it
      captured, and from its check to its commit nobody acquires or gives up the lease. */
  lemma FencedCommitIsExclusive(states: seq<State>, actions: seq<Action>, i: nat, j: nat, f: FenceId)
    requires IsRun(states, actions) && i < j < |actions| && actions[i] == Check(f) && actions[j] == Commit(f)
    ensures f in states[j].fences && Names(states[j + 1].lease, states[j].fences[f].node, states[j].fences[f].epoch)
    ensures forall k :: i <= k <= j ==> states[k].lease == states[j + 1].lease
    ensures forall k :: i <= k <= j ==> !actions[k].ClaimLease?
  {
    RunOk(states, actions, j);
    LockedSinceCheck(states, actions, i, i + 1, j, f);
    forall k | i < k <= j ensures states[k].lease == states[j].lease && !actions[k].ClaimLease? {
      LockedSinceCheck(states, actions, i, k, j, f);
    }
  }

  /** Every commit was preceded by a check, so the result above covers every commit. */
  lemma {:induction false} CommitWasChecked(states: seq<State>, actions: seq<Action>, j: nat, f: FenceId) returns (i: nat)
    requires IsRun(states, actions) && j < |states|
    requires f in states[j].fences && states[j].fences[f].stage.Checked?
    ensures i < j && actions[i] == Check(f)
  {
    var p := states[j - 1];
    if f in p.fences && p.fences[f].stage.Checked? {
      i := CommitWasChecked(states, actions, j - 1, f);
    } else {
      i := j - 1;
    }
  }

  // ---------------------------------------------------------------------------
  // Epochs and tenures
  // ---------------------------------------------------------------------------

  /** What holds ever after the acquisition numbered `t` at epoch `e`, made when `d`
      clean handovers had happened. */
  ghost predicate SinceClaim(s: State, e: nat, t: nat, d: nat) {
    && d <= s.deletions && t <= s.tenures
    && (s.deletions == d ==> s.lease.Some? && s.lease.value.epoch - e == s.tenures - t)
    && (s.deletions > d && s.lease.Some? ==> s.tenures > t)
    && (forall n :: n in s.leaders && s.leaders[n].tenure == t ==> s.leaders[n].epoch == e)
    && (forall f :: f in s.fences && s.fences[f].tenure == t ==> s.fences[f].epoch == e)
  }

  lemma StepSinceClaim(s: State, a: Action, e: nat, t: nat, d: nat)
    requires SinceClaim(s, e, t, d) && TenuresOk(s) && Enabled(s, a) && t > 0
    ensures SinceClaim(Step(s, a), e, t, d)
  {
  }

  lemma {:induction false} ClaimHistory(states: seq<State>, actions: seq<Action>, c: nat, k: nat)
    requires IsRun(states, actions) && c < k < |states| && actions[c].ClaimLease?
    ensures states[c + 1].lease.Some?
    ensures SinceClaim(states[k], states[c + 1].lease.value.epoch, states[c + 1].tenures, states[c].deletions)
  {
    RunOk(states, actions, k - 1);
    if k > c + 1 {
      ClaimHistory(states, actions, c, k - 1);
      StepSinceClaim(states[k - 1], actions[k - 1], states[c + 1].lease.value.epoch, states[c + 1].tenures, states[c].deletions);
    }
  }

  /** Between two deletions of the lease row, epochs strictly increase. */
  lemma EpochsIncrease(states: seq<State>, actions: seq<Action>, c: nat, c': nat)
    requires IsRun(states, actions) && c < c' < |actions| && actions[c].ClaimLease? && actions[c'].ClaimLease?
    requires states[c'].deletions == states[c].deletions
    ensures states[c + 1].lease.Some? && states[c' + 1].lease.Some?
    ensures states[c' + 1].lease.value.epoch > states[c + 1].lease.value.epoch
  {
    ClaimHistory(states, actions, c, c');
    TenuresCount(states, actions, c + 1, c');
  }

  /** `tenures` counts acquisitions. */
  lemma {:induction false} TenuresCount(states: seq<State>, actions: seq<Action>, i: nat, j: nat)
    requires IsRun(states, actions) && i <= j < |states|
    ensures states[i].tenures <= states[j].tenures
    ensures states[i].tenures == states[j].tenures <==> forall k :: i <= k < j ==> !actions[k].ClaimLease?
  {
    if i < j {
      TenuresCount(states, actions, i, j - 1);
    }
  }

  /** Every tenure that a fencing token can come from began with an acquisition. */
  lemma {:induction false} TenureStart(states: seq<State>, actions: seq<Action>, k: nat, t: nat) returns (c: nat)
    requires IsRun(states, actions) && k < |states| && 0 < t <= states[k].tenures
    ensures c < k && actions[c].ClaimLease? && states[c + 1].tenures == t
  {
    if t <= states[k - 1].tenures {
      c := TenureStart(states, actions, k - 1, t);
    } else {
      c := k - 1;
    }
  }

  /** A fence whose token came from the acquisition at `c` commits within that very
      tenure, with no acquisition by anyone since, exactly when no leader has resigned
      (and so deleted the lease row) since `c`. */
  lemma SameTenureExactly(states: seq<State>, actions: seq<Action>, c: nat, j: nat, f: FenceId)
    requires IsRun(states, actions) && c < j < |actions| && actions[c].ClaimLease? && actions[j] == Commit(f)
    requires f in states[j].fences && states[j].fences[f].tenure == states[c + 1].tenures
    ensures (forall k :: c < k < j ==> !actions[k].ClaimLease?) <==> states[j].deletions == states[c].deletions
  {
    RunOk(states, actions, j);
    ClaimHistory(states, actions, c, j);
    TenuresCount(states, actions, c + 1, j);
  }

  // ---------------------------------------------------------------------------
  // A token can outlive its tenure
  // ---------------------------------------------------------------------------

  ghost predicate Reachable(s: State) {
    exists states, actions :: IsRun(states, actions) && states[|actions|] == s
  }

  lemma ReachesNext(s: State, a: Action)
    requires Reachable(s) && Enabled(s, a)
    ensures Reachable(Step(s, a))
  {
    var states, actions :| IsRun(states, actions) && states[|actions|] == s;
    var states', actions' := states + [Step(s, a)], actions + [a];
    assert IsRun(states', actions') && states'[|actions'|] == Step(s, a);
  }

  function TwoNodes(lease: Option<LeaseRow>, lock: Option<Session>, a: Leader, b: Leader,
                    fences: map<FenceId, Fence>, tenures: nat, deletions: nat): State {
    State(lease, lock, None, map["a" := a, "b" := b], fences, tenures, deletions)
  }

  /** Node `a` leads and captures a token. */
  lemma TokenCaptured() returns (s: State)
    ensures Reachable(s)
    ensures s == TwoNodes(Some(LeaseRow("a", 1, 1)), Some(Session("a", true, 1)), Leader(Live, 1, 1), Follower, map[0 := Fence("a", 1, 1, Captured)], 1, 0)
  {
    s := TwoNodes(None, None, Follower, Follower, map[], 0, 0);
    assert IsRun([s], []) && [s][0] == s;
    ReachesNext(s, TakeLock("a"));
    s := Step(s, TakeLock("a"));
    ReachesNext(s, ClaimLease("a"));
    s := Step(s, ClaimLease("a"));
    ReachesNext(s, Capture("a", 0));
    s := Step(s, Capture("a", 0));
  }

  /** Then it loses its session and steps down. */
  lemma SteppedDown() returns (s: State)
    ensures Reachable(s)
    ensures s == TwoNodes(Some(LeaseRow("a", 1, 1)), None, Follower, Follower, map[0 := Fence("a", 1, 1, Captured)], 1, 0)
  {
    s := TokenCaptured();
    ReachesNext(s, LoseConn("a"));
    s := Step(s, LoseConn("a"));
    ReachesNext(s, StepDown("a"));
    s := Step(s, StepDown("a"));
  }

  /** Then node `b` leads for a tenure and hands over cleanly. */
  lemma HandedOver() returns (s: State)
    ensures Reachable(s)
    ensures s == TwoNodes(None, None, Follower, Follower, map[0 := Fence("a", 1, 1, Captured)], 2, 1)
  {
    s := SteppedDown();
    ReachesNext(s, TakeLock("b"));
    s := Step(s, TakeLock("b"));
    ReachesNext(s, ClaimLease("b"));
    s := Step(s, ClaimLease("b"));
    ReachesNext(s, Resign("b", true, true));
    s := Step(s, Resign("b", true, true));
  }

  /** One clean handover in between is enough to reissue an old (holder, epoch) pair: a
      fence holding a token of tenure 1 is checked, and can commit, in tenure 3. */
  lemma TokenOutlivesTenure() returns (s: State)
    ensures Reachable(s) && Enabled(s, Commit(0))
    ensures s.fences[0] == Fence("a", 1, 1, Checked) && s.lease == Some(LeaseRow("a", 1, 3))
  {
    s := HandedOver();
    ReachesNext(s, TakeLock("a"));
    s := Step(s, TakeLock("a"));
    ReachesNext(s, ClaimLease("a"));
    s := Step(s, ClaimLease("a"));
    ReachesNext(s, Check(0));
    s := Step(s, Check(0));
  }

  // ---------------------------------------------------------------------------
  // Stranded locks
  // ---------------------------------------------------------------------------

  /** A session that leads nobody has the lock. */
  predicate Stranded(s: State) {
    s.lock.Some? && !s.lock.value.leading
  }

  /** The lock is taken once, by a session that leads or campaigns, or not at all. */
  ghost predicate LockInUse(s: State) {
    s.lock.Some? ==>
      && s.lock.value.leading && s.lock.value.depth == 1 && s.lock.value.node in s.leaders
      && (s.leaders[s.lock.value.node].conn.Live? || s.leaders[s.lock.value.node].conn.Campaigning?)
  }

  /** The step pools a session that has the lock: its unlock fails, or the reply to taking the
      lock is lost. */
  predicate Strands(s: State, a: Action)
    requires Enabled(s, a)
  {
    match a
    case LoseLockReply(_) => true
    case ClaimFails(n, unlocked) => !unlocked
    case Heartbeat(n, unlocked) => !unlocked && !Names(s.lease, n, s.leaders[n].epoch)
    case Resign(n, _, unlocked) => !unlocked && s.leaders[n].conn.Live?
    case _ => false
  }

  /** From a lock in use, exactly these steps strand it, and no other step does worse. */
  lemma StrandsExactly(s: State, a: Action)
    requires SessionsOk(s) && LockInUse(s) && Enabled(s, a)
    ensures Stranded(Step(s, a)) <==> Strands(s, a)
    ensures LockInUse(Step(s, a)) <==> !Strands(s, a)
  {
  }

  /** So in a run without such steps a lock is never stranded: it is free, or its node leads
      or campaigns. */
  lemma {:induction false} NeverStranded(states: seq<State>, actions: seq<Action>, n: nat)
    requires IsRun(states, actions) && n < |states|
    requires forall k :: 0 <= k < n ==> !Strands(states[k], actions[k])
    ensures LockInUse(states[n])
  {
    if n > 0 {
      NeverStranded(states, actions, n - 1);
      RunOk(states, actions, n - 1);
      StrandsExactly(states[n - 1], actions[n - 1]);
    }
  }

  /** The lock stays with a session of `n`'s pool, once more while that leads. */
  predicate StaysWith(s: State, n: NodeId) {
    s.lock.Some? && s.lock.value.node == n && (s.lock.value.leading ==> s.lock.value.depth > 1)
  }

  lemma StepStaysWith(s: State, a: Action, n: NodeId)
    requires SessionsOk(s) && StaysWith(s, n) && Enabled(s, a) && !a.ClosePooled? && !a.Promote? && !a.LoseConn?
    ensures StaysWith(Step(s, a), n)
  {
  }

  lemma {:induction false} RunStaysWith(states: seq<State>, actions: seq<Action>, m: nat, n: nat)
    requires IsRun(states, actions) && m <= n < |states| && Stranded(states[m])
    requires forall k :: m <= k < n ==> !actions[k].ClosePooled? && !actions[k].Promote? && !actions[k].LoseConn?
    ensures StaysWith(states[n], states[m].lock.value.node)
  {
    if m < n {
      RunStaysWith(states, actions, m, n - 1);
      RunOk(states, actions, n - 1);
      StepStaysWith(states[n - 1], actions[n - 1], states[m].lock.value.node);
    }
  }

  /** Once the lock is stranded only the node whose pool has its session can lead, however
      often that node resigns, until the session is closed or the primary changes. */
  lemma StrandedKeepsOut(states: seq<State>, actions: seq<Action>, m: nat, n: nat, x: NodeId)
    requires IsRun(states, actions) && m <= n < |states| && Stranded(states[m])
    requires forall k :: m <= k < n ==> !actions[k].ClosePooled? && !actions[k].Promote? && !actions[k].LoseConn?
    requires x in states[n].leaders && states[n].leaders[x].conn.Live?
    ensures x == states[m].lock.value.node
  {
    RunOk(states, actions, n);
    RunStaysWith(states, actions, m, n);
  }

  /** A leader resigns and its unlock fails: nobody leads, and no other node can take the
      lock. */
  lemma FailedUnlockStrands() returns (s: State)
    ensures Reachable(s) && Stranded(s) && s.lease.None?
    ensures forall n :: n in s.leaders ==> s.leaders[n] == Follower && !Enabled(s, TakeLock(n))
    ensures "b" in s.leaders && !Enabled(s, TakeLockAgain("b"))
  {
    s := TokenCaptured();
    ReachesNext(s, Resign("a", true, false));
    s := Step(s, Resign("a", true, false));
  }
}
