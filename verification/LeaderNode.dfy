/** The methods of `Leader` and the campaign of `Coordinator` in `ops/ha`: one node's
    goroutines at work on the shared state.  Every change is a step of LeaderLease, so
    what holds of all its runs holds however these methods interleave. */
module LeaderNode {
  import opened Options
  import opened LeaderLease

  /** How a statement on the leadership connection ends: answered, failed while the
      connection lives on, or failed because the connection is closed. */
  datatype Reply = Answered | Transient | Closed

  /** How the claim of the lease ends: it commits, it fails, or it commits and the reply is
      lost, which the node takes for a failure. */
  datatype Claim = Commits | Fails | ReplyLost

  /** How an attempt to acquire leadership fares: whether the server is in recovery, whether
      the pool hands out a session that already has the lock, whether the reply to taking the
      lock is lost, how the claim ends, and whether the unlock after a failed claim succeeds. */
  datatype Attempt = Attempt(inRecovery: bool, reuses: bool, lockReplyLost: bool, claim: Claim, unlocks: bool)

  /** How fenced work fares: no connection or transaction for it, the row lock not granted in
      time, an error of its own, or success. */
  datatype Work = NoTransaction | LockTimesOut | Errors | Succeeds

  datatype FenceResult = Applied | ErrFenced | ErrOther

  class LeaderNode {
    const id: NodeId
    var s: State
    var wasLeader: bool

    constructor (id: NodeId, s: State)
      ensures this.id == id && this.s == s && !wasLeader
    {
      this.id := id;
      this.s := s;
      this.wasLeader := false;
    }

    /** Between calls the node has a leadership connection and an epoch, or neither. */
    predicate Valid()
      reads this
    {
      && id in s.leaders
      && !s.leaders[id].conn.Campaigning?
      && (s.leaders[id].conn.NoConn? <==> s.leaders[id] == Follower)
    }

    predicate Connected()
      requires Valid()
      reads this
    {
      !s.leaders[id].conn.NoConn?
    }

    predicate LeaseIsOurs()
      requires Valid()
      reads this
    {
      s.leaders[id].conn.Live? && Names(s.lease, id, s.leaders[id].epoch)
    }

    method Do(a: Action)
      requires Enabled(s, a)
      modifies `s
      ensures s == Step(old(s), a)
    {
      s := Step(s, a);
    }

    /** The session is gone, and its lock with it. */
    static function Dropped(s: State, n: NodeId): State {
      Unlock(s, n).(leaders := s.leaders[n := Follower])
    }

    /** The lease as a claim of it leaves it. */
    ghost function Claimed(): LeaseRow
      reads this
    {
      LeaseRow(id, NextEpoch(s.lease), s.tenures + 1)
    }

    predicate CanLock(a: Attempt)
      reads this
    {
      !a.inRecovery && (s.lock.None? || (a.reuses && Pooled(s, id)))
    }

    /** Takes the lock and the lease, in that order.  An attempt that fails leaves everything as
        it was, with three exceptions: a claim whose reply is lost has taken the lease row, and
        its session is gone; a lock whose reply is lost, or whose unlock fails, stays with a
        session in the pool.  A node that has a connection is told that it leads, whatever has
        become of that connection. */
    method TryAcquire(a: Attempt) returns (leads: bool)
      requires Valid()
      modifies `s
      ensures Valid()
      ensures leads <==> old(Connected()) || (old(CanLock(a) && s.rowLock.None?) && !a.lockReplyLost && a.claim == Commits)
      ensures old(Connected()) || !old(CanLock(a)) ==> s == old(s)
      ensures !leads && old(CanLock(a)) && a.lockReplyLost ==>
        s == old(s).(lock := Some(Session(id, false, old(Depth(s.lock)) + 1)))
      ensures !leads && old(CanLock(a)) && !a.lockReplyLost && (a.claim == Fails || old(s.rowLock.Some?)) ==>
        s == old(s).(lock := BackInPool(id, old(Depth(s.lock)) + if a.unlocks then 0 else 1))
      ensures !leads && old(CanLock(a) && s.rowLock.None?) && !a.lockReplyLost && a.claim == ReplyLost ==>
        s == old(s).(lease := Some(old(Claimed())), lock := None, tenures := old(s.tenures) + 1)
      ensures leads && !old(Connected()) ==>
        s == old(s).(lease := Some(old(Claimed())), lock := Some(Session(id, true, old(Depth(s.lock)) + 1)), tenures := old(s.tenures) + 1,
                     leaders := old(s.leaders)[id := Leader(Live, old(Claimed()).epoch, old(Claimed()).tenure)])
    {
      if !s.leaders[id].conn.NoConn? {
        return true;
      }
      if a.inRecovery || (s.lock.Some? && !(a.reuses && Pooled(s, id))) {
        return false;
      }
      if a.lockReplyLost {
        Do(LoseLockReply(id));
        return false;
      }
      Do(if s.lock.None? then TakeLock(id) else TakeLockAgain(id));
      leads := Claim(a.claim, a.unlocks);
      assert !leads ==> s.leaders == old(s.leaders);
    }

    /** The claim, with the lock taken: a claim cut short behind a fenced transaction fails like
        any other error. */
    method Claim(claim: Claim, unlocks: bool) returns (leads: bool)
      requires id in s.leaders && s.leaders[id] == Leader(Campaigning, 0, 0) && Holds(s, id)
      modifies `s
      ensures Valid()
      ensures leads <==> claim == Commits && old(s.rowLock.None?)
      ensures claim == Fails || old(s.rowLock.Some?) ==> s == Release(old(s), id, unlocks)
      ensures claim == ReplyLost && old(s.rowLock.None?) ==>
        s == Dropped(old(s), id).(lease := Some(old(Claimed())), tenures := old(s.tenures) + 1)
      ensures leads ==>
        s == old(s).(lease := Some(old(Claimed())), tenures := old(s.tenures) + 1,
                     leaders := old(s.leaders)[id := Leader(Live, old(Claimed()).epoch, old(Claimed()).tenure)])
    {
      if claim == Fails || s.rowLock.Some? {
        Do(ClaimFails(id, unlocks));
        return false;
      }
      Do(ClaimLease(id));
      if claim == ReplyLost {
        DropClosed();
        return false;
      }
      return true;
    }

    /** The server closed the connection: the lock is gone with it. */
    method DropClosed()
      requires Valid() && Connected()
      modifies `s
      ensures Valid() && s == Dropped(old(s), id)
    {
      if !s.leaders[id].conn.Lost? || Holds(s, id) {
        Do(LoseConn(id));
      }
      Do(StepDown(id));
      assert s.leaders == Dropped(old(s), id).leaders;
    }

    /** Steps down on a closed connection or a definite answer that the lock is gone, and
        on nothing else. */
    method IsLeader(reply: Reply, held: bool) returns (leads: bool)
      requires Valid()
      modifies `s
      ensures Valid()
      ensures leads <==> old(Connected()) && reply != Closed && (reply == Answered ==> held)
      ensures s == if leads || !old(Connected()) then old(s) else Dropped(old(s), id)
      ensures leads ==> Connected()
    {
      if s.leaders[id].conn.NoConn? {
        return false;
      }
      if reply == Closed || (reply == Answered && !held) {
        DropClosed();
        return false;
      }
      return true;
    }

    /** Steps down on a closed connection or when the lease row is no longer ours; an
        error on a live connection keeps leadership. */
    method Heartbeat(reply: Reply, unlocks: bool) returns (leads: bool)
      requires Valid()
      modifies `s
      ensures Valid()
      ensures leads <==> old(Connected()) && (reply == Transient || (reply == Answered && old(LeaseIsOurs())))
      ensures leads || !old(Connected()) ==> s == old(s)
      ensures !leads && old(Connected()) ==>
        s == if reply == Closed || old(s.leaders[id].conn.Lost?) then Dropped(old(s), id) else Release(old(s), id, unlocks)
      ensures leads ==> Connected()
    {
      if s.leaders[id].conn.NoConn? {
        return false;
      }
      if reply == Transient {
        return true;
      }
      if reply == Closed || s.leaders[id].conn.Lost? {
        DropClosed();
        return false;
      }
      Do(LeaderLease.Heartbeat(id, unlocks));
      return s.leaders[id].conn.Live?;
    }

    /** Runs work under the fence.  Nothing but the fence's own record changes, and the
        work is applied exactly when it succeeds and the lease row names this node at the
        epoch it holds. */
    method FenceExec(f: FenceId, work: Work) returns (r: FenceResult)
      requires Valid() && f !in s.fences
      modifies `s
      ensures Valid() && s == old(s).(fences := s.fences) && s.fences - {f} == old(s.fences)
      ensures r == Applied <==>
        work == Succeeds && old(s.rowLock.None? && s.leaders[id].epoch != 0 && Names(s.lease, id, s.leaders[id].epoch))
      ensures r == Applied <==> f in s.fences && s.fences[f].stage.Committed?
      ensures old(s.leaders[id].epoch == 0) ==> r == ErrFenced
      ensures r == ErrFenced && old(s.leaders[id].epoch != 0) ==> !old(Names(s.lease, id, s.leaders[id].epoch))
    {
      assert s.fences - {f} == s.fences;
      if s.leaders[id].epoch == 0 {
        return ErrFenced;
      }
      if work == NoTransaction {
        return ErrOther;
      }
      Do(Capture(id, f));
      // The check waits for another fenced transaction; it may not get the lock in time.
      if work == LockTimesOut || s.rowLock.Some? {
        return ErrOther;
      }
      Do(Check(f));
      if s.fences[f].stage.Fenced? {
        return ErrFenced;
      }
      if work == Errors {
        Do(Abort(f));
        return ErrOther;
      }
      Do(Commit(f));
      return Applied;
    }

    /** Gives leadership up.  The lease row is deleted only while it is still ours, and stays
        if the delete fails, whose error is ignored; so it does if its wait for a fenced
        transaction is cut short.  The connection goes in any case, and the lock exactly if the
        unlock succeeds on a session that took it once; an unlock that fails, its error ignored,
        leaves the lock with the session in the pool. */
    method Resign(deletes: bool, unlocks: bool)
      requires Valid()
      modifies `s
      ensures Valid() && !Connected()
      ensures !old(Connected()) ==> s == old(s)
      ensures old(Connected()) ==>
        s.lease == if deletes && old(s.rowLock.None? && LeaseIsOurs()) then None else old(s.lease)
      ensures old(Connected() && Holds(s, id) && Depth(s.lock) > 0) ==>
        && (s.lock.None? <==> unlocks && old(Depth(s.lock)) == 1)
        && (s.lock.Some? ==> Pooled(s, id) && Depth(s.lock) == old(Depth(s.lock)) - if unlocks then 1 else 0)
      ensures old(Connected() && !Holds(s, id)) ==> s.lock == old(s.lock)
    {
      if s.leaders[id].conn.NoConn? {
        return;
      }
      Do(LeaderLease.Resign(id, deletes && s.rowLock.None?, unlocks));
    }

    /** One campaign interval: OnElected and OnLost are called exactly when the cached
        view changes, a leader seen fenced by its heartbeat does not campaign again in
        the same interval, and a tick is launched whenever the view says leader. */
    method Campaign(probe: Reply, held: bool, beat: Reply, attempt: Attempt)
      returns (elected: bool, lost: bool, tick: bool)
      requires Valid() && (wasLeader ==> Connected())
      modifies this
      ensures Valid() && (wasLeader ==> Connected())
      ensures elected <==> !old(wasLeader) && wasLeader
      ensures lost <==> old(wasLeader) && !wasLeader
      ensures tick <==> wasLeader
      ensures lost && (probe == Transient || (probe == Answered && held)) ==>
        s == if beat == Closed || old(s.leaders[id].conn.Lost?) then Dropped(old(s), id) else Release(old(s), id, attempt.unlocks)
      ensures s.tenures != old(s.tenures) ==> attempt.claim == ReplyLost || (wasLeader && s.leaders[id].conn.Live?)
    {
      var prev, now := wasLeader, wasLeader;
      if now {
        now := IsLeader(probe, held);
        if now {
          var beating := Heartbeat(beat, attempt.unlocks);
          if !beating {
            wasLeader := false;
            return false, true, false;
          }
        }
      }
      if !now {
        now := TryAcquire(attempt);
      }
      wasLeader := now;
      elected, lost, tick := now && !prev, !now && prev, now;
    }

    /** Shutdown, after the ticks have ended: resign. */
    method Shutdown(deletes: bool, unlocks: bool) returns (lost: bool)
      requires Valid()
      modifies this
      ensures lost == old(wasLeader) && !wasLeader
      ensures Valid() && !Connected()
    {
      lost := wasLeader;
      wasLeader := false;
      Resign(deletes, unlocks);
    }
  }
}
