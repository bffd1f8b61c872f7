/** The queue's transactions as they run against its three tables.

  Each method is one SQL transaction of `mailflow/queue`; its contract ties the new
  tables to the functions of `QueueFacts`, message by message. */
module QueueStore {
  import opened Options
  import opened Sets
  import opened QueueFacts

  /** A log entry about a message; a terminal admin entry fails its linked status. */
  function Noted(f: Facts, linked: bool, entry: Entry): Facts {
    var noted := f.(log := f.log + [entry]);
    if entry.kind.Terminal() && linked then SetStatus(noted, StatusFailed) else noted
  }

  class QueueStore {
    var queue: map<QId, Row>
    /** `queue_log`, grouped by queue id in append order. */
    var log: map<QId, seq<Entry>>
    var deliveries: map<QId, Status>
    /** The identity column: ids are never handed out twice. */
    var nextId: QId

    constructor ()
      ensures Valid() && queue == map[] && log == map[] && deliveries == map[]
    {
      queue, log, deliveries, nextId := map[], map[], map[], 0;
    }

    ghost predicate Valid()
      reads this
    {
      && (forall id :: id in queue ==> id < nextId)
      && (forall id :: id in log ==> id < nextId)
      && (forall id :: id in deliveries ==> id < nextId)
    }

    /** What the tables hold about one message. */
    function View(id: QId): Facts
      reads this
    {
      Facts(if id in queue then Some(queue[id]) else None,
            if id in log then log[id] else [],
            if id in deliveries then Some(deliveries[id]) else None)
    }

    /** Only this message changed, and to these facts. */
    twostate predicate OnlyChanged(id: QId, f: Facts)
      reads this
    {
      View(id) == f && forall x :: x != id ==> View(x) == old(View(x))
    }

    method AppendLog(id: QId, e: Entry)
      requires Valid() && id < nextId
      modifies `log
      ensures Valid() && log == old(log)[id := old(View(id)).log + [e]]
    {
      log := log[id := (if id in log then log[id] else []) + [e]];
    }

    /** `UPDATE outbound_deliveries SET status=... WHERE queue_id=id`. */
    method UpdateStatus(id: QId, linked: bool, status: Status)
      requires Valid()
      modifies `deliveries
      ensures Valid()
      ensures deliveries == if linked && id in old(deliveries) then old(deliveries)[id := status] else old(deliveries)
    {
      if linked && id in deliveries { deliveries := deliveries[id := status]; }
    }

    method Enqueue(linked: bool, maxAttempts: int, now: Time, notBefore: Option<Time>, hold: bool) returns (id: QId)
      requires Valid()
      modifies this
      ensures Valid() && id == old(nextId) && nextId == id + 1
      ensures OnlyChanged(id, EnqueueTx(linked, maxAttempts, now, notBefore, hold))
    {
      id := nextId;
      nextId := nextId + 1;
      queue := queue[id := Row(linked, maxAttempts, now, 0, if notBefore.Some? then notBefore.value else now,
                               Unleased, hold, false)];
      if linked { deliveries := deliveries[id := Queued]; }
      AppendLog(id, Note(Enqueued));
    }

    /** Up to `limit` due rows that nobody has locked, earliest first. */
    method SelectDue(now: Time, limit: nat, locked: set<QId>) returns (out: seq<QId>)
      ensures forall i, j :: 0 <= i < j < |out| ==> out[i] != out[j]
      ensures forall id :: id in out ==> id in queue && id !in locked && Due(queue[id], now)
      ensures |out| <= limit
      ensures forall id :: id in queue && id !in locked && Due(queue[id], now) && id !in out ==>
                |out| == limit && forall x :: x in out ==> queue[x].nextAttempt <= queue[id].nextAttempt
    {
      var left := set id | id in queue && id !in locked && Due(queue[id], now);
      out := [];
      while left != {} && |out| < limit
        invariant forall id :: id in left || id in out <==> id in queue && id !in locked && Due(queue[id], now)
        invariant forall id :: id in left ==> id !in out
        invariant forall i, j :: 0 <= i < j < |out| ==> out[i] != out[j]
        invariant forall x, y :: x in out && y in left ==> queue[x].nextAttempt <= queue[y].nextAttempt
        invariant |out| <= limit
        decreases |left|
      {
        var first := Earliest(left);
        out, left := out + [first], left - {first};
      }
    }

    /** Leases them to this node. */
    method Claim(node: NodeId, now: Time, lease: Time, limit: nat, locked: set<QId>) returns (out: seq<QId>)
      requires Valid()
      modifies `queue
      ensures Valid()
      ensures forall i, j :: 0 <= i < j < |out| ==> out[i] != out[j]
      ensures forall id :: id in out ==> id in old(queue) && id !in locked && Due(old(queue)[id], now)
      ensures |out| <= limit
      ensures forall id :: id in old(queue) && id !in locked && Due(old(queue)[id], now) && id !in out ==>
                |out| == limit && forall x :: x in out ==> old(queue)[x].nextAttempt <= old(queue)[id].nextAttempt
      ensures queue == map id | id in old(queue) ::
                         if id in out then ClaimRow(old(queue)[id], node, now, lease) else old(queue)[id]
    {
      out := SelectDue(now, limit, locked);
      queue := map id | id in queue :: if id in out then ClaimRow(queue[id], node, now, lease) else queue[id];
    }

    /** The id whose next attempt comes first. */
    method Earliest(ids: set<QId>) returns (first: QId)
      requires ids != {} && forall id :: id in ids ==> id in queue
      ensures first in ids && forall id :: id in ids ==> queue[first].nextAttempt <= queue[id].nextAttempt
    {
      ghost var _ := Pick(ids);
      first :| first in ids;
      var rest := ids - {first};
      while rest != {}
        invariant first in ids && rest <= ids
        invariant forall id :: id in ids && id !in rest ==> queue[first].nextAttempt <= queue[id].nextAttempt
        decreases |rest|
      {
        ghost var _ := Pick(rest);
        var id :| id in rest;
        if queue[id].nextAttempt < queue[first].nextAttempt { first := id; }
        rest := rest - {id};
      }
    }

    method RenewLease(node: NodeId, id: QId, now: Time, lease: Time) returns (held: bool, attempts: int)
      requires Valid()
      modifies `queue, `deliveries
      ensures Valid() && OnlyChanged(id, Renew(old(View(id)), node, now, lease))
      ensures held == StillHolds(old(View(id)), node, now)
      ensures held ==> id in queue && attempts == queue[id].attempts
    {
      held, attempts := false, 0;
      if id in queue {
        var row := queue[id];
        if row.lease.Leased? && row.lease.holder == node && row.lease.until > now {
          queue := queue[id := row.(lease := Leased(node, now + lease), attempts := row.attempts + 1)];
          held, attempts := true, row.attempts + 1;
          UpdateStatus(id, row.linked, Delivering);
        }
      }
    }

    method RecordAttempt(id: QId)
      requires Valid() && id < nextId
      modifies `log
      ensures Valid() && OnlyChanged(id, RecordResult(old(View(id))))
    {
      AppendLog(id, Note(Attempt));
    }

    method RetireMessage(node: NodeId, id: QId, success: bool, keepUntil: Time) returns (acted: bool)
      requires Valid()
      modifies `queue, `log, `deliveries
      ensures Valid() && OnlyChanged(id, Retire(old(View(id)), node, success, keepUntil))
      ensures acted == LeasedTo(old(View(id)), node)
    {
      acted := id in queue && queue[id].lease.Leased? && queue[id].lease.holder == node;
      if acted {
        var row := queue[id];
        queue := queue - {id};
        AppendLog(id, Entry(if success then Delivered else Failed, Some(keepUntil)));
        UpdateStatus(id, row.linked, if success then StatusDelivered else StatusFailed);
      }
    }

    method RescheduleMessage(node: NodeId, id: QId, nextAttempt: Time, wantDelay: bool) returns (acted: bool, fired: bool)
      requires Valid()
      modifies `queue, `log, `deliveries
      ensures Valid() && OnlyChanged(id, Reschedule(old(View(id)), node, nextAttempt, wantDelay))
      ensures acted == LeasedTo(old(View(id)), node)
      ensures fired == (acted && FiresDelay(old(View(id)), wantDelay))
    {
      acted := id in queue && queue[id].lease.Leased? && queue[id].lease.holder == node;
      fired := false;
      if acted {
        var row := queue[id];
        queue := queue[id := row.(lease := Unleased, nextAttempt := nextAttempt, delayedDsn := row.delayedDsn || wantDelay)];
        UpdateStatus(id, row.linked, Retrying);
        fired := wantDelay && !row.delayedDsn;
        AppendLog(id, Note(Rescheduled));
        if fired { AppendLog(id, Note(Delayed)); }
      }
    }

    method NoteOne(id: QId, linked: bool, entry: Entry)
      requires Valid() && id < nextId
      modifies `log, `deliveries
      ensures Valid() && OnlyChanged(id, Noted(old(View(id)), linked, entry))
    {
      AppendLog(id, entry);
      if entry.kind.Terminal() { UpdateStatus(id, linked, StatusFailed); }
    }

    /** One log entry (and, when terminal, one status) per affected row. */
    method NoteEach(affected: set<QId>, linked: set<QId>, entry: Entry)
      requires Valid() && forall id :: id in affected ==> id < nextId
      modifies `log, `deliveries
      ensures Valid()
      ensures forall id :: View(id) ==
                if id in affected then Noted(old(View(id)), id in linked, entry) else old(View(id))
    {
      var todo := affected;
      while todo != {}
        invariant Valid() && todo <= affected
        invariant forall id :: View(id) ==
                    if id in affected && id !in todo then Noted(old(View(id)), id in linked, entry) else old(View(id))
        decreases |todo|
      {
        ghost var _ := Pick(todo);
        var id :| id in todo;
        NoteOne(id, id in linked, entry);
        todo := todo - {id};
      }
    }

    /** An admin operation over every matching row: one statement for the rows, then
        the log. */
    method MutateLog(matching: set<QId>, op: AdminOp, now: Time) returns (affected: set<QId>)
      requires Valid() && !op.HoldRule?
      modifies `queue, `log, `deliveries
      ensures Valid()
      ensures affected == set id | id in old(queue) && id in matching && AdminSelects(op, old(queue)[id])
      ensures forall id :: View(id) == if id in matching then Admin(old(View(id)), op, now) else old(View(id))
    {
      affected := set id | id in queue && id in matching && AdminSelects(op, queue[id]);
      if op.Drop? {
        DropRows(affected, op.keepUntil);
      } else {
        UpdateRows(affected, op, now);
      }
    }

    method DropRows(affected: set<QId>, keepUntil: Time)
      requires Valid() && forall id :: id in affected ==> id in queue
      modifies `queue, `log, `deliveries
      ensures Valid()
      ensures forall id :: id !in affected ==> View(id) == old(View(id))
      ensures forall id :: id in affected ==> View(id) == Close(old(View(id)), Dropped, keepUntil)
    {
      var linked := set id | id in queue && queue[id].linked;
      queue := queue - affected;
      NoteEach(affected, linked, Entry(Dropped, Some(keepUntil)));
    }

    method UpdateRows(affected: set<QId>, op: AdminOp, now: Time)
      requires Valid() && !op.HoldRule? && !op.Drop?
      requires forall id :: id in affected ==> id in queue && AdminSelects(op, queue[id])
      modifies `queue, `log, `deliveries
      ensures Valid()
      ensures forall id :: id !in affected ==> View(id) == old(View(id))
      ensures forall id :: id in affected ==> View(id) == Admin(old(View(id)), op, now)
    {
      queue := map id | id in queue :: if id in affected then AdminRow(op, queue[id], now) else queue[id];
      NoteEach(affected, {}, Note(AdminKind(op)));
    }

    /** The retention sweep over the whole log. */
    method CleanupRetired(now: Time)
      requires Valid()
      modifies `log
      ensures Valid() && forall id :: View(id) == Sweep(old(View(id)), now)
    {
      var expired := set id | id in log && Expired(View(id), now);
      log := log - expired;
    }
  }
}
