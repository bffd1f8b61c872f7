/** The outbound queue of `mailflow/queue`: what the tables hold about one message
  and what each transaction does to it.

  `Facts` collects the `queue` row, the `queue_log` entries and the linked
  `outbound_deliveries` status of one queue id.  Every transaction of the worker
  and of the admin operations acts on one id at a time, or on several ids one after
  the other, so its effect is a function on `Facts`. */
module QueueFacts {
  import opened Options

  type NodeId = string
  type QId = nat
  type Time = int

  datatype Lease = Unleased | Leased(holder: NodeId, until: Time)

  /** A row of `queue`: the mutable projection. */
  datatype Row = Row(
    linked: bool,            // message_id is set: outbound_deliveries follows along
    maxAttempts: int,
    createdAt: Time,
    attempts: int,
    nextAttempt: Time,
    lease: Lease,
    hold: bool,
    delayedDsn: bool)

  datatype Kind =
    | Enqueued | Attempt | Delivered | Failed | Dropped | Rescheduled
    | Delayed | Held | Unheld | Scheduled | RequireTls
  {
    predicate Terminal() { Delivered? || Failed? || Dropped? }
  }

  /** An entry of `queue_log`; only terminal entries carry a retention horizon. */
  datatype Entry = Entry(kind: Kind, keepUntil: Option<Time>)

  datatype Status = Queued | Delivering | Retrying | StatusDelivered | StatusFailed {
    predicate Terminal() { StatusDelivered? || StatusFailed? }
  }

  datatype Facts = Facts(row: Option<Row>, log: seq<Entry>, status: Option<Status>)

  // ---------------------------------------------------------------------------
  // Transactions of one message
  // ---------------------------------------------------------------------------

  function Note(kind: Kind): Entry {
    Entry(kind, None)
  }

  function SetStatus(f: Facts, status: Status): Facts {
    if f.status.Some? then f.(status := Some(status)) else f
  }

  function EnqueueTx(linked: bool, maxAttempts: int, now: Time, notBefore: Option<Time>, hold: bool): Facts {
    Facts(Some(Row(linked, maxAttempts, now, 0, if notBefore.Some? then notBefore.value else now,
                   Unleased, hold, false)),
          [Note(Enqueued)],
          if linked then Some(Queued) else None)
  }

  /** A message is due when its time has come, it is not held, and no lease holds it. */
  predicate Due(row: Row, now: Time) {
    row.nextAttempt <= now && !row.hold && (row.lease.Leased? ==> row.lease.until < now)
  }

  function ClaimRow(row: Row, node: NodeId, now: Time, lease: Time): Row {
    row.(lease := Leased(node, now + lease))
  }

  predicate StillHolds(f: Facts, node: NodeId, now: Time) {
    f.row.Some? && f.row.value.lease.Leased? && f.row.value.lease.holder == node && f.row.value.lease.until > now
  }

  predicate LeasedTo(f: Facts, node: NodeId) {
    f.row.Some? && f.row.value.lease.Leased? && f.row.value.lease.holder == node
  }

  /** Renews the lease and records that an attempt starts, if the lease still holds. */
  function Renew(f: Facts, node: NodeId, now: Time, lease: Time): Facts {
    if StillHolds(f, node, now) then
      var row := f.row.value;
      var renewed := f.(row := Some(row.(lease := Leased(node, now + lease), attempts := row.attempts + 1)));
      if row.linked then SetStatus(renewed, Delivering) else renewed
    else f
  }

  /** Removes the row and appends the terminal entry, if this node still leases it. */
  function Retire(f: Facts, node: NodeId, success: bool, keepUntil: Time): Facts {
    if LeasedTo(f, node) then
      Close(f, if success then Delivered else Failed, keepUntil)
    else f
  }

  /** The terminal step shared by retire, Drop and Fail. */
  function Close(f: Facts, kind: Kind, keepUntil: Time): Facts
    requires f.row.Some?
  {
    var closed := Facts(None, f.log + [Entry(kind, Some(keepUntil))], f.status);
    if f.row.value.linked then SetStatus(closed, if kind.Delivered? then StatusDelivered else StatusFailed)
    else closed
  }

  predicate FiresDelay(f: Facts, wantDelay: bool)
    requires f.row.Some?
  {
    wantDelay && !f.row.value.delayedDsn
  }

  /** Releases the lease and backs off, if this node still leases the row. */
  function Reschedule(f: Facts, node: NodeId, nextAttempt: Time, wantDelay: bool): Facts {
    if LeasedTo(f, node) then
      var row := f.row.value;
      var back := f.(row := Some(row.(lease := Unleased, nextAttempt := nextAttempt,
                                      delayedDsn := row.delayedDsn || wantDelay)),
                     log := f.log + [Note(Rescheduled)]
                                  + if FiresDelay(f, wantDelay) then [Note(Delayed)] else []);
      if row.linked then SetStatus(back, Retrying) else back
    else f
  }

  function RecordResult(f: Facts): Facts {
    f.(log := f.log + [Note(Attempt)])
  }

  /** Admin operations on one matching row. */
  datatype AdminOp =
    | Kick
    | Schedule(delta: Time)
    | ScheduleAt(at: Time)
    | HoldSet(hold: bool)
    | RequireTlsSet
    | HoldRule
    | Drop(keepUntil: Time)

  function AdminKind(op: AdminOp): Kind
    requires !op.HoldRule?
  {
    match op
    case Kick => Scheduled
    case Schedule(_) => Scheduled
    case ScheduleAt(_) => Scheduled
    case HoldSet(h) => if h then Held else Unheld
    case RequireTlsSet => RequireTls
    case Drop(_) => Dropped
  }

  /** Which rows the operation's WHERE clause selects, beyond the caller's filter. */
  predicate AdminSelects(op: AdminOp, row: Row) {
    match op
    case Kick => row.lease.Unleased?
    case Schedule(_) => row.lease.Unleased?
    case ScheduleAt(_) => row.lease.Unleased?
    case HoldRule => !row.hold
    case _ => true
  }

  function AdminRow(op: AdminOp, row: Row, now: Time): Row {
    match op
    case Kick => row.(nextAttempt := now, hold := false)
    case Schedule(d) => row.(nextAttempt := row.nextAttempt + d)
    case ScheduleAt(t) => row.(nextAttempt := t)
    case HoldSet(h) => row.(hold := h)
    case HoldRule => row.(hold := true)
    case _ => row
  }

  function Admin(f: Facts, op: AdminOp, now: Time): Facts {
    if f.row.None? || !AdminSelects(op, f.row.value) then f
    else if op.Drop? then Close(f, Dropped, op.keepUntil)
    else if op.HoldRule? then f.(row := Some(AdminRow(op, f.row.value, now)))
    else f.(row := Some(AdminRow(op, f.row.value, now)), log := f.log + [Note(AdminKind(op))])
  }

  /** The retention sweep deletes the whole log once a horizon has passed. */
  predicate Expired(f: Facts, now: Time) {
    exists e :: e in f.log && e.keepUntil.Some? && e.keepUntil.value < now
  }

  function Sweep(f: Facts, now: Time): Facts {
    if Expired(f, now) then f.(log := []) else f
  }

  // ---------------------------------------------------------------------------
  // Delays
  // ---------------------------------------------------------------------------

  const SECOND: int := 1_000_000_000

  /** How long one delivery may run: the lease less a fifth of it, at least a second;
      a lease of a second or less leaves no margin at all. */
  function DeliveryTimeout(lease: nat): nat {
    var margin := if lease / 5 < SECOND then SECOND else lease / 5;
    if margin >= lease then lease else lease - margin
  }

  /** The slack the timeout leaves, for every lease. */
  lemma DeliveryMargin(lease: nat)
    ensures DeliveryTimeout(lease) <= lease
    ensures DeliveryTimeout(lease) == lease <==> lease <= SECOND
    ensures lease > SECOND ==> lease - DeliveryTimeout(lease) >= SECOND && 5 * (lease - DeliveryTimeout(lease)) >= lease - 4
  {
  }

  /** `base` doubled `n` times. */
  function Doubled(base: nat, n: nat): nat {
    if n == 0 then base else 2 * Doubled(base, n - 1)
  }

  function Min(a: int, b: int): int {
    if a < b then a else b
  }

  function Doublings(attempts: int): nat {
    if attempts <= 1 then 0 else Min(attempts - 1, 9)
  }

  /** The retry delay before jitter: base doubled per failed attempt, at most nine
      times, and never above the cap (a cap of zero or less is no cap). */
  function BackoffSpec(base: nat, attempts: int, maxCap: int): int {
    var d := Doubled(base, Doublings(attempts));
    if maxCap > 0 then Min(d, maxCap) else d
  }

  method BackoffFor(base: nat, attempts: int, maxCap: int) returns (d: int)
    ensures d == BackoffSpec(base, attempts, maxCap)
  {
    d := base;
    var i := 1;
    NineDoublings(base);
    while i < attempts && d < 512 * base
      invariant 1 <= i <= 10 && (attempts >= 1 ==> i <= attempts) && (attempts < 1 ==> i == 1)
      invariant d == Doubled(base, i - 1)
      decreases attempts - i
    {
      assert i < 10;
      d := d * 2;
      if maxCap > 0 && d >= maxCap {
        DoubledGrows(base, i, Doublings(attempts));
        d := maxCap;
        return;
      }
      i := i + 1;
    }
    assert base > 0 ==> i - 1 == Doublings(attempts) by {
      if base > 0 && i < attempts && i < 10 { DoubledStrict(base, i - 1, 9); }
    }
    if base == 0 { DoubledZero(Doublings(attempts)); DoubledZero(i - 1); }
    if maxCap > 0 && d > maxCap {
      d := maxCap;
    }
  }

  lemma NineDoublings(base: nat)
    ensures Doubled(base, 9) == 512 * base
  {
    assert Doubled(base, 1) == 2 * base;
    assert Doubled(base, 2) == 4 * base;
    assert Doubled(base, 4) == 16 * base;
    assert Doubled(base, 6) == 64 * base;
    assert Doubled(base, 8) == 256 * base;
  }

  lemma {:induction false} DoubledZero(n: nat)
    ensures Doubled(0, n) == 0
  {
    if n > 0 { DoubledZero(n - 1); }
  }

  lemma {:induction false} DoubledGrows(base: nat, a: nat, b: nat)
    requires a <= b
    ensures Doubled(base, a) <= Doubled(base, b)
    decreases b - a
  {
    if a < b { DoubledGrows(base, a, b - 1); }
  }

  lemma DoubledStrict(base: nat, a: nat, b: nat)
    requires a < b && base > 0
    ensures Doubled(base, a) < Doubled(base, b)
  {
    DoubledGrows(base, 0, b - 1);
    DoubledGrows(base, a, b - 1);
  }

  /** A later retry never waits less than an earlier one. */
  lemma BackoffGrows(base: nat, a: int, b: int, maxCap: int)
    requires a <= b
    ensures BackoffSpec(base, a, maxCap) <= BackoffSpec(base, b, maxCap) <= 512 * base
    ensures maxCap > 0 ==> BackoffSpec(base, b, maxCap) <= maxCap
  {
    DoubledGrows(base, Doublings(a), Doublings(b));
    DoubledGrows(base, Doublings(b), 9);
    NineDoublings(base);
  }
}
