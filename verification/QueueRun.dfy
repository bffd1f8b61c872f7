/** The outbound queue as a system: any number of worker nodes, crashes, lost
  replies, admin operations and the retention sweep, interleaved transaction by
  transaction over one database clock. */
module QueueRun {
  import opened Options
  import opened QueueFacts

  /** `Worker.lease()`: a lease of zero stands for the default, so it is never zero. */
  type Positive = n: nat | n > 0 witness 1

  /** One deployment.  `rtt` bounds the time from the commit of a lease renewal to
      the start of the delivery, `skew` the drift of a node's delivery timer. */
  datatype Config = Config(
    lease: Positive, rtt: nat, skew: nat, retiredKeep: nat,
    delayThreshold: int, onFailed: bool, onDelayed: bool)

  /** A message as `claim` returned it; `attempts` is updated by the renewal. */
  datatype Claimed = Claimed(id: QId, maxAttempts: int, attempts: int)

  datatype Verdict = Accepted | Permanent | Transient

  /** Where a node is in its serial RunOnce. */
  datatype Phase =
    | Claiming(batch: seq<Claimed>)
    | Working(batch: seq<Claimed>)
    | Renewed(m: Claimed, at: Time, batch: seq<Claimed>)
    | Sending(m: Claimed, deadline: Time, batch: seq<Claimed>)
    | Sent(m: Claimed, verdict: Verdict, batch: seq<Claimed>)
    | Logged(m: Claimed, verdict: Verdict, batch: seq<Claimed>)
    | FailHook(m: Claimed, batch: seq<Claimed>)
    | DelayHook(m: Claimed, batch: seq<Claimed>)
  {
    /** An attempt is under way: renewed, and not yet retired or rescheduled. */
    predicate Attempting() { Renewed? || Sending? || Sent? || Logged? }
  }

  datatype Owner = Nobody | Node(node: NodeId) | Operator

  /** What happened to a message so far, beyond what the tables still hold. */
  datatype Past = Past(
    linked: bool,
    maxAttempts: int,
    history: seq<Kind>,      // every log entry ever appended
    starts: nat,             // committed lease renewals
    settled: nat,            // of those, how many reached a committed retire or reschedule
    calls: multiset<int>,    // attempt numbers Deliver was called with
    failOwner: Owner, failHooks: nat,
    delayOwner: Owner, delayHooks: nat)

  datatype Item = Item(facts: Facts, past: Past)

  datatype State = State(
    now: Time,
    items: map<QId, Item>,
    phases: map<NodeId, Phase>,
    operatorHooks: set<QId>)   // admin Fail calls that committed and owe a hook

  /** Whether a transaction ran, and whether its caller learned so. */
  datatype Reply = Answered | ReplyLost | NotRun

  datatype Action =
    | Enqueue(id: QId, linked: bool, maxAttempts: int, notBefore: Option<Time>, held: bool)
    | Claim(node: NodeId, id: QId)
    | Begin(node: NodeId)
    | RenewLease(node: NodeId, reply: Reply)
    | StartDelivery(node: NodeId)
    | EndDelivery(node: NodeId, verdict: Verdict)
    | Record(node: NodeId, reply: Reply)
    | Settle(node: NodeId, aged: bool, delay: Time, reply: Reply)
    | FireHook(node: NodeId)
    | EndRun(node: NodeId)
    | Crash(node: NodeId)
    | AdminDo(id: QId, op: AdminOp)
    | AdminFail(id: QId, hook: bool)
    | AdminHook(id: QId)
    | AdminCrash
    | SweepLog(id: QId)
    | Tick(t: Time)

  function KindsOf(log: seq<Entry>): seq<Kind> {
    seq(|log|, i requires 0 <= i < |log| => log[i].kind)
  }

  /** New facts about a message, remembering the appended log entries. */
  function Touch(it: Item, f: Facts): Item
    requires |it.facts.log| <= |f.log|
  {
    Item(f, it.past.(history := it.past.history + KindsOf(f.log[|it.facts.log|..])))
  }

  predicate Enabled(cfg: Config, s: State, a: Action) {
    match a
    case Enqueue(id, _, _, _, _) => id !in s.items
    case Claim(n, id) =>
      && n in s.phases && s.phases[n].Claiming? && id in s.items
      && s.items[id].facts.row.Some? && Due(s.items[id].facts.row.value, s.now)
    case Begin(n) => n in s.phases && s.phases[n].Claiming?
    case RenewLease(n, _) =>
      n in s.phases && s.phases[n].Working? && s.phases[n].batch != [] && s.phases[n].batch[0].id in s.items
    case StartDelivery(n) =>
      n in s.phases && s.phases[n].Renewed? && s.now <= s.phases[n].at + cfg.rtt && s.phases[n].m.id in s.items
    case EndDelivery(n, _) => n in s.phases && s.phases[n].Sending?
    case Record(n, _) => n in s.phases && s.phases[n].Sent? && s.phases[n].m.id in s.items
    case Settle(n, _, _, _) => n in s.phases && s.phases[n].Logged? && s.phases[n].m.id in s.items
    case FireHook(n) =>
      n in s.phases && (s.phases[n].FailHook? || s.phases[n].DelayHook?) && s.phases[n].m.id in s.items
    case EndRun(n) => n in s.phases && s.phases[n].Working? && s.phases[n].batch == []
    case Crash(n) => n in s.phases
    case AdminDo(id, _) => id in s.items
    case AdminFail(id, _) => id in s.items
    case AdminHook(id) => id in s.operatorHooks && id in s.items
    case AdminCrash => true
    case SweepLog(id) => id in s.items
    // Deliveries stop at their deadline: time does not pass it while one runs.
    case Tick(t) =>
      s.now <= t && forall n :: n in s.phases && s.phases[n].Sending? ==> t <= s.phases[n].deadline
  }

  function WithItem(s: State, id: QId, it: Item): State {
    s.(items := s.items[id := it])
  }

  function WithPhase(s: State, n: NodeId, p: Phase): State {
    s.(phases := s.phases[n := p])
  }

  function RenewItem(cfg: Config, it: Item, n: NodeId, now: Time): Item {
    var renewed := Touch(it, Renew(it.facts, n, now, cfg.lease));
    renewed.(past := renewed.past.(starts := it.past.starts + 1))
  }

  function DoRenew(cfg: Config, s: State, n: NodeId, reply: Reply): State
    requires Enabled(cfg, s, RenewLease(n, reply))
  {
    var c, rest := s.phases[n].batch[0], s.phases[n].batch[1..];
    var it := s.items[c.id];
    if reply.NotRun? || !StillHolds(it.facts, n, s.now) then WithPhase(s, n, Working(rest)) else
      var it' := RenewItem(cfg, it, n, s.now);
      WithPhase(WithItem(s, c.id, it'), n,
                if reply.ReplyLost? then Working(rest)
                else Renewed(c.(attempts := it'.facts.row.value.attempts), s.now, rest))
  }

  predicate GivesUp(m: Claimed, verdict: Verdict, aged: bool) {
    verdict.Permanent? || aged || m.attempts >= m.maxAttempts
  }

  predicate WantsDelay(cfg: Config, m: Claimed) {
    cfg.onDelayed && cfg.delayThreshold > 0 && m.attempts >= cfg.delayThreshold
  }

  /** A committed retire or reschedule of the message a node attempts. */
  function SettleItem(cfg: Config, it: Item, n: NodeId, m: Claimed, verdict: Verdict, aged: bool,
                      now: Time, delay: Time): Item
    requires LeasedTo(it.facts, n)
  {
    var closes := verdict.Accepted? || GivesUp(m, verdict, aged);
    var facts := if closes then Retire(it.facts, n, verdict.Accepted?, now + cfg.retiredKeep)
                 else Reschedule(it.facts, n, now + delay, WantsDelay(cfg, m));
    var past := Touch(it, facts).past;
    Item(facts, past.(settled := it.past.settled + 1,
                      failOwner := if FailHookDue(cfg, m, verdict, aged) then Node(n) else it.past.failOwner,
                      delayOwner := if DelayHookDue(cfg, it, m, verdict, aged) then Node(n) else it.past.delayOwner))
  }

  predicate FailHookDue(cfg: Config, m: Claimed, verdict: Verdict, aged: bool) {
    !verdict.Accepted? && GivesUp(m, verdict, aged) && cfg.onFailed
  }

  predicate DelayHookDue(cfg: Config, it: Item, m: Claimed, verdict: Verdict, aged: bool)
    requires it.facts.row.Some?
  {
    !verdict.Accepted? && !GivesUp(m, verdict, aged) && FiresDelay(it.facts, WantsDelay(cfg, m))
  }

  /** Retires or reschedules the current message, as RunOnce decides. */
  function DoSettle(cfg: Config, s: State, n: NodeId, aged: bool, delay: Time, reply: Reply): State
    requires Enabled(cfg, s, Settle(n, aged, delay, reply))
  {
    var m, verdict, rest := s.phases[n].m, s.phases[n].verdict, s.phases[n].batch;
    var it := s.items[m.id];
    if reply.NotRun? || !LeasedTo(it.facts, n) then WithPhase(s, n, Working(rest)) else
      WithPhase(WithItem(s, m.id, SettleItem(cfg, it, n, m, verdict, aged, s.now, delay)), n,
                if reply.ReplyLost? then Working(rest)
                else if FailHookDue(cfg, m, verdict, aged) then FailHook(m, rest)
                else if DelayHookDue(cfg, it, m, verdict, aged) then DelayHook(m, rest)
                else Working(rest))
  }

  /** A failure or delay notice goes out. */
  function HookItem(it: Item, fail: bool): Item {
    if fail then Item(it.facts, it.past.(failHooks := it.past.failHooks + 1))
    else Item(it.facts, it.past.(delayHooks := it.past.delayHooks + 1))
  }

  function DoHook(s: State, n: NodeId): State
    requires n in s.phases && (s.phases[n].FailHook? || s.phases[n].DelayHook?) && s.phases[n].m.id in s.items
  {
    var id, rest := s.phases[n].m.id, s.phases[n].batch;
    var it := s.items[id];
    WithPhase(WithItem(s, id, HookItem(it, s.phases[n].FailHook?)), n, Working(rest))
  }

  function AdminFailItem(cfg: Config, it: Item, now: Time, hook: bool): Item
    requires it.facts.row.Some?
  {
    var touched := Touch(it, Close(it.facts, Failed, now + cfg.retiredKeep));
    touched.(past := touched.past.(failOwner := if hook then Operator else touched.past.failOwner))
  }

  function DoAdminFail(cfg: Config, s: State, id: QId, hook: bool): State
    requires id in s.items
  {
    if s.items[id].facts.row.None? then s else
      WithItem(s, id, AdminFailItem(cfg, s.items[id], s.now, hook))
        .(operatorHooks := if hook then s.operatorHooks + {id} else s.operatorHooks)
  }

  function DoEnqueue(s: State, id: QId, linked: bool, maxAttempts: int, notBefore: Option<Time>, held: bool): State {
    WithItem(s, id, Item(EnqueueTx(linked, maxAttempts, s.now, notBefore, held),
                         Past(linked, maxAttempts, [Enqueued], 0, 0, multiset{}, Nobody, 0, Nobody, 0)))
  }

  function DoClaim(cfg: Config, s: State, n: NodeId, id: QId): State
    requires Enabled(cfg, s, Claim(n, id))
  {
    var it := s.items[id];
    var row := it.facts.row.value;
    WithPhase(WithItem(s, id, it.(facts := it.facts.(row := Some(ClaimRow(row, n, s.now, cfg.lease))))),
              n, Claiming(s.phases[n].batch + [Claimed(id, row.maxAttempts, row.attempts)]))
  }

  function DoStart(cfg: Config, s: State, n: NodeId): State
    requires Enabled(cfg, s, StartDelivery(n))
  {
    var p := s.phases[n];
    var it := s.items[p.m.id];
    WithPhase(WithItem(s, p.m.id, it.(past := it.past.(calls := it.past.calls + multiset{p.m.attempts}))),
              n, Sending(p.m, s.now + DeliveryTimeout(cfg.lease) + cfg.skew, p.batch))
  }

  function DoRecord(cfg: Config, s: State, n: NodeId, reply: Reply): State
    requires Enabled(cfg, s, Record(n, reply))
  {
    var p := s.phases[n];
    var it := s.items[p.m.id];
    WithPhase(if reply.NotRun? then s else WithItem(s, p.m.id, Touch(it, RecordResult(it.facts))),
              n, Logged(p.m, p.verdict, p.batch))
  }

  function DoAdminHook(s: State, id: QId): State
    requires id in s.items
  {
    WithItem(s, id, HookItem(s.items[id], true)).(operatorHooks := s.operatorHooks - {id})
  }

  function DoAdmin(s: State, id: QId, op: AdminOp): State
    requires id in s.items
  {
    WithItem(s, id, Touch(s.items[id], Admin(s.items[id].facts, op, s.now)))
  }

  function DoSweep(s: State, id: QId): State
    requires id in s.items
  {
    WithItem(s, id, s.items[id].(facts := Sweep(s.items[id].facts, s.now)))
  }

  function Step(cfg: Config, s: State, a: Action): State
    requires Enabled(cfg, s, a)
  {
    match a
    case Enqueue(id, linked, maxAttempts, notBefore, held) => DoEnqueue(s, id, linked, maxAttempts, notBefore, held)
    case Claim(n, id) => DoClaim(cfg, s, n, id)
    case Begin(n) => WithPhase(s, n, Working(s.phases[n].batch))
    case RenewLease(n, reply) => DoRenew(cfg, s, n, reply)
    case StartDelivery(n) => DoStart(cfg, s, n)
    case EndDelivery(n, verdict) => WithPhase(s, n, Sent(s.phases[n].m, verdict, s.phases[n].batch))
    case Record(n, reply) => DoRecord(cfg, s, n, reply)
    case Settle(n, aged, delay, reply) => DoSettle(cfg, s, n, aged, delay, reply)
    case FireHook(n) => DoHook(s, n)
    case EndRun(n) => WithPhase(s, n, Claiming([]))
    case Crash(n) => WithPhase(s, n, Claiming([]))
    case AdminDo(id, op) => DoAdmin(s, id, op)
    case AdminFail(id, hook) => DoAdminFail(cfg, s, id, hook)
    case AdminHook(id) => DoAdminHook(s, id)
    case AdminCrash => s.(operatorHooks := {})
    case SweepLog(id) => DoSweep(s, id)
    case Tick(t) => s.(now := t)
  }

  /** The start: an empty queue and idle nodes. */
  predicate Initial(s: State) {
    && s.items == map[] && s.operatorHooks == {}
    && forall n :: n in s.phases ==> s.phases[n] == Claiming([])
  }

  /** A run: its states, and the action between each two of them. */
  ghost predicate IsRun(cfg: Config, states: seq<State>, actions: seq<Action>) {
    && |states| == |actions| + 1
    && Initial(states[0])
    && forall i :: 0 <= i < |actions| ==>
         Enabled(cfg, states[i], actions[i]) && states[i + 1] == Step(cfg, states[i], actions[i])
  }

  ghost predicate Reachable(cfg: Config, s: State) {
    exists states, actions :: IsRun(cfg, states, actions) && states[|states| - 1] == s
  }

  lemma ReachesInitial(cfg: Config, s: State)
    requires Initial(s)
    ensures Reachable(cfg, s)
  {
    assert IsRun(cfg, [s], []);
  }

  lemma ReachesNext(cfg: Config, s: State, a: Action)
    requires Reachable(cfg, s) && Enabled(cfg, s, a)
    ensures Reachable(cfg, Step(cfg, s, a))
  {
    var states, actions :| IsRun(cfg, states, actions) && states[|states| - 1] == s;
    var states', actions' := states + [Step(cfg, s, a)], actions + [a];
    forall i | 0 <= i < |actions'|
      ensures Enabled(cfg, states'[i], actions'[i]) && states'[i + 1] == Step(cfg, states'[i], actions'[i])
    {
      if i < |actions| {
        assert states'[i] == states[i] && states'[i + 1] == states[i + 1] && actions'[i] == actions[i];
      }
    }
    assert IsRun(cfg, states', actions');
  }
}
