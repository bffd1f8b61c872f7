/** The lease as the exclusive right to deliver.

  Two nodes never deliver the same message at the same time exactly when the round
  trip of a renewal plus the timer drift fit into the margin that the delivery
  timeout leaves before the lease ends. */
module QueueExclusion {
  import opened Options
  import opened QueueFacts
  import opened QueueRun

  /** The condition an operator can check: nothing but configuration. */
  predicate MarginHolds(cfg: Config) {
    cfg.rtt + cfg.skew <= cfg.lease - DeliveryTimeout(cfg.lease)
  }

  /** The node delivers the message, or has just renewed and may start to. */
  predicate Holding(cfg: Config, s: State, n: NodeId, id: QId) {
    && n in s.phases
    && ((s.phases[n].Sending? && s.phases[n].m.id == id)
        || (s.phases[n].Renewed? && s.phases[n].m.id == id && s.now <= s.phases[n].at + cfg.rtt))
  }

  /** The latest time at which such a delivery can still be running. */
  function EndOf(cfg: Config, p: Phase): Time
    requires p.Sending? || p.Renewed?
  {
    if p.Sending? then p.deadline else p.at + cfg.rtt + DeliveryTimeout(cfg.lease) + cfg.skew
  }

  ghost predicate Exclusive(cfg: Config, s: State) {
    && (forall n, id :: Holding(cfg, s, n, id) ==>
          && s.now <= EndOf(cfg, s.phases[n])
          && id in s.items
          && (s.items[id].facts.row.Some? ==>
                LeasedTo(s.items[id].facts, n) && EndOf(cfg, s.phases[n]) <= s.items[id].facts.row.value.lease.until))
    && (forall n, n', id :: Holding(cfg, s, n, id) && Holding(cfg, s, n', id) ==> n == n')
  }

  predicate Delivers(s: State, n: NodeId, id: QId) {
    n in s.phases && s.phases[n].Sending? && s.phases[n].m.id == id
  }

  /** No two nodes are delivering the same message. */
  ghost predicate NoDoubleSend(s: State) {
    forall n, n', id :: Delivers(s, n, id) && Delivers(s, n', id) ==> n == n'
  }

  /** Whoever holds in the new state held in the old one, and the lease of a message
      held by somebody is untouched. */
  lemma Inherits(cfg: Config, s: State, s': State)
    requires Exclusive(cfg, s) && s.now <= s'.now && s.items.Keys <= s'.items.Keys
    requires forall n, id :: Holding(cfg, s', n, id) ==>
               && Holding(cfg, s, n, id) && EndOf(cfg, s'.phases[n]) == EndOf(cfg, s.phases[n])
               && s'.now <= EndOf(cfg, s'.phases[n])
               && (s'.items[id].facts.row.Some? ==>
                     s.items[id].facts.row.Some? && s'.items[id].facts.row.value.lease == s.items[id].facts.row.value.lease)
    ensures Exclusive(cfg, s')
  {
  }

  lemma ClaimExclusive(cfg: Config, s: State, n: NodeId, id: QId)
    requires Exclusive(cfg, s) && Enabled(cfg, s, Claim(n, id))
    ensures Exclusive(cfg, Step(cfg, s, Claim(n, id)))
  {
    var s' := Step(cfg, s, Claim(n, id));
    forall x, y | Holding(cfg, s', x, y)
      ensures Holding(cfg, s, x, y) && s'.phases[x] == s.phases[x] && y != id
    {
      assert Holding(cfg, s, x, y);
    }
    Inherits(cfg, s, s');
  }

  lemma RenewExclusive(cfg: Config, s: State, n: NodeId, reply: Reply)
    requires MarginHolds(cfg) && Exclusive(cfg, s) && Enabled(cfg, s, RenewLease(n, reply))
    ensures Exclusive(cfg, Step(cfg, s, RenewLease(n, reply)))
  {
    var s' := DoRenew(cfg, s, n, reply);
    var c := s.phases[n].batch[0];
    if reply.Answered? && StillHolds(s.items[c.id].facts, n, s.now) {
      forall x, y | Holding(cfg, s', x, y) && x != n ensures Holding(cfg, s, x, y) && y != c.id {
        assert Holding(cfg, s, x, y);
      }
    } else {
      forall x, y | Holding(cfg, s', x, y) ensures Holding(cfg, s, x, y) && x != n {
        assert Holding(cfg, s, x, y);
      }
      Inherits(cfg, s, s');
    }
  }

  lemma StartExclusive(cfg: Config, s: State, n: NodeId)
    requires Exclusive(cfg, s) && Enabled(cfg, s, StartDelivery(n))
    ensures Exclusive(cfg, Step(cfg, s, StartDelivery(n)))
  {
    var s' := Step(cfg, s, StartDelivery(n));
    forall x, y | Holding(cfg, s', x, y) ensures Holding(cfg, s, x, y) && EndOf(cfg, s'.phases[x]) <= EndOf(cfg, s.phases[x]) {
      assert Holding(cfg, s, x, y);
    }
  }

  lemma SettleExclusive(cfg: Config, s: State, n: NodeId, aged: bool, delay: Time, reply: Reply)
    requires Exclusive(cfg, s) && Enabled(cfg, s, Settle(n, aged, delay, reply))
    ensures Exclusive(cfg, Step(cfg, s, Settle(n, aged, delay, reply)))
  {
    var s' := DoSettle(cfg, s, n, aged, delay, reply);
    var id := s.phases[n].m.id;
    forall x, y | Holding(cfg, s', x, y) ensures Holding(cfg, s, x, y) && (s'.items == s.items || y != id) {
      assert Holding(cfg, s, x, y);
    }
    Inherits(cfg, s, s');
  }

  /** Steps that touch no lease and start no delivery. */
  lemma QuietExclusive(cfg: Config, s: State, a: Action)
    requires Exclusive(cfg, s) && Enabled(cfg, s, a)
    requires !a.Claim? && !a.RenewLease? && !a.StartDelivery? && !a.Settle?
    ensures Exclusive(cfg, Step(cfg, s, a))
  {
    var s' := Step(cfg, s, a);
    forall x, y | Holding(cfg, s', x, y) ensures Holding(cfg, s, x, y) && s'.phases[x] == s.phases[x] {
      assert Holding(cfg, s, x, y);
    }
    Inherits(cfg, s, s');
  }

  lemma StepExclusive(cfg: Config, s: State, a: Action)
    requires MarginHolds(cfg) && Exclusive(cfg, s) && Enabled(cfg, s, a)
    ensures Exclusive(cfg, Step(cfg, s, a))
  {
    match a
    case Claim(n, id) => ClaimExclusive(cfg, s, n, id);
    case RenewLease(n, reply) => RenewExclusive(cfg, s, n, reply);
    case StartDelivery(n) => StartExclusive(cfg, s, n);
    case Settle(n, aged, delay, reply) => SettleExclusive(cfg, s, n, aged, delay, reply);
    case _ => QuietExclusive(cfg, s, a);
  }

  lemma {:induction false} RunExclusive(cfg: Config, states: seq<State>, actions: seq<Action>, i: nat)
    requires MarginHolds(cfg) && IsRun(cfg, states, actions) && i < |states|
    ensures Exclusive(cfg, states[i])
  {
    if i > 0 {
      RunExclusive(cfg, states, actions, i - 1);
      StepExclusive(cfg, states[i - 1], actions[i - 1]);
    }
  }

  // ---------------------------------------------------------------------------
  // The margin is necessary
  // ---------------------------------------------------------------------------

  predicate Ready(s: State, n: NodeId) {
    && n in s.phases && s.phases[n] == Claiming([])
    && 0 in s.items && s.items[0].facts.row.Some? && Due(s.items[0].facts.row.value, s.now)
  }

  /** `s'` differs from `s` in the phase of `n` and in the lease of message 0. */
  predicate LeaseMoves(cfg: Config, s: State, s': State, n: NodeId) {
    && 0 in s.items && s.items[0].facts.row.Some?
    && s'.phases.Keys == s.phases.Keys && (forall x :: x in s.phases && x != n ==> s'.phases[x] == s.phases[x])
    && 0 in s'.items && s'.items[0].facts.row.Some?
    && s'.items[0].facts.row.value.lease == Leased(n, s.now + cfg.lease)
    && s'.items[0].facts.row.value.nextAttempt == s.items[0].facts.row.value.nextAttempt
    && s'.items[0].facts.row.value.hold == s.items[0].facts.row.value.hold
  }

  /** Node `n` claims message 0 and renews its lease on it. */
  lemma TakeLease(cfg: Config, s: State, n: NodeId) returns (s': State)
    requires Reachable(cfg, s) && Ready(s, n)
    ensures Reachable(cfg, s') && LeaseMoves(cfg, s, s', n) && s'.now == s.now
    ensures s'.phases[n].Renewed? && s'.phases[n].m.id == 0 && s'.phases[n].at == s.now
  {
    ReachesNext(cfg, s, Claim(n, 0));
    var s1 := Step(cfg, s, Claim(n, 0));
    assert s1.phases[n].batch[0].id == 0;
    ReachesNext(cfg, s1, Begin(n));
    var s2 := Step(cfg, s1, Begin(n));
    ReachesNext(cfg, s2, RenewLease(n, Answered));
    s' := Step(cfg, s2, RenewLease(n, Answered));
  }

  /** Node `n` goes on to deliver message 0, `wait` after its renewal. */
  lemma DeliverNext(cfg: Config, s: State, n: NodeId, wait: nat) returns (s': State)
    requires Reachable(cfg, s) && Ready(s, n) && wait <= cfg.rtt && Enabled(cfg, s, Tick(s.now + wait))
    ensures Reachable(cfg, s') && LeaseMoves(cfg, s, s', n) && s'.now == s.now + wait
    ensures Delivers(s', n, 0) && s'.phases[n].deadline == s'.now + DeliveryTimeout(cfg.lease) + cfg.skew
  {
    var s1 := TakeLease(cfg, s, n);
    ReachesNext(cfg, s1, Tick(s.now + wait));
    var s2 := Step(cfg, s1, Tick(s.now + wait));
    ReachesNext(cfg, s2, StartDelivery(n));
    s' := Step(cfg, s2, StartDelivery(n));
  }

  /** Two idle nodes and one due message. */
  lemma OneQueued(cfg: Config, a: NodeId, b: NodeId) returns (s: State)
    ensures Reachable(cfg, s) && s.now == 0 && s.phases == map[a := Claiming([]), b := Claiming([])]
    ensures Ready(s, a) && Ready(s, b)
  {
    var s0 := State(0, map[], map[a := Claiming([]), b := Claiming([])], {});
    ReachesInitial(cfg, s0);
    ReachesNext(cfg, s0, Enqueue(0, false, 10, None, false));
    s := Step(cfg, s0, Enqueue(0, false, 10, None, false));
  }

  /** Without the margin a node is still sending when the lease has run out, and
      another node claims and sends the same message. */
  lemma DoubleSendReachable(cfg: Config) returns (s: State)
    requires !MarginHolds(cfg)
    ensures Reachable(cfg, s) && !NoDoubleSend(s)
  {
    var a: NodeId, b: NodeId := "a", "b";
    var s0 := OneQueued(cfg, a, b);
    var s1 := DeliverNext(cfg, s0, a, cfg.rtt);
    var t := if cfg.rtt > cfg.lease then cfg.rtt else cfg.lease + 1;
    ReachesNext(cfg, s1, Tick(t));
    s := DeliverNext(cfg, Step(cfg, s1, Tick(t)), b, 0);
    assert Delivers(s, a, 0) && Delivers(s, b, 0);
  }

  /** No reachable state has two nodes delivering one message, if and only if the
      round trip of a renewal and the timer drift fit into the margin. */
  lemma ExclusiveExactly(cfg: Config)
    ensures MarginHolds(cfg) <==> forall s :: Reachable(cfg, s) ==> NoDoubleSend(s)
  {
    if MarginHolds(cfg) {
      forall s | Reachable(cfg, s) ensures NoDoubleSend(s) {
        var states, actions :| IsRun(cfg, states, actions) && states[|states| - 1] == s;
        RunExclusive(cfg, states, actions, |states| - 1);
        forall n, n', id | Delivers(s, n, id) && Delivers(s, n', id) ensures n == n' {
          assert Holding(cfg, s, n, id) && Holding(cfg, s, n', id);
        }
      }
    } else {
      var s := DoubleSendReachable(cfg);
    }
  }

  /** A lease of a second or less leaves no margin: it is safe only with no round
      trip and no drift at all. */
  lemma ShortLeaseHasNoMargin(cfg: Config)
    requires cfg.lease <= SECOND
    ensures MarginHolds(cfg) <==> cfg.rtt == 0 && cfg.skew == 0
  {
    DeliveryMargin(cfg.lease);
  }
}
