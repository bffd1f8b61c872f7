/** The warmup IP allocator of `mailflow/deliverability`. */
module IpWarmup {
  import opened Options

  type IpId = nat

  /** A row of `ip_addresses`; `cap` is the operator's explicit daily cap, 0 for none. */
  datatype Ip = Ip(stage: int, cap: int, sent: nat, penalty: bool)

  const WarmupCaps: seq<int> := [50, 100, 500, 1000, 5000, 10000, 20000, 50000, 100000]

  /** The cap of a stage; 0 (no cap) past the ramp. */
  function WarmupCapForStage(stage: int): (c: int)
    ensures c >= 0 && (c == 0 <==> stage >= 9)
  {
    var s := if stage < 0 then 0 else stage;
    if s >= |WarmupCaps| then 0 else WarmupCaps[s]
  }

  /** The tighter of two caps, 0 standing for none. */
  function EffectiveCap(explicit: int, warmup: int): int {
    if explicit == 0 then warmup
    else if warmup == 0 then explicit
    else if explicit < warmup then explicit
    else warmup
  }

  function Cap(ip: Ip): int {
    EffectiveCap(ip.cap, WarmupCapForStage(ip.stage))
  }

  predicate AtCap(ip: Ip) {
    Cap(ip) != 0 && ip.sent >= Cap(ip)
  }

  /** What a cap allows to send in a day: a negative explicit cap allows nothing. */
  function Allowance(cap: int): nat {
    if cap < 0 then 0 else cap
  }

  /** No IP with a cap is over it. */
  predicate WithinCap(ip: Ip) {
    Cap(ip) != 0 ==> ip.sent <= Allowance(Cap(ip))
  }

  // ---------------------------------------------------------------------------
  // All interleavings
  // ---------------------------------------------------------------------------

  datatype State = State(ips: map<IpId, Ip>, marker: Option<nat>)

  datatype Action =
    | Lease(ip: IpId)
    | Maintain(today: nat)       // RunDailyMaintenance of any node, with its UTC date
    | Advance(ip: IpId)          // AdvanceWarmup
    | AdvanceDue                 // AdvanceWarmupDue on its own
    | Evict(ip: IpId)
    | Reset                      // ResetDailyCounters on its own

  /** Due for the next stage: the current stage's allowance is used up. */
  predicate Due(ip: Ip) {
    0 <= ip.stage < |WarmupCaps| && ip.sent >= WarmupCaps[ip.stage]
  }

  function Advanced(ips: map<IpId, Ip>): map<IpId, Ip> {
    map i | i in ips :: if Due(ips[i]) then ips[i].(stage := ips[i].stage + 1) else ips[i]
  }

  function Zeroed(ips: map<IpId, Ip>): map<IpId, Ip> {
    map i | i in ips :: ips[i].(sent := 0)
  }

  predicate Claims(marker: Option<nat>, today: nat) {
    marker.None? || marker.value < today
  }

  predicate Enabled(s: State, a: Action) {
    match a
    case Lease(i) => i in s.ips && !s.ips[i].penalty && !AtCap(s.ips[i])
    case Advance(i) => i in s.ips
    case Evict(i) => i in s.ips
    case _ => true
  }

  function Step(s: State, a: Action): State
    requires Enabled(s, a)
  {
    match a
    case Lease(i) => s.(ips := s.ips[i := s.ips[i].(sent := s.ips[i].sent + 1)])
    case Maintain(today) => if Claims(s.marker, today) then State(Zeroed(Advanced(s.ips)), Some(today)) else s
    case Advance(i) => s.(ips := s.ips[i := s.ips[i].(stage := s.ips[i].stage + 1)])
    case AdvanceDue => s.(ips := Advanced(s.ips))
    case Evict(i) => s.(ips := s.ips[i := s.ips[i].(penalty := true)])
    case Reset => s.(ips := Zeroed(s.ips))
  }

  /** A fresh fleet: nothing sent today. */
  predicate Initial(s: State) {
    forall i :: i in s.ips ==> s.ips[i].sent == 0
  }

  ghost predicate IsRun(states: seq<State>, actions: seq<Action>) {
    && |states| == |actions| + 1
    && Initial(states[0])
    && forall i :: 0 <= i < |actions| ==> Enabled(states[i], actions[i]) && states[i + 1] == Step(states[i], actions[i])
  }

  predicate SameIp(s: State, t: State, i: IpId) {
    (i in s.ips <==> i in t.ips) && (i in s.ips && i in t.ips ==> s.ips[i].cap == t.ips[i].cap)
  }

  lemma StepWithinCap(s: State, a: Action, i: IpId)
    requires Enabled(s, a) && i in s.ips && WithinCap(s.ips[i])
    ensures i in Step(s, a).ips && WithinCap(Step(s, a).ips[i])
  {
  }

  lemma {:induction false} SameFleet(states: seq<State>, actions: seq<Action>, n: nat, i: IpId)
    requires IsRun(states, actions) && n < |states|
    ensures SameIp(states[0], states[n], i)
  {
    if n > 0 {
      SameFleet(states, actions, n - 1, i);
      assert states[n] == Step(states[n - 1], actions[n - 1]);
    }
  }

  /** In every run, whatever its explicit cap, an IP stays within its effective cap. */
  lemma {:induction false} NeverOverCap(states: seq<State>, actions: seq<Action>, n: nat, i: IpId)
    requires IsRun(states, actions) && n < |states| && i in states[n].ips
    ensures WithinCap(states[n].ips[i])
  {
    if n > 0 {
      SameFleet(states, actions, n, i);
      SameFleet(states, actions, n - 1, i);
      NeverOverCap(states, actions, n - 1, i);
      StepWithinCap(states[n - 1], actions[n - 1], i);
    }
  }

  /** An IP with a negative explicit cap is always at its cap: nothing is ever sent from it,
      and it is never leased. */
  lemma NegativeCapNeverLeased(states: seq<State>, actions: seq<Action>, n: nat, i: IpId)
    requires IsRun(states, actions) && n < |states| && i in states[n].ips && states[n].ips[i].cap < 0
    ensures states[n].ips[i].sent == 0 && AtCap(states[n].ips[i])
    ensures n < |actions| ==> actions[n] != Lease(i)
  {
    NeverOverCap(states, actions, n, i);
  }

  // ---------------------------------------------------------------------------
  // Daily maintenance
  // ---------------------------------------------------------------------------

  predicate Effective(states: seq<State>, actions: seq<Action>, n: nat)
    requires n < |actions| < |states|
  {
    actions[n].Maintain? && Claims(states[n].marker, actions[n].today)
  }

  lemma {:induction false} MarkerGrows(states: seq<State>, actions: seq<Action>, m: nat, n: nat)
    requires IsRun(states, actions) && m <= n < |states| && states[m].marker.Some?
    ensures states[n].marker.Some? && states[m].marker.value <= states[n].marker.value
  {
    if m < n {
      MarkerGrows(states, actions, m, n - 1);
    }
  }

  /** Maintenance takes effect at most once per day, on days in order. */
  lemma MaintainedOncePerDay(states: seq<State>, actions: seq<Action>, m: nat, n: nat)
    requires IsRun(states, actions) && m < n < |actions| && Effective(states, actions, m) && Effective(states, actions, n)
    ensures actions[m].today < actions[n].today
  {
    MarkerGrows(states, actions, m + 1, n);
  }

  /** Maintenance moves an IP by at most one stage, and exactly those that used up the
      allowance of their stage; afterwards nothing counts as sent.  An IP whose explicit
      cap is below its stage's is never among them. */
  lemma MaintenanceAdvances(states: seq<State>, actions: seq<Action>, n: nat, i: IpId)
    requires IsRun(states, actions) && n < |actions| && Effective(states, actions, n) && i in states[n].ips
    ensures i in states[n + 1].ips
    ensures var ip, ip' := states[n].ips[i], states[n + 1].ips[i];
      && ip' == ip.(stage := ip'.stage, sent := 0)
      && ip'.stage == (if Due(ip) then ip.stage + 1 else ip.stage)
      && (ip.cap != 0 && ip.cap < WarmupCapForStage(ip.stage) ==> ip'.stage == ip.stage)
      && (ip'.stage != ip.stage ==> ip.sent == WarmupCapForStage(ip.stage) == Cap(ip))
  {
    NeverOverCap(states, actions, n, i);
  }

  // ---------------------------------------------------------------------------
  // How much is sent
  // ---------------------------------------------------------------------------

  function Leases(actions: seq<Action>, i: IpId): nat {
    if actions == [] then 0 else Leases(actions[..|actions| - 1], i) + if actions[|actions| - 1] == Lease(i) then 1 else 0
  }

  predicate Resets(s: State, a: Action) {
    a.Reset? || (a.Maintain? && Claims(s.marker, a.today))
  }

  /** Between resets, what counts as sent is what was leased. */
  lemma {:induction false} SentIsLeased(states: seq<State>, actions: seq<Action>, m: nat, n: nat, i: IpId)
    requires IsRun(states, actions) && m <= n < |states| && i in states[m].ips
    requires forall k :: m <= k < n ==> !Resets(states[k], actions[k])
    ensures i in states[n].ips && states[n].ips[i].sent == states[m].ips[i].sent + Leases(actions[m..n], i)
  {
    if m < n {
      SentIsLeased(states, actions, m, n - 1, i);
      assert actions[m..n][..n - 1 - m] == actions[m..n - 1];
      assert states[n] == Step(states[n - 1], actions[n - 1]);
    }
  }

  /** So between two resets no IP with a cap is leased more often than its cap allows. */
  lemma LeasesWithinCap(states: seq<State>, actions: seq<Action>, m: nat, n: nat, i: IpId)
    requires IsRun(states, actions) && m <= n < |states| && i in states[m].ips
    requires forall k :: m <= k < n ==> !Resets(states[k], actions[k])
    ensures i in states[n].ips
    ensures Cap(states[n].ips[i]) != 0 ==> Leases(actions[m..n], i) <= Allowance(Cap(states[n].ips[i]))
  {
    SentIsLeased(states, actions, m, n, i);
    NeverOverCap(states, actions, n, i);
  }

  // ---------------------------------------------------------------------------
  // Choosing an IP
  // ---------------------------------------------------------------------------

  datatype Candidate = Candidate(id: IpId, ip: Ip, dedicated: bool)

  /** Dedicated pools first, then the least used. */
  predicate Preferred(a: Candidate, b: Candidate) {
    (a.dedicated && !b.dedicated) || (a.dedicated == b.dedicated && a.ip.sent <= b.ip.sent)
  }

  predicate Best(candidates: seq<Candidate>, i: nat)
    requires i < |candidates|
  {
    && !AtCap(candidates[i].ip)
    && forall j :: 0 <= j < |candidates| && !AtCap(candidates[j].ip) ==> Preferred(candidates[i], candidates[j])
  }

  /** The first one that is not at its cap. */
  predicate FirstFree(candidates: seq<Candidate>, i: nat)
    requires i < |candidates|
  {
    !AtCap(candidates[i].ip) && forall j :: 0 <= j < i ==> AtCap(candidates[j].ip)
  }

  predicate InOrder(candidates: seq<Candidate>) {
    forall i, j :: 0 <= i < j < |candidates| ==> Preferred(candidates[i], candidates[j])
  }

  /** The choice is the first candidate with capacity left, and there is none only when all
      are at their caps.  If the candidates come in order of preference it is the preferred
      one; they may not, because rows are read again as they are locked. */
  method LeaseSourceIp(candidates: seq<Candidate>) returns (r: Option<IpId>)
    ensures r.None? <==> forall i :: 0 <= i < |candidates| ==> AtCap(candidates[i].ip)
    ensures r.Some? ==> exists i :: 0 <= i < |candidates| && candidates[i].id == r.value
                                    && FirstFree(candidates, i) && (InOrder(candidates) ==> Best(candidates, i))
  {
    for k := 0 to |candidates|
      invariant forall i :: 0 <= i < k ==> AtCap(candidates[i].ip)
    {
      var c := candidates[k];
      var eff := EffectiveCap(c.ip.cap, WarmupCapForStage(c.ip.stage));
      if eff != 0 && c.ip.sent >= eff {
        continue;
      }
      assert FirstFree(candidates, k) && (InOrder(candidates) ==> Best(candidates, k));
      return Some(c.id);
    }
    return None;
  }
}
