/** The ticks of the `Coordinator` in `ops/ha`: the campaign loop publishes its cached view of
    leadership and launches ticks, each in a goroutine of its own, while the process may be
    cancelled at any time.  Every step below is one atomic operation of one goroutine. */
module LeaderTicks {
  type TickId = nat

  /** How far a tick's goroutine is: launched, past its re-check and in Tick, returning, or
      past clearing `tickRunning` with only the wait group left to tell. */
  datatype Stage = Launched | Running | Returning | Cleared

  datatype Phase = Campaigning | Stopping | Resigned

  datatype State = State(
    wasLeader: bool,
    tickRunning: bool,
    ticks: map<TickId, Stage>,   // the goroutines that the wait group counts
    launched: nat,               // ticks so far
    cancelled: bool,
    phase: Phase)

  datatype Action =
    | Publish(now: bool)         // the campaign stores its new view
    | Launch                     // and calls launchTick while it says leader
    | Recheck(tick: TickId)
    | Finish(tick: TickId)
    | Clear(tick: TickId)
    | Done(tick: TickId)
    | Cancel
    | Leave                      // Run leaves its loop
    | Resign                     // and, once the wait group is empty, resigns

  const Begin := State(false, false, map[], 0, false, Campaigning)

  predicate At(s: State, t: TickId, stage: Stage) {
    t in s.ticks && s.ticks[t] == stage
  }

  predicate Enabled(s: State, a: Action) {
    match a
    case Publish(_) => s.phase.Campaigning?
    case Launch => s.phase.Campaigning? && s.wasLeader
    case Recheck(t) => At(s, t, Launched)
    case Finish(t) => At(s, t, Running)
    case Clear(t) => At(s, t, Returning)
    case Done(t) => At(s, t, Cleared)
    case Cancel => true
    case Leave => s.phase.Campaigning? && s.cancelled
    case Resign => s.phase.Stopping? && s.ticks == map[]
  }

  function Step(s: State, a: Action): State
    requires Enabled(s, a)
  {
    match a
    case Publish(now) => s.(wasLeader := now)
    case Launch =>
      if s.tickRunning then s
      else s.(tickRunning := true, ticks := s.ticks[s.launched := Launched], launched := s.launched + 1)
    case Recheck(t) => s.(ticks := s.ticks[t := if !s.wasLeader || s.cancelled then Returning else Running])
    case Finish(t) => s.(ticks := s.ticks[t := Returning])
    case Clear(t) => s.(ticks := s.ticks[t := Cleared], tickRunning := false)
    case Done(t) => s.(ticks := s.ticks - {t})
    case Cancel => s.(cancelled := true)
    case Leave => s.(phase := Stopping)
    case Resign => s.(phase := Resigned, wasLeader := false)
  }

  ghost predicate IsRun(states: seq<State>, actions: seq<Action>) {
    && |states| == |actions| + 1
    && states[0] == Begin
    && forall i :: 0 <= i < |actions| ==> Enabled(states[i], actions[i]) && states[i + 1] == Step(states[i], actions[i])
  }

  /** A tick that has not cleared the way for the next one. */
  predicate InFlight(s: State, t: TickId) {
    t in s.ticks && !s.ticks[t].Cleared?
  }

  /** `tickRunning` says whether a tick is in flight, and there is never a second one. */
  ghost predicate Inv(s: State) {
    && (forall t :: t in s.ticks ==> t < s.launched)
    && (forall t, u :: InFlight(s, t) && InFlight(s, u) ==> t == u)
    && (s.tickRunning <==> exists t :: InFlight(s, t))
    && (s.phase.Resigned? ==> s.ticks == map[] && !s.wasLeader)
  }

  lemma StepKeeps(s: State, a: Action)
    requires Inv(s) && Enabled(s, a)
    ensures Inv(Step(s, a))
  {
    var s' := Step(s, a);
    match a
    case Launch =>
      if !s.tickRunning {
        assert InFlight(s', s.launched);
        assert forall t :: InFlight(s', t) && t != s.launched ==> InFlight(s, t);
      }
    case Recheck(t) => SameFlight(s, s', t);
    case Finish(t) => SameFlight(s, s', t);
    case Clear(t) =>
      assert InFlight(s, t);
      assert forall u :: InFlight(s', u) ==> u != t && InFlight(s, u);
    case Done(t) => assert forall u :: InFlight(s', u) <==> InFlight(s, u);
    case _ => assert forall u :: InFlight(s', u) <==> InFlight(s, u);
  }

  lemma SameFlight(s: State, s': State, t: TickId)
    requires InFlight(s, t) && InFlight(s', t) && s'.ticks == s.ticks[t := s'.ticks[t]]
    ensures forall u :: InFlight(s', u) <==> InFlight(s, u)
  {
  }

  lemma {:induction false} RunKeeps(states: seq<State>, actions: seq<Action>, n: nat)
    requires IsRun(states, actions) && n < |states|
    ensures Inv(states[n])
  {
    if n > 0 {
      RunKeeps(states, actions, n - 1);
      StepKeeps(states[n - 1], actions[n - 1]);
    }
  }

  /** At most one tick is in flight at any time. */
  lemma OneTickInFlight(states: seq<State>, actions: seq<Action>, n: nat, t: TickId, u: TickId)
    requires IsRun(states, actions) && n < |states| && InFlight(states[n], t) && InFlight(states[n], u)
    ensures t == u && states[n].tickRunning
  {
    RunKeeps(states, actions, n);
  }

  /** Whatever tick runs was launched by a campaign that said leader, and found on its own
      re-check that the view still said so and nothing was cancelled. */
  lemma {:induction false} TickBeganAsLeader(states: seq<State>, actions: seq<Action>, n: nat, t: TickId) returns (i: nat)
    requires IsRun(states, actions) && n < |states| && At(states[n], t, Running)
    ensures i < n && actions[i] == Recheck(t) && states[i].wasLeader && !states[i].cancelled
    ensures forall k :: i < k <= n ==> At(states[k], t, Running)
  {
    if At(states[n - 1], t, Running) {
      i := TickBeganAsLeader(states, actions, n - 1, t);
    } else {
      i := n - 1;
    }
  }

  /** Once the view is lost, no tick begins before a campaign says leader again. */
  lemma {:induction false} NoTickBeginsAfterLoss(states: seq<State>, actions: seq<Action>, m: nat, n: nat, t: TickId)
    requires IsRun(states, actions) && m <= n < |states| && !states[m].wasLeader
    requires forall k :: m <= k < n ==> actions[k] != Publish(true)
    requires At(states[n], t, Running)
    ensures !states[n].wasLeader && At(states[m], t, Running)
  {
    if m < n {
      StaysLost(states, actions, m, n);
      StaysLost(states, actions, m, n - 1);
      NoTickBeginsAfterLoss(states, actions, m, n - 1, t);
    }
  }

  lemma {:induction false} StaysLost(states: seq<State>, actions: seq<Action>, m: nat, n: nat)
    requires IsRun(states, actions) && m <= n < |states| && !states[m].wasLeader
    requires forall k :: m <= k < n ==> actions[k] != Publish(true)
    ensures !states[n].wasLeader
  {
    if m < n {
      StaysLost(states, actions, m, n - 1);
    }
  }

  /** When Run resigns, no tick is in flight, and none ever is again. */
  lemma {:induction false} NoTickAfterResign(states: seq<State>, actions: seq<Action>, m: nat, n: nat)
    requires IsRun(states, actions) && m < n < |states| && actions[m] == Resign
    ensures states[m].ticks == states[n].ticks == map[] && !states[n].wasLeader && states[n].phase.Resigned?
  {
    if n > m + 1 {
      NoTickAfterResign(states, actions, m, n - 1);
    }
    RunKeeps(states, actions, n);
  }
}
