/** The promises of the outbound queue, over whole runs. */
module QueueTheorems {
  import opened Options
  import opened QueueFacts
  import opened QueueRun
  import opened QueueSafety
  import opened QueueExclusion

  /** In every reachable state a row exists exactly while its history holds no
      terminal entry; an ended message has exactly one; the linked status is terminal
      exactly when the row is gone and matches the terminal kind; and the log of a
      live message is complete: the sweep never touches it. */
  lemma LogAndProjectionAgree(cfg: Config, states: seq<State>, actions: seq<Action>, i: nat, id: QId)
    requires IsRun(cfg, states, actions) && i < |states| && id in states[i].items
    ensures var it := states[i].items[id];
            && (it.facts.row.Some? <==> Terminals(it.past.history) == 0)
            && Terminals(it.past.history) <= 1
            && (it.facts.row.Some? ==> KindsOf(it.facts.log) == it.past.history)
            && (it.facts.status.Some? <==> it.past.linked)
            && (it.facts.status.Some? ==>
                  && (it.facts.status.value.Terminal() <==> it.facts.row.None?)
                  && (it.facts.status.value.StatusDelivered? <==> Count(it.past.history, Delivered) == 1)
                  && (it.facts.status.value.StatusFailed? <==>
                        Count(it.past.history, Failed) + Count(it.past.history, Dropped) == 1))
  {
    RunSafe(cfg, states, actions, i);
  }

  /** Failure and delay notices go out at most once per message, a failure notice
      only for a message whose terminal entry says failed. */
  lemma HooksFireOnce(cfg: Config, states: seq<State>, actions: seq<Action>, i: nat, id: QId)
    requires IsRun(cfg, states, actions) && i < |states| && id in states[i].items
    ensures var past := states[i].items[id].past;
            && past.failHooks <= 1 && past.delayHooks <= 1
            && (past.failHooks == 1 ==> Count(past.history, Failed) == 1 && states[i].items[id].facts.row.None?)
            && past.delayHooks <= Count(past.history, Delayed) <= 1
  {
    RunSafe(cfg, states, actions, i);
  }

  /** The persisted attempt count is the number of started attempts; Deliver sees
      each attempt number at most once, so is called at most that often; and the count
      exceeds the budget by no more than the starts that were never settled. */
  lemma AttemptsAreBounded(cfg: Config, states: seq<State>, actions: seq<Action>, i: nat, id: QId)
    requires IsRun(cfg, states, actions) && i < |states| && id in states[i].items
    ensures var it := states[i].items[id];
            var budget := if it.past.maxAttempts < 1 then 1 else it.past.maxAttempts;
            && (it.facts.row.Some? ==> it.facts.row.value.attempts == it.past.starts)
            && (forall k :: it.past.calls[k] <= 1)
            && |it.past.calls| <= it.past.starts
            && it.past.starts <= budget + (it.past.starts - it.past.settled)
  {
    RunSafe(cfg, states, actions, i);
    var past := states[i].items[id].past;
    OneEach(past.calls, past.starts);
  }

  lemma {:induction false} OneEach(calls: multiset<int>, n: nat)
    requires (forall k :: calls[k] <= 1) && forall k :: k in calls ==> 1 <= k <= n
    ensures |calls| <= n
  {
    if n > 0 {
      var less := calls - multiset{n};
      forall k | k in less ensures 1 <= k <= n - 1 {
        assert k != n;
      }
      OneEach(less, n - 1);
      assert calls <= less + multiset{n};
      assert |calls| <= |less + multiset{n}|;
    } else {
      assert calls == multiset{};
    }
  }

  /** An ended message stays ended: its row never comes back and only attempt
      entries can still be appended to its log. */
  lemma EndedStep(cfg: Config, s: State, a: Action, id: QId)
    requires Enabled(cfg, s, a) && id in s.items && s.items[id].facts.row.None?
    ensures var s' := Step(cfg, s, a);
            && id in s'.items && s'.items[id].facts.row.None?
            && s'.items[id].facts.status == s.items[id].facts.status
            && (s'.items[id].past.history == s.items[id].past.history
                || s'.items[id].past.history == s.items[id].past.history + [Attempt])
  {
    var it := s.items[id];
    match a {
      case AdminDo(x, op) =>
        if x == id { TouchNone(it, Admin(it.facts, op, s.now)); }
      case Record(n, reply) =>
        if s.phases[n].m.id == id { TouchOne(it, RecordResult(it.facts), Note(Attempt)); }
      case _ =>
    }
  }

  /** The message has ended, for good in the same way. */
  ghost predicate EndsAs(before: Item, it: Item) {
    && it.facts.row.None? && it.facts.status == before.facts.status
    && Terminals(it.past.history) == Terminals(before.past.history)
    && forall k: Kind :: k.Terminal() ==> Count(it.past.history, k) == Count(before.past.history, k)
  }

  lemma StillEnds(cfg: Config, s: State, a: Action, id: QId, before: Item)
    requires Enabled(cfg, s, a) && id in s.items && EndsAs(before, s.items[id])
    ensures id in Step(cfg, s, a).items && EndsAs(before, Step(cfg, s, a).items[id])
  {
    EndedStep(cfg, s, a, id);
    Append(s.items[id].past.history, Attempt);
  }

  lemma {:induction false} EndedStaysEnded(cfg: Config, states: seq<State>, actions: seq<Action>, i: nat, j: nat, id: QId)
    requires IsRun(cfg, states, actions) && i <= j < |states|
    requires id in states[i].items && states[i].items[id].facts.row.None?
    ensures id in states[j].items && EndsAs(states[i].items[id], states[j].items[id])
    ensures Terminals(states[i].items[id].past.history) == 1
  {
    RunSafe(cfg, states, actions, i);
    if i < j {
      EndedStaysEnded(cfg, states, actions, i, j - 1, id);
      StillEnds(cfg, states[j - 1], actions[j - 1], id, states[i].items[id]);
    }
  }

  /** Node "a" has delivered a message that an operator failed meanwhile. */
  lemma FailedWhileSending(cfg: Config) returns (s: State)
    ensures Reachable(cfg, s) && "a" in s.phases && s.phases["a"].Sent? && s.phases["a"].m.id == 0
    ensures 0 in s.items && s.items[0].facts.row.None?
    ensures var h := s.items[0].past.history; h != [] && h[|h| - 1] == Failed
  {
    var s0 := OneQueued(cfg, "a", "b");
    var s1 := DeliverNext(cfg, s0, "a", 0);
    ReachesNext(cfg, s1, EndDelivery("a", Accepted));
    var s2 := Step(cfg, s1, EndDelivery("a", Accepted));
    ReachesNext(cfg, s2, AdminFail(0, false));
    s := Step(cfg, s2, AdminFail(0, false));
    TouchOne(s2.items[0], Close(s2.items[0].facts, Failed, s2.now + cfg.retiredKeep), Entry(Failed, Some(s2.now + cfg.retiredKeep)));
  }

  /** Recording is not fenced: in every deployment a state is reachable whose log has an
      attempt entry after the terminal one. */
  lemma AttemptEntryCanFollowTheEnd(cfg: Config) returns (s: State)
    ensures Reachable(cfg, s) && 0 in s.items && s.items[0].facts.row.None?
    ensures var h := s.items[0].past.history; |h| >= 2 && h[|h| - 2] == Failed && h[|h| - 1] == Attempt
  {
    var s0 := FailedWhileSending(cfg);
    ReachesNext(cfg, s0, Record("a", Answered));
    s := Step(cfg, s0, Record("a", Answered));
    TouchOne(s0.items[0], RecordResult(s0.items[0].facts), Note(Attempt));
  }
}
