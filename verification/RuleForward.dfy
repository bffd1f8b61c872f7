/** Rule forwarding of `mailflow/mailrules`: how executions are reserved and finished, and
    why a forward is submitted at most once however often and however concurrently an
    Email is processed. */
module RuleForward {
  import opened Options

  /** One execution row per account, rule and source Email. */
  datatype Key = Key(account: nat, rule: nat, email: nat)

  datatype Status = Matched | Queued | Failed | LoopBlocked
  datatype Code = NoCode | Blocked | ComposeFailed | SubmitFailed | ResultUnknown

  /** `messageId` is the signed Message-ID of a trusted forward, "" for any other mail. */
  datatype Execution = Execution(status: Status, code: Code, messageId: string)
  type Executions = map<Key, Execution>

  /** Only a submission known to have failed may be tried again. */
  predicate Reclaimable(e: Execution) {
    e.status == Failed && e.code == SubmitFailed
  }

  /** The unique index over trusted Message-IDs. */
  predicate Replayed(rows: Executions, k: Key, messageId: string) {
    messageId != "" && exists k' :: k' in rows && k' != k && k'.account == k.account && k'.rule == k.rule && rows[k'].messageId == messageId
  }

  /** The insert-or-reclaim statement: None when it returns no row. */
  function Reserve(rows: Executions, k: Key, messageId: string, status: Status, code: Code, enabled: bool): Option<Executions> {
    if !enabled then None
    else if k in rows then
      if status == Matched && Reclaimable(rows[k])
      then Some(rows[k := rows[k].(status := status, code := code)])
      else None
    else if Replayed(rows, k, messageId) then None
    else Some(rows[k := Execution(status, code, messageId)])
  }

  function Finish(rows: Executions, k: Key, status: Status, code: Code): Executions
    requires k in rows
  {
    rows[k := rows[k].(status := status, code := code)]
  }

  // ---------------------------------------------------------------------------
  // All interleavings
  // ---------------------------------------------------------------------------

  /** What became of handing a forward to the queue. */
  datatype Outcome = Accepted | Rejected | Unknown

  predicate MayHaveSent(o: Outcome) {
    o == Accepted || o == Unknown
  }

  /** A call of Process at one rule: it holds a reservation, has submitted, or is done. */
  datatype Call = Idle | Holds(key: Key) | Submitted(key: Key, outcome: Outcome)

  type CallId = nat

  datatype Submission = Submission(key: Key, outcome: Outcome)

  datatype State = State(rows: Executions, calls: map<CallId, Call>, submissions: seq<Submission>)

  datatype Action =
    | Begin(call: CallId, key: Key, messageId: string, blocked: bool, enabled: bool)
    | FailCompose(call: CallId)
    | Submit(call: CallId, outcome: Outcome)
    | Complete(call: CallId)               // the finishing update lands
    | Crash(call: CallId)                  // or it never does

  predicate Enabled(s: State, a: Action) {
    match a
    case Begin(c, _, _, _, _) => c !in s.calls || s.calls[c].Idle?
    case FailCompose(c) => c in s.calls && s.calls[c].Holds? && s.calls[c].key in s.rows
    case Submit(c, _) => c in s.calls && s.calls[c].Holds?
    case Complete(c) => c in s.calls && s.calls[c].Submitted? && s.calls[c].key in s.rows
    case Crash(c) => c in s.calls
  }

  function FinalStatus(o: Outcome): Status {
    if o == Accepted then Queued else Failed
  }

  function FinalCode(o: Outcome): Code {
    match o case Accepted => NoCode case Rejected => SubmitFailed case Unknown => ResultUnknown
  }

  function DoBegin(s: State, c: CallId, k: Key, messageId: string, blocked: bool, enabled: bool): State {
    var r := Reserve(s.rows, k, messageId, if blocked then LoopBlocked else Matched, if blocked then Blocked else NoCode, enabled);
    if r.None? then s.(calls := s.calls[c := Idle])
    else s.(rows := r.value, calls := s.calls[c := if blocked then Idle else Holds(k)])
  }

  function Step(s: State, a: Action): State
    requires Enabled(s, a)
  {
    match a
    case Begin(c, k, m, blocked, enabled) => DoBegin(s, c, k, m, blocked, enabled)
    case FailCompose(c) => s.(rows := Finish(s.rows, s.calls[c].key, Failed, ComposeFailed), calls := s.calls[c := Idle])
    case Submit(c, o) =>
      s.(calls := s.calls[c := Submitted(s.calls[c].key, o)], submissions := s.submissions + [Submission(s.calls[c].key, o)])
    case Complete(c) =>
      var call := s.calls[c];
      s.(rows := Finish(s.rows, call.key, FinalStatus(call.outcome), FinalCode(call.outcome)), calls := s.calls[c := Idle])
    case Crash(c) => s.(calls := s.calls[c := Idle])
  }

  ghost predicate IsRun(states: seq<State>, actions: seq<Action>) {
    && |states| == |actions| + 1
    && states[0] == State(map[], map[], [])
    && forall i :: 0 <= i < |actions| ==> Enabled(states[i], actions[i]) && states[i + 1] == Step(states[i], actions[i])
  }

  predicate Open(s: State, c: CallId, k: Key) {
    c in s.calls && !s.calls[c].Idle? && s.calls[c].key == k
  }

  /** An execution being worked on is marked so, by one call only. */
  ghost predicate OneWorker(s: State) {
    && (forall c, k :: Open(s, c, k) ==> k in s.rows && s.rows[k].status == Matched)
    && (forall c, c', k :: Open(s, c, k) && Open(s, c', k) ==> c == c')
  }

  predicate Sent(s: State, i: nat, k: Key) {
    i < |s.submissions| && s.submissions[i].key == k && MayHaveSent(s.submissions[i].outcome)
  }

  /** Once a forward may have gone out, nothing can submit it again: its row is not
      reclaimable, and the call at work on it, if any, is the one that submitted. */
  ghost predicate SentIsFinal(s: State) {
    forall i, k :: Sent(s, i, k) ==>
      && k in s.rows && !Reclaimable(s.rows[k])
      && (forall c :: Open(s, c, k) ==> s.calls[c].Submitted? && MayHaveSent(s.calls[c].outcome))
  }

  ghost predicate SentOnce(s: State) {
    forall i, j, k :: Sent(s, i, k) && Sent(s, j, k) ==> i == j
  }

  predicate SameMessage(s: State, k: Key, k': Key) {
    && k in s.rows && k' in s.rows && k.account == k'.account && k.rule == k'.rule
    && s.rows[k].messageId == s.rows[k'].messageId && s.rows[k].messageId != ""
  }

  /** A trusted forward has one execution per rule, whatever Email ids it arrived under. */
  ghost predicate MessageOnce(s: State) {
    forall k, k' :: SameMessage(s, k, k') ==> k == k'
  }

  lemma StepOneWorker(s: State, a: Action)
    requires OneWorker(s) && Enabled(s, a)
    ensures OneWorker(Step(s, a))
  {
    var t := Step(s, a);
    forall c, k | Open(t, c, k) ensures k in t.rows && t.rows[k].status == Matched {
      assert c != a.call ==> Open(s, c, k);
      assert !a.Begin? && !s.calls[a.call].Idle? ==> Open(s, a.call, s.calls[a.call].key);
    }
    forall c, c', k | Open(t, c, k) && Open(t, c', k) ensures c == c' {
      assert c != a.call ==> Open(s, c, k);
      assert c' != a.call ==> Open(s, c', k);
      assert !a.Begin? && !s.calls[a.call].Idle? ==> Open(s, a.call, s.calls[a.call].key);
    }
  }

  lemma StepSentIsFinal(s: State, a: Action)
    requires OneWorker(s) && SentIsFinal(s) && Enabled(s, a)
    ensures SentIsFinal(Step(s, a))
  {
    var t := Step(s, a);
    assert !a.Begin? && !s.calls[a.call].Idle? ==> Open(s, a.call, s.calls[a.call].key);
    forall i: nat, k | Sent(t, i, k) ensures k in t.rows && !Reclaimable(t.rows[k]) {
      assert i < |s.submissions| ==> Sent(s, i, k);
    }
    forall i: nat, k, c | Sent(t, i, k) && Open(t, c, k) ensures t.calls[c].Submitted? && MayHaveSent(t.calls[c].outcome) {
      assert i < |s.submissions| ==> Sent(s, i, k);
      assert c != a.call ==> Open(s, c, k);
    }
  }

  lemma StepSentOnce(s: State, a: Action)
    requires OneWorker(s) && SentIsFinal(s) && SentOnce(s) && Enabled(s, a)
    ensures SentOnce(Step(s, a))
  {
    var t := Step(s, a);
    forall i: nat, j: nat, k | Sent(t, i, k) && Sent(t, j, k) ensures i == j {
      assert i < |s.submissions| ==> Sent(s, i, k);
      assert j < |s.submissions| ==> Sent(s, j, k);
      assert a.Submit? ==> Open(s, a.call, s.calls[a.call].key);
    }
  }

  lemma StepMessageOnce(s: State, a: Action)
    requires MessageOnce(s) && Enabled(s, a)
    ensures MessageOnce(Step(s, a))
  {
    var t := Step(s, a);
    forall k, k' | SameMessage(t, k, k') ensures k == k' {
      assert k in s.rows && k' in s.rows ==> SameMessage(s, k, k');
    }
  }

  lemma {:induction false} RunOk(states: seq<State>, actions: seq<Action>, n: nat)
    requires IsRun(states, actions) && n < |states|
    ensures OneWorker(states[n]) && SentIsFinal(states[n]) && SentOnce(states[n]) && MessageOnce(states[n])
  {
    if n > 0 {
      RunOk(states, actions, n - 1);
      StepOneWorker(states[n - 1], actions[n - 1]);
      StepSentIsFinal(states[n - 1], actions[n - 1]);
      StepSentOnce(states[n - 1], actions[n - 1]);
      StepMessageOnce(states[n - 1], actions[n - 1]);
    }
  }

  /** Over any interleaving of calls and crashes, for each account, rule and source Email
      at most one submission may have gone out; and for a trusted forward the same holds
      of its Message-ID, across all Emails it was stored as. */
  lemma ForwardedAtMostOnce(states: seq<State>, actions: seq<Action>, n: nat, i: nat, j: nat)
    requires IsRun(states, actions) && n < |states| && i < |states[n].submissions| && j < |states[n].submissions|
    requires MayHaveSent(states[n].submissions[i].outcome) && MayHaveSent(states[n].submissions[j].outcome)
    requires var s := states[n]; var k, k' := s.submissions[i].key, s.submissions[j].key; k == k' || SameMessage(s, k, k')
    ensures i == j
  {
    RunOk(states, actions, n);
    var s := states[n];
    assert Sent(s, i, s.submissions[i].key) && Sent(s, j, s.submissions[j].key);
  }

  /** Call `c` has submitted for `k` and not yet recorded how that went. */
  predicate Pending(s: State, c: CallId, k: Key, o: Outcome) {
    c in s.calls && s.calls[c] == Submitted(k, o)
  }

  /** The execution is marked as at work, and nobody is. */
  ghost predicate Abandoned(s: State, k: Key) {
    k in s.rows && s.rows[k].status == Matched && forall c :: !Open(s, c, k)
  }

  predicate Records(states: seq<State>, actions: seq<Action>, j: nat, c: CallId, k: Key, o: Outcome) {
    j < |actions| && j < |states| && actions[j] == Complete(c) && Pending(states[j], c, k, o)
  }

  lemma StaysAbandoned(s: State, a: Action, k: Key)
    requires OneWorker(s) && Enabled(s, a) && Abandoned(s, k)
    ensures Abandoned(Step(s, a), k)
  {
    var t := Step(s, a);
    assert !a.Begin? && !s.calls[a.call].Idle? ==> Open(s, a.call, s.calls[a.call].key);
    forall c ensures !Open(t, c, k) {
      assert c != a.call && Open(t, c, k) ==> Open(s, c, k);
    }
  }

  lemma StaysPending(s: State, a: Action, c: CallId, k: Key, o: Outcome)
    requires OneWorker(s) && Enabled(s, a) && Pending(s, c, k, o)
    ensures Pending(Step(s, a), c, k, o) || a == Complete(c) || Abandoned(Step(s, a), k)
  {
    var t := Step(s, a);
    assert Open(s, c, k);
    if a.call == c && a.Crash? {
      forall d ensures !Open(t, d, k) {
        assert d != c && Open(t, d, k) ==> Open(s, d, k);
      }
    }
  }

  /** After a submission its call has not finished, or recorded the outcome, or left the
      execution abandoned for good. */
  lemma {:induction false} AfterSubmission(states: seq<State>, actions: seq<Action>, m: nat, t: nat, c: CallId, k: Key, o: Outcome)
    requires IsRun(states, actions) && m < t < |states| && Pending(states[m + 1], c, k, o)
    ensures Pending(states[t], c, k, o) || Abandoned(states[t], k) || exists j :: m < j < t && Records(states, actions, j, c, k, o)
  {
    if t > m + 1 {
      AfterSubmission(states, actions, m, t - 1, c, k, o);
      RunOk(states, actions, t - 1);
      if Pending(states[t - 1], c, k, o) {
        StaysPending(states[t - 1], actions[t - 1], c, k, o);
        assert actions[t - 1] == Complete(c) ==> Records(states, actions, t - 1, c, k, o);
      } else if Abandoned(states[t - 1], k) {
        StaysAbandoned(states[t - 1], actions[t - 1], k);
      }
    }
  }

  lemma {:induction false} SubmissionsStay(states: seq<State>, actions: seq<Action>, m: nat, n: nat)
    requires IsRun(states, actions) && m <= n < |states|
    ensures states[m].submissions <= states[n].submissions
  {
    if m < n {
      SubmissionsStay(states, actions, m, n - 1);
    }
  }

  /** A forward is submitted again only after the earlier submission was rejected for
      certain and its own call had recorded that. */
  lemma ResubmittedOnlyAfterRejection(states: seq<State>, actions: seq<Action>, m: nat, n: nat) returns (j: nat)
    requires IsRun(states, actions) && m < n < |actions| && actions[m].Submit? && actions[n].Submit?
    requires states[m].calls[actions[m].call].key == states[n].calls[actions[n].call].key
    ensures actions[m].outcome == Rejected
    ensures m < j < n && Records(states, actions, j, actions[m].call, states[m].calls[actions[m].call].key, Rejected)
  {
    var c, k, o := actions[m].call, states[m].calls[actions[m].call].key, actions[m].outcome;
    AfterSubmission(states, actions, m, n, c, k, o);
    RunOk(states, actions, n);
    assert Open(states[n], actions[n].call, k);
    assert Pending(states[n], c, k, o) ==> Open(states[n], c, k);
    j :| m < j < n && Records(states, actions, j, c, k, o);
    SubmissionsStay(states, actions, m + 1, n);
    var i := |states[m].submissions|;
    assert states[n].submissions[i] == states[m + 1].submissions[i] == Submission(k, o);
    assert MayHaveSent(o) ==> Sent(states[n], i, k);
  }

  // ---------------------------------------------------------------------------
  // The loop over the rules
  // ---------------------------------------------------------------------------

  /** How a statement ends: done, not done with an error, or done with its reply lost. */
  datatype Statement = Done | NotDone | ReplyLost

  /** A loaded rule, whether it is still enabled when it comes to it, and how it fares: the
      reservation, composing, submitting and the finishing update. */
  datatype Rule = Rule(id: nat, matches: bool, enabled: bool, blocked: bool, reserve: Statement, composes: bool, outcome: Outcome, finish: Statement)

  function FinishIf(rows: Executions, k: Key, status: Status, code: Code, finish: Statement): Executions
    requires k in rows
  {
    if finish == NotDone then rows else Finish(rows, k, status, code)
  }

  /** What one call does with one rule, alone. */
  function Handle(rows: Executions, account: nat, email: nat, messageId: string, r: Rule): Executions {
    var k := Key(account, r.id, email);
    if !r.matches then rows
    else
      var reserved := Reserve(rows, k, messageId, if r.blocked then LoopBlocked else Matched, if r.blocked then Blocked else NoCode, r.enabled);
      if reserved.None? || r.reserve == NotDone then rows
      else if r.reserve == ReplyLost || r.blocked then reserved.value
      else if !r.composes then FinishIf(reserved.value, k, Failed, ComposeFailed, r.finish)
      else FinishIf(reserved.value, k, FinalStatus(r.outcome), FinalCode(r.outcome), r.finish)
  }

  function HandleAll(rows: Executions, account: nat, email: nat, messageId: string, rules: seq<Rule>): Executions {
    if rules == [] then rows
    else Handle(HandleAll(rows, account, email, messageId, rules[..|rules| - 1]), account, email, messageId, rules[|rules| - 1])
  }

  predicate SameAt(a: Executions, b: Executions, k: Key) {
    (k in a <==> k in b) && (k in a && k in b ==> a[k] == b[k])
  }

  /** The key belongs to one of the rules, and if that rule's finishing update was not done its
      execution stays matched. */
  predicate Handled(account: nat, email: nat, rules: seq<Rule>, rows: Executions, k: Key) {
    exists i :: 0 <= i < |rules| && k == Key(account, rules[i].id, email)
      && (rules[i].finish == NotDone ==> k in rows && rows[k].status == Matched)
  }

  class Processor {
    var rows: Executions
    var submitted: seq<Submission>

    constructor ()
      ensures rows == map[] && submitted == []
    {
      rows := map[];
      submitted := [];
    }

    method ReserveExecution(k: Key, messageId: string, blocked: bool, enabled: bool, reply: Statement) returns (reserved: bool)
      modifies `rows
      ensures var r := Reserve(old(rows), k, messageId, if blocked then LoopBlocked else Matched, if blocked then Blocked else NoCode, enabled);
        && reserved == (r.Some? && reply == Done)
        && rows == if r.Some? && reply != NotDone then r.value else old(rows)
    {
      var r := Reserve(rows, k, messageId, if blocked then LoopBlocked else Matched, if blocked then Blocked else NoCode, enabled);
      if reply == NotDone || r.None? {
        return false;
      }
      rows := r.value;
      return reply == Done;
    }

    method FinishExecution(k: Key, status: Status, code: Code, reply: Statement)
      requires k in rows
      modifies `rows
      ensures rows == FinishIf(old(rows), k, status, code, reply)
    {
      if reply != NotDone {
        rows := Finish(rows, k, status, code);
      }
    }

    /** One Process call with no other beside it: every rule is handled in turn, whatever
        errors the ones before it met, and nothing is submitted whose execution was not free
        or known to have failed before.  A forward whose finishing update is not done stays
        matched, so it is not tried again. */
    method Process(account: nat, email: nat, messageId: string, rules: seq<Rule>)
      requires forall i, j :: 0 <= i < j < |rules| ==> rules[i].id != rules[j].id
      modifies this
      ensures rows == HandleAll(old(rows), account, email, messageId, rules)
      ensures |old(submitted)| <= |submitted| && submitted[..|old(submitted)|] == old(submitted)
      ensures forall n :: |old(submitted)| <= n < |submitted| ==>
        var k := submitted[n].key;
        k.account == account && k.email == email && (k in old(rows) ==> Reclaimable(old(rows)[k]))
      ensures forall n :: |old(submitted)| <= n < |submitted| ==> Handled(account, email, rules, rows, submitted[n].key)
    {
      for i := 0 to |rules|
        invariant rows == HandleAll(old(rows), account, email, messageId, rules[..i])
        invariant forall j :: i <= j < |rules| ==> SameAt(rows, old(rows), Key(account, rules[j].id, email))
        invariant |old(submitted)| <= |submitted| && submitted[..|old(submitted)|] == old(submitted)
        invariant forall n :: |old(submitted)| <= n < |submitted| ==>
          var k := submitted[n].key;
          k.account == account && k.email == email && (k in old(rows) ==> Reclaimable(old(rows)[k]))
        invariant forall n :: |old(submitted)| <= n < |submitted| ==> Handled(account, email, rules[..i], rows, submitted[n].key)
      {
        assert rules[..i + 1][..i] == rules[..i];
        var r, k := rules[i], Key(account, rules[i].id, email);
        if r.matches {
          var reserved := ReserveExecution(k, messageId, r.blocked, r.enabled, r.reserve);
          if reserved && !r.blocked {
            if !r.composes {
              FinishExecution(k, Failed, ComposeFailed, r.finish);
            } else {
              submitted := submitted + [Submission(k, r.outcome)];
              FinishExecution(k, FinalStatus(r.outcome), FinalCode(r.outcome), r.finish);
            }
          }
        }
      }
      assert rules[..|rules|] == rules;
    }
  }
}
