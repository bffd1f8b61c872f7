/** The fenced DMARC aggregate report sender of `ops/reportdb` on every node, over the
    leader lease of `ops/ha`.

  A job is one call of SendDMARCReportFenced.  Its fenced transaction reads one
  snapshot, and its update fails unless the rows it selects are still as the snapshot
  has them (REPEATABLE READ). */
module DmarcReports {
  import HA = LeaderLease

  type JobId = HA.FenceId

  datatype Key = Key(domain: string, sourceIp: string, spf: string, dkim: string, disposition: string, day: nat)
  datatype Row = Row(rua: string, count: nat, reported: bool)
  type Agg = map<Key, Row>

  datatype Auth = Authorized | Denied | Transient

  /** The rows of a report, with the counts it states. */
  datatype Report = Report(domain: string, rua: string, counts: map<Key, nat>)

  datatype Phase =
    | Peeked
    | Ready(auth: Auth)
    | InTx(auth: Auth, snapshot: Agg)
    | Claimed(auth: Auth, report: Report)
    | Ended

  datatype Job = Job(domain: string, rua: string, phase: Phase)

  datatype Submission = Submission(job: JobId, to: string, report: Report)

  datatype State = State(ha: HA.State, agg: Agg, jobs: map<JobId, Job>, claims: map<JobId, Report>, sent: seq<Submission>)

  datatype Action =
    | Lease(lease: HA.Action)                // campaigns, promotions, other fenced work
    | Evaluate(key: Key, rua: string)        // RecordDMARCAgg
    | Peek(job: JobId, domain: string, rua: string)
    | Authorize(job: JobId, auth: Auth)
    | Snapshot(job: JobId)                   // the fenced transaction begins
    | Check(job: JobId)                      // its lease check
    | Claim(job: JobId, known: bool)         // its commit; `known` when the caller learns of it
    | Submit(job: JobId)
    | Crash(job: JobId)

  predicate Pending(agg: Agg, k: Key, domain: string, rua: string) {
    k in agg && k.domain == domain && agg[k].rua == rua && !agg[k].reported
  }

  function Selected(agg: Agg, domain: string, rua: string): set<Key> {
    set k | k in agg && Pending(agg, k, domain, rua)
  }

  function ReportOf(agg: Agg, domain: string, rua: string): Report {
    Report(domain, rua, map k | k in agg && Pending(agg, k, domain, rua) :: agg[k].count)
  }

  function Upsert(agg: Agg, k: Key, rua: string): Agg {
    if k in agg then agg[k := agg[k].(count := agg[k].count + 1, rua := rua)] else agg[k := Row(rua, 1, false)]
  }

  function Flip(agg: Agg, keys: set<Key>): Agg {
    map k | k in agg :: if k in keys then agg[k].(reported := true) else agg[k]
  }

  predicate Unchanged(agg: Agg, snapshot: Agg, keys: set<Key>) {
    forall k :: k in keys ==> k in agg && k in snapshot && agg[k] == snapshot[k]
  }

  /** The steps of the lease that are not a fenced commit of one of our jobs. */
  predicate NotOurs(s: State, a: HA.Action) {
    (a.Capture? || a.Check? || a.Commit? || a.Abort?) ==>
      a.fence !in s.jobs || (a.Abort? || (a.Capture? && s.jobs[a.fence].phase.Ready?))
  }

  predicate Enabled(s: State, a: Action) {
    match a
    case Lease(l) => HA.Enabled(s.ha, l) && NotOurs(s, l)
    case Evaluate(_, _) => true
    case Peek(j, d, rua) => j !in s.jobs && j !in s.ha.fences && rua != "" && Selected(s.agg, d, rua) != {}
    case Authorize(j, _) => j in s.jobs && s.jobs[j].phase.Peeked?
    case Snapshot(j) => j in s.jobs && s.jobs[j].phase.Ready? && j in s.ha.fences
    case Check(j) => j in s.jobs && s.jobs[j].phase.InTx? && HA.Enabled(s.ha, HA.Check(j))
    case Claim(j, _) =>
      && j in s.jobs && s.jobs[j].phase.InTx? && HA.Enabled(s.ha, HA.Commit(j))
      && var snapshot := s.jobs[j].phase.snapshot;
        Unchanged(s.agg, snapshot, Selected(snapshot, s.jobs[j].domain, s.jobs[j].rua))
    case Submit(j) => j in s.jobs && s.jobs[j].phase.Claimed?
    case Crash(j) => j in s.jobs
  }

  function To(s: State, j: JobId, phase: Phase): State
    requires j in s.jobs
  {
    s.(jobs := s.jobs[j := s.jobs[j].(phase := phase)])
  }

  function DoClaim(s: State, j: JobId, known: bool): State
    requires Enabled(s, Claim(j, known))
  {
    var job := s.jobs[j];
    var keys := Selected(job.phase.snapshot, job.domain, job.rua);
    var report := ReportOf(job.phase.snapshot, job.domain, job.rua);
    if keys == {} then To(s, j, Ended).(ha := HA.Step(s.ha, HA.Commit(j)))
    else
      To(s, j, if known then Claimed(job.phase.auth, report) else Ended)
      .(ha := HA.Step(s.ha, HA.Commit(j)), agg := Flip(s.agg, keys), claims := s.claims[j := report])
  }

  function DoSubmit(s: State, j: JobId): State
    requires Enabled(s, Submit(j))
  {
    var job := s.jobs[j];
    if job.phase.auth == Denied then To(s, j, Ended)
    else To(s, j, Ended).(sent := s.sent + [Submission(j, job.rua, job.phase.report)])
  }

  function Step(s: State, a: Action): State
    requires Enabled(s, a)
  {
    match a
    case Lease(l) => s.(ha := HA.Step(s.ha, l))
    case Evaluate(k, rua) => s.(agg := Upsert(s.agg, k, rua))
    case Peek(j, d, rua) => s.(jobs := s.jobs[j := Job(d, rua, Peeked)])
    case Authorize(j, auth) => To(s, j, if auth == Transient then Ended else Ready(auth))
    case Snapshot(j) => To(s, j, InTx(s.jobs[j].phase.auth, s.agg))
    case Check(j) => s.(ha := HA.Step(s.ha, HA.Check(j)))
    case Claim(j, known) => DoClaim(s, j, known)
    case Submit(j) => DoSubmit(s, j)
    case Crash(j) => To(s, j, Ended)
  }

  predicate Initial(s: State) {
    HA.Initial(s.ha) && s.agg == map[] && s.jobs == map[] && s.claims == map[] && s.sent == []
  }

  ghost predicate IsRun(states: seq<State>, actions: seq<Action>) {
    && |states| == |actions| + 1
    && Initial(states[0])
    && forall i :: 0 <= i < |actions| ==> Enabled(states[i], actions[i]) && states[i + 1] == Step(states[i], actions[i])
  }

  // ---------------------------------------------------------------------------
  // Invariants
  // ---------------------------------------------------------------------------

  /** Every reported row is in some claim, and every claimed row is reported. */
  ghost predicate Claims(agg: Agg, claims: map<JobId, Report>) {
    && (forall k :: k in agg && agg[k].reported ==> exists j :: j in claims && k in claims[j].counts)
    && (forall j, k :: j in claims && k in claims[j].counts ==> k in agg && agg[k].reported)
  }

  /** No row is in two claims. */
  ghost predicate FlippedOnce(s: State) {
    forall j, j', k :: j in s.claims && j' in s.claims && k in s.claims[j].counts && k in s.claims[j'].counts ==> j == j'
  }

  /** A job that may still claim has not; one that claimed holds its claim's report. */
  ghost predicate JobsOk(s: State) {
    && (forall j :: j in s.claims ==> j in s.jobs && (s.jobs[j].phase.Claimed? || s.jobs[j].phase.Ended?))
    && (forall j :: j in s.jobs && s.jobs[j].phase.Claimed? ==>
          j in s.claims && s.jobs[j].phase.report == s.claims[j]
          && s.claims[j].rua == s.jobs[j].rua && s.claims[j].domain == s.jobs[j].domain)
  }

  /** Submissions are of claimed reports, to the report's address, one per job. */
  ghost predicate SentOk(s: State) {
    && (forall i :: 0 <= i < |s.sent| ==>
          var m := s.sent[i];
          m.job in s.jobs && s.jobs[m.job].phase.Ended? && m.job in s.claims && m.report == s.claims[m.job] && m.to == m.report.rua)
    && (forall i, i' :: 0 <= i < i' < |s.sent| ==> s.sent[i].job != s.sent[i'].job)
  }

  /** The effect of a claim on the rows and on the claims. */
  lemma ClaimEffect(s: State, j: JobId, known: bool)
    requires JobsOk(s) && Enabled(s, Claim(j, known)) && j in DoClaim(s, j, known).claims
    ensures var t := DoClaim(s, j, known);
      && j !in s.claims && t.claims == s.claims[j := t.claims[j]] && t.agg == Flip(s.agg, t.claims[j].counts.Keys)
      && t.claims[j].counts.Keys <= s.agg.Keys
  {
    var job := s.jobs[j];
    assert ReportOf(job.phase.snapshot, job.domain, job.rua).counts.Keys == Selected(job.phase.snapshot, job.domain, job.rua);
  }

  lemma FlipKeepsClaims(agg: Agg, claims: map<JobId, Report>, j: JobId, report: Report)
    requires Claims(agg, claims) && j !in claims && report.counts.Keys <= agg.Keys
    ensures Claims(Flip(agg, report.counts.Keys), claims[j := report])
  {
    var agg', claims' := Flip(agg, report.counts.Keys), claims[j := report];
    forall k | k in agg' && agg'[k].reported ensures exists i :: i in claims' && k in claims'[i].counts {
      if k in report.counts {
        assert k in claims'[j].counts;
      } else {
        var i :| i in claims && k in claims[i].counts;
        assert i in claims' && k in claims'[i].counts;
      }
    }
  }

  lemma StepClaims(s: State, a: Action)
    requires Claims(s.agg, s.claims) && JobsOk(s) && Enabled(s, a)
    ensures Claims(Step(s, a).agg, Step(s, a).claims)
  {
    if a.Claim? && a.job in DoClaim(s, a.job, a.known).claims {
      ClaimEffect(s, a.job, a.known);
      FlipKeepsClaims(s.agg, s.claims, a.job, DoClaim(s, a.job, a.known).claims[a.job]);
    }
  }

  lemma StepFlipsOnce(s: State, a: Action)
    requires Claims(s.agg, s.claims) && FlippedOnce(s) && Enabled(s, a)
    ensures FlippedOnce(Step(s, a))
  {
  }

  lemma StepJobs(s: State, a: Action)
    requires JobsOk(s) && Enabled(s, a)
    ensures JobsOk(Step(s, a))
  {
    if a.Claim? {
      ClaimJobs(s, a.job, a.known);
    }
  }

  lemma ClaimJobs(s: State, j: JobId, known: bool)
    requires JobsOk(s) && Enabled(s, Claim(j, known))
    ensures JobsOk(DoClaim(s, j, known))
  {
  }

  lemma StepSent(s: State, a: Action)
    requires SentOk(s) && JobsOk(s) && Enabled(s, a)
    ensures SentOk(Step(s, a))
  {
  }

  lemma StepLease(s: State, a: Action)
    requires HA.FencesOk(s.ha) && Enabled(s, a)
    ensures HA.FencesOk(Step(s, a).ha)
  {
    match a
    case Lease(l) => HA.StepFences(s.ha, l);
    case Check(j) => HA.StepFences(s.ha, HA.Check(j));
    case Claim(j, _) => HA.StepFences(s.ha, HA.Commit(j));
    case _ =>
  }

  lemma {:induction false} RunOk(states: seq<State>, actions: seq<Action>, i: nat)
    requires IsRun(states, actions) && i < |states|
    ensures Claims(states[i].agg, states[i].claims) && FlippedOnce(states[i]) && JobsOk(states[i]) && SentOk(states[i]) && HA.FencesOk(states[i].ha)
  {
    if i > 0 {
      RunOk(states, actions, i - 1);
      StepClaims(states[i - 1], actions[i - 1]);
      StepFlipsOnce(states[i - 1], actions[i - 1]);
      StepJobs(states[i - 1], actions[i - 1]);
      StepSent(states[i - 1], actions[i - 1]);
      StepLease(states[i - 1], actions[i - 1]);
    }
  }

  // ---------------------------------------------------------------------------
  // Main results
  // ---------------------------------------------------------------------------

  predicate Flipped(s: State, s': State, k: Key) {
    k in s.agg && k in s'.agg && !s.agg[k].reported && s'.agg[k].reported
  }

  /** Whatever flips a row is a claim whose report lists it.  The claim flips exactly the
      rows of its report, at the counts the report states; they all carry the report's
      domain and address; and at that step the lease names the job's node and epoch. */
  lemma ClaimIsItsReport(states: seq<State>, actions: seq<Action>, i: nat, k: Key)
    requires IsRun(states, actions) && i < |actions| && Flipped(states[i], states[i + 1], k)
    ensures actions[i].Claim? && actions[i].job in states[i + 1].claims
    ensures var s, j, report := states[i], actions[i].job, states[i + 1].claims[actions[i].job];
      && j in s.ha.fences && HA.Names(s.ha.lease, s.ha.fences[j].node, s.ha.fences[j].epoch)
      && (forall k' :: k' in report.counts <==> Flipped(s, states[i + 1], k'))
      && (forall k' :: k' in report.counts ==>
            report.counts[k'] == s.agg[k'].count && k'.domain == report.domain && s.agg[k'].rua == report.rua)
  {
    RunOk(states, actions, i);
    assert states[i + 1] == Step(states[i], actions[i]);
  }

  /** Once reported, always reported: no row is flipped twice. */
  lemma {:induction false} ReportedForGood(states: seq<State>, actions: seq<Action>, i: nat, n: nat, k: Key)
    requires IsRun(states, actions) && i <= n < |states| && k in states[i].agg && states[i].agg[k].reported
    ensures k in states[n].agg && states[n].agg[k].reported
  {
    if i < n {
      ReportedForGood(states, actions, i, n - 1, k);
      assert states[n] == Step(states[n - 1], actions[n - 1]);
    }
  }

  predicate HasAuth(p: Phase) {
    p.Ready? || p.InTx? || p.Claimed?
  }

  lemma AuthKept(s: State, a: Action, j: JobId)
    requires Enabled(s, a) && j in Step(s, a).jobs && HasAuth(Step(s, a).jobs[j].phase)
    ensures j in s.jobs && var job, job' := s.jobs[j], Step(s, a).jobs[j];
      && job.rua == job'.rua && job.domain == job'.domain
      && (if HasAuth(job.phase) then job.phase.auth == job'.phase.auth
          else a == Authorize(j, job'.phase.auth) && !job'.phase.auth.Transient?)
  {
  }

  /** A job that has been authorized was authorized for the address it still holds. */
  lemma {:induction false} AuthorizedAt(states: seq<State>, actions: seq<Action>, n: nat, j: JobId) returns (a: nat)
    requires IsRun(states, actions) && n < |states| && j in states[n].jobs && HasAuth(states[n].jobs[j].phase)
    ensures a < n && actions[a] == Authorize(j, states[n].jobs[j].phase.auth) && !states[n].jobs[j].phase.auth.Transient?
    ensures j in states[a].jobs && states[a].jobs[j].rua == states[n].jobs[j].rua && states[a].jobs[j].domain == states[n].jobs[j].domain
  {
    AuthKept(states[n - 1], actions[n - 1], j);
    if HasAuth(states[n - 1].jobs[j].phase) {
      a := AuthorizedAt(states, actions, n - 1, j);
    } else {
      a := n - 1;
    }
  }

  /** A job that holds a claimed report got it from its own committed claim. */
  lemma BecomesClaimed(s: State, a: Action, j: JobId)
    requires Enabled(s, a) && j in Step(s, a).jobs && Step(s, a).jobs[j].phase.Claimed?
    ensures if j in s.jobs && s.jobs[j].phase.Claimed? then Step(s, a).jobs[j].phase.report == s.jobs[j].phase.report
      else a == Claim(j, true) && j in Step(s, a).claims && Step(s, a).jobs[j].phase.report == Step(s, a).claims[j]
  {
  }

  lemma {:induction false} ClaimedAt(states: seq<State>, actions: seq<Action>, n: nat, j: JobId) returns (c: nat)
    requires IsRun(states, actions) && n < |states| && j in states[n].jobs && states[n].jobs[j].phase.Claimed?
    ensures c < n && actions[c] == Claim(j, true) && j in states[c + 1].claims
    ensures states[n].jobs[j].phase.report == states[c + 1].claims[j]
  {
    var p, a := states[n - 1], actions[n - 1];
    assert states[n] == Step(p, a);
    BecomesClaimed(p, a, j);
    if j in p.jobs && p.jobs[j].phase.Claimed? {
      c := ClaimedAt(states, actions, n - 1, j);
    } else {
      c := n - 1;
    }
  }

  /** Every submission was made by a Submit step of a job holding that report. */
  lemma {:induction false} SubmittedAt(states: seq<State>, actions: seq<Action>, n: nat, i: nat) returns (t: nat)
    requires IsRun(states, actions) && n < |states| && i < |states[n].sent|
    ensures t < n && var m := states[n].sent[i];
      && m.job in states[t].jobs && states[t].jobs[m.job].phase.Claimed? && states[t].jobs[m.job].phase.report == m.report
      && m.to == states[t].jobs[m.job].rua && states[t].jobs[m.job].phase.auth != Denied
  {
    var p := states[n - 1];
    assert states[n] == Step(p, actions[n - 1]);
    if i < |p.sent| {
      t := SubmittedAt(states, actions, n - 1, i);
    } else {
      t := n - 1;
    }
  }

  /** Each submitted report is the report of a committed claim of its own job (whose rows
      ClaimIsItsReport describes), goes to the very address that was authorized for it,
      and is submitted once. */
  lemma SubmissionIsItsClaim(states: seq<State>, actions: seq<Action>, n: nat, i: nat) returns (a: nat, c: nat)
    requires IsRun(states, actions) && n < |states| && i < |states[n].sent|
    ensures var m := states[n].sent[i];
      && a < n && actions[a] == Authorize(m.job, Authorized) && m.job in states[a].jobs && states[a].jobs[m.job].rua == m.to
      && c < n && actions[c] == Claim(m.job, true) && m.job in states[c + 1].claims
      && m.report == states[c + 1].claims[m.job] && m.report.rua == m.to
      && forall i' :: 0 <= i' < |states[n].sent| && states[n].sent[i'].job == m.job ==> i' == i
  {
    RunOk(states, actions, n);
    var t := SubmittedAt(states, actions, n, i);
    a := AuthorizedAt(states, actions, t, states[n].sent[i].job);
    c := ClaimedAt(states, actions, t, states[n].sent[i].job);
  }

  ghost predicate Idle(s: State, j: JobId) {
    && j in s.jobs && s.jobs[j].phase.Ended? && j !in s.claims
    && forall k :: 0 <= k < |s.sent| ==> s.sent[k].job != j
  }

  lemma StaysIdle(s: State, a: Action, j: JobId)
    requires Enabled(s, a) && Idle(s, j)
    ensures Idle(Step(s, a), j)
  {
  }

  lemma TransientIsIdle(s: State, a: Action)
    requires Enabled(s, a) && a.Authorize? && a.auth.Transient? && JobsOk(s) && SentOk(s)
    ensures Step(s, a) == s.(jobs := Step(s, a).jobs) && Idle(Step(s, a), a.job)
  {
  }

  /** A transient authorization result ends the job and changes nothing else, then or
      later: the job never claims a row and never submits. */
  lemma {:induction false} TransientChangesNothing(states: seq<State>, actions: seq<Action>, i: nat, n: nat)
    requires IsRun(states, actions) && i < n < |states| && actions[i].Authorize? && actions[i].auth.Transient?
    ensures states[i + 1] == states[i].(jobs := states[i + 1].jobs)
    ensures Idle(states[n], actions[i].job)
  {
    RunOk(states, actions, i);
    TransientIsIdle(states[i], actions[i]);
    if n > i + 1 {
      TransientChangesNothing(states, actions, i, n - 1);
      StaysIdle(states[n - 1], actions[n - 1], actions[i].job);
    }
  }

  // ---------------------------------------------------------------------------
  // The report itself
  // ---------------------------------------------------------------------------

  datatype Record = Record(key: Key, count: nat)

  /** Builds the records of a report from the query's rows, in any order, and the window
      of days they span.  Days count from the zero time, which no row carries. */
  method GenerateReport(rows: seq<Record>) returns (records: seq<Record>, begin: nat, end: nat, ok: bool)
    requires forall i :: 0 <= i < |rows| ==> rows[i].key.day > 0
    ensures ok <==> rows != []
    ensures records == rows
    ensures ok ==> (exists i :: 0 <= i < |rows| && rows[i].key.day == begin)
    ensures ok ==> (exists i :: 0 <= i < |rows| && rows[i].key.day + 1 == end)
    ensures forall i :: 0 <= i < |rows| ==> begin <= rows[i].key.day < end
  {
    records := [];
    var minDay, maxDay := 0, 0;
    for n := 0 to |rows|
      invariant records == rows[..n]
      invariant n == 0 ==> minDay == maxDay == 0
      invariant n > 0 ==> exists i :: 0 <= i < n && rows[i].key.day == minDay
      invariant n > 0 ==> exists i :: 0 <= i < n && rows[i].key.day == maxDay
      invariant forall i :: 0 <= i < n ==> minDay <= rows[i].key.day <= maxDay
    {
      var day := rows[n].key.day;
      if minDay == 0 || day < minDay {
        minDay := day;
      }
      if day > maxDay {
        maxDay := day;
      }
      records := records + [rows[n]];
    }
    return records, minDay, maxDay + 1, records != [];
  }
}
