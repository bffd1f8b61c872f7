/** Chains of rule forwards: each forward is mail that rules may forward again. */
module RuleChain {
  import opened Options
  import opened RuleTrace

  /** The signed part of a forward that bounds its chain. */
  datatype Metadata = Metadata(ruleId: RuleId, hop: nat, trace: seq<RuleId>)

  datatype Mail = Mail(automated: bool, metadata: Option<Metadata>)

  /** What canonicalMetadata accepts of it. */
  predicate Canonical(m: Metadata) {
    ValidTrace(m.trace) && m.hop == |m.trace| && m.trace[|m.trace| - 1] == m.ruleId
  }

  method CheckMetadata(m: Metadata) returns (ok: bool)
    ensures ok <==> Canonical(m)
  {
    if |m.trace| == 0 || |m.trace| > MAX_HOP || m.hop != |m.trace| {
      return false;
    }
    var valid := CheckTrace(m.trace);
    return valid && m.trace[|m.trace| - 1] == m.ruleId;
  }

  /** One forward: the rule; whether the deployment has a signing key; and whether the
      source's signature, recipients, expiry and content check out at this time. */
  datatype Hop = Hop(rule: RuleId, keyed: bool, genuine: bool)

  predicate Trusted(m: Mail, h: Hop) {
    h.keyed && h.genuine && m.metadata.Some? && Canonical(m.metadata.value)
  }

  function TraceOf(m: Mail, h: Hop): seq<RuleId> {
    if Trusted(m, h) then m.metadata.value.trace else []
  }

  predicate Blocked(m: Mail, h: Hop) {
    (m.automated && !Trusted(m, h)) || h.rule in TraceOf(m, h)
  }

  /** The forward of `m`, unless it is blocked or cannot be signed. */
  function Forward(m: Mail, h: Hop): Option<Mail> {
    if Blocked(m, h) then None
    else if !h.keyed then Some(Mail(true, None))
    else
      var trace := TraceOf(m, h) + [h.rule];
      if ValidTrace(trace) then Some(Mail(true, Some(Metadata(h.rule, |trace|, trace)))) else None
  }

  ghost predicate IsChain(mails: seq<Mail>, hops: seq<Hop>) {
    |mails| == |hops| + 1 && forall i :: 0 <= i < |hops| ==> Forward(mails[i], hops[i]) == Some(mails[i + 1])
  }

  function Rules(hops: seq<Hop>): seq<RuleId> {
    seq(|hops|, i requires 0 <= i < |hops| => hops[i].rule)
  }

  /** A forward that is forwarded again carries the whole chain: the trace its first
      source came with, then every rule since, each once. */
  lemma {:induction false} CarriesChain(mails: seq<Mail>, hops: seq<Hop>, n: nat)
    requires IsChain(mails, hops) && 0 < n < |hops|
    ensures Trusted(mails[n], hops[n])
    ensures TraceOf(mails[n], hops[n]) == TraceOf(mails[0], hops[0]) + Rules(hops[..n])
  {
    assert Forward(mails[n], hops[n]) == Some(mails[n + 1]);
    assert Forward(mails[n - 1], hops[n - 1]) == Some(mails[n]);
    if n > 1 {
      CarriesChain(mails, hops, n - 1);
    }
    assert Rules(hops[..n]) == Rules(hops[..n - 1]) + [hops[n - 1].rule];
  }

  /** No rule forwards twice in a chain. */
  lemma RulesDistinct(mails: seq<Mail>, hops: seq<Hop>, i: nat, j: nat)
    requires IsChain(mails, hops) && i < j < |hops|
    ensures hops[i].rule != hops[j].rule
  {
    CarriesChain(mails, hops, j);
    assert Forward(mails[j], hops[j]) == Some(mails[j + 1]);
    assert Rules(hops[..j])[i] == hops[i].rule;
    assert hops[i].rule in TraceOf(mails[j], hops[j]);
  }

  /** The last forward of a chain, if signed, states the chain's length and rules. */
  lemma HopIsLength(mails: seq<Mail>, hops: seq<Hop>)
    requires IsChain(mails, hops) && hops != [] && hops[|hops| - 1].keyed
    ensures var m := mails[|hops|].metadata;
      && m.Some? && Canonical(m.value)
      && m.value.trace == TraceOf(mails[0], hops[0]) + Rules(hops)
      && m.value.hop == |TraceOf(mails[0], hops[0])| + |hops|
  {
    var n := |hops| - 1;
    assert Forward(mails[n], hops[n]) == Some(mails[n + 1]);
    if n > 0 {
      CarriesChain(mails, hops, n);
    }
    assert Rules(hops) == Rules(hops[..n]) + [hops[n].rule];
  }

  /** A chain is no longer than there are rules. */
  lemma ChainIsBounded(mails: seq<Mail>, hops: seq<Hop>, rules: set<RuleId>)
    requires IsChain(mails, hops) && forall i :: 0 <= i < |hops| ==> hops[i].rule in rules
    ensures |hops| <= |rules|
  {
    var ids := Rules(hops);
    forall i, j | 0 <= i < j < |ids| ensures ids[i] != ids[j] {
      RulesDistinct(mails, hops, i, j);
    }
    DistinctSize(ids);
    forall r | r in Members(ids) ensures r in rules {
      var i :| 0 <= i < |ids| && ids[i] == r;
      assert hops[i].rule in rules;
    }
    SubsetSize(Members(ids), rules);
  }

  function Members(ids: seq<RuleId>): set<RuleId> {
    set r | r in ids
  }

  lemma {:induction false} DistinctSize(ids: seq<RuleId>)
    requires Distinct(ids)
    ensures |Members(ids)| == |ids|
  {
    if ids != [] {
      var front, last := ids[..|ids| - 1], ids[|ids| - 1];
      DistinctSize(front);
      assert Members(ids) == Members(front) + {last} && last !in front;
    }
  }

  lemma {:induction false} SubsetSize<T>(a: set<T>, b: set<T>)
    requires a <= b
    ensures |a| <= |b|
  {
    if a != {} {
      var x :| x in a;
      SubsetSize(a - {x}, b - {x});
    }
  }
}
