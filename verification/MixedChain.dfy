/** Chains in which rules forward mail and agents answer it: automatic mail of both kinds,
    each set off by the one before. */
module MixedChain {
  import opened Options
  import Rules = RuleChain
  import Replies = ReplyChain

  /** A message, as the rules and as the automatic replies see it. */
  datatype Mail = Mail(rule: Rules.Mail, header: Replies.Header)

  /** A forward carries no reply headers, a reply no rule metadata; both say that they are
      automatic. */
  function ForwardMail(m: Rules.Mail, messageId: string): Mail {
    Mail(m, Replies.Header(None, None, None, None, None, messageId, true))
  }

  function ReplyMail(m: Replies.Metadata, messageId: string): Mail {
    Mail(Rules.Mail(true, None), Replies.Headers(m, messageId))
  }

  datatype Link =
    | Forwarded(hop: Rules.Hop, messageId: string)
    | Answered(hop: Rules.Hop, occasion: Replies.Occasion)   // the hop says how the source verifies

  /** The mail that a link of the chain produces.  A reply is taken for an answer to a
      trusted forward only if the source verifies as one. */
  function Produced(c: Replies.Chain, m: Mail, l: Link): Option<Mail> {
    match l
    case Forwarded(hop, messageId) =>
      var f := Rules.Forward(m.rule, hop);
      if f.Some? then Some(ForwardMail(f.value, messageId)) else None
    case Answered(hop, o) =>
      var r := Replies.Next(c, m.header, o);
      if r.Reply? && (o.forward ==> Rules.Trusted(m.rule, hop)) then Some(ReplyMail(r.metadata, o.messageId)) else None
  }

  ghost predicate IsChain(c: Replies.Chain, mails: seq<Mail>, links: seq<Link>) {
    && |mails| == |links| + 1
    && (forall i :: 0 <= i < |links| && links[i].Answered? ==> Replies.ValidTraceId(links[i].occasion.freshId))
    && forall i :: 0 <= i < |links| ==> Produced(c, mails[i], links[i]) == Some(mails[i + 1])
  }

  /** Rules do not forward automatic replies: after the first answer come only answers. */
  lemma {:induction false} OnlyAnswersAfter(c: Replies.Chain, mails: seq<Mail>, links: seq<Link>, i: nat, j: nat)
    requires IsChain(c, mails, links) && i < j < |links| && links[i].Answered?
    ensures links[j].Answered? && !links[j].occasion.forward
  {
    if j > i + 1 {
      OnlyAnswersAfter(c, mails, links, i, j - 1);
    }
    assert Produced(c, mails[j - 1], links[j - 1]) == Some(mails[j]) && Produced(c, mails[j], links[j]) == Some(mails[j + 1]);
    assert mails[j].rule == Rules.Mail(true, None);
  }

  /** How many links of the chain are forwards, all at its beginning. */
  function Forwards(links: seq<Link>): nat {
    if links == [] || !links[0].Forwarded? then 0 else 1 + Forwards(links[1..])
  }

  lemma {:induction false} ForwardsFirst(links: seq<Link>)
    ensures Forwards(links) <= |links|
    ensures forall i :: 0 <= i < Forwards(links) ==> links[i].Forwarded?
    ensures Forwards(links) < |links| ==> links[Forwards(links)].Answered?
  {
    if links != [] && links[0].Forwarded? {
      ForwardsFirst(links[1..]);
      forall i | 0 <= i < Forwards(links) ensures links[i].Forwarded? {
        assert i > 0 ==> links[i] == links[1..][i - 1];
      }
    }
  }

  /** The forwards are no more than the rules. */
  lemma ForwardsBounded(c: Replies.Chain, mails: seq<Mail>, links: seq<Link>, n: nat, rules: set<Rules.RuleTrace.RuleId>)
    requires IsChain(c, mails, links) && n <= |links|
    requires forall i :: 0 <= i < n ==> links[i].Forwarded? && links[i].hop.rule in rules
    ensures n <= |rules|
  {
    var ms := seq(n + 1, i requires 0 <= i <= n => mails[i].rule);
    var hops := seq(n, i requires 0 <= i < n => links[i].hop);
    forall i | 0 <= i < n ensures Rules.Forward(ms[i], hops[i]) == Some(ms[i + 1]) {
      assert Produced(c, mails[i], links[i]) == Some(mails[i + 1]);
    }
    Rules.ChainIsBounded(ms, hops, rules);
  }

  function MetadataOf(c: Replies.Chain, m: Mail, l: Link): Replies.Metadata
    requires l.Answered?
  {
    var r := Replies.Next(c, m.header, l.occasion);
    if r.Reply? then r.metadata else Replies.Metadata("", 0, "", 0, "")
  }

  lemma AnsweredBy(c: Replies.Chain, m: Mail, l: Link, m': Mail)
    requires l.Answered? && Produced(c, m, l) == Some(m')
    ensures Replies.Next(c, m.header, l.occasion) == Replies.Reply(MetadataOf(c, m, l))
    ensures m'.header == Replies.Headers(MetadataOf(c, m, l), l.occasion.messageId)
  {
  }

  /** Answers count up by one, within the reply limit. */
  lemma {:induction false} AnswersCountUp(c: Replies.Chain, mails: seq<Mail>, links: seq<Link>, n: nat, i: nat)
    requires Replies.Lawful(c) && IsChain(c, mails, links) && n <= i < |links|
    requires forall j :: n <= j < |links| ==> links[j].Answered? && (j > n ==> !links[j].occasion.forward)
    ensures 1 <= MetadataOf(c, mails[i], links[i]).count <= c.maxCount
    ensures MetadataOf(c, mails[i], links[i]).count == MetadataOf(c, mails[n], links[n]).count + (i - n)
  {
    AnsweredBy(c, mails[i], links[i], mails[i + 1]);
    Replies.NextCounts(c, mails[i].header, links[i].occasion);
    if i > n {
      AnswersCountUp(c, mails, links, n, i - 1);
      AnsweredBy(c, mails[i - 1], links[i - 1], mails[i]);
      Replies.AnswersReply(c, MetadataOf(c, mails[i - 1], links[i - 1]), links[i - 1].occasion.messageId, links[i].occasion);
    }
  }

  /** Automatic mail dies out: a chain of forwards and replies, of whatever beginning, is no
      longer than the number of rules and the reply limit together. */
  lemma ChainIsBounded(c: Replies.Chain, mails: seq<Mail>, links: seq<Link>, rules: set<Rules.RuleTrace.RuleId>)
    requires Replies.Lawful(c) && IsChain(c, mails, links)
    requires forall i :: 0 <= i < |links| && links[i].Forwarded? ==> links[i].hop.rule in rules
    ensures |links| <= |rules| + c.maxCount
  {
    var n := Forwards(links);
    ForwardsFirst(links);
    ForwardsBounded(c, mails, links, n, rules);
    forall j | n < j < |links| ensures links[j].Answered? && !links[j].occasion.forward {
      OnlyAnswersAfter(c, mails, links, n, j);
    }
    if n < |links| {
      AnswersCountUp(c, mails, links, n, n);
      AnswersCountUp(c, mails, links, n, |links| - 1);
    }
  }
}
