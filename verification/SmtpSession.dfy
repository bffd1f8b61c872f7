/** The SMTP session of `protocol/smtpd`: what one connection remembers between commands,
    and what it hands on. */
module SmtpSession {
  import opened Options

  type Account = nat

  const DefaultMaxRcpt := 1000
  const Second := 1_000_000_000
  const MaxFutureRelease := 90 * 24 * 3600 * Second
  const MAX_INT64 := 0x7FFF_FFFF_FFFF_FFFF

  datatype Config = Config(submission: bool, tls: bool, burl: bool, maxRcpt: int, maxSize: int)

  function RcptMax(cfg: Config): nat {
    if cfg.maxRcpt > 0 then cfg.maxRcpt else DefaultMaxRcpt
  }

  /** What the session did, as far as it matters to others. */
  datatype Event =
    | Authenticated(account: Account)
    | SecuredTls
    | Enqueued(account: Account, owner: Account, from: string, to: seq<string>, data: string)
    | Delivered(rcpt: string, data: string)
    | Handled(kind: Kind, localpart: string, data: string)

  datatype Kind = Normal | Bounce | Report

  /** The account authenticated by the last AUTH, unless STARTTLS came after it. */
  function AuthenticatedAs(log: seq<Event>): Option<Account> {
    if log == [] then None
    else match log[|log| - 1]
      case Authenticated(a) => Some(a)
      case SecuredTls => None
      case _ => AuthenticatedAs(log[..|log| - 1])
  }

  /** Everything enqueued was sent by the account then authenticated, from an address of
      that account, to at least one and at most RCPTMAX recipients, within the size. */
  ghost predicate LogOk(log: seq<Event>, cfg: Config) {
    forall i :: 0 <= i < |log| && log[i].Enqueued? ==>
      && cfg.submission
      && AuthenticatedAs(log[..i]) == Some(log[i].account) && log[i].owner == log[i].account
      && log[i].from != "" && 0 < |log[i].to| <= RcptMax(cfg)
      && (cfg.maxSize > 0 ==> |log[i].data| <= cfg.maxSize)
  }

  // ---------------------------------------------------------------------------
  // FUTURERELEASE
  // ---------------------------------------------------------------------------

  /** 64-bit arithmetic wraps around. */
  function Wrap64(x: int): int {
    (x + MAX_INT64 + 1) % (2 * (MAX_INT64 + 1)) - MAX_INT64 - 1
  }

  datatype Hold = NoHold | HoldBoth | HoldFor(seconds: int) | HoldUntil(time: Option<int>)

  /** The release time of a MAIL command; None when it is refused, 0 for no hold. */
  function ReleaseAt(h: Hold, now: int): Option<int> {
    match h
    case NoHold => Some(0)
    case HoldBoth => None
    case HoldFor(n) => if n < 0 || Wrap64(n * Second) > MaxFutureRelease then None else Some(now + Wrap64(n * Second))
    case HoldUntil(None) => None
    case HoldUntil(Some(t)) => if t > now + MaxFutureRelease then None else Some(t)
  }

  /** HOLDFOR is treated as the limit asks: granted exactly for 0 to 90 days, and then for
      as long as was asked. */
  predicate HoldForIsRight(n: int, now: int) {
    var r := ReleaseAt(HoldFor(n), now);
    (r.Some? <==> 0 <= n <= 90 * 24 * 3600) && (r.Some? ==> r.value == now + n * Second)
  }

  /** That is so for a 64-bit number of seconds if and only if its nanoseconds fit in 64
      bits, or wrap around to more than the limit. */
  lemma HoldForExactly(n: int, now: int)
    requires n <= MAX_INT64
    ensures HoldForIsRight(n, now) <==> n * Second <= MAX_INT64 || Wrap64(n * Second) > MaxFutureRelease
  {
    assert 0 <= n * Second <= MAX_INT64 ==> Wrap64(n * Second) == n * Second;
  }

  /** Where the product wraps around, holds are granted in the past, for now, or for some
      other time, and some are still refused. */
  lemma HoldForWraps(now: int)
    ensures 9223372037 * Second > MAX_INT64 >= 9223372036 * Second
    ensures ReleaseAt(HoldFor(9223372037), now).Some? && ReleaseAt(HoldFor(9223372037), now).value < now
    ensures ReleaseAt(HoldFor(27670116110), now).None?
    ensures ReleaseAt(HoldFor(36028797018963968), now) == Some(now)
    ensures ReleaseAt(HoldFor(36028797018963968 + 100), now) == Some(now + 100 * Second)
  {
  }

  // ---------------------------------------------------------------------------
  // The session
  // ---------------------------------------------------------------------------

  /** What the environment says of the recipients of an inbound message: refused as a
      whole (loop, DNSBL, DMARC), or accepted one by one until the first that is not. */
  datatype Inbound = Inbound(refused: bool, accepted: nat)

  class Session {
    const cfg: Config

    var tls: bool
    var authed: bool
    var authAccount: Account

    var haveFrom: bool
    var mailFrom: string
    var holdUntil: int
    var rcpts: seq<string>
    var subRcpts: seq<string>
    var subNotify: seq<string>
    var bounceRcpts: seq<string>
    var reportRcpts: seq<string>
    var bdatBuf: string

    ghost var log: seq<Event>
    ghost var mailOwner: Option<Account>   // the account the sender address belonged to at MAIL

    constructor (cfg: Config)
      ensures Valid() && this.cfg == cfg && log == []
    {
      this.cfg := cfg;
      tls, authed, authAccount := false, false, 0;
      haveFrom, mailFrom, holdUntil := false, "", 0;
      rcpts, subRcpts, subNotify, bounceRcpts, reportRcpts := [], [], [], [], [];
      bdatBuf := "";
      log, mailOwner := [], None;
    }

    ghost predicate NoRecipients()
      reads this
    {
      rcpts == [] && subRcpts == [] && bounceRcpts == [] && reportRcpts == []
    }

    /** Recipients come after an accepted MAIL, are of one kind, and no more than RCPTMAX. */
    ghost predicate RecipientsOk()
      reads this
    {
      && (!haveFrom ==> NoRecipients() && bdatBuf == "")
      && (if cfg.submission then rcpts == [] && bounceRcpts == [] && reportRcpts == [] else subRcpts == [])
      && (bounceRcpts != [] ==> rcpts == [] && reportRcpts == [])
      && (reportRcpts != [] ==> rcpts == [] && bounceRcpts == [])
      && |subNotify| == |subRcpts|
      && |rcpts| + |subRcpts| + |bounceRcpts| + |reportRcpts| <= RcptMax(cfg)
    }

    ghost predicate Valid()
      reads this
    {
      && RecipientsOk()
      && (cfg.maxSize > 0 ==> |bdatBuf| <= cfg.maxSize)
      && (authed ==> AuthenticatedAs(log) == Some(authAccount))
      && (!authed ==> AuthenticatedAs(log) == None)
      && (cfg.submission && haveFrom ==> authed && mailFrom != "" && mailOwner == Some(authAccount))
      && (!haveFrom ==> mailFrom == "")
      && LogOk(log, cfg)
    }

    twostate predicate TransactionCleared()
      reads this
    {
      && !haveFrom && mailFrom == "" && holdUntil == 0 && NoRecipients() && subNotify == [] && bdatBuf == ""
      && tls == old(tls) && authed == old(authed) && authAccount == old(authAccount) && log == old(log)
    }

    method Reset()
      modifies this
      ensures TransactionCleared()
    {
      mailFrom, haveFrom, holdUntil := "", false, 0;
      rcpts, subRcpts, subNotify, bounceRcpts, reportRcpts := [], [], [], [], [];
      bdatBuf := "";
    }

    /** STARTTLS forgets the transaction and the authentication. */
    method StartTls(handshake: bool)
      requires Valid()
      modifies this
      ensures Valid()
      ensures cfg.tls && !old(tls) && handshake ==> tls && !authed && !haveFrom && log == old(log) + [SecuredTls]
      ensures !(cfg.tls && !old(tls) && handshake) ==> unchanged(this)
    {
      if !cfg.tls || tls || !handshake {
        return;
      }
      tls := true;
      Reset();
      authed := false;
      Quiet(log, SecuredTls, cfg);
      log := log + [SecuredTls];
    }

    /** AUTH: a failure leaves everything as it was, a success forgets the transaction, so
        no sender accepted before survives it. */
    method Auth(principal: Option<Account>)
      requires Valid()
      modifies this
      ensures Valid()
      ensures var granted := cfg.submission && (old(tls) || !cfg.tls) && principal.Some?;
        if granted then authed && authAccount == principal.value && !haveFrom && log == old(log) + [Authenticated(principal.value)]
        else unchanged(this)
    {
      if !cfg.submission || !(tls || !cfg.tls) || principal.None? {
        return;
      }
      authed := true;
      authAccount := principal.value;
      Reset();
      Quiet(log, Authenticated(principal.value), cfg);
      log := log + [Authenticated(principal.value)];
    }

    predicate TooLarge(size: Option<int>) {
      size.Some? && cfg.maxSize > 0 && size.value > cfg.maxSize
    }

    /** MAIL: `owner` is the account the address belongs to in the authenticated scope. */
    method Mail(addr: Option<string>, size: Option<int>, owner: Option<Account>, hold: Hold, now: int) returns (ok: bool)
      requires Valid()
      modifies this
      ensures Valid() && log == old(log) && authed == old(authed) && authAccount == old(authAccount)
      ensures ok ==> haveFrom && addr == Some(mailFrom) && NoRecipients() && bdatBuf == ""
      ensures ok && cfg.submission ==> authed && owner == Some(authAccount) && Some(holdUntil) == ReleaseAt(hold, now)
      ensures !ok ==> if addr.None? || TooLarge(size) then unchanged(this) else TransactionCleared()
    {
      if addr.None? {
        return false;
      }
      if TooLarge(size) {
        return false;
      }
      Reset();
      if cfg.submission {
        if !authed {
          return false;
        }
        if addr.value == "" || owner != Some(authAccount) {
          return false;
        }
        var release := ReleaseAt(hold, now);
        if release.None? {
          return false;
        }
        holdUntil := release.value;
      }
      mailFrom, haveFrom := addr.value, true;
      mailOwner := owner;
      return true;
    }

    /** RCPT: adds exactly one recipient to the list of its kind, or nothing. */
    method Rcpt(addr: Option<string>, kind: Kind, localpart: string, resolves: bool, notify: string) returns (ok: bool)
      requires Valid()
      modifies `rcpts, `subRcpts, `subNotify, `bounceRcpts, `reportRcpts
      ensures Valid()
      ensures ok ==> haveFrom && addr.Some?
      ensures !ok ==> unchanged(this)
      ensures ok && cfg.submission ==> subRcpts == old(subRcpts) + [addr.value] && subNotify == old(subNotify) + [notify]
      ensures ok && !cfg.submission && kind == Bounce ==> bounceRcpts == old(bounceRcpts) + [localpart] && rcpts == reportRcpts == []
      ensures ok && !cfg.submission && kind == Report ==> reportRcpts == old(reportRcpts) + [localpart] && rcpts == bounceRcpts == []
      ensures ok && !cfg.submission && kind == Normal ==> resolves && rcpts == old(rcpts) + [addr.value] && bounceRcpts == reportRcpts == []
    {
      if !haveFrom || addr.None? {
        return false;
      }
      if |rcpts| + |subRcpts| + |bounceRcpts| + |reportRcpts| >= RcptMax(cfg) {
        return false;
      }
      if cfg.submission {
        if !authed {
          return false;
        }
        subRcpts := subRcpts + [addr.value];
        subNotify := subNotify + [notify];
        return true;
      }
      if kind == Bounce {
        if |rcpts| > 0 || |reportRcpts| > 0 {
          return false;
        }
        bounceRcpts := bounceRcpts + [localpart];
        return true;
      }
      if kind == Report {
        if |rcpts| > 0 || |bounceRcpts| > 0 {
          return false;
        }
        reportRcpts := reportRcpts + [localpart];
        return true;
      }
      if |bounceRcpts| > 0 || |reportRcpts| > 0 || !resolves {
        return false;
      }
      rcpts := rcpts + [addr.value];
      return true;
    }

    method NoteAll(events: seq<Event>)
      requires Valid() && Plain(events)
      modifies `log
      ensures Valid() && log == old(log) + events
    {
      QuietAll(log, events, cfg);
      log := log + events;
    }

    /** Hands a message to the bounce or report handler, once for each distinct address. */
    method HandleEach(kind: Kind, localparts: seq<string>, data: string)
      requires Valid()
      modifies `log
      ensures Valid() && log == old(log) + HandledEach(kind, localparts, data)
    {
      var seen: set<string>, handled: seq<Event> := {}, [];
      for i := 0 to |localparts|
        invariant handled == HandledEach(kind, localparts[..i], data) && Plain(handled)
        invariant seen == set l | l in localparts[..i]
      {
        assert localparts[..i + 1][..i] == localparts[..i];
        if localparts[i] in seen {
          continue;
        }
        seen := seen + {localparts[i]};
        handled := handled + [Handled(kind, localparts[i], data)];
      }
      assert localparts[..|localparts|] == localparts;
      NoteAll(handled);
    }

    /** Delivers to the recipients in turn, up to the first that is not accepted. */
    method DeliverEach(data: string, accepted: nat)
      requires Valid()
      modifies `log
      ensures Valid() && log == old(log) + DeliveredEach(rcpts[..Min(accepted, |rcpts|)], data)
    {
      var delivered: seq<Event> := [];
      for i := 0 to Min(accepted, |rcpts|)
        invariant delivered == DeliveredEach(rcpts[..i], data) && Plain(delivered)
      {
        assert rcpts[..i + 1][..i] == rcpts[..i];
        delivered := delivered + [Delivered(rcpts[i], data)];
      }
      NoteAll(delivered);
    }

    /** The account the sender address belonged to when MAIL was accepted. */
    ghost function Owner(): Account
      reads this
    {
      if mailOwner.Some? then mailOwner.value else 0
    }

    ghost predicate TooBig(data: string)
      reads this
    {
      cfg.maxSize > 0 && |data| > cfg.maxSize
    }

    /** What a complete message body does to the log. */
    ghost function Outcome(data: string, inbound: Inbound): seq<Event>
      reads this
    {
      if TooBig(data) then []
      else if bounceRcpts != [] then HandledEach(Bounce, bounceRcpts, data)
      else if reportRcpts != [] then HandledEach(Report, reportRcpts, data)
      else if cfg.submission then [Enqueued(authAccount, Owner(), mailFrom, subRcpts, data)]
      else if inbound.refused then []
      else DeliveredEach(rcpts[..Min(inbound.accepted, |rcpts|)], data)
    }

    /** A complete message: routed by the kind of its recipients; and whatever happens, the
        transaction is over. */
    method ProcessData(data: string, inbound: Inbound)
      requires Valid() && haveFrom && !NoRecipients()
      modifies this
      ensures Valid() && !haveFrom && authed == old(authed) && authAccount == old(authAccount)
      ensures log == old(log) + old(Outcome(data, inbound))
    {
      ghost var before := log;
      if cfg.maxSize > 0 && |data| > cfg.maxSize {
        Reset();
        return;
      }
      if |bounceRcpts| > 0 {
        HandleEach(Bounce, bounceRcpts, data);
        Reset();
        return;
      }
      if |reportRcpts| > 0 {
        HandleEach(Report, reportRcpts, data);
        Reset();
        return;
      }
      if cfg.submission {
        Enqueue(data);
        Reset();
        return;
      }
      if !inbound.refused {
        DeliverEach(data, inbound.accepted);
      }
      Reset();
    }

    /** Submission: the queue gets the message in the name of the authenticated account. */
    method Enqueue(data: string)
      requires Valid() && cfg.submission && haveFrom && subRcpts != [] && !TooBig(data)
      modifies `log
      ensures Valid() && log == old(log) + [Enqueued(authAccount, Owner(), mailFrom, subRcpts, data)]
    {
      ghost var e := Enqueued(authAccount, Owner(), mailFrom, subRcpts, data);
      EnqueueOk(log, e, cfg);
      log := log + [e];
    }

    /** DATA: refused out of sequence, without any effect. */
    method Data(read: Option<string>, inbound: Inbound)
      requires Valid()
      modifies this
      ensures Valid()
      ensures !old(haveFrom) || old(NoRecipients()) || read.None? ==> unchanged(this)
      ensures old(haveFrom) && !old(NoRecipients()) && read.Some? ==> !haveFrom && log == old(log) + old(Outcome(read.value, inbound))
    {
      var haveRcpt := if cfg.submission then |subRcpts| > 0 else |rcpts| > 0 || |bounceRcpts| > 0 || |reportRcpts| > 0;
      if !haveFrom || !haveRcpt || read.None? {
        return;
      }
      if cfg.maxSize > 0 && |read.value| > cfg.maxSize {
        Reset();
        return;
      }
      ProcessData(read.value, inbound);
    }

    /** BDAT: a chunk too many for the limit ends the transaction before it is read. */
    method Bdat(size: Option<nat>, last: bool, chunk: Option<string>, inbound: Inbound)
      requires Valid() && (size.Some? && chunk.Some? ==> |chunk.value| == size.value)
      modifies this
      ensures Valid()
      ensures size.None? || !old(haveFrom) || old(NoRecipients()) ==> unchanged(this)
      ensures size.Some? && old(haveFrom) && !old(NoRecipients()) && chunk.Some? && last ==>
        var data := old(bdatBuf) + chunk.value;
        !haveFrom && log == old(log) + if old(TooBig(data)) then [] else old(Outcome(data, inbound))
      ensures size.Some? && old(haveFrom) && !old(NoRecipients()) && chunk.Some? && !last && !old(TooBig(bdatBuf + chunk.value)) ==>
        bdatBuf == old(bdatBuf) + chunk.value && haveFrom && log == old(log)
      ensures size.Some? && old(haveFrom) && !old(NoRecipients()) && cfg.maxSize > 0 && size.value > cfg.maxSize - |old(bdatBuf)| ==>
        TransactionCleared() && log == old(log)
    {
      if size.None? {
        return;
      }
      if !haveFrom || (|rcpts| == 0 && |subRcpts| == 0 && |bounceRcpts| == 0 && |reportRcpts| == 0) {
        return;
      }
      if cfg.maxSize > 0 && size.value > cfg.maxSize - |bdatBuf| {
        Reset();
        return;
      }
      if chunk.None? {
        return;
      }
      bdatBuf := bdatBuf + chunk.value;
      if last {
        ProcessData(bdatBuf, inbound);
      }
    }

    /** BURL: the content comes from the authenticated account's own store. */
    method Burl(wellFormed: bool, content: Option<string>)
      requires Valid()
      modifies this
      ensures Valid()
      ensures cfg.submission && cfg.burl && old(authed && haveFrom && subRcpts != []) && wellFormed && content.Some? ==>
        !haveFrom && log == old(log) + old(Outcome(content.value, Inbound(false, 0)))
      ensures !(cfg.submission && cfg.burl && old(authed && haveFrom && subRcpts != []) && wellFormed && content.Some?) ==> unchanged(this)
    {
      if !cfg.submission || !cfg.burl || !authed || !haveFrom || |subRcpts| == 0 || !wellFormed || content.None? {
        return;
      }
      if cfg.maxSize > 0 && |content.value| > cfg.maxSize {
        Reset();
        return;
      }
      ProcessData(content.value, Inbound(false, 0));
    }

    /** The command loop: whatever commands come, in whatever order, the session stays
        valid, and so does everything it ever handed on. */
    method Serve(commands: seq<Command>)
      requires Valid()
      modifies this
      ensures Valid() && LogOk(log, cfg)
    {
      for i := 0 to |commands|
        invariant Valid()
      {
        match commands[i]
        case Rset => Reset();
        case StartTls(handshake) => StartTls(handshake);
        case Auth(principal) => Auth(principal);
        case Mail(addr, size, owner, hold, now) => var _ := Mail(addr, size, owner, hold, now);
        case Rcpt(addr, kind, localpart, resolves, notify) => var _ := Rcpt(addr, kind, localpart, resolves, notify);
        case Data(read, inbound) => Data(read, inbound);
        case Bdat(last, chunk, inbound) => Bdat(Some(|chunk|), last, Some(chunk), inbound);
        case Burl(wellFormed, content) => Burl(wellFormed, content);
        case Other =>
      }
    }
  }

  datatype Command =
    | Rset
    | StartTls(handshake: bool)
    | Auth(principal: Option<Account>)
    | Mail(addr: Option<string>, size: Option<int>, owner: Option<Account>, hold: Hold, now: int)
    | Rcpt(addr: Option<string>, kind: Kind, localpart: string, resolves: bool, notify: string)
    | Data(read: Option<string>, inbound: Inbound)
    | Bdat(last: bool, chunk: string, inbound: Inbound)
    | Burl(wellFormed: bool, content: Option<string>)
    | Other

  function Min(a: nat, b: nat): nat {
    if a < b then a else b
  }

  function HandledEach(kind: Kind, localparts: seq<string>, data: string): seq<Event> {
    if localparts == [] then []
    else
      var front, last := localparts[..|localparts| - 1], localparts[|localparts| - 1];
      HandledEach(kind, front, data) + if last in front then [] else [Handled(kind, last, data)]
  }

  function DeliveredEach(rcpts: seq<string>, data: string): seq<Event> {
    if rcpts == [] then [] else DeliveredEach(rcpts[..|rcpts| - 1], data) + [Delivered(rcpts[|rcpts| - 1], data)]
  }

  /** Each address is handled exactly once, however often it was given. */
  lemma {:induction false} HandledOnce(kind: Kind, localparts: seq<string>, data: string, l: string)
    ensures multiset(HandledEach(kind, localparts, data))[Handled(kind, l, data)] == if l in localparts then 1 else 0
  {
    if localparts != [] {
      HandledOnce(kind, localparts[..|localparts| - 1], data, l);
    }
  }

  /** Events other than submissions and changes of authentication. */
  predicate Plain(events: seq<Event>) {
    forall i :: 0 <= i < |events| ==> events[i].Delivered? || events[i].Handled?
  }

  lemma {:induction false} QuietAll(log: seq<Event>, events: seq<Event>, cfg: Config)
    requires LogOk(log, cfg) && Plain(events)
    ensures LogOk(log + events, cfg) && AuthenticatedAs(log + events) == AuthenticatedAs(log)
  {
    if events == [] {
      assert log + events == log;
    } else {
      var front, last := events[..|events| - 1], events[|events| - 1];
      QuietAll(log, front, cfg);
      Quiet(log + front, last, cfg);
      assert log + events == log + front + [last];
    }
  }

  lemma EnqueueOk(log: seq<Event>, e: Event, cfg: Config)
    requires LogOk(log, cfg) && e.Enqueued? && cfg.submission && AuthenticatedAs(log) == Some(e.account) && e.owner == e.account
    requires e.from != "" && 0 < |e.to| <= RcptMax(cfg) && (cfg.maxSize > 0 ==> |e.data| <= cfg.maxSize)
    ensures LogOk(log + [e], cfg) && AuthenticatedAs(log + [e]) == AuthenticatedAs(log)
  {
    var l := log + [e];
    assert l[..|log|] == log;
    forall i | 0 <= i < |log| ensures l[..i] == log[..i] && l[i] == log[i] {
    }
  }

  /** Adding an event that is not a submission keeps the log in order. */
  lemma Quiet(log: seq<Event>, e: Event, cfg: Config)
    requires LogOk(log, cfg) && !e.Enqueued?
    ensures LogOk(log + [e], cfg) && AuthenticatedAs(log + [e]) == (match e case Authenticated(a) => Some(a) case SecuredTls => None case _ => AuthenticatedAs(log))
  {
    var l := log + [e];
    assert l[..|log|] == log;
    forall i | 0 <= i < |l| && l[i].Enqueued? ensures l[..i] == log[..i] && l[i] == log[i] {
    }
  }
}
