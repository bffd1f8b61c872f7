/** The rule trace carried by rule forwards (`mailflow/rulemetadata`), and why chains of
    forwards die out (`mailflow/mailrules`). */
module RuleTrace {
  import opened Options
  import opened Text

  const MAX_HOP := 1_000_000
  const MAX_INT64 := 0x7FFF_FFFF_FFFF_FFFF

  type RuleId = x: int | x <= 0x7FFF_FFFF_FFFF_FFFF

  predicate Distinct(trace: seq<RuleId>) {
    forall i, j :: 0 <= i < j < |trace| ==> trace[i] != trace[j]
  }

  predicate Positive(trace: seq<RuleId>) {
    forall i :: 0 <= i < |trace| ==> trace[i] > 0
  }

  predicate ValidTrace(trace: seq<RuleId>) {
    0 < |trace| <= MAX_HOP && Distinct(trace) && Positive(trace)
  }

  /** The loop shared by FormatRuleTrace and canonicalMetadata. */
  method CheckTrace(trace: seq<RuleId>) returns (ok: bool)
    ensures ok <==> ValidTrace(trace)
  {
    if |trace| == 0 || |trace| > MAX_HOP {
      return false;
    }
    var seen: set<RuleId> := {};
    for i := 0 to |trace|
      invariant seen == set x | x in trace[..i]
      invariant Distinct(trace[..i]) && forall k :: 0 <= k < i ==> trace[k] > 0
    {
      if trace[i] <= 0 || trace[i] in seen {
        assert trace[i] in seen ==> exists k :: 0 <= k < i && trace[k] == trace[i];
        return false;
      }
      seen := seen + {trace[i]};
    }
    assert trace[..|trace|] == trace;
    return true;
  }

  /** Valid traces only; `Format` takes naturals. */
  function FormatTrace(trace: seq<RuleId>): string
    requires ValidTrace(trace)
  {
    Join(seq(|trace|, i requires 0 <= i < |trace| => Format(trace[i])), ',')
  }

  method FormatRuleTrace(trace: seq<RuleId>) returns (r: Option<string>)
    ensures r.Some? <==> ValidTrace(trace)
    ensures r.Some? ==> r.value == FormatTrace(trace)
  {
    var ok := CheckTrace(trace);
    if !ok {
      return None;
    }
    var values: seq<string> := [];
    for i := 0 to |trace|
      invariant |values| == i && forall k :: 0 <= k < i ==> values[k] == Format(trace[k])
    {
      values := values + [Format(trace[i])];
    }
    assert values == seq(|trace|, i requires 0 <= i < |trace| => Format(trace[i]));
    return Some(Join(values, ','));
  }

  /** One entry of the list, as it is read back. */
  function ReadId(part: string): Option<RuleId> {
    var r := ParseInt(TrimSpace(part), MAX_INT64);
    if r.Some? then Some(r.value) else None
  }

  predicate Entries(parts: seq<string>, trace: seq<RuleId>) {
    |parts| == |trace| && forall i :: 0 <= i < |parts| ==> ReadId(parts[i]) == Some(trace[i])
  }

  /** The text lists exactly this trace. */
  predicate Reads(value: string, trace: seq<RuleId>) {
    ValidTrace(trace) && Entries(Split(value, ','), trace)
  }

  function Count(s: string, c: char): nat {
    if s == "" then 0 else (if s[0] == c then 1 else 0) + Count(s[1..], c)
  }

  lemma {:induction false} CountParts(s: string, c: char)
    ensures |Split(s, c)| == Count(s, c) + 1
    decreases |s|
  {
    if c in s {
      var i := IndexOf(s, c);
      CountFrom(s, c, i);
      CountParts(s[i + 1..], c);
    } else {
      CountNone(s, c);
    }
  }

  lemma {:induction false} CountNone(s: string, c: char)
    requires c !in s
    ensures Count(s, c) == 0
  {
    if s != "" {
      CountNone(s[1..], c);
    }
  }

  lemma {:induction false} CountFrom(s: string, c: char, i: nat)
    requires i < |s| && s[i] == c && c !in s[..i]
    ensures Count(s, c) == 1 + Count(s[i + 1..], c)
  {
    if i > 0 {
      assert s[0] in s[..i] && s[1..][..i - 1] == s[..i][1..] && s[1..][i..] == s[i + 1..];
      CountFrom(s[1..], c, i - 1);
    }
  }

  /** The incremental parser: it accepts exactly the texts that list a valid trace, and
      returns the trace they list. */
  method ParseRuleTrace(text: string) returns (r: Option<seq<RuleId>>)
    ensures r.Some? ==> Reads(text, r.value)
    ensures r.None? ==> forall t :: !Reads(text, t)
  {
    CountParts(text, ',');
    if text == "" {
      NoEntry(Split(text, ','), 0);
      return None;
    }
    if Count(text, ',') >= MAX_HOP {
      return None;
    }
    var value, trace: seq<RuleId>, seen: set<RuleId> := text, [], {};
    ghost var done: seq<string> := [];
    while true
      invariant Progress(text, done, value, trace) && seen == set x | x in trace
      decreases |value|
    {
      if |trace| >= MAX_HOP {
        return None;
      }
      var more := ',' in value;
      var part, rest := Cut(value);
      if more && rest == "" {
        NoEntry(Split(text, ','), |done| + 1);
        return None;
      }
      var id := ReadId(part);
      if id.None? || id.value <= 0 {
        NoEntry(Split(text, ','), |done|);
        return None;
      }
      if id.value in seen {
        Repeated(text, done, value, trace, id.value);
        return None;
      }
      OneMore(text, done, value, trace, part, rest, id.value);
      seen := seen + {id.value};
      trace := trace + [id.value];
      done := done + [part];
      value := rest;
      if value == "" {
        return Some(trace);
      }
    }
  }

  /** The entries done so far are read as `trace`; those in `value` are to come. */
  predicate Progress(text: string, done: seq<string>, value: string, trace: seq<RuleId>) {
    Split(text, ',') == done + Split(value, ',') && Entries(done, trace) && Distinct(trace) && Positive(trace)
  }

  lemma OneMore(text: string, done: seq<string>, value: string, trace: seq<RuleId>, part: string, rest: string, id: RuleId)
    requires Progress(text, done, value, trace) && |trace| < MAX_HOP && id !in trace && id > 0 && ReadId(part) == Some(id)
    requires Split(value, ',') == [part] + if ',' in value then Split(rest, ',') else []
    ensures ',' in value ==> Progress(text, done + [part], rest, trace + [id])
    ensures ',' !in value ==> Reads(text, trace + [id])
  {
    OneMoreEntry(done, trace, part, id);
    Shift(done, part, if ',' in value then Split(rest, ',') else []);
  }

  lemma Shift(done: seq<string>, part: string, tail: seq<string>)
    ensures done + ([part] + tail) == done + [part] + tail
    ensures done + [part] + [] == done + [part]
  {
  }

  lemma OneMoreEntry(done: seq<string>, trace: seq<RuleId>, part: string, id: RuleId)
    requires Entries(done, trace) && Distinct(trace) && id !in trace && ReadId(part) == Some(id)
    ensures Entries(done + [part], trace + [id]) && Distinct(trace + [id])
  {
    var parts, ids := done + [part], trace + [id];
    forall i | 0 <= i < |parts| ensures ReadId(parts[i]) == Some(ids[i]) {
      assert i < |done| ==> parts[i] == done[i] && ids[i] == trace[i];
    }
  }

  /** The text up to the first separator, and the text after it. */
  method Cut(value: string) returns (part: string, rest: string)
    ensures Split(value, ',') == [part] + if ',' in value then Split(rest, ',') else []
    ensures ',' in value ==> |rest| < |value|
    ensures ',' !in value ==> rest == ""
  {
    if ',' in value {
      var separator := IndexOf(value, ',');
      return value[..separator], value[separator + 1..];
    }
    return value, "";
  }

  lemma NoEntry(parts: seq<string>, i: nat)
    requires i < |parts| && (ReadId(parts[i]).None? || ReadId(parts[i]).value <= 0)
    ensures forall t :: ValidTrace(t) ==> !Entries(parts, t)
  {
  }

  lemma Repeated(text: string, done: seq<string>, value: string, trace: seq<RuleId>, id: RuleId)
    requires Progress(text, done, value, trace) && id in trace && ReadId(Split(value, ',')[0]) == Some(id)
    ensures forall t :: !Reads(text, t)
  {
    var parts := Split(text, ',');
    var k :| 0 <= k < |trace| && trace[k] == id;
    assert parts[k] == done[k] && parts[|done|] == Split(value, ',')[0];
  }

  /** Every valid trace is read back from its text, and from its text nothing else is. */
  lemma TraceRoundTrip(trace: seq<RuleId>, t: seq<RuleId>)
    requires ValidTrace(trace)
    ensures Reads(FormatTrace(trace), trace)
    ensures Reads(FormatTrace(trace), t) ==> t == trace
  {
    var parts := seq(|trace|, i requires 0 <= i < |trace| => Format(trace[i]));
    forall i | 0 <= i < |parts| ensures ',' !in parts[i] && ReadId(parts[i]) == Some(trace[i]) {
      TrimDigits(parts[i]);
      ParseIsValue(parts[i], MAX_INT64);
      assert ',' in parts[i] ==> IsDigit(',');
    }
    SplitJoin(parts, ',');
  }
}
