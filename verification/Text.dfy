/** Splitting, joining, trimming and decimal numbers, as the Go standard library does
    them. */
module Text {
  import opened Options

  // ---------------------------------------------------------------------------
  // Lists in text
  // ---------------------------------------------------------------------------

  function IndexOf(s: string, c: char): (i: nat)
    requires c in s
    ensures i < |s| && s[i] == c && c !in s[..i]
  {
    if s[0] == c then 0 else 1 + IndexOf(s[1..], c)
  }

  function Split(s: string, c: char): (parts: seq<string>)
    ensures |parts| >= 1
  {
    if c !in s then [s] else [s[..IndexOf(s, c)]] + Split(s[IndexOf(s, c) + 1..], c)
  }

  function Join(parts: seq<string>, c: char): string {
    if parts == [] then "" else if |parts| == 1 then parts[0] else parts[0] + [c] + Join(parts[1..], c)
  }

  lemma {:induction false} SplitJoin(parts: seq<string>, c: char)
    requires |parts| >= 1 && forall i :: 0 <= i < |parts| ==> c !in parts[i]
    ensures Split(Join(parts, c), c) == parts
  {
    if |parts| > 1 {
      SplitJoin(parts[1..], c);
      var s, n := Join(parts, c), |parts[0]|;
      assert s[n] == c && s[..n] == parts[0] && s[n + 1..] == Join(parts[1..], c);
      FirstIndex(s, c, n);
    }
  }

  lemma {:induction false} FirstIndex(s: string, c: char, n: nat)
    requires n < |s| && s[n] == c && c !in s[..n]
    ensures IndexOf(s, c) == n
  {
    if n > 0 {
      assert s[0] in s[..n] && s[1..][..n - 1] == s[..n][1..];
      FirstIndex(s[1..], c, n - 1);
    }
  }

  // ---------------------------------------------------------------------------
  // White space
  // ---------------------------------------------------------------------------

  predicate IsSpace(c: char) {
    c == ' ' || '\t' <= c <= '\r' || c as int == 0x85 || c as int == 0xA0
  }

  function TrimLeft(s: string): string {
    if s != "" && IsSpace(s[0]) then TrimLeft(s[1..]) else s
  }

  function TrimRight(s: string): string {
    if s != "" && IsSpace(s[|s| - 1]) then TrimRight(s[..|s| - 1]) else s
  }

  function TrimSpace(s: string): string {
    TrimRight(TrimLeft(s))
  }

  // ---------------------------------------------------------------------------
  // Numbers
  // ---------------------------------------------------------------------------

  predicate IsDigit(c: char) {
    '0' <= c <= '9'
  }

  function DigitOf(c: char): nat
    requires IsDigit(c)
  {
    c as int - '0' as int
  }

  function Digit(d: nat): (c: char)
    requires d < 10
    ensures IsDigit(c) && DigitOf(c) == d
  {
    ('0' as int + d) as char
  }

  predicate AllDigits(s: string) {
    forall i :: 0 <= i < |s| ==> IsDigit(s[i])
  }

  function Value(s: string): nat
    requires AllDigits(s)
  {
    if s == "" then 0 else 10 * Value(s[..|s| - 1]) + DigitOf(s[|s| - 1])
  }

  /** FormatUint in base ten. */
  function Format(n: nat): (s: string)
    ensures s != "" && AllDigits(s)
    ensures Value(s) == n && (n > 0 ==> s[0] != '0')
  {
    if n < 10 then [Digit(n)] else Format(n / 10) + [Digit(n % 10)]
  }

  datatype Parsed = Num(n: nat) | SyntaxError | RangeError

  /** The loop of ParseUint: digits so far are worth `acc`. */
  function ParseFrom(s: string, i: nat, acc: nat, max: nat): (r: Parsed)
    requires i <= |s|
    ensures r.Num? && acc <= max ==> r.n <= max
    decreases |s| - i
  {
    if i == |s| then Num(acc)
    else if !IsDigit(s[i]) then SyntaxError
    else
      var n := 10 * acc + DigitOf(s[i]);
      if n > max then RangeError else ParseFrom(s, i + 1, n, max)
  }

  function ParseUint(s: string, max: nat): Parsed {
    if s == "" then SyntaxError else ParseFrom(s, 0, 0, max)
  }

  /** ParseInt: an optional sign, then digits; the bound is that of `max` in magnitude, one
      more for negative numbers. */
  function ParseInt(s: string, max: nat): (r: Option<int>)
    ensures r.Some? ==> -1 - (max as int) <= r.value <= max
  {
    if s != "" && s[0] == '-' then
      var p := ParseUint(s[1..], max + 1);
      if p.Num? then Some(-(p.n as int)) else None
    else
      var p := ParseUint(if s != "" && s[0] == '+' then s[1..] else s, max);
      if p.Num? then Some(p.n) else None
  }

  lemma {:induction false} PrefixSmaller(s: string, i: nat)
    requires AllDigits(s) && i <= |s|
    ensures Value(s[..i]) <= Value(s)
    decreases |s|
  {
    if i < |s| {
      PrefixSmaller(s[..|s| - 1], i);
      assert s[..|s| - 1][..i] == s[..i];
    } else {
      assert s[..i] == s;
    }
  }

  lemma {:induction false} ParseFromIsValue(s: string, i: nat, max: nat)
    requires AllDigits(s) && i <= |s| && Value(s) <= max
    ensures ParseFrom(s, i, Value(s[..i]), max) == Num(Value(s))
    decreases |s| - i
  {
    if i == |s| {
      assert s[..i] == s;
    } else {
      assert s[..i + 1][..i] == s[..i];
      PrefixSmaller(s, i + 1);
      ParseFromIsValue(s, i + 1, max);
    }
  }

  lemma ParseIsValue(s: string, max: nat)
    requires s != "" && AllDigits(s) && Value(s) <= max
    ensures ParseUint(s, max) == Num(Value(s)) && ParseInt(s, max) == Some(Value(s))
  {
    assert s[..0] == "";
    ParseFromIsValue(s, 0, max);
    assert IsDigit(s[0]);
  }

  lemma {:induction false} ParseFromTooLarge(s: string, i: nat, max: nat)
    requires AllDigits(s) && i <= |s| && Value(s[..i]) <= max < Value(s)
    ensures ParseFrom(s, i, Value(s[..i]), max) == RangeError
    decreases |s| - i
  {
    assert s[..|s|] == s;
    if i < |s| {
      assert s[..i + 1][..i] == s[..i];
      if Value(s[..i + 1]) <= max {
        ParseFromTooLarge(s, i + 1, max);
      }
    }
  }

  /** Trimming leaves digits alone. */
  lemma TrimDigits(s: string)
    requires AllDigits(s)
    ensures TrimSpace(s) == s
  {
    assert s != "" ==> IsDigit(s[0]) && IsDigit(s[|s| - 1]);
  }
}
