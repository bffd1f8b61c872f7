/** The mailbox pattern matcher of `protocol/imapd`, against the LIST wildcards of
    section 6.3.8 of RFC 3501. */
module WildMatch {
  predicate Wild(c: char) {
    c == '*' || c == '%'
  }

  /** The reference: pattern from `pi` matches name from `si`, '*' standing for anything
      and '%' for anything without a hierarchy separator. */
  predicate Glob(pat: string, s: string, pi: nat, si: nat)
    requires pi <= |pat| && si <= |s|
    decreases |pat| - pi, |s| - si
  {
    if pi == |pat| then si == |s|
    else if Wild(pat[pi]) then
      Glob(pat, s, pi + 1, si) || (si < |s| && (pat[pi] == '*' || s[si] != '/') && Glob(pat, s, pi, si + 1))
    else si < |s| && s[si] == pat[pi] && Glob(pat, s, pi + 1, si + 1)
  }

  /** The variables of the loop: the position in pattern and name, and the last '*' or the
      last '%' with the place in the name where its text would end (-1 for none). */
  datatype Cursor = Cursor(pi: nat, si: nat, starPi: int, starSi: nat, pctPi: int, pctSi: nat)

  const Start := Cursor(0, 0, -1, 0, -1, 0)

  function AnchorPi(c: Cursor): int {
    if c.starPi >= 0 then c.starPi else c.pctPi
  }

  function AnchorSi(c: Cursor): nat {
    if c.starPi >= 0 then c.starSi else c.pctSi
  }

  /** The pattern from `a` to `b` is literal and matches the name from `e` on. */
  predicate Literal(pat: string, s: string, a: nat, e: nat, b: nat)
    requires a <= b <= |pat| && e + b - a <= |s|
  {
    forall k :: a <= k < b ==> !Wild(pat[k]) && pat[k] == s[e + k - a]
  }

  /** At most one anchor is set; between it and the position in the pattern there are only
      literals, and they match the name from the anchor's place on. */
  predicate Valid(pat: string, s: string, c: Cursor) {
    && c.pi <= |pat| && c.si <= |s|
    && -1 <= c.starPi && -1 <= c.pctPi && (c.starPi == -1 || c.pctPi == -1)
    && AnchorPi(c) < c.pi
    && (AnchorPi(c) >= 0 ==>
          && pat[AnchorPi(c)] == (if c.starPi >= 0 then '*' else '%')
          && c.si - AnchorSi(c) == c.pi - AnchorPi(c) - 1
          && Literal(pat, s, AnchorPi(c) + 1, AnchorSi(c), c.pi))
  }

  datatype Pass = Next(c: Cursor) | Reject

  /** The pattern goes on with the name, or with a wildcard. */
  predicate GoesOn(pat: string, s: string, c: Cursor)
    requires c.si < |s|
  {
    c.pi < |pat| && (pat[c.pi] == s[c.si] || Wild(pat[c.pi]))
  }

  /** The loop gets on: to a later anchor, a later place for it, or past a literal. */
  predicate Progress(s: string, c: Cursor, d: Cursor) {
    || AnchorPi(c) < AnchorPi(d)
    || (AnchorPi(d) == AnchorPi(c) && AnchorSi(c) < AnchorSi(d) <= |s|)
    || d == c.(pi := c.pi + 1, si := c.si + 1)
  }

  function Advance(pat: string, s: string, c: Cursor): (d: Cursor)
    requires Valid(pat, s, c) && c.si < |s| && GoesOn(pat, s, c)
    ensures Valid(pat, s, d) && Progress(s, c, d)
  {
    if pat[c.pi] == '*' then c.(starPi := c.pi, starSi := c.si, pctPi := -1, pi := c.pi + 1)
    else if pat[c.pi] == '%' then c.(pctPi := c.pi, pctSi := c.si, starPi := -1, pi := c.pi + 1)
    else c.(pi := c.pi + 1, si := c.si + 1)
  }

  function Retry(pat: string, s: string, c: Cursor): (r: Pass)
    requires Valid(pat, s, c) && c.si < |s|
    ensures r.Next? ==> Valid(pat, s, r.c) && Progress(s, c, r.c)
  {
    if c.starPi >= 0 then Next(c.(pi := c.starPi + 1, starSi := c.starSi + 1, si := c.starSi + 1))
    else if c.pctPi >= 0 && s[c.si] != '/' then Next(c.(pi := c.pctPi + 1, pctSi := c.pctSi + 1, si := c.pctSi + 1))
    else Reject
  }

  /** One pass through the loop body. */
  function Step(pat: string, s: string, c: Cursor): (r: Pass)
    requires Valid(pat, s, c) && c.si < |s|
    ensures r.Next? ==> Valid(pat, s, r.c) && Progress(s, c, r.c)
  {
    if GoesOn(pat, s, c) then Next(Advance(pat, s, c)) else Retry(pat, s, c)
  }

  predicate OnlyWild(pat: string, pi: nat) {
    forall k :: pi <= k < |pat| ==> Wild(pat[k])
  }

  /** Running the loop to its end. */
  predicate Scan(pat: string, s: string, c: Cursor)
    requires Valid(pat, s, c)
    decreases |pat| - AnchorPi(c), |s| - AnchorSi(c), |pat| - c.pi
  {
    if c.si >= |s| then OnlyWild(pat, c.pi)
    else
      var r := Step(pat, s, c);
      r.Next? && Scan(pat, s, r.c)
  }

  predicate Matches(pat: string, s: string) {
    Scan(pat, s, Start)
  }

  method WildMatch(pat: string, s: string) returns (r: bool)
    ensures r == Matches(pat, s)
  {
    var pi, si := 0, 0;
    var starPi, starSi := -1, 0;
    var pctPi, pctSi := -1, 0;
    ghost var c := Start;
    while si < |s|
      invariant c == Cursor(pi, si, starPi, starSi, pctPi, pctSi) && Valid(pat, s, c)
      invariant Matches(pat, s) == Scan(pat, s, c)
      decreases |pat| - AnchorPi(c), |s| - AnchorSi(c), |pat| - pi
    {
      ghost var r := Step(pat, s, c);
      c := if r.Next? then r.c else c;
      if pi < |pat| && (pat[pi] == s[si] || pat[pi] == '*' || pat[pi] == '%') {
        if pat[pi] == '*' {
          starPi, starSi := pi, si;
          pctPi := -1;
          pi := pi + 1;
        } else if pat[pi] == '%' {
          pctPi, pctSi := pi, si;
          starPi := -1;
          pi := pi + 1;
        } else {
          pi, si := pi + 1, si + 1;
        }
      } else if starPi >= 0 {
        pi := starPi + 1;
        starSi := starSi + 1;
        si := starSi;
      } else if pctPi >= 0 && s[si] != '/' {
        pi := pctPi + 1;
        pctSi := pctSi + 1;
        si := pctSi;
      } else {
        return false;
      }
    }
    while pi < |pat| && (pat[pi] == '*' || pat[pi] == '%')
      invariant pi <= |pat| && (OnlyWild(pat, c.pi) <==> OnlyWild(pat, pi))
    {
      pi := pi + 1;
    }
    return pi == |pat|;
  }

  // ---------------------------------------------------------------------------
  // The reference
  // ---------------------------------------------------------------------------

  /** What wildcard `w` may stand for. */
  predicate Spans(s: string, w: char, a: nat, b: nat)
    requires b <= |s|
  {
    w == '*' || forall k :: a <= k < b ==> s[k] != '/'
  }

  lemma {:induction false} Absorb(pat: string, s: string, pi: nat, si: nat, t: nat)
    requires pi < |pat| && Wild(pat[pi]) && si <= t <= |s| && Spans(s, pat[pi], si, t) && Glob(pat, s, pi, t)
    ensures Glob(pat, s, pi, si)
    decreases t - si
  {
    if si < t {
      Absorb(pat, s, pi, si + 1, t);
    }
  }

  lemma {:induction false} WildSpan(pat: string, s: string, pi: nat, si: nat) returns (t: nat)
    requires pi < |pat| && Wild(pat[pi]) && si <= |s| && Glob(pat, s, pi, si)
    ensures si <= t <= |s| && Spans(s, pat[pi], si, t) && Glob(pat, s, pi + 1, t)
    decreases |s| - si
  {
    if Glob(pat, s, pi + 1, si) {
      t := si;
    } else {
      t := WildSpan(pat, s, pi, si + 1);
    }
  }

  lemma {:induction false} PastLiteral(pat: string, s: string, a: nat, b: nat, t: nat)
    requires a <= b <= |pat| && t <= |s| && Glob(pat, s, a, t) && forall k :: a <= k < b ==> !Wild(pat[k])
    ensures t + b - a <= |s| && Literal(pat, s, a, t, b) && Glob(pat, s, b, t + b - a)
    decreases b - a
  {
    if a < b {
      PastLiteral(pat, s, a + 1, b, t + 1);
    }
  }

  lemma {:induction false} GlobAtEnd(pat: string, s: string, pi: nat)
    requires pi <= |pat|
    ensures Glob(pat, s, pi, |s|) <==> OnlyWild(pat, pi)
    decreases |pat| - pi
  {
    if pi < |pat| {
      GlobAtEnd(pat, s, pi + 1);
    }
  }

  // ---------------------------------------------------------------------------
  // What the loop still can find
  // ---------------------------------------------------------------------------

  /** The anchor's text could end at `t` instead. */
  predicate LaterAt(pat: string, s: string, c: Cursor, t: nat)
    requires Valid(pat, s, c)
  {
    && AnchorPi(c) >= 0 && AnchorSi(c) < t <= |s|
    && Spans(s, pat[AnchorPi(c)], AnchorSi(c), t) && Glob(pat, s, AnchorPi(c) + 1, t)
  }

  ghost predicate Open(pat: string, s: string, c: Cursor)
    requires Valid(pat, s, c)
  {
    Glob(pat, s, c.pi, c.si) || exists t: nat :: LaterAt(pat, s, c, t)
  }

  predicate NoPercentAfterStar(pat: string) {
    forall i, j :: 0 <= i < j < |pat| && pat[i] == '*' ==> pat[j] != '%'
  }

  /** A '%' before a separator that has no wildcard right after it. */
  predicate BareSlash(pat: string, i: nat) {
    i + 1 < |pat| && pat[i] == '%' && pat[i + 1] == '/' && (i + 2 < |pat| ==> !Wild(pat[i + 2]))
  }

  ghost predicate NoBareSlash(pat: string) {
    forall i: nat :: !BareSlash(pat, i)
  }

  /** Text that repeats a separator-free stretch is separator-free. */
  lemma {:induction false} Periodic(s: string, e: nat, t: nat, n: nat)
    requires e < t && t + n <= |s|
    requires forall k :: e <= k < t ==> s[k] != '/'
    requires forall k :: e <= k < e + n ==> s[k] == s[k + (t - e)]
    ensures forall k :: e <= k < t + n ==> s[k] != '/'
  {
    if n > 0 {
      Periodic(s, e, t, n - 1);
      assert s[e + n - 1] == s[e + n - 1 + (t - e)];
    }
  }

  /** Any later end of the anchor's text needs the literals since the anchor again, at a
      later place; under '%' all of that lies within one level. */
  lemma Repeats(pat: string, s: string, c: Cursor, t: nat)
    requires Valid(pat, s, c) && LaterAt(pat, s, c, t)
    ensures var u := t + c.pi - AnchorPi(c) - 1;
      c.si < u <= |s| && Glob(pat, s, c.pi, u) && Spans(s, pat[AnchorPi(c)], AnchorSi(c), u)
  {
    var a, e := AnchorPi(c) + 1, AnchorSi(c);
    PastLiteral(pat, s, a, c.pi, t);
    if pat[a - 1] != '*' {
      forall k | e <= k < e + c.pi - a ensures s[k] == s[k + (t - e)] {
        assert pat[k - e + a] == s[k] == s[t + (k - e + a) - a];
      }
      Periodic(s, e, t, c.pi - a);
    }
  }

  /** Meeting a new wildcard, the loop may forget the old anchor. */
  lemma ForgetAnchor(pat: string, s: string, c: Cursor)
    requires Valid(pat, s, c) && Open(pat, s, c) && c.pi < |pat| && Wild(pat[c.pi])
    requires NoPercentAfterStar(pat) || '/' !in s
    ensures Glob(pat, s, c.pi, c.si)
  {
    if !Glob(pat, s, c.pi, c.si) {
      var t: nat :| LaterAt(pat, s, c, t);
      Repeats(pat, s, c, t);
      Absorb(pat, s, c.pi, c.si, t + c.pi - AnchorPi(c) - 1);
    }
  }

  lemma {:induction false} Complete(pat: string, s: string, c: Cursor)
    requires Valid(pat, s, c) && Open(pat, s, c)
    requires NoPercentAfterStar(pat) || '/' !in s
    ensures Scan(pat, s, c)
    decreases |pat| - AnchorPi(c), |s| - AnchorSi(c), |pat| - c.pi
  {
    if c.si >= |s| {
      if !Glob(pat, s, c.pi, c.si) {
        var t: nat :| LaterAt(pat, s, c, t);
        Repeats(pat, s, c, t);
      }
      GlobAtEnd(pat, s, c.pi);
    } else {
      OpenStep(pat, s, c);
      Complete(pat, s, Step(pat, s, c).c);
    }
  }

  lemma OpenStep(pat: string, s: string, c: Cursor)
    requires Valid(pat, s, c) && Open(pat, s, c) && c.si < |s|
    requires NoPercentAfterStar(pat) || '/' !in s
    ensures Step(pat, s, c).Next? && Open(pat, s, Step(pat, s, c).c)
  {
    if c.pi < |pat| && Wild(pat[c.pi]) {
      ForgetAnchor(pat, s, c);
      OpenAtWild(pat, s, c);
    } else if !Glob(pat, s, c.pi, c.si) {
      var t: nat :| LaterAt(pat, s, c, t);
      OpenLater(pat, s, c, t);
    }
  }

  lemma OpenAtWild(pat: string, s: string, c: Cursor)
    requires Valid(pat, s, c) && c.si < |s| && c.pi < |pat| && Wild(pat[c.pi]) && Glob(pat, s, c.pi, c.si)
    ensures Step(pat, s, c).Next? && Open(pat, s, Step(pat, s, c).c)
  {
    var t := WildSpan(pat, s, c.pi, c.si);
    assert t > c.si ==> LaterAt(pat, s, Step(pat, s, c).c, t);
  }

  lemma OpenLater(pat: string, s: string, c: Cursor, t: nat)
    requires Valid(pat, s, c) && c.si < |s| && !(c.pi < |pat| && Wild(pat[c.pi])) && LaterAt(pat, s, c, t)
    ensures Step(pat, s, c).Next? && Open(pat, s, Step(pat, s, c).c)
  {
    Repeats(pat, s, c, t);
    var r := Step(pat, s, c);
    assert r.Next?;
    assert LaterAt(pat, s, r.c, t) || (r.c.pi == AnchorPi(c) + 1 && r.c.si == t);
  }

  lemma {:induction false} Sound(pat: string, s: string, c: Cursor)
    requires Valid(pat, s, c) && Scan(pat, s, c)
    requires NoBareSlash(pat) || '/' !in s
    ensures Open(pat, s, c)
    decreases |pat| - AnchorPi(c), |s| - AnchorSi(c), |pat| - c.pi
  {
    if c.si >= |s| {
      GlobAtEnd(pat, s, c.pi);
    } else {
      var d := Step(pat, s, c).c;
      Sound(pat, s, d);
      OpenBack(pat, s, c);
    }
  }

  /** Giving up an alignment, '%' never takes in a separator. */
  lemma PercentStopsAtSlash(pat: string, s: string, c: Cursor)
    requires Valid(pat, s, c) && c.si < |s| && !GoesOn(pat, s, c) && Step(pat, s, c).Next?
    requires NoBareSlash(pat) || '/' !in s
    ensures c.starPi < 0 ==> s[c.pctSi] != '/'
  {
    if c.starPi < 0 && c.si > c.pctSi {
      var i := c.pctPi;
      assert pat[i + 1] == s[c.pctSi];
      assert NoBareSlash(pat) ==> !BareSlash(pat, i);
    }
  }

  lemma OpenBeforeAdvance(pat: string, s: string, c: Cursor)
    requires Valid(pat, s, c) && c.si < |s| && GoesOn(pat, s, c) && Open(pat, s, Advance(pat, s, c))
    ensures Open(pat, s, c)
  {
    var d := Advance(pat, s, c);
    if !Glob(pat, s, d.pi, d.si) {
      var t: nat :| LaterAt(pat, s, d, t);
      if Wild(pat[c.pi]) {
        Absorb(pat, s, c.pi, c.si, t);
      } else {
        assert LaterAt(pat, s, c, t);
      }
    }
  }

  lemma OpenBeforeRetry(pat: string, s: string, c: Cursor)
    requires Valid(pat, s, c) && c.si < |s| && Retry(pat, s, c).Next? && Open(pat, s, Retry(pat, s, c).c)
    requires c.starPi < 0 ==> s[c.pctSi] != '/'
    ensures Open(pat, s, c)
  {
    var d := Retry(pat, s, c).c;
    if Glob(pat, s, d.pi, d.si) {
      assert LaterAt(pat, s, c, AnchorSi(c) + 1);
    } else {
      var t: nat :| LaterAt(pat, s, d, t);
      assert LaterAt(pat, s, c, t);
    }
  }

  lemma OpenBack(pat: string, s: string, c: Cursor)
    requires Valid(pat, s, c) && c.si < |s| && Step(pat, s, c).Next? && Open(pat, s, Step(pat, s, c).c)
    requires NoBareSlash(pat) || '/' !in s
    ensures Open(pat, s, c)
  {
    if GoesOn(pat, s, c) {
      OpenBeforeAdvance(pat, s, c);
    } else {
      PercentStopsAtSlash(pat, s, c);
      OpenBeforeRetry(pat, s, c);
    }
  }

  // ---------------------------------------------------------------------------
  // Main results
  // ---------------------------------------------------------------------------

  /** The matcher accepts nothing outside the wildcard language, for every name, if every
      '%' before a separator is followed by a wildcard right after it; and for every
      pattern, on names of one level. */
  lemma AcceptsOnlyLanguage(pat: string, s: string)
    requires NoBareSlash(pat) || '/' !in s
    ensures Matches(pat, s) ==> Glob(pat, s, 0, 0)
  {
    if Matches(pat, s) {
      Sound(pat, s, Start);
    }
  }

  /** It misses no name of the language if no '%' comes after a '*'; and for every pattern
      it misses none of one level. */
  lemma AcceptsWholeLanguage(pat: string, s: string)
    requires NoPercentAfterStar(pat) || '/' !in s
    ensures Glob(pat, s, 0, 0) ==> Matches(pat, s)
  {
    if Glob(pat, s, 0, 0) {
      Complete(pat, s, Start);
    }
  }

  /** Without '%', last-star backtracking decides the language. */
  lemma ExactWithoutPercent(pat: string, s: string)
    requires '%' !in pat
    ensures Matches(pat, s) <==> Glob(pat, s, 0, 0)
  {
    AcceptsOnlyLanguage(pat, s);
    AcceptsWholeLanguage(pat, s);
  }
}
