/** Exactly which patterns the matcher of `protocol/imapd` gets right. */
module WildPercent {
  import opened WildMatch

  /** The literals of the pattern from `a` to `b`: the name it matches when every wildcard
      stands for nothing. */
  function Literals(pat: string, a: nat, b: nat): string
    requires a <= b <= |pat|
    decreases b - a
  {
    if a == b then "" else (if Wild(pat[a]) then "" else [pat[a]]) + Literals(pat, a + 1, b)
  }

  lemma {:induction false} LiteralsSplit(pat: string, a: nat, m: nat, b: nat)
    requires a <= m <= b <= |pat|
    ensures Literals(pat, a, b) == Literals(pat, a, m) + Literals(pat, m, b)
    decreases m - a
  {
    if a < m {
      LiteralsSplit(pat, a + 1, m, b);
    }
  }

  // ---------------------------------------------------------------------------
  // Patterns that are taken at their word
  // ---------------------------------------------------------------------------

  /** Where the separators from `i` on end. */
  function RunEnd(pat: string, i: nat): (r: nat)
    requires i <= |pat|
    ensures i <= r <= |pat| && (forall k :: i <= k < r ==> pat[k] == '/') && (r < |pat| ==> pat[r] != '/')
    decreases |pat| - i
  {
    if i < |pat| && pat[i] == '/' then RunEnd(pat, i + 1) else i
  }

  /** Nothing but separators comes between `q` and the next wildcard. */
  predicate RunsIntoWild(pat: string, q: nat)
    requires q < |pat|
  {
    RunEnd(pat, q + 1) < |pat| && Wild(pat[RunEnd(pat, q + 1)])
  }

  predicate PercentOrSingle(pat: string, k: nat)
    requires k + 1 < |pat|
  {
    pat[k] == '%' || (pat[k] == '/' && pat[k + 1] == '%')
  }

  /** Between a '*' and the '%' at `q` there are only '%' and single separators. */
  predicate SlidesFrom(pat: string, p: nat, q: nat)
    requires p < q < |pat|
  {
    pat[p] == '*' && forall k :: p < k < q ==> PercentOrSingle(pat, k)
  }

  ghost predicate Slides(pat: string, q: nat)
    requires q < |pat|
  {
    exists p: nat :: p < q && SlidesFrom(pat, p, q)
  }

  /** The '%' at `q` does no harm: a separator behind it is followed by a wildcard, or a '*'
      before it can shift what comes between; and behind a '*', nothing but separators leads
      to the next wildcard. */
  ghost predicate Tame(pat: string, q: nat)
    requires q < |pat|
  {
    (BareSlash(pat, q) ==> Slides(pat, q)) && ('*' in pat[..q] ==> RunsIntoWild(pat, q))
  }

  ghost predicate AllTame(pat: string) {
    forall q: nat :: q < |pat| && pat[q] == '%' ==> Tame(pat, q)
  }

  // ---------------------------------------------------------------------------
  // In a tame pattern every '%' behind a '*' is as good as a '*'
  // ---------------------------------------------------------------------------

  predicate Behind(pat: string, i: nat)
    requires i < |pat|
  {
    pat[i] == '%' && '*' in pat[..i]
  }

  /** The pattern with every '%' behind a '*' from position `k` on turned into a '*'. */
  function Relaxed(pat: string, k: nat): (r: string)
    ensures |r| == |pat| && forall i :: 0 <= i < |pat| ==> r[i] == if i >= k && Behind(pat, i) then '*' else pat[i]
  {
    seq(|pat|, i requires 0 <= i < |pat| => if i >= k && Behind(pat, i) then '*' else pat[i])
  }

  /** Two cursors at the same place with the same anchor, whatever its kind. */
  predicate Alike(c: Cursor, d: Cursor) {
    && c.pi == d.pi && c.si == d.si && AnchorPi(c) == AnchorPi(d)
    && (AnchorPi(c) >= 0 ==> AnchorSi(c) == AnchorSi(d))
  }

  /** Behind a '*' no alignment fails at a separator. */
  lemma FailsAtNoSlash(pat: string, s: string, c: Cursor)
    requires AllTame(pat) && Valid(pat, s, c) && c.si < |s|
    requires !GoesOn(pat, s, c)
    requires c.starPi < 0 <= c.pctPi && Behind(pat, c.pctPi)
    ensures s[c.si] != '/'
  {
    assert Tame(pat, c.pctPi);
  }

  /** Some '%' of the one pattern are '*' in the other. */
  predicate Loosens(pat: string, rel: string) {
    |rel| == |pat| && forall i :: 0 <= i < |pat| ==> rel[i] == pat[i] || (pat[i] == '%' && rel[i] == '*')
  }

  lemma AdvanceAlike(pat: string, rel: string, s: string, c: Cursor, d: Cursor)
    requires Valid(pat, s, c) && Valid(rel, s, d) && Alike(c, d) && c.si < |s| && Loosens(pat, rel) && GoesOn(pat, s, c)
    ensures GoesOn(rel, s, d) && Alike(Advance(pat, s, c), Advance(rel, s, d))
  {
  }

  lemma RetryAlike(pat: string, rel: string, s: string, c: Cursor, d: Cursor)
    requires Valid(pat, s, c) && Valid(rel, s, d) && Alike(c, d) && c.si < |s| && Loosens(pat, rel)
    requires c.starPi < 0 <= c.pctPi && rel[c.pctPi] == '*' ==> s[c.si] != '/'
    ensures Retry(pat, s, c).Next? == Retry(rel, s, d).Next?
    ensures Retry(pat, s, c).Next? ==> Alike(Retry(pat, s, c).c, Retry(rel, s, d).c)
  {
    if AnchorPi(c) >= 0 {
      assert rel[AnchorPi(c)] == pat[AnchorPi(c)] || rel[AnchorPi(c)] == '*';
    }
  }

  lemma StepAlike(pat: string, rel: string, s: string, c: Cursor, d: Cursor)
    requires Valid(pat, s, c) && Valid(rel, s, d) && Alike(c, d) && c.si < |s| && Loosens(pat, rel)
    requires !GoesOn(pat, s, c) && c.starPi < 0 <= c.pctPi && rel[c.pctPi] == '*' ==> s[c.si] != '/'
    ensures Step(pat, s, c).Next? == Step(rel, s, d).Next?
    ensures Step(pat, s, c).Next? ==> Alike(Step(pat, s, c).c, Step(rel, s, d).c)
  {
    if GoesOn(pat, s, c) {
      AdvanceAlike(pat, rel, s, c, d);
    } else {
      RetryAlike(pat, rel, s, c, d);
    }
  }

  lemma {:induction false} SameRun(pat: string, s: string, c: Cursor, d: Cursor)
    requires AllTame(pat) && Valid(pat, s, c) && Valid(Relaxed(pat, 0), s, d) && Alike(c, d)
    ensures Scan(pat, s, c) == Scan(Relaxed(pat, 0), s, d)
    decreases |pat| - AnchorPi(c), |s| - AnchorSi(c), |pat| - c.pi
  {
    var rel := Relaxed(pat, 0);
    if c.si < |s| {
      if !GoesOn(pat, s, c) && c.starPi < 0 <= c.pctPi && Behind(pat, c.pctPi) {
        FailsAtNoSlash(pat, s, c);
      }
      StepAlike(pat, rel, s, c, d);
      if Step(pat, s, c).Next? {
        SameRun(pat, s, Step(pat, s, c).c, Step(rel, s, d).c);
      }
    }
  }

  /** A looser pattern has all the names of a stricter one. */
  lemma {:induction false} Looser(pat: string, s: string, pi: nat, si: nat)
    requires pi <= |pat| && si <= |s| && Glob(pat, s, pi, si)
    ensures Glob(Relaxed(pat, 0), s, pi, si)
    decreases |pat| - pi, |s| - si
  {
    if pi < |pat| {
      if !Wild(pat[pi]) {
        Looser(pat, s, pi + 1, si + 1);
      } else if Glob(pat, s, pi + 1, si) {
        Looser(pat, s, pi + 1, si);
      } else {
        Looser(pat, s, pi, si + 1);
      }
    }
  }

  lemma {:induction false} SameTail(a: string, b: string, s: string, pi: nat, si: nat)
    requires |a| == |b| && pi <= |a| && si <= |s| && forall i :: pi <= i < |a| ==> a[i] == b[i]
    ensures Glob(a, s, pi, si) == Glob(b, s, pi, si)
    decreases |a| - pi, |s| - si
  {
    if pi < |a| {
      SameTail(a, b, s, pi + 1, si);
      if si < |s| {
        SameTail(a, b, s, pi + 1, si + 1);
        SameTail(a, b, s, pi, si + 1);
      }
    }
  }

  /** What holds from `j` on carries over to the whole pattern. */
  lemma {:induction false} SameHead(a: string, b: string, s: string, j: nat, pi: nat, si: nat)
    requires |a| == |b| && pi <= j <= |a| && si <= |s| && forall i :: 0 <= i < j ==> a[i] == b[i]
    requires forall t: nat :: t <= |s| && Glob(a, s, j, t) ==> Glob(b, s, j, t)
    requires Glob(a, s, pi, si)
    ensures Glob(b, s, pi, si)
    decreases j - pi, |s| - si
  {
    if pi < j {
      if !Wild(a[pi]) {
        SameHead(a, b, s, j, pi + 1, si + 1);
      } else if Glob(a, s, pi + 1, si) {
        SameHead(a, b, s, j, pi + 1, si);
      } else {
        SameHead(a, b, s, j, pi, si + 1);
      }
    }
  }

  /** The two patterns differ only at `k`, where one has '*' and the other '%'. */
  predicate Tightens(a: string, b: string, k: nat) {
    && k < |a| == |b| && a[k] == '*' && b[k] == '%'
    && forall i :: 0 <= i < |a| && i != k ==> a[i] == b[i]
  }

  /** A '%' before a '*' need not take anything. */
  lemma BeforeStar(a: string, b: string, s: string, k: nat, t: nat)
    requires Tightens(a, b, k) && k + 1 < |b| && b[k + 1] == '*' && t <= |s| && Glob(a, s, k, t)
    ensures Glob(b, s, k, t)
  {
    var u := WildSpan(a, s, k, t);
    SameTail(a, b, s, k + 1, u);
    Absorb(b, s, k + 1, t, u);
  }

  lemma {:induction false} FirstSlash(s: string, t: nat, u: nat) returns (v: nat)
    requires t <= u < |s| && s[u] == '/'
    ensures t <= v <= u && s[v] == '/' && forall k :: t <= k < v ==> s[k] != '/'
    decreases u - t
  {
    if s[t] == '/' {
      v := t;
    } else {
      v := FirstSlash(s, t + 1, u);
    }
  }

  lemma {:induction false} LastSlash(s: string, t: nat, u: nat) returns (v: nat)
    requires t < u <= |s| && s[t] == '/'
    ensures t <= v < u && s[v] == '/' && forall k :: v < k < u ==> s[k] != '/'
    decreases u - t
  {
    if s[u - 1] == '/' {
      v := u - 1;
    } else {
      v := LastSlash(s, t, u - 1);
    }
  }

  /** Before a separator and a '*', the '%' goes to the first separator there is. */
  lemma BeforeSlashStar(a: string, b: string, s: string, k: nat, t: nat)
    requires Tightens(a, b, k) && k + 2 < |b| && b[k + 1] == '/' && b[k + 2] == '*' && t <= |s| && Glob(a, s, k, t)
    ensures Glob(b, s, k, t)
  {
    var u := WildSpan(a, s, k, t);
    SameTail(a, b, s, k + 1, u);
    var v := FirstSlash(s, t, u);
    Absorb(b, s, k + 2, v + 1, u + 1);
    Absorb(b, s, k, t, v);
  }

  /** What lies between a '*' and the '%' can be matched closer to where the '%' ends. */
  lemma {:induction false} Slide(a: string, b: string, s: string, k: nat, i: nat, e: nat) returns (y: nat)
    requires Tightens(a, b, k) && i <= k && e <= |s| && Glob(a, s, i, e)
    requires forall j :: i <= j < k ==> PercentOrSingle(b, j)
    ensures e <= y <= |s| && Glob(b, s, i, y)
    decreases k - i
  {
    if i == k {
      y := WildSpan(a, s, k, e);
      SameTail(a, b, s, k + 1, y);
    } else if PercentOrSingle(b, i) && b[i] == '%' {
      var u := WildSpan(a, s, i, e);
      y := Slide(a, b, s, k, i + 1, u);
    } else {
      var u := Slide(a, b, s, k, i + 1, e + 1);
      y := LastSlash(s, e, u);
      Absorb(b, s, i + 1, y + 1, u);
    }
  }

  lemma FromStar(a: string, b: string, s: string, p: nat, k: nat, t: nat)
    requires Tightens(a, b, k) && p < k && SlidesFrom(b, p, k) && t <= |s| && Glob(a, s, p, t)
    ensures Glob(b, s, p, t)
  {
    var e := WildSpan(a, s, p, t);
    var y := Slide(a, b, s, k, p + 1, e);
    Absorb(b, s, p, t, y);
  }

  lemma Tightened(pat: string, s: string, k: nat)
    requires AllTame(pat) && k < |pat| && Glob(Relaxed(pat, k), s, 0, 0)
    ensures Glob(Relaxed(pat, k + 1), s, 0, 0)
  {
    var a, b := Relaxed(pat, k), Relaxed(pat, k + 1);
    if !Behind(pat, k) {
      assert a == b;
    } else {
      assert Tame(pat, k);
      var j := k;
      if BareSlash(pat, k) {
        var p: nat :| p < k && SlidesFrom(pat, p, k);
        j := p;
        assert SlidesFrom(b, p, k) by {
          assert forall i :: p < i < k && PercentOrSingle(pat, i) ==> PercentOrSingle(b, i);
        }
        forall t: nat | t <= |s| && Glob(a, s, j, t) ensures Glob(b, s, j, t) {
          FromStar(a, b, s, p, k, t);
        }
      } else {
        TightenedHere(pat, s, k);
      }
      SameHead(a, b, s, j, 0, 0);
    }
  }

  lemma TightenedHere(pat: string, s: string, k: nat)
    requires k < |pat| && Behind(pat, k) && RunsIntoWild(pat, k) && !BareSlash(pat, k)
    ensures forall t: nat :: t <= |s| && Glob(Relaxed(pat, k), s, k, t) ==> Glob(Relaxed(pat, k + 1), s, k, t)
  {
    var a, b := Relaxed(pat, k), Relaxed(pat, k + 1);
    assert '*' in pat[..k + 1] && (k + 2 < |pat| ==> '*' in pat[..k + 2]) by {
      var i :| 0 <= i < k && pat[i] == '*';
      assert pat[..k + 1][i] == '*' && (k + 2 < |pat| ==> pat[..k + 2][i] == '*');
    }
    forall t: nat | t <= |s| && Glob(a, s, k, t) ensures Glob(b, s, k, t) {
      if pat[k + 1] == '/' {
        BeforeSlashStar(a, b, s, k, t);
      } else {
        BeforeStar(a, b, s, k, t);
      }
    }
  }

  lemma {:induction false} Stricter(pat: string, s: string, k: nat)
    requires AllTame(pat) && k <= |pat| && Glob(Relaxed(pat, k), s, 0, 0)
    ensures Glob(pat, s, 0, 0)
    decreases |pat| - k
  {
    if k == |pat| {
      assert Relaxed(pat, k) == pat;
    } else {
      Tightened(pat, s, k);
      Stricter(pat, s, k + 1);
    }
  }

  lemma RelaxedIsSimple(pat: string)
    requires AllTame(pat)
    ensures NoPercentAfterStar(Relaxed(pat, 0)) && NoBareSlash(Relaxed(pat, 0))
  {
    var rel := Relaxed(pat, 0);
    forall i: nat ensures !BareSlash(rel, i) {
      if i < |pat| && pat[i] == '%' && Slides(pat, i) {
        var p: nat :| p < i && SlidesFrom(pat, p, i);
        assert pat[..i][p] == '*';
      }
    }
    forall i, j | 0 <= i < j < |rel| && rel[i] == '*' ensures rel[j] != '%' {
      var p: nat :| p <= i && pat[p] == '*';
      assert pat[..j][p] == '*';
    }
  }

  lemma TameIsExact(pat: string, s: string)
    requires AllTame(pat)
    ensures Matches(pat, s) <==> Glob(pat, s, 0, 0)
  {
    var rel := Relaxed(pat, 0);
    SameRun(pat, s, Start, Start);
    RelaxedIsSimple(pat);
    AcceptsOnlyLanguage(rel, s);
    AcceptsWholeLanguage(rel, s);
    if Glob(pat, s, 0, 0) {
      Looser(pat, s, 0, 0);
    }
    if Glob(rel, s, 0, 0) {
      Stricter(pat, s, 0);
    }
  }

  // ---------------------------------------------------------------------------
  // Following the literals
  // ---------------------------------------------------------------------------

  /** As long as the name goes on with the literals of the pattern, the loop follows them. */
  lemma {:induction false} Follows(pat: string, s: string, c: Cursor, b: nat) returns (d: Cursor)
    requires Valid(pat, s, c) && c.pi <= b <= |pat| && Literals(pat, c.pi, b) < s[c.si..]
    ensures Valid(pat, s, d) && d.pi == b && d.si == c.si + |Literals(pat, c.pi, b)|
    ensures Leads(pat, s, c, d)
    decreases b - c.pi
  {
    if c.pi == b {
      d := c;
      LeadsNowhere(pat, s, c);
    } else {
      assert !Wild(pat[c.pi]) ==> s[c.si..][0] == pat[c.pi] && s[c.si + 1..] == s[c.si..][1..];
      var e := Advance(pat, s, c);
      LeadsNext(pat, s, c, e);
      d := Follows(pat, s, e, b);
      LeadsOn(pat, s, c, e, d);
    }
  }

  lemma {:induction false} FollowsToEnd(pat: string, s: string, c: Cursor)
    requires Valid(pat, s, c) && s[c.si..] == Literals(pat, c.pi, |pat|)
    ensures Scan(pat, s, c)
    decreases |pat| - c.pi
  {
    if c.si == |s| {
      NoLiterals(pat, c.pi);
    } else if c.pi < |pat| {
      assert !Wild(pat[c.pi]) ==> s[c.si..][0] == pat[c.pi] && s[c.si + 1..] == s[c.si..][1..];
      FollowsToEnd(pat, s, Step(pat, s, c).c);
    }
  }

  lemma {:induction false} NoLiterals(pat: string, a: nat)
    requires a <= |pat| && Literals(pat, a, |pat|) == ""
    ensures OnlyWild(pat, a)
    decreases |pat| - a
  {
    if a < |pat| {
      NoLiterals(pat, a + 1);
    }
  }

  /** Over separators the anchor stays. */
  lemma {:induction false} FollowsSlashes(pat: string, s: string, c: Cursor, b: nat)
    requires Valid(pat, s, c) && c.pi <= b <= |pat| && c.si + b - c.pi <= |s|
    requires (forall k :: c.pi <= k < b ==> pat[k] == '/') && forall i :: c.si <= i < c.si + b - c.pi ==> s[i] == '/'
    ensures Leads(pat, s, c, Cursor(b, c.si + b - c.pi, c.starPi, c.starSi, c.pctPi, c.pctSi))
    decreases b - c.pi
  {
    if c.pi == b {
      LeadsNowhere(pat, s, c);
    } else {
      PassLiteral(pat, s, c);
      FollowsSlashes(pat, s, PastLiteralChar(c), b);
      LeadsOn(pat, s, c, PastLiteralChar(c), Cursor(b, c.si + b - c.pi, c.starPi, c.starSi, c.pctPi, c.pctSi));
    }
  }

  function PastLiteralChar(c: Cursor): Cursor {
    Cursor(c.pi + 1, c.si + 1, c.starPi, c.starSi, c.pctPi, c.pctSi)
  }

  function AtPercent(c: Cursor): Cursor {
    Cursor(c.pi + 1, c.si, -1, c.starSi, c.pi, c.si)
  }

  function AtStar(c: Cursor): Cursor {
    Cursor(c.pi + 1, c.si, c.pi, c.si, -1, c.pctSi)
  }

  function PercentTakesMore(c: Cursor): Cursor
    requires c.pctPi >= 0
  {
    Cursor(c.pctPi + 1, c.pctSi + 1, c.starPi, c.starSi, c.pctPi, c.pctSi + 1)
  }

  datatype Pair = Pair(from: Cursor, to: Cursor)

  /** In `n` steps one gets from one cursor to the other. */
  ghost predicate ReachesIn(steps: iset<Pair>, c: Cursor, d: Cursor, n: nat)
    decreases n
  {
    if n == 0 then c == d else exists e :: Pair(c, e) in steps && ReachesIn(steps, e, d, n - 1)
  }

  lemma {:induction false} ReachesOn(steps: iset<Pair>, c: Cursor, d: Cursor, e: Cursor, m: nat, n: nat)
    requires ReachesIn(steps, c, d, m) && ReachesIn(steps, d, e, n)
    ensures ReachesIn(steps, c, e, m + n)
    decreases m
  {
    if m > 0 {
      var b :| Pair(c, b) in steps && ReachesIn(steps, b, d, m - 1);
      ReachesOn(steps, b, d, e, m - 1, n);
    }
  }

  ghost function Passes(pat: string, s: string): iset<Pair> {
    iset p: Pair | Valid(pat, s, p.from) && p.from.si < |s| && Step(pat, s, p.from) == Next(p.to)
  }

  /** The loop gets from one cursor to the other. */
  ghost predicate Leads(pat: string, s: string, c: Cursor, d: Cursor) {
    Valid(pat, s, c) && exists n: nat :: ReachesIn(Passes(pat, s), c, d, n)
  }

  lemma LeadsNowhere(pat: string, s: string, c: Cursor)
    requires Valid(pat, s, c)
    ensures Leads(pat, s, c, c)
  {
    assert ReachesIn(Passes(pat, s), c, c, 0);
  }

  lemma LeadsNext(pat: string, s: string, c: Cursor, d: Cursor)
    requires Valid(pat, s, c) && c.si < |s| && Step(pat, s, c) == Next(d)
    ensures Valid(pat, s, d) && Leads(pat, s, c, d)
  {
    assert Pair(c, d) in Passes(pat, s) && ReachesIn(Passes(pat, s), d, d, 0);
    assert ReachesIn(Passes(pat, s), c, d, 1);
  }

  lemma LeadsOn(pat: string, s: string, c: Cursor, d: Cursor, e: Cursor)
    requires Leads(pat, s, c, d) && Leads(pat, s, d, e)
    ensures Leads(pat, s, c, e)
  {
    var m: nat :| ReachesIn(Passes(pat, s), c, d, m);
    var n: nat :| ReachesIn(Passes(pat, s), d, e, n);
    ReachesOn(Passes(pat, s), c, d, e, m, n);
  }

  lemma {:induction false} SameVerdict(pat: string, s: string, c: Cursor, d: Cursor, n: nat)
    requires Valid(pat, s, c) && ReachesIn(Passes(pat, s), c, d, n)
    ensures Valid(pat, s, d) && Scan(pat, s, c) == Scan(pat, s, d)
    decreases n
  {
    if n > 0 {
      var b :| Pair(c, b) in Passes(pat, s) && ReachesIn(Passes(pat, s), b, d, n - 1);
      SameVerdict(pat, s, b, d, n - 1);
    }
  }

  lemma LeadsVerdict(pat: string, s: string, c: Cursor, d: Cursor)
    requires Leads(pat, s, c, d)
    ensures Valid(pat, s, d) && Scan(pat, s, c) == Scan(pat, s, d)
  {
    var n: nat :| ReachesIn(Passes(pat, s), c, d, n);
    SameVerdict(pat, s, c, d, n);
  }

  lemma PassLiteral(pat: string, s: string, c: Cursor)
    requires Valid(pat, s, c) && c.si < |s| && c.pi < |pat| && pat[c.pi] == s[c.si] && !Wild(pat[c.pi])
    ensures Valid(pat, s, PastLiteralChar(c)) && Leads(pat, s, c, PastLiteralChar(c))
  {
    LeadsNext(pat, s, c, PastLiteralChar(c));
  }

  lemma PassPercent(pat: string, s: string, c: Cursor)
    requires Valid(pat, s, c) && c.si < |s| && c.pi < |pat| && pat[c.pi] == '%'
    ensures Valid(pat, s, AtPercent(c)) && Leads(pat, s, c, AtPercent(c))
  {
    LeadsNext(pat, s, c, AtPercent(c));
  }

  lemma PassStar(pat: string, s: string, c: Cursor)
    requires Valid(pat, s, c) && c.si < |s| && c.pi < |pat| && pat[c.pi] == '*'
    ensures Valid(pat, s, AtStar(c)) && Leads(pat, s, c, AtStar(c))
  {
    LeadsNext(pat, s, c, AtStar(c));
  }

  lemma PassBack(pat: string, s: string, c: Cursor)
    requires Valid(pat, s, c) && c.si < |s| && !GoesOn(pat, s, c)
    requires c.starPi < 0 <= c.pctPi && s[c.si] != '/'
    ensures Valid(pat, s, PercentTakesMore(c)) && Leads(pat, s, c, PercentTakesMore(c))
  {
    LeadsNext(pat, s, c, PercentTakesMore(c));
  }

  lemma {:induction false} GlobLiterals(pat: string, s: string, a: nat, b: nat, si: nat)
    requires a <= b <= |pat| && si <= |s| && Literals(pat, a, b) <= s[si..]
    requires Glob(pat, s, b, si + |Literals(pat, a, b)|)
    ensures Glob(pat, s, a, si)
    decreases b - a
  {
    if a < b {
      if Wild(pat[a]) {
        GlobLiterals(pat, s, a + 1, b, si);
      } else {
        assert s[si..][0] == pat[a] && s[si + 1..] == s[si..][1..];
        GlobLiterals(pat, s, a + 1, b, si + 1);
      }
    }
  }

  // ---------------------------------------------------------------------------
  // Names that are missed
  // ---------------------------------------------------------------------------

  function Separators(n: nat): string {
    seq(n, i => '/')
  }

  /** The '*' at `p` stands for one copy of what follows it and for more separators than
      follow the '%' at `q`. */
  function Missed(pat: string, p: nat, q: nat): string
    requires p < q < |pat|
  {
    Literals(pat, 0, q) + Separators(RunEnd(pat, q + 1) - q) + Literals(pat, p, |pat|)
  }

  lemma ThreeParts(a: string, b: string, c: string)
    ensures var s := a + b + c;
      && a <= s[0..] && (forall i :: |a| <= i < |a| + |b| ==> s[i] == b[i - |a|]) && s[|a| + |b|..] == c
  {
  }

  lemma PrefixOfPrefix(a: string, b: string, s: string)
    requires a + b <= s
    ensures a <= s && |a| <= |a + b|
  {
    assert forall i :: 0 <= i < |a| ==> a[i] == (a + b)[i];
  }

  lemma MissedParts(pat: string, p: nat, q: nat)
    requires p < q < |pat|
    ensures var s, n, x := Missed(pat, p, q), |Literals(pat, 0, q)|, |Literals(pat, 0, q)| + RunEnd(pat, q + 1) - q;
      && x <= |s| && Literals(pat, 0, q) <= s[0..] && Literals(pat, 0, p) <= s[0..]
      && (forall i :: n <= i < x ==> s[i] == '/') && s[x..] == Literals(pat, p, |pat|)
      && |Literals(pat, 0, p)| <= n
  {
    ThreeParts(Literals(pat, 0, q), Separators(RunEnd(pat, q + 1) - q), Literals(pat, p, |pat|));
    LiteralsSplit(pat, 0, p, q);
    PrefixOfPrefix(Literals(pat, 0, p), Literals(pat, p, q), Missed(pat, p, q)[0..]);
  }

  /** The '*' at `p` can stand for everything up to where the rest of the pattern begins. */
  lemma StarStands(pat: string, s: string, p: nat, x: nat)
    requires p < |pat| && pat[p] == '*' && x <= |s| && s[x..] == Literals(pat, p, |pat|)
    requires |Literals(pat, 0, p)| <= x && Literals(pat, 0, p) <= s[0..]
    ensures Glob(pat, s, 0, 0)
  {
    GlobLiterals(pat, s, p, |pat|, x);
    Absorb(pat, s, p, |Literals(pat, 0, p)|, x);
    GlobLiterals(pat, s, 0, p, 0);
  }

  lemma MissedIsInLanguage(pat: string, p: nat, q: nat)
    requires p < q < |pat| && pat[p] == '*' && pat[q] == '%'
    ensures Glob(pat, Missed(pat, p, q), 0, 0)
  {
    MissedParts(pat, p, q);
    StarStands(pat, Missed(pat, p, q), p, |Literals(pat, 0, q)| + RunEnd(pat, q + 1) - q);
  }

  /** A '%' that does not run into a wildcard fails at a separator too many. */
  lemma FailsAtSlash(pat: string, s: string, q: nat, n: nat)
    requires q < |pat| && pat[q] == '%' && !RunsIntoWild(pat, q)
    requires n == |Literals(pat, 0, q)| && Literals(pat, 0, q) <= s[0..] && n + RunEnd(pat, q + 1) - q <= |s|
    requires forall i :: n <= i < n + RunEnd(pat, q + 1) - q ==> s[i] == '/'
    ensures !Matches(pat, s)
  {
    var r := RunEnd(pat, q + 1);
    var ss := ReachesPercent(pat, s, q, n);
    var end := Cursor(r, n + r - q - 1, -1, ss, q, n);
    FollowsSlashes(pat, s, Taken(q, n, ss), r);
    LeadsOn(pat, s, Start, Taken(q, n, ss), end);
    LeadsVerdict(pat, s, Start, end);
    assert Step(pat, s, end) == Reject;
  }

  lemma MissedIsRejected(pat: string, p: nat, q: nat)
    requires p < q < |pat| && pat[p] == '*' && pat[q] == '%' && !RunsIntoWild(pat, q)
    ensures !Matches(pat, Missed(pat, p, q))
  {
    MissedParts(pat, p, q);
    FailsAtSlash(pat, Missed(pat, p, q), q, |Literals(pat, 0, q)|);
  }

  // ---------------------------------------------------------------------------
  // Names that are taken in
  // ---------------------------------------------------------------------------

  /** `k` levels named `z`. */
  function Levels(z: char, k: nat): (r: string)
    ensures |r| == 2 * k && forall i :: 0 <= i < 2 * k ==> r[i] == if i % 2 == 0 then '/' else z
  {
    seq(2 * k, i => if i % 2 == 0 then '/' else z)
  }

  predicate LevelAt(s: string, n: nat, z: char, j: nat) {
    n + 2 * j + 2 <= |s| && s[n + 2 * j] == '/' && s[n + 2 * j + 1] == z
  }

  /** The name has `k` levels named `z` from `n` on. */
  predicate HasLevels(s: string, n: nat, z: char, k: nat) {
    forall j :: 0 <= j < k ==> LevelAt(s, n, z, j)
  }

  /** The literals of the pattern with `k` levels too many where the '%' at `q` is. */
  function Overlong(pat: string, q: nat, z: char, k: nat): string
    requires q < |pat|
  {
    Literals(pat, 0, q) + Levels(z, k) + Literals(pat, q + 1, |pat|)
  }

  /** The '%' at `q` has been taken to end at `x`. */
  function Taken(q: nat, x: nat, ss: nat): Cursor {
    Cursor(q + 1, x, -1, ss, q, x)
  }

  /** The '%' takes in a separator. */
  lemma TakesInSlash(pat: string, s: string, q: nat, x: nat, ss: nat)
    requires BareSlash(pat, q) && x + 2 <= |s| && s[x] == '/' && s[x + 1] != '/'
    requires q + 2 < |pat| ==> pat[q + 2] != s[x + 1]
    ensures Leads(pat, s, Taken(q, x, ss), Taken(q, x + 1, ss))
  {
    TakenValid(pat, s, q, x, ss);
    var c := PastLiteralChar(Taken(q, x, ss));
    PassLiteral(pat, s, Taken(q, x, ss));
    PassBack(pat, s, c);
    LeadsOn(pat, s, Taken(q, x, ss), c, PercentTakesMore(c));
  }

  /** And the character after it. */
  lemma TakesInLevel(pat: string, s: string, q: nat, x: nat, ss: nat)
    requires BareSlash(pat, q) && x + 2 <= |s| && s[x] == '/' && s[x + 1] != '/'
    requires q + 2 < |pat| ==> pat[q + 2] != s[x + 1]
    ensures Leads(pat, s, Taken(q, x, ss), Taken(q, x + 2, ss))
  {
    TakesInSlash(pat, s, q, x, ss);
    TakenValid(pat, s, q, x + 1, ss);
    PassBack(pat, s, Taken(q, x + 1, ss));
    LeadsOn(pat, s, Taken(q, x, ss), Taken(q, x + 1, ss), Taken(q, x + 2, ss));
  }

  lemma TakenValid(pat: string, s: string, q: nat, x: nat, ss: nat)
    requires q < |pat| && pat[q] == '%' && x <= |s|
    ensures Valid(pat, s, Taken(q, x, ss)) && Leads(pat, s, Taken(q, x, ss), Taken(q, x, ss))
  {
    LeadsNowhere(pat, s, Taken(q, x, ss));
  }

  lemma OneLevelMore(pat: string, s: string, q: nat, n: nat, m: nat, ss: nat, z: char, k: nat)
    requires BareSlash(pat, q) && z != '/' && (q + 2 < |pat| ==> pat[q + 2] != z)
    requires m == n + 2 * k && LevelAt(s, n, z, k)
    requires Leads(pat, s, Taken(q, n, ss), Taken(q, m, ss))
    ensures Leads(pat, s, Taken(q, n, ss), Taken(q, m + 2, ss))
  {
    TakesInLevel(pat, s, q, m, ss);
    LeadsOn(pat, s, Taken(q, n, ss), Taken(q, m, ss), Taken(q, m + 2, ss));
  }

  lemma {:induction false} TakesInLevels(pat: string, s: string, q: nat, n: nat, ss: nat, z: char, k: nat)
    requires BareSlash(pat, q) && n + 2 * k <= |s| && HasLevels(s, n, z, k)
    requires z != '/' && (q + 2 < |pat| ==> pat[q + 2] != z)
    ensures Leads(pat, s, Taken(q, n, ss), Taken(q, n + 2 * k, ss))
    decreases k
  {
    if k == 0 {
      TakenValid(pat, s, q, n, ss);
    } else {
      TakesInLevels(pat, s, q, n, ss, z, k - 1);
      assert LevelAt(s, n, z, k - 1);
      OneLevelMore(pat, s, q, n, n + 2 * (k - 1), ss, z, k - 1);
    }
  }

  lemma OverlongParts(pat: string, q: nat, z: char, k: nat)
    requires q < |pat|
    ensures var s, n := Overlong(pat, q, z, k), |Literals(pat, 0, q)|;
      && |s| == n + 2 * k + |Literals(pat, q + 1, |pat|)| && Literals(pat, 0, q) <= s[0..]
      && HasLevels(s, n, z, k) && s[n + 2 * k..] == Literals(pat, q + 1, |pat|)
  {
    var s, n := Overlong(pat, q, z, k), |Literals(pat, 0, q)|;
    ThreeParts(Literals(pat, 0, q), Levels(z, k), Literals(pat, q + 1, |pat|));
    forall j | 0 <= j < k ensures LevelAt(s, n, z, j) {
      assert s[n + 2 * j] == Levels(z, k)[2 * j] && s[n + 2 * j + 1] == Levels(z, k)[2 * j + 1];
    }
  }

  lemma ReachesPercent(pat: string, s: string, q: nat, n: nat) returns (ss: nat)
    requires q < |pat| && pat[q] == '%' && n == |Literals(pat, 0, q)| < |s| && Literals(pat, 0, q) <= s[0..]
    ensures Valid(pat, s, Taken(q, n, ss)) && Leads(pat, s, Start, Taken(q, n, ss))
  {
    var c := Follows(pat, s, Start, q);
    PassPercent(pat, s, c);
    ss := c.starSi;
    assert AtPercent(c) == Taken(q, n, ss);
    LeadsOn(pat, s, Start, c, Taken(q, n, ss));
  }

  lemma AcceptsLevels(pat: string, s: string, q: nat, n: nat, z: char, k: nat)
    requires BareSlash(pat, q) && 0 < k && z != '/' && (q + 2 < |pat| ==> pat[q + 2] != z)
    requires n == |Literals(pat, 0, q)| && Literals(pat, 0, q) <= s[0..] && n + 2 * k <= |s|
    requires HasLevels(s, n, z, k) && s[n + 2 * k..] == Literals(pat, q + 1, |pat|)
    ensures Matches(pat, s)
  {
    var ss := ReachesPercent(pat, s, q, n);
    var end := Taken(q, n + 2 * k, ss);
    TakesInLevels(pat, s, q, n, ss, z, k);
    LeadsOn(pat, s, Start, Taken(q, n, ss), end);
    LeadsVerdict(pat, s, Start, end);
    FollowsToEnd(pat, s, end);
  }

  lemma AcceptsOverlong(pat: string, q: nat, z: char, k: nat)
    requires BareSlash(pat, q) && 0 < k && z != '/' && (q + 2 < |pat| ==> pat[q + 2] != z)
    ensures Matches(pat, Overlong(pat, q, z, k))
  {
    OverlongParts(pat, q, z, k);
    AcceptsLevels(pat, Overlong(pat, q, z, k), q, |Literals(pat, 0, q)|, z, k);
  }

  /** Where the part of the pattern from `a` to `b` ends, matched from `x` on. */
  function End(pat: string, s: string, a: nat, b: nat, x: nat): (e: nat)
    requires a <= b <= |pat| && x <= |s| && Glob(pat, s, a, x)
    ensures x <= e <= |s| && Glob(pat, s, b, e)
    decreases b - a, |s| - x
  {
    if a == b then x
    else if !Wild(pat[a]) then End(pat, s, a + 1, b, x + 1)
    else if Glob(pat, s, a + 1, x) then End(pat, s, a + 1, b, x)
    else End(pat, s, a, b, x + 1)
  }

  lemma {:induction false} EndsFar(pat: string, s: string, a: nat, b: nat, x: nat)
    requires a <= b <= |pat| && x <= |s| && Glob(pat, s, a, x)
    ensures End(pat, s, a, b, x) >= x + |Literals(pat, a, b)|
    decreases b - a, |s| - x
  {
    if a < b {
      if !Wild(pat[a]) {
        EndsFar(pat, s, a + 1, b, x + 1);
      } else if Glob(pat, s, a + 1, x) {
        EndsFar(pat, s, a + 1, b, x);
      } else {
        EndsFar(pat, s, a, b, x + 1);
      }
    }
  }

  /** Without '*', each character of the pattern gets past one level at most. */
  lemma {:induction false} EndsNear(pat: string, s: string, a: nat, b: nat, x: nat, n: nat, z: char, k: nat, j: nat)
    requires a <= b <= |pat| && x <= |s| && Glob(pat, s, a, x) && forall i :: a <= i < b ==> pat[i] != '*'
    requires HasLevels(s, n, z, k) && x <= n + 2 * j && j + b - a < k
    ensures End(pat, s, a, b, x) <= n + 2 * (j + b - a)
    decreases b - a, |s| - x
  {
    if a < b {
      if !Wild(pat[a]) {
        EndsNear(pat, s, a + 1, b, x + 1, n, z, k, j + 1);
      } else if Glob(pat, s, a + 1, x) {
        EndsNear(pat, s, a + 1, b, x, n, z, k, j);
      } else {
        assert LevelAt(s, n, z, j);
        EndsNear(pat, s, a, b, x + 1, n, z, k, j);
      }
    }
  }

  /** A literal of the pattern is found in the part of the name that it matches, and with it
      a literal right behind it. */
  lemma {:induction false} EndsPast(pat: string, s: string, a: nat, b: nat, x: nat, v: nat) returns (y: nat)
    requires a <= v < b <= |pat| && x <= |s| && Glob(pat, s, a, x) && !Wild(pat[v])
    ensures x <= y < End(pat, s, a, b, x) && s[y] == pat[v]
    ensures v + 1 < b && !Wild(pat[v + 1]) ==> y + 1 < End(pat, s, a, b, x) && s[y + 1] == pat[v + 1]
    decreases b - a, |s| - x
  {
    if a == v {
      y := x;
    } else if !Wild(pat[a]) {
      y := EndsPast(pat, s, a + 1, b, x + 1, v);
    } else if Glob(pat, s, a + 1, x) {
      y := EndsPast(pat, s, a + 1, b, x, v);
    } else {
      y := EndsPast(pat, s, a, b, x + 1, v);
    }
  }

  lemma NoRun(s: string, n: nat, z: char, k: nat, u: nat)
    requires z != '/' && HasLevels(s, n, z, k) && n <= u < n + 2 * k
    ensures u + 1 <= |s| && (s[u] == '/' ==> u + 1 < |s| && s[u + 1] == z) && (s[u] == '/' || s[u] == z)
  {
    assert LevelAt(s, n, z, (u - n) / 2);
  }

  /** Before a literal that is no level's name, a '%' ends only behind all the levels. */
  lemma PercentEnds(pat: string, s: string, q: nat, n: nat, z: char, k: nat, e: nat)
    requires BareSlash(pat, q) && 0 < k && z != '/' && (q + 2 < |pat| ==> pat[q + 2] != z) && HasLevels(s, n, z, k)
    requires |s| == n + 2 * k + |Literals(pat, q + 1, |pat|)| && n <= e <= |s| && Glob(pat, s, q, e)
    ensures n + 2 * k - 1 <= e <= n + 2 * k
  {
    var u := WildSpan(pat, s, q, e);
    EndsFar(pat, s, q + 1, |pat|, u);
    assert s[u] == '/' && Glob(pat, s, q + 2, u + 1);
    if u < n + 2 * k {
      NoRun(s, n, z, k, u);
    }
    assert LevelAt(s, n, z, k - 1);
  }

  /** A character of the pattern that no run of levels named `z` has. */
  predicate Alien(pat: string, v: nat, z: char)
    requires v + 1 < |pat|
  {
    !Wild(pat[v]) && if pat[v] == '/' then pat[v + 1] == '/' else pat[v] != z
  }

  lemma OverlongFromStart(pat: string, q: nat, z: char, k: nat)
    requires BareSlash(pat, q) && z != '/' && (q + 2 < |pat| ==> pat[q + 2] != z) && q < k
    requires '*' !in pat[..q]
    ensures !Glob(pat, Overlong(pat, q, z, k), 0, 0)
  {
    var s, n := Overlong(pat, q, z, k), |Literals(pat, 0, q)|;
    OverlongParts(pat, q, z, k);
    if Glob(pat, s, 0, 0) {
      EndsFar(pat, s, 0, q, 0);
      PercentEnds(pat, s, q, n, z, k, End(pat, s, 0, q, 0));
      assert forall i :: 0 <= i < q ==> pat[i] == pat[..q][i];
      EndsNear(pat, s, 0, q, 0, n, z, k, 0);
    }
  }

  /** What comes between '*' and '%' cannot end where the levels do: begun before them it does
      not get that far, and begun within them it meets no alien character. */
  lemma EndsElsewhere(pat: string, s: string, a: nat, v: nat, q: nat, x: nat, n: nat, z: char, k: nat)
    requires a <= v < q < |pat| && q - a < k && (forall i :: a <= i < q ==> pat[i] != '*') && Alien(pat, v, z) && pat[q] == '%'
    requires z != '/' && HasLevels(s, n, z, k) && x <= |s| && Glob(pat, s, a, x)
    ensures !(n + 2 * k - 1 <= End(pat, s, a, q, x) <= n + 2 * k)
  {
    if x <= n {
      EndsNear(pat, s, a, q, x, n, z, k, 0);
    } else if End(pat, s, a, q, x) <= n + 2 * k {
      var y := EndsPast(pat, s, a, q, x, v);
      NoRun(s, n, z, k, y);
    }
  }

  lemma NotFromStar(pat: string, s: string, p: nat, v: nat, q: nat, n: nat, z: char, k: nat)
    requires BareSlash(pat, q) && z != '/' && (q + 2 < |pat| ==> pat[q + 2] != z) && q < k && HasLevels(s, n, z, k)
    requires n == |Literals(pat, 0, q)| && |s| == n + 2 * k + |Literals(pat, q + 1, |pat|)|
    requires p < v < q && (forall i :: p < i < q ==> pat[i] != '*') && Alien(pat, v, z)
    ensures !Glob(pat, s, 0, 0)
  {
    if Glob(pat, s, 0, 0) {
      var x := End(pat, s, 0, p + 1, 0);
      EndsFar(pat, s, 0, p + 1, 0);
      EndsFar(pat, s, p + 1, q, x);
      LiteralsSplit(pat, 0, p + 1, q);
      PercentEnds(pat, s, q, n, z, k, End(pat, s, p + 1, q, x));
      EndsElsewhere(pat, s, p + 1, v, q, x, n, z, k);
    }
  }

  lemma OverlongFromStar(pat: string, p: nat, v: nat, q: nat, z: char, k: nat)
    requires BareSlash(pat, q) && z != '/' && (q + 2 < |pat| ==> pat[q + 2] != z) && q < k
    requires p < v < q && (forall i :: p < i < q ==> pat[i] != '*') && Alien(pat, v, z)
    ensures !Glob(pat, Overlong(pat, q, z, k), 0, 0)
  {
    OverlongParts(pat, q, z, k);
    NotFromStar(pat, Overlong(pat, q, z, k), p, v, q, |Literals(pat, 0, q)|, z, k);
  }

  // ---------------------------------------------------------------------------
  // Main results
  // ---------------------------------------------------------------------------

  lemma {:induction false} LastStar(pat: string, q: nat) returns (p: nat)
    requires q <= |pat| && '*' in pat[..q]
    ensures p < q && pat[p] == '*' && forall i :: p < i < q ==> pat[i] != '*'
  {
    if pat[q - 1] == '*' {
      p := q - 1;
    } else {
      assert pat[..q] == pat[..q - 1] + [pat[q - 1]];
      p := LastStar(pat, q - 1);
    }
  }

  function OtherThan(d: char): (z: char)
    ensures z != '/' && z != d
  {
    if d == 'a' then 'b' else 'a'
  }

  /** A name on which matcher and language differ, if a '%' is not tame. */
  lemma WildIsInexact(pat: string, q: nat) returns (s: string)
    requires q < |pat| && pat[q] == '%' && !Tame(pat, q)
    ensures Matches(pat, s) != Glob(pat, s, 0, 0)
  {
    if '*' !in pat[..q] {
      var z := OtherThan(if q + 2 < |pat| then pat[q + 2] else '/');
      s := Overlong(pat, q, z, q + 1);
      AcceptsOverlong(pat, q, z, q + 1);
      OverlongFromStart(pat, q, z, q + 1);
    } else {
      var p := LastStar(pat, q);
      if !RunsIntoWild(pat, q) {
        s := Missed(pat, p, q);
        MissedIsInLanguage(pat, p, q);
        MissedIsRejected(pat, p, q);
      } else {
        s := WildBehindStar(pat, p, q);
      }
    }
  }

  lemma FindAlien(pat: string, p: nat, q: nat) returns (v: nat, z: char)
    requires p < q < |pat| && pat[p] == '*' && (forall i :: p < i < q ==> pat[i] != '*')
    requires pat[q] == '%' && !SlidesFrom(pat, p, q)
    ensures p < v < q && Alien(pat, v, z) && z != '/'
  {
    v :| p < v < q && !PercentOrSingle(pat, v);
    if pat[v] == '/' && pat[v + 1] != '/' {
      v := v + 1;
    }
    z := OtherThan(pat[v]);
  }

  lemma WildBehindStar(pat: string, p: nat, q: nat) returns (s: string)
    requires p < q < |pat| && pat[p] == '*' && (forall i :: p < i < q ==> pat[i] != '*')
    requires BareSlash(pat, q) && RunsIntoWild(pat, q) && !SlidesFrom(pat, p, q)
    ensures Matches(pat, s) && !Glob(pat, s, 0, 0)
  {
    var v, z := FindAlien(pat, p, q);
    assert q + 2 < |pat| && pat[q + 2] == '/';
    s := Overlong(pat, q, z, q + 1);
    AcceptsOverlong(pat, q, z, q + 1);
    OverlongFromStar(pat, p, v, q, z, q + 1);
  }

  /** The matcher is the wildcard language on every name exactly when every '%' of the
      pattern is tame. */
  lemma ExactExactly(pat: string)
    ensures (forall s :: Matches(pat, s) <==> Glob(pat, s, 0, 0)) <==> AllTame(pat)
  {
    if AllTame(pat) {
      forall s ensures Matches(pat, s) <==> Glob(pat, s, 0, 0) {
        TameIsExact(pat, s);
      }
    } else {
      var q: nat :| q < |pat| && pat[q] == '%' && !Tame(pat, q);
      var s := WildIsInexact(pat, q);
    }
  }

  /** For patterns without '*' that is so exactly when every '%' before a separator is
      followed by a wildcard right after it. */
  lemma ExactWithoutStar(pat: string)
    requires '*' !in pat
    ensures (forall s :: Matches(pat, s) <==> Glob(pat, s, 0, 0)) <==> NoBareSlash(pat)
  {
    ExactExactly(pat);
    forall q: nat | q < |pat| && pat[q] == '%' ensures Tame(pat, q) <==> !BareSlash(pat, q) {
      assert forall i :: 0 <= i < q ==> pat[..q][i] == pat[i];
    }
  }

  /** After a '*', a '%' makes the matcher forget the star: "*%" stands for every name but
      matches only those of one level. */
  lemma ForgetsStar(s: string)
    ensures Glob("*%", s, 0, 0)
    ensures Matches("*%", s) <==> '/' !in s
  {
    assert Glob("*%", s, 2, |s|) && Glob("*%", s, 1, |s|) && Glob("*%", s, 0, |s|);
    Absorb("*%", s, 0, 0, |s|);
    if s != "" {
      PassStar("*%", s, Start);
      PassPercent("*%", s, Cursor(1, 0, 0, 0, -1, 0));
      LeadsOn("*%", s, Start, Cursor(1, 0, 0, 0, -1, 0), Cursor(2, 0, -1, 0, 1, 0));
      LeadsVerdict("*%", s, Start, Cursor(2, 0, -1, 0, 1, 0));
      PercentRuns("*%", s, 0);
    }
  }

  /** A final '%' runs to the end of the name or to the next separator. */
  lemma {:induction false} PercentRuns(pat: string, s: string, k: nat)
    requires |pat| == 2 && pat[1] == '%' && k <= |s|
    ensures var c := Cursor(2, k, -1, 0, 1, k);
      Valid(pat, s, c) && (Scan(pat, s, c) <==> '/' !in s[k..])
    decreases |s| - k
  {
    var c := Cursor(2, k, -1, 0, 1, k);
    if k < |s| {
      assert s[k..] == [s[k]] + s[k + 1..];
      if s[k] == '/' {
        assert Step(pat, s, c) == Reject;
      } else {
        PassBack(pat, s, c);
        LeadsVerdict(pat, s, c, PercentTakesMore(c));
        PercentRuns(pat, s, k + 1);
      }
    }
  }
}
