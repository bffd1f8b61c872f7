/** Training counters and per-word scores of `junkfilter`. */
module JunkCounts {
  import opened Options
  import opened Sets

  datatype Counts = Counts(ham: nat, spam: nat)

  datatype Training = Training(ham: bool, words: set<string>)

  /** How many messages of a class were trained, and how many of them had a word. */
  function Trained(log: seq<Training>, ham: bool): nat {
    if log == [] then 0
    else
      var t := log[|log| - 1];
      Trained(log[..|log| - 1], ham) + if t.ham == ham && t.words != {} then 1 else 0
  }

  function TrainedWith(log: seq<Training>, ham: bool, w: string): nat {
    if log == [] then 0
    else
      var t := log[|log| - 1];
      TrainedWith(log[..|log| - 1], ham, w) + if t.ham == ham && w in t.words then 1 else 0
  }

  lemma {:induction false} WithinTotal(log: seq<Training>, ham: bool, w: string)
    ensures TrainedWith(log, ham, w) <= Trained(log, ham)
  {
    if log != [] {
      WithinTotal(log[..|log| - 1], ham, w);
    }
  }

  function Get(words: map<string, Counts>, w: string): Counts {
    if w in words then words[w] else Counts(0, 0)
  }

  function Bump(c: Counts, ham: bool): Counts {
    if ham then c.(ham := c.ham + 1) else c.(spam := c.spam + 1)
  }

  class JunkFilter {
    var totals: Counts
    var words: map<string, Counts>
    ghost var log: seq<Training>

    constructor ()
      ensures Valid() && log == []
    {
      totals := Counts(0, 0);
      words := map[];
      log := [];
    }

    /** The counters are exactly what the training history says. */
    ghost predicate Valid()
      reads this
    {
      && totals == Counts(Trained(log, true), Trained(log, false))
      && forall w: string :: Get(words, w) == Counts(TrainedWith(log, true, w), TrainedWith(log, false, w))
    }

    method BumpWords(ham: bool, tokens: set<string>)
      modifies `words
      ensures forall w: string :: Get(words, w) == if w in tokens then Bump(old(Get(words, w)), ham) else old(Get(words, w))
    {
      var left := tokens;
      while left != {}
        invariant left <= tokens
        invariant forall w: string :: Get(words, w) == if w in tokens && w !in left then Bump(old(Get(words, w)), ham) else old(Get(words, w))
        decreases |left|
      {
        ghost var _ := Pick(left);
        var w :| w in left;
        words := words[w := Bump(Get(words, w), ham)];
        left := left - {w};
      }
    }

    /** Trains one message; one without words, or whose content type is bad, trains
        nothing. */
    method Train(ham: bool, tokens: set<string>, badContentType: bool)
      requires Valid()
      modifies this
      ensures Valid()
      ensures log == old(log) + if badContentType then [] else [Training(ham, tokens)]
      ensures badContentType || tokens == {} ==> totals == old(totals) && words == old(words)
    {
      if badContentType || |tokens| == 0 {
        if !badContentType {
          Appended(log, Training(ham, tokens));
          log := log + [Training(ham, tokens)];
        }
        return;
      }
      totals := Bump(totals, ham);
      BumpWords(ham, tokens);
      Appended(log, Training(ham, tokens));
      log := log + [Training(ham, tokens)];
    }

    /** No word was seen more often than messages were trained. */
    lemma CountsWithinTotals(w: string)
      requires Valid()
      ensures Get(words, w).ham <= totals.ham && Get(words, w).spam <= totals.spam
    {
      WithinTotal(log, true, w);
      WithinTotal(log, false, w);
    }
  }

  lemma Appended(log: seq<Training>, t: Training)
    ensures forall ham :: Trained(log + [t], ham) == Trained(log, ham) + if t.ham == ham && t.words != {} then 1 else 0
    ensures forall ham, w :: TrainedWith(log + [t], ham, w) == TrainedWith(log, ham, w) + if t.ham == ham && w in t.words then 1 else 0
  {
    assert (log + [t])[..|log|] == log;
  }

  // ---------------------------------------------------------------------------
  // The score of a word
  // ---------------------------------------------------------------------------

  datatype Params = Params(maxPower: real, rareWords: nat, ignoreWords: real)

  function Ratio(n: nat, total: nat): real {
    if total > 0 then n as real / total as real else 0.0
  }

  function Clamp(r: real, p: Params): real {
    if r < p.maxPower then p.maxPower else if r >= 1.0 - p.maxPower then 1.0 - p.maxPower else r
  }

  /** Words seen rarely are drawn towards 0.5. */
  function Soften(r: real, seen: nat, p: Params): real {
    if seen <= p.rareWords then r + (1 + p.rareWords - seen) as real * (0.5 - r) / 10.0 else r
  }

  /** The spaminess of a word; None when it says nothing. */
  function Score(c: Counts, totals: Counts, p: Params): Option<real> {
    var wS, wH := Ratio(c.spam, totals.spam), Ratio(c.ham, totals.ham);
    if wS + wH == 0.0 then None
    else
      var r := Soften(Clamp(wS / (wS + wH), p), c.ham + c.spam, p);
      if -p.ignoreWords < 0.5 - r < p.ignoreWords then None else Some(r)
  }

  predicate InPower(r: Option<real>, p: Params) {
    r.Some? ==> p.maxPower <= r.value <= 1.0 - p.maxPower
  }

  /** How far from the middle the strongest word lands when it was seen once. */
  function Swing(p: Params): real {
    (p.rareWords as real / 10.0 - 1.0) * (0.5 - p.maxPower)
  }

  /** Scores stay within the power limits, where both logarithms taken of them are finite,
      whatever the counts, exactly when the rare-word bound is at most twenty or every word
      that softening throws past the limits is ignored.  Otherwise a word seen once, as spam,
      gets a score outside the limits. */
  lemma ScoreWithinPowerExactly(p: Params)
    requires 0.0 < p.maxPower < 0.5
    ensures (forall c, totals :: InPower(Score(c, totals, p), p)) <==> p.rareWords <= 20 || Swing(p) < p.ignoreWords
  {
    if p.rareWords <= 20 || Swing(p) < p.ignoreWords {
      forall c, totals ensures InPower(Score(c, totals, p), p) {
        ScoreWithinPower(c, totals, p);
      }
    } else {
      var k, d := p.rareWords as real, 0.5 - p.maxPower;
      assert Ratio(1, 1) == 1.0 && Ratio(0, 0) == 0.0;
      assert Clamp(1.0, p) == 1.0 - p.maxPower;
      Product(k - 21.0, d);
      assert Soften(1.0 - p.maxPower, 1, p) == 1.0 - p.maxPower - k * d / 10.0;
      assert Swing(p) == k * d / 10.0 - d;
      assert !InPower(Score(Counts(0, 1), Counts(0, 1), p), p);
    }
  }

  lemma ScoreWithinPower(c: Counts, totals: Counts, p: Params)
    requires 0.0 < p.maxPower < 0.5 && (p.rareWords <= 20 || Swing(p) < p.ignoreWords)
    ensures InPower(Score(c, totals, p), p)
  {
    var wS, wH := Ratio(c.spam, totals.spam), Ratio(c.ham, totals.ham);
    if wS + wH != 0.0 {
      assert c.ham + c.spam > 0;
      var r, seen := Clamp(wS / (wS + wH), p), c.ham + c.spam;
      if p.rareWords < seen + 20 {
        SoftenWithin(r, seen, p);
      } else {
        SoftenSwings(r, seen, p);
      }
    }
  }

  /** Softened by more than twenty tenths, a score swings past the middle, but not further
      than the strongest one seen once. */
  lemma SoftenSwings(r: real, seen: nat, p: Params)
    requires p.maxPower <= r <= 1.0 - p.maxPower && 0 < seen && p.rareWords >= seen + 20
    ensures -Swing(p) <= 0.5 - Soften(r, seen, p) <= Swing(p)
  {
    var k, d, m := (1 + p.rareWords - seen) as real, 0.5 - r, 0.5 - p.maxPower;
    assert Soften(r, seen, p) == r + k * d / 10.0;
    assert 0.5 - Soften(r, seen, p) == d - k * d / 10.0;
    Product(k - 10.0, m - d);
    Product(k - 10.0, m + d);
    Product(p.rareWords as real - k, m);
  }

  lemma SoftenWithin(r: real, seen: nat, p: Params)
    requires p.maxPower <= r <= 1.0 - p.maxPower && 0 < seen && p.rareWords < seen + 20
    ensures p.maxPower <= Soften(r, seen, p) <= 1.0 - p.maxPower
  {
    if seen <= p.rareWords {
      var k, d := (1 + p.rareWords - seen) as real, 0.5 - r;
      assert 0.0 <= k <= 20.0;
      var y := SoftenBetween(k, d);
      assert Soften(r, seen, p) == r + y;
      assert 2.0 * d == 1.0 - 2.0 * r;
      Within(r, y, 2.0 * d, p.maxPower);
    }
  }

  /** A step of k tenths of the way to the middle, k up to twenty, ends no further from it
      than it began. */
  lemma SoftenBetween(k: real, d: real) returns (y: real)
    requires 0.0 <= k <= 20.0
    ensures y == k * d / 10.0
    ensures (0.0 <= y <= 2.0 * d) || (2.0 * d <= y <= 0.0)
  {
    y := k * d / 10.0;
    if d >= 0.0 {
      Product(k, d);
      Product(20.0 - k, d);
      assert (20.0 - k) * d == 20.0 * d - k * d;
    } else {
      Product(k, -d);
      Product(20.0 - k, -d);
      assert (20.0 - k) * -d == k * d - 20.0 * d;
    }
  }

  lemma Within(r: real, y: real, e: real, m: real)
    requires e == 1.0 - 2.0 * r && m <= r <= 1.0 - m
    requires (0.0 <= y <= e) || (e <= y <= 0.0)
    ensures m <= r + y <= 1.0 - m
  {
  }

  lemma Product(a: real, b: real)
    requires a >= 0.0 && b >= 0.0
    ensures a * b >= 0.0
  {
  }
}
