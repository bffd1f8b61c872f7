/** The streaming selection of the most telling words in `junkfilter`, against sorting
    all of them. */
module JunkTop {
  // ---------------------------------------------------------------------------
  // Sorted scores
  // ---------------------------------------------------------------------------

  predicate Ascending(s: seq<real>) {
    forall i, j :: 0 <= i < j < |s| ==> s[i] <= s[j]
  }

  function Insert(s: seq<real>, x: real): (r: seq<real>)
    ensures |r| == |s| + 1
  {
    if s == [] || s[|s| - 1] <= x then s + [x] else Insert(s[..|s| - 1], x) + [s[|s| - 1]]
  }

  function Sort(s: seq<real>): (r: seq<real>)
    ensures |r| == |s|
  {
    if s == [] then [] else Insert(Sort(s[..|s| - 1]), s[|s| - 1])
  }

  function First(s: seq<real>, n: nat): seq<real> {
    if n < |s| then s[..n] else s
  }

  lemma {:induction false} InsertHolds(s: seq<real>, x: real)
    ensures forall y :: y in Insert(s, x) <==> y in s || y == x
    ensures Ascending(s) ==> Ascending(Insert(s, x))
  {
    if s != [] && s[|s| - 1] > x {
      var front, last := s[..|s| - 1], s[|s| - 1];
      InsertHolds(front, x);
      assert s == front + [last];
      if Ascending(s) {
        forall i | 0 <= i < |s| ensures Insert(front, x)[i] <= last {
          assert Insert(front, x)[i] in Insert(front, x);
        }
      }
    }
  }

  lemma {:induction false} SortHolds(s: seq<real>)
    ensures Ascending(Sort(s)) && forall y :: y in Sort(s) <==> y in s
  {
    if s != [] {
      SortHolds(s[..|s| - 1]);
      InsertHolds(Sort(s[..|s| - 1]), s[|s| - 1]);
      assert s == s[..|s| - 1] + [s[|s| - 1]];
    }
  }

  lemma InsertBehind(s: seq<real>, last: real, x: real)
    ensures Insert(s + [last], x) == if last <= x then s + [last] + [x] else Insert(s, x) + [last]
  {
    assert (s + [last])[..|s|] == s;
  }

  lemma {:induction false} InsertCommutes(s: seq<real>, x: real, y: real)
    ensures Insert(Insert(s, x), y) == Insert(Insert(s, y), x)
  {
    if x == y {
      return;
    }
    InsertBehind(s, x, y);
    InsertBehind(s, y, x);
    if s != [] {
      var front, last := s[..|s| - 1], s[|s| - 1];
      assert s == front + [last];
      InsertCommutes(front, x, y);
      InsertBehind(front, last, x);
      InsertBehind(front, last, y);
      InsertBehind(Insert(front, x), last, y);
      InsertBehind(Insert(front, y), last, x);
    }
  }

  /** Of the sorted scores, only the first `n` matter to the next first `n`. */
  lemma {:induction false} InsertFirst(s: seq<real>, x: real, n: nat)
    requires Ascending(s)
    ensures First(Insert(s, x), n) == First(Insert(First(s, n), x), n)
  {
    if n < |s| {
      var front, last := s[..|s| - 1], s[|s| - 1];
      if last <= x {
        assert n > 0 ==> s[..n][n - 1] <= last;
      } else {
        InsertFirst(front, x, n);
        assert First(front, n) == s[..n];
      }
    }
  }

  /** A score no smaller than the first `n` does not get among them. */
  lemma {:induction false} InsertBeyond(s: seq<real>, x: real, n: nat)
    requires Ascending(s) && n <= |s| && (n > 0 ==> s[n - 1] <= x)
    ensures First(Insert(s, x), n) == s[..n]
  {
    if s != [] && s[|s| - 1] > x {
      InsertBeyond(s[..|s| - 1], x, n);
      assert s[..|s| - 1][..n] == s[..n];
    }
  }

  // ---------------------------------------------------------------------------
  // The selection
  // ---------------------------------------------------------------------------

  datatype WordScore = WordScore(word: string, score: real)

  /** The smaller, the more telling: hammy words by score, spammy ones from the top. */
  function Key(w: WordScore, ham: bool): real {
    if ham then w.score else -w.score
  }

  function Keys(ws: seq<WordScore>, ham: bool): seq<real> {
    seq(|ws|, i requires 0 <= i < |ws| => Key(ws[i], ham))
  }

  predicate OnSide(w: WordScore, ham: bool) {
    if ham then w.score < 0.5 else w.score > 0.5
  }

  /** The reference: the keys of all words on one side, sorted. */
  function Ranked(ws: seq<WordScore>, ham: bool): seq<real> {
    if ws == [] then [] else Rank(Ranked(ws[..|ws| - 1], ham), ws[|ws| - 1], ham)
  }

  function Rank(s: seq<real>, w: WordScore, ham: bool): seq<real> {
    if OnSide(w, ham) then Insert(s, Key(w, ham)) else s
  }

  lemma {:induction false} RankedHolds(ws: seq<WordScore>, ham: bool)
    ensures Ascending(Ranked(ws, ham))
    ensures forall y :: y in Ranked(ws, ham) <==> exists w :: w in ws && OnSide(w, ham) && Key(w, ham) == y
  {
    if ws != [] {
      var front, last := ws[..|ws| - 1], ws[|ws| - 1];
      RankedHolds(front, ham);
      InsertHolds(Ranked(front, ham), Key(last, ham));
      assert ws == front + [last];
    }
  }

  function Without(ws: seq<WordScore>, i: nat): seq<WordScore>
    requires i < |ws|
  {
    ws[..i] + ws[i + 1..]
  }

  lemma WithoutFront(ws: seq<WordScore>, i: nat)
    requires i < |ws| - 1
    ensures Without(ws, i) == Without(ws[..|ws| - 1], i) + [ws[|ws| - 1]]
  {
  }

  lemma RankCommutes(s: seq<real>, v: WordScore, w: WordScore, ham: bool)
    requires Ascending(s)
    ensures Rank(Rank(s, v, ham), w, ham) == Rank(Rank(s, w, ham), v, ham)
  {
    InsertCommutes(s, Key(v, ham), Key(w, ham));
  }

  /** Moving a word to the end does not change the ranking. */
  lemma {:induction false} RankedMoves(ws: seq<WordScore>, i: nat, ham: bool)
    requires i < |ws|
    ensures Ranked(ws, ham) == Rank(Ranked(Without(ws, i), ham), ws[i], ham)
    decreases |ws|
  {
    var n := |ws| - 1;
    if i == n {
      assert Without(ws, i) == ws[..n];
    } else {
      RankedMoves(ws[..n], i, ham);
      WithoutFront(ws, i);
      RankedSnoc(Without(ws[..n], i), ws[n], ham);
      RankedHolds(Without(ws[..n], i), ham);
      RankCommutes(Ranked(Without(ws[..n], i), ham), ws[i], ws[n], ham);
    }
  }

  /** The ranking does not depend on the order in which the words come. */
  lemma {:induction false} RankedIgnoresOrder(a: seq<WordScore>, b: seq<WordScore>, ham: bool)
    requires multiset(a) == multiset(b)
    ensures Ranked(a, ham) == Ranked(b, ham)
    decreases |a|
  {
    if a != [] {
      var i := SameElement(a, b);
      RankedIgnoresOrder(a[..|a| - 1], Without(b, i), ham);
      RankedMoves(b, i, ham);
    } else {
      assert |multiset(b)| == |b|;
    }
  }

  /** The place in `b` of the last word of `a`; without it both hold the same words. */
  lemma SameElement(a: seq<WordScore>, b: seq<WordScore>) returns (i: nat)
    requires multiset(a) == multiset(b) && a != []
    ensures i < |b| && b[i] == a[|a| - 1] && multiset(a[..|a| - 1]) == multiset(Without(b, i))
  {
    var last := a[|a| - 1];
    assert last in multiset(b);
    i :| 0 <= i < |b| && b[i] == last;
    WordsWithout(a, |a| - 1);
    WordsWithout(b, i);
    assert Without(a, |a| - 1) == a[..|a| - 1];
  }

  lemma WordsWithout(s: seq<WordScore>, i: nat)
    requires i < |s|
    ensures multiset(Without(s, i)) == multiset(s) - multiset{s[i]}
  {
    assert s == s[..i] + ([s[i]] + s[i + 1..]);
  }

  /** The kept words stand for all seen so far: the same `n` best, and no kept word is
      beyond the bound. */
  ghost predicate StandsFor(kept: seq<WordScore>, seen: seq<WordScore>, bound: real, n: nat, ham: bool) {
    && First(Sort(Keys(kept, ham)), n) == First(Ranked(seen, ham), n)
    && |kept| <= |Ranked(seen, ham)|
    && forall i :: 0 <= i < |kept| ==> Key(kept[i], ham) <= bound
  }

  lemma KeysSnoc(ws: seq<WordScore>, w: WordScore, ham: bool)
    ensures Keys(ws + [w], ham) == Keys(ws, ham) + [Key(w, ham)]
    ensures Sort(Keys(ws + [w], ham)) == Insert(Sort(Keys(ws, ham)), Key(w, ham))
  {
    var k := Keys(ws + [w], ham);
    assert k[..|k| - 1] == Keys(ws, ham);
  }

  lemma RankedSnoc(ws: seq<WordScore>, w: WordScore, ham: bool)
    ensures Ranked(ws + [w], ham) == Rank(Ranked(ws, ham), w, ham)
  {
    assert (ws + [w])[..|ws|] == ws;
  }

  lemma KeepStandsFor(kept: seq<WordScore>, seen: seq<WordScore>, bound: real, n: nat, ham: bool, w: WordScore)
    requires StandsFor(kept, seen, bound, n, ham) && OnSide(w, ham)
    ensures StandsFor(kept + [w], seen + [w], if Key(w, ham) > bound then Key(w, ham) else bound, n, ham)
  {
    KeysSnoc(kept, w, ham);
    RankedSnoc(seen, w, ham);
    SortHolds(Keys(kept, ham));
    RankedHolds(seen, ham);
    InsertFirst(Sort(Keys(kept, ham)), Key(w, ham), n);
    InsertFirst(Ranked(seen, ham), Key(w, ham), n);
  }

  lemma SkipStandsFor(kept: seq<WordScore>, seen: seq<WordScore>, bound: real, n: nat, ham: bool, w: WordScore)
    requires StandsFor(kept, seen, bound, n, ham)
    requires OnSide(w, ham) ==> |kept| >= n && Key(w, ham) > bound
    ensures StandsFor(kept, seen + [w], bound, n, ham)
  {
    RankedSnoc(seen, w, ham);
    if OnSide(w, ham) {
      var k, s := Sort(Keys(kept, ham)), Ranked(seen, ham);
      SortHolds(Keys(kept, ham));
      RankedHolds(seen, ham);
      if n > 0 {
        var x := k[n - 1];
        assert x in k && x in Keys(kept, ham);
        assert First(k, n)[n - 1] == x && First(s, n)[n - 1] == s[n - 1];
      }
      InsertBeyond(s, Key(w, ham), n);
      assert First(s, n) == s[..n];
    }
  }

  /** The comparator: by key, longer words first among equals. */
  predicate Before(a: WordScore, b: WordScore, ham: bool) {
    if a.score == b.score then |a.word| > |b.word| else Key(a, ham) < Key(b, ham)
  }

  function InsertAt(s: seq<real>, j: nat, x: real): seq<real>
    requires j <= |s|
  {
    s[..j] + [x] + s[j..]
  }

  lemma InsertAtFront(s: seq<real>, j: nat, x: real)
    requires j < |s|
    ensures InsertAt(s, j, x) == InsertAt(s[..|s| - 1], j, x) + [s[|s| - 1]]
  {
  }

  /** Where among equals a word goes makes no difference to the scores. */
  lemma {:induction false} InsertAnywhere(s: seq<real>, j: nat, x: real)
    requires Ascending(s) && j <= |s| && (forall k :: j <= k < |s| ==> x <= s[k]) && (j > 0 ==> s[j - 1] <= x)
    ensures InsertAt(s, j, x) == Insert(s, x)
  {
    if j < |s| {
      InsertAtFront(s, j, x);
      InsertAnywhere(s[..|s| - 1], j, x);
      if s[|s| - 1] <= x {
        EqualAtEnd(s, x);
      }
    } else {
      assert InsertAt(s, j, x) == s + [x];
    }
  }

  lemma InsertLast(s: seq<real>, x: real)
    requires s == [] || s[|s| - 1] <= x
    ensures Insert(s, x) == s + [x]
  {
  }

  lemma EqualAtEnd(s: seq<real>, x: real)
    requires Ascending(s) && s != [] && s[|s| - 1] == x
    ensures Insert(s[..|s| - 1], x) + [x] == Insert(s, x)
  {
    InsertLast(s, x);
    InsertLast(s[..|s| - 1], x);
    FrontAndLast(s);
  }

  lemma FrontAndLast(s: seq<real>)
    requires s != []
    ensures s[..|s| - 1] + [s[|s| - 1]] == s
  {
  }

  method SortWords(ws: seq<WordScore>, ham: bool) returns (r: seq<WordScore>)
    ensures Keys(r, ham) == Sort(Keys(ws, ham)) && multiset(r) == multiset(ws)
  {
    r := [];
    for i := 0 to |ws|
      invariant Keys(r, ham) == Sort(Keys(ws[..i], ham)) && multiset(r) == multiset(ws[..i])
    {
      SortHolds(Keys(ws[..i], ham));
      SortedNext(ws, i, ham);
      r := PutInPlace(r, ws[i], ham);
    }
    assert ws[..|ws|] == ws;
  }

  method PutInPlace(r: seq<WordScore>, w: WordScore, ham: bool) returns (r': seq<WordScore>)
    requires Ascending(Keys(r, ham))
    ensures Keys(r', ham) == Insert(Keys(r, ham), Key(w, ham)) && multiset(r') == multiset(r) + multiset{w}
  {
    var j := |r|;
    while j > 0 && Before(w, r[j - 1], ham)
      invariant 0 <= j <= |r| && forall k :: j <= k < |r| ==> Key(w, ham) <= Keys(r, ham)[k]
    {
      j := j - 1;
    }
    Inserted(r, j, w, ham);
    r' := r[..j] + [w] + r[j..];
  }

  lemma SortedNext(ws: seq<WordScore>, i: nat, ham: bool)
    requires i < |ws|
    ensures Sort(Keys(ws[..i + 1], ham)) == Insert(Sort(Keys(ws[..i], ham)), Key(ws[i], ham))
    ensures multiset(ws[..i + 1]) == multiset(ws[..i]) + multiset{ws[i]}
  {
    assert ws[..i + 1] == ws[..i] + [ws[i]];
    KeysSnoc(ws[..i], ws[i], ham);
  }

  lemma Inserted(r: seq<WordScore>, j: nat, w: WordScore, ham: bool)
    requires Ascending(Keys(r, ham)) && j <= |r| && (forall k :: j <= k < |r| ==> Key(w, ham) <= Keys(r, ham)[k])
    requires j > 0 ==> !Before(w, r[j - 1], ham)
    ensures Keys(r[..j] + [w] + r[j..], ham) == Insert(Keys(r, ham), Key(w, ham))
    ensures multiset(r[..j] + [w] + r[j..]) == multiset(r) + multiset{w}
  {
    var s := Keys(r, ham);
    KeysInserted(r, j, w, ham);
    assert j > 0 ==> s[j - 1] <= Key(w, ham);
    InsertAnywhere(s, j, Key(w, ham));
    assert r == r[..j] + r[j..];
  }

  lemma KeysInserted(r: seq<WordScore>, j: nat, w: WordScore, ham: bool)
    requires j <= |r|
    ensures Keys(r[..j] + [w] + r[j..], ham) == InsertAt(Keys(r, ham), j, Key(w, ham))
  {
  }

  function Top(ws: seq<WordScore>, n: nat): seq<WordScore> {
    if |ws| > n then ws[..n] else ws
  }

  /** The selection: whatever order the words come in, the scores of the two lists are
      those of the `n` most hammy and the `n` most spammy words of all. */
  method Select(words: seq<WordScore>, n: nat) returns (topHam: seq<WordScore>, topSpam: seq<WordScore>)
    ensures Keys(topHam, true) == First(Ranked(words, true), n)
    ensures Keys(topSpam, false) == First(Ranked(words, false), n)
    ensures forall w :: w in topHam || w in topSpam ==> w in words
  {
    var hamHigh, spamLow := 0.0, 1.0;
    topHam, topSpam := [], [];
    for i := 0 to |words|
      invariant StandsFor(topHam, words[..i], hamHigh, n, true)
      invariant StandsFor(topSpam, words[..i], -spamLow, n, false)
      invariant forall w :: w in topHam || w in topSpam ==> w in words
    {
      var w := words[i];
      var r := w.score;
      assert words[..i + 1] == words[..i] + [w];
      if r < 0.5 && !(|topHam| >= n && r > hamHigh) {
        KeepStandsFor(topHam, words[..i], hamHigh, n, true, w);
        topHam := topHam + [w];
        if r > hamHigh {
          hamHigh := r;
        }
      } else {
        SkipStandsFor(topHam, words[..i], hamHigh, n, true, w);
      }
      if r > 0.5 && !(|topSpam| >= n && r < spamLow) {
        KeepStandsFor(topSpam, words[..i], -spamLow, n, false, w);
        topSpam := topSpam + [w];
        if r < spamLow {
          spamLow := r;
        }
      } else {
        SkipStandsFor(topSpam, words[..i], -spamLow, n, false, w);
      }
    }
    assert words[..|words|] == words;
    topHam := SortTop(topHam, n, true);
    topSpam := SortTop(topSpam, n, false);
  }

  method SortTop(ws: seq<WordScore>, n: nat, ham: bool) returns (r: seq<WordScore>)
    ensures Keys(r, ham) == First(Sort(Keys(ws, ham)), n) && forall w :: w in r ==> w in ws
  {
    var sorted := SortWords(ws, ham);
    forall w | w in sorted ensures w in ws {
      assert w in multiset(sorted);
    }
    r := Top(sorted, n);
    assert |sorted| == |Keys(sorted, ham)| && Keys(Top(sorted, n), ham) == First(Keys(sorted, ham), n);
  }
}
