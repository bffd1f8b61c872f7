/** UID sets of `protocol/imapd`: the printer, the parser, and the second implementation
    of set membership in SEARCH, over the sequence-set of section 9 of RFC 3501. */
module UidSets {
  import opened Text

  const MAX_UID := 0xFFFF_FFFF
  const MAX_UINT64 := 0xFFFF_FFFF_FFFF_FFFF

  datatype Range = Range(lo: nat, hi: nat)

  // ---------------------------------------------------------------------------
  // Printing
  // ---------------------------------------------------------------------------

  predicate Increasing(nums: seq<nat>) {
    forall i, j :: 0 <= i < j < |nums| ==> nums[i] < nums[j]
  }

  function Formatted(nums: seq<nat>): seq<string> {
    seq(|nums|, i requires 0 <= i < |nums| => Format(nums[i]))
  }

  /** Adds a number at the end, to the last run if it continues it. */
  function AddRun(runs: seq<Range>, n: nat): seq<Range> {
    if runs != [] && n == runs[|runs| - 1].hi + 1
    then Front(runs) + [Range(runs[|runs| - 1].lo, n)]
    else runs + [Range(n, n)]
  }

  function Front(runs: seq<Range>): seq<Range> {
    if runs == [] then [] else runs[..|runs| - 1]
  }

  /** The longest runs of consecutive numbers, in order. */
  function Runs(nums: seq<nat>): seq<Range> {
    if nums == [] then [] else AddRun(Runs(nums[..|nums| - 1]), nums[|nums| - 1])
  }

  function FormatRange(r: Range): string {
    if r.lo == r.hi then Format(r.lo) else Format(r.lo) + ":" + Format(r.hi)
  }

  function FormatRanges(runs: seq<Range>): seq<string> {
    seq(|runs|, i requires 0 <= i < |runs| => FormatRange(runs[i]))
  }

  /** Collapses a list of decimal UIDs into ranges; a list with anything else in it is
      joined as it is. */
  method CompressUidList(ids: seq<string>) returns (s: string)
    ensures ids == [] ==> s == ""
    ensures (exists i :: 0 <= i < |ids| && !ParseUint(ids[i], MAX_UINT64).Num?) ==> s == Join(ids, ',')
    ensures forall nums :: nums != [] && Increasing(nums) && nums[|nums| - 1] <= MAX_UINT64 && ids == Formatted(nums) ==>
      s == Join(FormatRanges(Runs(nums)), ',')
  {
    if ids == [] {
      return "";
    }
    var nums: seq<nat> := [];
    for i := 0 to |ids|
      invariant |nums| == i && forall k :: 0 <= k < i ==> ParseUint(ids[k], MAX_UINT64) == Num(nums[k])
    {
      var p := ParseUint(ids[i], MAX_UINT64);
      if !p.Num? {
        NotFormatted(ids, i);
        return Join(ids, ',');
      }
      nums := nums + [p.n];
    }
    var parts := Collapse(nums);
    forall ns | ns != [] && Increasing(ns) && ns[|ns| - 1] <= MAX_UINT64 && ids == Formatted(ns) ensures ns == nums {
      ParsedBack(ns, nums, ids);
    }
    s := Join(parts, ',');
  }

  lemma NotFormatted(ids: seq<string>, i: nat)
    requires i < |ids| && !ParseUint(ids[i], MAX_UINT64).Num?
    ensures forall nums :: nums != [] && Increasing(nums) && nums[|nums| - 1] <= MAX_UINT64 ==> ids != Formatted(nums)
  {
    forall nums | nums != [] && Increasing(nums) && nums[|nums| - 1] <= MAX_UINT64 ensures ids != Formatted(nums) {
      if ids == Formatted(nums) {
        ParseIsValue(Format(nums[i]), MAX_UINT64);
      }
    }
  }

  lemma ParsedBack(ns: seq<nat>, nums: seq<nat>, ids: seq<string>)
    requires Increasing(ns) && (ns != [] ==> ns[|ns| - 1] <= MAX_UINT64) && ids == Formatted(ns) && |nums| == |ids|
    requires forall k :: 0 <= k < |ids| ==> ParseUint(ids[k], MAX_UINT64) == Num(nums[k])
    ensures ns == nums
  {
    forall k | 0 <= k < |ns| ensures ns[k] == nums[k] {
      ParseIsValue(Format(ns[k]), MAX_UINT64);
    }
  }

  method Collapse(nums: seq<nat>) returns (parts: seq<string>)
    requires nums != []
    ensures parts == FormatRanges(Runs(nums))
  {
    parts := [];
    var start, prev := nums[0], nums[0];
    ghost var runs := [Range(nums[0], nums[0])];
    assert nums[..1][..0] == [];
    for i := 1 to |nums|
      invariant runs == Runs(nums[..i]) && runs != [] && runs[|runs| - 1] == Range(start, prev)
      invariant parts == FormatRanges(Front(runs))
    {
      assert nums[..i + 1][..i] == nums[..i];
      LastFormatted(runs);
      AddedRun(runs, nums[i]);
      runs := AddRun(runs, nums[i]);
      if nums[i] == prev + 1 {
        prev := nums[i];
      } else {
        parts := parts + [FormatRange(Range(start, prev))];
        start, prev := nums[i], nums[i];
      }
    }
    LastFormatted(runs);
    parts := parts + [FormatRange(Range(start, prev))];
    assert nums[..|nums|] == nums;
  }

  lemma LastFormatted(runs: seq<Range>)
    requires runs != []
    ensures FormatRanges(runs) == FormatRanges(Front(runs)) + [FormatRange(runs[|runs| - 1])]
  {
  }

  lemma AddedRun(runs: seq<Range>, n: nat)
    requires runs != []
    ensures var added, last := AddRun(runs, n), runs[|runs| - 1];
      && added != []
      && Front(added) == (if n == last.hi + 1 then Front(runs) else runs)
      && added[|added| - 1] == Range(if n == last.hi + 1 then last.lo else n, n)
  {
  }

  predicate Within(ranges: seq<Range>, u: nat) {
    exists i :: 0 <= i < |ranges| && ranges[i].lo <= u <= ranges[i].hi
  }

  /** In order, and no two of them could be joined. */
  predicate Apart(runs: seq<Range>) {
    && (forall i :: 0 <= i < |runs| ==> runs[i].lo <= runs[i].hi)
    && (forall i, j :: 0 <= i < j < |runs| ==> runs[i].hi + 1 < runs[j].lo)
  }

  lemma AddRunApart(runs: seq<Range>, n: nat)
    requires Apart(runs) && (runs != [] ==> runs[|runs| - 1].hi < n)
    ensures Apart(AddRun(runs, n))
  {
  }

  lemma AddRunHolds(runs: seq<Range>, n: nat, u: nat)
    requires Apart(runs)
    ensures Within(AddRun(runs, n), u) <==> Within(runs, u) || u == n
  {
    if runs != [] && n == runs[|runs| - 1].hi + 1 {
      var last := runs[|runs| - 1];
      assert last.lo <= last.hi && runs == Front(runs) + [last];
      WithinSnoc(Front(runs), last, u);
      WithinSnoc(Front(runs), Range(last.lo, n), u);
    } else {
      WithinSnoc(runs, Range(n, n), u);
    }
  }

  /** Runs are as long as they can be. */
  lemma {:induction false} RunsApart(nums: seq<nat>)
    requires Increasing(nums)
    ensures Apart(Runs(nums))
    ensures nums != [] ==> Runs(nums) != [] && Runs(nums)[|Runs(nums)| - 1].hi == nums[|nums| - 1]
  {
    if nums != [] {
      RunsApart(nums[..|nums| - 1]);
      AddRunApart(Runs(nums[..|nums| - 1]), nums[|nums| - 1]);
    }
  }

  /** The runs hold exactly the listed numbers. */
  lemma {:induction false} RunsHold(nums: seq<nat>, u: nat)
    requires Increasing(nums)
    ensures Within(Runs(nums), u) <==> u in nums
  {
    if nums != [] {
      var front, n := nums[..|nums| - 1], nums[|nums| - 1];
      RunsHold(front, u);
      RunsApart(front);
      AddRunHolds(Runs(front), n, u);
      assert nums == front + [n];
    }
  }

  lemma WithinSnoc(runs: seq<Range>, r: Range, u: nat)
    ensures Within(runs + [r], u) <==> Within(runs, u) || r.lo <= u <= r.hi
  {
    if Within(runs, u) {
      var i :| 0 <= i < |runs| && runs[i].lo <= u <= runs[i].hi;
      assert (runs + [r])[i] == runs[i];
    }
    if r.lo <= u <= r.hi {
      assert (runs + [r])[|runs|] == r;
    }
  }

  // ---------------------------------------------------------------------------
  // Parsing
  // ---------------------------------------------------------------------------

  /** A bound of a range: errors are ignored, so nonsense reads as 0 and a number too
      large as the largest. */
  function Bound(x: string, maxUid: nat): nat {
    if x == "*" then maxUid
    else match ParseUint(x, MAX_UID) case Num(n) => n case SyntaxError => 0 case RangeError => MAX_UID
  }

  function Ordered(l: nat, h: nat): Range {
    if l > h then Range(h, l) else Range(l, h)
  }

  function PartRange(part: string, maxUid: nat): Range {
    var p := TrimSpace(part);
    if ':' in p then Ordered(Bound(p[..IndexOf(p, ':')], maxUid), Bound(p[IndexOf(p, ':') + 1..], maxUid))
    else Range(Bound(p, maxUid), Bound(p, maxUid))
  }

  function SetRanges(s: string, maxUid: nat): seq<Range> {
    var parts := Split(s, ',');
    seq(|parts|, i requires 0 <= i < |parts| => PartRange(parts[i], maxUid))
  }

  method ParseUidSet(s: string, maxUid: nat) returns (ranges: seq<Range>)
    ensures ranges == SetRanges(s, maxUid)
  {
    ranges := [];
    var parts := Split(s, ',');
    for i := 0 to |parts|
      invariant |ranges| == i && forall k :: 0 <= k < i ==> ranges[k] == PartRange(parts[k], maxUid)
    {
      var part := TrimSpace(parts[i]);
      var lo, hi, isRange := part, "", false;
      if ':' in part {
        var at := IndexOf(part, ':');
        lo, hi, isRange := part[..at], part[at + 1..], true;
      }
      var l := Bound(lo, maxUid);
      var h := l;
      if isRange {
        h := Bound(hi, maxUid);
      }
      if l > h {
        l, h := h, l;
      }
      ranges := ranges + [Range(l, h)];
    }
  }

  /** The matcher that parseUIDSet returns. */
  method Accepts(ranges: seq<Range>, uid: nat) returns (r: bool)
    ensures r == Within(ranges, uid)
  {
    for i := 0 to |ranges|
      invariant forall k :: 0 <= k < i ==> !(ranges[k].lo <= uid <= ranges[k].hi)
    {
      if uid >= ranges[i].lo && uid <= ranges[i].hi {
        return true;
      }
    }
    return false;
  }

  lemma RangeRoundTrip(r: Range, maxUid: nat)
    requires r.lo <= r.hi <= MAX_UID
    ensures PartRange(FormatRange(r), maxUid) == r && ',' !in FormatRange(r)
  {
    var lo, hi := Format(r.lo), Format(r.hi);
    ParseIsValue(lo, MAX_UID);
    ParseIsValue(hi, MAX_UID);
    NoneIn(lo);
    NoneIn(hi);
    if r.lo == r.hi {
      TrimDigits(lo);
    } else {
      var p := lo + ":" + hi;
      TrimRange(lo, hi);
      assert p[..|lo|] == lo && p[|lo|] == ':' && p[|lo| + 1..] == hi;
      FirstIndex(p, ':', |lo|);
    }
  }

  lemma NoneIn(s: string)
    requires AllDigits(s)
    ensures ',' !in s && ':' !in s && s != "*"
  {
    assert s == "*" ==> !IsDigit(s[0]);
  }

  lemma TrimRange(lo: string, hi: string)
    requires AllDigits(lo) && AllDigits(hi) && lo != "" && hi != ""
    ensures TrimSpace(lo + ":" + hi) == lo + ":" + hi
  {
    var p := lo + ":" + hi;
    assert IsDigit(p[0]) && IsDigit(p[|p| - 1]);
  }

  /** What compressUIDList prints, parseUIDSet reads back as exactly the listed UIDs, from
      ranges that are as long as possible. */
  lemma PrintedSetIsExact(nums: seq<nat>, maxUid: nat, u: nat)
    requires nums != [] && Increasing(nums) && nums[|nums| - 1] <= MAX_UID
    ensures SetRanges(Join(FormatRanges(Runs(nums)), ','), maxUid) == Runs(nums)
    ensures Within(SetRanges(Join(FormatRanges(Runs(nums)), ','), maxUid), u) <==> u in nums
    ensures Apart(Runs(nums))
  {
    RunsApart(nums);
    RunsHold(nums, u);
    var runs := Runs(nums);
    forall i | 0 <= i < |runs| ensures runs[i].hi <= MAX_UID {
      assert i < |runs| - 1 ==> runs[i].hi + 1 < runs[|runs| - 1].lo;
    }
    SetRoundTrip(runs, maxUid);
  }

  lemma SetRoundTrip(runs: seq<Range>, maxUid: nat)
    requires runs != [] && forall i :: 0 <= i < |runs| ==> runs[i].lo <= runs[i].hi <= MAX_UID
    ensures SetRanges(Join(FormatRanges(runs), ','), maxUid) == runs
  {
    var parts := FormatRanges(runs);
    forall i | 0 <= i < |parts| ensures ',' !in parts[i] && PartRange(parts[i], maxUid) == runs[i] {
      RangeRoundTrip(runs[i], maxUid);
    }
    SplitJoin(parts, ',');
  }

  // ---------------------------------------------------------------------------
  // Set membership in SEARCH
  // ---------------------------------------------------------------------------

  /** The characters that make SEARCH take a token for a set. */
  predicate IsSeqSet(s: string) {
    s != "" && forall i :: 0 <= i < |s| ==> IsDigit(s[i]) || s[i] in ":,*"
  }

  /** The digits of base `b` at the start of the text. */
  function Leading(s: string, i: nat, acc: nat, b: nat): nat
    requires i <= |s|
    decreases |s| - i
  {
    if i < |s| && IsDigit(s[i]) && DigitOf(s[i]) < b then Leading(s, i + 1, b * acc + DigitOf(s[i]), b) else acc
  }

  /** A number as Sscan reads it into 32 bits: a leading zero means octal, what does not
      belong to the number is left alone, and on any error the result stays 0. */
  function SeqNum(x: string, max: nat): nat {
    if x == "*" then max
    else if x == "" || !IsDigit(x[0]) then 0
    else
      var n := Leading(x, 0, 0, if x[0] == '0' then 8 else 10);
      if n <= MAX_UID then n else 0
  }

  predicate PartMatches(part: string, v: nat, max: nat) {
    if ':' in part then
      var r := Ordered(SeqNum(part[..IndexOf(part, ':')], max), SeqNum(part[IndexOf(part, ':') + 1..], max));
      r.lo <= v <= r.hi
    else SeqNum(part, max) == v
  }

  predicate InSet(s: string, v: nat, max: nat) {
    exists i :: 0 <= i < |Split(s, ',')| && PartMatches(Split(s, ',')[i], v, max)
  }

  method MatchSetStar(s: string, v: nat, max: nat) returns (r: bool)
    requires IsSeqSet(s)
    ensures r == InSet(s, v, max)
  {
    var parts := Split(s, ',');
    for i := 0 to |parts|
      invariant forall k :: 0 <= k < i ==> !PartMatches(parts[k], v, max)
    {
      var lo, hi, isRange := parts[i], "", false;
      if ':' in parts[i] {
        var at := IndexOf(parts[i], ':');
        lo, hi, isRange := parts[i][..at], parts[i][at + 1..], true;
      }
      var a := SeqNum(lo, max);
      if !isRange {
        if a == v {
          return true;
        }
        continue;
      }
      var b := SeqNum(hi, max);
      if a > b {
        a, b := b, a;
      }
      if v >= a && v <= b {
        return true;
      }
    }
    return false;
  }

  // The sequence-set of RFC 3501.

  predicate IsNumber(x: string) {
    x != "" && AllDigits(x) && x[0] != '0'
  }

  predicate IsSeqNumber(x: string) {
    x == "*" || (IsNumber(x) && Value(x) <= MAX_UID)
  }

  predicate IsSeqPart(p: string) {
    if ':' in p then IsSeqNumber(p[..IndexOf(p, ':')]) && IsSeqNumber(p[IndexOf(p, ':') + 1..]) else IsSeqNumber(p)
  }

  predicate WellFormed(s: string) {
    forall i :: 0 <= i < |Split(s, ',')| ==> IsSeqPart(Split(s, ',')[i])
  }

  lemma {:induction false} LeadingIsValue(x: string, i: nat)
    requires AllDigits(x) && i <= |x|
    ensures Leading(x, i, Value(x[..i]), 10) == Value(x)
    decreases |x| - i
  {
    if i < |x| {
      assert x[..i + 1][..i] == x[..i];
      LeadingIsValue(x, i + 1);
    } else {
      assert x[..i] == x;
    }
  }

  /** Reading digits as octal, up to the first that is none, gives no more than reading all
      of them as decimal, and less from 8 on. */
  lemma {:induction false} OctalIsLess(x: string, i: nat, acc: nat)
    requires AllDigits(x) && i <= |x| && acc <= Value(x[..i]) && (Value(x[..i]) >= 8 ==> acc < Value(x[..i]))
    ensures Leading(x, i, acc, 8) <= Value(x) && (Value(x) >= 8 ==> Leading(x, i, acc, 8) < Value(x))
    decreases |x| - i
  {
    if i == |x| {
      assert x[..i] == x;
    } else {
      assert x[..i + 1][..i] == x[..i];
      if DigitOf(x[i]) < 8 {
        OctalIsLess(x, i + 1, 8 * acc + DigitOf(x[i]));
      } else {
        PrefixSmaller(x, i + 1);
      }
    }
  }

  lemma {:induction false} OctalOfSmall(x: string, i: nat)
    requires AllDigits(x) && i <= |x| && Value(x) < 8
    ensures Leading(x, i, Value(x[..i]), 8) == Value(x)
    decreases |x| - i
  {
    if i == |x| {
      assert x[..i] == x;
    } else {
      assert x[..i + 1][..i] == x[..i];
      PrefixSmaller(x, i + 1);
      OctalOfSmall(x, i + 1);
    }
  }

  /** What the reader of FETCH makes of digits. */
  lemma BoundOfDigits(x: string, max: nat)
    requires x != "" && AllDigits(x)
    ensures Bound(x, max) == if Value(x) <= MAX_UID then Value(x) else MAX_UID
  {
    NoneIn(x);
    assert x[..0] == "";
    if Value(x) <= MAX_UID {
      ParseIsValue(x, MAX_UID);
    } else {
      ParseFromTooLarge(x, 0, MAX_UID);
    }
  }

  /** The two readers agree on a string of digits: without a leading zero, exactly when the
      number fits in 32 bits, since one takes a larger number for the largest UID and the
      other for 0; with one, exactly when the number is below 8, or the octal digits are
      worth the largest UID. */
  lemma NumbersAgreeExactly(x: string, max: nat)
    requires x != "" && AllDigits(x)
    ensures Bound(x, max) == SeqNum(x, max) <==>
      if x[0] == '0' then Value(x) < 8 || Leading(x, 0, 0, 8) == MAX_UID else Value(x) <= MAX_UID
  {
    NoneIn(x);
    assert x[..0] == "" && IsDigit(x[0]);
    BoundOfDigits(x, max);
    LeadingIsValue(x, 0);
    if x[0] == '0' {
      OctalIsLess(x, 0, 0);
      if Value(x) < 8 {
        OctalOfSmall(x, 0);
      }
    }
  }

  lemma PartsAgree(p: string, v: nat, max: nat)
    requires IsSeqPart(p)
    ensures PartMatches(p, v, max) <==> PartRange(p, max).lo <= v <= PartRange(p, max).hi
  {
    NoSpace(p);
    if ':' in p {
      var lo, hi := p[..IndexOf(p, ':')], p[IndexOf(p, ':') + 1..];
      if lo != "*" { NumbersAgreeExactly(lo, max); }
      if hi != "*" { NumbersAgreeExactly(hi, max); }
    } else if p != "*" {
      NumbersAgreeExactly(p, max);
    }
  }

  lemma NoSpace(p: string)
    requires IsSeqPart(p)
    ensures TrimSpace(p) == p
  {
    if ':' in p {
      var i := IndexOf(p, ':');
      var lo, hi := p[..i], p[i + 1..];
      assert p[0] == lo[0] && p[|p| - 1] == hi[|hi| - 1];
      assert lo == "*" || IsDigit(lo[0]);
      assert hi == "*" || IsDigit(hi[|hi| - 1]);
    } else {
      assert p == "*" || (IsDigit(p[0]) && IsDigit(p[|p| - 1]));
    }
    assert !IsSpace(p[0]) && !IsSpace(p[|p| - 1]);
  }

  /** On every well-formed sequence-set, FETCH and SEARCH mean the same messages. */
  lemma SetsAgree(s: string, v: nat, max: nat)
    requires WellFormed(s)
    ensures Within(SetRanges(s, max), v) <==> InSet(s, v, max)
  {
    var parts := Split(s, ',');
    forall i | 0 <= i < |parts|
      ensures PartMatches(parts[i], v, max) <==> SetRanges(s, max)[i].lo <= v <= SetRanges(s, max)[i].hi
    {
      PartsAgree(parts[i], v, max);
    }
  }
}
