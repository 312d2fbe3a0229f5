/**
 Address ranges and one merging pass over a sorted list of them, as functions on sequences.
 The blocklist of src/pgld/blocklist.c is proved against these.
 */
module Ranges {
  type Ip = x: int | 0 <= x <= 0xFFFF_FFFF

  datatype Range = Range(min: Ip, max: Ip)

  /** What blanking leaves behind: 255.255.255.255, which sorts last. */
  const BLANK := Range(0xFFFF_FFFF, 0xFFFF_FFFF)

  ghost predicate Within(r: Range, ip: Ip) { r.min <= ip <= r.max }

  ghost predicate Covered(s: seq<Range>, ip: Ip) { exists i :: 0 <= i < |s| && Within(s[i], ip) }

  ghost predicate SameCover(s: seq<Range>, t: seq<Range>) { forall ip: Ip :: Covered(s, ip) <==> Covered(t, ip) }

  ghost predicate Sorted(s: seq<Range>) { forall i, j :: 0 <= i < j < |s| ==> s[i].min <= s[j].min }

  /** Sorted, disjoint and not even adjacent. */
  ghost predicate Separated(s: seq<Range>) { forall i, j :: 0 <= i < j < |s| ==> s[i].max + 1 < s[j].min }

  ghost predicate WellFormed(s: seq<Range>) { forall i :: 0 <= i < |s| ==> s[i].min <= s[i].max }

  // ---- the inner loop -------------------------------------------------------------------

  /** Where the look-ahead from entry j stops, and the highest end it has seen. */
  function Reach(s: seq<Range>, j: nat, top: Ip): (r: (nat, Ip))
    requires j <= |s|
    ensures j <= r.0 <= |s| && top <= r.1
    ensures r.0 == j ==> r.1 == top
    ensures r.0 < |s| ==> r.1 < 0xFFFF_FFFF && r.1 + 1 < s[r.0].min
    decreases |s| - j
  {
    if j == |s| then (j, top)
    else if top == 0xFFFF_FFFF then (|s|, top)
    else if s[j].min > top + 1 then (j, top)
    else Reach(s, j + 1, if s[j].max > top then s[j].max else top)
  }

  ghost predicate CoveredIn(s: seq<Range>, a: nat, b: nat, ip: Ip)
    requires b <= |s|
  {
    exists k :: a <= k < b && Within(s[k], ip)
  }

  lemma CoveredInFirst(s: seq<Range>, a: nat, b: nat, ip: Ip)
    requires a < b <= |s|
    ensures CoveredIn(s, a, b, ip) <==> Within(s[a], ip) || CoveredIn(s, a + 1, b, ip)
  {
    hide Within;
    if CoveredIn(s, a, b, ip) {
      var k :| a <= k < b && Within(s[k], ip);
      assert k == a || a + 1 <= k < b;
    }
  }

  lemma CoveredInSplit(s: seq<Range>, a: nat, b: nat, c: nat, ip: Ip)
    requires a <= b <= c <= |s|
    ensures CoveredIn(s, a, c, ip) <==> CoveredIn(s, a, b, ip) || CoveredIn(s, b, c, ip)
  {
    hide Within;
  }

  /** The entries swallowed by the look-ahead extend [low, top] to [low, new top] and nothing else. */
  lemma {:induction false} ReachCovers(s: seq<Range>, j: nat, low: Ip, top: Ip, ip: Ip)
    requires j <= |s| && (forall k :: j <= k < |s| ==> low <= s[k].min)
    ensures var (j', top') := Reach(s, j, top);
      Within(Range(low, top), ip) || CoveredIn(s, j, j', ip) <==> Within(Range(low, top'), ip)
    decreases |s| - j
  {
    if j < |s| && top < 0xFFFF_FFFF && s[j].min <= top + 1 {
      ReachCovers(s, j + 1, low, if s[j].max > top then s[j].max else top, ip);
      CoveredInFirst(s, j, Reach(s, j, top).0, ip);
      hide CoveredIn;
    }
  }

  // ---- one pass -----------------------------------------------------------------------------

  /** The first entry that is not merged into entry i, and the end of the merged range. */
  function Next(s: seq<Range>, i: nat): (j: nat)
    requires i < |s|
    ensures i < j <= |s|
  {
    Reach(s, i + 1, s[i].max).0
  }

  function Merged(s: seq<Range>, i: nat): Range
    requires i < |s|
  {
    Range(s[i].min, Reach(s, i + 1, s[i].max).1)
  }

  /** The merged ranges of s[i..], in order. */
  function Kept(s: seq<Range>, i: nat): (r: seq<Range>)
    requires i <= |s|
    ensures |r| <= |s| - i
    decreases |s| - i
  {
    if i == |s| then [] else [Merged(s, i)] + Kept(s, Next(s, i))
  }

  function Blanks(n: nat): (r: seq<Range>)
    ensures |r| == n
  {
    seq(n, _ => BLANK)
  }

  /** What the pass leaves in the array: each merged range in front of the blanks it made. */
  function Passed(s: seq<Range>, i: nat): (r: seq<Range>)
    requires i <= |s|
    ensures |r| == |s| - i
    decreases |s| - i
  {
    if i == |s| then [] else [Merged(s, i)] + Blanks(Next(s, i) - i - 1) + Passed(s, Next(s, i))
  }

  lemma PassEnd(s: seq<Range>)
    ensures Passed(s, |s|) == [] && Kept(s, |s|) == []
    ensures Permuted(Passed(s, |s|), Kept(s, |s|) + Blanks(0))
  {}

  ghost predicate Permuted(s: seq<Range>, t: seq<Range>) { multiset(s) == multiset(t) }

  lemma PassStep(s: seq<Range>, i: nat)
    requires i < |s|
    ensures Passed(s, i) == [Merged(s, i)] + Blanks(Next(s, i) - i - 1) + Passed(s, Next(s, i))
    ensures Kept(s, i) == [Merged(s, i)] + Kept(s, Next(s, i))
  {
    hide Next, Merged, Blanks;
  }

  lemma {:induction false} PassedIsKeptAndBlanks(s: seq<Range>, i: nat)
    requires i <= |s|
    ensures Permuted(Passed(s, i), Kept(s, i) + Blanks(|s| - i - |Kept(s, i)|))
    decreases |s| - i
  {
    hide *;
    if i == |s| {
      PassEnd(s);
    } else {
      PassStep(s, i);
      var j := Next(s, i);
      var rest := |s| - j - |Kept(s, j)|;
      PassedIsKeptAndBlanks(s, j);
      SwapBlanks([Merged(s, i)], j - i - 1, Passed(s, j), Kept(s, j), rest);
      assert j - i - 1 + rest == |s| - i - |Kept(s, i)|;
    }
  }

  lemma SwapBlanks(first: seq<Range>, n: nat, passed: seq<Range>, kept: seq<Range>, rest: nat)
    requires Permuted(passed, kept + Blanks(rest))
    ensures Permuted(first + Blanks(n) + passed, first + kept + Blanks(n + rest))
  {
    assert Blanks(n + rest) == Blanks(n) + Blanks(rest);
  }

  /** Every kept range starts where some entry did, at or after the first one. */
  lemma {:induction false} KeptStarts(s: seq<Range>, i: nat, low: int)
    requires i <= |s| && (forall k :: i <= k < |s| ==> low <= s[k].min)
    ensures forall k :: 0 <= k < |Kept(s, i)| ==> low <= Kept(s, i)[k].min
    decreases |s| - i
  {
    if i < |s| {
      KeptStarts(s, Next(s, i), low);
    }
  }

  lemma {:induction false} KeptSeparated(s: seq<Range>, i: nat)
    requires i <= |s| && Sorted(s)
    ensures Separated(Kept(s, i))
    decreases |s| - i
  {
    if i < |s| {
      var j := Next(s, i);
      KeptSeparated(s, j);
      if j < |s| {
        KeptStarts(s, j, s[j].min);
      }
    }
  }

  lemma {:induction false} KeptCovers(s: seq<Range>, i: nat, ip: Ip)
    requires i <= |s| && Sorted(s)
    ensures Covered(Kept(s, i), ip) <==> CoveredIn(s, i, |s|, ip)
    decreases |s| - i
  {
    if i == |s| {
      PassEnd(s);
    } else {
      KeptCoversStep(s, i, ip);
      KeptCovers(s, Next(s, i), ip);
    }
  }

  lemma KeptCoversStep(s: seq<Range>, i: nat, ip: Ip)
    requires i < |s| && Sorted(s)
    ensures var j := Next(s, i);
      (Covered(Kept(s, j), ip) <==> CoveredIn(s, j, |s|, ip)) ==>
      (Covered(Kept(s, i), ip) <==> CoveredIn(s, i, |s|, ip))
  {
    hide CoveredIn, Covered, Within, Kept, Passed, Reach;
    var j := Next(s, i);
    PassStep(s, i);
    ReachCovers(s, i + 1, s[i].min, s[i].max, ip);
    CoveredCons(Merged(s, i), Kept(s, j), ip);
    CoveredInFirst(s, i, |s|, ip);
    CoveredInSplit(s, i + 1, j, |s|, ip);
  }

  lemma CoveredCons(r: Range, s: seq<Range>, ip: Ip)
    ensures Covered([r] + s, ip) <==> Within(r, ip) || Covered(s, ip)
  {
    if Within(r, ip) {
      assert ([r] + s)[0] == r;
    }
    if Covered(s, ip) {
      var i :| 0 <= i < |s| && Within(s[i], ip);
      assert ([r] + s)[i + 1] == s[i];
    }
  }

  /** Merging keeps exactly the addresses. */
  lemma KeptSameCover(s: seq<Range>)
    requires Sorted(s)
    ensures SameCover(Kept(s, 0), s)
  {
    forall ip: Ip
      ensures Covered(Kept(s, 0), ip) <==> Covered(s, ip)
    {
      KeptCovers(s, 0, ip);
    }
  }

  /** A separated list has nothing left to merge. */
  lemma {:induction false} KeptOfSeparated(s: seq<Range>, i: nat)
    requires i <= |s| && Separated(s)
    ensures Kept(s, i) == s[i..] && Passed(s, i) == s[i..]
    decreases |s| - i
  {
    hide *;
    if i == |s| {
      PassEnd(s);
    } else {
      ReachOfSeparated(s, i);
      PassStep(s, i);
      KeptOfSeparated(s, i + 1);
      assert s[i..] == [s[i]] + s[i + 1..];
    }
  }

  /** A pass that merges nothing changes nothing. */
  lemma {:induction false} NothingMerged(s: seq<Range>, i: nat)
    requires i <= |s| && |Kept(s, i)| == |s| - i
    ensures Kept(s, i) == s[i..] && Passed(s, i) == s[i..]
    decreases |s| - i
  {
    hide *;
    if i == |s| {
      PassEnd(s);
    } else {
      PassStep(s, i);
      NextIsAhead(s, i);
      NothingMerged(s, i + 1);
      assert s[i..] == [s[i]] + s[i + 1..];
    }
  }

  lemma NextIsAhead(s: seq<Range>, i: nat)
    requires i < |s|
    ensures i < Next(s, i) <= |s| && (Next(s, i) == i + 1 ==> Merged(s, i) == s[i])
  {}

  lemma ReachOfSeparated(s: seq<Range>, i: nat)
    requires i < |s| && Separated(s)
    ensures Next(s, i) == i + 1 && Merged(s, i) == s[i]
  {
    assert i + 1 < |s| ==> s[i].max + 1 < s[i + 1].min;
  }

  lemma KeptWellFormed(s: seq<Range>, i: nat)
    requires i <= |s| && WellFormed(s)
    ensures WellFormed(Kept(s, i))
    decreases |s| - i
  {
    if i < |s| {
      KeptWellFormed(s, Next(s, i));
    }
  }

  // ---- the pass in place ---------------------------------------------------------------------------

  /** The look-ahead reads only what has not been passed yet. */
  lemma {:induction false} ReachSuffix(s: seq<Range>, r: seq<Range>, j: nat, top: Ip)
    requires j <= |s| == |r| && s[j..] == r[j..]
    ensures Reach(s, j, top) == Reach(r, j, top)
    decreases |s| - j
  {
    if j < |s| && top < 0xFFFF_FFFF && s[j].min <= top + 1 {
      assert s[j] == s[j..][0] == r[j..][0] == r[j];
      assert s[j + 1..] == s[j..][1..] == r[j..][1..] == r[j + 1..];
      ReachSuffix(s, r, j + 1, if s[j].max > top then s[j].max else top);
    } else if j < |s| {
      assert s[j] == s[j..][0] == r[j..][0] == r[j];
    }
  }

  lemma NextSuffix(s: seq<Range>, r: seq<Range>, i: nat)
    requires i < |s| == |r| && s[i..] == r[i..]
    ensures Next(s, i) == Next(r, i) && Merged(s, i) == Merged(r, i) && s[i] == r[i]
  {
    assert s[i] == s[i..][0] == r[i..][0] == r[i];
    assert s[i + 1..] == s[i..][1..] == r[i..][1..] == r[i + 1..];
    ReachSuffix(s, r, i + 1, s[i].max);
  }

  /** The array r has been passed up to entry i. */
  ghost predicate PassedUpTo(s: seq<Range>, r: seq<Range>, i: nat) {
    i <= |s| == |r| && r[i..] == s[i..] && r[..i] + Passed(s, i) == Passed(s, 0)
  }

  lemma PassStart(s: seq<Range>)
    ensures PassedUpTo(s, s, 0)
  {
    hide Passed;
    assert s[..0] + Passed(s, 0) == Passed(s, 0);
  }

  lemma PassDone(s: seq<Range>, r: seq<Range>)
    requires PassedUpTo(s, r, |s|)
    ensures r == Passed(s, 0) && Kept(s, |s|) == []
  {
    PassEnd(s);
    hide Passed;
    assert r[..|s|] == r;
  }

  lemma PassAdvance(s: seq<Range>, r: seq<Range>, r': seq<Range>, i: nat)
    requires i < |s| && PassedUpTo(s, r, i)
    requires var j := Next(s, i); r' == r[..i] + [Merged(s, i)] + Blanks(j - i - 1) + r[j..]
    ensures PassedUpTo(s, r', Next(s, i))
  {
    hide Passed, Merged, Next, Blanks;
    PassStep(s, i);
    var j := Next(s, i);
    assert r'[j..] == r[j..] == r[i..][j - i..] == s[i..][j - i..] == s[j..];
    assert r'[..j] == r[..i] + [Merged(s, i)] + Blanks(j - i - 1);
    assert r[..i] + ([Merged(s, i)] + Blanks(j - i - 1) + Passed(s, j)) == r'[..j] + Passed(s, j);
  }

  lemma TallyNext(s: seq<Range>, i: nat, numips: Ip)
    requires i < |s|
    ensures Tally(s, i, numips) == Tally(s, Next(s, i), Tick(numips, if Next(s, i) > i + 1 then BLANK else s[i]))
  {}

  // ---- sorted lists -------------------------------------------------------------------------------

  /** A sorted list in which equal starts mean equal entries is determined by its elements. */
  lemma {:induction false} SortedUnique(s: seq<Range>, t: seq<Range>)
    requires Sorted(s) && Sorted(t) && Permuted(s, t)
    requires DistinctStarts(s)
    ensures s == t
  {
    hide DistinctStarts, Sorted;
    if s == [] {
      assert |multiset(t)| == 0;
    } else {
      assert |multiset(s)| == |multiset(t)|;
      FirstsAgree(s, t);
      TailElements(s);
      TailElements(t);
      TailSorted(s);
      TailSorted(t);
      SortedUnique(s[1..], t[1..]);
      assert s == [s[0]] + s[1..];
    }
  }

  lemma TailSorted(s: seq<Range>)
    requires s != [] && Sorted(s)
    ensures Sorted(s[1..]) && (DistinctStarts(s) ==> DistinctStarts(s[1..]))
  {}

  lemma TailElements(s: seq<Range>)
    requires s != []
    ensures multiset(s[1..]) == multiset(s) - multiset{s[0]}
  {
    assert s == [s[0]] + s[1..];
  }

  ghost predicate DistinctStarts(s: seq<Range>) {
    forall i, j :: 0 <= i < |s| && 0 <= j < |s| && s[i].min == s[j].min ==> s[i] == s[j]
  }

  lemma FirstsAgree(s: seq<Range>, t: seq<Range>)
    requires Sorted(s) && Sorted(t) && Permuted(s, t) && DistinctStarts(s)
    requires s != [] && t != []
    ensures s[0] == t[0]
  {
    assert s[0] in multiset(t) && t[0] in multiset(s);
    var i :| 0 <= i < |t| && t[i] == s[0];
    var j :| 0 <= j < |s| && s[j] == t[0];
  }

  lemma PermutedSelf(s: seq<Range>)
    ensures Permuted(s, s)
  {}

  lemma {:induction false} KeptStrict(s: seq<Range>, i: nat)
    requires i <= |s| && Sorted(s) && WellFormed(s)
    ensures forall a, b :: 0 <= a < b < |Kept(s, i)| ==> Kept(s, i)[a].min < Kept(s, i)[b].min
    decreases |s| - i
  {
    if i < |s| {
      var j := Next(s, i);
      KeptStrict(s, j);
      if j < |s| {
        KeptStarts(s, j, s[j].min);
      }
    }
  }

  // ---- counting addresses --------------------------------------------------------------------------

  ghost function Addresses(s: seq<Range>): set<Ip> { set ip: Ip | Covered(s, ip) }

  ghost function Interval(r: Range): set<Ip> { set ip: Ip | Within(r, ip) }

  lemma {:induction false} IntervalSize(r: Range)
    requires r.min <= r.max
    ensures |Interval(r)| == r.max - r.min + 1
    decreases r.max - r.min
  {
    if r.min < r.max {
      var shorter := Range(r.min, r.max - 1);
      IntervalSize(shorter);
      assert Interval(r) == Interval(shorter) + {r.max};
    } else {
      assert Interval(r) == {r.max};
    }
  }

  function Total(s: seq<Range>): int {
    if s == [] then 0 else Total(s[..|s| - 1]) + (s[|s| - 1].max - s[|s| - 1].min + 1)
  }

  /** Separated ranges count every address once. */
  lemma {:induction false} TotalIsAddresses(s: seq<Range>)
    requires Separated(s) && WellFormed(s)
    ensures Total(s) == |Addresses(s)|
  {
    hide Addresses, Interval, Separated;
    if s == [] {
      NoAddresses();
    } else {
      var init, last := s[..|s| - 1], s[|s| - 1];
      InitSeparated(s);
      TotalIsAddresses(init);
      IntervalSize(last);
      AddressesSnoc(init, last);
      LastIsApart(s);
      assert s == init + [last];
    }
  }

  lemma NoAddresses()
    ensures Addresses([]) == {}
  {}

  lemma InitSeparated(s: seq<Range>)
    requires s != [] && Separated(s)
    ensures Separated(s[..|s| - 1])
  {}

  lemma LastIsApart(s: seq<Range>)
    requires s != [] && Separated(s)
    ensures Addresses(s[..|s| - 1]) !! Interval(s[|s| - 1])
  {}

  lemma AddressesSnoc(s: seq<Range>, r: Range)
    ensures Addresses(s + [r]) == Addresses(s) + Interval(r)
  {
    forall ip: Ip
      ensures Covered(s + [r], ip) <==> Covered(s, ip) || Within(r, ip)
    {
      if Covered(s, ip) {
        var i :| 0 <= i < |s| && Within(s[i], ip);
        assert (s + [r])[i] == s[i];
      }
      if Within(r, ip) {
        assert (s + [r])[|s|] == r;
      }
    }
  }

  /** Apart from a single range, separated ranges cannot cover all 2^32 addresses. */
  lemma {:induction false} TotalBound(s: seq<Range>)
    requires Separated(s) && WellFormed(s) && s != []
    ensures |s| <= Total(s) <= s[|s| - 1].max + 1 && (|s| > 1 ==> Total(s) <= s[|s| - 1].max)
  {
    if |s| > 1 {
      TotalBound(s[..|s| - 1]);
      assert s[|s| - 2].max + 1 < s[|s| - 1].min;
    }
  }

  /** One step of the counter `numips`: a 32-bit sum, then an increment that stops at 2^32 - 1. */
  function Tick(numips: Ip, r: Range): Ip {
    var sum := (numips + r.max - r.min) % 0x1_0000_0000;
    if sum < 0xFFFF_FFFF then sum + 1 else sum
  }

  /** The counter after a pass: entries swallowed by another are counted as the blank in their place. */
  function Tally(s: seq<Range>, i: nat, numips: Ip): Ip
    requires i <= |s|
    decreases |s| - i
  {
    if i == |s| then numips
    else Tally(s, Next(s, i), Tick(numips, if Next(s, i) > i + 1 then BLANK else s[i]))
  }

  function Min(x: int, y: int): int { if x < y then x else y }

  /** With nothing to merge, the counter never wraps and stops at 2^32 - 1. */
  lemma {:induction false} TallyOfSeparated(s: seq<Range>, i: nat)
    requires i <= |s| && Separated(s) && WellFormed(s)
    ensures 0 <= Total(s[..i]) <= 0x1_0000_0000
    ensures Tally(s, i, Min(Total(s[..i]), 0xFFFF_FFFF)) == Min(Total(s), 0xFFFF_FFFF)
    decreases |s| - i
  {
    hide Tally, Total, Separated;
    TotalPrefix(s, i);
    if i == |s| {
      TallyEnd(s, Min(Total(s[..i]), 0xFFFF_FFFF));
      assert s[..i] == s;
    } else {
      TallyOfSeparated(s, i + 1);
      TallyStep(s, i);
    }
  }

  lemma TallyStep(s: seq<Range>, i: nat)
    requires i < |s| && Separated(s) && WellFormed(s)
    requires 0 <= Total(s[..i]) && 0 <= Total(s[..i + 1])
    ensures Tally(s, i, Min(Total(s[..i]), 0xFFFF_FFFF)) == Tally(s, i + 1, Min(Total(s[..i + 1]), 0xFFFF_FFFF))
  {
    hide Tally, Total, Tick, Separated;
    TotalStep(s, i);
    TotalPrefix(s, i);
    TotalPrefix(s, i + 1);
    TallyUnfold(s, i, Min(Total(s[..i]), 0xFFFF_FFFF));
    TickAdds(Total(s[..i]), s[i]);
  }

  lemma TallyEnd(s: seq<Range>, numips: Ip)
    ensures Tally(s, |s|, numips) == numips
  {}

  lemma TallyUnfold(s: seq<Range>, i: nat, numips: Ip)
    requires i < |s| && Separated(s)
    ensures Tally(s, i, numips) == Tally(s, i + 1, Tick(numips, s[i]))
  {
    hide Tick, Next;
    ReachOfSeparated(s, i);
  }

  lemma TotalStep(s: seq<Range>, i: nat)
    requires i < |s|
    ensures Total(s[..i + 1]) == Total(s[..i]) + (s[i].max - s[i].min + 1)
  {
    assert s[..i + 1][..i] == s[..i];
  }

  lemma TotalPrefix(s: seq<Range>, i: nat)
    requires i <= |s| && Separated(s) && WellFormed(s)
    ensures 0 <= Total(s[..i]) <= 0x1_0000_0000 && (i == 0 ==> Total(s[..i]) == 0)
    ensures i > 0 ==> Total(s[..i]) <= s[i - 1].max + 1 && (i > 1 ==> Total(s[..i]) <= s[i - 1].max)
  {
    if i > 0 {
      TotalBound(s[..i]);
    }
  }

  lemma TickAdds(total: nat, r: Range)
    requires r.min <= r.max && (total == 0 || total + (r.max - r.min + 1) <= 0xFFFF_FFFF)
    ensures Tick(Min(total, 0xFFFF_FFFF), r) == Min(total + (r.max - r.min + 1), 0xFFFF_FFFF)
  {}
}
