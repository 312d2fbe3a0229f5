/**
 What blocklist_merge of src/pgld/blocklist.c may make of a list, over every order in which qsort may
 leave entries with equal starts, and when the merged list blocks exactly the addresses of the list.
 Ranges need not be well formed: the loader does not check them.
 */
module Merging {
  import opened Ranges

  /** An entry that covers nothing and yet sorts among the blanks. */
  predicate TopReversed(r: Range) { r.min == 0xFFFF_FFFF && r.max < 0xFFFF_FFFF }

  ghost predicate NoTopReversed(s: seq<Range>) { forall i :: 0 <= i < |s| ==> !TopReversed(s[i]) }

  /** t is an order in which the sort after a merging pass may leave the array. */
  ghost predicate Resorted(s: seq<Range>, t: seq<Range>) { Sorted(t) && Permuted(t, Passed(s, 0)) && |t| == |s| }

  /** The list that is left when the entries merged away are cut off. */
  ghost function Cut(s: seq<Range>, t: seq<Range>): seq<Range>
    requires |t| == |s|
  {
    t[..|Kept(s, 0)|]
  }

  /** r is a possible result of blocklist_merge on the sorted list s. */
  ghost predicate MergesTo(s: seq<Range>, r: seq<Range>)
    decreases |s|
  {
    if |Kept(s, 0)| == |s| then r == s
    else exists t :: Resorted(s, t) && MergesTo(Cut(s, t), r)
  }

  /** r covers all that s does, and nothing more except possibly 255.255.255.255. */
  ghost predicate Grown(s: seq<Range>, r: seq<Range>) {
    forall ip: Ip :: (Covered(s, ip) ==> Covered(r, ip)) && (Covered(r, ip) && ip < 0xFFFF_FFFF ==> Covered(s, ip))
  }

  /** When merging a sorted list keeps its addresses. */
  ghost predicate MergeSafe(s: seq<Range>) {
    Separated(s) || NoTopReversed(s) || Covered(s, 0xFFFF_FFFF) || Covered(s, 0xFFFF_FFFE)
  }

  // ---- what is kept ----------------------------------------------------------------------------

  lemma {:induction false} KeptSorted(s: seq<Range>, i: nat)
    requires i <= |s| && Sorted(s)
    ensures Sorted(Kept(s, i))
    decreases |s| - i
  {
    if i < |s| {
      var j := Next(s, i);
      KeptSorted(s, j);
      if j < |s| {
        KeptStarts(s, j, s[i].min);
      }
    }
  }

  lemma SeparatedIffShort(s: seq<Range>)
    requires Sorted(s)
    ensures |Kept(s, 0)| == |s| <==> Separated(s)
  {
    hide *;
    KeptSeparated(s, 0);
    if |Kept(s, 0)| == |s| {
      NothingMerged(s, 0);
      assert s[0..] == s;
    }
    if Separated(s) {
      KeptOfSeparated(s, 0);
    }
  }

  /** A kept range starts where an entry does and ends no earlier. */
  lemma {:induction false} KeptFrom(s: seq<Range>, i: nat, k: nat)
    requires i <= |s| && k < |Kept(s, i)|
    ensures exists p :: 0 <= p < |s| && s[p].min == Kept(s, i)[k].min && s[p].max <= Kept(s, i)[k].max
    decreases |s| - i
  {
    hide Reach;
    if k == 0 {
      assert s[i].min == Merged(s, i).min;
    } else {
      KeptFrom(s, Next(s, i), k - 1);
    }
  }

  /** No kept range starts at the top. */
  ghost predicate AllLow(s: seq<Range>) { forall k :: 0 <= k < |s| ==> s[k].min < 0xFFFF_FFFF }

  lemma SafeKeptIsLow(s: seq<Range>)
    requires Sorted(s) && !Covered(s, 0xFFFF_FFFF) && (NoTopReversed(s) || Covered(s, 0xFFFF_FFFE))
    ensures AllLow(Kept(s, 0))
  {
    hide Kept, Sorted;
    var kept := Kept(s, 0);
    forall k | 0 <= k < |kept|
      ensures kept[k].min < 0xFFFF_FFFF
    {
      if kept[k].min == 0xFFFF_FFFF {
        KeptFrom(s, 0, k);
        var p :| 0 <= p < |s| && s[p].min == kept[k].min && s[p].max <= kept[k].max;
        if !NoTopReversed(s) {
          CoveredBelowTop(s, k);
        }
      }
    }
  }

  /** A kept range that reaches 255.255.255.254 leaves none that starts at the top. */
  lemma CoveredBelowTop(s: seq<Range>, k: nat)
    requires Sorted(s) && Covered(s, 0xFFFF_FFFE) && k < |Kept(s, 0)|
    ensures Kept(s, 0)[k].min < 0xFFFF_FFFF
  {
    hide Kept;
    var kept := Kept(s, 0);
    KeptSameCover(s);
    KeptSeparated(s, 0);
    KeptSorted(s, 0);
    assert Covered(kept, 0xFFFF_FFFE);
    var a :| 0 <= a < |kept| && Within(kept[a], 0xFFFF_FFFE);
    assert k <= a ==> kept[k].min <= kept[a].min;
  }

  // ---- sorting blanks among the kept ranges ---------------------------------------------------------

  lemma CountBlanks(b: nat, r: Range)
    ensures multiset(Blanks(b))[r] == if r == BLANK then b else 0
  {
    if b > 0 {
      CountBlanks(b - 1, r);
      assert Blanks(b) == Blanks(b - 1) + [BLANK];
    }
  }

  lemma PartSmaller(a: multiset<Range>, b: multiset<Range>)
    requires forall r :: a[r] <= b[r]
    ensures |a| <= |b|
  {
    assert b == a + (b - a);
  }

  lemma PrefixPart(t: seq<Range>, k: nat, r: Range)
    requires k <= |t|
    ensures multiset(t[..k])[r] + multiset(t[k..])[r] == multiset(t)[r]
  {
    assert t == t[..k] + t[k..];
  }

  /** A range below the top sorts in front of the cut. */
  lemma LowBeforeCut(kept: seq<Range>, b: nat, t: seq<Range>, k: nat)
    requires Sorted(t) && Permuted(t, kept + Blanks(b)) && k < |t| && t[k].min < 0xFFFF_FFFF
    ensures k < |kept|
  {
    hide Blanks;
    var a := t[..k + 1];
    forall r
      ensures multiset(a)[r] <= multiset(kept)[r]
    {
      PrefixPart(t, k + 1, r);
      CountBlanks(b, r);
    }
    PartSmaller(multiset(a), multiset(kept));
  }

  /** A genuine 255.255.255.255 among the kept ranges leaves one in front of the cut. */
  lemma TopBeforeCut(kept: seq<Range>, b: nat, t: seq<Range>)
    requires Permuted(t, kept + Blanks(b)) && BLANK in kept
    ensures |t| == |kept| + b && BLANK in t[..|kept|]
  {
    hide Blanks;
    SameLength(t, kept + Blanks(b));
    PrefixPart(t, |kept|, BLANK);
    CountBlanks(b, BLANK);
    CountAtMost(t[|kept|..], BLANK);
    assert multiset(kept)[BLANK] >= 1;
    assert multiset(t)[BLANK] == multiset(kept)[BLANK] + b;
    assert BLANK in multiset(t[..|kept|]);
  }

  lemma SameLength(s: seq<Range>, t: seq<Range>)
    requires Permuted(s, t)
    ensures |s| == |t|
  {
    assert |multiset(s)| == |multiset(t)|;
  }

  lemma CountAtMost(s: seq<Range>, r: Range)
    ensures multiset(s)[r] <= |s|
  {
    if s != [] {
      CountAtMost(s[..|s| - 1], r);
      assert s == s[..|s| - 1] + [s[|s| - 1]];
    }
  }

  /** If nothing kept starts at the top, nothing in front of the cut does. */
  lemma AllLowBeforeCut(kept: seq<Range>, b: nat, t: seq<Range>)
    requires Sorted(t) && Permuted(t, kept + Blanks(b)) && AllLow(kept)
    ensures |kept| <= |t| && AllLow(t[..|kept|])
  {
    hide Blanks;
    SameLength(t, kept + Blanks(b));
    forall k | 0 <= k < |kept|
      ensures t[k].min < 0xFFFF_FFFF
    {
      if t[k].min == 0xFFFF_FFFF {
        TooManyBlanks(kept, b, t, k);
      }
    }
  }

  lemma TooManyBlanks(kept: seq<Range>, b: nat, t: seq<Range>, k: nat)
    requires Sorted(t) && Permuted(t, kept + Blanks(b)) && AllLow(kept) && |t| == |kept| + b && k < |kept|
    ensures t[k].min < 0xFFFF_FFFF
  {
    hide Blanks;
    if t[k].min == 0xFFFF_FFFF {
      var a := t[k..];
      forall r
        ensures multiset(a)[r] <= multiset(Blanks(b))[r]
      {
        PrefixPart(t, k, r);
        CountBlanks(b, r);
        if r in multiset(a) {
          var i :| 0 <= i < |a| && a[i] == r;
          assert t[k].min <= t[k + i].min == r.min;
          assert r !in kept;
        }
      }
      PartSmaller(multiset(a), multiset(Blanks(b)));
      assert false;
    }
  }

  // ---- one pass, sort and cut -----------------------------------------------------------------------

  lemma ResortedIs(s: seq<Range>, t: seq<Range>)
    requires Resorted(s, t)
    ensures Sorted(t) && Permuted(t, Kept(s, 0) + Blanks(|s| - |Kept(s, 0)|))
  {
    hide Sorted, Passed, Kept, Blanks;
    PassedIsKeptAndBlanks(s, 0);
  }

  lemma SortedPrefix(t: seq<Range>, n: nat)
    requires Sorted(t) && n <= |t|
    ensures Sorted(t[..n])
  {}

  lemma PermutedHas(s: seq<Range>, t: seq<Range>, r: Range)
    requires Permuted(s, t)
    ensures r in s <==> r in t
  {
    assert r in multiset(s) <==> r in multiset(t);
  }

  lemma CoveredBy(s: seq<Range>, r: Range, ip: Ip)
    requires r in s && Within(r, ip)
    ensures Covered(s, ip)
  {}

  /** The cut loses no address. */
  lemma CutCovers(s: seq<Range>, t: seq<Range>, ip: Ip)
    requires Sorted(s) && Resorted(s, t) && Covered(s, ip)
    ensures Covered(Cut(s, t), ip)
  {
    hide Sorted, Kept, Permuted, Passed;
    var kept := Kept(s, 0);
    var b := |s| - |kept|;
    ResortedIs(s, t);
    KeptSameCover(s);
    var a :| 0 <= a < |kept| && Within(kept[a], ip);
    if kept[a].min < 0xFFFF_FFFF {
      PermutedHas(t, kept + Blanks(b), kept[a]);
      assert (kept + Blanks(b))[a] == kept[a];
      var k :| 0 <= k < |t| && t[k] == kept[a];
      LowBeforeCut(kept, b, t, k);
      assert Cut(s, t)[k] == kept[a];
    } else {
      assert kept[a] == BLANK;
      TopBeforeCut(kept, b, t);
      CoveredBy(Cut(s, t), BLANK, ip);
    }
  }

  /** Below the top it gains none. */
  lemma CutGains(s: seq<Range>, t: seq<Range>, ip: Ip)
    requires Sorted(s) && Resorted(s, t) && Covered(Cut(s, t), ip)
    requires ip < 0xFFFF_FFFF || AllLow(Cut(s, t))
    ensures Covered(s, ip)
  {
    hide Sorted, Kept, Permuted, Passed;
    var kept := Kept(s, 0);
    var b := |s| - |kept|;
    ResortedIs(s, t);
    KeptSameCover(s);
    var k :| 0 <= k < |Cut(s, t)| && Within(Cut(s, t)[k], ip);
    var r := t[k];
    assert r == Cut(s, t)[k] && r != BLANK;
    PermutedHas(t, kept + Blanks(b), r);
    assert r in kept;
    CoveredBy(kept, r, ip);
  }

  lemma CutGrows(s: seq<Range>, t: seq<Range>)
    requires Sorted(s) && Resorted(s, t)
    ensures Sorted(Cut(s, t)) && Grown(s, Cut(s, t))
    ensures MergeSafe(s) && !Separated(s) ==> SameCover(Cut(s, t), s)
  {
    hide Sorted, Kept, Covered, AllLow, Cut, Separated, NoTopReversed, Permuted, Passed;
    CutSorted(s, t);
    forall ip: Ip
      ensures Covered(s, ip) ==> Covered(Cut(s, t), ip)
      ensures Covered(Cut(s, t), ip) && ip < 0xFFFF_FFFF ==> Covered(s, ip)
    {
      if Covered(s, ip) {
        CutCovers(s, t, ip);
      }
      if Covered(Cut(s, t), ip) && ip < 0xFFFF_FFFF {
        CutGains(s, t, ip);
      }
    }
    if MergeSafe(s) && !Separated(s) && !Covered(s, 0xFFFF_FFFF) && Covered(Cut(s, t), 0xFFFF_FFFF) {
      SafeKeptIsLow(s);
      CutLow(s, t);
      CutGains(s, t, 0xFFFF_FFFF);
    }
  }

  lemma CutSorted(s: seq<Range>, t: seq<Range>)
    requires Resorted(s, t)
    ensures Sorted(Cut(s, t))
  {
    hide Sorted, Kept, Permuted, Passed;
    SortedPrefix(t, |Kept(s, 0)|);
  }

  lemma CutLow(s: seq<Range>, t: seq<Range>)
    requires Resorted(s, t) && AllLow(Kept(s, 0))
    ensures AllLow(Cut(s, t))
  {
    hide Sorted, Kept, AllLow, Permuted, Passed;
    ResortedIs(s, t);
    AllLowBeforeCut(Kept(s, 0), |s| - |Kept(s, 0)|, t);
  }

  /** What is cut off brings no new entry that could be confused with a blank. */
  lemma CutNoTopReversed(s: seq<Range>, t: seq<Range>)
    requires Resorted(s, t) && NoTopReversed(s)
    ensures NoTopReversed(Cut(s, t))
  {
    hide Sorted, Kept, Permuted, Passed;
    var kept := Kept(s, 0);
    var b := |s| - |kept|;
    ResortedIs(s, t);
    forall k | 0 <= k < |kept|
      ensures !TopReversed(t[k])
    {
      PermutedHas(t, kept + Blanks(b), t[k]);
      if t[k] in kept {
        var a :| 0 <= a < |kept| && kept[a] == t[k];
        KeptFrom(s, 0, a);
      }
    }
  }

  /** Then the cut takes off exactly the blanks: what is left is what the pass kept. */
  lemma CutIsKept(s: seq<Range>, t: seq<Range>)
    requires Sorted(s) && Resorted(s, t) && NoTopReversed(s)
    ensures Permuted(Cut(s, t), Kept(s, 0)) && (WellFormed(s) ==> Cut(s, t) == Kept(s, 0))
  {
    hide Sorted, Kept, Permuted, Passed, NoTopReversed, WellFormed;
    var kept := Kept(s, 0);
    ResortedIs(s, t);
    forall k | |kept| <= k < |t|
      ensures t[k] == BLANK
    {
      BlankAfterCut(s, t, k);
    }
    TailIsBlank(kept, |s| - |kept|, t);
    if WellFormed(s) {
      KeptStrict(s, 0);
      KeptSorted(s, 0);
      CutSorted(s, t);
      StrictIsDistinct(kept);
      PermutedSelf(kept);
      PermutedAlike(kept, Cut(s, t), kept);
      SortedUnique(kept, Cut(s, t));
    }
  }

  lemma BlankAfterCut(s: seq<Range>, t: seq<Range>, k: nat)
    requires Sorted(s) && Resorted(s, t) && NoTopReversed(s) && |Kept(s, 0)| <= k < |t|
    ensures t[k] == BLANK
  {
    hide Sorted, Kept, Permuted, Passed;
    var kept := Kept(s, 0);
    var b := |s| - |kept|;
    ResortedIs(s, t);
    PermutedHas(t, kept + Blanks(b), t[k]);
    if t[k].min < 0xFFFF_FFFF {
      LowBeforeCut(kept, b, t, k);
    } else if t[k] in kept {
      var a :| 0 <= a < |kept| && kept[a] == t[k];
      KeptFrom(s, 0, a);
    }
  }

  lemma TailIsBlank(kept: seq<Range>, b: nat, t: seq<Range>)
    requires Permuted(t, kept + Blanks(b)) && |t| == |kept| + b && forall k :: |kept| <= k < |t| ==> t[k] == BLANK
    ensures Permuted(t[..|kept|], kept)
  {
    assert t[|kept|..] == Blanks(b);
    assert t == t[..|kept|] + t[|kept|..];
    assert multiset(t[..|kept|]) == multiset(t) - multiset(Blanks(b)) == multiset(kept);
  }

  lemma StrictIsDistinct(s: seq<Range>)
    requires forall a, b :: 0 <= a < b < |s| ==> s[a].min < s[b].min
    ensures DistinctStarts(s) && Sorted(s)
  {}

  lemma CutSafe(s: seq<Range>, t: seq<Range>)
    requires Sorted(s) && Resorted(s, t) && MergeSafe(s) && !Separated(s)
    ensures MergeSafe(Cut(s, t)) && SameCover(Cut(s, t), s)
  {
    hide Sorted, Kept, Covered, Cut, Separated, NoTopReversed, Permuted, Passed;
    CutGrows(s, t);
    if NoTopReversed(s) {
      CutNoTopReversed(s, t);
    }
  }

  // ---- whole merges ------------------------------------------------------------------------------------

  lemma MergesToIs(s: seq<Range>, r: seq<Range>)
    requires Sorted(s)
    ensures MergesTo(s, r) <==> if Separated(s) then r == s else exists t :: Resorted(s, t) && MergesTo(Cut(s, t), r)
  {
    hide Sorted, Kept, Cut, Separated, Permuted, Passed;
    SeparatedIffShort(s);
  }

  lemma CutShorter(s: seq<Range>, t: seq<Range>)
    requires Sorted(s) && Resorted(s, t) && !Separated(s)
    ensures |Cut(s, t)| < |s|
  {
    hide Sorted, Kept, Separated, Permuted, Passed;
    SeparatedIffShort(s);
  }

  lemma GrownChain(s: seq<Range>, t: seq<Range>, r: seq<Range>)
    requires Grown(s, t) && Grown(t, r)
    ensures Grown(s, r)
  {
    hide Covered;
  }

  /**
   Whatever the sorts do: the merged list is sorted, disjoint and not adjacent, loses no address and
   gains none except possibly the top one; and not that one either if the list is safe.
   */
  lemma {:induction false} MergesGrow(s: seq<Range>, r: seq<Range>)
    requires Sorted(s) && MergesTo(s, r)
    ensures Sorted(r) && Separated(r) && Grown(s, r) && (MergeSafe(s) ==> SameCover(r, s))
    decreases |s|
  {
    hide Sorted, Cut, Separated, Covered, MergeSafe, MergesTo, Permuted, Passed;
    MergesToIs(s, r);
    if !Separated(s) {
      var t :| Resorted(s, t) && MergesTo(Cut(s, t), r);
      CutShorter(s, t);
      CutGrows(s, t);
      MergesGrow(Cut(s, t), r);
      GrownChain(s, Cut(s, t), r);
      if MergeSafe(s) {
        CutSafe(s, t);
      }
    }
  }

  /** One order of the sort puts the blanks last, and then the result is what one pass keeps. */
  lemma MergesToKept(s: seq<Range>)
    requires Sorted(s)
    ensures MergesTo(s, Kept(s, 0))
  {
    hide Sorted, Kept, Separated, MergesTo, Blanks, Permuted, Passed;
    var kept := Kept(s, 0);
    MergesToIs(s, kept);
    SeparatedIffShort(s);
    if Separated(s) {
      NothingMerged(s, 0);
      assert s[0..] == s;
    } else {
      var t := kept + Blanks(|s| - |kept|);
      KeptThenBlanks(s);
      assert Cut(s, t) == kept;
      KeptSorted(s, 0);
      KeptSeparated(s, 0);
      MergesToIs(kept, kept);
    }
  }

  lemma KeptThenBlanks(s: seq<Range>)
    requires Sorted(s)
    ensures Resorted(s, Kept(s, 0) + Blanks(|s| - |Kept(s, 0)|))
  {
    hide Kept, Passed;
    KeptSorted(s, 0);
    PassedIsKeptAndBlanks(s, 0);
  }

  // ---- an unsafe list has a sort that blocks the top address ------------------------------------------------

  lemma {:induction false} ReachTouches(s: seq<Range>, j: nat, top: Ip, k: nat)
    requires j <= |s| && j <= k < Reach(s, j, top).0
    ensures s[k].min <= Reach(s, j, top).1 + 1
    decreases |s| - j
  {
    if top < 0xFFFF_FFFF && k > j {
      ReachTouches(s, j + 1, if s[j].max > top then s[j].max else top, k);
    }
  }

  /** An entry that starts at the top is swallowed only by a range that reaches 255.255.255.254. */
  lemma {:induction false} TopIsKept(s: seq<Range>, i: nat, k: nat)
    requires i <= k < |s| && Sorted(s) && s[k].min == 0xFFFF_FFFF && !Covered(Kept(s, i), 0xFFFF_FFFE)
    ensures !AllLow(Kept(s, i))
    decreases |s| - i
  {
    hide Reach, Kept, Sorted;
    PassStep(s, i);
    var j, m := Next(s, i), Merged(s, i);
    var rest := Kept(s, j);
    assert Kept(s, i) == [m] + rest;
    CoveredCons(m, rest, 0xFFFF_FFFE);
    if k >= j {
      TopIsKept(s, j, k);
      var a :| 0 <= a < |rest| && rest[a].min >= 0xFFFF_FFFF;
      assert Kept(s, i)[a + 1] == rest[a];
    } else {
      if k > i {
        ReachTouches(s, i + 1, s[i].max, k);
      }
      assert Kept(s, i)[0].min == s[i].min;
    }
  }

  /** Blanks before the entries that start at the top: the cut keeps a blank. */
  lemma BlanksFirst(s: seq<Range>) returns (t: seq<Range>)
    requires Sorted(s) && !AllLow(Kept(s, 0)) && |Kept(s, 0)| < |s|
    ensures Resorted(s, t) && BLANK in Cut(s, t)
  {
    hide Kept, Passed, Sorted, Permuted, AllLow;
    var kept := Kept(s, 0);
    KeptSorted(s, 0);
    PassedIsKeptAndBlanks(s, 0);
    var p := FirstTop(kept);
    t := BlanksAt(kept, p, |s| - |kept|);
    PermutedAlike(t, Passed(s, 0), kept + Blanks(|s| - |kept|));
    assert Cut(s, t)[p] == BLANK;
  }

  lemma PermutedAlike(s: seq<Range>, t: seq<Range>, u: seq<Range>)
    requires Permuted(s, u) && Permuted(t, u)
    ensures Permuted(s, t)
  {}

  lemma FirstTop(kept: seq<Range>) returns (p: nat)
    requires !AllLow(kept)
    ensures p < |kept| && kept[p].min == 0xFFFF_FFFF
  {
    p :| 0 <= p < |kept| && kept[p].min >= 0xFFFF_FFFF;
  }

  lemma BlanksAt(kept: seq<Range>, p: nat, b: nat) returns (t: seq<Range>)
    requires Sorted(kept) && p < |kept| && kept[p].min == 0xFFFF_FFFF && b > 0
    ensures Sorted(t) && Permuted(t, kept + Blanks(b)) && |t| == |kept| + b && t[p] == BLANK
  {
    t := kept[..p] + Blanks(b) + kept[p..];
    BlanksAtSorted(kept, p, b);
    assert kept == kept[..p] + kept[p..];
  }

  lemma BlanksAtSorted(kept: seq<Range>, p: nat, b: nat)
    requires Sorted(kept) && p < |kept| && kept[p].min == 0xFFFF_FFFF
    ensures Sorted(kept[..p] + Blanks(b) + kept[p..])
  {}

  lemma UnsafeSort(s: seq<Range>) returns (t: seq<Range>)
    requires Sorted(s) && !MergeSafe(s)
    ensures Resorted(s, t) && Covered(Cut(s, t), 0xFFFF_FFFF) && !Covered(s, 0xFFFF_FFFF) && !Separated(s)
  {
    hide Kept, Sorted, Separated, Covered, AllLow, Cut, Permuted, Passed;
    SeparatedIffShort(s);
    var k :| 0 <= k < |s| && TopReversed(s[k]);
    KeptSameCover(s);
    TopIsKept(s, 0, k);
    t := BlanksFirst(s);
    CoveredBy(Cut(s, t), BLANK, 0xFFFF_FFFF);
  }

  /** Every result of merging s covers exactly what s does. */
  ghost predicate AlwaysKeeps(s: seq<Range>) { forall r :: MergesTo(s, r) ==> SameCover(r, s) }

  /** Merging keeps the addresses under every sort if and only if the list is safe. */
  lemma MergeKeepsIff(s: seq<Range>)
    requires Sorted(s)
    ensures AlwaysKeeps(s) <==> MergeSafe(s)
  {
    hide Kept, Sorted, Separated, Covered, MergeSafe, Cut, MergesTo, Permuted, Passed;
    if MergeSafe(s) {
      forall r | MergesTo(s, r)
        ensures SameCover(r, s)
      {
        MergesGrow(s, r);
      }
    } else {
      var t := UnsafeSort(s);
      var u := Cut(s, t);
      CutGrows(s, t);
      MergesToKept(u);
      MergesToIs(s, Kept(u, 0));
      MergesGrow(u, Kept(u, 0));
    }
  }

  /** Such a list: the sort after the pass leaves a blank before the last entry, and the cut keeps it. */
  lemma UnsafeExample()
    ensures var s := [Range(0, 5), Range(3, 4), Range(0xFFFF_FFFF, 0)];
      var t := [Range(0, 5), BLANK, Range(0xFFFF_FFFF, 0)];
      && Sorted(s) && Resorted(s, t) && !MergeSafe(s)
      && !Covered(s, 0xFFFF_FFFF) && Covered(Cut(s, t), 0xFFFF_FFFF)
  {
    hide Passed, Kept, Permuted;
    PassOfExample();
    PermutedSelf([Range(0, 5), BLANK, Range(0xFFFF_FFFF, 0)]);
    var s := [Range(0, 5), Range(3, 4), Range(0xFFFF_FFFF, 0)];
    assert TopReversed(s[2]) && s[0].max + 1 >= s[1].min;
    assert [Range(0, 5), BLANK, Range(0xFFFF_FFFF, 0)][..2][1] == BLANK;
    assert Within(BLANK, 0xFFFF_FFFF);
  }

  lemma PassOfExample()
    ensures var s := [Range(0, 5), Range(3, 4), Range(0xFFFF_FFFF, 0)];
      Passed(s, 0) == [Range(0, 5), BLANK, Range(0xFFFF_FFFF, 0)] && |Kept(s, 0)| == 2
  {
    hide Passed, Kept;
    var s := [Range(0, 5), Range(3, 4), Range(0xFFFF_FFFF, 0)];
    assert Reach(s, 1, 5) == (2, 5);
    PassEnd(s);
    PassStep(s, 2);
    PassStep(s, 0);
  }

  // ---- sorting and merging an unsorted list -----------------------------------------------------------------

  /** r is a possible result of sorting and merging c. */
  ghost predicate SortMergesTo(c: seq<Range>, r: seq<Range>) {
    exists s :: Sorted(s) && Permuted(s, c) && MergesTo(s, r)
  }

  /** No entry reaches another that may come after it in a sorted order. */
  ghost predicate Apart(c: seq<Range>) {
    forall i, j :: 0 <= i < |c| && 0 <= j < |c| && i != j && c[i].min <= c[j].min ==> c[i].max + 1 < c[j].min
  }

  /** When sorting and merging a list keeps its addresses. */
  ghost predicate ListSafe(c: seq<Range>) {
    Apart(c) || NoTopReversed(c) || Covered(c, 0xFFFF_FFFF) || Covered(c, 0xFFFF_FFFE)
  }

  lemma PermutedSame(s: seq<Range>, c: seq<Range>)
    requires Permuted(s, c)
    ensures SameCover(s, c) && (NoTopReversed(s) <==> NoTopReversed(c)) && (WellFormed(s) <==> WellFormed(c))
  {
    forall r
      ensures r in s <==> r in c
    {
      PermutedHas(s, c, r);
    }
    hide Permuted;
    SameEntries(s, c);
    SameEntries(c, s);
  }

  lemma SameEntries(s: seq<Range>, c: seq<Range>)
    requires forall r :: r in s <==> r in c
    ensures forall ip: Ip :: Covered(s, ip) ==> Covered(c, ip)
    ensures NoTopReversed(s) ==> NoTopReversed(c)
    ensures WellFormed(s) ==> WellFormed(c)
  {
    forall ip: Ip | Covered(s, ip)
      ensures Covered(c, ip)
    {
      var i :| 0 <= i < |s| && Within(s[i], ip);
      CoveredBy(c, s[i], ip);
    }
    forall i | 0 <= i < |c|
      ensures NoTopReversed(s) ==> !TopReversed(c[i])
      ensures WellFormed(s) ==> c[i].min <= c[i].max
    {
      assert c[i] in s;
    }
  }

  lemma PutIn(front: seq<Range>, r: Range, back: seq<Range>)
    ensures multiset(front + [r] + back) == multiset(front + back) + multiset{r}
  {}

  lemma TakeOut(s: seq<Range>, i: nat)
    requires i < |s|
    ensures multiset(s[..i] + s[i + 1..]) == multiset(s) - multiset{s[i]}
  {
    PutIn(s[..i], s[i], s[i + 1..]);
    assert s == s[..i] + [s[i]] + s[i + 1..];
  }

  /** Two entries of a permutation are at two places of the list. */
  lemma TwoPlaces(s: seq<Range>, c: seq<Range>, a: nat, b: nat) returns (i: nat, j: nat)
    requires Permuted(s, c) && a < b < |s|
    ensures i < |c| && j < |c| && i != j && c[i] == s[a] && c[j] == s[b]
  {
    PermutedHas(s, c, s[a]);
    i :| 0 <= i < |c| && c[i] == s[a];
    var rest, others := c[..i] + c[i + 1..], s[..a] + s[a + 1..];
    TakeOut(c, i);
    TakeOut(s, a);
    assert others[b - 1] == s[b];
    PermutedHas(others, rest, s[b]);
    var k :| 0 <= k < |rest| && rest[k] == s[b];
    j := if k < i then k else k + 1;
  }

  lemma ApartSeparates(s: seq<Range>, c: seq<Range>)
    requires Sorted(s) && Permuted(s, c) && Apart(c)
    ensures Separated(s)
  {
    hide Permuted;
    forall a, b | 0 <= a < b < |s|
      ensures s[a].max + 1 < s[b].min
    {
      var i, j := TwoPlaces(s, c, a, b);
    }
  }

  /** A place for r in a sorted list, before every entry that starts where it does. */
  lemma {:induction false} PlaceFor(r: Range, q: seq<Range>) returns (k: nat)
    requires Sorted(q)
    ensures k <= |q| && (forall i :: 0 <= i < k ==> q[i].min < r.min)
    ensures forall i :: k <= i < |q| ==> r.min <= q[i].min
  {
    k := 0;
    while k < |q| && q[k].min < r.min
      invariant k <= |q| && forall i :: 0 <= i < k ==> q[i].min < r.min
    {
      k := k + 1;
    }
  }

  lemma PlacedSorted(r: Range, q: seq<Range>, k: nat)
    requires Sorted(q) && k <= |q|
    requires (forall i :: 0 <= i < k ==> q[i].min < r.min) && (forall i :: k <= i < |q| ==> r.min <= q[i].min)
    ensures Sorted(q[..k] + [r] + q[k..])
  {}

  lemma PlacedPermuted(r: Range, q: seq<Range>, k: nat, front: seq<Range>, back: seq<Range>)
    requires k <= |q| && Permuted(q, front + back)
    ensures Permuted(q[..k] + [r] + q[k..], front + [r] + back)
  {
    assert q == q[..k] + q[k..];
    PutIn(q[..k], r, q[k..]);
    PutIn(front, r, back);
  }

  lemma {:induction false} SomeSort(c: seq<Range>) returns (s: seq<Range>)
    ensures Sorted(s) && Permuted(s, c)
  {
    if c == [] {
      s := [];
    } else {
      var q := SomeSort(c[1..]);
      hide Permuted;
      var k := PlaceFor(c[0], q);
      s := q[..k] + [c[0]] + q[k..];
      PlacedSorted(c[0], q, k);
      assert [] + c[1..] == c[1..] && [] + [c[0]] + c[1..] == c;
      PlacedPermuted(c[0], q, k, [], c[1..]);
    }
  }

  /** If one entry may come before another that it reaches, some sort puts it there. */
  lemma TouchingSort(c: seq<Range>) returns (s: seq<Range>)
    requires !Apart(c)
    ensures Sorted(s) && Permuted(s, c) && !Separated(s)
  {
    hide Permuted, Sorted;
    var i, j :| 0 <= i < |c| && 0 <= j < |c| && i != j && c[i].min <= c[j].min && c[i].max + 1 >= c[j].min;
    var rest := c[..i] + c[i + 1..];
    var q := SomeSort(rest);
    var k := PlaceFor(c[i], q);
    s := q[..k] + [c[i]] + q[k..];
    PlacedSorted(c[i], q, k);
    PlacedPermuted(c[i], q, k, c[..i], c[i + 1..]);
    assert c[..i] + [c[i]] + c[i + 1..] == c;
    assert rest[if j < i then j else j - 1] == c[j];
    PermutedHas(q, rest, c[j]);
    var p :| 0 <= p < |q| && q[p] == c[j];
    assert p >= k;
    assert s[k] == c[i] && s[p + 1] == c[j];
  }

  ghost predicate SortMergeKeeps(c: seq<Range>) { forall r :: SortMergesTo(c, r) ==> SameCover(r, c) }

  /** Whatever the sorts do, sorting and merging lose no address, and gain none if the list is safe. */
  lemma SortMergesGrow(c: seq<Range>, r: seq<Range>)
    requires SortMergesTo(c, r)
    ensures Sorted(r) && Separated(r) && Grown(c, r) && (ListSafe(c) ==> SameCover(r, c))
  {
    hide Sorted, Permuted, Separated, Covered, MergesTo, Apart, NoTopReversed;
    var s :| Sorted(s) && Permuted(s, c) && MergesTo(s, r);
    PermutedSame(s, c);
    MergesGrow(s, r);
    if Apart(c) {
      ApartSeparates(s, c);
    }
  }

  /** Sorting and merging keep the addresses, whatever the sorts do, if and only if the list is safe. */
  lemma SortMergeKeepsIff(c: seq<Range>)
    ensures SortMergeKeeps(c) <==> ListSafe(c)
  {
    hide Sorted, Permuted, Separated, Covered, MergesTo, Apart, NoTopReversed;
    if ListSafe(c) {
      forall r | SortMergesTo(c, r)
        ensures SameCover(r, c)
      {
        SortMergesGrow(c, r);
      }
    } else {
      var s := TouchingSort(c);
      PermutedSame(s, c);
      MergeKeepsIff(s);
      assert !AlwaysKeeps(s);
      var r :| MergesTo(s, r) && !SameCover(r, s);
      assert SortMergesTo(c, r);
    }
  }
}
