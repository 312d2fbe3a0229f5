/**
 The global blocklist of src/pgld/blocklist.c, in its LOWMEM form: ranges and hit counters, no names.
 */
module Blocklist {
  import opened Ranges
  import opened Merging
  import opened Wrappers

  datatype Entry = Entry(range: Range, hits: nat)

  function RangesOf(s: seq<Entry>): (r: seq<Range>)
    ensures |r| == |s| && forall i :: 0 <= i < |s| ==> r[i] == s[i].range
  {
    seq(|s|, i requires 0 <= i < |s| => s[i].range)
  }

  // ---- qsort ------------------------------------------------------------------------------

  function Insert(e: Entry, s: seq<Entry>): (r: seq<Entry>)
    ensures |r| == |s| + 1
  {
    if s == [] || e.range.min <= s[0].range.min then [e] + s else [s[0]] + Insert(e, s[1..])
  }

  function SortedBy(s: seq<Entry>): (r: seq<Entry>)
    ensures |r| == |s|
  {
    if s == [] then [] else Insert(s[0], SortedBy(s[1..]))
  }

  /** Two entry lists with the same entries, and so the same ranges. */
  ghost predicate Shuffled(s: seq<Entry>, t: seq<Entry>) {
    multiset(s) == multiset(t) && Permuted(RangesOf(s), RangesOf(t))
  }

  lemma ShuffledCons(e: Entry, s: seq<Entry>, t: seq<Entry>)
    requires Shuffled(s, t)
    ensures Shuffled([e] + s, [e] + t)
  {
    assert RangesOf([e] + s) == [e.range] + RangesOf(s);
    assert RangesOf([e] + t) == [e.range] + RangesOf(t);
  }

  lemma SwapFirstTwo<T>(x: T, y: T, s: seq<T>)
    ensures multiset([x] + ([y] + s)) == multiset([y] + ([x] + s))
  {}

  lemma RangesCons(e: Entry, s: seq<Entry>)
    ensures RangesOf([e] + s) == [e.range] + RangesOf(s)
  {}

  lemma ShuffledSwap(e: Entry, d: Entry, s: seq<Entry>)
    ensures Shuffled([d] + ([e] + s), [e] + ([d] + s)) && Shuffled(s, s)
  {
    hide RangesOf;
    SwapFirstTwo(d, e, s);
    RangesCons(e, s);
    RangesCons(d, s);
    RangesCons(d, [e] + s);
    RangesCons(e, [d] + s);
    SwapFirstTwo(d.range, e.range, RangesOf(s));
  }

  lemma ShuffledChain(s: seq<Entry>, t: seq<Entry>, u: seq<Entry>)
    requires Shuffled(s, t) && Shuffled(t, u)
    ensures Shuffled(s, u)
  {
    hide RangesOf;
  }

  lemma {:induction false} InsertShuffles(e: Entry, s: seq<Entry>)
    ensures Shuffled(Insert(e, s), [e] + s)
  {
    hide Shuffled;
    if s == [] || e.range.min <= s[0].range.min {
      ShuffledSwap(e, e, [e] + s);
    } else {
      var d, t := s[0], s[1..];
      assert s == [d] + t;
      InsertShuffles(e, t);
      ShuffledCons(d, Insert(e, t), [e] + t);
      ShuffledSwap(e, d, t);
      ShuffledChain(Insert(e, s), [d] + ([e] + t), [e] + s);
    }
  }

  lemma {:induction false} InsertAbove(e: Entry, s: seq<Entry>, low: int)
    requires low <= e.range.min && forall i :: 0 <= i < |s| ==> low <= s[i].range.min
    ensures forall i :: 0 <= i < |Insert(e, s)| ==> low <= Insert(e, s)[i].range.min
  {
    if s != [] && e.range.min > s[0].range.min {
      InsertAbove(e, s[1..], low);
    }
  }

  ghost predicate InOrder(s: seq<Entry>) { forall i, j :: 0 <= i < j < |s| ==> s[i].range.min <= s[j].range.min }

  lemma {:induction false} InsertSorts(e: Entry, s: seq<Entry>)
    requires InOrder(s)
    ensures InOrder(Insert(e, s))
  {
    if s != [] && e.range.min > s[0].range.min {
      InsertSorts(e, s[1..]);
      InsertAbove(e, s[1..], s[0].range.min);
    }
  }

  lemma {:induction false} SortedByIs(s: seq<Entry>)
    ensures InOrder(SortedBy(s)) && Shuffled(SortedBy(s), s)
  {
    hide Shuffled, InOrder, Insert;
    if s == [] {
      Trivial();
    } else {
      SortedByIs(s[1..]);
      InsertSorts(s[0], SortedBy(s[1..]));
      InsertShuffles(s[0], SortedBy(s[1..]));
      ShuffledCons(s[0], SortedBy(s[1..]), s[1..]);
      ShuffledChain(SortedBy(s), [s[0]] + SortedBy(s[1..]), [s[0]] + s[1..]);
      assert s == [s[0]] + s[1..];
    }
  }

  lemma Trivial()
    ensures InOrder([]) && Shuffled([], [])
  {}

  lemma ShuffledIs(s: seq<Entry>, t: seq<Entry>)
    requires Shuffled(s, t) && InOrder(s)
    ensures multiset(s) == multiset(t) && Permuted(RangesOf(s), RangesOf(t)) && Sorted(RangesOf(s))
  {
    hide Permuted;
  }

  // ---- the list ------------------------------------------------------------------------------

  class List {
    var entries: array<Entry>
    var count: nat
    var size: nat
    var numips: Ip

    ghost predicate Valid()
      reads this
    {
      count <= entries.Length
    }

    /** `size` is the allocated capacity.  A merge shrinks the array and leaves `size` behind. */
    ghost predicate Appendable()
      reads this
    {
      Valid() && size == entries.Length
    }

    ghost function Items(): seq<Entry>
      requires Valid()
      reads this, entries
    {
      entries[..count]
    }

    ghost function Ranges(): seq<Range>
      requires Valid()
      reads this, entries
    {
      RangesOf(Items())
    }

    constructor ()
      ensures Appendable() && Items() == [] && numips == 0 && fresh(entries)
    {
      entries := new Entry[0];
      count, size, numips := 0, 0, 0;
    }

    method Init()
      modifies this
      ensures Appendable() && Items() == [] && numips == 0 && fresh(entries)
    {
      entries := new Entry[0];
      count, size, numips := 0, 0, 0;
    }

    /** realloc to n entries. */
    method Realloc(n: nat)
      requires Valid() && count <= n
      modifies this`entries
      ensures Valid() && entries.Length == n && fresh(entries) && Items() == old(Items())
    {
      var old_ := entries;
      var copy := new Entry[n](_ => Entry(BLANK, 0));
      forall i | 0 <= i < count {
        copy[i] := old_[i];
      }
      entries := copy;
    }

    method Append(ipMin: Ip, ipMax: Ip)
      requires Appendable()
      modifies this, entries
      ensures Appendable() && Items() == old(Items()) + [Entry(Range(ipMin, ipMax), 0)] && numips == old(numips)
      ensures entries == old(entries) || fresh(entries)
    {
      if size == count {
        size := size + 16384;
        Realloc(size);
      }
      entries[count] := Entry(Range(ipMin, ipMax), 0);
      count := count + 1;
    }

    method Clear(start: nat)
      requires Valid() && start <= count
      modifies this
      ensures Appendable() && Items() == old(Items())[..start] && fresh(entries)
      ensures numips == if start == 0 then 0 else old(numips)
    {
      if start == 0 {
        Init();
      } else {
        size, count := start, start;
        Realloc(size);
      }
    }

    method Sort()
      requires Valid()
      modifies entries
      ensures Sorted(Ranges()) && multiset(Items()) == old(multiset(Items())) && Permuted(Ranges(), old(Ranges()))
    {
      hide SortedBy, Shuffled;
      var s := SortedBy(entries[..count]);
      SortedByIs(entries[..count]);
      ShuffledIs(s, entries[..count]);
      forall i | 0 <= i < count {
        entries[i] := s[i];
      }
      assert entries[..count] == s;
    }

    /** The look-ahead loop of blocklist_merge. */
    method LookAhead(i: nat) returns (j: nat, ipMax: Ip)
      requires Valid() && i < count
      ensures j == Next(Ranges(), i) && Range(Ranges()[i].min, ipMax) == Merged(Ranges(), i)
    {
      ghost var s := Ranges();
      ipMax := entries[i].range.max;
      j := i + 1;
      while j < count
        invariant i < j <= count
        invariant Reach(s, i + 1, s[i].max) == Reach(s, j, ipMax)
      {
        if ipMax == 0xFFFF_FFFF {
          j := count;
          break;
        }
        if entries[j].range.min > ipMax + 1 {
          break;
        }
        if entries[j].range.max > ipMax {
          ipMax := entries[j].range.max;
        }
        j := j + 1;
      }
    }

    /** Extend entry i to the merged range and blank the entries up to j. */
    method Swallow(i: nat, j: nat, ipMax: Ip)
      requires Valid() && i + 1 < j <= count
      modifies entries
      ensures var s := old(Ranges());
        Ranges() == s[..i] + [Range(s[i].min, ipMax)] + Blanks(j - i - 1) + s[j..]
    {
      ghost var s := Ranges();
      entries[i] := entries[i].(range := entries[i].range.(max := ipMax));
      for k := i + 1 to j
        invariant entries[i].range == Range(s[i].min, ipMax)
        invariant forall p :: 0 <= p < i ==> entries[p].range == s[p]
        invariant forall p :: i < p < k ==> entries[p].range == BLANK
        invariant forall p :: k <= p < count ==> entries[p].range == s[p]
      {
        entries[k] := Entry(BLANK, 0);
      }
    }

    /** One turn of the outer loop: merge into entry i what follows it. */
    method MergeStep(i: nat, ghost s: seq<Range>) returns (j: nat)
      requires Valid() && i < count && PassedUpTo(s, Ranges(), i)
      modifies entries
      ensures j == Next(s, i) && PassedUpTo(s, Ranges(), j)
      ensures Ranges()[j - 1] == if j > i + 1 then BLANK else s[i]
    {
      ghost var r := Ranges();
      NextSuffix(s, r, i);
      hide Next, Merged;
      var ipMax;
      j, ipMax := LookAhead(i);
      if j > i + 1 {
        Swallow(i, j, ipMax);
      } else {
        SingleStep(s, r, i);
      }
      PassAdvance(s, r, Ranges(), i);
    }

    /** One pass of blocklist_merge over the entries. */
    method MergePass() returns (merged: nat)
      requires Valid()
      modifies this`numips, entries
      ensures Ranges() == Passed(old(Ranges()), 0) && numips == Tally(old(Ranges()), 0, 0)
      ensures merged == count - |Kept(old(Ranges()), 0)|
    {
      hide Next, Passed, Kept, Tally, PassedUpTo, Tick;
      ghost var s := Ranges();
      merged, numips := 0, 0;
      PassStart(s);
      var i := 0;
      while i < count
        invariant i <= count == |s| && PassedUpTo(s, Ranges(), i)
        invariant merged + (count - i - |Kept(s, i)|) == count - |Kept(s, 0)|
        invariant Tally(s, i, numips) == Tally(s, 0, 0)
      {
        PassStep(s, i);
        TallyNext(s, i, numips);
        var j := MergeStep(i, s);
        merged := merged + (j - i - 1);
        i := j - 1;
        numips := Tick(numips, entries[i].range);
        i := i + 1;
      }
      PassDone(s, Ranges());
      TallyEnd(s, numips);
    }

    /**
     blocklist_merge on a sorted list, whatever order the sorts leave equal starts in.  The result is
     separated, loses no address and gains none but possibly the top one, and not that one if the list
     is safe.  Of well-formed ranges it is what one pass keeps, `numips` is the number of addresses,
     stopping at 2^32 - 1, and the recursive call finds nothing left to merge.
     */
    method Merge() returns (ghost passes: nat)
      requires Valid() && Sorted(Ranges())
      modifies this, entries
      ensures Valid() && (entries == old(entries) || fresh(entries))
      ensures MergesTo(old(Ranges()), Ranges()) && Sorted(Ranges()) && Separated(Ranges())
      ensures Grown(old(Ranges()), Ranges()) && (MergeSafe(old(Ranges())) ==> SameCover(Ranges(), old(Ranges())))
      ensures numips == Tally(Ranges(), 0, 0)
      ensures WellFormed(old(Ranges())) ==>
        Ranges() == Kept(old(Ranges()), 0) && numips == Min(Total(Ranges()), 0xFFFF_FFFF)
      ensures WellFormed(old(Ranges())) ==> passes <= if Separated(old(Ranges())) then 1 else 2
    {
      hide *;
      ghost var s := Ranges();
      passes := MergeAll();
      MergesGrow(s, Ranges());
      if WellFormed(s) {
        MergeFacts(s);
        KeptCounts(s);
      }
    }

    /** The recursion of blocklist_merge. */
    method MergeAll() returns (ghost passes: nat)
      requires Valid() && Sorted(Ranges())
      modifies this, entries
      ensures Valid() && (entries == old(entries) || fresh(entries))
      ensures MergesTo(old(Ranges()), Ranges()) && numips == Tally(Ranges(), 0, 0)
      ensures WellFormed(old(Ranges())) ==>
        Ranges() == Kept(old(Ranges()), 0) && passes <= if Separated(old(Ranges())) then 1 else 2
      decreases count
    {
      hide Sorted, WellFormed, Separated, Kept, Passed, Permuted, Tally, MergesTo, Cut;
      ghost var s := Ranges();
      numips, passes := 0, 0;
      MergesToIs(s, s);
      if count == 0 {
        EmptyMerge(s);
        return;
      }
      passes := 1;
      PassFacts(s);
      var merged := MergePass();
      if merged != 0 {
        Sort();
        ghost var t := Ranges();
        count := count - merged;
        CutIs(s, t);
        CutSorted(s, t);
        assert Ranges() == Cut(s, t);
        Realloc(count);
        if WellFormed(s) {
          CutOfWellFormed(s, t);
        }
        passes := MergeAll();
        MergesToIs(s, Ranges());
        passes := passes + 1;
      }
    }

    /** blocklist_find: bsearch with block_key_compare. */
    method Find(ip: Ip) returns (found: Option<nat>)
      requires Valid() && Separated(Ranges()) && Sorted(Ranges())
      ensures found.Some? ==> found.value < count && Within(Ranges()[found.value], ip)
      ensures found.Some? <==> Covered(Ranges(), ip)
    {
      ghost var r := Ranges();
      var low, high := 0, count;
      while low < high
        invariant low <= high <= count
        invariant forall i :: 0 <= i < low ==> r[i].max < ip
        invariant forall i :: high <= i < count ==> ip < r[i].min
      {
        var mid := (low + high) / 2;
        var order := KeyCompare(Range(ip, ip), entries[mid].range);
        if order < 0 {
          high := mid;
        } else if order > 0 {
          low := mid + 1;
        } else {
          return Some(mid);
        }
      }
      return None;
    }
  }

  /** An entry that swallows nothing stays as it is. */
  lemma SingleStep(s: seq<Range>, r: seq<Range>, i: nat)
    requires i < |s| == |r| && s[i] == r[i] && Next(s, i) == i + 1
    ensures Merged(s, i) == s[i] && r == r[..i] + [Merged(s, i)] + Blanks(0) + r[i + 1..]
  {}

  lemma EmptyMerge(s: seq<Range>)
    requires |s| == 0
    ensures Kept(s, 0) == s && Separated(s) && Tally(s, 0, 0) == 0
  {}

  lemma CutIs(s: seq<Range>, t: seq<Range>)
    requires |t| == |s|
    ensures Cut(s, t) == t[..|Kept(s, 0)|]
  {}

  /** A pass that merged nothing found a separated list and left it alone. */
  lemma PassFacts(s: seq<Range>)
    requires Sorted(s)
    ensures |Kept(s, 0)| == |s| <==> Separated(s)
    ensures Separated(s) ==> Passed(s, 0) == s && Kept(s, 0) == s
  {
    hide *;
    SeparatedIffShort(s);
    if Separated(s) {
      KeptOfSeparated(s, 0);
      assert s[0..] == s;
    }
  }

  /** Of well-formed ranges the cut keeps what the pass kept, and the next pass has nothing to do. */
  lemma CutOfWellFormed(s: seq<Range>, t: seq<Range>)
    requires Sorted(s) && WellFormed(s) && Resorted(s, t)
    ensures Cut(s, t) == Kept(s, 0) && Separated(Cut(s, t)) && WellFormed(Cut(s, t))
    ensures Kept(Cut(s, t), 0) == Kept(s, 0)
  {
    hide Sorted, WellFormed, Separated, Kept, Passed, Permuted, Cut;
    WellFormedNoTop(s);
    CutIsKept(s, t);
    MergeFacts(s);
  }

  lemma WellFormedNoTop(s: seq<Range>)
    requires WellFormed(s)
    ensures NoTopReversed(s)
  {}

  /** What one pass over a sorted list leaves for the next. */
  lemma MergeFacts(s: seq<Range>)
    requires Sorted(s) && WellFormed(s)
    ensures Separated(Kept(s, 0)) && WellFormed(Kept(s, 0)) && Kept(Kept(s, 0), 0) == Kept(s, 0)
  {
    hide *;
    var kept := Kept(s, 0);
    KeptSeparated(s, 0);
    KeptWellFormed(s, 0);
    KeptOfSeparated(kept, 0);
    assert kept[0..] == kept;
  }

  lemma KeptCounts(s: seq<Range>)
    requires Sorted(s) && WellFormed(s)
    ensures Tally(Kept(s, 0), 0, 0) == Min(Total(Kept(s, 0)), 0xFFFF_FFFF)
  {
    hide *;
    var kept := Kept(s, 0);
    MergeFacts(s);
    TallyOfSeparated(kept, 0);
    assert kept[..0] == [];
    TotalOfNone();
  }

  lemma TotalOfNone()
    ensures Total([]) == 0 && Min(0, 0xFFFF_FFFF) == 0
  {}

  function KeyCompare(key: Range, entry: Range): int {
    if key.max < entry.min then -1 else if key.min > entry.max then 1 else 0
  }

  /**
   Along a separated list the comparison with an address never rises, and is zero at most once,
   exactly where the address lies: what bsearch needs of it.
   */
  lemma KeyOrder(s: seq<Range>, ip: Ip, i: nat, j: nat)
    requires Separated(s) && Sorted(s) && i < j < |s|
    ensures KeyCompare(Range(ip, ip), s[i]) >= KeyCompare(Range(ip, ip), s[j])
    ensures KeyCompare(Range(ip, ip), s[i]) == 0 ==> KeyCompare(Range(ip, ip), s[j]) != 0
    ensures KeyCompare(Range(ip, ip), s[i]) == 0 <==> Within(s[i], ip)
  {
    assert s[i].max + 1 < s[j].min && s[i].min <= s[j].min;
  }
}
