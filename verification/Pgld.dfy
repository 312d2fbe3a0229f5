/**
 Loading blocklists and filtering packets: load_list of src/pgld/parser.c, load_all_lists and the
 verdicts of nfqueue_cb of src/pgld/pgld.c.
 */
module Pgld {
  import opened Ranges
  import opened ListFormat
  import opened ListLines
  import opened Merging
  import opened Blocklist
  import opened Wrappers

  /**
   What the loaders see of a list file: whether it opens, its lines, and what reading it as a p2b
   file appends before that stops, and whether it stops without an error.
   */
  datatype File = File(opens: bool, lines: seq<string>, binary: seq<Range>, binaryOk: bool)

  // ---- what a file contributes -------------------------------------------------------------

  /** A text list is one that yields a range within its first hundred lines. */
  ghost predicate IsAscii(lines: seq<string>) {
    LineRanges(if |lines| < 100 then lines else lines[..100]) != []
  }

  ghost predicate Loads(f: File) { f.opens && (IsAscii(f.lines) || f.binaryOk) }

  ghost function Contribution(f: File): seq<Range> {
    if !Loads(f) then [] else if IsAscii(f.lines) then LineRanges(f.lines) else f.binary
  }

  ghost function Contributions(files: seq<File>): seq<Range> {
    if files == [] then [] else Contributions(files[..|files| - 1]) + Contribution(files[|files| - 1])
  }

  // ---- load_list ------------------------------------------------------------------------------

  /** The entries of newly appended ranges. */
  ghost function Unhit(s: seq<Range>): (r: seq<Entry>)
    ensures |r| == |s| && forall i :: 0 <= i < |s| ==> r[i] == Entry(s[i], 0)
  {
    seq(|s|, i requires 0 <= i < |s| => Entry(s[i], 0))
  }

  lemma UnhitConcat(s: seq<Range>, t: seq<Range>)
    ensures Unhit(s + t) == Unhit(s) + Unhit(t) && Unhit([]) == []
  {}

  lemma LineStep(lines: seq<string>, i: nat)
    requires i < |lines|
    ensures LineRanges(lines[..i + 1]) == LineRanges(lines[..i]) + LineRange(lines[i])
  {
    hide LineRange;
    assert lines[..i + 1][..i] == lines[..i];
  }

  lemma LineStart(lines: seq<string>)
    ensures LineRanges(lines[..0]) == []
  {}

  lemma {:induction false} LineRangesPrefix(lines: seq<string>, i: nat, j: nat)
    requires i <= j <= |lines|
    ensures LineRanges(lines[..i]) <= LineRanges(lines[..j])
    decreases j
  {
    hide LineRanges, LineRange;
    if i < j {
      LineRangesPrefix(lines, i, j - 1);
      LineStep(lines, j - 1);
    }
  }

  /** What the first i lines say about the whole file. */
  lemma AsciiAfter(lines: seq<string>, i: nat)
    requires i <= |lines|
    ensures i <= 100 && LineRanges(lines[..i]) != [] ==> IsAscii(lines)
    ensures (i == |lines| || i >= 100) && LineRanges(lines[..i]) == [] ==> !IsAscii(lines)
  {
    hide LineRanges;
    var n := if |lines| < 100 then |lines| else 100;
    assert lines[..n] == if |lines| < 100 then lines else lines[..100];
    if i <= n {
      LineRangesPrefix(lines, i, n);
    } else {
      LineRangesPrefix(lines, n, i);
    }
  }

  /** One turn of the loop of loadlist_ascii. */
  method LoadLine(l: List, line: string) returns (ok: nat)
    requires l.Appendable()
    modifies l, l.entries
    ensures l.Appendable() && (l.entries == old(l.entries) || fresh(l.entries))
    ensures l.Items() == old(l.Items()) + Unhit(LineRange(line)) && ok == |LineRange(line)|
  {
    hide ParseLine;
    match ParseLine(StripCrlf(line)) {
      case Loaded(range) =>
        l.Append(range.min, range.max);
        return 1;
      case _ =>
        return 0;
    }
  }

  /** loadlist_ascii: 0, -1 for a file that is not text, -2 for one that does not open. */
  method LoadAscii(l: List, f: File) returns (ret: int)
    requires l.Appendable()
    modifies l, l.entries
    ensures l.Appendable() && (l.entries == old(l.entries) || fresh(l.entries))
    ensures ret == if !f.opens then -2 else if IsAscii(f.lines) then 0 else -1
    ensures l.Items() == old(l.Items()) + Unhit(if ret == 0 then LineRanges(f.lines) else [])
  {
    hide LineRange, LineRanges, IsAscii, Unhit;
    UnhitConcat([], []);
    if !f.opens {
      return -2;
    }
    var total, ok := 0, 0;
    ghost var before := l.Items();
    LineStart(f.lines);
    for i := 0 to |f.lines|
      invariant total == i && l.Appendable() && (l.entries == old(l.entries) || fresh(l.entries))
      invariant l.Items() == before + Unhit(LineRanges(f.lines[..i])) && ok == |LineRanges(f.lines[..i])|
      invariant i > 100 ==> IsAscii(f.lines)
    {
      AsciiAfter(f.lines, i);
      total := total + 1;
      if ok == 0 && total > 100 {
        return -1;
      }
      LineStep(f.lines, i);
      UnhitConcat(LineRanges(f.lines[..i]), LineRange(f.lines[i]));
      var n := LoadLine(l, f.lines[i]);
      ok := ok + n;
    }
    AsciiAfter(f.lines, |f.lines|);
    assert f.lines[..|f.lines|] == f.lines;
    return if ok == 0 then -1 else 0;
  }

  /** loadlist_binary appends what it reads and reports how it ended. */
  method LoadBinary(l: List, f: File) returns (ret: int)
    requires l.Appendable()
    modifies l, l.entries
    ensures l.Appendable() && (l.entries == old(l.entries) || fresh(l.entries))
    ensures l.Items() == old(l.Items()) + Unhit(f.binary)
    ensures ret == if f.binaryOk then 0 else -1
  {
    ghost var before := l.Items();
    assert Unhit(f.binary[..0]) == [];
    for i := 0 to |f.binary|
      invariant l.Appendable() && (l.entries == old(l.entries) || fresh(l.entries))
      invariant l.Items() == before + Unhit(f.binary[..i])
    {
      l.Append(f.binary[i].min, f.binary[i].max);
      assert Unhit(f.binary[..i + 1]) == Unhit(f.binary[..i]) + [Entry(f.binary[i], 0)];
    }
    assert f.binary[..|f.binary|] == f.binary;
    return if f.binaryOk then 0 else -1;
  }

  /** load_list: try text, then p2b; what fails is rolled back. */
  method LoadList(l: List, f: File) returns (ret: int)
    requires l.Appendable()
    modifies l, l.entries
    ensures l.Appendable() && (l.entries == old(l.entries) || fresh(l.entries))
    ensures ret == 0 <==> Loads(f)
    ensures l.Items() == old(l.Items()) + Unhit(Contribution(f))
  {
    hide IsAscii, Unhit, LineRanges;
    UnhitConcat([], []);
    var prevcount := l.count;
    ret := LoadAscii(l, f);
    if ret == 0 {
      return 0;
    } else if ret == -2 {
      return ret;
    }
    l.Clear(prevcount);
    prevcount := l.count;
    ret := LoadBinary(l, f);
    if ret == 0 {
      return 0;
    }
    l.Clear(prevcount);
    return -1;
  }

  // ---- load_all_lists -----------------------------------------------------------------------------

  /** With no file named, the list is read from standard input. */
  ghost function Sources(files: seq<File>, stdin: File): seq<File> { if files == [] then [stdin] else files }

  lemma ContributionsStep(files: seq<File>, i: nat)
    requires i < |files|
    ensures Contributions(files[..i + 1]) == Contributions(files[..i]) + Contribution(files[i])
  {
    hide Contribution;
    assert files[..i + 1][..i] == files[..i];
  }

  lemma ContributionsStart(files: seq<File>, f: File)
    ensures Contributions(files[..0]) == [] && Contributions([f]) == Contribution(f)
  {
    hide Contribution;
    assert [f][..0] == [];
  }

  /** The loading half of load_all_lists. */
  method LoadFiles(l: List, files: seq<File>, stdin: File) returns (ret: int)
    requires l.Valid()
    modifies l, l.entries
    ensures l.Appendable() && fresh(l.entries)
    ensures l.Items() == Unhit(Contributions(Sources(files, stdin)))
    ensures ret == if forall f :: f in files ==> Loads(f) then 0 else -1
  {
    hide Contributions, Contribution, Unhit, Loads;
    ret := 0;
    l.Clear(0);
    ContributionsStart(files, stdin);
    UnhitConcat([], []);
    if files != [] {
      for i := 0 to |files|
        invariant l.Appendable() && fresh(l.entries)
        invariant l.Items() == Unhit(Contributions(files[..i]))
        invariant ret == if forall j :: 0 <= j < i ==> Loads(files[j]) then 0 else -1
      {
        ContributionsStep(files, i);
        UnhitConcat(Contributions(files[..i]), Contribution(files[i]));
        var loaded := LoadList(l, files[i]);
        if loaded != 0 {
          ret := -1;
        }
      }
      assert files[..|files|] == files;
    } else {
      var loaded := LoadList(l, stdin);
    }
  }

  lemma UnhitRanges(s: seq<Range>)
    ensures RangesOf(Unhit(s)) == s
  {}

  /** What merging a sorted list of well-formed ranges means for the number of addresses. */
  lemma KeptMeaning(s: seq<Range>, t: seq<Range>)
    requires Sorted(s) && WellFormed(s) && SameCover(s, t)
    ensures Total(Kept(s, 0)) == |Addresses(t)|
  {
    hide Kept, Total, Sorted, WellFormed, Separated;
    KeptSameCover(s);
    KeptSeparated(s, 0);
    KeptWellFormed(s, 0);
    TotalIsAddresses(Kept(s, 0));
    assert Addresses(Kept(s, 0)) == Addresses(t);
  }

  /**
   load_all_lists.  Whatever was in the list before, afterwards it is a separated list that covers
   every address of the lists that loaded, and no other but possibly the top one; not that one if
   those lists are safe to merge.  Of well-formed ranges `numips` counts the addresses up to 2^32 - 1.
   */
  method LoadAllLists(l: List, files: seq<File>, stdin: File) returns (ret: int)
    requires l.Valid()
    modifies l, l.entries
    ensures l.Valid() && fresh(l.entries) && Separated(l.Ranges()) && Sorted(l.Ranges())
    ensures SortMergesTo(Contributions(Sources(files, stdin)), l.Ranges())
    ensures Grown(Contributions(Sources(files, stdin)), l.Ranges())
    ensures ListSafe(Contributions(Sources(files, stdin))) ==>
      SameCover(l.Ranges(), Contributions(Sources(files, stdin)))
    ensures WellFormed(Contributions(Sources(files, stdin))) ==>
      l.numips == Min(|Addresses(Contributions(Sources(files, stdin)))|, 0xFFFF_FFFF)
    ensures ret == if forall f :: f in files ==> Loads(f) then 0 else -1
  {
    hide Contributions, WellFormed, Separated, Sorted, SameCover, Kept;
    hide Total, Addresses, Unhit, RangesOf, Permuted, Loads;
    hide MergesTo, SortMergesTo, Grown, ListSafe, MergeSafe, NoTopReversed;
    ret := LoadFiles(l, files, stdin);
    ghost var all := Contributions(Sources(files, stdin));
    UnhitRanges(all);
    l.Sort();
    ghost var sorted := l.Ranges();
    PermutedSame(sorted, all);
    ghost var passes := l.Merge();
    SortThenMerge(all, sorted, l.Ranges());
    SortMergesGrow(all, l.Ranges());
    if WellFormed(sorted) {
      KeptMeaning(sorted, all);
    }
  }

  lemma SortThenMerge(c: seq<Range>, s: seq<Range>, r: seq<Range>)
    requires Sorted(s) && Permuted(s, c) && MergesTo(s, r)
    ensures SortMergesTo(c, r)
  {}

  // ---- verdicts --------------------------------------------------------------------------------------

  datatype Hook = LocalIn | LocalOut | Forward | Other

  /** The address or addresses a hook examines. */
  ghost predicate Examined(hook: Hook, saddr: Ip, daddr: Ip, ip: Ip) {
    match hook
    case LocalIn => ip == saddr
    case LocalOut => ip == daddr
    case Forward => ip == saddr || ip == daddr
    case Other => false
  }

  /** A list blocks the packet: it covers an address that the hook examines. */
  ghost predicate Blocks(s: seq<Range>, hook: Hook, saddr: Ip, daddr: Ip) {
    exists ip: Ip :: Examined(hook, saddr, daddr, ip) && Covered(s, ip)
  }

  /** Count a hit on the entry found. */
  method Hit(l: List, index: nat)
    requires l.Valid() && index < l.count
    modifies l.entries
    ensures l.Items() == old(l.Items())[index := old(l.Items()[index]).(hits := old(l.Items()[index]).hits + 1)]
    ensures l.Ranges() == old(l.Ranges())
  {
    l.entries[index] := l.entries[index].(hits := l.entries[index].hits + 1);
  }

  /** nfqueue_cb: the packet is dropped exactly when an examined address is covered. */
  method NfqueueCb(l: List, hook: Hook, saddr: Ip, daddr: Ip) returns (drop: bool)
    requires l.Valid() && Separated(l.Ranges()) && Sorted(l.Ranges())
    modifies l.entries
    ensures drop <==> Blocks(l.Ranges(), hook, saddr, daddr)
    ensures drop <==>
      match hook
      case LocalIn => Covered(l.Ranges(), saddr)
      case LocalOut => Covered(l.Ranges(), daddr)
      case Forward => Covered(l.Ranges(), saddr) || Covered(l.Ranges(), daddr)
      case Other => false
    ensures l.Ranges() == old(l.Ranges())
    ensures !drop ==> l.Items() == old(l.Items())
    ensures drop ==>
      exists i: nat, ip: Ip :: HitOnly(old(l.Items()), l.Items(), i, ip) && Examined(hook, saddr, daddr, ip)
  {
    hide Separated, Sorted, RangesOf;
    var found: Option<nat> := None;
    match hook {
      case LocalIn =>
        found := l.Find(saddr);
      case LocalOut =>
        found := l.Find(daddr);
      case Forward =>
        found := l.Find(daddr);
        if found.None? {
          found := l.Find(saddr);
        }
      case Other =>
    }
    drop := found.Some?;
    if drop {
      ghost var i := found.value;
      ghost var ip := if hook == LocalIn || (hook == Forward && !Within(l.Ranges()[i], daddr)) then saddr else daddr;
      assert Examined(hook, saddr, daddr, ip) && Covered(l.Ranges(), ip);
      Hit(l, found.value);
      assert HitOnly(old(l.Items()), l.Items(), i, ip);
    }
  }

  /** An entry that covers ip has one hit more, the others are the same. */
  ghost predicate HitOnly(s: seq<Entry>, t: seq<Entry>, i: nat, ip: Ip) {
    i < |s| && Within(s[i].range, ip) && t == s[i := s[i].(hits := s[i].hits + 1)]
  }

  // ---- end to end ---------------------------------------------------------------------------------------

  /** Some list that loaded has a range with an address that the hook examines. */
  ghost predicate Listed(files: seq<File>, hook: Hook, saddr: Ip, daddr: Ip) {
    exists f, r, ip: Ip ::
      f in files && Loads(f) && r in Contribution(f) && Examined(hook, saddr, daddr, ip) && Within(r, ip)
  }

  /**
   Load the lists, then filter one packet.  It is dropped if an address its hook examines lies in a
   range of some list that loaded; otherwise it is dropped only if it has the top address, and not even
   then if the lists are safe to merge.
   */
  method FilterPacket(files: seq<File>, stdin: File, hook: Hook, saddr: Ip, daddr: Ip) returns (drop: bool)
    ensures Listed(Sources(files, stdin), hook, saddr, daddr) ==> drop
    ensures drop ==> Listed(Sources(files, stdin), hook, saddr, daddr) || Examined(hook, saddr, daddr, 0xFFFF_FFFF)
    ensures ListSafe(Contributions(Sources(files, stdin))) ==>
      (drop <==> Listed(Sources(files, stdin), hook, saddr, daddr))
  {
    hide *;
    var l := new List();
    var ret := LoadAllLists(l, files, stdin);
    ListedIff(Sources(files, stdin), hook, saddr, daddr);
    VerdictOf(Contributions(Sources(files, stdin)), l.Ranges(), hook, saddr, daddr);
    drop := NfqueueCb(l, hook, saddr, daddr);
  }

  lemma ListedIff(files: seq<File>, hook: Hook, saddr: Ip, daddr: Ip)
    ensures Listed(files, hook, saddr, daddr) <==> Blocks(Contributions(files), hook, saddr, daddr)
  {
    hide Contributions, Contribution, Loads, Covered, Examined, Within;
    forall ip: Ip {
      CoveredByContribution(files, ip);
    }
  }

  lemma VerdictOf(c: seq<Range>, r: seq<Range>, hook: Hook, saddr: Ip, daddr: Ip)
    requires Grown(c, r)
    ensures Blocks(c, hook, saddr, daddr) ==> Blocks(r, hook, saddr, daddr)
    ensures Blocks(r, hook, saddr, daddr) ==> Blocks(c, hook, saddr, daddr) || Examined(hook, saddr, daddr, 0xFFFF_FFFF)
    ensures SameCover(r, c) ==> (Blocks(r, hook, saddr, daddr) <==> Blocks(c, hook, saddr, daddr))
  {
    hide Covered, Examined;
  }

  lemma CoveredByContribution(files: seq<File>, ip: Ip)
    ensures Covered(Contributions(files), ip) <==>
      exists f, r :: f in files && Loads(f) && r in Contribution(f) && Within(r, ip)
  {
    hide Contributions, Within, IsAscii, LineRanges;
    CoveredByFile(files, ip);
  }

  ghost predicate Lists(f: File, ip: Ip) { exists r :: r in Contribution(f) && Within(r, ip) }

  lemma {:induction false} CoveredByFile(files: seq<File>, ip: Ip)
    ensures Covered(Contributions(files), ip) <==> exists f :: f in files && Lists(f, ip)
  {
    hide Contribution, Within, Lists;
    if files != [] {
      var init, last := files[..|files| - 1], files[|files| - 1];
      CoveredByFile(init, ip);
      CoveredConcat(Contributions(init), Contribution(last), ip);
      ListsIff(last, ip);
      assert files == init + [last];
    }
  }

  lemma ListsIff(f: File, ip: Ip)
    ensures Lists(f, ip) <==> Covered(Contribution(f), ip)
  {
    hide Contribution, Within;
    CoveredConcat([], Contribution(f), ip);
  }

  lemma CoveredConcat(s: seq<Range>, t: seq<Range>, ip: Ip)
    ensures Covered(s + t, ip) <==> Covered(s, ip) || Covered(t, ip)
    ensures Covered(t, ip) <==> exists r :: r in t && Within(r, ip)
  {
    if Covered(s, ip) {
      var i :| 0 <= i < |s| && Within(s[i], ip);
      assert (s + t)[i] == s[i];
    }
    if Covered(t, ip) {
      var i :| 0 <= i < |t| && Within(t[i], ip);
      assert (s + t)[|s| + i] == t[i];
    }
  }

  /** Every packet gets the verdict that the lists call for. */
  ghost predicate AllRight(files: seq<File>, r: seq<Range>) {
    forall hook, saddr, daddr :: Blocks(r, hook, saddr, daddr) <==> Listed(files, hook, saddr, daddr)
  }

  lemma AllRightIff(files: seq<File>, r: seq<Range>)
    ensures AllRight(files, r) <==> SameCover(r, Contributions(files))
  {
    hide Covered, Contributions, Listed;
    var c := Contributions(files);
    forall hook, saddr, daddr {
      ListedIff(files, hook, saddr, daddr);
    }
    forall s: seq<Range>, ip: Ip
      ensures Blocks(s, LocalIn, ip, ip) <==> Covered(s, ip)
    {
      assert Examined(LocalIn, ip, ip, ip);
    }
  }

  /**
   Whatever order the sorts leave equal starts in, every packet gets the right verdict: that is so if
   and only if the ranges of the lists that loaded are safe to merge.
   */
  lemma VerdictsRightIff(files: seq<File>)
    ensures (forall r :: SortMergesTo(Contributions(files), r) ==> AllRight(files, r)) <==>
      ListSafe(Contributions(files))
  {
    hide AllRight, Contributions, SortMergesTo, ListSafe, SameCover;
    var c := Contributions(files);
    SortMergeKeepsIff(c);
    forall r
      ensures AllRight(files, r) <==> SameCover(r, c)
    {
      AllRightIff(files, r);
    }
  }

  /** A dumped list, loaded again as a file, contributes the same ranges in the same order. */
  lemma DumpedFileLoads(s: seq<Range>, binary: seq<Range>, binaryOk: bool)
    requires s != []
    ensures Contribution(File(true, Dump(s), binary, binaryOk)) == s
  {
    hide LineRanges, DumpLine;
    DumpLoads(s);
    var n := if |s| < 100 then |s| else 100;
    DumpLoads(s[..n]);
    assert Dump(s[..n]) == if |Dump(s)| < 100 then Dump(s) else Dump(s)[..100];
  }

  /** A list file made of such lines, with a range to block among its first hundred. */
  ghost predicate WrittenAs(f: File, es: seq<Item>, eol: string) {
    && f.opens && LineEnd(eol) && f.lines == Written(es, eol) && (forall e :: e in es ==> Proper(e))
    && AllBlocked(if |es| < 100 then es else es[..100]) != []
  }

  /** Such a file loads, and contributes the ranges that its lines are there to block, in order. */
  lemma WrittenFileLoads(f: File, es: seq<Item>, eol: string)
    requires WrittenAs(f, es, eol)
    ensures Loads(f) && Contribution(f) == AllBlocked(es)
  {
    hide LineRanges, AllBlocked, TextOf, Proper, LineEnd;
    WrittenLoads(es, eol);
    var n := if |es| < 100 then |es| else 100;
    WrittenLoads(es[..n], eol);
    assert Written(es[..n], eol) == if |f.lines| < 100 then f.lines else f.lines[..100];
    assert es[..n] == if |es| < 100 then es else es[..100];
  }

  /** Hence an address is listed by such a file if and only if one of its lines blocks it. */
  lemma WrittenLists(f: File, es: seq<Item>, eol: string, ip: Ip)
    requires WrittenAs(f, es, eol)
    ensures Lists(f, ip) <==> exists e, r :: e in es && r in Blocked(e) && Within(r, ip)
  {
    hide WrittenAs, Within, Contribution, AllBlocked, Blocked, Loads;
    WrittenFileLoads(f, es, eol);
    forall r {
      BlockedBy(es, r);
    }
  }

  /** And a packet is dropped whose address is in the range of a line, whatever other lists there are. */
  lemma LineDrops(files: seq<File>, f: File, es: seq<Item>, eol: string, i: nat,
                  hook: Hook, ip: Ip, saddr: Ip, daddr: Ip)
    requires f in files && WrittenAs(f, es, eol) && i < |es| && Blocked(es[i]) != []
    requires Within(es[i].range, ip) && Examined(hook, saddr, daddr, ip)
    ensures Listed(files, hook, saddr, daddr)
  {
    hide WrittenAs, Within, Examined, Contribution, Loads;
    WrittenFileLoads(f, es, eol);
    BlockedBy(es, es[i].range);
    assert es[i] in es && es[i].range in Contribution(f);
  }
}
