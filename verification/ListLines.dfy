/**
 The lines of blocklists as they are distributed, and what src/pgld/parser.c makes of them: p2p lines,
 ipfilter.dat lines, bare ranges and comments, one by one and as a file.
 */
module ListLines {
  import opened Ranges
  import opened Text
  import opened ListFormat

  ghost predicate NoColon(s: string) { forall i :: 0 <= i < |s| ==> s[i] != ':' }

  ghost predicate AllSpace(s: string) { forall i :: 0 <= i < |s| ==> IsSpace(s[i]) }

  // ---- single directives -----------------------------------------------------------------------

  lemma {:induction false} LabelRunStops(tag: string, rest: string, width: nat)
    requires NoColon(tag) && |tag| <= width && (rest == "" || rest[0] == ':' || |tag| == width)
    ensures LabelRun(tag + rest, width) == |tag|
  {
    if tag == "" {
      assert tag + rest == rest;
    } else {
      LabelRunStops(tag[1..], rest, width - 1);
      assert (tag + rest)[1..] == tag[1..] + rest;
    }
  }

  lemma LabelStep(tag: string, rest: string, fmt: seq<Directive>)
    requires NoColon(tag) && 1 <= |tag| <= 299 && (rest == "" || rest[0] == ':' || |tag| == 299)
    ensures var r := Scan(rest, fmt); Scan(tag + rest, [Label] + fmt) == Scanned(r.count + 1, r.ints)
  {
    hide LabelRun;
    LabelRunStops(tag, rest, 299);
    assert ([Label] + fmt)[1..] == fmt && (tag + rest)[|tag|..] == rest;
  }

  /** A line without a colon is not a p2p line. */
  lemma NoColonNoP2p(s: string)
    requires NoColon(s)
    ensures Scan(s, P2P).count <= 1
  {
    hide QUAD, RANGE;
    var n := LabelRun(s, 299);
    var rest := [Lit(':')] + (QUAD + ([Lit('-')] + QUAD));
    assert P2P == [Label] + rest && ([Label] + rest)[1..] == rest;
    assert Scan(s[n..], rest) == Scanned(0, []);
  }

  lemma {:induction false} SkipsSpace(gap: string, s: string)
    requires AllSpace(gap)
    ensures SkipSpace(gap + s) == SkipSpace(s)
  {
    if gap == "" {
      assert gap + s == s;
    } else {
      SkipsSpace(gap[1..], s);
      assert (gap + s)[1..] == gap[1..] + s;
    }
  }

  lemma GapStep(gap: string, s: string, fmt: seq<Directive>)
    requires AllSpace(gap) && (s == "" || !IsSpace(s[0]))
    ensures Scan(gap + s, [Space] + fmt) == Scan(s, fmt)
  {
    SkipsSpace(gap, s);
    hide SkipSpace;
    assert SkipSpace(s) == s by {
      SkipsNone(s);
    }
    assert ([Space] + fmt)[1..] == fmt;
  }

  lemma SkipsNone(s: string)
    requires s == "" || !IsSpace(s[0])
    ensures SkipSpace(s) == s
  {}

  ghost predicate AllDashes(s: string) { forall i :: 0 <= i < |s| ==> s[i] == '-' || s[i] == ',' }

  lemma {:induction false} DashRunStops(d: string, s: string)
    requires AllDashes(d) && (s == "" || (s[0] != '-' && s[0] != ','))
    ensures DashRun(d + s) == |d|
  {
    if d == "" {
      assert d + s == s;
    } else {
      DashRunStops(d[1..], s);
      assert (d + s)[1..] == d[1..] + s;
    }
  }

  lemma DashesStep(d: string, s: string, fmt: seq<Directive>)
    requires d != "" && AllDashes(d) && (s == "" || (s[0] != '-' && s[0] != ','))
    ensures Scan(d + s, [Dashes] + fmt) == Scan(s, fmt)
  {
    hide DashRun;
    DashRunStops(d, s);
    assert ([Dashes] + fmt)[1..] == fmt && (d + s)[|d|..] == s;
  }

  // ---- p2p lines -------------------------------------------------------------------------------

  /** A p2p line: a label, a colon, the range, and anything that does not go on with a digit. */
  function P2pLine(tag: string, r: Range, tail: string): string { tag + (":" + RangeText(r, tail)) }

  function RangeText(r: Range, tail: string): string { Dotted(r.min) + ("-" + (Dotted(r.max) + tail)) }

  lemma RangeTextScans(r: Range, tail: string)
    requires tail == "" || !IsDigit(tail[0])
    ensures Scan(RangeText(r, tail), RANGE) == Scanned(8, Bytes(r.min) + Bytes(r.max))
  {
    hide Scan, Dotted, Bytes;
    ScanNothing(tail);
    ScanDotted(r.max, tail, []);
    assert QUAD + [] == QUAD && Bytes(r.max) + [] == Bytes(r.max);
    var s := Dotted(r.max) + tail;
    LitStep('-', s, QUAD);
    assert ['-'] + s == "-" + s;
    ScanDotted(r.min, "-" + s, [Lit('-')] + QUAD);
  }

  lemma RangeOfBytes(r: Range, more: seq<int>)
    ensures var ints: seq<int> := (Bytes(r.min) + Bytes(r.max)) + more; |ints| >= 8 && RangeOf(ints) == r
  {
    hide Bytes, Ip2Int;
    var ints: seq<int> := (Bytes(r.min) + Bytes(r.max)) + more;
    BytesLength(r.min);
    BytesLength(r.max);
    assert ints[..4] == Bytes(r.min) && ints[4..8] == Bytes(r.max);
    Ip2IntInverts(r.min);
    Ip2IntInverts(r.max);
  }

  lemma P2pScans(tag: string, r: Range, tail: string)
    requires NoColon(tag) && 1 <= |tag| <= 299 && (tail == "" || !IsDigit(tail[0]))
    ensures Scan(P2pLine(tag, r, tail), P2P) == Scanned(9, Bytes(r.min) + Bytes(r.max))
  {
    hide Scan, Dotted, Bytes, QUAD, RangeText;
    RangeTextScans(r, tail);
    var s := RangeText(r, tail);
    LitStep(':', s, RANGE);
    assert [':'] + s == ":" + s;
    LabelStep(tag, ":" + s, [Lit(':')] + RANGE);
    assert P2P == [Label] + ([Lit(':')] + RANGE);
  }

  /** A label that is empty or longer than 299 characters keeps a line from being a p2p line. */
  lemma P2pNeedsLabel(tag: string, r: Range, tail: string)
    requires NoColon(tag) && (tag == "" || |tag| > 299)
    ensures Scan(P2pLine(tag, r, tail), P2P).count <= 1
  {
    hide QUAD, RANGE, RangeText;
    var s := P2pLine(tag, r, tail);
    var rest := [Lit(':')] + (QUAD + ([Lit('-')] + QUAD));
    assert P2P == [Label] + rest && ([Label] + rest)[1..] == rest;
    if tag == "" {
      assert s[0] == ':';
    } else {
      var l, m := tag[..299], tag[299..] + (":" + RangeText(r, tail));
      assert s == l + m && m[0] == tag[299];
      LabelRunStops(l, m, 299);
      assert s[299..] == m;
      assert Scan(m, rest) == Scanned(0, []);
    }
  }

  /** Every p2p line loads as its range, first end first. */
  lemma P2pLineLoads(tag: string, r: Range, tail: string)
    requires NoColon(tag) && 1 <= |tag| <= 299 && (tail == "" || !IsDigit(tail[0]))
    ensures ParseLine(P2pLine(tag, r, tail)) == Loaded(r)
  {
    hide Scan, Bytes, RangeOf, P2pLine;
    P2pScans(tag, r, tail);
    RangeOfBytes(r, []);
    assert (Bytes(r.min) + Bytes(r.max)) + [] == Bytes(r.min) + Bytes(r.max);
  }

  // ---- ipfilter.dat lines --------------------------------------------------------------------------

  /** The white space of an ipfilter.dat line, and what stands between its two addresses. */
  datatype Layout = Layout(g1: string, dashes: string, g2: string, g3: string, g4: string, g5: string, g6: string)

  ghost predicate LaidOut(x: Layout) {
    && AllSpace(x.g1) && AllSpace(x.g2) && AllSpace(x.g3) && AllSpace(x.g4) && AllSpace(x.g5) && AllSpace(x.g6)
    && x.dashes != "" && AllDashes(x.dashes)
  }

  /** After the second address: a comma, the level, a comma and the name. */
  function LevelText(x: Layout, level: nat, name: string): string {
    x.g3 + ("," + (x.g4 + (Decimal(level) + (x.g5 + ("," + (x.g6 + name))))))
  }

  function DatLine(x: Layout, r: Range, level: nat, name: string): string {
    Dotted(r.min) + (x.g1 + (x.dashes + (x.g2 + (Dotted(r.max) + LevelText(x, level, name)))))
  }

  const LEVEL := [Space, Lit(','), Space, Int, Space, Lit(','), Space, Label]

  lemma {:induction false} FirstWord(name: string)
    ensures SkipSpace(name) == "" <==> AllSpace(name)
    ensures NoColon(name) ==> NoColon(SkipSpace(name))
    ensures SkipSpace(name) != "" ==> !IsSpace(SkipSpace(name)[0])
  {
    if name != "" && IsSpace(name[0]) {
      FirstWord(name[1..]);
    }
  }

  /** The name counts if there is one; white space alone is none. */
  lemma NameScans(gap: string, name: string)
    requires AllSpace(gap) && NoColon(name)
    ensures Scan(gap + name, [Space, Label]) == Scanned(if AllSpace(name) then 0 else 1, [])
  {
    hide SkipSpace, AllSpace;
    FirstWord(name);
    SkipsSpace(gap, name);
    var s := SkipSpace(name);
    assert Scan(gap + name, [Space, Label]) == Scan(s, [Label]) by {
      assert [Space, Label][1..] == [Label];
    }
    assert [Label][1..] == [];
    if s != "" {
      assert LabelRun(s, 299) > 0;
      ScanNothing(s[LabelRun(s, 299)..]);
    }
  }

  lemma LevelScans(x: Layout, level: nat, name: string)
    requires LaidOut(x) && NoColon(name)
    ensures Scan(LevelText(x, level, name), LEVEL) == Scanned(if AllSpace(name) then 1 else 2, [level])
  {
    hide Scan, Decimal, AllSpace, AllDashes;
    var s6 := x.g6 + name;
    NameScans(x.g6, name);
    var s5 := x.g5 + ("," + s6);
    LitStep(',', s6, [Space, Label]);
    assert [','] + s6 == "," + s6 && [Lit(',')] + [Space, Label] == [Lit(','), Space, Label];
    GapStep(x.g5, "," + s6, [Lit(','), Space, Label]);
    assert [Space] + [Lit(','), Space, Label] == [Space, Lit(','), Space, Label];
    GapNoDigit(x.g5, s6);
    IntStep(level, s5, [Space, Lit(','), Space, Label]);
    LevelFront(x, level, s5);
  }

  lemma GapNoDigit(gap: string, s: string)
    requires AllSpace(gap)
    ensures !IsDigit((gap + ("," + s))[0])
  {}

  /** The white space and the comma before the level. */
  lemma LevelFront(x: Layout, level: nat, s: string)
    requires LaidOut(x)
    ensures Scan(x.g3 + ("," + (x.g4 + (Decimal(level) + s))), LEVEL) ==
      Scan(Decimal(level) + s, [Int] + [Space, Lit(','), Space, Label])
  {
    hide Scan, Decimal, AllSpace, AllDashes;
    var f := [Int] + [Space, Lit(','), Space, Label];
    var t := Decimal(level) + s;
    DecimalStarts(level, s);
    GapStep(x.g4, t, f);
    LitStep(',', x.g4 + t, [Space] + f);
    assert [','] + (x.g4 + t) == "," + (x.g4 + t);
    GapStep(x.g3, "," + (x.g4 + t), [Lit(',')] + ([Space] + f));
    assert [Space] + ([Lit(',')] + ([Space] + f)) == LEVEL;
  }

  lemma DecimalStarts(n: nat, s: string)
    ensures Decimal(n) + s != "" && IsDigit((Decimal(n) + s)[0])
  {
    DecimalDigits(n);
  }

  lemma DottedStartsText(ip: Ip, s: string)
    ensures Dotted(ip) + s != "" && IsDigit((Dotted(ip) + s)[0])
  {
    DottedStarts(ip);
  }

  lemma DatScans(x: Layout, r: Range, level: nat, name: string)
    requires LaidOut(x) && NoColon(name)
    ensures Scan(DatLine(x, r, level, name), DAT) ==
      Scanned(if AllSpace(name) then 9 else 10, (Bytes(r.min) + Bytes(r.max)) + [level])
  {
    hide Scan, Dotted, Bytes, AllSpace, AllDashes, LevelText, QUAD, LEVEL;
    var s := LevelText(x, level, name);
    LevelScans(x, level, name);
    LevelStart(x, level, name);
    ScanDotted(r.max, s, LEVEL);
    var t := Dotted(r.max) + s;
    DottedStartsText(r.max, s);
    GapStep(x.g2, t, QUAD + LEVEL);
    var f := [Space] + (QUAD + LEVEL);
    DashesBefore(x, t, f);
    ScanDotted(r.min, x.g1 + (x.dashes + (x.g2 + t)), [Space] + ([Dashes] + f));
    DatIs();
    assert Bytes(r.min) + (Bytes(r.max) + [level]) == (Bytes(r.min) + Bytes(r.max)) + [level];
  }

  lemma DatIs()
    ensures DAT == QUAD + ([Space] + ([Dashes] + ([Space] + (QUAD + LEVEL))))
  {
    hide QUAD;
    assert [Space, Dashes, Space] + (QUAD + LEVEL) == [Space] + ([Dashes] + ([Space] + (QUAD + LEVEL)));
  }

  lemma LevelStart(x: Layout, level: nat, name: string)
    requires LaidOut(x)
    ensures var s := LevelText(x, level, name); s != "" && !IsDigit(s[0])
  {
    hide Decimal;
  }

  lemma DashesBefore(x: Layout, t: string, f: seq<Directive>)
    requires LaidOut(x) && t != "" && IsDigit(t[0])
    ensures var s := x.g1 + (x.dashes + (x.g2 + t));
      !IsDigit(s[0]) && Scan(s, [Space] + ([Dashes] + f)) == Scan(x.g2 + t, f)
  {
    hide Scan;
    var u := x.g2 + t;
    DashesStep(x.dashes, u, f);
    GapStep(x.g1, x.dashes + u, [Dashes] + f);
  }

  lemma DatNoColon(x: Layout, r: Range, level: nat, name: string)
    requires LaidOut(x) && NoColon(name)
    ensures NoColon(DatLine(x, r, level, name))
  {
    hide Dotted, Decimal;
    DottedIsPlain(r.min);
    DottedIsPlain(r.max);
    DecimalDigits(level);
    LevelNoColon(x, level, name);
    hide LevelText;
  }

  lemma LevelNoColon(x: Layout, level: nat, name: string)
    requires LaidOut(x) && NoColon(name)
    ensures NoColon(LevelText(x, level, name))
  {
    DecimalDigits(level);
    hide Decimal;
  }

  /** Every ipfilter.dat line with a name loads as its range if its level is at most 127, and is skipped otherwise. */
  lemma DatLineLoads(x: Layout, r: Range, level: nat, name: string)
    requires LaidOut(x) && NoColon(name) && !AllSpace(name)
    ensures ParseLine(DatLine(x, r, level, name)) == if level <= 127 then Loaded(r) else Skipped
  {
    hide Scan, Bytes, RangeOf, DatLine, LaidOut, NoColon, AllSpace;
    DatScans(x, r, level, name);
    DatNoColon(x, r, level, name);
    NoColonNoP2p(DatLine(x, r, level, name));
    RangeOfBytes(r, [level]);
    LevelAt(r, level);
  }

  lemma LevelAt(r: Range, level: int)
    ensures var ints: seq<int> := (Bytes(r.min) + Bytes(r.max)) + [level]; |ints| == 9 && ints[8] == level
  {
    BytesLength(r.min);
    BytesLength(r.max);
  }

  // ---- comments ------------------------------------------------------------------------------------

  /** An empty line, or one without a colon that does not begin as a number could. */
  ghost predicate IsComment(s: string) {
    NoColon(s) && (s == "" || !(IsSpace(s[0]) || IsDigit(s[0]) || s[0] == '-' || s[0] == '+'))
  }

  lemma CommentRejected(s: string)
    requires IsComment(s)
    ensures ParseLine(s) == Rejected
  {
    NoColonNoP2p(s);
    DatIs();
    var f := [Space] + ([Dashes] + ([Space] + (QUAD + LEVEL)));
    NoNumber(s, [Lit('.'), Int, Lit('.'), Int, Lit('.'), Int] + f);
    NoNumber(s, [Lit('.'), Int, Lit('.'), Int, Lit('.'), Int] + ([Lit('-')] + QUAD));
    assert DAT == [Int] + ([Lit('.'), Int, Lit('.'), Int, Lit('.'), Int] + f);
    assert RANGE == [Int] + ([Lit('.'), Int, Lit('.'), Int, Lit('.'), Int] + ([Lit('-')] + QUAD));
    hide Scan;
  }

  lemma NoNumber(s: string, fmt: seq<Directive>)
    requires IsComment(s)
    ensures Scan(s, [Int] + fmt) == Scanned(0, [])
  {
    assert ScanInt(s).NoInt?;
  }

  // ---- a file ------------------------------------------------------------------------------------------

  datatype Item =
    | Bare(range: Range)
    | P2p(tag: string, range: Range, tail: string)
    | Dat(layout: Layout, range: Range, level: nat, name: string)
    | Comment(text: string)

  function TextOf(e: Item): string {
    match e
    case Bare(r) => DumpLine(r)
    case P2p(tag, r, tail) => P2pLine(tag, r, tail)
    case Dat(x, r, level, name) => DatLine(x, r, level, name)
    case Comment(text) => text
  }

  /** Items as they are written down: on one line, a label short enough, a name that is more than white space. */
  ghost predicate Proper(e: Item) {
    match e
    case Bare(_) => true
    case P2p(tag, _, tail) =>
      NoColon(tag) && 1 <= |tag| <= 299 && (tail == "" || !IsDigit(tail[0])) && OneLine(TextOf(e))
    case Dat(x, _, _, name) => LaidOut(x) && NoColon(name) && !AllSpace(name) && OneLine(TextOf(e))
    case Comment(text) => IsComment(text) && OneLine(text)
  }

  ghost predicate OneLine(s: string) { forall i :: 0 <= i < |s| ==> s[i] != '\r' && s[i] != '\n' }

  /** The ranges that an item is there to block. */
  function Blocked(e: Item): seq<Range> {
    match e
    case Bare(r) => [r]
    case P2p(_, r, _) => [r]
    case Dat(_, r, level, _) => if level <= 127 then [r] else []
    case Comment(_) => []
  }

  function AllBlocked(es: seq<Item>): seq<Range> {
    if es == [] then [] else AllBlocked(es[..|es| - 1]) + Blocked(es[|es| - 1])
  }

  predicate LineEnd(eol: string) { eol == "\n" || eol == "\r\n" }

  function Written(es: seq<Item>, eol: string): (lines: seq<string>)
    ensures |lines| == |es| && forall i :: 0 <= i < |es| ==> lines[i] == TextOf(es[i]) + eol
  {
    seq(|es|, i requires 0 <= i < |es| => TextOf(es[i]) + eol)
  }

  lemma {:induction false} StripLine(s: string, eol: string)
    requires OneLine(s) && LineEnd(eol)
    ensures StripCrlf(s + eol) == s
  {
    if s == "" {
      assert s + eol == eol;
    } else {
      StripLine(s[1..], eol);
      assert (s + eol)[1..] == s[1..] + eol;
    }
  }

  lemma BareOneLine(r: Range)
    ensures OneLine(DumpLine(r))
  {
    hide DumpLine;
    DumpIsPlain(r);
  }

  lemma ItemLoads(e: Item, eol: string)
    requires Proper(e) && LineEnd(eol)
    ensures LineRange(TextOf(e) + eol) == Blocked(e)
  {
    hide ParseLine, StripCrlf, DumpLine, P2pLine, DatLine, OneLine, LaidOut, AllSpace, IsComment;
    match e {
      case Bare(r) => BareOneLine(r);
      case _ =>
    }
    StripLine(TextOf(e), eol);
    match e
    case Bare(r) => DumpLineLoads(r);
    case P2p(tag, r, tail) => P2pLineLoads(tag, r, tail);
    case Dat(x, r, level, name) => DatLineLoads(x, r, level, name);
    case Comment(text) => CommentRejected(text);
  }

  /** A list file of any mixture of such lines loads exactly the ranges they are there to block, in order. */
  lemma {:induction false} WrittenLoads(es: seq<Item>, eol: string)
    requires (forall e :: e in es ==> Proper(e)) && LineEnd(eol)
    ensures LineRanges(Written(es, eol)) == AllBlocked(es)
  {
    hide LineRange, Proper, TextOf, Blocked, LineEnd;
    if es != [] {
      var init, last := es[..|es| - 1], es[|es| - 1];
      WrittenLoads(init, eol);
      ItemLoads(last, eol);
      assert Written(es, eol)[..|es| - 1] == Written(init, eol);
    }
  }

  lemma {:induction false} BlockedBy(es: seq<Item>, r: Range)
    ensures r in AllBlocked(es) <==> exists e :: e in es && r in Blocked(e)
  {
    hide Blocked;
    if es != [] {
      var init, last := es[..|es| - 1], es[|es| - 1];
      BlockedBy(init, r);
      assert es == init + [last];
    }
  }
}
