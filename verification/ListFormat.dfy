/**
 The text formats of src/pgld/parser.c, and the format blocklist_dump writes in the LOWMEM build.
 */
module ListFormat {
  import opened Ranges
  import opened Text

  // ---- sscanf -----------------------------------------------------------------------------

  /** The directives the loader uses: a literal, white space, %d, %299[^:] and %*[-,]. */
  datatype Directive = Lit(c: char) | Space | Int | Label | Dashes

  /** How many conversions were assigned, and the integers among them. */
  datatype Scanned = Scanned(count: nat, ints: seq<int>)

  function LabelRun(s: string, width: nat): (n: nat)
    ensures n <= |s| && n <= width
    ensures n < |s| && n < width ==> s[n] == ':'
  {
    if s == "" || width == 0 || s[0] == ':' then 0 else 1 + LabelRun(s[1..], width - 1)
  }

  function DashRun(s: string): (n: nat)
    ensures n <= |s|
  {
    if s == "" || !(s[0] == '-' || s[0] == ',') then 0 else 1 + DashRun(s[1..])
  }

  function Scan(s: string, fmt: seq<Directive>): Scanned
    decreases |fmt|
  {
    if fmt == [] then Scanned(0, [])
    else
      match fmt[0]
      case Lit(c) => if s != "" && s[0] == c then Scan(s[1..], fmt[1..]) else Scanned(0, [])
      case Space => Scan(SkipSpace(s), fmt[1..])
      case Int =>
        (match ScanInt(s)
         case NoInt => Scanned(0, [])
         case IntScan(v, rest) => var r := Scan(rest, fmt[1..]); Scanned(r.count + 1, [v] + r.ints))
      case Label =>
        var n := LabelRun(s, 299);
        if n == 0 then Scanned(0, []) else var r := Scan(s[n..], fmt[1..]); Scanned(r.count + 1, r.ints)
      case Dashes =>
        var n := DashRun(s);
        if n == 0 then Scanned(0, []) else Scan(s[n..], fmt[1..])
  }

  // ---- the three formats ---------------------------------------------------------------------

  const QUAD := [Int, Lit('.'), Int, Lit('.'), Int, Lit('.'), Int]
  const P2P := [Label, Lit(':')] + (QUAD + ([Lit('-')] + QUAD))
  const DAT := QUAD + ([Space, Dashes, Space] + (QUAD + [Space, Lit(','), Space, Int, Space, Lit(','), Space, Label]))
  const RANGE := QUAD + ([Lit('-')] + QUAD)

  lemma {:induction false} ScanInts(s: string, fmt: seq<Directive>)
    ensures |Scan(s, fmt).ints| <= Scan(s, fmt).count
    ensures Scan(s, fmt).count <= |Scan(s, fmt).ints| + Labels(fmt)
    decreases |fmt|
  {
    if fmt != [] {
      match fmt[0]
      case Lit(c) => if s != "" && s[0] == c { ScanInts(s[1..], fmt[1..]); }
      case Space => ScanInts(SkipSpace(s), fmt[1..]);
      case Int => if ScanInt(s).IntScan? { ScanInts(ScanInt(s).rest, fmt[1..]); }
      case Label => if LabelRun(s, 299) != 0 { ScanInts(s[LabelRun(s, 299)..], fmt[1..]); }
      case Dashes => if DashRun(s) != 0 { ScanInts(s[DashRun(s)..], fmt[1..]); }
    }
  }

  function Labels(fmt: seq<Directive>): nat {
    if fmt == [] then 0 else (if fmt[0] == Label then 1 else 0) + Labels(fmt[1..])
  }

  lemma {:induction false} LabelsConcat(a: seq<Directive>, b: seq<Directive>)
    ensures Labels(a + b) == Labels(a) + Labels(b)
  {
    if a == [] {
      assert a + b == b;
    } else {
      LabelsConcat(a[1..], b);
      assert (a + b)[1..] == a[1..] + b;
    }
  }

  lemma FormatLabels()
    ensures Labels(QUAD) == 0 && Labels(RANGE) == 0 && Labels(P2P) == 1 && Labels(DAT) == 1
  {
    var tail := [Space, Lit(','), Space, Int, Space, Lit(','), Space, Label];
    QuadHasNoLabel();
    LabelsConcat([Lit('-')], QUAD);
    LabelsConcat(QUAD, [Lit('-')] + QUAD);
    LabelsConcat([Label, Lit(':')], RANGE);
    ShortLabels();
    LabelsConcat(QUAD, tail);
    LabelsConcat([Space, Dashes, Space], QUAD + tail);
    LabelsConcat(QUAD, [Space, Dashes, Space] + (QUAD + tail));
  }

  lemma QuadHasNoLabel()
    ensures Labels(QUAD) == 0
  {
    assert QUAD == [Int, Lit('.'), Int, Lit('.')] + [Int, Lit('.'), Int];
    LabelsConcat([Int, Lit('.'), Int, Lit('.')], [Int, Lit('.'), Int]);
    assert Labels([Int, Lit('.'), Int, Lit('.')]) == 0;
    assert Labels([Int, Lit('.'), Int]) == 0;
  }

  lemma ShortLabels()
    ensures Labels([Lit('-')]) == 0 && Labels([Label, Lit(':')]) == 1 && Labels([Space, Dashes, Space]) == 0
    ensures Labels([Space, Lit(','), Space, Int, Space, Lit(','), Space, Label]) == 1
  {
    LabelsConcat([Space, Lit(','), Space, Int], [Space, Lit(','), Space, Label]);
    assert [Space, Lit(','), Space, Int] + [Space, Lit(','), Space, Label] ==
      [Space, Lit(','), Space, Int, Space, Lit(','), Space, Label];
    assert Labels([Space, Lit(','), Space, Int]) == 0;
    assert Labels([Space, Lit(','), Space, Label]) == 1;
  }

  /** ip2int: shifts and sums of ints, stored in 32 bits. */
  function Ip2Int(i: seq<int>): Ip
    requires |i| == 4
  {
    (i[0] * 0x100_0000 + i[1] * 0x1_0000 + i[2] * 0x100 + i[3]) % 0x1_0000_0000
  }

  function RangeOf(ints: seq<int>): Range
    requires |ints| >= 8
  {
    Range(Ip2Int(ints[..4]), Ip2Int(ints[4..8]))
  }

  lemma FormatInts(s: string)
    ensures Scan(s, P2P).count == 9 ==> |Scan(s, P2P).ints| >= 8
    ensures Scan(s, DAT).count == 10 ==> |Scan(s, DAT).ints| >= 9
    ensures Scan(s, RANGE).count == 8 ==> |Scan(s, RANGE).ints| >= 8
  {
    hide *;
    FormatLabels();
    ScanInts(s, P2P);
    ScanInts(s, DAT);
    ScanInts(s, RANGE);
  }

  datatype Line = Rejected | Skipped | Loaded(range: Range)

  /** One line of loadlist_ascii: p2p, else ipfilter.dat, else a bare range. */
  function ParseLine(s: string): Line {
    var p2p, dat, range := Scan(s, P2P), Scan(s, DAT), Scan(s, RANGE);
    FormatInts(s);
    if p2p.count == 9 then Loaded(RangeOf(p2p.ints))
    else if dat.count == 10 then (if dat.ints[8] <= 127 then Loaded(RangeOf(dat.ints)) else Skipped)
    else if range.count == 8 then Loaded(RangeOf(range.ints))
    else Rejected
  }

  // ---- int2ip and blocklist_dump -----------------------------------------------------------------

  function Bytes(ip: Ip): seq<nat> { [ip / 0x100_0000, ip / 0x1_0000 % 0x100, ip / 0x100 % 0x100, ip % 0x100] }

  /** inet_ntop. */
  function Dotted(ip: Ip): string {
    Decimal(ip / 0x100_0000) + ("." + (Decimal(ip / 0x1_0000 % 0x100)
    + ("." + (Decimal(ip / 0x100 % 0x100) + ("." + Decimal(ip % 0x100))))))
  }

  /** One line of blocklist_dump, without its newline. */
  function DumpLine(r: Range): string { Dotted(r.min) + ("-" + Dotted(r.max)) }

  lemma Ip2IntInverts(ip: Ip)
    ensures Ip2Int(Bytes(ip)) == ip
  {
    var a, b, c := ip / 0x100, ip / 0x1_0000, ip / 0x100_0000;
    assert a / 0x100 == b && b / 0x100 == c;
    assert ip == 0x100 * a + ip % 0x100 && a == 0x100 * b + a % 0x100 && b == 0x100 * c + b % 0x100;
  }

  // ---- reading a dumped line ------------------------------------------------------------------------

  lemma LitStep(c: char, s: string, fmt: seq<Directive>)
    ensures Scan([c] + s, [Lit(c)] + fmt) == Scan(s, fmt)
  {
    assert ([c] + s)[1..] == s && ([Lit(c)] + fmt)[1..] == fmt;
  }

  lemma IntStep(n: nat, s: string, fmt: seq<Directive>)
    requires s == "" || !IsDigit(s[0])
    ensures Scan(Decimal(n) + s, [Int] + fmt) == Scanned(Scan(s, fmt).count + 1, [n] + Scan(s, fmt).ints)
  {
    ScanDecimal(n, s);
    hide ScanInt, Decimal;
    assert ([Int] + fmt)[1..] == fmt;
  }

  /** Reading a dotted address with %d.%d.%d.%d leaves the rest of the line to the rest of the format. */
  lemma ScanDotted(ip: Ip, s: string, fmt: seq<Directive>)
    requires s == "" || !IsDigit(s[0])
    ensures Scan(Dotted(ip) + s, QUAD + fmt) == Scanned(Scan(s, fmt).count + 4, Bytes(ip) + Scan(s, fmt).ints)
  {
    hide Scan, Decimal;
    var d0, d1, d2, d3 := Bytes(ip)[0], Bytes(ip)[1], Bytes(ip)[2], Bytes(ip)[3];
    var s3 := Decimal(d3) + s;
    var s2 := Decimal(d2) + (['.'] + s3);
    var s1 := Decimal(d1) + (['.'] + s2);
    var s0 := Decimal(d0) + (['.'] + s1);
    var f3 := [Int] + fmt;
    var f2 := [Int] + ([Lit('.')] + f3);
    var f1 := [Int] + ([Lit('.')] + f2);
    var f0 := [Int] + ([Lit('.')] + f1);
    assert QUAD + fmt == f0;
    assert Dotted(ip) + s == s0 by {
      DottedParts(ip, s);
    }
    IntStep(d3, s, fmt);
    LitStep('.', s3, f3);
    IntStep(d2, ['.'] + s3, [Lit('.')] + f3);
    LitStep('.', s2, f2);
    IntStep(d1, ['.'] + s2, [Lit('.')] + f2);
    LitStep('.', s1, f1);
    IntStep(d0, ['.'] + s1, [Lit('.')] + f1);
    assert [d0] + ([d1] + ([d2] + ([d3] + Scan(s, fmt).ints))) == Bytes(ip) + Scan(s, fmt).ints;
  }

  lemma DottedParts(ip: Ip, s: string)
    ensures var b := Bytes(ip);
      Dotted(ip) + s ==
        Decimal(b[0]) + (['.'] + (Decimal(b[1]) + (['.'] + (Decimal(b[2]) + (['.'] + (Decimal(b[3]) + s))))))
  {
    hide Decimal;
  }

  /** A bare range line is claimed by the third format alone, and gives the range back. */
  lemma DumpLineLoads(r: Range)
    ensures ParseLine(DumpLine(r)) == Loaded(r)
  {
    hide *;
    NotP2p(r);
    NotDat(r);
    IsRange(r);
    ParseLineIs(DumpLine(r));
  }

  lemma ParseLineIs(s: string)
    requires |Scan(s, RANGE).ints| >= 8 && Scan(s, RANGE).count == 8
    requires Scan(s, P2P).count != 9 && Scan(s, DAT).count != 10
    ensures ParseLine(s) == Loaded(RangeOf(Scan(s, RANGE).ints))
  {
    hide Scan;
  }

  lemma IsRange(r: Range)
    ensures var x := Scan(DumpLine(r), RANGE); x.count == 8 && |x.ints| >= 8 && RangeOf(x.ints) == r
  {
    hide Scan, Dotted, Bytes, Ip2Int;
    assert Scan("", []) == Scanned(0, []) by {
      ScanNothing("");
    }
    ScanDotted(r.max, "", []);
    assert QUAD + [] == QUAD && Dotted(r.max) + "" == Dotted(r.max);
    LitStep('-', Dotted(r.max), QUAD);
    assert ['-'] + Dotted(r.max) == "-" + Dotted(r.max);
    ScanDotted(r.min, "-" + Dotted(r.max), [Lit('-')] + QUAD);
    var x := Scan(DumpLine(r), RANGE);
    BytesLength(r.min);
    BytesLength(r.max);
    assert x.ints[..4] == Bytes(r.min) && x.ints[4..8] == Bytes(r.max);
    Ip2IntInverts(r.min);
    Ip2IntInverts(r.max);
  }

  lemma ScanNothing(s: string)
    ensures Scan(s, []) == Scanned(0, [])
  {}

  lemma BytesLength(ip: Ip)
    ensures |Bytes(ip)| == 4
  {}

  // ---- why the first two formats fail --------------------------------------------------------------

  /** Nothing but digits, dots and dashes. */
  ghost predicate Plain(s: string) { forall i :: 0 <= i < |s| ==> IsDigit(s[i]) || s[i] == '.' || s[i] == '-' }

  lemma DumpIsPlain(r: Range)
    ensures Plain(DumpLine(r)) && DumpLine(r) != ""
  {
    DottedIsPlain(r.min);
    DottedIsPlain(r.max);
    hide Dotted;
  }

  lemma DottedIsPlain(ip: Ip)
    ensures Plain(Dotted(ip)) && Dotted(ip) != ""
  {
    DecimalDigits(Bytes(ip)[0]);
    DecimalDigits(Bytes(ip)[1]);
    DecimalDigits(Bytes(ip)[2]);
    DecimalDigits(Bytes(ip)[3]);
    hide Decimal;
  }

  /** The label takes the line, and then there is no colon. */
  lemma NotP2p(r: Range)
    ensures Scan(DumpLine(r), P2P).count == 1
  {
    var s := DumpLine(r);
    DumpIsPlain(r);
    hide DumpLine, QUAD;
    var n := LabelRun(s, 299);
    assert n > 0;
    var rest := [Lit(':')] + (QUAD + ([Lit('-')] + QUAD));
    assert P2P == [Label] + rest;
    assert ([Label] + rest)[1..] == rest;
    assert Scan(s[n..], rest) == Scanned(0, []);
  }

  lemma NotDat(r: Range)
    ensures Scan(DumpLine(r), DAT).count == 8
  {
    hide Scan, Dotted, Bytes, QUAD;
    var tail := [Space, Lit(','), Space, Int, Space, Lit(','), Space, Label];
    DatTail();
    ScanDotted(r.max, "", tail);
    assert Dotted(r.max) + "" == Dotted(r.max);
    DatMiddle(r.max, QUAD + tail);
    ScanDotted(r.min, "-" + Dotted(r.max), [Space, Dashes, Space] + (QUAD + tail));
  }

  lemma DatTail()
    ensures Scan("", [Space, Lit(','), Space, Int, Space, Lit(','), Space, Label]) == Scanned(0, [])
  {
    var fmt := [Lit(','), Space, Int, Space, Lit(','), Space, Label];
    assert [Space, Lit(','), Space, Int, Space, Lit(','), Space, Label][1..] == fmt;
    assert Scan("", fmt) == Scanned(0, []);
  }

  lemma DatMiddle(ip: Ip, fmt: seq<Directive>)
    ensures Scan("-" + Dotted(ip), [Space, Dashes, Space] + fmt) == Scan(Dotted(ip), fmt)
  {
    hide Dotted, Scan;
    DottedStarts(ip);
    SpaceStep(Dotted(ip), fmt);
    DashStep(Dotted(ip), [Space] + fmt);
    SpaceStep("-" + Dotted(ip), [Dashes] + ([Space] + fmt));
    assert [Space, Dashes, Space] + fmt == [Space] + ([Dashes] + ([Space] + fmt));
  }

  lemma DottedStarts(ip: Ip)
    ensures Dotted(ip) != "" && IsDigit(Dotted(ip)[0])
  {
    DecimalDigits(Bytes(ip)[0]);
    hide Decimal;
  }

  lemma SpaceStep(s: string, fmt: seq<Directive>)
    requires s != "" && !IsSpace(s[0])
    ensures Scan(s, [Space] + fmt) == Scan(s, fmt)
  {
    assert ([Space] + fmt)[1..] == fmt;
  }

  lemma DashStep(s: string, fmt: seq<Directive>)
    requires s != "" && IsDigit(s[0])
    ensures Scan("-" + s, [Dashes] + fmt) == Scan(s, fmt)
  {
    assert ([Dashes] + fmt)[1..] == fmt && ("-" + s)[1..] == s;
    assert DashRun(s) == 0 && DashRun("-" + s) == 1;
  }

  // ---- lines -------------------------------------------------------------------------------------------

  /** strip_crlf: cut at the first carriage return or newline. */
  function StripCrlf(s: string): string {
    if s == "" || s[0] == '\r' || s[0] == '\n' then "" else [s[0]] + StripCrlf(s[1..])
  }

  lemma {:induction false} StripPlain(s: string)
    requires Plain(s)
    ensures StripCrlf(s + "\n") == s
  {
    if s != "" {
      StripPlain(s[1..]);
      assert (s + "\n")[1..] == s[1..] + "\n";
    }
  }

  /** The ranges that the lines of a text file load, in order. */
  function LineRanges(lines: seq<string>): seq<Range> {
    if lines == [] then []
    else LineRanges(lines[..|lines| - 1]) + LineRange(lines[|lines| - 1])
  }

  function LineRange(line: string): (r: seq<Range>)
    ensures |r| <= 1
  {
    match ParseLine(StripCrlf(line))
    case Loaded(range) => [range]
    case _ => []
  }

  /** blocklist_dump. */
  function Dump(s: seq<Range>): (lines: seq<string>)
    ensures |lines| == |s| && forall i :: 0 <= i < |s| ==> lines[i] == DumpLine(s[i]) + "\n"
  {
    seq(|s|, i requires 0 <= i < |s| => DumpLine(s[i]) + "\n")
  }

  /** Loading a dump gives the same ranges in the same order. */
  lemma {:induction false} DumpLoads(s: seq<Range>)
    ensures LineRanges(Dump(s)) == s
  {
    hide ParseLine, DumpLine, StripCrlf;
    if s != [] {
      var init, last := s[..|s| - 1], s[|s| - 1];
      DumpLoads(init);
      DumpIsPlain(last);
      StripPlain(DumpLine(last));
      DumpLineLoads(last);
      assert Dump(s)[..|s| - 1] == Dump(init);
    }
  }
}
