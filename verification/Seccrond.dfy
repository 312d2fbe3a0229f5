/**
 The cron daemon of src/seccrond/seccrond.c: crontab fields, matching them against the clock, and
 the table of running jobs.
 */
module CronField {
  import opened Text
  import opened Wrappers

  datatype Field =
    | Wildcard
    | Number(v: int)
    | Span(first: int, last: int)
    | Repeat(step: int)
    | List(vals: seq<int>)

  /** What parsefield promises of a field it accepts: values within the limits, no zero step. */
  ghost predicate WellFormed(f: Field, low: int, high: int) {
    match f
    case Wildcard => true
    case Number(v) => low <= v <= high
    case Span(a, b) => low <= a <= high && low <= b <= high
    case Repeat(v) => low <= v <= high && v != 0
    case List(vals) => |vals| >= 2 && InLimits(vals, low, high)
  }

  ghost predicate InLimits(vals: seq<int>, low: int, high: int) {
    forall i :: 0 <= i < |vals| ==> low <= vals[i] <= high
  }

  // ---- strtol ------------------------------------------------------------------------------

  /** A long, as on the 64-bit platforms. */
  type Long = x: int | -0x8000_0000_0000_0000 <= x <= 0x7FFF_FFFF_FFFF_FFFF

  predicate Fits(v: int) { -0x8000_0000_0000_0000 <= v <= 0x7FFF_FFFF_FFFF_FFFF }

  /** The number that the text begins with, and what follows it; zero and the whole text if there is none. */
  function Numeral(s: string): (r: (int, string))
    ensures |r.1| <= |s|
  {
    match ScanInt(s)
    case NoInt => (0, s)
    case IntScan(v, rest) => (v, rest)
  }

  datatype Converted = Converted(value: Long, rest: string, range: bool)

  /** strtol in base 10: a number that is no long becomes the nearest one, and is a range error. */
  function Strtol(s: string): (r: Converted)
    ensures |r.rest| <= |s|
  {
    var (v, rest) := Numeral(s);
    if v < -0x8000_0000_0000_0000 then Converted(-0x8000_0000_0000_0000, rest, true)
    else if v > 0x7FFF_FFFF_FFFF_FFFF then Converted(0x7FFF_FFFF_FFFF_FFFF, rest, true)
    else Converted(v, rest, false)
  }

  /** On text that does not begin with white space or a sign, it is the digits. */
  lemma NumeralDigits(s: string)
    requires s == "" || IsDigit(s[0]) || s[0] == ','
    ensures Numeral(s) == (NatOf(s[..DigitRun(s)]), s[DigitRun(s)..])
  {
    assert SkipSpace(s) == s;
    if DigitRun(s) == 0 {
      assert s[..0] == "" && s[0..] == s;
    }
  }

  // ---- lists -----------------------------------------------------------------------------------

  predicate AtComma(s: string) { s != "" && s[0] == ',' }

  /** The numbers after the commas, however large. */
  function Numerals(s: string): (r: seq<int>)
    ensures AtComma(s) <==> r != []
    decreases |s|
  {
    if !AtComma(s) then []
    else
      var (v, t) := Numeral(s[1..]);
      [v] + Numerals(t)
  }

  /** What the parsing loop stores, the text at which it stops, and whether a range error stopped it. */
  datatype Parsed = Parsed(vals: seq<int>, rest: string, range: bool)

  /** The parsing loop from text s on, after a conversion with or without a range error. */
  function Rest(s: string, range: bool): (r: Parsed)
    ensures !r.range ==> !AtComma(r.rest)
    ensures r.vals != [] <==> AtComma(s) && !range
    decreases |s|
  {
    if range || !AtComma(s) then Parsed([], s, range)
    else
      var x := Strtol(s[1..]);
      var r := Rest(x.rest, x.range);
      r.(vals := [x.value] + r.vals)
  }

  function ListValues(s: string): (r: Parsed)
    ensures r.vals != []
  {
    var x := Strtol(s);
    var r := Rest(x.rest, x.range);
    r.(vals := [x.value] + r.vals)
  }

  /** The loop gets past its first n values exactly if there are more and none of those n is a range error. */
  lemma {:induction false} RestLength(s: string, range: bool, n: nat)
    ensures |Rest(s, range).vals| > n <==>
      !range && |Numerals(s)| > n && forall i :: 0 <= i < n ==> Fits(Numerals(s)[i])
    decreases |s|
  {
    hide Numeral;
    if !range && AtComma(s) {
      var x := Strtol(s[1..]);
      var (v, t) := Numeral(s[1..]);
      assert Numerals(s) == [v] + Numerals(t) && x.rest == t && (x.range <==> !Fits(v));
      if n > 0 {
        RestLength(t, x.range, n - 1);
        assert forall i :: 0 <= i < n - 1 && i < |Numerals(t)| ==> Numerals(s)[i + 1] == Numerals(t)[i];
        FitsFirst(v, Numerals(t), n);
      }
    }
  }

  lemma FitsFirst(v: int, t: seq<int>, n: nat)
    requires 0 < n
    ensures |[v] + t| > n && (forall i :: 0 <= i < n ==> Fits(([v] + t)[i])) <==>
      Fits(v) && |t| > n - 1 && forall i :: 0 <= i < n - 1 ==> Fits(t[i])
  {
    if Fits(v) && |t| > n - 1 && forall i :: 0 <= i < n - 1 ==> Fits(t[i]) {
      forall i | 0 <= i < n
        ensures Fits(([v] + t)[i])
      {
        assert i > 0 ==> ([v] + t)[i] == t[i - 1];
      }
    }
    if |[v] + t| > n && forall i :: 0 <= i < n ==> Fits(([v] + t)[i]) {
      assert ([v] + t)[0] == v;
      forall i | 0 <= i < n - 1
        ensures Fits(t[i])
      {
        assert ([v] + t)[i + 1] == t[i];
      }
    }
  }

  /** The length of the run of digits and commas at the front. */
  function ListRun(s: string): (n: nat)
    ensures n <= |s| && (n < |s| ==> !IsDigit(s[n]) && s[n] != ',')
  {
    if s == "" || !(IsDigit(s[0]) || s[0] == ',') then 0 else 1 + ListRun(s[1..])
  }

  /** The commas in that run. */
  function Commas(s: string): nat {
    if s == "" || !(IsDigit(s[0]) || s[0] == ',') then 0 else (if s[0] == ',' then 1 else 0) + Commas(s[1..])
  }

  /** The run ends in a comma after which there is still a number, and another comma behind it. */
  predicate RunsOver(s: string) {
    var n := ListRun(s);
    0 < n < |s| && s[n - 1] == ',' && AtComma(Numeral(s[n..]).1)
  }

  lemma {:induction false} SkipDigitsOf(s: string, n: nat)
    requires n <= DigitRun(s)
    ensures Commas(s[n..]) == Commas(s) && ListRun(s) == n + ListRun(s[n..])
  {
    if n > 0 {
      SkipDigitsOf(s[1..], n - 1);
      assert s[n..] == s[1..][n - 1..];
    } else {
      assert s[n..] == s;
    }
  }

  /** Each comma of the run brings a value, and there are more values exactly if the text runs over. */
  lemma {:induction false} NumeralsCount(s: string)
    requires AtComma(s)
    ensures |Numerals(s)| >= Commas(s) && (|Numerals(s)| > Commas(s) <==> RunsOver(s))
    decreases |s|
  {
    hide ScanInt;
    var f := s[1..];
    if f == "" || IsDigit(f[0]) || f[0] == ',' {
      NumeralsOfRun(s);
    } else {
      assert Commas(f) == 0 && ListRun(s) == 1 && s[1..] == f;
    }
  }

  lemma {:induction false} NumeralsOfRun(s: string)
    requires AtComma(s) && (s[1..] == "" || IsDigit(s[1]) || s[1] == ',')
    ensures |Numerals(s)| >= Commas(s) && (|Numerals(s)| > Commas(s) <==> RunsOver(s))
    decreases |s|, 0
  {
    hide ScanInt, RunsOver, Numeral;
    var f := s[1..];
    var n := DigitRun(f);
    var t := f[n..];
    NumeralDigits(f);
    SkipDigitsOf(f, n);
    if AtComma(t) {
      NumeralsCount(t);
      RunsOverLater(s, 1 + n);
      assert s[1 + n..] == t;
    } else {
      NoRunHere(t);
      RunsOverNot(s, n);
    }
  }

  lemma NoRunHere(t: string)
    requires !AtComma(t) && (t == "" || !IsDigit(t[0]))
    ensures Commas(t) == 0 && ListRun(t) == 0
  {}

  /** Whether a text runs over is decided at the end of its run. */
  lemma RunsOverLater(s: string, k: nat)
    requires 0 < k < ListRun(s) && ListRun(s) == k + ListRun(s[k..])
    ensures RunsOver(s) <==> RunsOver(s[k..])
  {
    hide Numeral, ListRun;
    var n := ListRun(s);
    assert s[k..][n - k..] == s[n..];
    assert s[k..][n - k - 1] == s[n - 1];
  }

  lemma RunsOverNot(s: string, n: nat)
    requires AtComma(s) && n == DigitRun(s[1..]) && ListRun(s) == 1 + n
    requires s[1..] == "" || IsDigit(s[1]) || s[1] == ','
    ensures !RunsOver(s)
  {
    hide Numeral;
    if n > 0 {
      assert s[1..][..n][n - 1] == s[n];
    }
  }

  // ---- parsefield -------------------------------------------------------------------------------

  /** The text is read as a list: what follows its first digits is a comma. */
  predicate ListText(s: string) { AtComma(s[DigitRun(s)..]) }

  /** The slots counted for a list. */
  function Slots(s: string): nat { 1 + Commas(s[DigitRun(s)..]) }

  /** The text has more numbers than slots, and none of those for the slots is a range error. */
  ghost predicate Overruns(s: string) {
    var e := s[DigitRun(s)..];
    && ListText(s) && RunsOver(e) && Fits(NatOf(s[..DigitRun(s)]))
    && forall i :: 0 <= i < Commas(e) && i < |Numerals(e)| ==> Fits(Numerals(e)[i])
  }

  /** A star that is neither alone nor the beginning of a step: parsefield sets no part of the field. */
  predicate Unset(s: string) {
    var p := DigitRun(s);
    p < |s| && s[p] == '*' && s != "*" && !IsStep(s)
  }

  predicate IsStep(s: string) { |s| >= 2 && s[..2] == "*/" }

  lemma ListStart(s: string)
    requires ListText(s)
    ensures var n := DigitRun(s); Numeral(s) == (NatOf(s[..n]), s[n..])
  {
    assert s[DigitRun(s)..][0] == s[DigitRun(s)];
    assert DigitRun(s) == 0 || IsDigit(s[..DigitRun(s)][0]);
    NumeralDigits(s);
  }

  /** The loop stores more values than there are slots if and only if the text overruns. */
  lemma SlotsFilled(s: string)
    requires ListText(s)
    ensures |ListValues(s).vals| > Slots(s) <==> Overruns(s)
    ensures ListValues(s).rest == "" && !ListValues(s).range ==> |ListValues(s).vals| >= Slots(s)
  {
    hide RunsOver, Numeral, Rest, Commas, ListRun, Numerals;
    var n := DigitRun(s);
    var e := s[n..];
    ListStart(s);
    NumeralsCount(e);
    RestLength(e, !Fits(NatOf(s[..n])), Commas(e));
    RestAll(e, !Fits(NatOf(s[..n])));
  }

  /** A loop that no range error stops stores a value for every comma. */
  lemma {:induction false} RestAll(s: string, range: bool)
    ensures !Rest(s, range).range ==> |Rest(s, range).vals| == |Numerals(s)|
    decreases |s|
  {
    hide Numeral;
    if !range && AtComma(s) {
      var x := Strtol(s[1..]);
      RestAll(x.rest, x.range);
    }
  }

  /** The field a text stands for, before its values are checked against the limits. */
  function Reading(s: string): Option<Field> {
    var p := DigitRun(s);
    if p == |s| then
      var x := Strtol(s);
      if x.range then None else Some(Number(x.value))
    else if s[p] == '*' then
      if s == "*" then Some(Wildcard)
      else if IsStep(s) then
        var x := Strtol(s[2..]);
        if x.rest == "" && !x.range && x.value != 0 then Some(Repeat(x.value)) else None
      else None
    else if s[p] == '-' then
      var x := Strtol(s);
      if !AtDash(x.rest) || x.range then None
      else
        var y := Strtol(x.rest[1..]);
        if y.rest == "" && !y.range then Some(Span(x.value, y.value)) else None
    else if s[p] == ',' then
      var r := ListValues(s);
      if r.rest == "" && !r.range then Some(List(r.vals)) else None
    else None
  }

  predicate AtDash(s: string) { s != "" && s[0] == '-' }

  function ValuesOf(f: Field): seq<int> {
    match f
    case Wildcard => []
    case Number(v) => [v]
    case Span(a, b) => [a, b]
    case Repeat(v) => [v]
    case List(vals) => vals
  }

  /** The field that parsefield accepts. */
  ghost function FieldOf(s: string, low: Long, high: Long): Option<Field> {
    var f := Reading(s);
    if f.Some? && InLimits(ValuesOf(f.value), low, high) then f else None
  }

  /** Every accepted field is well formed. */
  lemma FieldOfWellFormed(s: string, low: Long, high: Long)
    requires FieldOf(s, low, high).Some?
    ensures WellFormed(FieldOf(s, low, high).value, low, high)
  {
    hide Strtol;
    var f := Reading(s).value;
    match f
    case Number(v) => assert InLimits([v], low, high) && [v][0] == v;
    case Repeat(v) => assert InLimits([v], low, high) && [v][0] == v;
    case Span(a, b) => assert InLimits([a, b], low, high) && [a, b][0] == a && [a, b][1] == b;
    case List(vals) => ListHasTwo(s);
    case Wildcard =>
  }

  lemma ListHasTwo(s: string)
    requires DigitRun(s) < |s| && s[DigitRun(s)] == ',' && !ListValues(s).range
    ensures |ListValues(s).vals| >= 2
  {
    hide Numeral;
    assert s[DigitRun(s)..][0] == ',';
    ListStart(s);
  }

  // ---- what it does to memory -----------------------------------------------------------------------

  /**
   The slots that parsefield allocates, the values that it stores in them one after the other, whether
   it ends in the walk over the field and the release of it, and whether it has set the field by then.
   */
  datatype Account = Account(slots: nat, writes: nat, walks: bool, set_: bool)

  function AccountOf(s: string, low: Long, high: Long): Account {
    var p := DigitRun(s);
    if p == |s| then Account(1, 1, true, true)
    else if s[p] == '*' then
      if s == "*" then Account(0, 0, true, true)
      else if IsStep(s) then Account(1, 1, true, true)
      else Account(0, 0, true, false)
    else if s[p] == '-' then
      var x := Strtol(s);
      Account(2, if !AtDash(x.rest) || x.range then 1 else 2, true, true)
    else if s[p] == ',' then
      var v := Strtol(s).value;
      Account(Slots(s), if v < low || v > high then 1 else |ListValues(s).vals|, true, true)
    else Account(0, 0, false, false)
  }

  /** Every value goes to a slot that was counted, and a field that was never set is not walked or freed. */
  predicate Sound(a: Account) { a.writes <= a.slots && (a.walks ==> a.set_) }

  /** What a caller can check: not an unset star, and not an overrun after a first value within the limits. */
  ghost predicate Defined(s: string, low: Long, high: Long) {
    !Unset(s) && !(Overruns(s) && low <= NatOf(s[..DigitRun(s)]) <= high)
  }

  /** For every text and all limits, that is exactly when parsefield keeps to its memory. */
  lemma SoundIff(s: string, low: Long, high: Long)
    ensures Sound(AccountOf(s, low, high)) <==> Defined(s, low, high)
  {
    hide Numeral, ListValues, Commas, Numerals, RunsOver, NatOf;
    var p := DigitRun(s);
    if p < |s| {
      assert s[p..][0] == s[p];
      if s[p] == ',' {
        ListStart(s);
        SlotsFilled(s);
      }
    }
  }

  /** Two slots and three values. */
  lemma OverrunExample()
    ensures Overruns("1,+2,3") && Slots("1,+2,3") == 2 && ListValues("1,+2,3").vals == [1, 2, 3]
    ensures !Defined("1,+2,3", 0, 59)
  {
    hide Numeral, Rest, ListRun, Commas, DigitRun, Numerals, NatOf;
    var s := "1,+2,3";
    ExampleRuns();
    ExampleReads();
    ExampleFirst();
    assert s[1..] == ",+2,3" && ",+2,3"[1..] == "+2,3" && s[..1] == "1";
  }

  lemma ExampleFirst()
    ensures AllDigits("1") && NatOf("1") == 1
  {
    assert "1"[..0] == "";
  }

  lemma ExampleRuns()
    ensures DigitRun("1,+2,3") == 1 && ListRun(",+2,3") == 1 && Commas(",+2,3") == 1
  {
    assert "1,+2,3"[1..] == ",+2,3" && ",+2,3"[1..] == "+2,3";
  }

  lemma ExampleReads()
    ensures Numeral("1,+2,3") == (1, ",+2,3") && Numeral("+2,3") == (2, ",3")
    ensures Rest(",+2,3", false) == Parsed([2, 3], "", false) && Numerals(",+2,3") == [2, 3]
  {
    hide Numeral, Rest, Numerals;
    OneThenRest();
    PlusTwo();
    Three();
    RestStep("3", 3, "");
    RestStep("+2,3", 2, ",3");
    RestEmpty();
    assert "," + "3" == ",3" && "," + "+2,3" == ",+2,3";
    assert [3] + [] == [3] && [2] + [3] == [2, 3];
  }

  lemma RestEmpty()
    ensures Rest("", false) == Parsed([], "", false) && Numerals("") == []
  {}

  lemma RestStep(t: string, v: Long, u: string)
    requires Numeral(t) == (v, u)
    ensures Rest("," + t, false) == Rest(u, false).(vals := [v] + Rest(u, false).vals)
    ensures Numerals("," + t) == [v] + Numerals(u)
  {
    hide Numeral;
    assert ("," + t)[1..] == t;
  }

  lemma OneThenRest()
    ensures Numeral("1,+2,3") == (1, ",+2,3")
  {
    var s := "1,+2,3";
    assert s[1..] == ",+2,3" && s[..1] == "1" && DigitRun(s) == 1 && NatOf("1") == 1;
    NumeralDigits(s);
  }

  lemma PlusTwo()
    ensures Numeral("+2,3") == (2, ",3")
  {
    var u := "+2,3"[1..];
    assert u == "2,3" && u[1..] == ",3" && u[..1] == "2" && DigitRun(u) == 1 && NatOf("2") == 2;
  }

  lemma Three()
    ensures Numeral("3") == (3, "")
  {
    assert "3"[1..] == "" && "3"[..1] == "3" && DigitRun("3") == 1 && NatOf("3") == 3;
    NumeralDigits("3");
  }

  /** A star and a digit: no part of the field is set, whatever the limits. */
  lemma UnsetExample(low: Long, high: Long)
    ensures Unset("*5") && !Defined("*5", low, high)
  {
    assert DigitRun("*5") == 0 && "*5"[..2][1] == '5' && "*/"[1] == '/';
  }

  /** A first value outside the limits keeps the fill from starting. */
  lemma OutOfLimitsIsDefined(s: string, low: Long, high: Long)
    requires ListText(s) && !(low <= NatOf(s[..DigitRun(s)]) <= high)
    ensures Defined(s, low, high)
  {
    assert s[DigitRun(s)..][0] == s[DigitRun(s)];
  }

  /** A number that is no long, in a counted slot, keeps it from running over. */
  lemma RangeErrorIsDefined(s: string, low: Long, high: Long, i: nat)
    requires ListText(s) && i < Commas(s[DigitRun(s)..]) && i < |Numerals(s[DigitRun(s)..])|
    requires !Fits(Numerals(s[DigitRun(s)..])[i])
    ensures Defined(s, low, high)
  {
    assert s[DigitRun(s)..][0] == s[DigitRun(s)];
  }

  // ---- the procedure ------------------------------------------------------------------------------------

  datatype Kind = KError | KWildcard | KNumber | KRange | KRepeat | KList

  function KindOf(f: Field): Kind {
    match f
    case Wildcard => KWildcard
    case Number(_) => KNumber
    case Span(_, _) => KRange
    case Repeat(_) => KRepeat
    case List(_) => KList
  }

  /** struct field, whose parts are arbitrary until they are set. */
  class Buffer {
    var kind: Kind
    var val: array?<int>
    var len: nat

    constructor () {}

    /** The field is set: its values can be walked. */
    ghost predicate Stored()
      reads this
    {
      if val == null then len == 0 else len == val.Length
    }

    ghost function Vals(): seq<int>
      requires Stored()
      reads this, val
    {
      if val == null then [] else val[..]
    }

    ghost predicate Holds(f: Field)
      reads this, val
    {
      Stored() && kind == KindOf(f) && Vals() == ValuesOf(f)
    }

    /** The walk that closes parsefield. */
    method Walk(low: Long, high: Long)
      requires Stored()
      modifies `kind
      ensures kind == if InLimits(Vals(), low, high) then old(kind) else KError
    {
      ghost var vals := Vals();
      for i := 0 to len
        invariant kind == if InLimits(vals[..i], low, high) then old(kind) else KError
      {
        if val[i] < low || val[i] > high {
          kind := KError;
          assert !(low <= vals[..i + 1][i] <= high);
        }
      }
      assert vals[..len] == vals;
    }

    /** Only digits. */
    method TakeNumber(s: string) returns (ghost a: Account)
      requires kind == KError
      modifies this
      ensures Stored() && val != null && fresh(val) && Vals() == [Strtol(s).value] && a == Account(1, 1, true, true)
      ensures kind == if Strtol(s).rest == "" && !Strtol(s).range then KNumber else KError
    {
      hide Strtol;
      val, len := new int[1], 1;
      var x := Strtol(s);
      val[0] := x.value;
      a := Account(1, 1, true, true);
      if x.rest != "" || x.range {
        return;
      }
      kind := KNumber;
    }

    /** A star: alone, or with a step; otherwise the field stays as it was. */
    method TakeStar(s: string) returns (ghost a: Account)
      requires kind == KError
      modifies this
      ensures s == "*" ==> Holds(Wildcard) && a == Account(0, 0, true, true)
      ensures s != "*" && IsStep(s) ==>
        && Stored() && val != null && fresh(val) && Vals() == [Strtol(s[2..]).value] && a == Account(1, 1, true, true)
        && var x := Strtol(s[2..]); kind == if x.rest == "" && !x.range && x.value != 0 then KRepeat else KError
      ensures s != "*" && !IsStep(s) ==>
        kind == KError && val == old(val) && len == old(len) && a == Account(0, 0, true, false)
    {
      hide Strtol;
      if s == "*" {
        val, len, kind := null, 0, KWildcard;
        a := Account(0, 0, true, true);
      } else if IsStep(s) {
        val, len := new int[1], 1;
        var x := Strtol(s[2..]);
        val[0] := x.value;
        a := Account(1, 1, true, true);
        if x.rest == "" && !x.range && x.value != 0 {
          kind := KRepeat;
        }
      } else {
        a := Account(0, 0, true, false);
      }
    }

    /** Two numbers with a dash between them. */
    method TakeRange(s: string) returns (ghost a: Account)
      requires kind == KError
      modifies this
      ensures Stored() && val != null && fresh(val)
      ensures a == Account(2, if !AtDash(Strtol(s).rest) || Strtol(s).range then 1 else 2, true, true)
      ensures kind == KError || kind == KRange
      ensures kind == KRange <==>
        && AtDash(Strtol(s).rest) && !Strtol(s).range
        && Strtol(Strtol(s).rest[1..]).rest == "" && !Strtol(Strtol(s).rest[1..]).range
      ensures kind == KRange ==> Vals() == [Strtol(s).value, Strtol(Strtol(s).rest[1..]).value]
    {
      hide Strtol;
      val, len := new int[2], 2;
      var x := Strtol(s);
      val[0] := x.value;
      a := Account(2, 1, true, true);
      if !AtDash(x.rest) || x.range {
        return;
      }
      var y := Strtol(x.rest[1..]);
      val[1] := y.value;
      a := a.(writes := 2);
      if y.rest != "" || y.range {
        return;
      }
      kind := KRange;
    }

    /** The list case: count the slots, allocate them, then fill them. */
    method TakeList(s: string, p: nat, low: Long, high: Long) returns (ghost a: Account)
      requires p == DigitRun(s) && ListText(s) && Defined(s, low, high) && kind == KError
      modifies this
      ensures Stored() && val != null && fresh(val)
      ensures a == Account(Slots(s), if low <= Strtol(s).value <= high then |ListValues(s).vals| else 1, true, true)
      ensures kind == KError || (kind == KList && Vals() == ListValues(s).vals)
      ensures kind == KList <==>
        low <= Strtol(s).value <= high && ListValues(s).rest == "" && !ListValues(s).range
    {
      hide DigitRun, Strtol, NatOf, Commas, Rest, RunsOver, ListText, Numerals;
      SlotsFilled(s);
      FirstFits(s);
      var n := CountSlots(s, p);
      val := new int[n];
      len := n;
      var x := Strtol(s);
      val[0] := x.value;
      a := Account(n, 1, true, true);
      if x.value < low || x.value > high {
        return;
      }
      var rest, range, i := FillSlots(val, x.rest, x.range);
      a := a.(writes := i);
      if rest != "" || range {
        return;
      }
      kind := KList;
    }

    /** parsefield. */
    method ParseField(s: string, low: Long, high: Long) returns (ret: int, ghost a: Account)
      requires Defined(s, low, high)
      modifies this
      ensures a == AccountOf(s, low, high)
      ensures ret == if FieldOf(s, low, high).Some? then 0 else -1
      ensures ret == 0 ==> Holds(FieldOf(s, low, high).value) && WellFormed(FieldOf(s, low, high).value, low, high)
    {
      hide DigitRun, Strtol, ListValues, InLimits, WellFormed, Overruns, NatOf, Commas;
      var p := SkipDigits(s);
      kind := KError;
      AllDigitsRead(s);
      var c := if p == |s| then '0' else s[p];
      if p == |s| {
        a := TakeNumber(s);
      } else if c == '*' {
        a := TakeStar(s);
      } else if c == '-' {
        a := TakeRange(s);
      } else if c == ',' {
        assert s[p..][0] == ',';
        a := TakeList(s, p, low, high);
        FirstIsFirst(s, low, high);
      } else {
        a := Account(0, 0, false, false);
        return -1, a;
      }
      Walk(low, high);
      if kind == KError {
        return -1, a;
      }
      FieldOfWellFormed(s, low, high);
      return 0, a;
    }
  }

  /** Text that is all digits is all number. */
  lemma AllDigitsRead(s: string)
    ensures DigitRun(s) == |s| ==> Strtol(s).rest == ""
  {
    if DigitRun(s) == |s| {
      assert s == "" || IsDigit(s[..|s|][0]);
      NumeralDigits(s);
    }
  }

  lemma FirstFits(s: string)
    requires ListText(s)
    ensures Overruns(s) ==> Strtol(s).value == NatOf(s[..DigitRun(s)])
  {
    hide Numeral, NatOf;
    ListStart(s);
  }

  lemma FirstIsFirst(s: string, low: Long, high: Long)
    ensures InLimits(ListValues(s).vals, low, high) ==> low <= Strtol(s).value <= high
  {
    hide Strtol, Rest;
    assert ListValues(s).vals[0] == Strtol(s).value;
  }

  /** The parsing loop: after each comma one more value, until there is none or a range error. */
  method FillSlots(val: array<int>, e: string, range0: bool) returns (rest: string, range: bool, i: nat)
    requires val.Length >= 1 + |Rest(e, range0).vals|
    modifies val
    ensures i == 1 + |Rest(e, range0).vals| && val[..i] == [old(val[0])] + Rest(e, range0).vals
    ensures rest == Rest(e, range0).rest && range == Rest(e, range0).range
  {
    hide Strtol;
    rest, range, i := e, range0, 1;
    ghost var all := Rest(e, range0);
    while AtComma(rest) && !range
      invariant 1 <= i && i + |Rest(rest, range).vals| == 1 + |all.vals|
      invariant Rest(rest, range).rest == all.rest && Rest(rest, range).range == all.range
      invariant val[..i] + Rest(rest, range).vals == [old(val[0])] + all.vals
      decreases |rest|
    {
      var x := Strtol(rest[1..]);
      ghost var filled, later := val[..i], Rest(x.rest, x.range).vals;
      val[i] := x.value;
      assert val[..i + 1] == filled + [x.value];
      assert filled + [x.value] + later == filled + ([x.value] + later);
      rest, range, i := x.rest, x.range, i + 1;
    }
    assert val[..i] + [] == val[..i];
  }

  /** The counting loop. */
  method CountSlots(s: string, p: nat) returns (n: nat)
    requires p == DigitRun(s)
    ensures n == Slots(s)
  {
    hide DigitRun;
    n := 1;
    var q := p;
    while q < |s| && (IsDigit(s[q]) || s[q] == ',')
      invariant p <= q <= |s| && n + Commas(s[q..]) == Commas(s[p..]) + 1
    {
      assert s[q..][1..] == s[q + 1..];
      if s[q] == ',' {
        n := n + 1;
      }
      q := q + 1;
    }
  }

  method SkipDigits(s: string) returns (p: nat)
    ensures p == DigitRun(s)
  {
    p := 0;
    while p < |s| && IsDigit(s[p])
      invariant p <= |s| && p + DigitRun(s[p..]) == DigitRun(s)
    {
      assert s[p..][1..] == s[p + 1..];
      p := p + 1;
    }
  }

  // ---- writing a field and reading it back ---------------------------------------------------------

  function Join(vals: seq<nat>): string
    requires vals != []
  {
    if |vals| == 1 then Decimal(vals[0]) else Decimal(vals[0]) + ("," + Join(vals[1..]))
  }

  ghost predicate Natural(f: Field) { forall i :: 0 <= i < |ValuesOf(f)| ==> ValuesOf(f)[i] >= 0 }

  /** The crontab text of a field. */
  function Render(f: Field): string
    requires Natural(f) && (f.List? ==> |f.vals| >= 2)
  {
    assert forall i :: 0 <= i < |ValuesOf(f)| ==> ValuesOf(f)[i] >= 0;
    match f
    case Wildcard => "*"
    case Number(v) => assert ValuesOf(f)[0] == v; Decimal(v)
    case Span(a, b) => assert ValuesOf(f)[0] == a && ValuesOf(f)[1] == b; Decimal(a) + ("-" + Decimal(b))
    case Repeat(v) => assert ValuesOf(f)[0] == v; "*/" + Decimal(v)
    case List(vals) => Join(seq(|vals|, i requires 0 <= i < |vals| => vals[i]))
  }

  lemma NumeralDecimal(n: nat, rest: string)
    requires rest == "" || !IsDigit(rest[0])
    ensures Numeral(Decimal(n) + rest) == (n, rest)
    ensures Fits(n) ==> Strtol(Decimal(n) + rest) == Converted(n, rest, false)
    ensures DigitRun(Decimal(n) + rest) == |Decimal(n)| && AllDigits(Decimal(n)) && NatOf(Decimal(n)) == n
  {
    ScanDecimal(n, rest);
    DecimalDigits(n);
    DigitRunStops(Decimal(n), rest);
  }

  ghost predicate AllFit(vals: seq<int>) { forall i :: 0 <= i < |vals| ==> Fits(vals[i]) }

  /** A written list of longs is read back as those longs, and never runs over its slots. */
  lemma {:induction false} JoinReads(vals: seq<nat>)
    requires vals != [] && AllFit(vals)
    ensures ListValues(Join(vals)) == Parsed(vals, "", false) && ListRun(Join(vals)) == |Join(vals)|
    ensures |vals| > 1 ==> ListText(Join(vals))
  {
    hide Decimal, NatOf, DigitRun, Strtol, Commas, ListRun, Rest;
    var first := Decimal(vals[0]);
    if |vals| == 1 {
      NumeralDecimal(vals[0], "");
      RestEmpty();
      RunEmpty();
      assert first + "" == first && vals == [vals[0]] + [];
      DigitsRun(first, "");
    } else {
      var rest := Join(vals[1..]);
      JoinReads(vals[1..]);
      NumeralDecimal(vals[0], "," + rest);
      var s := first + ("," + rest);
      assert ("," + rest)[1..] == rest && s[|first|..] == "," + rest;
      DigitsRun(first, "," + rest);
      CommaRun(rest);
      assert [vals[0]] + vals[1..] == vals;
      RestIsList(rest);
    }
  }

  lemma RestIsList(t: string)
    ensures Rest("," + t, false) == ListValues(t)
  {
    hide Strtol;
    assert ("," + t)[1..] == t;
  }

  lemma RunEmpty()
    ensures ListRun("") == 0
  {}

  lemma CommaRun(t: string)
    ensures ListRun("," + t) == 1 + ListRun(t)
  {
    assert ("," + t)[1..] == t;
  }

  lemma {:induction false} DigitsRun(d: string, rest: string)
    requires AllDigits(d)
    ensures ListRun(d + rest) == |d| + ListRun(rest)
  {
    if d == "" {
      assert d + rest == rest;
    } else {
      DigitsRun(d[1..], rest);
      assert (d + rest)[1..] == d[1..] + rest;
    }
  }

  /** What is written for a well-formed field is read back as that field. */
  lemma RenderReads(f: Field, low: Long, high: Long)
    requires WellFormed(f, low, high) && Natural(f)
    ensures Defined(Render(f), low, high) && FieldOf(Render(f), low, high) == Some(f)
  {
    ReadingOfRender(f, low, high);
    LimitsOfWellFormed(f, low, high);
  }

  lemma LimitsOfWellFormed(f: Field, low: Long, high: Long)
    requires WellFormed(f, low, high)
    ensures InLimits(ValuesOf(f), low, high)
  {}

  lemma ReadingOfRender(f: Field, low: Long, high: Long)
    requires WellFormed(f, low, high) && Natural(f)
    ensures !Overruns(Render(f)) && !Unset(Render(f)) && Reading(Render(f)) == Some(f)
  {
    hide Decimal, NatOf, Strtol, Rest, ListRun, Commas, Numerals;
    match f
    case Wildcard =>
      assert DigitRun("*") == 0;
    case Number(v) =>
      assert ValuesOf(f)[0] == v;
      NumberReads(v);
    case Span(a, b) =>
      assert ValuesOf(f)[0] == a && ValuesOf(f)[1] == b;
      SpanReads(a, b);
    case Repeat(v) =>
      assert ValuesOf(f)[0] == v;
      RepeatReads(v);
    case List(vals) =>
      var nats := seq(|vals|, i requires 0 <= i < |vals| => ValuesOf(f)[i]);
      assert nats == vals;
      JoinReads(nats);
      ListReads(nats);
  }

  lemma ListReads(vals: seq<nat>)
    requires |vals| > 1 && AllFit(vals)
    ensures !Overruns(Join(vals)) && !Unset(Join(vals)) && Reading(Join(vals)) == Some(List(vals))
  {
    hide Decimal, NatOf, Strtol, Rest, DigitRun, Join, Numerals;
    var s := Join(vals);
    JoinReads(vals);
    var p := DigitRun(s);
    assert s[p..][0] == s[p];
    SkipDigitsOf(s, p);
  }

  lemma NumberReads(v: nat)
    requires Fits(v)
    ensures !Overruns(Decimal(v)) && !Unset(Decimal(v)) && Reading(Decimal(v)) == Some(Number(v))
  {
    NumeralDecimal(v, "");
    assert Decimal(v) + "" == Decimal(v);
  }

  lemma SpanReads(a: nat, b: nat)
    requires Fits(a) && Fits(b)
    ensures var s := Decimal(a) + ("-" + Decimal(b)); !Overruns(s) && !Unset(s) && Reading(s) == Some(Span(a, b))
  {
    hide Decimal, NatOf, Strtol, DigitRun;
    NumeralDecimal(a, "-" + Decimal(b));
    NumeralDecimal(b, "");
    assert Decimal(b) + "" == Decimal(b) && ("-" + Decimal(b))[1..] == Decimal(b);
  }

  lemma RepeatReads(v: nat)
    requires v != 0 && Fits(v)
    ensures !Overruns("*/" + Decimal(v)) && !Unset("*/" + Decimal(v)) && Reading("*/" + Decimal(v)) == Some(Repeat(v))
  {
    var s := "*/" + Decimal(v);
    assert DigitRun(s) == 0 && s[..2] == "*/" && s[2..] == Decimal(v);
    NumeralDecimal(v, "");
    assert Decimal(v) + "" == Decimal(v);
  }
}

/** Matching the clock, and the jobs that are running. */
module Cron {
  import opened CronField

  // ---- matchentry --------------------------------------------------------------------------------------

  datatype Entry = Entry(sec: Field, min: Field, hour: Field, mday: Field, mon: Field, wday: Field, cmd: string)
  datatype Tm = Tm(sec: nat, min: nat, hour: nat, mday: nat, mon: nat, wday: nat, year: nat)

  /** The limits that loadentries gives parsefield. */
  ghost predicate EntryWellFormed(e: Entry) {
    && WellFormed(e.sec, 0, 59) && WellFormed(e.min, 0, 59) && WellFormed(e.hour, 0, 23)
    && WellFormed(e.mday, 1, 31) && WellFormed(e.mon, 1, 12) && WellFormed(e.wday, 0, 6)
  }

  predicate IsLeap(year: nat) { if year % 400 == 0 then true else if year % 100 == 0 then false else year % 4 == 0 }

  /** daysinmon; the year is counted from 1900, or else from year one. */
  function DaysInMon(mon: nat, year: nat): nat
    requires mon < 12
  {
    var y := if year < 1900 then year + 1900 else year;
    [31, if IsLeap(y) then 29 else 28, 31, 30, 31, 30, 31, 31, 30, 31, 30, 31][mon]
  }

  /** The leap years of the Gregorian calendar. */
  predicate Gregorian(year: nat) { year % 4 == 0 && (year % 100 == 0 ==> year % 400 == 0) }

  lemma LeapIsGregorian(year: nat)
    ensures IsLeap(year) <==> Gregorian(year)
  {
    assert year % 400 == 0 ==> year % 100 == 0 && year % 4 == 0;
    assert year % 100 == 0 ==> year % 4 == 0;
  }

  /** The days of the months of the Gregorian calendar. */
  lemma DaysInMonIs(mon: nat, year: nat)
    requires mon < 12
    ensures mon in {0, 2, 4, 6, 7, 9, 11} ==> DaysInMon(mon, year) == 31
    ensures mon in {3, 5, 8, 10} ==> DaysInMon(mon, year) == 30
    ensures mon == 1 ==> DaysInMon(mon, year) == if Gregorian(if year < 1900 then year + 1900 else year) then 29 else 28
  {
    hide IsLeap, Gregorian;
    LeapIsGregorian(if year < 1900 then year + 1900 else year);
  }

  /** What it means for one field to match a clock value, in a cycle of len values. */
  ghost predicate Matches(f: Field, tm: nat, len: nat)
    requires f.Repeat? ==> f.step != 0
  {
    match f
    case Wildcard => true
    case Number(v) => v == tm
    case Span(a, b) => a <= tm <= b
    case Repeat(v) => (if tm > 0 then tm else len) % v == 0
    case List(vals) => tm in vals
  }

  /** The values from a to b. */
  function Run(a: int, b: int): (r: seq<int>)
    ensures forall v :: v in r <==> a <= v <= b
    decreases b - a
  {
    if a > b then [] else [a] + Run(a + 1, b)
  }

  /**
   All forms in terms of lists: a range is the list of its values, a number the range from it to itself, a
   star the range of the whole cycle, a step the multiples of it, with the end of the cycle standing for 0;
   and a list matches what its parts do.
   */
  lemma FormsAgree(tm: nat, len: nat, a: int, b: int, v: int, u: seq<int>, w: seq<int>)
    ensures Matches(Span(a, b), tm, len) <==> Matches(List(Run(a, b)), tm, len)
    ensures Matches(Number(a), tm, len) <==> Matches(Span(a, a), tm, len)
    ensures tm < len ==> (Matches(Wildcard, tm, len) <==> Matches(Span(0, len - 1), tm, len))
    ensures v > 0 ==> (Matches(Repeat(v), tm, len) <==> exists k: nat :: v * k == if tm > 0 then tm else len)
    ensures Matches(List(u + w), tm, len) <==> Matches(List(u), tm, len) || Matches(List(w), tm, len)
    ensures !Matches(List([]), tm, len)
  {
    var t := if tm > 0 then tm else len;
    if v > 0 {
      Quotient(t, v);
      if k: nat :| v * k == t {
        Remainder(v, k, 0, t / v, t % v);
      }
    }
  }

  method MatchList(vals: seq<int>, tm: int) returns (found: bool)
    ensures found <==> tm in vals
  {
    var j := 0;
    while j < |vals| && vals[j] != tm
      invariant j <= |vals| && tm !in vals[..j]
    {
      j := j + 1;
    }
    return j < |vals|;
  }

  /** One row of the match table. */
  method MatchField(f: Field, tm: nat, len: nat) returns (ok: bool)
    requires f.Repeat? ==> f.step != 0
    ensures ok <==> Matches(f, tm, len)
  {
    match f
    case Wildcard => return true;
    case Number(v) => return v == tm;
    case Span(a, b) => return a <= tm && b >= tm;
    case Repeat(v) =>
      if tm > 0 {
        return tm % v == 0;
      } else {
        return len % v == 0;
      }
    case List(vals) =>
      ok := MatchList(vals, tm);
  }

  /** matchentry: all six fields match.  Nothing divides by zero for a well-formed entry. */
  method MatchEntry(e: Entry, tm: Tm) returns (ok: bool)
    requires EntryWellFormed(e) && tm.mon < 12
    ensures ok <==>
      && Matches(e.sec, tm.sec, 60) && Matches(e.min, tm.min, 60) && Matches(e.hour, tm.hour, 24)
      && Matches(e.mday, tm.mday, DaysInMon(tm.mon, tm.year))
      && Matches(e.mon, tm.mon, 12) && Matches(e.wday, tm.wday, 7)
  {
    var table := [(e.sec, tm.sec, 60), (e.min, tm.min, 60), (e.hour, tm.hour, 24),
                  (e.mday, tm.mday, DaysInMon(tm.mon, tm.year)), (e.mon, tm.mon, 12), (e.wday, tm.wday, 7)];
    hide Matches, WellFormed;
    Steps(e);
    var i := 0;
    while i < |table|
      invariant i <= |table|
      invariant forall j :: 0 <= j < i ==> Matches(table[j].0, table[j].1, table[j].2)
    {
      var row := MatchField(table[i].0, table[i].1, table[i].2);
      if !row {
        break;
      }
      i := i + 1;
    }
    ok := i == |table|;
    assert table[0] == (e.sec, tm.sec, 60) && table[1] == (e.min, tm.min, 60) && table[2] == (e.hour, tm.hour, 24);
    assert table[3].0 == e.mday && table[4] == (e.mon, tm.mon, 12) && table[5] == (e.wday, tm.wday, 7);
  }

  lemma Steps(e: Entry)
    requires EntryWellFormed(e)
    ensures forall f :: f in [e.sec, e.min, e.hour, e.mday, e.mon, e.wday] && f.Repeat? ==> f.step != 0
  {}

  // ---- the spacing of repeats ---------------------------------------------------------------------------

  lemma MulSplit(v: int, a: int, b: int)
    ensures v * b == v * a + v * (b - a)
  {}

  lemma MulAtLeast(v: nat, d: nat)
    ensures d >= 1 ==> v * d >= v
    ensures v * d >= 0
  {}

  /** Multiples are ordered like their factors, with a step between them. */
  lemma MulOrder(v: nat, a: nat, b: nat)
    requires 0 < v
    ensures a < b <==> v * a < v * b
    ensures a < b ==> v * a + v <= v * b
  {
    if a < b {
      MulSplit(v, a, b);
      MulAtLeast(v, b - a);
    } else {
      MulSplit(v, b, a);
      MulAtLeast(v, a - b);
    }
  }

  lemma Quotient(t: nat, v: nat)
    requires 0 < v
    ensures 0 <= t / v && 0 <= t % v < v && t == v * (t / v) + t % v
  {}

  lemma MultiplesApart(a: nat, b: nat, v: nat)
    requires 0 < v && a < b && a % v == 0 && b % v == 0
    ensures b - a >= v
  {
    Quotient(a, v);
    Quotient(b, v);
    MulOrder(v, a / v, b / v);
  }

  /** How two ticks lie in their cycles. */
  lemma CyclesApart(len: nat, t1: nat, t2: nat)
    requires 0 < len && t1 < t2
    ensures t1 / len == t2 / len ==> t2 - t1 == t2 % len - t1 % len
    ensures t1 / len != t2 / len ==> t2 - t1 >= len + t2 % len - t1 % len
  {
    var q1, q2, s1, s2 := t1 / len, t2 / len, t1 % len, t2 % len;
    Quotient(t1, len);
    Quotient(t2, len);
    MulOrder(len, q1, q2);
    MulOrder(len, q2, q1);
  }

  /** Two ticks that a repeat field matches are at least a step apart, across any number of cycles. */
  lemma RepeatSpacing(len: nat, v: nat, t1: nat, t2: nat)
    requires 0 < v && 0 < len && t1 < t2
    requires Matches(Repeat(v), t1 % len, len) && Matches(Repeat(v), t2 % len, len)
    ensures t2 - t1 >= v
  {
    var s1, s2 := t1 % len, t2 % len;
    CyclesApart(len, t1, t2);
    if t1 / len == t2 / len {
      SpacingWithin(v, s1, s2);
    } else {
      SpacingAcross(len, v, s1, s2);
    }
  }

  lemma SpacingWithin(v: nat, s1: nat, s2: nat)
    requires 0 < v && s1 < s2 && s2 % v == 0 && (s1 > 0 ==> s1 % v == 0)
    ensures s2 - s1 >= v
  {
    MultiplesApart(s1, s2, v);
  }

  lemma SpacingAcross(len: nat, v: nat, s1: nat, s2: nat)
    requires 0 < v && 0 < len && s1 < len
    requires (if s1 > 0 then s1 else len) % v == 0 && (if s2 > 0 then s2 else len) % v == 0
    ensures len + s2 - s1 >= v
  {
    if s2 > 0 {
      MultiplesApart(0, s2, v);
    } else {
      MultiplesApart(s1, len, v);
    }
  }

  /** A repeat whose step divides the cycle comes round exactly every step. */
  lemma RepeatIsRegular(len: nat, v: nat, t: nat)
    requires 0 < v && 0 < len && len % v == 0
    ensures Matches(Repeat(v), t % len, len) <==> t % v == 0
  {
    CycleMod(len, v, t);
    ModZero(v);
  }

  ghost predicate TickMatches(v: nat, len: nat, t: nat)
    requires 0 < v && 0 < len
  {
    Matches(Repeat(v), t % len, len)
  }

  /** The matched ticks are exactly the multiples of the step if and only if the step divides the cycle. */
  lemma RegularIff(len: nat, v: nat)
    requires 0 < v && 0 < len
    ensures (forall t: nat :: TickMatches(v, len, t) <==> t % v == 0) <==> len % v == 0
  {
    if len % v == 0 {
      forall t: nat
        ensures TickMatches(v, len, t) <==> t % v == 0
      {
        RepeatIsRegular(len, v, t);
      }
    } else {
      ModZero(v);
      ModZero(len);
      assert !TickMatches(v, len, 0);
    }
  }

  lemma ModZero(v: nat)
    requires 0 < v
    ensures 0 % v == 0
  {}

  lemma CycleMod(len: nat, v: nat, t: nat)
    requires 0 < v && 0 < len && len % v == 0
    ensures t % v == (t % len) % v
  {
    Quotient(len, v);
    Quotient(t, len);
    MulAtLeast(len / v, t / len);
    Reassociate(v, len / v, t / len, len);
    ModShift(t % len, v, (len / v) * (t / len));
  }

  lemma Reassociate(v: nat, k: nat, q: nat, len: nat)
    requires len == v * k
    ensures len * q == v * (k * q)
  {}

  lemma ModShift(x: nat, v: nat, k: nat)
    requires 0 < v
    ensures (x + v * k) % v == x % v
  {
    Quotient(x, v);
    Quotient(x + v * k, v);
    MulSplit(v, k, x / v + k);
    Remainder(v, x / v + k, x % v, (x + v * k) / v, (x + v * k) % v);
  }

  lemma Remainder(v: nat, q: nat, r: nat, q': nat, r': nat)
    requires 0 < v && r < v && r' < v && v * q + r == v * q' + r'
    ensures r == r'
  {
    MulOrder(v, q, q');
    MulOrder(v, q', q);
  }

  // ---- the job table -----------------------------------------------------------------------------------------

  datatype Job = Job(cmd: string, pid: int)

  /** No command is in the table twice. */
  ghost predicate DistinctCommands(jobs: seq<Job>) {
    forall i, j :: 0 <= i < j < |jobs| ==> jobs[i].cmd != jobs[j].cmd
  }

  ghost predicate Running(jobs: seq<Job>, cmd: string) { exists i :: 0 <= i < |jobs| && jobs[i].cmd == cmd }

  /** The table without the first job of the given process. */
  ghost function Reaped(jobs: seq<Job>, pid: int): seq<Job> {
    if jobs == [] then [] else if jobs[0].pid == pid then jobs[1..] else [jobs[0]] + Reaped(jobs[1..], pid)
  }

  ghost function ReapedAll(jobs: seq<Job>, pids: seq<int>): seq<Job> {
    if pids == [] then jobs else Reaped(ReapedAll(jobs, pids[..|pids| - 1]), pids[|pids| - 1])
  }

  lemma {:induction false} ReapedIs(jobs: seq<Job>, pid: int, k: nat)
    requires k <= |jobs| && (forall i :: 0 <= i < k ==> jobs[i].pid != pid) && (k < |jobs| ==> jobs[k].pid == pid)
    ensures Reaped(jobs, pid) == if k < |jobs| then jobs[..k] + jobs[k + 1..] else jobs
  {
    if k > 0 {
      ReapedIs(jobs[1..], pid, k - 1);
      WithoutLater(jobs, k);
    }
  }

  lemma WithoutLater(jobs: seq<Job>, k: nat)
    requires 0 < k <= |jobs|
    ensures [jobs[0]] + jobs[1..] == jobs
    ensures k < |jobs| ==> [jobs[0]] + (jobs[1..][..k - 1] + jobs[1..][k..]) == jobs[..k] + jobs[k + 1..]
  {}

  class JobTable {
    var jobs: seq<Job>

    constructor ()
      ensures jobs == []
    {
      jobs := [];
    }

    /** runjob: skip a command that is already running; pid is what fork returned. */
    method RunJob(cmd: string, pid: int)
      requires DistinctCommands(jobs)
      modifies this
      ensures DistinctCommands(jobs)
      ensures jobs == if Running(old(jobs), cmd) || pid < 0 then old(jobs) else old(jobs) + [Job(cmd, pid)]
    {
      for i := 0 to |jobs|
        invariant forall j :: 0 <= j < i ==> jobs[j].cmd != cmd
        invariant jobs == old(jobs)
      {
        if jobs[i].cmd == cmd {
          return;
        }
      }
      if pid < 0 {
        return;
      }
      jobs := jobs + [Job(cmd, pid)];
    }

    /** waitjob: drop the job of each process that waitpid reports. */
    method WaitJob(pids: seq<int>)
      requires DistinctCommands(jobs)
      modifies this
      ensures DistinctCommands(jobs) && jobs == ReapedAll(old(jobs), pids)
    {
      for n := 0 to |pids|
        invariant DistinctCommands(jobs) && jobs == ReapedAll(old(jobs), pids[..n])
      {
        assert pids[..n + 1][..n] == pids[..n];
        Reap(pids[n]);
      }
      assert pids[..|pids|] == pids;
    }

    /** Find the job of a process and take it out of the table. */
    method Reap(pid: int)
      requires DistinctCommands(jobs)
      modifies this
      ensures DistinctCommands(jobs) && jobs == Reaped(old(jobs), pid)
    {
      hide Reaped;
      var k := 0;
      while k < |jobs| && jobs[k].pid != pid
        invariant k <= |jobs| && forall i :: 0 <= i < k ==> jobs[i].pid != pid
      {
        k := k + 1;
      }
      ReapedIs(jobs, pid, k);
      if k < |jobs| {
        jobs := jobs[..k] + jobs[k + 1..];
      }
    }
  }

  datatype Event = Fork(cmd: string, pid: int) | Wait(pids: seq<int>)

  /** What an event makes of the table. */
  ghost function NextTable(jobs: seq<Job>, e: Event): seq<Job> {
    match e
    case Fork(cmd, pid) => if Running(jobs, cmd) || pid < 0 then jobs else jobs + [Job(cmd, pid)]
    case Wait(pids) => ReapedAll(jobs, pids)
  }

  /** In every run of the daemon the table never holds two entries for the same command. */
  method RunDaemon(events: seq<Event>) returns (tables: seq<seq<Job>>)
    ensures |tables| == |events| + 1 && tables[0] == []
    ensures forall n :: 0 <= n < |tables| ==> DistinctCommands(tables[n])
    ensures forall n :: 0 <= n < |events| ==> tables[n + 1] == NextTable(tables[n], events[n])
  {
    hide DistinctCommands, Running, ReapedAll;
    var table := new JobTable();
    NoJobs();
    tables := [table.jobs];
    for n := 0 to |events|
      invariant |tables| == n + 1 && tables[n] == table.jobs && tables[0] == [] && fresh(table)
      invariant forall m :: 0 <= m <= n ==> DistinctCommands(tables[m])
      invariant forall m :: 0 <= m < n ==> tables[m + 1] == NextTable(tables[m], events[m])
    {
      match events[n] {
        case Fork(cmd, pid) => table.RunJob(cmd, pid);
        case Wait(pids) => table.WaitJob(pids);
      }
      tables := tables + [table.jobs];
    }
  }

  lemma NoJobs()
    ensures DistinctCommands([])
  {}
}
