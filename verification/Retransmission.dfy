/**
 The retransmission timers of the DHCPv6 client, src/dhcp/client/dhc6.c (section 14 of RFC 3315).
 Timeouts (RT, IRT, MRT) are in hundredths of a second, MRD is in seconds.
 */
module Retransmission {
  // ---- struct timeval ------------------------------------------------------------------------

  datatype Timeval = Timeval(sec: int, usec: int)

  predicate Normal(t: Timeval) { 0 <= t.usec < 1000000 }

  function Micros(t: Timeval): int { t.sec * 1000000 + t.usec }

  /** cur - start, with a borrow. */
  function Elapsed(cur: Timeval, start: Timeval): (e: Timeval)
    requires Normal(cur) && Normal(start)
    ensures Normal(e) && Micros(e) == Micros(cur) - Micros(start)
  {
    var sec, usec := cur.sec - start.sec, cur.usec - start.usec;
    if usec < 0 then Timeval(sec - 1, usec + 1000000) else Timeval(sec, usec)
  }

  /** t + rt hundredths of a second, with a carry. */
  function Plus(t: Timeval, rt: nat): (e: Timeval)
    requires Normal(t)
    ensures Normal(e) && Micros(e) == Micros(t) + rt * 10000
  {
    var sec, usec := t.sec + rt / 100, t.usec + rt % 100 * 10000;
    if usec >= 1000000 then Timeval(sec + 1, usec - 1000000) else Timeval(sec, usec)
  }

  /** Some microseconds later. */
  function Delayed(t: Timeval, micros: nat): (e: Timeval)
    requires Normal(t)
    ensures Normal(e) && Micros(e) == Micros(t) + micros
  {
    var usec := t.usec + micros;
    Timeval(t.sec + usec / 1000000, usec % 1000000)
  }

  lemma WholeSeconds(t: Timeval, n: int)
    requires Normal(t)
    ensures t.sec >= n <==> Micros(t) >= n * 1000000
  {}

  // ---- dhc6_rand -------------------------------------------------------------------------------

  function Split(base: int): int { (base - 1) / 10 }

  /** The draw as a number from minus the split to the split. */
  function Offset(base: int, draw: nat): (r: int)
    requires base > 0
    ensures -Split(base) <= r <= Split(base)
  {
    draw % (2 * Split(base) + 1) - Split(base)
  }

  /** A base that is not positive is fatal in the program, so it is a precondition here. */
  method Rand(base: int, draw: nat) returns (r: int)
    requires base > 0
    ensures r == Offset(base, draw) && -Split(base) <= r <= Split(base)
  {
    var split := (base - 1) / 10;
    if split == 0 {
      return 0;
    }
    var range := split * 2 + 1;
    r := draw % range - split;
  }

  datatype Timing = Success | MrcExceeded | MrdExceeded

  /** RT is within the randomness of MRT. */
  predicate InBand(rt: int, mrt: int) { mrt > 0 && mrt - Split(mrt) <= rt <= mrt + Split(mrt) }

  /** Twice the timeout, within the randomness of it. */
  predicate Doubled(rt: int, next: int) { 2 * rt - Split(rt) <= next <= 2 * rt + Split(rt) }

  /**
   How RT moves from one send to the next while MRD is out of reach: it doubles, and so grows, while
   that stays within MRT; once doubling would pass MRT it is around MRT, and stays there.
   */
  predicate Grows(rt: int, next: int, mrt: int) {
    && (|| (Doubled(rt, next) && rt < next && (mrt == 0 || next <= mrt))
        || (InBand(next, mrt) && 2 * rt + Split(rt) > mrt))
    && (InBand(rt, mrt) ==> InBand(next, mrt))
  }

  /** The first timeout: around IRT, and for a Solicit mirrored to lie above it. */
  function FirstRt(irt: int, solicit: bool, draw: nat): int
    requires irt > 0
  {
    var r := Offset(irt, draw);
    if !solicit then irt + r else if r == 0 then irt + 1 else if r < 0 then irt - r else irt + r
  }

  /** The timeout after rt when MRD is out of reach. */
  function Unclamped(rt: int, mrt: int, draw1: nat, draw2: nat): (r: int)
    requires rt > 0 && mrt >= 0
    ensures r > 0 && Grows(rt, r, mrt)
  {
    var doubled := 2 * rt + Offset(rt, draw1);
    if mrt != 0 && doubled > mrt then mrt + Offset(mrt, draw2) else doubled
  }

  // ---- the randomness ------------------------------------------------------------------------

  /** The split is the largest number of which ten stay below the base. */
  lemma SplitIsLargest(base: int, s: int)
    requires base > 0
    ensures 10 * Split(base) < base && (10 * s < base <==> s <= Split(base))
  {}

  /** The draws run through the band from its lower end, one by one, and start over after its upper end. */
  lemma OffsetCycles(base: int, draw: nat)
    requires base > 0
    ensures Offset(base, 0) == -Split(base)
    ensures var r := Offset(base, draw);
      Offset(base, draw + 1) == if r == Split(base) then -Split(base) else r + 1
  {
    var n := 2 * Split(base) + 1;
    NextMod(draw, n);
  }

  lemma NextMod(d: nat, n: nat)
    requires n > 0
    ensures (d + 1) % n == if d % n == n - 1 then 0 else d % n + 1
  {
    var q := d / n;
    assert d == n * q + d % n;
    if d % n == n - 1 {
      assert d + 1 == n * (q + 1);
      ModIs(d + 1, n, q + 1, 0);
    } else {
      ModIs(d + 1, n, q, d % n + 1);
    }
  }

  lemma ModIs(a: nat, n: nat, q: nat, r: nat)
    requires a == n * q + r && r < n
    ensures a % n == r
  {
    var k := a / n - q;
    assert a == n * (a / n) + a % n;
    assert n * k == r - a % n;
    assert k >= 1 ==> n * k >= n;
    assert k <= -1 ==> n * (-k) >= n;
  }

  /** Each number of the band is drawn, and by one draw of each turn. */
  lemma OffsetReaches(base: int, r: int)
    requires base > 0 && -Split(base) <= r <= Split(base)
    ensures r + Split(base) >= 0 && Offset(base, r + Split(base)) == r
  {
    ModIs(r + Split(base), 2 * Split(base) + 1, 0, r + Split(base));
  }

  /** The first timeout of an exchange can be any within the split of IRT; of a Solicit, any above IRT within it. */
  lemma FirstRtReaches(irt: int, solicit: bool, rt: int)
    requires irt > 0
    ensures (exists draw :: FirstRt(irt, solicit, draw) == rt) <==>
      if !solicit then irt - Split(irt) <= rt <= irt + Split(irt)
      else irt < rt <= irt + Split(irt) || rt == irt + 1
  {
    hide Offset, Split;
    if !solicit && irt - Split(irt) <= rt <= irt + Split(irt) {
      OffsetReaches(irt, rt - irt);
      assert FirstRt(irt, solicit, rt - irt + Split(irt)) == rt;
    }
    if solicit && irt < rt <= irt + Split(irt) {
      OffsetReaches(irt, rt - irt);
      assert FirstRt(irt, solicit, rt - irt + Split(irt)) == rt;
    }
    if solicit && rt == irt + 1 {
      SplitIsLargest(irt, 0);
      OffsetReaches(irt, 0);
      assert FirstRt(irt, solicit, Split(irt)) == rt;
    }
  }

  /**
   The timeouts that can follow rt: any within its split of twice rt that is at most MRT; and, if one of
   those is above MRT, any within the split of MRT.
   */
  lemma UnclampedReaches(rt: int, mrt: int, next: int)
    requires rt > 0 && mrt >= 0
    ensures (exists draw1, draw2 :: Unclamped(rt, mrt, draw1, draw2) == next) <==>
      || (Doubled(rt, next) && (mrt == 0 || next <= mrt))
      || (2 * rt + Split(rt) > mrt && InBand(next, mrt))
  {
    hide Offset, Split, Grows;
    if Doubled(rt, next) && (mrt == 0 || next <= mrt) {
      OffsetReaches(rt, next - 2 * rt);
      assert Unclamped(rt, mrt, next - 2 * rt + Split(rt), 0) == next;
    }
    if 2 * rt + Split(rt) > mrt && InBand(next, mrt) {
      SplitIsLargest(rt, 0);
      OffsetReaches(rt, Split(rt));
      OffsetReaches(mrt, next - mrt);
      assert Unclamped(rt, mrt, 2 * Split(rt), next - mrt + Split(mrt)) == next;
    }
  }

  /** Whether the timeout r, starting when `due` microseconds have passed, would reach MRD. */
  predicate Reaches(mrd: int, due: int, r: int) { mrd > 0 && due + r * 10000 >= mrd * 1000000 }

  /** The next timeout: if it would reach MRD, what is then left of MRD. */
  function Advanced(rt: int, mrt: int, mrd: int, due: int, draw1: nat, draw2: nat): int
    requires rt > 0 && mrt >= 0
  {
    var r := Unclamped(rt, mrt, draw1, draw2);
    if !Reaches(mrd, due, r) then r else if mrd * 100 - due / 10000 < 0 then 0 else mrd * 100 - due / 10000
  }

  class Client {
    var RT: int
    var IRT: int
    var MRT: int
    var MRC: int
    var MRD: int
    var txcount: int
    var startTime: Timeval

    constructor (irt: int, mrt: int, mrc: int, mrd: int)
      ensures IRT == irt && MRT == mrt && MRC == mrc && MRD == mrd && Normal(startTime)
    {
      IRT, MRT, MRC, MRD, RT, txcount, startTime := irt, mrt, mrc, mrd, 0, 0, Timeval(0, 0);
    }

    /** dhc6_retrans_init. */
    method RetransInit(draw: nat)
      requires IRT > 0
      modifies this`RT, this`txcount
      ensures txcount == 0 && RT == FirstRt(IRT, false, draw) && RT > 0 && IRT - Split(IRT) <= RT <= IRT + Split(IRT)
    {
      txcount := 0;
      var r := Rand(IRT, draw);
      RT := IRT + r;
    }

    /** The start of a Solicit exchange: the first RT is strictly greater than IRT. */
    method SolicitInit(draw: nat)
      requires IRT > 0
      modifies this`RT, this`txcount
      ensures txcount == 0 && RT == FirstRt(IRT, true, draw)
      ensures IRT < RT <= IRT + (if Split(IRT) > 0 then Split(IRT) else 1)
    {
      RetransInit(draw);
      if RT <= IRT {
        RT := IRT + (IRT - RT);
      }
      if RT <= IRT {
        RT := IRT + 1;
      }
    }

    /** check_timing6. */
    method CheckTiming(cur: Timeval) returns (r: Timing)
      requires Normal(cur) && Normal(startTime)
      modifies this`startTime
      ensures Normal(startTime) && startTime == if txcount == 0 then cur else old(startTime)
      ensures r == MrcExceeded <==> txcount != 0 && MRC != 0 && txcount > MRC
      ensures r == MrdExceeded ==> MRD != 0 && Micros(cur) - Micros(startTime) >= MRD * 1000000
      ensures r == Success ==> MRD != 0 ==> Micros(cur) - Micros(startTime) < MRD * 1000000
    {
      hide Micros, Elapsed;
      if txcount == 0 {
        startTime := cur;
      } else if MRC != 0 && txcount > MRC {
        return MrcExceeded;
      }
      var elapsed := Elapsed(cur, startTime);
      WholeSeconds(elapsed, MRD);
      if MRD != 0 && elapsed.sec >= MRD {
        return MrdExceeded;
      }
      return Success;
    }

    /** The doubling of RT, capped around MRT. */
    method Double(draw1: nat, draw2: nat)
      requires RT > 0 && MRT >= 0
      modifies this`RT
      ensures RT == Unclamped(old(RT), MRT, draw1, draw2) && RT > 0 && Grows(old(RT), RT, MRT)
    {
      var r := Rand(RT, draw1);
      RT := RT + (RT + r);
      if MRT != 0 && RT > MRT {
        r := Rand(MRT, draw2);
        RT := MRT + r;
      }
    }

    /**
     dhc6_retrans_advance, called just after a send at time cur.  Unless the next timeout would
     reach MRD, RT doubles and is capped around MRT; otherwise it becomes what is left of MRD once
     the timeout that is running now has passed.
     */
    method RetransAdvance(cur: Timeval, draw1: nat, draw2: nat)
      requires RT > 0 && MRT >= 0 && MRD >= 0 && Normal(cur) && Normal(startTime)
      modifies this`RT, this`txcount
      ensures txcount == old(txcount) + 1
      ensures RT == Advanced(old(RT), MRT, MRD, Micros(cur) - Micros(startTime) + old(RT) * 10000, draw1, draw2)
    {
      hide Grows, Unclamped;
      var elapsed := Plus(Elapsed(cur, startTime), RT);
      var elapsedPlusRt := elapsed;
      Double(draw1, draw2);
      if MRD == 0 {
        txcount := txcount + 1;
        return;
      }
      elapsed := Plus(elapsed, RT);
      WholeSeconds(elapsed, MRD);
      if elapsed.sec >= MRD {
        Hundredths(elapsedPlusRt);
        RT := MRD - elapsedPlusRt.sec;
        RT := RT * 100 - elapsedPlusRt.usec / 10000;
        if RT < 0 {
          RT := 0;
        }
      }
      txcount := txcount + 1;
    }
  }

  lemma Hundredths(t: Timeval)
    requires Normal(t)
    ensures Micros(t) / 10000 == t.sec * 100 + t.usec / 10000
  {}

  /**
   What the clamp does.  A timeout that stays clear of MRD doubles, capped around MRT; one that would
   reach it ends with MRD, to within ten milliseconds, or is zero when MRD will have passed.
   */
  lemma AdvancedIs(rt: int, mrt: int, mrd: int, due: int, draw1: nat, draw2: nat)
    requires rt > 0 && mrt >= 0 && mrd >= 0
    ensures var r := Advanced(rt, mrt, mrd, due, draw1, draw2);
      && r >= 0
      && (if Reaches(mrd, due, Unclamped(rt, mrt, draw1, draw2))
          then Reaches(mrd, due, r) && (r > 0 ==> due + r * 10000 < mrd * 1000000 + 10000)
          else r > 0 && Grows(rt, r, mrt) && !Reaches(mrd, due, r))
  {
    hide Unclamped, Grows;
  }

  // ---- a whole exchange --------------------------------------------------------------------------

  /** One transmission: when it happened, and the timeout set for the next one. */
  datatype Send = Send(at: int, rt: int)

  /** Sends one after the other, none before its timeout, RT growing except possibly before the last, if MRD is over. */
  ghost predicate Paced(sends: seq<Send>, mrt: int, over: bool) {
    && (forall i :: 0 <= i < |sends| ==> sends[i].rt > 0)
    && (forall i :: 0 <= i < |sends| - 1 ==> sends[i + 1].at >= sends[i].at + sends[i].rt * 10000)
    && (forall i :: 0 <= i < |sends| - 1 ==> Grows(sends[i].rt, sends[i + 1].rt, mrt) || (over && i == |sends| - 2))
  }

  /** The send that follows a send: when the timer fires, and the timeout that is then set. */
  function Following(p: Params, x: Send, draw: nat -> nat, late: nat -> nat, i: nat): Send
    requires x.rt > 0 && p.mrt >= 0
  {
    Send(x.at + x.rt * 10000 + late(i),
         Advanced(x.rt, p.mrt, p.mrd, x.at + x.rt * 10000 - p.start, draw(2 * i + 1), draw(2 * i + 2)))
  }

  /** The sends are those that the draws and the delays determine, and `next` is the one to come. */
  ghost predicate Determined(p: Params, sends: seq<Send>, next: Send, draw: nat -> nat, late: nat -> nat) {
    && p.mrt >= 0 && (forall i :: 0 <= i < |sends| ==> sends[i].rt > 0)
    && (if sends == [] then next == Send(p.start, p.first)
        else sends[0] == Send(p.start, p.first) && next == Following(p, sends[|sends| - 1], draw, late, |sends| - 1))
    && (forall i :: 0 <= i < |sends| - 1 ==> sends[i + 1] == Following(p, sends[i], draw, late, i))
  }

  lemma DeterminedNext(p: Params, sends: seq<Send>, next: Send, draw: nat -> nat, late: nat -> nat)
    requires Determined(p, sends, next, draw, late) && next.rt > 0
    ensures Determined(p, sends + [next], Following(p, next, draw, late, |sends|), draw, late)
  {
    hide Following;
  }

  ghost predicate Within(sends: seq<Send>, mrd: int) {
    forall i :: 0 <= i < |sends| ==> sends[i].at - sends[0].at < mrd * 1000000
  }

  lemma {:induction false} PacedSpread(sends: seq<Send>, mrt: int, over: bool, i: nat)
    requires Paced(sends, mrt, over) && i < |sends|
    ensures sends[i].at >= sends[0].at + i * 10000
  {
    if i > 0 {
      PacedSpread(sends, mrt, over, i - 1);
      assert sends[i].at >= sends[i - 1].at + sends[i - 1].rt * 10000;
    }
  }

  datatype Params = Params(mrt: int, mrc: int, mrd: int, start: int, first: int)

  /**
   The state in which a timer fires at time `now` with `rt` as the next timeout.  A clamped RT
   takes the timer after it to the end of MRD.
   */
  ghost predicate Ready(p: Params, sends: seq<Send>, rt: int, now: int, clamped: bool) {
    && Sane(p) && rt >= 0 && (!clamped ==> rt > 0) && (clamped ==> p.mrd > 0)
    && (clamped ==> now - p.start + rt * 10000 >= p.mrd * 1000000)
    && (clamped && rt == 0 ==> now - p.start >= p.mrd * 1000000)
    && (if sends == [] then !clamped && rt == p.first && now == p.start else Underway(p, sends, rt, now, clamped))
  }

  ghost predicate Sane(p: Params) { p.mrt >= 0 && p.mrc >= 0 && p.mrd >= 0 && p.first > 0 }

  ghost predicate Underway(p: Params, sends: seq<Send>, rt: int, now: int, clamped: bool)
    requires sends != []
  {
    && sends[0] == Send(p.start, p.first)
    && now >= sends[|sends| - 1].at + sends[|sends| - 1].rt * 10000
    && (!clamped ==> Grows(sends[|sends| - 1].rt, rt, p.mrt))
    && (forall i :: 0 <= i < |sends| ==> sends[i].rt > 0)
    && (forall i :: 0 <= i < |sends| - 1 ==> sends[i + 1].at >= sends[i].at + sends[i].rt * 10000)
    && (forall i :: 0 <= i < |sends| - 1 ==>
          Grows(sends[i].rt, sends[i + 1].rt, p.mrt) || (i == |sends| - 2 && Over(p, now)))
    && (p.mrd > 0 ==> Within(sends, p.mrd))
    && (p.mrc > 0 ==> |sends| <= p.mrc + 1)
  }

  /** MRD has passed. */
  ghost predicate Over(p: Params, now: int) { p.mrd > 0 && now - p.start >= p.mrd * 1000000 }

  /** What check_timing6 lets through. */
  ghost predicate InTime(p: Params, sends: seq<Send>, now: int) {
    !Over(p, now) && (p.mrc > 0 ==> |sends| <= p.mrc)
  }

  /** A send, and what the advance makes of RT, lead to the next firing. */
  lemma ReadyAgain(p: Params, sends: seq<Send>, rt: int, now: int, clamped: bool, rt': int, now': int, clamped': bool)
    requires Ready(p, sends, rt, now, clamped) && InTime(p, sends, now)
    requires now' >= now + rt * 10000 && rt' >= 0 && (!clamped' ==> rt' > 0 && Grows(rt, rt', p.mrt))
    requires clamped' ==> p.mrd > 0 && now + rt * 10000 - p.start + rt' * 10000 >= p.mrd * 1000000
    requires clamped' && rt' == 0 ==> now + rt * 10000 - p.start >= p.mrd * 1000000
    ensures rt > 0 && Ready(p, sends + [Send(now, rt)], rt', now', clamped')
  {
    hide Grows;
  }

  lemma ReadyIsPaced(p: Params, sends: seq<Send>, rt: int, now: int, clamped: bool)
    requires Ready(p, sends, rt, now, clamped)
    ensures Paced(sends, p.mrt, Over(p, now))
    ensures p.mrd > 0 ==> Within(sends, p.mrd) && |sends| <= 100 * p.mrd
    ensures p.mrc > 0 ==> |sends| <= p.mrc + 1
  {
    hide Grows;
    if p.mrd > 0 && sends != [] {
      PacedSpread(sends, p.mrt, Over(p, now), |sends| - 1);
    }
  }

  /**
   The first n sends of an exchange with a fixed MRD, or all of them if there are fewer: the first timer
   fires at `start`, each later one no earlier than it was set for (`late` gives the delays), and `draw`
   the random numbers.  These determine every send and its timeout.  Nothing is sent once MRD has
   passed; the exchange does not give up before the count or MRD is used up at `end`, and it has given
   up by then if n is larger than the number of sends that MRC or MRD leaves room for.  Rand is never
   given a base that is not positive.
   */
  method Exchange(irt: int, mrt: int, mrc: int, mrd: int, solicit: bool, start: Timeval, draw: nat -> nat,
                  late: nat -> nat, n: nat)
    returns (sends: seq<Send>, end: int)
    requires irt > 0 && mrt >= 0 && mrc >= 0 && mrd >= 0 && Normal(start)
    ensures Sent(Params(mrt, mrc, mrd, Micros(start), FirstRt(irt, solicit, draw(0))), n, sends, end, draw, late)
    ensures forall i :: 0 <= i < |sends| ==> sends[i].rt > 0
    ensures forall i :: 0 <= i < |sends| ==>
      sends[i].at + sends[i].rt * 10000 + late(i) == if i == |sends| - 1 then end else sends[i + 1].at
    ensures forall i :: 0 <= i < |sends| - 1 ==>
      sends[i + 1].rt == Advanced(sends[i].rt, mrt, mrd, sends[i].at + sends[i].rt * 10000 - Micros(start),
                                  draw(2 * i + 1), draw(2 * i + 2))
    ensures n > 0 ==> sends != [] && irt - Split(irt) <= sends[0].rt && (solicit ==> sends[0].rt > irt)
    ensures (mrc > 0 && n > mrc + 1) || (mrd > 0 && n > 100 * mrd) ==>
      GaveUp(Params(mrt, mrc, mrd, Micros(start), FirstRt(irt, solicit, draw(0))), sends, end)
  {
    hide Micros, Determined, Paced, Within, FirstRt;
    var c := new Client(irt, mrt, mrc, mrd);
    if solicit {
      c.SolicitInit(draw(0));
    } else {
      c.RetransInit(draw(0));
    }
    ghost var p := Params(mrt, mrc, mrd, Micros(start), c.RT);
    sends, end := SendAll(c, p, start, draw, late, n);
    OnTime(p, n, sends, end, draw, late);
    if n > 0 {
      DeterminedStart(p, n, sends, end, draw, late);
    }
  }

  /** The count or MRD is used up. */
  ghost predicate GaveUp(p: Params, sends: seq<Send>, end: int) {
    (p.mrc > 0 && |sends| == p.mrc + 1) || Over(p, end)
  }

  /** What an exchange has sent in its first n sends, or by the time it gives up. */
  ghost predicate Sent(p: Params, n: nat, sends: seq<Send>, end: int, draw: nat -> nat, late: nat -> nat) {
    && |sends| <= n && (|sends| < n ==> sends != [] && GaveUp(p, sends, end))
    && (exists rt :: Determined(p, sends, Send(end, rt), draw, late))
    && Paced(sends, p.mrt, Over(p, end))
    && (p.mrd > 0 ==> Within(sends, p.mrd) && |sends| <= 100 * p.mrd)
    && (p.mrc > 0 ==> |sends| <= p.mrc + 1)
  }

  /** Each timer is set for the timeout of the send before it, and fires late by its own delay. */
  lemma OnTime(p: Params, n: nat, sends: seq<Send>, end: int, draw: nat -> nat, late: nat -> nat)
    requires Sent(p, n, sends, end, draw, late)
    ensures forall i :: 0 <= i < |sends| ==>
      sends[i].at + sends[i].rt * 10000 + late(i) == if i == |sends| - 1 then end else sends[i + 1].at
    ensures p.mrt >= 0 && forall i :: 0 <= i < |sends| ==> sends[i].rt > 0
    ensures forall i :: 0 <= i < |sends| - 1 ==>
      sends[i + 1].rt == Advanced(sends[i].rt, p.mrt, p.mrd, sends[i].at + sends[i].rt * 10000 - p.start,
                                  draw(2 * i + 1), draw(2 * i + 2))
  {
    hide Advanced, Paced, Within;
  }

  lemma DeterminedStart(p: Params, n: nat, sends: seq<Send>, end: int, draw: nat -> nat, late: nat -> nat)
    requires Sent(p, n, sends, end, draw, late) && sends != []
    ensures sends[0] == Send(p.start, p.first)
  {}

  /** The firings of the timer. */
  method SendAll(c: Client, ghost p: Params, start: Timeval, draw: nat -> nat, late: nat -> nat, n: nat)
    returns (sends: seq<Send>, end: int)
    requires Sane(p) && Normal(start) && Normal(c.startTime) && p.start == Micros(start) && p.first == c.RT
    requires c.MRT == p.mrt && c.MRC == p.mrc && c.MRD == p.mrd && c.txcount == 0
    modifies c
    ensures Sent(p, n, sends, end, draw, late)
  {
    hide Ready, Paced, Within, Micros, Determined;
    var now := start;
    sends := [];
    ghost var clamped := false;
    ReadyFirst(p);
    DeterminedFirst(p, draw, late);
    while |sends| < n
      invariant c.MRT == p.mrt && c.MRC == p.mrc && c.MRD == p.mrd && c.txcount == |sends| <= n
      invariant Normal(now) && Normal(c.startTime) && (sends != [] ==> Micros(c.startTime) == p.start)
      invariant Ready(p, sends, c.RT, Micros(now), clamped) && (sends == [] ==> now == start)
      invariant Determined(p, sends, Send(Micros(now), c.RT), draw, late)
    {
      ReadyIsPaced(p, sends, c.RT, Micros(now), clamped);
      var timing := c.CheckTiming(now);
      if timing != Success {
        ReadyStops(p, sends, c.RT, Micros(now), clamped);
        end := Micros(now);
        return;
      }
      ReadyPositive(p, sends, c.RT, Micros(now), clamped);
      DeterminedNext(p, sends, Send(Micros(now), c.RT), draw, late);
      sends, now, clamped := SendNext(c, p, now, sends, draw, late, clamped);
    }
    ReadyIsPaced(p, sends, c.RT, Micros(now), clamped);
    end := Micros(now);
  }

  lemma DeterminedFirst(p: Params, draw: nat -> nat, late: nat -> nat)
    requires p.mrt >= 0
    ensures Determined(p, [], Send(p.start, p.first), draw, late)
  {}

  lemma ReadyFirst(p: Params)
    requires Sane(p)
    ensures Ready(p, [], p.first, p.start, false)
  {}

  lemma ReadyPositive(p: Params, sends: seq<Send>, rt: int, now: int, clamped: bool)
    requires Ready(p, sends, rt, now, clamped) && InTime(p, sends, now)
    ensures rt > 0 && (sends == [] ==> now == p.start)
  {}

  /** The first timer always sends, so an exchange that stops has sent something. */
  lemma ReadyStops(p: Params, sends: seq<Send>, rt: int, now: int, clamped: bool)
    requires Ready(p, sends, rt, now, clamped) && !InTime(p, sends, now)
    ensures sends != []
  {}

  /** The sending half of do_info_request6 and its kin: transmit, set the timer, advance. */
  method SendNext(c: Client, ghost p: Params, now: Timeval, sends: seq<Send>, draw: nat -> nat, late: nat -> nat,
                  ghost clamped: bool)
    returns (sends': seq<Send>, now': Timeval, ghost clamped': bool)
    requires c.MRT == p.mrt && c.MRD == p.mrd && Normal(now) && Normal(c.startTime) && Micros(c.startTime) == p.start
    requires Ready(p, sends, c.RT, Micros(now), clamped) && InTime(p, sends, Micros(now)) && c.RT > 0 && Sane(p)
    modifies c`RT, c`txcount
    ensures sends' == sends + [Send(Micros(now), old(c.RT))] && c.txcount == old(c.txcount) + 1
    ensures Normal(now') && Ready(p, sends', c.RT, Micros(now'), clamped')
    ensures Send(Micros(now'), c.RT) == Following(p, Send(Micros(now), old(c.RT)), draw, late, |sends|)
  {
    hide Ready, InTime, Unclamped, Grows, Advanced, Micros, Plus;
    sends' := sends + [Send(Micros(now), c.RT)];
    ghost var rt := c.RT;
    var due := Plus(now, c.RT);
    c.RetransAdvance(now, draw(2 * |sends| + 1), draw(2 * |sends| + 2));
    AdvancedIs(rt, p.mrt, p.mrd, Micros(due) - p.start, draw(2 * |sends| + 1), draw(2 * |sends| + 2));
    ghost var unclamped := Unclamped(rt, p.mrt, draw(2 * |sends| + 1), draw(2 * |sends| + 2));
    clamped' := Reaches(p.mrd, Micros(due) - p.start, unclamped);
    now' := Delayed(due, late(|sends|));
    ReadyAgain(p, sends, rt, Micros(now), clamped, c.RT, Micros(now'), clamped');
  }
}
