/**
 The timers of a DHCPv4 lease, as dhcpack in src/dhcp/client/dhclient.c computes them from the
 options of the server's answer (section 4.4.5 of RFC 2131).
 */
module LeaseTimers {
  /** TIME_MAX in src/dhcp/includes/osdep.h, whatever the width of time_t. */
  const TIME_MAX := 0x7FFF_FFFF

  /** The largest value of TIME, which is time_t: 32 or 64 bits wide. */
  type Width = w: int | w == 0x7FFF_FFFF || w == 0x7FFF_FFFF_FFFF_FFFF witness 0x7FFF_FFFF

  /** What storing x in a TIME leaves. */
  function Store(w: Width, x: int): int {
    (x + w + 1) % (2 * (w + 1)) - (w + 1)
  }

  predicate Fits(w: Width, x: int) { -1 - x <= w && x <= w }

  lemma StoreFits(w: Width, x: int)
    requires Fits(w, x)
    ensures Store(w, x) == x
  {}

  /** A 32-bit option value, or its absence. */
  type Seconds = x: int | 0 <= x <= 0xFFFF_FFFF
  datatype Opt = Absent | Given(value: Seconds)

  datatype Timers = Rejected | Timers(renewal: int, rebind: int, expiry: int)

  /** getULong of an option into a TIME. */
  function Fetch(w: Width, o: Opt): int {
    if o.Given? then Store(w, o.value) else 0
  }

  /** When the server's value counts as one that was sent. */
  predicate Sent(w: Width, o: Opt) { Fetch(w, o) > 0 }

  /** An intermediate result: the precondition is that TIME can hold it. */
  function Exact(w: Width, x: int): int
    requires Fits(w, x)
  {
    x
  }

  /** Add the current time; a sum that wraps below it becomes TIME_MAX. */
  function FromNow(w: Width, x: int, now: int): int {
    var sum := Store(w, x + now);
    if sum < now then TIME_MAX else sum
  }

  /**
   The clock is not within 2^32 seconds of the end of a 64-bit time_t.  A 32-bit clock may be
   anywhere in its range.
   */
  predicate ClockOk(w: Width, now: int) {
    0 <= now && (now + 0xFFFF_FFFF <= w || (w == TIME_MAX && now <= w))
  }

  /** Wrapping and saturating together are a minimum, so they keep the order of the timers. */
  lemma FromNowIs(w: Width, x: int, now: int)
    requires ClockOk(w, now) && 0 <= x <= w && x <= 0xFFFF_FFFF
    ensures FromNow(w, x, now) == if x + now <= w then x + now else TIME_MAX
  {
    if x + now <= w {
      StoreFits(w, x + now);
    } else {
      assert Store(w, x + now) == x + now - 2 * (w + 1);
    }
  }

  lemma FromNowMonotone(w: Width, x: int, y: int, now: int)
    requires ClockOk(w, now) && 0 <= x <= y <= w && y <= 0xFFFF_FFFF
    ensures now <= FromNow(w, x, now) <= FromNow(w, y, now)
  {
    FromNowIs(w, x, now);
    FromNowIs(w, y, now);
  }

  /** The lease time in use: a value that looks negative is just very large. */
  function Lease(w: Width, leaseTime: Opt): int {
    if Fetch(w, leaseTime) < 0 then TIME_MAX else Fetch(w, leaseTime)
  }

  /** The renewal time before it is made random. */
  function BaseRenewal(w: Width, leaseTime: Opt, t1: Opt): (r: int)
    requires Fetch(w, leaseTime) != 0
    ensures r > 0
  {
    if Fetch(w, t1) == 0 then Lease(w, leaseTime) / 2 + 1 else if Fetch(w, t1) < 0 then TIME_MAX else Fetch(w, t1)
  }

  lemma FetchRange(w: Width, o: Opt)
    ensures Fits(w, Fetch(w, o)) && Fetch(w, o) <= 0xFFFF_FFFF
  {}

  /** What the options mean: a time that TIME can hold is itself, a longer one counts as TIME_MAX or as not sent. */
  lemma OptionsAre(w: Width, o: Opt)
    ensures Lease(w, o) ==
      match o
      case Absent => 0
      case Given(v) => if v <= w then v else TIME_MAX
    ensures Sent(w, o) <==> o.Given? && 0 < o.value <= w
    ensures Sent(w, o) ==> Fetch(w, o) == o.value
    ensures Fetch(w, o) < 0 <==> o.Given? && o.value > w
  {
    if o.Given? && o.value > w {
      assert w == TIME_MAX && Store(w, o.value) == o.value - 0x1_0000_0000;
    } else if o.Given? {
      StoreFits(w, o.value);
    }
  }

  // ---- the intervals as functions of the options and the draw -------------------------------------

  function Randomized(renewal: int, draw: nat): int
    requires renewal > 0
  {
    if renewal <= 0x7FFF_FFFF / 3 - 3 then (renewal * 3 + 3) / 4 + (draw % renewal + 3) / 4 else renewal
  }

  function SevenEighths(expiry: int): int { if expiry <= 0x7FFF_FFFF / 7 then expiry * 7 / 8 else expiry / 8 * 7 }

  function ThreeQuarters(rebind: int): int { if rebind <= 0x7FFF_FFFF / 3 then rebind * 3 / 4 else rebind / 4 * 3 }

  function Rebind(w: Width, leaseTime: Opt, t2: Opt): int {
    if Sent(w, t2) then Fetch(w, t2) else SevenEighths(Lease(w, leaseTime))
  }

  function Renewal(w: Width, leaseTime: Opt, t1: Opt, t2: Opt, draw: nat): int
    requires Fetch(w, leaseTime) != 0
  {
    var r := Randomized(BaseRenewal(w, leaseTime, t1), draw);
    if r > Rebind(w, leaseTime, t2) then ThreeQuarters(Rebind(w, leaseTime, t2)) else r
  }

  /** Three quarters of the rebinding time, rounded. */
  predicate Capped(rebind: int, r: int) { 4 * r <= 3 * rebind && 3 * (rebind - 3) <= 4 * r }

  /**
   Section 4.4.5 of RFC 2131: without a T1 the renewal is three eighths to one half of the lease, with
   one it is three quarters to the whole of it, within rounding.
   */
  predicate Drawn(w: Width, leaseTime: Opt, t1: Opt, r: int) {
    match t1
    case Absent => 3 * Lease(w, leaseTime) <= 8 * r && 2 * r <= Lease(w, leaseTime) + 4
    case Given(v) =>
      if v == 0 then 3 * Lease(w, leaseTime) <= 8 * r && 2 * r <= Lease(w, leaseTime) + 4
      else if v <= w then 3 * v <= 4 * r && r <= v + 1
      else r == TIME_MAX
  }

  /** Only a draw past the rebinding time is capped below it. */
  ghost predicate RenewalOk(w: Width, leaseTime: Opt, t1: Opt, rebind: int, r: int) {
    || (Drawn(w, leaseTime, t1, r) && r <= rebind)
    || (Capped(rebind, r) && exists x :: Drawn(w, leaseTime, t1, x) && x > rebind)
  }

  lemma RenewalIsOk(w: Width, leaseTime: Opt, t1: Opt, t2: Opt, draw: nat)
    requires Fetch(w, leaseTime) != 0
    ensures RenewalOk(w, leaseTime, t1, Rebind(w, leaseTime, t2), Renewal(w, leaseTime, t1, t2, draw))
  {
    hide Fetch, Randomized, Lease, Rebind;
    OptionsAre(w, t1);
    OptionsAre(w, leaseTime);
    FetchRange(w, leaseTime);
    FetchOfNone(w, t1);
    RandomizedBounds(BaseRenewal(w, leaseTime, t1), draw);
    FetchRange(w, t2);
    OptionsAre(w, t2);
    RebindPositive(w, leaseTime, t2);
    assert Drawn(w, leaseTime, t1, Randomized(BaseRenewal(w, leaseTime, t1), draw));
  }

  lemma FetchOfNone(w: Width, o: Opt)
    ensures Fetch(w, o) == 0 <==> o == Absent || o == Given(0)
  {
    OptionsAre(w, o);
  }

  lemma RebindPositive(w: Width, leaseTime: Opt, t2: Opt)
    requires Fetch(w, leaseTime) != 0
    ensures Rebind(w, leaseTime, t2) >= 0
  {
    hide Fetch;
  }

  lemma RandomizedBounds(base: int, draw: nat)
    requires base > 0
    ensures var r := Randomized(base, draw); 3 * base <= 4 * r && r <= base + 1 && (base >= TIME_MAX / 3 ==> r == base)
  {}

  /**
   The draws reach every time from three quarters of the base, with draw 0, to the base, or one more,
   with a draw of one less than the base; a base too large for the product is left as it is.
   */
  lemma RandomizedReaches(base: int, r: int)
    requires base > 0
    ensures base > TIME_MAX / 3 - 3 ==> forall draw: nat :: Randomized(base, draw) == base
    ensures base <= TIME_MAX / 3 - 3 ==>
      ((exists draw: nat :: Randomized(base, draw) == r) <==> 3 * base <= 4 * r && r <= TopOf(base))
    ensures base <= TIME_MAX / 3 - 3 ==>
      Randomized(base, 0) == (3 * base + 3) / 4 && Randomized(base, base - 1) == TopOf(base)
  {
    if base <= TIME_MAX / 3 - 3 {
      TopIs(base);
      SmallMod(0, base);
      SmallMod(base - 1, base);
      forall draw: nat
        ensures 3 * base <= 4 * Randomized(base, draw) && Randomized(base, draw) <= TopOf(base)
      {
        assert 0 <= draw % base <= base - 1;
      }
      if 3 * base <= 4 * r && r <= TopOf(base) {
        var m := r - (3 * base + 3) / 4;
        var draw := if m == 0 then 0 else 4 * m - 3;
        SmallMod(draw, base);
        assert Randomized(base, draw) == r;
      }
    }
  }

  function TopOf(base: int): int { if base % 4 >= 2 then base + 1 else base }

  lemma TopIs(base: int)
    requires base > 0
    ensures TopOf(base) == (3 * base + 3) / 4 + (base + 2) / 4
  {}

  lemma SmallMod(d: int, n: int)
    requires 0 <= d < n
    ensures d % n == d
  {}

  /** What dhcpack leaves in the lease. */
  function Acknowledged(w: Width, leaseTime: Opt, t1: Opt, t2: Opt, draw: nat, now: int): Timers {
    if Fetch(w, leaseTime) == 0 then Rejected
    else
      Timers(FromNow(w, Renewal(w, leaseTime, t1, t2, draw), now),
             FromNow(w, Rebind(w, leaseTime, t2), now),
             FromNow(w, Lease(w, leaseTime), now))
  }

  /** The renewal time with its randomness: at least three quarters of the base and at most one over. */
  method Randomize(w: Width, renewal: int, draw: nat) returns (r: int)
    requires 0 < renewal <= w && renewal <= 0xFFFF_FFFF
    ensures r == Randomized(renewal, draw)
    ensures 0 < r <= w && r <= 0xFFFF_FFFF && 3 * renewal <= 4 * r && r <= renewal + 1
  {
    r := renewal;
    if renewal <= Exact(w, TIME_MAX / 3 - 3) {
      var part := draw % renewal;
      r := Exact(w, Exact(w, Exact(w, renewal * 3) + 3) / 4 + Exact(w, part + 3) / 4);
    }
  }

  /** The rebinding time when the server sent none: seven eighths of the lease, rounded down. */
  method DefaultRebind(w: Width, expiry: int) returns (r: int)
    requires 0 < expiry <= w
    ensures r == SevenEighths(expiry) && 0 <= r < expiry && 7 * (expiry - 7) <= 8 * r <= 7 * expiry
  {
    if expiry <= TIME_MAX / 7 {
      r := Exact(w, expiry * 7) / 8;
    } else {
      r := Exact(w, expiry / 8 * 7);
    }
  }

  /** Three quarters of the rebinding time, for a renewal time that ran past it. */
  method CapRenewal(w: Width, rebind: int) returns (r: int)
    requires 0 <= rebind <= w
    ensures r == ThreeQuarters(rebind) && 0 <= r <= rebind && Capped(rebind, r)
  {
    if rebind <= TIME_MAX / 3 {
      r := Exact(w, rebind * 3) / 4;
    } else {
      r := Exact(w, rebind / 4 * 3);
    }
  }

  /** The three intervals of an accepted lease, before the current time is added. */
  method Intervals(w: Width, leaseTime: Opt, t1: Opt, t2: Opt, draw: nat)
    returns (renewal: int, rebind: int, expiry: int)
    requires Fetch(w, leaseTime) != 0
    ensures renewal == Renewal(w, leaseTime, t1, t2, draw) && rebind == Rebind(w, leaseTime, t2)
    ensures expiry == Lease(w, leaseTime) && 0 < expiry <= w && expiry <= 0xFFFF_FFFF
    ensures 0 <= renewal <= rebind <= w && rebind <= 0xFFFF_FFFF
    ensures Sent(w, t2) ==> rebind == Fetch(w, t2)
    ensures !Sent(w, t2) ==> rebind < expiry && 7 * (expiry - 7) <= 8 * rebind <= 7 * expiry
    ensures var base := BaseRenewal(w, leaseTime, t1);
      (3 * base <= 4 * renewal && renewal <= base + 1) || Capped(rebind, renewal)
    ensures RenewalOk(w, leaseTime, t1, rebind, renewal)
  {
    hide *;
    var base;
    expiry, base := TakeOptions(w, leaseTime, t1);
    renewal := Randomize(w, base, draw);
    FetchRange(w, t2);
    RenewalIs(w, leaseTime, t1, t2, draw);
    rebind := Fetch(w, t2);
    if rebind <= 0 {
      rebind := DefaultRebind(w, expiry);
    }
    RenewalIsOk(w, leaseTime, t1, t2, draw);
    if renewal > rebind {
      renewal := CapRenewal(w, rebind);
    }
  }

  lemma RenewalIs(w: Width, leaseTime: Opt, t1: Opt, t2: Opt, draw: nat)
    requires Fetch(w, leaseTime) != 0
    ensures Rebind(w, leaseTime, t2) == if Sent(w, t2) then Fetch(w, t2) else SevenEighths(Lease(w, leaseTime))
    ensures var r := Randomized(BaseRenewal(w, leaseTime, t1), draw); var b := Rebind(w, leaseTime, t2);
      Renewal(w, leaseTime, t1, t2, draw) == if r > b then ThreeQuarters(b) else r
    ensures Sent(w, t2) <==> Fetch(w, t2) > 0
    ensures forall x :: Fits(w, x) ==> x <= w
  {
    hide Fetch, Randomized, BaseRenewal;
  }

  /** The lease time, and the renewal time before it is made random. */
  method TakeOptions(w: Width, leaseTime: Opt, t1: Opt) returns (expiry: int, renewal: int)
    requires Fetch(w, leaseTime) != 0
    ensures expiry == Lease(w, leaseTime) && 0 < expiry <= w && expiry <= 0xFFFF_FFFF
    ensures renewal == BaseRenewal(w, leaseTime, t1) && 0 < renewal <= w && renewal <= 0xFFFF_FFFF
  {
    hide Fetch;
    FetchRange(w, leaseTime);
    FetchRange(w, t1);
    expiry := Fetch(w, leaseTime);
    if expiry < 0 {
      expiry := TIME_MAX;
    }
    renewal := Fetch(w, t1);
    if renewal == 0 {
      renewal := Exact(w, expiry / 2 + 1);
    }
    if renewal <= 0 {
      renewal := TIME_MAX;
    }
  }

  /**
   The timer part of dhcpack.  No intermediate result overflows; unless the clock is near the end
   of a 64-bit time_t, the absolute times are ordered renewal, rebind, and, if the server did not
   choose the rebinding time itself, expiry.
   */
  method Dhcpack(w: Width, leaseTime: Opt, t1: Opt, t2: Opt, draw: nat, now: int) returns (t: Timers)
    requires 0 <= now <= w
    ensures t == Acknowledged(w, leaseTime, t1, t2, draw, now)
    ensures t.Rejected? <==> Fetch(w, leaseTime) == 0
    ensures t.Timers? && ClockOk(w, now) ==> now <= t.renewal && now <= t.expiry
    ensures t.Timers? ==> exists r, b ::
      t.renewal == FromNow(w, r, now) && t.rebind == FromNow(w, b, now) && RenewalOk(w, leaseTime, t1, b, r)
    ensures ClockOk(w, now) ==> InOrder(w, t, t2)
  {
    hide Fetch, FromNow, BaseRenewal, Renewal, Rebind, Lease, RenewalOk;
    if Fetch(w, leaseTime) == 0 {
      return Rejected;
    }
    var renewal, rebind, expiry := Intervals(w, leaseTime, t1, t2, draw);
    if ClockOk(w, now) {
      FromNowMonotone(w, renewal, rebind, now);
      if rebind <= expiry {
        FromNowMonotone(w, rebind, expiry, now);
      } else {
        FromNowMonotone(w, expiry, rebind, now);
      }
    }
    return Timers(FromNow(w, renewal, now), FromNow(w, rebind, now), FromNow(w, expiry, now));
  }

  /** Renewal, rebind, and, if the server did not choose the rebinding time itself, expiry. */
  predicate InOrder(w: Width, t: Timers, t2: Opt) {
    t.Timers? ==> t.renewal <= t.rebind && (!Sent(w, t2) ==> t.rebind <= t.expiry)
  }

  // ---- exactly when the order is kept ---------------------------------------------------------------

  /** The order of the intervals themselves. */
  lemma IntervalsInOrder(w: Width, leaseTime: Opt, t1: Opt, t2: Opt, draw: nat)
    requires Fetch(w, leaseTime) != 0
    ensures var renewal := Renewal(w, leaseTime, t1, t2, draw);
      var rebind, expiry := Rebind(w, leaseTime, t2), Lease(w, leaseTime);
      && 0 <= renewal <= rebind <= w && rebind <= 0xFFFF_FFFF && 0 < expiry <= w && expiry <= 0xFFFF_FFFF
      && (!Sent(w, t2) ==> rebind <= expiry)
  {
    hide Fetch, Randomized, BaseRenewal;
    FetchRange(w, leaseTime);
    FetchRange(w, t1);
    FetchRange(w, t2);
    RandomizedPositive(BaseRenewal(w, leaseTime, t1), draw);
  }

  lemma RandomizedPositive(renewal: int, draw: nat)
    requires renewal > 0
    ensures Randomized(renewal, draw) > 0
  {}

  /** 64-bit clocks 90 seconds from the end: T1 = 1 and T2 = 91 leave the rebinding time before the renewal. */
  lemma LateClockBreaksOrder(draw: nat)
    ensures var w: Width := 0x7FFF_FFFF_FFFF_FFFF; var now := w - 90;
      var t := Acknowledged(w, Given(1000), Given(1), Given(91), draw, now);
      t == Timers(now + 1, 0x7FFF_FFFF, 0x7FFF_FFFF) && !InOrder(w, t, Given(91))
  {
    hide Fetch, FromNow;
    var w: Width := 0x7FFF_FFFF_FFFF_FFFF;
    var now := w - 90;
    FetchGiven(1000);
    FetchGiven(1);
    FetchGiven(91);
    WrapsAround(w, 91, now);
    WrapsAround(w, 1000, now);
    NoWrap(w, 1, now);
  }

  lemma FetchGiven(v: Seconds)
    ensures Fetch(0x7FFF_FFFF_FFFF_FFFF, Given(v)) == v
  {
    StoreFits(0x7FFF_FFFF_FFFF_FFFF, v);
  }

  lemma NoWrap(w: Width, x: int, now: int)
    requires 0 <= x && 0 <= now && x + now <= w
    ensures FromNow(w, x, now) == x + now
  {
    StoreFits(w, x + now);
  }

  lemma WrapsAround(w: Width, x: int, now: int)
    requires 0x7FFF_FFFF < now <= w && 0 < x <= 0xFFFF_FFFF && x + now > w
    ensures FromNow(w, x, now) == 0x7FFF_FFFF
  {
    assert Store(w, x + now) == x + now - 2 * (w + 1);
  }

  ghost predicate AlwaysInOrder(w: Width, now: int) {
    forall leaseTime, t1, t2, draw: nat :: InOrder(w, Acknowledged(w, leaseTime, t1, t2, draw, now), t2)
  }

  /** Options with which a clock near the end of a 64-bit time_t gives times in the wrong order. */
  lemma LateOptions(w: Width, now: int) returns (t1: Opt, t2: Opt)
    requires 0 <= now <= w && !ClockOk(w, now)
    ensures !InOrder(w, Acknowledged(w, Given(1000), t1, t2, 0, now), t2)
  {
    hide Fetch, FromNow, Randomized;
    var d := w - now;
    FetchGiven(1000);
    if d >= 1 {
      t1, t2 := Given(1), Given(d + 1);
      FetchGiven(1);
      FetchGiven(d + 1);
      RandomizedSamples();
      NoWrap(w, 1, now);
      WrapsAround(w, d + 1, now);
    } else {
      t1, t2 := Given(100), Given(1);
      FetchGiven(100);
      FetchGiven(1);
      RandomizedSamples();
      NoWrap(w, 0, now);
      WrapsAround(w, 1, now);
    }
  }

  lemma RandomizedSamples()
    ensures Randomized(1, 0) == 1 && Randomized(100, 0) > 1
  {}

  /**
   For all options and draws, dhcpack leaves the absolute times in order if and only if the clock is
   not within 2^32 seconds of the end of a 64-bit time_t.
   */
  lemma InOrderIff(w: Width, now: int)
    requires 0 <= now <= w
    ensures AlwaysInOrder(w, now) <==> ClockOk(w, now)
  {
    hide Renewal, Rebind, Lease, FromNow, Fetch;
    if ClockOk(w, now) {
      forall leaseTime, t1, t2, draw: nat
        ensures InOrder(w, Acknowledged(w, leaseTime, t1, t2, draw, now), t2)
      {
        if Fetch(w, leaseTime) != 0 {
          IntervalsInOrder(w, leaseTime, t1, t2, draw);
          FromNowMonotone(w, Renewal(w, leaseTime, t1, t2, draw), Rebind(w, leaseTime, t2), now);
          if !Sent(w, t2) {
            FromNowMonotone(w, Rebind(w, leaseTime, t2), Lease(w, leaseTime), now);
          }
        }
      }
    } else {
      var t1, t2 := LateOptions(w, now);
    }
  }
}
