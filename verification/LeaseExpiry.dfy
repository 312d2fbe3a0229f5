/**
 The timers of a bound DHCPv6 lease: dhc6_check_times, do_depref and do_expire in
 src/dhcp/client/dhc6.c.  Times are seconds since the epoch; 0x7fffffff stands for "never" and a
 lifetime of 0xffffffff for "infinite".
 */
module Instants {
  const MAX_TIME: int := 0x7fff_ffff

  /** x is the least of the values, or the cap when every value is above it. */
  ghost predicate Least(x: int, cap: int, vals: seq<int>) {
    x <= cap && (forall k :: 0 <= k < |vals| ==> x <= vals[k]) && (x == cap || x in vals)
  }

  ghost predicate Most(x: int, floor: int, vals: seq<int>) {
    floor <= x && (forall k :: 0 <= k < |vals| ==> vals[k] <= x) && (x == floor || x in vals)
  }

  function Lowest(cap: int, vals: seq<int>): (r: int)
    ensures Least(r, cap, vals)
  {
    if vals == [] then cap
    else
      var r, v := Lowest(cap, vals[..|vals| - 1]), vals[|vals| - 1];
      assert vals == vals[..|vals| - 1] + [v];
      if v < r then v else r
  }

  function Highest(floor: int, vals: seq<int>): (r: int)
    ensures Most(r, floor, vals)
  {
    if vals == [] then floor
    else
      var r, v := Highest(floor, vals[..|vals| - 1]), vals[|vals| - 1];
      assert vals == vals[..|vals| - 1] + [v];
      if v > r then v else r
  }

  lemma LeastIsLowest(x: int, cap: int, vals: seq<int>)
    requires Least(x, cap, vals)
    ensures x == Lowest(cap, vals)
  {
    var r := Lowest(cap, vals);
    assert Least(r, cap, vals);
  }

  lemma MostIsHighest(x: int, floor: int, vals: seq<int>)
    requires Most(x, floor, vals)
    ensures x == Highest(floor, vals)
  {
    var r := Highest(floor, vals);
    assert Most(r, floor, vals);
  }

  /** A list whose own cap is no lower can be taken into a running minimum. */
  lemma LowestAppend(cap: int, u: seq<int>, y: int, cap': int, v: seq<int>)
    requires cap <= cap' && Least(y, cap', v)
    ensures (if y < Lowest(cap, u) then y else Lowest(cap, u)) == Lowest(cap, u + v)
  {
    var x := Lowest(cap, u);
    assert Least(x, cap, u);
    LeastIsLowest(if y < x then y else x, cap, u + v);
  }

  lemma HighestAppend(u: seq<int>, y: int, floor: int, v: seq<int>)
    requires Most(y, floor, v) && floor in v
    ensures (if y > Highest(0, u) then y else Highest(0, u)) == Highest(0, u + v)
  {
    var x := Highest(0, u);
    assert Most(x, 0, u);
    MostIsHighest(if y > x then y else x, 0, u + v);
  }

  /** Values that are no larger one by one have a least value that is no larger. */
  lemma LowestBelow(cap: int, u: seq<int>, v: seq<int>)
    requires |u| == |v| && forall k :: 0 <= k < |u| ==> u[k] <= v[k]
    ensures Lowest(cap, u) <= Lowest(cap, v)
  {
    var x := Lowest(cap, v);
    if x != cap {
      var k :| 0 <= k < |v| && v[k] == x;
      assert u[k] <= v[k];
    }
  }

  /** The values after a given time, in their order. */
  function Later(now: int, vals: seq<int>): (r: seq<int>)
    ensures forall k :: 0 <= k < |r| ==> r[k] > now
    ensures forall v :: v in r <==> v in vals && v > now
    ensures |r| <= |vals| && ((exists v :: v in vals && v <= now) ==> |r| < |vals|)
    ensures (forall k :: 0 <= k < |vals| ==> vals[k] > now) ==> r == vals
  {
    if vals == [] then []
    else
      var r, v := Later(now, vals[..|vals| - 1]), vals[|vals| - 1];
      assert vals == vals[..|vals| - 1] + [v];
      if v > now then r + [v] else r
  }

  lemma {:induction false} LaterAppend(now: int, u: seq<int>, v: seq<int>)
    ensures Later(now, u + v) == Later(now, u) + Later(now, v)
  {
    if v == [] {
      assert u + v == u;
    } else {
      LaterAppend(now, u, v[..|v| - 1]);
      assert (u + v)[..|u + v| - 1] == u + v[..|v| - 1];
    }
  }

  lemma {:induction false} LaterTwice(early: int, late: int, vals: seq<int>)
    requires early <= late
    ensures Later(late, Later(early, vals)) == Later(late, vals)
  {
    if vals != [] {
      var init, v := vals[..|vals| - 1], vals[|vals| - 1];
      LaterTwice(early, late, init);
      if v > early {
        LaterAppend(late, Later(early, init), [v]);
      }
    }
  }

  datatype Timer = Off | At(time: int)

  /** A timer is set only for a time other than "never". */
  function Alarm(t: int): Timer { if t == MAX_TIME then Off else At(t) }
}

module LeaseExpiry {
  import opened Bindings
  import opened Instants

  /** When a binding stops being valid. */
  function End(a: Addr): int { if a.maxLife == 0xffff_ffff then MAX_TIME else a.starts + a.maxLife }

  /** When a binding stops being preferred. */
  function Soft(a: Addr): int { if a.preferred == 0xffff_ffff then MAX_TIME else a.starts + a.preferred }

  function EndOf(a: Addr): seq<int> { if a.expired then [] else [End(a)] }

  function SoftOf(a: Addr): seq<int> { if a.depreffed then [] else [Soft(a)] }

  function EndsOf(s: seq<Addr>): seq<int> {
    if s == [] then [] else EndsOf(s[..|s| - 1]) + EndOf(s[|s| - 1])
  }

  function SoftsOf(s: seq<Addr>): seq<int> {
    if s == [] then [] else SoftsOf(s[..|s| - 1]) + SoftOf(s[|s| - 1])
  }

  /** The end times of every binding of the lease that has not expired. */
  function Ends(b: seq<Ia>): seq<int> {
    if b == [] then [] else Ends(b[..|b| - 1]) + EndsOf(b[|b| - 1].addrs)
  }

  function Softs(b: seq<Ia>): seq<int> {
    if b == [] then [] else Softs(b[..|b| - 1]) + SoftsOf(b[|b| - 1].addrs)
  }

  /** The times up to which an association may last, its own start included. */
  function Reaches(b: seq<Ia>): seq<int> {
    if b == [] then [] else Reaches(b[..|b| - 1]) + (EndsOf(b[|b| - 1].addrs) + [b[|b| - 1].starts])
  }

  lemma {:induction false} EndsOfHas(s: seq<Addr>, v: int)
    ensures v in EndsOf(s) <==> exists j :: 0 <= j < |s| && !s[j].expired && End(s[j]) == v
  {
    if s != [] {
      var n := |s| - 1;
      EndsOfHas(s[..n], v);
      assert v in EndsOf(s) <==> v in EndsOf(s[..n]) || (!s[n].expired && End(s[n]) == v);
      if v in EndsOf(s[..n]) {
        var j :| 0 <= j < |s[..n]| && !s[..n][j].expired && End(s[..n][j]) == v;
        assert s[j] == s[..n][j];
      }
      if j :| 0 <= j < n && !s[j].expired && End(s[j]) == v {
        assert s[..n][j] == s[j];
      }
    }
  }

  /** Ends lists what it should: the end of each binding that has not expired, and nothing else. */
  lemma {:induction false} EndsHas(b: seq<Ia>, v: int)
    ensures v in Ends(b) <==> exists i :: 0 <= i < |b| && v in EndsOf(b[i].addrs)
  {
    hide EndsOf, Ends;
    EndsUnfold(b);
    if b != [] {
      var n := |b| - 1;
      EndsHas(b[..n], v);
      if v in Ends(b[..n]) {
        var i :| 0 <= i < |b[..n]| && v in EndsOf(b[..n][i].addrs);
        assert b[i] == b[..n][i];
      }
      if i :| 0 <= i < n && v in EndsOf(b[i].addrs) {
        assert b[..n][i] == b[i];
      }
    }
  }

  /** The last end of the lease: no binding that has not expired ends after it, and it is an end, a start or 0. */
  lemma LastEndIs(b: seq<Ia>)
    ensures var last := Highest(0, Reaches(b));
      && (forall v :: v in Ends(b) ==> v <= last)
      && (last == 0 || last in Ends(b) || exists x :: x in b && last == x.starts)
  {
    hide Ends, Reaches;
    var last := Highest(0, Reaches(b));
    assert Most(last, 0, Reaches(b));
    ReachesHas(b, last);
    forall v | v in Ends(b)
      ensures v <= last
    {
      ReachesHas(b, v);
    }
  }

  lemma {:induction false} ReachesHas(b: seq<Ia>, v: int)
    ensures v in Reaches(b) <==> v in Ends(b) || exists x :: x in b && v == x.starts
  {
    hide EndsOf, Ends;
    EndsUnfold(b);
    if b != [] {
      var init, x := b[..|b| - 1], b[|b| - 1];
      ReachesHas(init, v);
      assert b == init + [x];
      assert v in Reaches(b) <==> v in Reaches(init) || v in EndsOf(x.addrs) || v == x.starts;
    }
  }

  // ---- renewing and rebinding -------------------------------------------------------------------

  /** Half the span to base default times on, with the configured lease time for a span that is no use. */
  function UseExpire(requested: nat, lo: int, hi: int): int {
    var t := if lo <= hi / 2 then hi else lo;
    if t == MAX_TIME || t <= 1 then requested / 2 else t / 2
  }

  function Span(requested: nat, x: Ia): int {
    var ends := EndsOf(x.addrs);
    UseExpire(requested, Lowest(MAX_TIME + x.starts, ends) - x.starts, Highest(x.starts, ends) - x.starts)
  }

  function Given(t: nat, default: int): int { if t == 0 then default else if t == 0xffff_ffff then MAX_TIME else t }

  function RenewAfter(requested: nat, x: Ia): int { Given(x.renew, Span(requested, x)) }

  function RebindAfter(requested: nat, x: Ia): int { Given(x.rebind, Span(requested, x) + Span(requested, x) / 2) }

  function Renewals(requested: nat, b: seq<Ia>): seq<int> {
    if b == [] then []
    else
      var x := b[|b| - 1];
      Renewals(requested, b[..|b| - 1]) + if x.iaType == IaTa then [] else [RenewAfter(requested, x)]
  }

  function Rebindings(requested: nat, b: seq<Ia>): seq<int> {
    if b == [] then []
    else
      var x := b[|b| - 1];
      Rebindings(requested, b[..|b| - 1]) + if x.iaType == IaTa then [] else [RebindAfter(requested, x)]
  }

  function Starts(b: seq<Ia>): seq<int> {
    if b == [] then [] else Starts(b[..|b| - 1]) + if b[|b| - 1].iaType == IaTa then [] else [b[|b| - 1].starts]
  }

  /** The absolute time for the smallest period, counted from the latest start. */
  function Due(period: int, starts: int): int { if period == MAX_TIME then period else period + starts }

  function RenewTime(requested: nat, b: seq<Ia>): int {
    Due(Lowest(MAX_TIME, Renewals(requested, b)), Highest(0, Starts(b)))
  }

  function RebindTime(requested: nat, b: seq<Ia>): int {
    Due(Lowest(MAX_TIME, Rebindings(requested, b)), Highest(0, Starts(b)))
  }

  /** An association renews no later than it rebinds: always so when the server leaves both times open. */
  predicate Ordered(requested: nat, x: Ia) { x.iaType == IaTa || RenewAfter(requested, x) <= RebindAfter(requested, x) }

  lemma OpenIsOrdered(requested: nat, x: Ia)
    requires x.renew == 0 && x.rebind == 0
    ensures Ordered(requested, x)
  {
    assert Span(requested, x) >= 0 by {
      assert Most(Highest(x.starts, EndsOf(x.addrs)), x.starts, EndsOf(x.addrs));
    }
  }

  lemma {:induction false} RenewalsBelow(requested: nat, b: seq<Ia>)
    requires forall i :: 0 <= i < |b| ==> Ordered(requested, b[i])
    ensures var u, v := Renewals(requested, b), Rebindings(requested, b);
      |u| == |v| && forall k :: 0 <= k < |u| ==> u[k] <= v[k]
  {
    hide RenewAfter, RebindAfter;
    if b != [] {
      RenewalsBelow(requested, b[..|b| - 1]);
      assert Ordered(requested, b[|b| - 1]);
    }
  }

  /** If every association does so, the whole lease renews no later than it rebinds. */
  lemma RenewBeforeRebind(requested: nat, b: seq<Ia>)
    requires forall i :: 0 <= i < |b| ==> Ordered(requested, b[i])
    ensures RenewTime(requested, b) <= RebindTime(requested, b) || RebindTime(requested, b) == MAX_TIME
  {
    hide Ordered, Renewals, Rebindings, Starts;
    RenewalsBelow(requested, b);
    LowestBelow(MAX_TIME, Renewals(requested, b), Rebindings(requested, b));
  }

  /**
   The times that the server leaves open.  With t the first end of the association from its start, or the
   last one if the first comes within half of that, it renews after half of t and rebinds after three
   quarters, within rounding; with the configured lease time for t if t is never or at most a second.
   */
  lemma OpenTimesAre(requested: nat, x: Ia, first: int, last: int)
    requires x.renew == 0 && x.rebind == 0
    requires first == Lowest(MAX_TIME + x.starts, EndsOf(x.addrs)) - x.starts
    requires last == Highest(x.starts, EndsOf(x.addrs)) - x.starts
    ensures var t := if 2 * first <= last then last else first;
      var used := if t == MAX_TIME || t <= 1 then requested else t;
      && 0 <= used - 2 * RenewAfter(requested, x) <= 1
      && 0 <= 3 * used - 4 * RebindAfter(requested, x) <= 5
  {
    hide EndsOf, Lowest;
    assert Most(last + x.starts, x.starts, EndsOf(x.addrs));
    assert 2 * first <= last <==> first <= last / 2;
  }

  /** The times that the server gives: they are what counts, and 0xffffffff is never. */
  lemma GivenTimesAre(requested: nat, x: Ia)
    ensures x.renew == 0xffff_ffff ==> RenewAfter(requested, x) == MAX_TIME
    ensures x.rebind == 0xffff_ffff ==> RebindAfter(requested, x) == MAX_TIME
    ensures 0 < x.renew != 0xffff_ffff ==> RenewAfter(requested, x) == x.renew
    ensures 0 < x.rebind != 0xffff_ffff ==> RebindAfter(requested, x) == x.rebind
  {
    hide Span;
  }

  ghost predicate Renews(requested: nat, x: Ia, v: int) { x.iaType != IaTa && v == RenewAfter(requested, x) }

  ghost predicate Rebinds(requested: nat, x: Ia, v: int) { x.iaType != IaTa && v == RebindAfter(requested, x) }

  ghost predicate StartsAt(x: Ia, v: int) { x.iaType != IaTa && v == x.starts }

  lemma TimesUnfold(requested: nat, b: seq<Ia>, v: int)
    ensures b == [] ==> v !in Renewals(requested, b) && v !in Rebindings(requested, b) && v !in Starts(b)
    ensures b != [] ==>
      var init, x := b[..|b| - 1], b[|b| - 1];
      && (v in Renewals(requested, b) <==> v in Renewals(requested, init) || Renews(requested, x, v))
      && (v in Rebindings(requested, b) <==> v in Rebindings(requested, init) || Rebinds(requested, x, v))
      && (v in Starts(b) <==> v in Starts(init) || StartsAt(x, v))
  {
    hide RenewAfter, RebindAfter;
  }

  /** All associations count but those of temporary addresses. */
  lemma {:induction false} TimesHas(requested: nat, b: seq<Ia>, v: int)
    ensures v in Renewals(requested, b) <==> exists x :: x in b && Renews(requested, x, v)
    ensures v in Rebindings(requested, b) <==> exists x :: x in b && Rebinds(requested, x, v)
    ensures v in Starts(b) <==> exists x :: x in b && StartsAt(x, v)
  {
    hide *;
    TimesUnfold(requested, b, v);
    if b != [] {
      var init, x := b[..|b| - 1], b[|b| - 1];
      TimesHas(requested, init, v);
      assert b == init + [x];
    }
  }

  /** t is the smallest of the periods after the latest of the starts, or never if all periods are. */
  ghost predicate FirstAfterLatest(t: int, b: seq<Ia>, period: Ia -> int, p: int, st: int) {
    && t == Due(p, st) && p <= MAX_TIME && st >= 0
    && (forall x :: x in b && x.iaType != IaTa ==> p <= period(x) && x.starts <= st)
    && (p == MAX_TIME || exists x :: x in b && x.iaType != IaTa && p == period(x))
    && (st == 0 || exists x :: x in b && x.iaType != IaTa && st == x.starts)
  }

  lemma RenewTimeIs(requested: nat, b: seq<Ia>) returns (p: int, q: int, st: int)
    ensures FirstAfterLatest(RenewTime(requested, b), b, x => RenewAfter(requested, x), p, st)
    ensures FirstAfterLatest(RebindTime(requested, b), b, x => RebindAfter(requested, x), q, st)
  {
    hide RenewAfter, RebindAfter, Renewals, Rebindings, Starts, Lowest, Highest;
    p, q := Lowest(MAX_TIME, Renewals(requested, b)), Lowest(MAX_TIME, Rebindings(requested, b));
    st := Highest(0, Starts(b));
    LowestIn(Renewals(requested, b));
    LowestIn(Rebindings(requested, b));
    HighestIn(Starts(b));
    TimesHas(requested, b, p);
    TimesHas(requested, b, q);
    TimesHas(requested, b, st);
    forall x | x in b && x.iaType != IaTa
      ensures p <= RenewAfter(requested, x) && q <= RebindAfter(requested, x) && x.starts <= st
    {
      assert Renews(requested, x, RenewAfter(requested, x)) && Rebinds(requested, x, RebindAfter(requested, x));
      assert StartsAt(x, x.starts);
      TimesHas(requested, b, RenewAfter(requested, x));
      TimesHas(requested, b, RebindAfter(requested, x));
      TimesHas(requested, b, x.starts);
    }
  }

  lemma HighestIn(s: seq<int>)
    ensures var x := Highest(0, s); x >= 0 && (x > 0 ==> x in s) && forall v :: v in s ==> v <= x
  {
    var x := Highest(0, s);
    assert Most(x, 0, s);
  }

  // ---- expiring ----------------------------------------------------------------------------------------

  function ExpireAddr(now: int, a: Addr): Addr {
    if !a.expired && a.starts + a.maxLife <= now then a.(expired := true) else a
  }

  function ExpireAddrs(now: int, s: seq<Addr>): seq<Addr> {
    if s == [] then [] else ExpireAddrs(now, s[..|s| - 1]) + [ExpireAddr(now, s[|s| - 1])]
  }

  /** The associations that are left, with what ended at `now` flagged. */
  function Survivors(now: int, b: seq<Ia>): seq<Ia> {
    if b == [] then []
    else
      var x := b[|b| - 1];
      var addrs := ExpireAddrs(now, x.addrs);
      Survivors(now, b[..|b| - 1]) + if EndsOf(addrs) == [] then [] else [x.(addrs := addrs)]
  }

  predicate StartsOk(s: seq<Addr>) { forall j :: 0 <= j < |s| ==> s[j].starts >= 0 }

  /** Start times are times, and the clock has not reached "never". */
  predicate TimesOk(b: seq<Ia>) { forall i :: 0 <= i < |b| ==> b[i].starts >= 0 && StartsOk(b[i].addrs) }

  lemma {:induction false} ExpireAddrsEnds(now: int, s: seq<Addr>)
    requires StartsOk(s) && now < MAX_TIME
    ensures EndsOf(ExpireAddrs(now, s)) == Later(now, EndsOf(s)) && StartsOk(ExpireAddrs(now, s))
  {
    if s != [] {
      var n := |s| - 1;
      ExpireAddrsEnds(now, s[..n]);
      var r := ExpireAddrs(now, s[..n]);
      var a := ExpireAddr(now, s[n]);
      assert ExpireAddrs(now, s) == r + [a];
      assert (r + [a])[..|r|] == r;
      LaterAppend(now, EndsOf(s[..n]), EndOf(s[n]));
      ExpireAddrEnd(now, s[n]);
    }
  }

  lemma ExpireAddrEnd(now: int, a: Addr)
    requires a.starts >= 0 && now < MAX_TIME
    ensures EndOf(ExpireAddr(now, a)) == Later(now, EndOf(a))
  {
    if !a.expired {
      assert [End(a)][..0] == [];
    }
  }

  lemma {:induction false} EndsAppend(b: seq<Ia>, x: Ia)
    ensures Ends(b + [x]) == Ends(b) + EndsOf(x.addrs)
  {
    assert (b + [x])[..|b|] == b;
  }

  lemma EndsUnfold(b: seq<Ia>)
    ensures Ends(b) == if b == [] then [] else Ends(b[..|b| - 1]) + EndsOf(b[|b| - 1].addrs)
  {}

  lemma SurvivorsUnfold(now: int, b: seq<Ia>)
    requires b != []
    ensures var x := b[|b| - 1]; var addrs := ExpireAddrs(now, x.addrs); var init := Survivors(now, b[..|b| - 1]);
      Survivors(now, b) == if EndsOf(addrs) == [] then init else init + [x.(addrs := addrs)]
  {}

  /** Expiry keeps exactly the ends that are still to come. */
  lemma {:induction false} SurvivorsEnds(now: int, b: seq<Ia>)
    requires TimesOk(b) && now < MAX_TIME
    ensures Ends(Survivors(now, b)) == Later(now, Ends(b))
  {
    hide EndsOf, Ends, Survivors, ExpireAddrs, Later, StartsOk;
    EndsUnfold(b);
    if b == [] {
      SurvivorsNone(now);
    } else {
      var n := |b| - 1;
      var x := b[n];
      SurvivorsUnfold(now, b);
      SurvivorsEnds(now, b[..n]);
      ExpireAddrsEnds(now, x.addrs);
      LaterAppend(now, Ends(b[..n]), EndsOf(x.addrs));
      EndsAppend(Survivors(now, b[..n]), x.(addrs := ExpireAddrs(now, x.addrs)));
    }
  }

  lemma SurvivorsNone(now: int)
    ensures Ends(Survivors(now, [])) == Later(now, [])
  {}

  /** Every association has a binding that has not expired. */
  ghost predicate AllAlive(b: seq<Ia>) { forall i :: 0 <= i < |b| ==> EndsOf(b[i].addrs) != [] }

  lemma {:induction false} SurvivorsAlive(now: int, b: seq<Ia>)
    requires TimesOk(b) && now < MAX_TIME
    ensures AllAlive(Survivors(now, b)) && TimesOk(Survivors(now, b))
  {
    hide EndsOf, ExpireAddrs, StartsOk, Survivors;
    if b == [] {
      assert Survivors(now, b) == [] by { SurvivorsEmpty(now); }
    } else {
      SurvivorsAlive(now, b[..|b| - 1]);
      SurvivorsUnfold(now, b);
      ExpireAddrsEnds(now, b[|b| - 1].addrs);
    }
  }

  lemma SurvivorsEmpty(now: int)
    ensures Survivors(now, []) == []
  {}

  /** Every binding is as it was but for its flag, which is set exactly if it was or the binding has ended. */
  ghost predicate Flagged(now: int, s: seq<Addr>, r: seq<Addr>) {
    |r| == |s| && forall j :: 0 <= j < |s| ==> FlaggedOne(now, s[j], r[j])
  }

  predicate FlaggedOne(now: int, a: Addr, r: Addr) {
    r.(expired := a.expired) == a && (r.expired <==> a.expired || a.starts + a.maxLife <= now)
  }

  lemma {:induction false} ExpireAddrsFlags(now: int, s: seq<Addr>)
    ensures Flagged(now, s, ExpireAddrs(now, s))
  {
    if s != [] {
      ExpireAddrsFlags(now, s[..|s| - 1]);
    }
  }

  /** Some binding of the association has not expired and does not end by now. */
  ghost predicate LiveAt(now: int, x: Ia) { exists a :: a in x.addrs && !a.expired && a.starts + a.maxLife > now }

  /** Where the associations with a live binding are, in order. */
  ghost function LiveIas(now: int, b: seq<Ia>): (at: seq<nat>)
    ensures forall k :: 0 <= k < |at| ==> at[k] < |b|
  {
    if b == [] then []
    else
      var n := |b| - 1;
      if LiveAt(now, b[n]) then LiveIas(now, b[..n]) + [n] else LiveIas(now, b[..n])
  }

  lemma {:induction false} LiveIasAre(now: int, b: seq<Ia>)
    ensures var at := LiveIas(now, b);
      && (forall i: nat :: i in at <==> i < |b| && LiveAt(now, b[i]))
      && (forall k, l :: 0 <= k < l < |at| ==> at[k] < at[l])
  {
    hide LiveAt;
    if b != [] {
      LiveIasAre(now, b[..|b| - 1]);
    }
  }

  /** Exactly the associations with a live binding are left, in order, with nothing changed but the flags. */
  ghost predicate ExpiredTo(now: int, b: seq<Ia>, r: seq<Ia>) {
    var at := LiveIas(now, b);
    |r| == |at| && forall k :: 0 <= k < |r| ==> KeptIa(now, b[at[k]], r[k])
  }

  ghost predicate KeptIa(now: int, x: Ia, r: Ia) { r.(addrs := x.addrs) == x && Flagged(now, x.addrs, r.addrs) }

  lemma {:induction false} EndsOfLive(s: seq<Addr>)
    ensures EndsOf(s) != [] <==> exists a :: a in s && !a.expired
  {
    if s != [] {
      EndsOfLive(s[..|s| - 1]);
      assert s == s[..|s| - 1] + [s[|s| - 1]];
    }
  }

  lemma LiveIffEnds(now: int, x: Ia)
    ensures LiveAt(now, x) <==> EndsOf(ExpireAddrs(now, x.addrs)) != []
  {
    hide EndsOf, ExpireAddrs;
    var r := ExpireAddrs(now, x.addrs);
    EndsOfLive(r);
    ExpireAddrsFlags(now, x.addrs);
    if a :| a in x.addrs && !a.expired && a.starts + a.maxLife > now {
      var j :| 0 <= j < |x.addrs| && x.addrs[j] == a;
      assert FlaggedOne(now, x.addrs[j], r[j]) && r[j] in r;
    }
    if a :| a in r && !a.expired {
      var j :| 0 <= j < |r| && r[j] == a;
      assert FlaggedOne(now, x.addrs[j], r[j]) && x.addrs[j] in x.addrs;
    }
  }

  lemma {:induction false} SurvivorsAre(now: int, b: seq<Ia>)
    ensures ExpiredTo(now, b, Survivors(now, b))
  {
    hide EndsOf, ExpireAddrs, LiveAt, KeptIa, Survivors;
    if b == [] {
      SurvivorsEmpty(now);
    } else {
      var n := |b| - 1;
      var x := b[n];
      SurvivorsAre(now, b[..n]);
      SurvivorsUnfold(now, b);
      LiveIffEnds(now, x);
      Kept(now, x);
      var at := LiveIas(now, b[..n]);
      forall k | 0 <= k < |at|
        ensures b[..n][at[k]] == b[at[k]]
      {}
    }
  }

  lemma {:induction false} ExpireAddrsTwice(t1: int, t2: int, s: seq<Addr>)
    requires t1 <= t2
    ensures ExpireAddrs(t2, ExpireAddrs(t1, s)) == ExpireAddrs(t2, s)
  {
    if s != [] {
      var n := |s| - 1;
      ExpireAddrsTwice(t1, t2, s[..n]);
      var r := ExpireAddrs(t1, s);
      assert r[..|r| - 1] == ExpireAddrs(t1, s[..n]);
    }
  }

  lemma NoneLeft(t1: int, t2: int, x: Ia)
    requires t1 <= t2 && EndsOf(ExpireAddrs(t1, x.addrs)) == []
    ensures EndsOf(ExpireAddrs(t2, x.addrs)) == []
  {
    hide EndsOf, ExpireAddrs;
    LiveIffEnds(t1, x);
    LiveIffEnds(t2, x);
  }

  /** Expiring now and again later is expiring later. */
  lemma {:induction false} SurvivorsTwice(t1: int, t2: int, b: seq<Ia>)
    requires t1 <= t2
    ensures Survivors(t2, Survivors(t1, b)) == Survivors(t2, b)
  {
    hide EndsOf, ExpireAddrs, Survivors;
    if b == [] {
      SurvivorsEmpty(t1);
      SurvivorsEmpty(t2);
    } else {
      var n := |b| - 1;
      var x, r := b[n], Survivors(t1, b[..n]);
      SurvivorsTwice(t1, t2, b[..n]);
      SurvivorsUnfold(t1, b);
      SurvivorsUnfold(t2, b);
      if EndsOf(ExpireAddrs(t1, x.addrs)) == [] {
        NoneLeft(t1, t2, x);
      } else {
        var y := x.(addrs := ExpireAddrs(t1, x.addrs));
        ExpireAddrsTwice(t1, t2, x.addrs);
        SurvivorsUnfold(t2, r + [y]);
        assert (r + [y])[..|r|] == r;
      }
    }
  }

  lemma Kept(now: int, x: Ia)
    ensures KeptIa(now, x, x.(addrs := ExpireAddrs(now, x.addrs)))
  {
    ExpireAddrsFlags(now, x.addrs);
  }

  // ---- losing preference -----------------------------------------------------------------------------

  function DeprefAddr(now: int, a: Addr): Addr {
    if !a.depreffed && a.starts + a.preferred <= now then a.(depreffed := true) else a
  }

  function DeprefAddrs(now: int, s: seq<Addr>): seq<Addr> {
    if s == [] then [] else DeprefAddrs(now, s[..|s| - 1]) + [DeprefAddr(now, s[|s| - 1])]
  }

  function Depreffed(now: int, b: seq<Ia>): seq<Ia> {
    if b == [] then []
    else Depreffed(now, b[..|b| - 1]) + [b[|b| - 1].(addrs := DeprefAddrs(now, b[|b| - 1].addrs))]
  }

  lemma DeprefAddrSoft(now: int, a: Addr)
    requires a.starts >= 0 && now < MAX_TIME
    ensures SoftOf(DeprefAddr(now, a)) == Later(now, SoftOf(a)) && EndOf(DeprefAddr(now, a)) == EndOf(a)
  {
    if !a.depreffed {
      assert [Soft(a)][..0] == [];
    }
  }

  lemma {:induction false} DeprefAddrsSofts(now: int, s: seq<Addr>)
    requires StartsOk(s) && now < MAX_TIME
    ensures SoftsOf(DeprefAddrs(now, s)) == Later(now, SoftsOf(s)) && EndsOf(DeprefAddrs(now, s)) == EndsOf(s)
    ensures StartsOk(DeprefAddrs(now, s))
  {
    hide SoftOf, EndOf, Later;
    if s == [] {
      LaterNone(now);
    } else {
      var n := |s| - 1;
      DeprefAddrsSofts(now, s[..n]);
      var r := DeprefAddrs(now, s[..n]);
      var a := DeprefAddr(now, s[n]);
      assert DeprefAddrs(now, s) == r + [a];
      assert (r + [a])[..|r|] == r;
      LaterAppend(now, SoftsOf(s[..n]), SoftOf(s[n]));
      DeprefAddrSoft(now, s[n]);
    }
  }

  lemma LaterNone(now: int)
    ensures Later(now, []) == []
  {}

  /** Loss of preference keeps exactly the times that are still to come, and changes no end. */
  lemma {:induction false} DepreffedSofts(now: int, b: seq<Ia>)
    requires TimesOk(b) && now < MAX_TIME
    ensures Softs(Depreffed(now, b)) == Later(now, Softs(b)) && Ends(Depreffed(now, b)) == Ends(b)
    ensures TimesOk(Depreffed(now, b))
  {
    hide SoftsOf, EndsOf, Softs, Ends, StartsOk, Later, DeprefAddrs, Depreffed;
    if b == [] {
      DepreffedNone(now);
      LaterNone(now);
    } else {
      var n := |b| - 1;
      var x := b[n];
      DepreffedSofts(now, b[..n]);
      DeprefAddrsSofts(now, x.addrs);
      DepreffedUnfold(now, b);
      EndsUnfold(b);
      LaterAppend(now, Softs(b[..n]), SoftsOf(x.addrs));
    }
  }

  /** Nothing is changed but the flags, each set exactly if it was or the binding is past its preferred time. */
  ghost predicate DepreffedTo(now: int, b: seq<Ia>, r: seq<Ia>) {
    |r| == |b| && forall i :: 0 <= i < |b| ==> DepreffedIa(now, b[i], r[i])
  }

  ghost predicate DepreffedIa(now: int, x: Ia, r: Ia) {
    && r.(addrs := x.addrs) == x && |r.addrs| == |x.addrs|
    && forall j :: 0 <= j < |x.addrs| ==> DepreffedOne(now, x.addrs[j], r.addrs[j])
  }

  predicate DepreffedOne(now: int, a: Addr, r: Addr) {
    r.(depreffed := a.depreffed) == a && (r.depreffed <==> a.depreffed || a.starts + a.preferred <= now)
  }

  lemma {:induction false} DeprefAddrsFlags(now: int, s: seq<Addr>)
    ensures var r := DeprefAddrs(now, s); |r| == |s| && forall j :: 0 <= j < |s| ==> DepreffedOne(now, s[j], r[j])
  {
    if s != [] {
      DeprefAddrsFlags(now, s[..|s| - 1]);
    }
  }

  lemma {:induction false} DepreffedAre(now: int, b: seq<Ia>)
    ensures DepreffedTo(now, b, Depreffed(now, b))
  {
    hide DeprefAddrs, DepreffedOne;
    if b != [] {
      DepreffedAre(now, b[..|b| - 1]);
      DeprefAddrsFlags(now, b[|b| - 1].addrs);
    }
  }

  lemma DepreffedNone(now: int)
    ensures Depreffed(now, []) == [] && Softs([]) == [] && Ends([]) == []
  {}

  lemma DepreffedUnfold(now: int, b: seq<Ia>)
    requires b != []
    ensures var n := |b| - 1; var x := b[n]; var r := Depreffed(now, b[..n]);
      && Depreffed(now, b) == r + [x.(addrs := DeprefAddrs(now, x.addrs))]
      && Softs(Depreffed(now, b)) == Softs(r) + SoftsOf(DeprefAddrs(now, x.addrs))
      && Ends(Depreffed(now, b)) == Ends(r) + EndsOf(DeprefAddrs(now, x.addrs))
      && Softs(b) == Softs(b[..n]) + SoftsOf(x.addrs)
  {
    hide SoftsOf, EndsOf, DeprefAddrs;
    var r := Depreffed(now, b[..|b| - 1]);
    assert Depreffed(now, b)[..|r|] == r;
  }

  // ---- the client -----------------------------------------------------------------------------------------

  datatype State = Init | Bound | Renewing | Rebinding | Elsewhere

  function Earlier(x: int, y: int): int { if x < y then x else y }

  /** One pass over an association; the first two results are relative to its start. */
  method ScanAddrs(x: Ia, soonest: int) returns (lo: int, hi: int, depref: int, live: bool)
    requires soonest <= MAX_TIME
    ensures lo + x.starts == Lowest(MAX_TIME + x.starts, EndsOf(x.addrs))
    ensures hi + x.starts == Highest(x.starts, EndsOf(x.addrs))
    ensures depref == Earlier(soonest, Lowest(MAX_TIME, SoftsOf(x.addrs)))
    ensures live <==> EndsOf(x.addrs) != []
  {
    hide Lowest, Highest, Least, Most, EndsOf, SoftsOf, EndOf, SoftOf;
    lo, hi, depref, live := MAX_TIME, 0, soonest, false;
    TakeNone(x);
    for j := 0 to |x.addrs|
      invariant lo + x.starts == Lowest(MAX_TIME + x.starts, EndsOf(x.addrs[..j]))
      invariant hi + x.starts == Highest(x.starts, EndsOf(x.addrs[..j]))
      invariant depref == Earlier(soonest, Lowest(MAX_TIME, SoftsOf(x.addrs[..j])))
      invariant live <==> EndsOf(x.addrs[..j]) != []
    {
      var a := x.addrs[j];
      TakeEnd(MAX_TIME + x.starts, x.starts, x.addrs, j);
      TakeSoft(x.addrs, j);
      if !a.depreffed {
        var tmp := if a.preferred == 0xffff_ffff then MAX_TIME else a.starts + a.preferred;
        if tmp < depref {
          depref := tmp;
        }
      }
      if !a.expired {
        var tmp := if a.maxLife == 0xffff_ffff then MAX_TIME else a.starts + a.maxLife;
        tmp := tmp - x.starts;
        if tmp > hi {
          hi := tmp;
        }
        if tmp < lo {
          lo := tmp;
        }
        live := true;
      }
    }
    assert x.addrs[..|x.addrs|] == x.addrs;
  }

  lemma TakeNone(x: Ia)
    ensures EndsOf(x.addrs[..0]) == [] && SoftsOf(x.addrs[..0]) == []
    ensures forall t: int :: Lowest(t, []) == t && Highest(t, []) == t
  {}

  lemma TakeEnd(cap: int, floor: int, s: seq<Addr>, j: nat)
    requires j < |s|
    ensures var u, v, e := EndsOf(s[..j]), EndsOf(s[..j + 1]), End(s[j]);
      if s[j].expired then v == u
      else v != [] && Lowest(cap, v) == Earlier(Lowest(cap, u), e)
           && Highest(floor, v) == if e > Highest(floor, u) then e else Highest(floor, u)
  {
    assert s[..j + 1][..j] == s[..j];
    var u := EndsOf(s[..j]);
    assert (u + [End(s[j])])[..|u|] == u;
  }

  lemma TakeSoft(s: seq<Addr>, j: nat)
    requires j < |s|
    ensures var u, v := SoftsOf(s[..j]), SoftsOf(s[..j + 1]);
      if s[j].depreffed then v == u else Lowest(MAX_TIME, v) == Earlier(Lowest(MAX_TIME, u), Soft(s[j]))
  {
    assert s[..j + 1][..j] == s[..j];
    var u := SoftsOf(s[..j]);
    assert (u + [Soft(s[j])])[..|u|] == u;
  }

  function LaterOf(x: int, y: int): int { if x > y then x else y }

  lemma TakeIa(b: seq<Ia>, i: nat)
    requires i < |b| && b[i].starts >= 0
    ensures var u, v, e := Ends(b[..i]), Ends(b[..i + 1]), EndsOf(b[i].addrs);
      && v == u + e
      && Lowest(MAX_TIME, v) == Earlier(Lowest(MAX_TIME, u), Lowest(MAX_TIME + b[i].starts, e))
    ensures Highest(0, Reaches(b[..i + 1])) ==
      LaterOf(Highest(0, Reaches(b[..i])), Highest(b[i].starts, EndsOf(b[i].addrs)))
    ensures Lowest(MAX_TIME, Softs(b[..i + 1])) ==
      Earlier(Lowest(MAX_TIME, Softs(b[..i])), Lowest(MAX_TIME, SoftsOf(b[i].addrs)))
  {
    hide Lowest, Highest, EndsOf, SoftsOf;
    assert b[..i + 1][..i] == b[..i];
    var e, st := EndsOf(b[i].addrs), b[i].starts;
    LowestAppend(MAX_TIME, Ends(b[..i]), Lowest(MAX_TIME + st, e), MAX_TIME + st, e);
    HighestAppend(Reaches(b[..i]), Highest(st, e), st, e + [st]);
    var f := SoftsOf(b[i].addrs);
    LowestAppend(MAX_TIME, Softs(b[..i]), Lowest(MAX_TIME, f), MAX_TIME, f);
  }

  lemma TakeTimes(requested: nat, b: seq<Ia>, i: nat)
    requires i < |b|
    ensures b[i].iaType == IaTa ==>
      && Renewals(requested, b[..i + 1]) == Renewals(requested, b[..i])
      && Rebindings(requested, b[..i + 1]) == Rebindings(requested, b[..i])
      && Starts(b[..i + 1]) == Starts(b[..i])
    ensures b[i].iaType != IaTa ==>
      && Lowest(MAX_TIME, Renewals(requested, b[..i + 1])) ==
         Earlier(Lowest(MAX_TIME, Renewals(requested, b[..i])), RenewAfter(requested, b[i]))
      && Lowest(MAX_TIME, Rebindings(requested, b[..i + 1])) ==
         Earlier(Lowest(MAX_TIME, Rebindings(requested, b[..i])), RebindAfter(requested, b[i]))
      && Highest(0, Starts(b[..i + 1])) == LaterOf(Highest(0, Starts(b[..i])), b[i].starts)
  {
    hide RenewAfter, RebindAfter, Least, Most;
    assert b[..i + 1][..i] == b[..i];
    if b[i].iaType != IaTa {
      LowestSnoc(Renewals(requested, b[..i]), RenewAfter(requested, b[i]));
      LowestSnoc(Rebindings(requested, b[..i]), RebindAfter(requested, b[i]));
      LowestSnoc(Starts(b[..i]), b[i].starts);
    }
  }

  lemma LowestSnoc(u: seq<int>, v: int)
    ensures Lowest(MAX_TIME, u + [v]) == Earlier(Lowest(MAX_TIME, u), v)
    ensures Highest(0, u + [v]) == LaterOf(Highest(0, u), v)
  {
    assert (u + [v])[..|u|] == u;
  }

  /** The default span, from the relative times of the bindings. */
  method ChooseSpan(requested: nat, lo: int, hi: int) returns (use: int)
    ensures use == UseExpire(requested, lo, hi)
  {
    if lo <= hi / 2 {
      use := hi;
    } else {
      use := lo;
    }
    if use == MAX_TIME || use <= 1 {
      use := requested / 2;
    } else {
      use := use / 2;
    }
  }

  /** The pass over all associations, at the head of dhc6_check_times. */
  method ScanIas(requested: nat, b: seq<Ia>)
    returns (renew: int, rebind: int, depref: int, lo: int, hi: int, starts: int, live: bool)
    requires TimesOk(b)
    ensures renew == Lowest(MAX_TIME, Renewals(requested, b))
    ensures rebind == Lowest(MAX_TIME, Rebindings(requested, b))
    ensures starts == Highest(0, Starts(b))
    ensures lo == Lowest(MAX_TIME, Ends(b)) && hi == Highest(0, Reaches(b))
    ensures depref == Lowest(MAX_TIME, Softs(b))
    ensures live <==> Ends(b) != []
  {
    hide Lowest, Highest, Least, Most, EndsOf, SoftsOf, Ends;
    hide Softs, Reaches, Renewals, Rebindings, Starts, StartsOk, UseExpire;
    renew, rebind, depref, lo, hi, starts, live := MAX_TIME, MAX_TIME, MAX_TIME, MAX_TIME, 0, 0, false;
    TakeNothing(requested, b);
    for i := 0 to |b|
      invariant renew == Lowest(MAX_TIME, Renewals(requested, b[..i]))
      invariant rebind == Lowest(MAX_TIME, Rebindings(requested, b[..i]))
      invariant starts == Highest(0, Starts(b[..i]))
      invariant lo == Lowest(MAX_TIME, Ends(b[..i])) && hi == Highest(0, Reaches(b[..i]))
      invariant depref == Lowest(MAX_TIME, Softs(b[..i])) && depref <= MAX_TIME
      invariant live <==> Ends(b[..i]) != []
    {
      var x := b[i];
      TakeIa(b, i);
      TakeTimes(requested, b, i);
      var thisLo, thisHi, soft, has := ScanAddrs(x, depref);
      depref, live := soft, live || has;
      var use := ChooseSpan(requested, thisLo, thisHi);
      if x.iaType != IaTa {
        if x.starts > starts {
          starts := x.starts;
        }
        var tmp := if x.renew == 0 then use else if x.renew == 0xffff_ffff then MAX_TIME else x.renew;
        if tmp < renew {
          renew := tmp;
        }
        tmp := if x.rebind == 0 then use + use / 2 else if x.rebind == 0xffff_ffff then MAX_TIME else x.rebind;
        if tmp < rebind {
          rebind := tmp;
        }
      }
      thisHi, thisLo := thisHi + x.starts, thisLo + x.starts;
      if thisHi > hi {
        hi := thisHi;
      }
      if thisLo < lo {
        lo := thisLo;
      }
    }
    assert b[..|b|] == b;
  }

  lemma TakeNothing(requested: nat, b: seq<Ia>)
    ensures Ends(b[..0]) == [] && Softs(b[..0]) == [] && Reaches(b[..0]) == []
    ensures Renewals(requested, b[..0]) == [] && Rebindings(requested, b[..0]) == [] && Starts(b[..0]) == []
    ensures Lowest(MAX_TIME, []) == MAX_TIME && Highest(0, []) == 0
  {}

  class Client {
    const requested: nat  // the configured lease time
    const initMrd: nat  // the limit on solicitation: zero, unless the client tries only once
    var lease: bool
    var bindings: seq<Ia>
    var state: State
    var mrd: int
    var nextMrd: int
    var renewAt: Timer
    var rebindAt: Timer
    var deprefAt: Timer
    var expireAt: Timer

    constructor (requested: nat, initMrd: nat, bindings: seq<Ia>, state: State)
      ensures this.requested == requested && this.initMrd == initMrd && lease && this.bindings == bindings
      ensures this.state == state
      ensures renewAt == Off && rebindAt == Off && deprefAt == Off && expireAt == Off
    {
      this.requested, this.initMrd, lease, this.bindings, this.state := requested, initMrd, true, bindings, state;
      mrd, nextMrd, renewAt, rebindAt, deprefAt, expireAt := 0, 0, Off, Off, Off, Off;
    }

    predicate Serving()
      reads this
    {
      state == Bound || state == Renewing || state == Rebinding
    }

    /** The two lease timers are set for the first end and the first loss of preference still ahead. */
    predicate Scheduled()
      reads this
    {
      && expireAt == Alarm(Lowest(MAX_TIME, Ends(bindings)))
      && deprefAt == Alarm(Lowest(MAX_TIME, Softs(bindings)))
    }

    /** The renewal and rebinding timers follow the state of the client. */
    predicate Paced(now: int)
      reads this
    {
      PacedBy(now, RenewTime(requested, bindings), RebindTime(requested, bindings), Highest(0, Reaches(bindings)))
    }

    predicate PacedBy(now: int, renew: int, rebind: int, hi: int)
      reads `state, `mrd, `nextMrd, `renewAt, `rebindAt
    {
      if state == Rebinding then
        renewAt == Off && rebindAt == Off && mrd == hi - now
      else if state == Bound && rebind > now && renew < rebind then
        renewAt == At(renew) && rebindAt == Off && nextMrd == rebind
      else
        renewAt == Off && rebindAt == Alarm(rebind) && mrd == rebind - now && (rebind != MAX_TIME ==> nextMrd == hi)
    }

    /**
     One exchange after the other, without a gap: renewing lasts until rebinding starts, and rebinding until
     the last binding ends; a client whose rebinding time is over, or not after its renewal, goes there directly.
     */
    lemma PacedMeans(now: int)
      requires Serving() && Paced(now)
      ensures var renew, rebind, last := RenewTime(requested, bindings), RebindTime(requested, bindings),
                                         Highest(0, Reaches(bindings));
        && (renewAt.At? ==> state == Bound && renewAt.time == renew < rebind == nextMrd && now < rebind)
        && (rebindAt.At? ==> state != Rebinding && rebindAt.time == rebind == now + mrd && nextMrd == last)
        && (renewAt == Off && rebindAt == Off ==> if state == Rebinding then now + mrd == last else rebind == MAX_TIME)
        && (state == Bound && now < rebind && renew < rebind ==> renewAt.At?)
        && (state != Rebinding && rebind < MAX_TIME ==> renewAt.At? != rebindAt.At?)
    {
      hide RenewTime, RebindTime, Highest, Reaches;
    }

    /** Drop the lease and start again. */
    method StartOver()
      modifies this
      ensures !lease && bindings == [] && state == Init && mrd == initMrd && nextMrd == old(nextMrd)
      ensures renewAt == old(renewAt) && rebindAt == old(rebindAt) && deprefAt == old(deprefAt)
      ensures expireAt == old(expireAt)
    {
      lease, bindings, state, mrd := false, [], Init, initMrd;
    }

    /** The switch on the state of the client, in dhc6_check_times. */
    method Pace(now: int, renew: int, rebind: int, hi: int) returns (fatal: bool)
      requires renewAt == Off && rebindAt == Off
      modifies `mrd, `nextMrd, `renewAt, `rebindAt
      ensures fatal <==> !Serving()
      ensures !fatal ==> PacedBy(now, renew, rebind, hi)
      ensures renewAt.At? || fatal ==> mrd == old(mrd)
      ensures (renewAt == Off && rebindAt == Off) || fatal ==> nextMrd == old(nextMrd)
    {
      fatal := false;
      if state == Bound && rebind > now && renew < rebind {
        nextMrd, renewAt := rebind, At(renew);
      } else if state == Bound || state == Renewing {
        mrd := rebind - now;
        if rebind != MAX_TIME {
          nextMrd, rebindAt := hi, At(rebind);
        }
      } else if state == Rebinding {
        mrd := hi - now;
      } else {
        fatal := true;
      }
    }

    /** dhc6_check_times; `fatal` when the client gives up. */
    method CheckTimes(now: int) returns (fatal: bool)
      requires lease && TimesOk(bindings)
      modifies this
      ensures old(Ends(bindings)) == [] ==>
        !fatal && !lease && state == Init && renewAt == Off && rebindAt == Off && deprefAt == Off && expireAt == Off
      ensures old(Ends(bindings)) != [] ==>
        lease && bindings == old(bindings) && state == old(state) && (fatal <==> !Serving())
      ensures old(Ends(bindings)) != [] && !fatal ==> Scheduled() && Paced(now)
    {
      hide Lowest, Highest, Least, Most, Ends, Softs, Reaches, Renewals, Rebindings, Starts, TimesOk, PacedBy;
      fatal := false;
      renewAt, rebindAt, deprefAt, expireAt := Off, Off, Off, Off;
      var renew, rebind, depref, lo, hi, starts, live := ScanIas(requested, bindings);
      if !live {
        StartOver();
        return;
      }
      if renew != MAX_TIME {
        renew := renew + starts;
      }
      if rebind != MAX_TIME {
        rebind := rebind + starts;
      }
      fatal := Pace(now, renew, rebind, hi);
      if fatal {
        return;
      }
      if depref != MAX_TIME {
        deprefAt := At(depref);
      }
      if lo != MAX_TIME {
        expireAt := At(lo);
      }
    }

    /** do_depref. */
    method DoDepref(now: int) returns (fatal: bool)
      requires TimesOk(bindings) && now < MAX_TIME
      modifies this
      ensures !old(lease) ==> !fatal && unchanged(this)
      ensures old(lease) && old(Ends(bindings)) == [] ==> !fatal && !lease && state == Init
      ensures old(lease) && old(Ends(bindings)) != [] ==>
        && lease && bindings == Depreffed(now, old(bindings)) && DepreffedTo(now, old(bindings), bindings)
        && state == old(state) && (fatal <==> !Serving())
      ensures old(lease) && old(Ends(bindings)) != [] && !fatal ==> Scheduled() && Paced(now)
    {
      hide Lowest, Highest, Ends, Softs, Depreffed, DepreffedTo, TimesOk;
      if !lease {
        return false;
      }
      var b := DeprefIas(now, bindings);
      DepreffedSofts(now, bindings);
      DepreffedAre(now, bindings);
      bindings := b;
      fatal := CheckTimes(now);
    }

    /** do_expire. */
    method DoExpire(now: int) returns (fatal: bool)
      requires TimesOk(bindings) && now < MAX_TIME
      modifies this
      ensures !old(lease) ==> !fatal && unchanged(this)
      ensures old(lease) && Later(now, old(Ends(bindings))) == [] ==>
        && !fatal && !lease && bindings == [] && state == Init && nextMrd == old(nextMrd)
        && renewAt == old(renewAt) && rebindAt == old(rebindAt)
        && deprefAt == old(deprefAt) && expireAt == old(expireAt)
      ensures old(lease) && Later(now, old(Ends(bindings))) != [] ==>
        && lease && bindings == Survivors(now, old(bindings)) && ExpiredTo(now, old(bindings), bindings)
        && Ends(bindings) == Later(now, old(Ends(bindings)))
        && AllAlive(bindings) && TimesOk(bindings) && state == old(state) && (fatal <==> !Serving())
        && (!fatal ==> Scheduled() && Paced(now))
    {
      hide Lowest, Highest, Ends, Softs, Survivors, ExpiredTo, TimesOk, AllAlive, Later;
      if !lease {
        return false;
      }
      SurvivorsEnds(now, bindings);
      SurvivorsAlive(now, bindings);
      SurvivorsAre(now, bindings);
      var b, live := ExpireIas(now, bindings);
      bindings := b;
      if !live {
        StartOver();
        return false;
      }
      fatal := CheckTimes(now);
    }
  }

  /** The loops of do_depref. */
  method DeprefIas(now: int, b: seq<Ia>) returns (r: seq<Ia>)
    ensures r == Depreffed(now, b)
  {
    r := [];
    for i := 0 to |b|
      invariant r == Depreffed(now, b[..i])
    {
      var addrs := [];
      var s := b[i].addrs;
      for j := 0 to |s|
        invariant addrs == DeprefAddrs(now, s[..j])
      {
        var a := s[j];
        if !a.depreffed && a.starts + a.preferred <= now {
          a := a.(depreffed := true);
        }
        assert s[..j + 1][..j] == s[..j];
        addrs := addrs + [a];
      }
      assert s[..|s|] == s;
      assert b[..i + 1][..i] == b[..i];
      r := r + [b[i].(addrs := addrs)];
    }
    assert b[..|b|] == b;
  }

  /** The inner loop of do_expire. */
  method ExpireOne(now: int, s: seq<Addr>) returns (r: seq<Addr>, live: bool)
    ensures r == ExpireAddrs(now, s) && (live <==> EndsOf(r) != [])
  {
    r, live := [], false;
    for j := 0 to |s|
      invariant r == ExpireAddrs(now, s[..j]) && (live <==> EndsOf(r) != [])
    {
      assert s[..j + 1][..j] == s[..j];
      var a := s[j];
      if !a.expired {
        if a.starts + a.maxLife <= now {
          a := a.(expired := true);
        } else {
          live := true;
        }
      }
      assert (r + [a])[..|r|] == r;
      r := r + [a];
    }
    assert s[..|s|] == s;
  }

  /** The outer loop of do_expire, which unlinks an association that has nothing left. */
  method ExpireIas(now: int, b: seq<Ia>) returns (r: seq<Ia>, live: bool)
    ensures r == Survivors(now, b) && (live <==> Ends(r) != [])
  {
    hide EndsOf, ExpireAddrs;
    r, live := [], false;
    for i := 0 to |b|
      invariant r == Survivors(now, b[..i]) && (live <==> Ends(r) != [])
    {
      assert b[..i + 1][..i] == b[..i];
      var addrs, has := ExpireOne(now, b[i].addrs);
      if has {
        EndsAppend(r, b[i].(addrs := addrs));
        r := r + [b[i].(addrs := addrs)];
        live := true;
      }
    }
    assert b[..|b|] == b;
  }

  // ---- a lease that nobody renews --------------------------------------------------------------------------

  /** The ends that firing i finds: those after the firing before it. */
  ghost function Left(fired: seq<int>, ends: seq<int>, i: nat): seq<int>
    requires i <= |fired|
  {
    if i == 0 then ends else Later(fired[i - 1], ends)
  }

  /** Firing i is set for the earliest end that it finds, and happens late(i) after it. */
  ghost predicate FiredAt(fired: seq<int>, ends: seq<int>, late: nat -> nat, i: nat)
    requires i < |fired|
  {
    var due := Lowest(MAX_TIME, Left(fired, ends, i));
    due < MAX_TIME && fired[i] == due + late(i)
  }

  ghost predicate FiredRight(fired: seq<int>, ends: seq<int>, late: nat -> nat) {
    forall i :: 0 <= i < |fired| ==> FiredAt(fired, ends, late, i)
  }

  /** The end v is dealt with by the first firing at or after it, which is no later than its own delay. */
  ghost predicate ExpiresAt(fired: seq<int>, late: nat -> nat, v: int, i: nat) {
    i < |fired| && v <= fired[i] <= v + late(i) && (i > 0 ==> fired[i - 1] < v)
  }

  lemma LeftHas(fired: seq<int>, ends: seq<int>, i: nat, v: int)
    requires i <= |fired|
    ensures v in Left(fired, ends, i) <==> v in ends && (i > 0 ==> fired[i - 1] < v)
  {}

  lemma LowestIn(s: seq<int>)
    ensures var x := Lowest(MAX_TIME, s);
      x <= MAX_TIME && (x < MAX_TIME ==> x in s) && forall v :: v in s ==> x <= v
  {
    var x := Lowest(MAX_TIME, s);
    assert Least(x, MAX_TIME, s);
  }

  /** When the timer goes off for good, every end below "never" has been dealt with. */
  lemma AllExpire(fired: seq<int>, ends: seq<int>, late: nat -> nat, v: int)
    requires FiredRight(fired, ends, late) && Lowest(MAX_TIME, Left(fired, ends, |fired|)) == MAX_TIME
    requires v in ends && v < MAX_TIME
    ensures exists i :: ExpiresAt(fired, late, v, i)
  {
    hide Lowest, Left;
    var i := 0;
    LeftHas(fired, ends, 0, v);
    while i < |fired| && fired[i] < v
      invariant i <= |fired| && (i > 0 ==> fired[i - 1] < v)
    {
      i := i + 1;
    }
    LeftHas(fired, ends, i, v);
    LowestIn(Left(fired, ends, i));
    assert i < |fired|;
    assert FiredAt(fired, ends, late, i);
    assert ExpiresAt(fired, late, v, i);
  }

  /** A firing deals with at least one end, and leaves those after it. */
  lemma FireNext(fired: seq<int>, ends: seq<int>, late: nat -> nat, due: int)
    requires FiredRight(fired, ends, late) && due == Lowest(MAX_TIME, Left(fired, ends, |fired|))
    requires due < MAX_TIME
    ensures var now := due + late(|fired|); var rest := Left(fired, ends, |fired|);
      && due in ends && FiredRight(fired + [now], ends, late)
      && Left(fired + [now], ends, |fired| + 1) == Later(now, ends) == Later(now, rest)
      && |Later(now, ends)| < |rest|
  {
    hide Lowest, Later, FiredAt;
    var now := due + late(|fired|);
    var rest := Left(fired, ends, |fired|);
    LowestIn(rest);
    FiredMore(fired, ends, late, now);
    if |fired| > 0 {
      LaterHas(fired[|fired| - 1], ends, due);
      LaterTwice(fired[|fired| - 1], now, ends);
    }
    LaterShrinks(now, rest, due);
  }

  lemma FiredMore(fired: seq<int>, ends: seq<int>, late: nat -> nat, now: int)
    requires FiredRight(fired, ends, late) && Lowest(MAX_TIME, Left(fired, ends, |fired|)) < MAX_TIME
    requires now == Lowest(MAX_TIME, Left(fired, ends, |fired|)) + late(|fired|)
    ensures FiredRight(fired + [now], ends, late)
  {
    hide Lowest, Later;
    forall i | 0 <= i < |fired + [now]|
      ensures FiredAt(fired + [now], ends, late, i)
    {
      assert Left(fired + [now], ends, i) == Left(fired, ends, i);
      if i < |fired| {
        assert FiredAt(fired, ends, late, i);
      }
    }
  }

  lemma LaterHas(now: int, s: seq<int>, v: int)
    ensures v in Later(now, s) <==> v in s && v > now
  {}

  lemma LaterShrinks(now: int, s: seq<int>, v: int)
    requires v in s && v <= now
    ensures |Later(now, s)| < |s|
  {}

  /**
   Let the expiry timer run, firing `late` after it was set for, until it is off.  Every firing is set
   for the earliest end left; every end below "never" is dealt with by the first firing at or after it;
   and a lease is left if and only if some binding lasts until "never", with the bindings that one expiry
   at the last firing would have left.
   */
  method RunExpiry(c: Client, late: nat -> nat) returns (fired: seq<int>)
    requires c.lease && c.Serving() && c.Scheduled() && TimesOk(c.bindings) && Ends(c.bindings) != []
    requires forall v, i: nat :: v in Ends(c.bindings) && v < MAX_TIME ==> v + late(i) < MAX_TIME
    modifies c
    ensures FiredRight(fired, old(Ends(c.bindings)), late)
    ensures forall v :: v in old(Ends(c.bindings)) && v < MAX_TIME ==> exists i :: ExpiresAt(fired, late, v, i)
    ensures c.lease <==> exists v :: v in old(Ends(c.bindings)) && v >= MAX_TIME
    ensures c.lease ==> c.Serving() && c.Scheduled() && Ends(c.bindings) == Later(MAX_TIME - 1, old(Ends(c.bindings)))
    ensures c.lease ==> c.bindings == SurvivorsOf(fired, old(c.bindings))
    ensures !c.lease ==> c.state == Init
  {
    hide Lowest, Highest, Least, Ends, Softs, Survivors, TimesOk, AllAlive, Later, FiredRight, Left, ExpiresAt;
    hide ExpiredTo;
    fired := [];
    ghost var ends := Ends(c.bindings);
    FireFirst(ends, late);
    while c.expireAt.At?
      invariant FiredRight(fired, ends, late)
      invariant c.lease <==> Left(fired, ends, |fired|) != []
      invariant c.lease ==>
        c.Serving() && c.Scheduled() && TimesOk(c.bindings) && Ends(c.bindings) == Left(fired, ends, |fired|)
      invariant c.lease ==> c.bindings == SurvivorsOf(fired, old(c.bindings))
      invariant !c.lease ==> c.expireAt == Off && c.state == Init
      decreases |Left(fired, ends, |fired|)|
    {
      var due := c.expireAt.time;
      var now := due + late(|fired|);
      c.expireAt := Off;
      LowestIn(Left(fired, ends, |fired|));
      FireNext(fired, ends, late, due);
      SurvivorsNext(fired, ends, due, now, old(c.bindings));
      var fatal := c.DoExpire(now);
      fired := fired + [now];
    }
    LowestIn(Left(fired, ends, |fired|));
    LowestNone();
    FireLast(fired, ends, late);
  }

  /** What the firings leave: as if there had been only the last. */
  ghost function SurvivorsOf(fired: seq<int>, b: seq<Ia>): seq<Ia> {
    if fired == [] then b else Survivors(fired[|fired| - 1], b)
  }

  lemma SurvivorsNext(fired: seq<int>, ends: seq<int>, due: int, now: int, b: seq<Ia>)
    requires due in Left(fired, ends, |fired|) && due <= now
    ensures Survivors(now, SurvivorsOf(fired, b)) == SurvivorsOf(fired + [now], b)
  {
    hide Survivors;
    if fired != [] {
      var last := fired[|fired| - 1];
      LaterHas(last, ends, due);
      SurvivorsTwice(last, now, b);
    }
  }

  lemma FireFirst(ends: seq<int>, late: nat -> nat)
    ensures FiredRight([], ends, late) && Left([], ends, 0) == ends
  {}

  lemma LowestNone()
    ensures Lowest(MAX_TIME, []) == MAX_TIME
  {}

  /** What is left when the timer is off lasts until "never". */
  lemma FireLast(fired: seq<int>, ends: seq<int>, late: nat -> nat)
    requires FiredRight(fired, ends, late) && Lowest(MAX_TIME, Left(fired, ends, |fired|)) == MAX_TIME
    requires forall v, i: nat :: v in ends && v < MAX_TIME ==> v + late(i) < MAX_TIME
    ensures forall v :: v in ends && v < MAX_TIME ==> exists i :: ExpiresAt(fired, late, v, i)
    ensures Left(fired, ends, |fired|) == Later(MAX_TIME - 1, ends)
    ensures Left(fired, ends, |fired|) != [] <==> exists v :: v in ends && v >= MAX_TIME
  {
    hide Lowest, Left, ExpiresAt, Later, FiredRight;
    forall v | v in ends && v < MAX_TIME
      ensures exists i :: ExpiresAt(fired, late, v, i)
    {
      AllExpire(fired, ends, late, v);
    }
    LastIsNever(fired, ends, late);
    LaterSome(MAX_TIME - 1, ends);
  }

  lemma LastIsNever(fired: seq<int>, ends: seq<int>, late: nat -> nat)
    requires FiredRight(fired, ends, late) && Lowest(MAX_TIME, Left(fired, ends, |fired|)) == MAX_TIME
    requires forall v, i: nat :: v in ends && v < MAX_TIME ==> v + late(i) < MAX_TIME
    ensures Left(fired, ends, |fired|) == Later(MAX_TIME - 1, ends)
  {
    hide Lowest, Later;
    var rest := Left(fired, ends, |fired|);
    LowestIn(rest);
    LaterAll(MAX_TIME - 1, rest);
    if |fired| > 0 {
      var n := |fired| - 1;
      assert FiredAt(fired, ends, late, n);
      LowestIn(Left(fired, ends, n));
      LeftHas(fired, ends, n, Lowest(MAX_TIME, Left(fired, ends, n)));
      LaterTwice(fired[n], MAX_TIME - 1, ends);
    }
  }

  lemma LaterAll(now: int, s: seq<int>)
    requires forall v :: v in s ==> v > now
    ensures Later(now, s) == s
  {
    assert forall k :: 0 <= k < |s| ==> s[k] in s;
  }

  lemma LaterSome(now: int, s: seq<int>)
    ensures Later(now, s) != [] <==> exists v :: v in s && v > now
  {
    var r := Later(now, s);
    if r != [] {
      assert r[0] in r;
    }
  }
}
