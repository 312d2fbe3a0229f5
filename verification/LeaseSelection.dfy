/**
 Choosing among advertised leases, src/dhcp/client/dhc6.c (section 17.1.3 of RFC 3315).
 */
module LeaseOrder {
  import opened Bindings

  /** An advertised lease.  A score of zero means it has not been computed. */
  datatype Lease = Lease(serverId: seq<nat>, pref: nat, score: int,
                         bindings: seq<Ia>, options: set<nat>, status: Status)

  datatype Config = Config(required: seq<nat>, requested: seq<nat>)

  /** The score of one binding with one address. */
  const SCORE_MIN := 10100

  // ---- scores --------------------------------------------------------------------------------

  ghost predicate HasRequired(c: Config, l: Lease) { forall i :: 0 <= i < |c.required| ==> c.required[i] in l.options }

  function Present(codes: seq<nat>, options: set<nat>): nat {
    if codes == [] then 0 else Present(codes[..|codes| - 1], options) + (if codes[|codes| - 1] in options then 1 else 0)
  }

  function BindingScore(ias: seq<Ia>): nat {
    if ias == [] then 0 else BindingScore(ias[..|ias| - 1]) + 10000 + 100 * |ias[|ias| - 1].addrs|
  }

  ghost function ScoreOf(c: Config, l: Lease): nat {
    if HasRequired(c, l) then 1 + Present(c.requested, l.options) + BindingScore(l.bindings) else 0
  }

  /** A cached score is the score. */
  ghost predicate Cached(c: Config, l: Lease) { l.score == 0 || l.score == ScoreOf(c, l) }

  ghost function Scored(c: Config, l: Lease): Lease { l.(score := ScoreOf(c, l)) }

  // ---- what a score is worth -----------------------------------------------------------------------

  lemma {:induction false} PresentAdds(codes: seq<nat>, options: set<nat>, o: nat)
    requires o !in options
    ensures Present(codes, options + {o}) == Present(codes, options) + multiset(codes)[o]
  {
    if codes == [] {
      assert multiset(codes)[o] == 0;
    } else {
      var init: seq<nat>, last: nat := codes[..|codes| - 1], codes[|codes| - 1];
      PresentAdds(init, options, o);
      assert codes == init + [last];
      assert multiset(codes)[o] == multiset(init)[o] + if last == o then 1 else 0;
    }
  }

  /** A new option that is not required adds one for each time that it is requested: nothing if it is not. */
  lemma OptionAdds(c: Config, l: Lease, o: nat)
    requires o !in l.options && o !in c.required
    ensures var more := l.(options := l.options + {o});
      && (HasRequired(c, more) <==> HasRequired(c, l))
      && ScoreOf(c, more) == ScoreOf(c, l) + if HasRequired(c, l) then multiset(c.requested)[o] else 0
  {
    PresentAdds(c.requested, l.options, o);
    hide Present, BindingScore;
  }

  lemma {:induction false} BindingScoreConcat(a: seq<Ia>, b: seq<Ia>)
    ensures BindingScore(a + b) == BindingScore(a) + BindingScore(b)
  {
    if b == [] {
      assert a + b == a;
    } else {
      var init, last := b[..|b| - 1], b[|b| - 1];
      BindingScoreConcat(a, init);
      assert (a + b)[..|a + b| - 1] == a + init;
    }
  }

  /** One more address in a binding adds as much as a hundred options. */
  lemma AddressAdds(c: Config, l: Lease, i: nat, a: Addr)
    requires HasRequired(c, l) && i < |l.bindings|
    ensures var x := l.bindings[i];
      ScoreOf(c, l.(bindings := l.bindings[i := x.(addrs := x.addrs + [a])])) == ScoreOf(c, l) + 100
  {
    hide BindingScore, Present;
    var b, x := l.bindings, l.bindings[i];
    var y := x.(addrs := x.addrs + [a]);
    assert b == b[..i] + ([x] + b[i + 1..]) && b[i := y] == b[..i] + ([y] + b[i + 1..]);
    BindingScoreConcat(b[..i], [x] + b[i + 1..]);
    BindingScoreConcat(b[..i], [y] + b[i + 1..]);
    BindingScoreConcat([x], b[i + 1..]);
    BindingScoreConcat([y], b[i + 1..]);
    OneBinding(x);
    OneBinding(y);
  }

  lemma OneBinding(x: Ia)
    ensures BindingScore([x]) == 10000 + 100 * |x.addrs|
  {
    assert [x][..0] == [];
  }

  /** One more binding, without an address, adds as much as a hundred addresses. */
  lemma BindingAdds(c: Config, l: Lease, x: Ia)
    requires HasRequired(c, l) && x.addrs == []
    ensures ScoreOf(c, l.(bindings := l.bindings + [x])) == ScoreOf(c, l) + 100 * 100
  {
    BindingScoreConcat(l.bindings, [x]);
    OneBinding(x);
    hide BindingScore, Present;
  }

  /** And with all that is required a lease is worth one, without it nothing. */
  lemma NothingOffered(c: Config, l: Lease)
    requires l.bindings == [] && forall o :: o in c.requested ==> o !in l.options
    ensures ScoreOf(c, l) == if HasRequired(c, l) then 1 else 0
  {
    PresentNone(c.requested, l.options);
  }

  lemma {:induction false} PresentNone(codes: seq<nat>, options: set<nat>)
    requires forall o :: o in codes ==> o !in options
    ensures Present(codes, options) == 0
  {
    if codes != [] {
      PresentNone(codes[..|codes| - 1], options);
    }
  }

  /** The same bindings and preference, and strictly more of what the client requested. */
  ghost predicate Richer(c: Config, x: Lease, y: Lease) {
    && x.pref == y.pref && x.bindings == y.bindings && HasRequired(c, x)
    && (forall o :: o in c.requested && o in y.options ==> o in x.options)
    && (exists o :: o in c.requested && o in x.options && o !in y.options)
  }

  lemma {:induction false} PresentMore(codes: seq<nat>, a: set<nat>, b: set<nat>)
    requires forall o :: o in codes && o in b ==> o in a
    ensures Present(codes, a) >= Present(codes, b)
    ensures (exists o :: o in codes && o in a && o !in b) ==> Present(codes, a) > Present(codes, b)
  {
    if codes != [] {
      var init, last := codes[..|codes| - 1], codes[|codes| - 1];
      assert codes == init + [last];
      PresentMore(init, a, b);
    }
  }

  lemma RicherBeats(c: Config, x: Lease, y: Lease)
    requires Richer(c, x, y)
    ensures ScoreOf(c, x) > ScoreOf(c, y) && Beats(c, x, y) && (Strong(c, y) ==> Strong(c, x))
  {
    PresentMore(c.requested, x.options, y.options);
    hide Present, BindingScore;
  }

  // ---- the order -------------------------------------------------------------------------------

  /** memcmp(a, b, len) < 0 for two identifiers of the same length. */
  predicate BytesLess(a: seq<nat>, b: seq<nat>)
    requires |a| == |b|
  {
    a != [] && (a[0] < b[0] || (a[0] == b[0] && BytesLess(a[1..], b[1..])))
  }

  predicate IdLess(a: seq<nat>, b: seq<nat>) { |a| < |b| || (|a| == |b| && BytesLess(a, b)) }

  lemma {:induction false} BytesTotal(a: seq<nat>, b: seq<nat>)
    requires |a| == |b|
    ensures a != b ==> BytesLess(a, b) != BytesLess(b, a)
    ensures a == b ==> !BytesLess(a, b)
  {
    if a != [] {
      BytesTotal(a[1..], b[1..]);
      assert a == [a[0]] + a[1..] && b == [b[0]] + b[1..];
    }
  }

  /** At the first byte in which they differ, it is the lower. */
  lemma {:induction false} BytesLessIff(a: seq<nat>, b: seq<nat>)
    requires |a| == |b|
    ensures BytesLess(a, b) <==> exists k :: FirstLower(a, b, k)
  {
    if a != [] {
      BytesLessIff(a[1..], b[1..]);
      if a[0] < b[0] {
        assert FirstLower(a, b, 0);
      } else if a[0] == b[0] && BytesLess(a[1..], b[1..]) {
        var k :| FirstLower(a[1..], b[1..], k);
        assert a[..k + 1] == [a[0]] + a[1..][..k] && b[..k + 1] == [b[0]] + b[1..][..k];
        assert FirstLower(a, b, k + 1);
      }
      if k :| FirstLower(a, b, k) && k > 0 {
        assert a[..k][0] == a[0] && b[..k][0] == b[0];
        assert a[1..][..k - 1] == a[..k][1..] && b[1..][..k - 1] == b[..k][1..];
        assert FirstLower(a[1..], b[1..], k - 1);
      }
    }
  }

  ghost predicate FirstLower(a: seq<nat>, b: seq<nat>, k: int) {
    0 <= k < |a| && k < |b| && a[..k] == b[..k] && a[k] < b[k]
  }

  lemma {:induction false} BytesTransitive(a: seq<nat>, b: seq<nat>, c: seq<nat>)
    requires |a| == |b| == |c| && BytesLess(a, b) && BytesLess(b, c)
    ensures BytesLess(a, c)
  {
    if a[0] == b[0] == c[0] {
      BytesTransitive(a[1..], b[1..], c[1..]);
    }
  }

  /** The preference of section 17.1.3: preference value, then score, then the lower identifier. */
  ghost predicate Beats(c: Config, x: Lease, y: Lease) {
    || x.pref > y.pref
    || (x.pref == y.pref && ScoreOf(c, x) > ScoreOf(c, y))
    || (x.pref == y.pref && ScoreOf(c, x) == ScoreOf(c, y) && IdLess(x.serverId, y.serverId))
  }

  lemma BeatsTotal(c: Config, x: Lease, y: Lease)
    ensures x.serverId != y.serverId ==> Beats(c, x, y) != Beats(c, y, x)
    ensures !(Beats(c, x, y) && Beats(c, y, x))
  {
    if |x.serverId| == |y.serverId| {
      BytesTotal(x.serverId, y.serverId);
      hide BytesLess;
    }
  }

  lemma BeatsTransitive(c: Config, x: Lease, y: Lease, z: Lease)
    requires Beats(c, x, y) && Beats(c, y, z)
    ensures Beats(c, x, z)
  {
    if |x.serverId| == |y.serverId| == |z.serverId|
      && BytesLess(x.serverId, y.serverId) && BytesLess(y.serverId, z.serverId) {
      BytesTransitive(x.serverId, y.serverId, z.serverId);
      hide BytesLess;
    }
  }

  /** Preference first, then score; a tie goes to the shorter identifier, or to the lower at the first difference. */
  lemma BeatsMeans(c: Config, x: Lease, y: Lease)
    ensures x.pref > y.pref ==> Beats(c, x, y)
    ensures x.pref == y.pref && ScoreOf(c, x) > ScoreOf(c, y) ==> Beats(c, x, y)
    ensures x.pref == y.pref && ScoreOf(c, x) == ScoreOf(c, y) ==>
      var a, b := x.serverId, y.serverId;
      Beats(c, x, y) <==> if |a| == |b| then exists k :: FirstLower(a, b, k) else |a| < |b|
  {
    if |x.serverId| == |y.serverId| {
      BytesLessIff(x.serverId, y.serverId);
    }
    hide ScoreOf, BytesLess;
  }

  // ---- the loop of dhc6_best_lease -----------------------------------------------------------------

  ghost predicate Strong(c: Config, l: Lease) { ScoreOf(c, l) >= SCORE_MIN }

  /** Whether the candidate x replaces the lease y chosen so far. */
  ghost predicate Selects(c: Config, y: Lease, x: Lease) { (!Strong(c, y) && Strong(c, x)) || Beats(c, x, y) }

  /** The position that the loop ends with. */
  ghost function Pick(c: Config, s: seq<Lease>): (k: nat)
    requires s != []
    ensures k < |s|
  {
    if |s| == 1 then 0
    else
      var k := Pick(c, s[..|s| - 1]);
      if Selects(c, s[k], s[|s| - 1]) then |s| - 1 else k
  }

  ghost predicate DistinctIds(s: seq<Lease>) { forall i, j :: 0 <= i < j < |s| ==> s[i].serverId != s[j].serverId }

  /** x would be chosen over every other lease of s, whichever comes first. */
  ghost predicate Dominates(c: Config, x: Lease, s: seq<Lease>) {
    x in s && forall y :: y in s && y != x ==> Selects(c, y, x) && !Selects(c, x, y)
  }

  lemma {:induction false} PickDominant(c: Config, s: seq<Lease>, x: Lease)
    requires Dominates(c, x, s)
    ensures s[Pick(c, s)] == x
    decreases |s|
  {
    hide Selects;
    if |s| > 1 {
      var init, last := s[..|s| - 1], s[|s| - 1];
      assert s == init + [last];
      if x in init {
        PickDominant(c, init, x);
      } else {
        assert last == x && init[Pick(c, init)] in s;
      }
    }
  }

  // ---- when the result does not depend on the order ------------------------------------------------

  /** Every lease below SCORE_MIN is matched in preference by one that is not; or none is not. */
  ghost predicate Matched(c: Config, s: seq<Lease>) {
    || (forall w :: w in s ==> !Strong(c, w))
    || (forall w :: w in s && !Strong(c, w) ==> exists x :: x in s && Strong(c, x) && x.pref >= w.pref)
  }

  ghost predicate OrderFree(c: Config, s: seq<Lease>)
    requires s != []
  {
    forall t :: multiset(t) == multiset(s) && t != [] ==> t[Pick(c, t)] == s[Pick(c, s)]
  }

  /** x beats every other lease of its kind in s. */
  ghost predicate Top(c: Config, x: Lease, s: seq<Lease>) {
    x in s && forall y :: y in s && Strong(c, y) == Strong(c, x) && y != x ==> Beats(c, x, y)
  }

  lemma {:induction false} TopExists(c: Config, s: seq<Lease>, strong: bool) returns (x: Lease)
    requires DistinctIds(s) && exists y :: y in s && Strong(c, y) == strong
    ensures Top(c, x, s) && Strong(c, x) == strong
  {
    hide Beats, Strong;
    var init, last := s[..|s| - 1], s[|s| - 1];
    assert s == init + [last];
    if exists y :: y in init && Strong(c, y) == strong {
      x := TopExists(c, init, strong);
      if Strong(c, last) == strong {
        BeatsTotal(c, x, last);
        var i :| 0 <= i < |init| && init[i] == x;
        assert x.serverId != last.serverId;
        if Beats(c, last, x) {
          forall y | y in s && Strong(c, y) == strong && y != last
            ensures Beats(c, last, y)
          {
            if y != x {
              BeatsTransitive(c, last, x, y);
            }
          }
          x := last;
        }
      }
    } else {
      x := last;
    }
  }

  lemma MatchedHasDominant(c: Config, s: seq<Lease>) returns (x: Lease)
    requires s != [] && DistinctIds(s) && Matched(c, s)
    ensures Dominates(c, x, s)
  {
    var strong := exists y :: y in s && Strong(c, y);
    assert s[0] in s;
    x := TopExists(c, s, strong);
    TopDominates(c, s, x);
  }

  lemma TopDominates(c: Config, s: seq<Lease>, x: Lease)
    requires Matched(c, s) && Top(c, x, s) && (Strong(c, x) <==> exists y :: y in s && Strong(c, y))
    ensures Dominates(c, x, s)
  {
    forall y | y in s && y != x
      ensures Selects(c, y, x) && !Selects(c, x, y)
    {
      BeatsTotal(c, x, y);
      if Strong(c, y) != Strong(c, x) {
        var z :| z in s && Strong(c, z) && z.pref >= y.pref;
        WeakLoses(c, x, y, z);
      }
    }
  }

  /** A strong lease, at least as preferred as another strong one that matches y, beats the weak y. */
  lemma WeakLoses(c: Config, x: Lease, y: Lease, z: Lease)
    requires Strong(c, x) && !Strong(c, y) && z.pref >= y.pref && (z == x || Beats(c, x, z))
    ensures !Beats(c, y, x)
  {
    hide ScoreOf, IdLess;
  }

  lemma DominatesPermuted(c: Config, x: Lease, s: seq<Lease>, t: seq<Lease>)
    requires Dominates(c, x, s) && multiset(t) == multiset(s)
    ensures Dominates(c, x, t)
  {
    hide Selects;
    assert x in multiset(t);
    forall y | y in t
      ensures y in s
    {
      assert y in multiset(s);
    }
  }

  /** A lease is not chosen while a richer one is on offer, if the choice does not depend on the order. */
  lemma RicherIsPicked(c: Config, s: seq<Lease>, x: Lease, y: Lease)
    requires DistinctIds(s) && x in s && y in s && Richer(c, x, y) && Matched(c, s)
    ensures s[Pick(c, s)] != y
  {
    hide Richer, Matched, Beats, Strong;
    var z := MatchedHasDominant(c, s);
    PickDominant(c, s, z);
    RicherBeats(c, x, y);
    BeatsTotal(c, x, y);
  }

  // ---- and when it does ------------------------------------------------------------------------------

  function Without(s: seq<Lease>, i: nat): seq<Lease>
    requires i < |s|
  {
    s[..i] + s[i + 1..]
  }

  lemma MovedLast(s: seq<Lease>, i: nat)
    requires i < |s|
    ensures multiset(Without(s, i) + [s[i]]) == multiset(s)
  {
    assert s == s[..i] + [s[i]] + s[i + 1..];
  }

  /** A lease that comes last is chosen, or the one chosen before it is. */
  lemma PickLast(c: Config, s: seq<Lease>, x: Lease)
    requires s != []
    ensures var t := s + [x]; t[Pick(c, t)] == if Selects(c, s[Pick(c, s)], x) then x else s[Pick(c, s)]
  {
    hide Selects;
    assert (s + [x])[..|s|] == s;
  }

  /** A weak lease preferred to every strong one wins if it comes last, and loses if a strong one does. */
  lemma UnmatchedDependsOnOrder(c: Config, s: seq<Lease>)
    requires s != [] && !Matched(c, s)
    ensures !OrderFree(c, s)
  {
    hide Pick, Strong;
    var w :| w in s && !Strong(c, w) && forall x :: x in s && Strong(c, x) ==> x.pref < w.pref;
    var x :| x in s && Strong(c, x);
    var i :| 0 <= i < |s| && s[i] == w;
    var j :| 0 <= j < |s| && s[j] == x;
    WeakLast(c, s, i);
    StrongLast(c, s, j);
  }

  lemma WeakLast(c: Config, s: seq<Lease>, i: nat)
    requires i < |s| && |s| > 1 && !Strong(c, s[i]) && forall x :: x in s && Strong(c, x) ==> x.pref < s[i].pref
    ensures var t := Without(s, i) + [s[i]]; multiset(t) == multiset(s) && !Strong(c, t[Pick(c, t)])
  {
    hide Strong, Beats, Pick;
    MovedLast(s, i);
    PickLast(c, Without(s, i), s[i]);
    var r := Without(s, i)[Pick(c, Without(s, i))];
    assert r in s;
    PreferredBeats(c, s[i], r);
  }

  lemma StrongLast(c: Config, s: seq<Lease>, j: nat)
    requires j < |s| && |s| > 1 && Strong(c, s[j])
    ensures var t := Without(s, j) + [s[j]]; multiset(t) == multiset(s) && Strong(c, t[Pick(c, t)])
  {
    hide Strong, Beats, Pick;
    MovedLast(s, j);
    PickLast(c, Without(s, j), s[j]);
  }

  lemma PreferredBeats(c: Config, x: Lease, y: Lease)
    ensures x.pref > y.pref ==> Beats(c, x, y)
  {}

  /**
   The choice is independent of the order in which the advertisements arrived if and only if no
   lease below SCORE_MIN is preferred to every lease that reaches it.
   */
  lemma OrderFreeIff(c: Config, s: seq<Lease>)
    requires s != [] && DistinctIds(s)
    ensures OrderFree(c, s) <==> Matched(c, s)
  {
    if Matched(c, s) {
      var x := MatchedHasDominant(c, s);
      PickDominant(c, s, x);
      forall t | multiset(t) == multiset(s) && t != []
        ensures t[Pick(c, t)] == s[Pick(c, s)]
      {
        DominatesPermuted(c, x, s, t);
        PickDominant(c, t, x);
      }
    } else {
      UnmatchedDependsOnOrder(c, s);
    }
  }

  /** When every lease reaches SCORE_MIN, the choice is the unique best one. */
  lemma AllStrongPicksBest(c: Config, s: seq<Lease>)
    requires s != [] && DistinctIds(s) && forall l :: l in s ==> Strong(c, l)
    ensures forall y :: y in s && y != s[Pick(c, s)] ==> Beats(c, s[Pick(c, s)], y) && !Beats(c, y, s[Pick(c, s)])
  {
    assert s[0] in s;
    var x := TopExists(c, s, true);
    TopDominates(c, s, x);
    PickDominant(c, s, x);
    forall y | y in s && y != x
      ensures Beats(c, x, y) && !Beats(c, y, x)
    {
      BeatsTotal(c, x, y);
    }
  }
}

/** The client's list of advertised leases. */
module LeaseSelection {
  import opened Bindings
  import opened LeaseOrder
  import opened Wrappers

  /** How many identity associations of each kind the user asked for. */
  datatype Wanted = Wanted(na: nat, ta: nat, pd: nat, requireAll: bool)

  predicate StatusOk(s: Status) { s == NoStatus || s == Code(0) }

  function Count(ias: seq<Ia>, t: IaType): nat {
    if ias == [] then 0 else Count(ias[..|ias| - 1], t) + (if ias[|ias| - 1].iaType == t then 1 else 0)
  }

  /** What dhc6_check_advertise accepts. */
  ghost predicate Acceptable(w: Wanted, l: Lease) {
    && StatusOk(l.status)
    && (forall i :: 0 <= i < |l.bindings| ==> StatusOk(l.bindings[i].status) && l.bindings[i].iaType != IaOther)
    && (exists i :: 0 <= i < |l.bindings| && l.bindings[i].addrs != [])
    && (w.requireAll ==>
        Count(l.bindings, IaNa) >= w.na && Count(l.bindings, IaTa) >= w.ta && Count(l.bindings, IaPd) >= w.pd)
  }

  lemma CountNone(ias: seq<Ia>)
    ensures forall t :: Count(ias[..0], t) == 0
  {}

  lemma CountNext(ias: seq<Ia>, i: nat)
    requires i < |ias|
    ensures forall t :: Count(ias[..i + 1], t) == Count(ias[..i], t) + if ias[i].iaType == t then 1 else 0
  {
    assert ias[..i + 1][..i] == ias[..i];
  }

  /** dhc6_check_advertise. */
  method CheckAdvertise(w: Wanted, l: Lease) returns (ok: bool)
    ensures ok <==> Acceptable(w, l)
  {
    hide StatusOk, Count;
    CountNone(l.bindings);
    ok := StatusOk(l.status);
    var haveAddrs := false;
    var na, ta, pd := 0, 0, 0;
    for i := 0 to |l.bindings|
      invariant na == Count(l.bindings[..i], IaNa) && ta == Count(l.bindings[..i], IaTa)
      invariant pd == Count(l.bindings[..i], IaPd)
      invariant ok <==> StatusOk(l.status) && forall j :: 0 <= j < i ==> StatusOk(l.bindings[j].status)
      invariant forall j :: 0 <= j < i ==> l.bindings[j].iaType != IaOther
      invariant ok ==> (haveAddrs <==> exists j :: 0 <= j < i && l.bindings[j].addrs != [])
    {
      var ia := l.bindings[i];
      CountNext(l.bindings, i);
      match ia.iaType {
        case IaNa => na := na + 1;
        case IaTa => ta := ta + 1;
        case IaPd => pd := pd + 1;
        case IaOther => return false;
      }
      if !StatusOk(ia.status) {
        ok := false;
      }
      if ok && ia.addrs != [] {
        haveAddrs := true;
      }
    }
    assert l.bindings[..|l.bindings|] == l.bindings;
    if !haveAddrs || (w.requireAll && (na < w.na || ta < w.ta || pd < w.pd)) {
      ok := false;
    }
  }

  /** A success code is as good as none, for the lease and for each binding; nothing else is. */
  lemma StatusCounts(w: Wanted, l: Lease, s: Status)
    requires Acceptable(w, l)
    ensures Acceptable(w, l.(status := s)) <==> s == NoStatus || s == Code(0)
    ensures forall i :: 0 <= i < |l.bindings| ==>
      (Acceptable(w, l.(bindings := l.bindings[i := l.bindings[i].(status := s)])) <==> s == NoStatus || s == Code(0))
  {
    assert Acceptable(w, l.(status := s)) <==> StatusOk(s);
    forall i | 0 <= i < |l.bindings|
      ensures Acceptable(w, l.(bindings := l.bindings[i := l.bindings[i].(status := s)])) <==> StatusOk(s)
    {
      StatusOfBinding(w, l, s, i);
    }
  }

  lemma StatusOfBinding(w: Wanted, l: Lease, s: Status, i: nat)
    requires Acceptable(w, l) && i < |l.bindings|
    ensures Acceptable(w, l.(bindings := l.bindings[i := l.bindings[i].(status := s)])) <==> StatusOk(s)
  {
    hide StatusOk;
    var b := l.bindings[i := l.bindings[i].(status := s)];
    SameTypes(l.bindings, b, IaNa);
    SameTypes(l.bindings, b, IaTa);
    SameTypes(l.bindings, b, IaPd);
    var j :| 0 <= j < |l.bindings| && l.bindings[j].addrs != [];
    assert b[j].addrs != [] && b[i].status == s;
  }

  lemma {:induction false} SameTypes(a: seq<Ia>, b: seq<Ia>, t: IaType)
    requires |a| == |b| && forall i :: 0 <= i < |a| ==> a[i].iaType == b[i].iaType
    ensures Count(a, t) == Count(b, t)
  {
    if a != [] {
      SameTypes(a[..|a| - 1], b[..|b| - 1], t);
    }
  }

  /** Where the bindings of a type are. */
  function Positions(ias: seq<Ia>, t: IaType): set<int> { set i | 0 <= i < |ias| && ias[i].iaType == t }

  lemma {:induction false} CountIs(ias: seq<Ia>, t: IaType)
    ensures Count(ias, t) == |Positions(ias, t)|
  {
    if ias == [] {
      assert Positions(ias, t) == {};
    } else {
      var n := |ias| - 1;
      CountIs(ias[..n], t);
      PositionsNext(ias, t);
      hide Positions;
    }
  }

  /** When all must be there, a lease that is otherwise acceptable needs as many of each kind as were asked for. */
  lemma EnoughOfEach(w: Wanted, l: Lease)
    requires w.requireAll && Acceptable(w.(requireAll := false), l)
    ensures Acceptable(w, l) <==>
      && |Positions(l.bindings, IaNa)| >= w.na && |Positions(l.bindings, IaTa)| >= w.ta
      && |Positions(l.bindings, IaPd)| >= w.pd
  {
    hide Positions, Count;
    CountIs(l.bindings, IaNa);
    CountIs(l.bindings, IaTa);
    CountIs(l.bindings, IaPd);
  }

  lemma PositionsNext(ias: seq<Ia>, t: IaType)
    requires ias != []
    ensures var n := |ias| - 1; var s := Positions(ias[..n], t);
      n !in s && Positions(ias, t) == if ias[n].iaType == t then s + {n} else s
  {}

  lemma {:induction false} BindingScoreAtLeast(ias: seq<Ia>, i: nat)
    requires i < |ias| && ias[i].addrs != []
    ensures BindingScore(ias) >= SCORE_MIN
  {
    if i < |ias| - 1 {
      BindingScoreAtLeast(ias[..|ias| - 1], i);
    }
  }

  /** An accepted lease with every required option scores above SCORE_MIN. */
  lemma AcceptableIsStrong(c: Config, w: Wanted, l: Lease)
    requires Acceptable(w, l) && HasRequired(c, l)
    ensures ScoreOf(c, l) > SCORE_MIN && Strong(c, l)
  {
    var i :| 0 <= i < |l.bindings| && l.bindings[i].addrs != [];
    BindingScoreAtLeast(l.bindings, i);
  }

  /**
   Among accepted leases that all carry the required options, the choice does not depend on the
   order of arrival, and it is the unique best lease.
   */
  lemma AcceptedChoice(c: Config, w: Wanted, s: seq<Lease>)
    requires s != [] && DistinctIds(s) && forall l :: l in s ==> Acceptable(w, l) && HasRequired(c, l)
    ensures OrderFree(c, s)
    ensures forall y :: y in s && y != s[Pick(c, s)] ==> Beats(c, s[Pick(c, s)], y) && !Beats(c, y, s[Pick(c, s)])
  {
    forall l | l in s
      ensures Strong(c, l)
    {
      AcceptableIsStrong(c, w, l);
    }
    AllStrongPicksBest(c, s);
    OrderFreeIff(c, s);
  }

  /** Every lease without the required options is outranked by one that has them, unless none has. */
  ghost predicate RequiredMatched(c: Config, s: seq<Lease>) {
    || (forall l :: l in s ==> !HasRequired(c, l))
    || (forall l :: l in s && !HasRequired(c, l) ==> exists x :: x in s && HasRequired(c, x) && x.pref >= l.pref)
  }

  /**
   For the leases that the client lets in, the choice is independent of the order of arrival if and
   only if no lease that lacks a required option is preferred to every lease that has them all.
   */
  lemma AcceptedOrderFreeIff(c: Config, w: Wanted, s: seq<Lease>)
    requires s != [] && DistinctIds(s) && forall l :: l in s ==> Acceptable(w, l)
    ensures OrderFree(c, s) <==> RequiredMatched(c, s)
  {
    hide OrderFree, DistinctIds, HasRequired, Acceptable, Strong;
    forall l | l in s
      ensures Strong(c, l) <==> HasRequired(c, l)
    {
      StrongIffRequired(c, w, l);
    }
    OrderFreeIff(c, s);
  }

  lemma StrongIffRequired(c: Config, w: Wanted, l: Lease)
    requires Acceptable(w, l)
    ensures Strong(c, l) <==> HasRequired(c, l)
  {
    if HasRequired(c, l) {
      AcceptableIsStrong(c, w, l);
    }
  }

  function OneAddress(): Ia {
    Ia(IaNa, [0, 0, 0, 1], 0, 0, 0, [Addr([], 0, false, false, 0, 0, 0)], NoStatus)
  }

  /** Two leases that the client lets in and between which the order of arrival decides. */
  lemma AcceptedDependsOnOrder(w: Wanted)
    requires !w.requireAll
    ensures var c := Config([7], []); var ia := OneAddress();
      var lacking := Lease([1], 5, 0, [ia], {}, NoStatus);
      var having := Lease([2], 0, 0, [ia], {7}, NoStatus);
      && Acceptable(w, lacking) && Acceptable(w, having) && DistinctIds([lacking, having])
      && !Matched(c, [lacking, having]) && !OrderFree(c, [lacking, having])
  {
    hide OrderFree, Strong, Matched;
    var c := Config([7], []);
    var ia := OneAddress();
    var lacking, having := Lease([1], 5, 0, [ia], {}, NoStatus), Lease([2], 0, 0, [ia], {7}, NoStatus);
    var s := [lacking, having];
    assert lacking.bindings[0].addrs != [] && having.bindings[0].addrs != [];
    assert c.required[0] !in lacking.options;
    assert lacking in s && having in s && HasRequired(c, having) && !HasRequired(c, lacking);
    AcceptedOrderFreeIff(c, w, s);
    OrderFreeIff(c, s);
  }

  class Client {
    const config: Config
    const wanted: Wanted
    var advertised: seq<Lease>

    ghost predicate Valid()
      reads this
    {
      DistinctIds(advertised) && forall l :: l in advertised ==> Cached(config, l)
    }

    constructor (config: Config, wanted: Wanted)
      ensures this.config == config && this.wanted == wanted && advertised == [] && Valid()
    {
      this.config, this.wanted, advertised := config, wanted, [];
    }

    /** insert_lease: replace the lease of the same server, or add to the tail. */
    method InsertLease(l: Lease)
      requires Valid() && Cached(config, l)
      modifies this
      ensures Valid() && l in advertised
      ensures forall i :: 0 <= i < |old(advertised)| && old(advertised)[i].serverId == l.serverId ==>
        advertised == old(advertised)[i := l]
      ensures (forall i :: 0 <= i < |old(advertised)| ==> old(advertised)[i].serverId != l.serverId) ==>
        advertised == old(advertised) + [l]
    {
      hide Cached;
      var i := 0;
      while i < |advertised| && advertised[i].serverId != l.serverId
        invariant i <= |advertised| && forall j :: 0 <= j < i ==> advertised[j].serverId != l.serverId
      {
        i := i + 1;
      }
      if i < |advertised| {
        advertised := advertised[i := l];
        assert advertised[i] == l;
      } else {
        advertised := advertised + [l];
        assert advertised[i] == l;
      }
    }

    /** dhc6_score_lease. */
    method ScoreLease(i: nat) returns (score: int)
      requires Valid() && i < |advertised|
      modifies this
      ensures Valid() && score == ScoreOf(config, old(advertised)[i])
      ensures advertised == old(advertised)[i := Scored(config, old(advertised)[i])]
    {
      var l := advertised[i];
      if l.score != 0 {
        assert l in advertised && Cached(config, l);
        return l.score;
      }
      score := ComputeScore(l);
      advertised := advertised[i := l.(score := score)];
    }

    method ComputeScore(l: Lease) returns (score: int)
      ensures score == ScoreOf(config, l)
    {
      score := 1;
      for i := 0 to |config.required|
        invariant forall j :: 0 <= j < i ==> config.required[j] in l.options
      {
        if config.required[i] !in l.options {
          return 0;
        }
      }
      for i := 0 to |config.requested|
        invariant score == 1 + Present(config.requested[..i], l.options)
      {
        assert config.requested[..i + 1][..i] == config.requested[..i];
        if config.requested[i] in l.options {
          score := score + 1;
        }
      }
      assert config.requested[..|config.requested|] == config.requested;
      for i := 0 to |l.bindings|
        invariant score == 1 + Present(config.requested, l.options) + BindingScore(l.bindings[..i])
      {
        assert l.bindings[..i + 1][..i] == l.bindings[..i];
        score := score + 10000;
        score := score + 100 * |l.bindings[i].addrs|;
      }
      assert l.bindings[..|l.bindings|] == l.bindings;
    }

    /** Whether dhc6_best_lease moves its choice from y to the candidate x, given their scores. */
    method Prefer(y: Lease, x: Lease, rscore: int, cscore: int) returns (selected: bool)
      requires rscore == ScoreOf(config, y) && cscore == ScoreOf(config, x)
      ensures selected <==> Selects(config, y, x)
    {
      hide ScoreOf;
      if rscore < SCORE_MIN && cscore >= SCORE_MIN {
        return true;
      } else if x.pref < y.pref {
        return false;
      } else if x.pref > y.pref {
        return true;
      } else if cscore > rscore {
        return true;
      } else if cscore < rscore {
        return false;
      } else if |x.serverId| < |y.serverId| || (|x.serverId| == |y.serverId| && BytesLess(x.serverId, y.serverId)) {
        return true;
      } else {
        return false;
      }
    }

    /** dhc6_best_lease: remove and return the lease that the loop ends with. */
    method BestLease() returns (best: Option<Lease>)
      requires Valid()
      modifies this
      ensures Valid()
      ensures old(advertised) == [] ==> best == None && advertised == []
      ensures old(advertised) != [] ==> var k := Pick(config, old(advertised));
        && best == Some(Scored(config, old(advertised)[k]))
        && (Matched(config, old(advertised)) ==>
            forall x :: x in old(advertised) ==> !Richer(config, x, old(advertised)[k]))
        && advertised == Without(ScoredUpTo(config, old(advertised), |old(advertised)|), k)
    {
      hide Pick, Scored, Selects, Cached, Richer, Matched, ScoreOf;
      if advertised == [] {
        return None;
      }
      ghost var all := advertised;
      PickFirst(config, all);
      ScoredStart(config, all);
      var rpos := 0;
      var rscore := ScoreLease(0);
      var i := 1;
      while i < |advertised|
        invariant 1 <= i <= |advertised| == |all| && Valid()
        invariant advertised == ScoredUpTo(config, all, i)
        invariant rpos == Pick(config, all[..i]) && rpos < i && rscore == ScoreOf(config, all[rpos])
      {
        var cscore := ScoreLease(i);
        SameLease(config, all[rpos]);
        SameLease(config, all[i]);
        var selected := Prefer(advertised[rpos], advertised[i], rscore, cscore);
        PickNext(config, all, i);
        if selected {
          rpos := i;
          rscore := cscore;
        }
        i := i + 1;
      }
      assert all[..i] == all;
      NoneRicher(config, all);
      best := Some(advertised[rpos]);
      RemoveKeepsValid(rpos);
      advertised := Without(advertised, rpos);
    }

    lemma RemoveKeepsValid(k: nat)
      requires Valid() && k < |advertised|
      ensures DistinctIds(Without(advertised, k)) && forall l :: l in Without(advertised, k) ==> Cached(config, l)
    {
      hide Cached;
    }

    /** What init_handler does with an advertisement: keep it if it is acceptable. */
    method Receive(l: Lease) returns (kept: bool)
      requires Valid() && Cached(config, l)
      modifies this
      ensures Valid() && (kept <==> Acceptable(wanted, l))
      ensures !kept ==> advertised == old(advertised)
      ensures kept ==> l in advertised
      ensures (forall x :: x in old(advertised) ==> Acceptable(wanted, x)) ==>
        forall x :: x in advertised ==> Acceptable(wanted, x)
    {
      hide Acceptable, Cached;
      kept := CheckAdvertise(wanted, l);
      if kept {
        InsertLease(l);
      }
    }
  }

  lemma NoneRicher(c: Config, s: seq<Lease>)
    requires s != [] && DistinctIds(s)
    ensures Matched(c, s) ==> forall x :: x in s ==> !Richer(c, x, s[Pick(c, s)])
  {
    hide Matched, Richer, Pick, DistinctIds;
    var y := s[Pick(c, s)];
    forall x | Matched(c, s) && x in s && Richer(c, x, y)
      ensures false
    {
      RicherIsPicked(c, s, x, y);
    }
  }

  /** The list with its first n leases scored. */
  ghost function ScoredUpTo(c: Config, s: seq<Lease>, n: nat): (r: seq<Lease>)
    requires n <= |s|
    ensures |r| == |s| && forall i :: 0 <= i < |s| ==> r[i] == if i < n then Scored(c, s[i]) else s[i]
  {
    seq(|s|, i requires 0 <= i < |s| => if i < n then Scored(c, s[i]) else s[i])
  }

  lemma ScoredStart(c: Config, s: seq<Lease>)
    requires s != []
    ensures s[0 := Scored(c, s[0])] == ScoredUpTo(c, s, 1)
  {
    hide Scored;
  }

  lemma PickFirst(c: Config, s: seq<Lease>)
    requires s != []
    ensures Pick(c, s[..1]) == 0
  {}

  lemma PickNext(c: Config, s: seq<Lease>, i: nat)
    requires 1 <= i < |s|
    ensures Pick(c, s[..i + 1]) == if Selects(c, s[Pick(c, s[..i])], s[i]) then i else Pick(c, s[..i])
  {
    hide Selects;
    assert s[..i + 1][..i] == s[..i];
  }

  /** Scoring a lease changes nothing that the comparison looks at. */
  lemma SameLease(c: Config, l: Lease)
    ensures ScoreOf(c, Scored(c, l)) == ScoreOf(c, l)
    ensures forall y :: Selects(c, Scored(c, y), Scored(c, l)) <==> Selects(c, y, l)
  {
    forall y
      ensures Selects(c, Scored(c, y), Scored(c, l)) <==> Selects(c, y, l)
    {
      ScoreOfScored(c, y);
      ScoreOfScored(c, l);
      hide ScoreOf;
    }
    ScoreOfScored(c, l);
  }

  lemma ScoreOfScored(c: Config, l: Lease)
    ensures ScoreOf(c, Scored(c, l)) == ScoreOf(c, l) && Scored(c, l).pref == l.pref
    ensures Scored(c, l).serverId == l.serverId
  {}
}
