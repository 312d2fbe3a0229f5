/**
 Merging an older DHCPv6 lease into a newer one: dhc6_merge_lease in src/dhcp/client/dhc6.c.
 */
module LeaseMerge {
  import opened Bindings

  // ---- the inner loop: addresses of one association ---------------------------------------

  /** Put the addresses that are missing in front, one after the other. */
  function AddMissing(t: IaType, s: seq<Addr>, more: seq<Addr>): seq<Addr> {
    if more == [] then s
    else
      var r := AddMissing(t, s, more[..|more| - 1]);
      var a := more[|more| - 1];
      if Knows(t, r, a) then r else [a] + r
  }

  /** What was added: addresses of `more` in front, none of which the list had. */
  ghost predicate Extends(t: IaType, s: seq<Addr>, r: seq<Addr>, more: seq<Addr>) {
    && |s| <= |r| && r[|r| - |s|..] == s
    && forall i :: 0 <= i < |r| - |s| ==> r[i] in more && !Knows(t, s, r[i])
  }

  ghost predicate AllKnown(t: IaType, s: seq<Addr>, more: seq<Addr>) {
    forall i :: 0 <= i < |more| ==> Knows(t, s, more[i])
  }

  lemma {:induction false} AddMissingExtends(t: IaType, s: seq<Addr>, more: seq<Addr>)
    ensures Extends(t, s, AddMissing(t, s, more), more) && AllKnown(t, AddMissing(t, s, more), more)
  {
    if more == [] {
      assert s[0..] == s;
    } else {
      AddMissingStep(t, s, more);
      AddMissingExtends(t, s, more[..|more| - 1]);
    }
  }

  lemma AddMissingStep(t: IaType, s: seq<Addr>, more: seq<Addr>)
    requires more != []
    ensures var init := more[..|more| - 1];
      Extends(t, s, AddMissing(t, s, init), init) && AllKnown(t, AddMissing(t, s, init), init) ==>
      Extends(t, s, AddMissing(t, s, more), more) && AllKnown(t, AddMissing(t, s, more), more)
  {
    hide Extends, AllKnown, Knows;
    var init, a := more[..|more| - 1], more[|more| - 1];
    var r := AddMissing(t, s, init);
    assert more == init + [a];
    if Extends(t, s, r, init) && AllKnown(t, r, init) {
      if Knows(t, r, a) {
        StepKnown(t, s, r, init, a);
      } else {
        StepNew(t, s, r, init, a);
      }
    }
  }

  lemma StepKnown(t: IaType, s: seq<Addr>, r: seq<Addr>, init: seq<Addr>, a: Addr)
    requires Extends(t, s, r, init) && AllKnown(t, r, init) && Knows(t, r, a)
    ensures Extends(t, s, r, init + [a]) && AllKnown(t, r, init + [a])
  {
    hide Knows;
  }

  lemma StepNew(t: IaType, s: seq<Addr>, r: seq<Addr>, init: seq<Addr>, a: Addr)
    requires Extends(t, s, r, init) && AllKnown(t, r, init) && !Knows(t, r, a)
    ensures Extends(t, s, [a] + r, init + [a]) && AllKnown(t, [a] + r, init + [a])
  {
    hide Knows;
    var r', more := [a] + r, init + [a];
    assert r'[|r'| - |s|..] == r[|r| - |s|..];
    forall x
      ensures Knows(t, r, x) ==> Knows(t, r', x)
      ensures Knows(t, s, x) ==> Knows(t, r, x)
    {
      KnowsMore(t, r, [a], x);
      KnowsMore(t, s, r[..|r| - |s|], x);
      assert r == r[..|r| - |s|] + s;
    }
    KnowsFirst(t, r, a);
  }

  lemma KnowsMore(t: IaType, s: seq<Addr>, front: seq<Addr>, x: Addr)
    ensures Knows(t, s, x) ==> Knows(t, front + s, x)
  {
    hide SameAddr;
    KnowsIff(t, s, x);
    KnowsIff(t, front + s, x);
    if Knows(t, s, x) {
      var i :| 0 <= i < |s| && SameAddr(t, s[i], x);
      assert (front + s)[|front| + i] == s[i];
    }
  }

  lemma KnowsFirst(t: IaType, s: seq<Addr>, a: Addr)
    ensures Knows(t, [a] + s, a)
  {
    SameSelf(t, a);
    hide SameAddr;
    KnowsIff(t, [a] + s, a);
    assert ([a] + s)[0] == a;
  }

  lemma SameSelf(t: IaType, a: Addr)
    ensures SameAddr(t, a, a)
  {}

  /** Once every address is known, adding changes nothing. */
  lemma {:induction false} AddKnown(t: IaType, s: seq<Addr>, more: seq<Addr>)
    requires AllKnown(t, s, more)
    ensures AddMissing(t, s, more) == s
  {
    if more != [] {
      AddKnown(t, s, more[..|more| - 1]);
    }
  }

  /** The addresses known afterwards are those known before and those added. */
  lemma AddMissingKeys(t: IaType, s: seq<Addr>, more: seq<Addr>, a: Addr)
    ensures Knows(t, AddMissing(t, s, more), a) <==> Knows(t, s, a) || Knows(t, more, a)
  {
    hide *;
    var r := AddMissing(t, s, more);
    AddMissingExtends(t, s, more);
    if Knows(t, r, a) {
      ExtendsOnly(t, s, r, more, a);
    }
    if Knows(t, s, a) {
      ExtendsKeeps(t, s, r, more, a);
    }
    if Knows(t, more, a) {
      AllKnownHas(t, r, more, a);
    }
  }

  lemma ExtendsOnly(t: IaType, s: seq<Addr>, r: seq<Addr>, more: seq<Addr>, a: Addr)
    requires Extends(t, s, r, more) && Knows(t, r, a)
    ensures Knows(t, s, a) || Knows(t, more, a)
  {
    hide Knows, SameAddr;
    KnowsIff(t, r, a);
    KnowsIff(t, s, a);
    KnowsIff(t, more, a);
    var i :| 0 <= i < |r| && SameAddr(t, r[i], a);
    if i >= |r| - |s| {
      assert r[i] == r[|r| - |s|..][i - (|r| - |s|)] == s[i - (|r| - |s|)];
    } else {
      assert r[i] in more;
    }
  }

  lemma ExtendsKeeps(t: IaType, s: seq<Addr>, r: seq<Addr>, more: seq<Addr>, a: Addr)
    requires Extends(t, s, r, more) && Knows(t, s, a)
    ensures Knows(t, r, a)
  {
    hide Knows;
    assert r == r[..|r| - |s|] + s;
    KnowsMore(t, s, r[..|r| - |s|], a);
  }

  lemma AllKnownHas(t: IaType, r: seq<Addr>, more: seq<Addr>, a: Addr)
    requires AllKnown(t, r, more) && Knows(t, more, a)
    ensures Knows(t, r, a)
  {
    hide Knows, SameAddr;
    KnowsIff(t, more, a);
    var i :| 0 <= i < |more| && SameAddr(t, more[i], a);
    KnowsIff(t, r, more[i]);
    var j :| 0 <= j < |r| && SameAddr(t, r[j], more[i]);
    SameChain(t, r[j], more[i], a);
    KnowsIff(t, r, a);
  }

  lemma SameChain(t: IaType, a: Addr, b: Addr, c: Addr)
    requires SameAddr(t, a, b) && SameAddr(t, b, c)
    ensures SameAddr(t, a, c)
  {}

  // ---- the outer loop: associations ---------------------------------------------------------------

  function MergeIa(d: seq<Ia>, x: Ia): seq<Ia> {
    var k := FindIa(d, x.iaType, x.iaid);
    if k == |d| then d + [x] else d[k := d[k].(addrs := AddMissing(x.iaType, d[k].addrs, x.addrs))]
  }

  /** Merge the bindings of src into those of dst. */
  function Merge(dst: seq<Ia>, src: seq<Ia>): seq<Ia> {
    if src == [] then dst else MergeIa(Merge(dst, src[..|src| - 1]), src[|src| - 1])
  }

  /** The lease has a binding with this key. */
  ghost predicate HasKey(s: seq<Ia>, t: IaType, id: seq<nat>, a: Addr) {
    exists i :: 0 <= i < |s| && KeyIn(s[i], t, id, a)
  }

  ghost predicate KeyIn(x: Ia, t: IaType, id: seq<nat>, a: Addr) {
    x.iaType == t && x.iaid == id && Knows(t, x.addrs, a)
  }

  lemma MergeIaKeys(d: seq<Ia>, x: Ia, t: IaType, id: seq<nat>, a: Addr)
    ensures HasKey(MergeIa(d, x), t, id, a) <==> HasKey(d, t, id, a) || KeyIn(x, t, id, a)
  {
    hide Knows, AddMissing;
    var k := FindIa(d, x.iaType, x.iaid);
    var m := MergeIa(d, x);
    if k == |d| {
      if HasKey(d, t, id, a) {
        var i :| 0 <= i < |d| && KeyIn(d[i], t, id, a);
        assert m[i] == d[i];
      }
      if KeyIn(x, t, id, a) {
        assert m[|d|] == x;
      }
    } else {
      AddMissingKeys(x.iaType, d[k].addrs, x.addrs, a);
      if HasKey(d, t, id, a) {
        var i :| 0 <= i < |d| && KeyIn(d[i], t, id, a);
        assert KeyIn(m[i], t, id, a);
      }
      if KeyIn(x, t, id, a) {
        assert KeyIn(m[k], t, id, a);
      }
      if HasKey(m, t, id, a) {
        var i :| 0 <= i < |m| && KeyIn(m[i], t, id, a);
        assert i == k || m[i] == d[i];
      }
    }
  }

  /** The keys of the merged lease are exactly the union of the keys of both. */
  lemma {:induction false} MergeKeys(dst: seq<Ia>, src: seq<Ia>, t: IaType, id: seq<nat>, a: Addr)
    ensures HasKey(Merge(dst, src), t, id, a) <==> HasKey(dst, t, id, a) || HasKey(src, t, id, a)
  {
    hide KeyIn, MergeIa;
    if src != [] {
      var init, last := src[..|src| - 1], src[|src| - 1];
      MergeKeys(dst, init, t, id, a);
      MergeIaKeys(Merge(dst, init), last, t, id, a);
      assert src == init + [last];
      if HasKey(init, t, id, a) {
        var i :| 0 <= i < |init| && KeyIn(init[i], t, id, a);
        assert src[i] == init[i];
      }
    }
  }

  // ---- the newer lease keeps its own data --------------------------------------------------------------

  /** r is s with addresses in front that s did not have. */
  ghost predicate Keeps(t: IaType, s: seq<Addr>, r: seq<Addr>) {
    |s| <= |r| && r[|r| - |s|..] == s && forall i :: 0 <= i < |r| - |s| ==> !Knows(t, s, r[i])
  }

  lemma KeepsTransitive(t: IaType, s: seq<Addr>, r: seq<Addr>, q: seq<Addr>)
    requires Keeps(t, s, r) && Keeps(t, r, q)
    ensures Keeps(t, s, q)
  {
    hide Knows;
    assert q[|q| - |s|..] == q[|q| - |r|..][|r| - |s|..];
    forall i | 0 <= i < |q| - |s|
      ensures !Knows(t, s, q[i])
    {
      if i < |q| - |r| {
        KnowsMore(t, s, r[..|r| - |s|], q[i]);
        assert r == r[..|r| - |s|] + s;
      } else {
        assert q[i] == q[|q| - |r|..][i - (|q| - |r|)] == r[i - (|q| - |r|)];
      }
    }
  }

  lemma KeepsSelf(t: IaType, s: seq<Addr>)
    ensures Keeps(t, s, s)
  {}

  /** Every association of dst is still in its place, with the same data and its own addresses. */
  ghost predicate Retained(d: seq<Ia>, m: seq<Ia>) {
    |d| <= |m| && forall i :: 0 <= i < |d| ==>
      m[i].(addrs := d[i].addrs) == d[i] && Keeps(d[i].iaType, d[i].addrs, m[i].addrs)
  }

  lemma MergeIaRetains(d: seq<Ia>, x: Ia)
    ensures Retained(d, MergeIa(d, x))
  {
    hide Keeps, AddMissing;
    forall i | 0 <= i < |d|
      ensures Keeps(d[i].iaType, d[i].addrs, d[i].addrs)
    {
      KeepsSelf(d[i].iaType, d[i].addrs);
    }
    var k := FindIa(d, x.iaType, x.iaid);
    if k < |d| {
      AddMissingKeeps(x.iaType, d[k].addrs, x.addrs);
    }
  }

  lemma AddMissingKeeps(t: IaType, s: seq<Addr>, more: seq<Addr>)
    ensures Keeps(t, s, AddMissing(t, s, more))
  {
    hide AddMissing, Knows;
    AddMissingExtends(t, s, more);
  }

  lemma {:induction false} MergeRetains(dst: seq<Ia>, src: seq<Ia>)
    ensures Retained(dst, Merge(dst, src))
  {
    hide Keeps, MergeIa;
    if src == [] {
      forall i | 0 <= i < |dst|
        ensures Keeps(dst[i].iaType, dst[i].addrs, dst[i].addrs)
      {
        KeepsSelf(dst[i].iaType, dst[i].addrs);
      }
    } else {
      var m := Merge(dst, src[..|src| - 1]);
      MergeRetains(dst, src[..|src| - 1]);
      MergeIaRetains(m, src[|src| - 1]);
      var n := MergeIa(m, src[|src| - 1]);
      forall i | 0 <= i < |dst|
        ensures n[i].(addrs := dst[i].addrs) == dst[i] && Keeps(dst[i].iaType, dst[i].addrs, n[i].addrs)
      {
        KeepsTransitive(dst[i].iaType, dst[i].addrs, m[i].addrs, n[i].addrs);
      }
    }
  }

  // ---- where the rest of the merged lease comes from --------------------------------------------------

  predicate SameIa(x: Ia, y: Ia) { x.iaType == y.iaType && x.iaid == y.iaid }

  predicate Lacks(s: seq<Ia>, x: Ia) { forall i :: 0 <= i < |s| ==> !SameIa(s[i], x) }

  lemma LacksIff(s: seq<Ia>, x: Ia)
    ensures Lacks(s, x) <==> FindIa(s, x.iaType, x.iaid) == |s|
  {
    var k := FindIa(s, x.iaType, x.iaid);
    if k < |s| {
      assert SameIa(s[k], x);
    }
  }

  lemma MergeIaLacks(d: seq<Ia>, y: Ia, x: Ia)
    ensures Lacks(MergeIa(d, y), x) <==> Lacks(d, x) && !SameIa(y, x)
  {
    hide AddMissing;
    var m := MergeIa(d, y);
    var k := FindIa(d, y.iaType, y.iaid);
    assert forall i :: 0 <= i < |d| ==> SameIa(m[i], d[i]);
    assert SameIa(m[k], y);
  }

  lemma {:induction false} MergeLacks(dst: seq<Ia>, src: seq<Ia>, x: Ia)
    ensures Lacks(Merge(dst, src), x) <==> Lacks(dst, x) && Lacks(src, x)
  {
    hide MergeIa;
    if src != [] {
      var init, last := src[..|src| - 1], src[|src| - 1];
      MergeLacks(dst, init, x);
      MergeIaLacks(Merge(dst, init), last, x);
      assert src == init + [last];
      assert forall i :: 0 <= i < |init| ==> init[i] == src[i];
    }
  }

  /** The associations of src that dst lacks, each where it first occurs. */
  ghost function Extra(dst: seq<Ia>, src: seq<Ia>): (at: seq<nat>)
    ensures (forall k :: 0 <= k < |at| ==> at[k] < |src|) && (forall k, l :: 0 <= k < l < |at| ==> at[k] < at[l])
  {
    if src == [] then []
    else
      var n := |src| - 1;
      if IsExtra(dst, src, n) then Extra(dst, src[..n]) + [n] else Extra(dst, src[..n])
  }

  ghost predicate IsExtra(dst: seq<Ia>, src: seq<Ia>, j: nat)
    requires j < |src|
  {
    Lacks(dst, src[j]) && Lacks(src[..j], src[j])
  }

  lemma ExtraPrefix(dst: seq<Ia>, src: seq<Ia>, n: nat, j: nat)
    requires j < n <= |src|
    ensures IsExtra(dst, src[..n], j) <==> IsExtra(dst, src, j)
  {
    assert src[..n][..j] == src[..j];
  }

  lemma {:induction false} ExtraIs(dst: seq<Ia>, src: seq<Ia>)
    ensures forall j: nat :: j in Extra(dst, src) <==> j < |src| && IsExtra(dst, src, j)
  {
    hide IsExtra;
    if src != [] {
      var n := |src| - 1;
      ExtraIs(dst, src[..n]);
      forall j: nat | j < n
        ensures IsExtra(dst, src[..n], j) <==> IsExtra(dst, src, j)
      {
        ExtraPrefix(dst, src, n, j);
      }
    }
  }

  /** The same data, and its own addresses; more may have come from later associations of the same name. */
  ghost predicate BroughtAs(x: Ia, y: Ia) { y.(addrs := x.addrs) == x && Keeps(x.iaType, x.addrs, y.addrs) }

  /** Behind the associations of dst come exactly those that it lacks, in order and with their own data. */
  ghost predicate Brings(dst: seq<Ia>, src: seq<Ia>, m: seq<Ia>) {
    var at := Extra(dst, src);
    |m| == |dst| + |at| && forall k :: 0 <= k < |at| ==> BroughtAs(src[at[k]], m[|dst| + k])
  }

  lemma {:induction false} MergeBrings(dst: seq<Ia>, src: seq<Ia>)
    ensures Brings(dst, src, Merge(dst, src))
  {
    hide MergeIa, BroughtAs, Lacks;
    if src != [] {
      var n := |src| - 1;
      var init, x, at := src[..n], src[n], Extra(dst, src[..n]);
      var m := Merge(dst, init);
      MergeBrings(dst, init);
      MergeLacks(dst, init, x);
      MergeIaBrings(m, x);
      forall k | 0 <= k < |at|
        ensures BroughtAs(src[at[k]], MergeIa(m, x)[|dst| + k])
      {
        assert init[at[k]] == src[at[k]];
        BroughtOn(src[at[k]], m, x, |dst| + k);
      }
    }
  }

  lemma MergeIaBrings(m: seq<Ia>, x: Ia)
    ensures Lacks(m, x) ==> |MergeIa(m, x)| == |m| + 1 && BroughtAs(x, MergeIa(m, x)[|m|])
    ensures !Lacks(m, x) ==> |MergeIa(m, x)| == |m|
  {
    hide Keeps, AddMissing, Lacks;
    LacksIff(m, x);
    KeepsSelf(x.iaType, x.addrs);
  }

  lemma BroughtOn(y: Ia, m: seq<Ia>, x: Ia, i: nat)
    requires i < |m| && BroughtAs(y, m[i])
    ensures i < |MergeIa(m, x)| && BroughtAs(y, MergeIa(m, x)[i])
  {
    hide Keeps, MergeIa;
    MergeIaRetains(m, x);
    var n := MergeIa(m, x);
    KeepsTransitive(y.iaType, y.addrs, m[i].addrs, n[i].addrs);
  }

  /** Every address of the merged lease, with its data, is one of dst or of an association of src of the same name. */
  ghost predicate ComesFrom(dst: seq<Ia>, src: seq<Ia>, y: Ia, i: nat, a: Addr) {
    || (i < |dst| && a in dst[i].addrs)
    || exists j :: 0 <= j < |src| && SameIa(src[j], y) && a in src[j].addrs
  }

  lemma {:induction false} MergeAddresses(dst: seq<Ia>, src: seq<Ia>, i: nat, a: Addr)
    requires i < |Merge(dst, src)| && a in Merge(dst, src)[i].addrs
    ensures ComesFrom(dst, src, Merge(dst, src)[i], i, a)
  {
    hide MergeIa;
    if src != [] {
      var init, x := src[..|src| - 1], src[|src| - 1];
      var m := Merge(dst, init);
      MergeIaAddresses(m, x, i, a);
      if i < |m| && a in m[i].addrs {
        MergeAddresses(dst, init, i, a);
        MergeIaNames(m, x, i);
        assert forall j :: 0 <= j < |init| ==> init[j] == src[j];
      }
    }
  }

  lemma MergeIaNames(m: seq<Ia>, x: Ia, i: nat)
    requires i < |m|
    ensures i < |MergeIa(m, x)| && SameIa(m[i], MergeIa(m, x)[i])
  {
    hide AddMissing;
  }

  lemma MergeIaAddresses(m: seq<Ia>, x: Ia, i: nat, a: Addr)
    requires i < |MergeIa(m, x)| && a in MergeIa(m, x)[i].addrs
    ensures (i < |m| && a in m[i].addrs) || (SameIa(x, MergeIa(m, x)[i]) && a in x.addrs)
  {
    hide AddMissing;
    var k := FindIa(m, x.iaType, x.iaid);
    if i == k && k < |m| {
      AddedFrom(x.iaType, m[k].addrs, x.addrs, a);
    }
  }

  lemma {:induction false} AddedFrom(t: IaType, s: seq<Addr>, more: seq<Addr>, a: Addr)
    requires a in AddMissing(t, s, more)
    ensures a in s || a in more
  {
    if more != [] && a !in [more[|more| - 1]] {
      AddedFrom(t, s, more[..|more| - 1], a);
    }
  }

  /** Looking up an address that the list had finds the same entry afterwards. */
  lemma KeepsLookup(t: IaType, s: seq<Addr>, r: seq<Addr>, a: Addr)
    requires Keeps(t, s, r) && Knows(t, s, a)
    ensures Knows(t, r, a) && r[FindAddr(t, r, a)] == s[FindAddr(t, s, a)]
  {
    hide Knows, SameAddr, FindAddr;
    var n, j, k := |r| - |s|, FindAddr(t, s, a), FindAddr(t, r, a);
    KnowsFound(t, s, a);
    KnowsFound(t, r, a);
    assert r[n + j] == r[n..][j] == s[j];
    assert k <= n + j;
    FoundBehind(t, s, r, a);
    assert r[k] == r[n..][k - n] == s[k - n];
  }

  /** None of the addresses put in front is one that the list had. */
  lemma FoundBehind(t: IaType, s: seq<Addr>, r: seq<Addr>, a: Addr)
    requires Keeps(t, s, r) && Knows(t, s, a)
    ensures FindAddr(t, r, a) >= |r| - |s|
  {
    hide Knows, SameAddr, FindAddr;
    var k := FindAddr(t, r, a);
    KnowsFound(t, s, a);
    if k < |r| - |s| {
      SameTrans(t, s[FindAddr(t, s, a)], a, r[k]);
      KnowsIff(t, s, r[k]);
    }
  }

  lemma KnowsFound(t: IaType, s: seq<Addr>, a: Addr)
    ensures Knows(t, s, a) <==> FindAddr(t, s, a) < |s|
  {}

  lemma SameTrans(t: IaType, a: Addr, b: Addr, c: Addr)
    requires SameAddr(t, a, b) && SameAddr(t, c, b)
    ensures SameAddr(t, a, c)
  {}

  // ---- a second merge changes nothing --------------------------------------------------------------------

  /** The lease already has everything that x would bring. */
  ghost predicate Saturated(d: seq<Ia>, x: Ia) {
    var k := FindIa(d, x.iaType, x.iaid);
    k < |d| && AllKnown(x.iaType, d[k].addrs, x.addrs)
  }

  lemma SaturatedStays(d: seq<Ia>, x: Ia)
    requires Saturated(d, x)
    ensures MergeIa(d, x) == d
  {
    hide AllKnown, AddMissing;
    var k := FindIa(d, x.iaType, x.iaid);
    AddKnown(x.iaType, d[k].addrs, x.addrs);
  }

  lemma {:induction false} FindIaRetained(d: seq<Ia>, m: seq<Ia>, t: IaType, id: seq<nat>)
    requires |d| <= |m| && forall i :: 0 <= i < |d| ==> m[i].iaType == d[i].iaType && m[i].iaid == d[i].iaid
    ensures FindIa(d, t, id) < |d| ==> FindIa(m, t, id) == FindIa(d, t, id)
    ensures FindIa(d, t, id) == |d| ==> FindIa(m, t, id) >= |d|
  {
    var k, n := FindIa(d, t, id), FindIa(m, t, id);
    if k < |d| {
      assert m[k].iaType == t && m[k].iaid == id;
      assert n <= k;
    }
    assert n < |d| ==> d[n].iaType == m[n].iaType && d[n].iaid == m[n].iaid;
  }

  lemma MergeIaSaturates(d: seq<Ia>, x: Ia)
    ensures Saturated(MergeIa(d, x), x)
  {
    hide AddMissing, AllKnown;
    var k, m := FindIa(d, x.iaType, x.iaid), MergeIa(d, x);
    FindIaRetained(d, m, x.iaType, x.iaid);
    if k == |d| {
      assert m[|d|] == x && FindIa(m, x.iaType, x.iaid) == |d|;
      AllKnownSelf(x.iaType, x.addrs);
    } else {
      AddMissingExtends(x.iaType, d[k].addrs, x.addrs);
    }
  }

  lemma AllKnownSelf(t: IaType, s: seq<Addr>)
    ensures AllKnown(t, s, s)
  {
    forall i | 0 <= i < |s|
      ensures Knows(t, s, s[i])
    {
      SameSelf(t, s[i]);
      KnowsIff(t, s, s[i]);
    }
  }

  lemma SaturatedKept(d: seq<Ia>, x: Ia, y: Ia)
    requires Saturated(d, x)
    ensures Saturated(MergeIa(d, y), x)
  {
    hide AddMissing, Knows, Keeps;
    var m := MergeIa(d, y);
    MergeIaRetains(d, y);
    FindIaRetained(d, m, x.iaType, x.iaid);
    var k := FindIa(d, x.iaType, x.iaid);
    KeepsAllKnown(x.iaType, d[k].addrs, m[k].addrs, x.addrs);
  }

  lemma KeepsAllKnown(t: IaType, s: seq<Addr>, r: seq<Addr>, more: seq<Addr>)
    requires Keeps(t, s, r) && AllKnown(t, s, more)
    ensures AllKnown(t, r, more)
  {
    hide Knows;
    assert r == r[..|r| - |s|] + s;
    forall i | 0 <= i < |more|
      ensures Knows(t, r, more[i])
    {
      KnowsMore(t, s, r[..|r| - |s|], more[i]);
    }
  }

  lemma {:induction false} MergeSaturates(dst: seq<Ia>, src: seq<Ia>, i: nat)
    requires i < |src|
    ensures Saturated(Merge(dst, src), src[i])
    decreases |src|
  {
    hide Saturated, MergeIa;
    var m := Merge(dst, src[..|src| - 1]);
    if i == |src| - 1 {
      MergeIaSaturates(m, src[i]);
    } else {
      MergeSaturates(dst, src[..|src| - 1], i);
      SaturatedKept(m, src[i], src[|src| - 1]);
    }
  }

  lemma {:induction false} MergeSaturated(d: seq<Ia>, src: seq<Ia>)
    requires forall i :: 0 <= i < |src| ==> Saturated(d, src[i])
    ensures Merge(d, src) == d
  {
    hide Saturated, MergeIa;
    if src != [] {
      MergeSaturated(d, src[..|src| - 1]);
      SaturatedStays(d, src[|src| - 1]);
    }
  }

  /** Merging the same lease a second time changes nothing. */
  lemma MergeIdempotent(dst: seq<Ia>, src: seq<Ia>)
    ensures Merge(Merge(dst, src), src) == Merge(dst, src)
  {
    hide Saturated, Merge;
    forall i | 0 <= i < |src|
      ensures Saturated(Merge(dst, src), src[i])
    {
      MergeSaturates(dst, src, i);
    }
    MergeSaturated(Merge(dst, src), src);
  }

  // ---- the procedure --------------------------------------------------------------------------------------

  class Lease {
    var bindings: seq<Ia>
    var score: int

    constructor (bindings: seq<Ia>)
      ensures this.bindings == bindings && score == 0
    {
      this.bindings, score := bindings, 0;
    }
  }

  /** The loop over the addresses of an association that both leases have. */
  method MergeAddrs(x: Ia, s: seq<Addr>) returns (r: seq<Addr>, changes: bool)
    ensures r == AddMissing(x.iaType, s, x.addrs) && (changes <==> r != s)
  {
    hide Knows;
    r, changes := s, false;
    assert x.addrs[..0] == [];
    for i := 0 to |x.addrs|
      invariant r == AddMissing(x.iaType, s, x.addrs[..i]) && |r| >= |s| && (changes <==> r != s)
      invariant (changes ==> |r| > |s|)
    {
      assert x.addrs[..i + 1][..i] == x.addrs[..i];
      if !Knows(x.iaType, r, x.addrs[i]) {
        r := [x.addrs[i]] + r;
        changes := true;
      }
    }
    assert x.addrs[..|x.addrs|] == x.addrs;
  }

  /** dhc6_merge_lease.  The score is forgotten exactly when something was added. */
  method MergeLease(src: Lease?, dst: Lease?)
    requires src == null || src != dst
    modifies dst
    ensures src == null && dst != null ==> dst.bindings == old(dst.bindings) && dst.score == old(dst.score)
    ensures src != null ==> src.bindings == old(src.bindings) && src.score == old(src.score)
    ensures src != null && dst != null ==> dst.bindings == Merge(old(dst.bindings), src.bindings)
    ensures src != null && dst != null ==>
      Retained(old(dst.bindings), dst.bindings) && Brings(old(dst.bindings), src.bindings, dst.bindings)
    ensures dst != null ==> dst.score == if dst.bindings == old(dst.bindings) then old(dst.score) else 0
  {
    if src != null && dst != null {
      MergeRetains(dst.bindings, src.bindings);
      MergeBrings(dst.bindings, src.bindings);
      MergeBoth(src, dst);
    }
  }

  method MergeBoth(src: Lease, dst: Lease)
    requires src != dst
    modifies dst
    ensures dst.bindings == Merge(old(dst.bindings), src.bindings)
    ensures dst.score == if dst.bindings == old(dst.bindings) then old(dst.score) else 0
    ensures src.bindings == old(src.bindings) && src.score == old(src.score)
  {
    hide *;
    var changes := false;
    ghost var before := dst.bindings;
    assert src.bindings[..0] == [];
    MergeUnfold(before, []);
    for i := 0 to |src.bindings|
      invariant src.bindings == old(src.bindings) && src.score == old(src.score) && dst.score == old(dst.score)
      invariant dst.bindings == Merge(before, src.bindings[..i])
      invariant changes <==> dst.bindings != before
    {
      var sia := src.bindings[i];
      MergeUnfold(before, src.bindings[..i + 1]);
      assert src.bindings[..i + 1][..i] == src.bindings[..i];
      MergeGrows(before, src.bindings[..i], sia);
      var more := MergeOne(sia, dst);
      changes := changes || more;
    }
    assert src.bindings[..|src.bindings|] == src.bindings;
    if changes {
      dst.score := 0;
    }
  }

  lemma MergeUnfold(d: seq<Ia>, src: seq<Ia>)
    ensures Merge(d, src) == if src == [] then d else MergeIa(Merge(d, src[..|src| - 1]), src[|src| - 1])
  {}

  /** One turn of the outer loop. */
  method MergeOne(sia: Ia, dst: Lease) returns (changes: bool)
    modifies dst`bindings
    ensures dst.bindings == MergeIa(old(dst.bindings), sia) && (changes <==> dst.bindings != old(dst.bindings))
  {
    hide AddMissing;
    var k := FindIa(dst.bindings, sia.iaType, sia.iaid);
    if k == |dst.bindings| {
      dst.bindings := dst.bindings + [sia];
      changes := true;
    } else {
      var addrs;
      addrs, changes := MergeAddrs(sia, dst.bindings[k].addrs);
      dst.bindings := dst.bindings[k := dst.bindings[k].(addrs := addrs)];
      if !changes {
        assert dst.bindings == old(dst.bindings);
      } else {
        assert dst.bindings[k].addrs != old(dst.bindings)[k].addrs;
      }
    }
  }

  /** What was added is not taken back: a lease that changed stays different. */
  lemma MergeGrows(d: seq<Ia>, src: seq<Ia>, x: Ia)
    ensures var m := Merge(d, src); m != d ==> MergeIa(m, x) != d
  {
    hide *;
    var m := Merge(d, src);
    MergeRetains(d, src);
    MergeIaRetains(m, x);
    if MergeIa(m, x) == d {
      RetainedBoth(d, m);
    }
  }

  lemma RetainedBoth(d: seq<Ia>, m: seq<Ia>)
    requires Retained(d, m) && Retained(m, d)
    ensures d == m
  {
    hide Keeps;
    forall i | 0 <= i < |d|
      ensures m[i] == d[i]
    {
      KeepsBoth(d[i].iaType, d[i].addrs, m[i].addrs);
    }
  }

  lemma KeepsBoth(t: IaType, s: seq<Addr>, r: seq<Addr>)
    requires Keeps(t, s, r) && Keeps(t, r, s)
    ensures s == r
  {
    hide Knows;
    assert r == r[0..];
  }
}
