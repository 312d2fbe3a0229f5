/**
 The open-addressing map of src/libdowse/hashmap.c.  Tables are sequences of slots in the
 specifications and arrays in the class.  Everything holds for every hash function.
 */
module HashTable {
  import opened Wrappers

  type Key = string
  datatype Slot<V> = Free | Used(key: Key, data: V)
  type Hash = Key -> nat

  // ---- the probe sequence ---------------------------------------------------------

  function Home(h: Hash, k: Key, n: nat): (p: nat)
    requires n > 0
    ensures p < n
  {
    h(k) % n
  }

  /** The slot probed at step j. */
  function At(h: Hash, k: Key, j: nat, n: nat): (p: nat)
    requires j < 8 <= n
    ensures p < n
  {
    var p := Home(h, k, n);
    if p + j < n then p + j else p + j - n
  }

  /** The step at which the probe sequence of k comes to slot p. */
  function Offset(h: Hash, k: Key, p: nat, n: nat): (j: nat)
    requires p < n
    ensures j < n && (j < 8 <= n ==> At(h, k, j, n) == p)
  {
    var q := Home(h, k, n);
    if q <= p then p - q else p + n - q
  }

  lemma OffsetAt(h: Hash, k: Key, j: nat, n: nat)
    requires j < 8 <= n
    ensures Offset(h, k, At(h, k, j, n), n) == j
  {}

  /** The step of the loops: the next slot, wrapping at the end of the table. */
  lemma NextSlot(h: Hash, k: Key, j: nat, n: nat)
    requires j + 1 < 8 <= n
    ensures (At(h, k, j, n) + 1) % n == At(h, k, j + 1, n)
  {
    var p := At(h, k, j, n);
    WrapsOnce(p + 1, n);
  }

  lemma WrapsOnce(x: nat, n: nat)
    requires 0 < n && x <= n
    ensures x % n == if x < n then x else 0
  {}

  // ---- table invariants -------------------------------------------------------------

  ghost predicate KeyAt<V>(t: seq<Slot<V>>, p: nat, k: Key) {
    p < |t| && t[p].Used? && t[p].key == k
  }

  ghost predicate Present<V>(t: seq<Slot<V>>, k: Key) {
    exists p: nat :: KeyAt(t, p, k)
  }

  /** No key is stored twice. */
  ghost predicate DupFree<V>(t: seq<Slot<V>>) {
    forall p: nat, q: nat, k :: KeyAt(t, p, k) && KeyAt(t, q, k) ==> p == q
  }

  /** Every key is within reach of its own probe sequence. */
  ghost predicate InReach<V>(t: seq<Slot<V>>, h: Hash) {
    forall p: nat, k :: KeyAt(t, p, k) ==> Offset(h, k, p, |t|) < 8
  }

  /** No probe sequence has a free slot before the key it leads to. */
  ghost predicate Tight<V>(t: seq<Slot<V>>, h: Hash) {
    && |t| >= 8
    && forall p: nat, k, j: nat :: KeyAt(t, p, k) && j < Offset(h, k, p, |t|) && j < 8 ==> t[At(h, k, j, |t|)].Used?
  }

  ghost predicate Sound<V>(t: seq<Slot<V>>, h: Hash) {
    |t| >= 8 && DupFree(t) && InReach(t, h)
  }

  /** The table holds exactly the pairs of m. */
  ghost predicate Represents<V>(t: seq<Slot<V>>, m: map<Key, V>) {
    && (forall p: nat, k :: KeyAt(t, p, k) ==> k in m && m[k] == t[p].data)
    && (forall k :: k in m ==> Present(t, k))
  }

  function Count<V>(t: seq<Slot<V>>): (c: nat)
    ensures c <= |t|
  {
    if t == [] then 0 else (if t[0].Used? then 1 else 0) + Count(t[1..])
  }

  lemma {:induction false} CountUpdate<V>(t: seq<Slot<V>>, p: nat, s: Slot<V>)
    requires p < |t|
    ensures Count(t[p := s]) + (if t[p].Used? then 1 else 0) == Count(t) + (if s.Used? then 1 else 0)
  {
    if p == 0 {
      assert t[p := s][1..] == t[1..];
    } else {
      CountUpdate(t[1..], p - 1, s);
      assert t[p := s][1..] == t[1..][p - 1 := s];
    }
  }

  lemma {:induction false} CountFree<V>(t: seq<Slot<V>>)
    requires forall p :: 0 <= p < |t| ==> t[p].Free?
    ensures Count(t) == 0
  {
    if t != [] {
      CountFree(t[1..]);
    }
  }

  // ---- where hashmap_hash stops -------------------------------------------------------

  /** The slot at which linear probing from step j stops, or None when all eight are taken. */
  function Probe<V>(t: seq<Slot<V>>, h: Hash, k: Key, j: nat): (r: Option<nat>)
    requires j <= 8 <= |t|
    ensures r.Some? ==> r.value < |t| && Offset(h, k, r.value, |t|) < 8
    ensures r.Some? ==> t[r.value].Free? || t[r.value].key == k
    ensures r.Some? ==> forall i: nat :: j <= i < Offset(h, k, r.value, |t|) ==> t[At(h, k, i, |t|)].Used?
    ensures r.Some? ==> forall i: nat :: j <= i < Offset(h, k, r.value, |t|) ==> t[At(h, k, i, |t|)].key != k
    ensures r.None? ==> forall i: nat :: j <= i < 8 ==> t[At(h, k, i, |t|)].Used? && t[At(h, k, i, |t|)].key != k
    decreases 8 - j
  {
    if j == 8 then None
    else
      var p := At(h, k, j, |t|);
      OffsetAt(h, k, j, |t|);
      if t[p].Free? || t[p].key == k then Some(p) else Probe(t, h, k, j + 1)
  }

  /** The probe stops at a hole although the key is further along: a put would store it twice. */
  ghost predicate Stale<V>(t: seq<Slot<V>>, h: Hash, k: Key)
    requires |t| >= 8
  {
    var r := Probe(t, h, k, 0);
    r.Some? && t[r.value].Free? && Present(t, k)
  }

  lemma TightIsNotStale<V>(t: seq<Slot<V>>, h: Hash, k: Key)
    requires Sound(t, h) && Tight(t, h)
    ensures !Stale(t, h, k)
  {}

  // ---- one step on a table --------------------------------------------------------------

  /** Storing at the slot the probe stops at updates exactly one key, unless the key is stale. */
  lemma StoreUpdates<V>(t: seq<Slot<V>>, h: Hash, m: map<Key, V>, k: Key, v: V)
    requires Sound(t, h) && Represents(t, m)
    requires Probe(t, h, k, 0).Some? && !Stale(t, h, k)
    ensures var t' := t[Probe(t, h, k, 0).value := Used(k, v)];
      Sound(t', h) && Represents(t', m[k := v]) && (Tight(t, h) ==> Tight(t', h))
  {
    var p := Probe(t, h, k, 0).value;
    var t' := t[p := Used(k, v)];
    forall q: nat, k' | KeyAt(t', q, k')
      ensures if q == p then k' == k else k' != k && KeyAt(t, q, k')
    {
      if q != p {
        assert KeyAt(t, q, k');
        assert t[p].Used? ==> KeyAt(t, p, k);
      }
    }
    StoredSound(t, h, k, v, p);
    StoredRepresents(t, m, k, v, p);
  }

  /** After storing k at p, k is at p only, and every other key is where it was. */
  ghost predicate OnlyAt<V>(t: seq<Slot<V>>, p: nat, k: Key, v: V)
    requires p < |t|
  {
    var t' := t[p := Used(k, v)];
    forall q: nat, k' :: KeyAt(t', q, k') ==> if q == p then k' == k else k' != k && KeyAt(t, q, k')
  }

  lemma StoredSound<V>(t: seq<Slot<V>>, h: Hash, k: Key, v: V, p: nat)
    requires Sound(t, h) && p < |t| && Offset(h, k, p, |t|) < 8
    requires t[p].Free? || t[p].key == k
    requires forall i: nat :: i < Offset(h, k, p, |t|) ==> t[At(h, k, i, |t|)].Used?
    requires OnlyAt(t, p, k, v)
    ensures Sound(t[p := Used(k, v)], h) && (Tight(t, h) ==> Tight(t[p := Used(k, v)], h))
  {}

  lemma StoredRepresents<V>(t: seq<Slot<V>>, m: map<Key, V>, k: Key, v: V, p: nat)
    requires Represents(t, m) && p < |t| && (t[p].Free? || t[p].key == k)
    requires OnlyAt(t, p, k, v)
    ensures Represents(t[p := Used(k, v)], m[k := v])
  {
    var t' := t[p := Used(k, v)];
    assert KeyAt(t', p, k);
    forall k' | k' in m && k' != k
      ensures Present(t', k')
    {
      var q: nat :| KeyAt(t, q, k');
      assert KeyAt(t', q, k');
    }
  }

  /** Storing a stale key leaves it in the table twice. */
  lemma StoreDuplicates<V>(t: seq<Slot<V>>, h: Hash, k: Key, v: V)
    requires |t| >= 8 && Stale(t, h, k)
    ensures !DupFree(t[Probe(t, h, k, 0).value := Used(k, v)])
  {
    var p := Probe(t, h, k, 0).value;
    var q: nat :| KeyAt(t, q, k);
    var t' := t[p := Used(k, v)];
    assert KeyAt(t', p, k) && KeyAt(t', q, k);
  }

  /**
   What a stale put does to the map: once the new copy is removed again, the table is back where
   it was before the put, and the key, just removed, still has its old value.
   */
  lemma StaleValueReturns<V>(t: seq<Slot<V>>, h: Hash, m: map<Key, V>, k: Key, v: V)
    requires Sound(t, h) && Represents(t, m) && Stale(t, h, k)
    ensures var p := Probe(t, h, k, 0).value; var t' := t[p := Used(k, v)];
      && Probe(t', h, k, 0) == Some(p)
      && k in m && Represents(t'[p := Free], m)
  {
    var p := Probe(t, h, k, 0).value;
    var t' := t[p := Used(k, v)];
    ProbeSame(t, h, k, v, p, 0);
    assert t'[p := Free] == t;
  }

  lemma {:induction false} ProbeSame<V>(t: seq<Slot<V>>, h: Hash, k: Key, v: V, p: nat, j: nat)
    requires j <= 8 <= |t| && p < |t| && Probe(t, h, k, j) == Some(p)
    ensures Probe(t[p := Used(k, v)], h, k, j) == Some(p)
    decreases 8 - j
  {
    hide At, Offset;
    if At(h, k, j, |t|) != p {
      ProbeSame(t, h, k, v, p, j + 1);
    }
  }

  /** Such a table is three calls away from an empty one: put "a", put "b", remove "a". */
  lemma StaleIsReachable()
    ensures var h: Hash := _ => 0; var t: seq<Slot<int>> := seq(16, _ => Free);
      && Probe(t, h, "a", 0) == Some(0)
      && Probe(t[0 := Used("a", 1)], h, "b", 0) == Some(1)
      && Stale(t[0 := Used("a", 1)][1 := Used("b", 2)][0 := Free], h, "b")
  {
    var h: Hash := _ => 0;
    var t: seq<Slot<int>> := seq(16, _ => Free);
    var t1 := t[0 := Used("a", 1)];
    assert Probe(t1, h, "b", 1) == Some(1);
    assert t1[0].key != "b";
    var t3 := t1[1 := Used("b", 2)][0 := Free];
    assert KeyAt(t3, 1, "b");
  }

  /** Freeing a key's slot removes that key, hides no other key, and keeps every invariant but tightness. */
  lemma FreeRemoves<V>(t: seq<Slot<V>>, h: Hash, m: map<Key, V>, p: nat)
    requires Sound(t, h) && Represents(t, m) && p < |t| && t[p].Used?
    ensures Sound(t[p := Free], h) && Represents(t[p := Free], m - {t[p].key})
  {
    var t', k := t[p := Free], t[p].key;
    assert KeyAt(t, p, k);
    forall q: nat, k' | KeyAt(t', q, k')
      ensures q != p && KeyAt(t, q, k') && k' != k
    {
      assert KeyAt(t, q, k');
    }
    forall k' | k' in m && k' != k
      ensures Present(t', k')
    {
      var q: nat :| KeyAt(t, q, k');
      assert KeyAt(t', q, k');
    }
  }

  /** Reading the eight slots of a key's probe sequence finds the key exactly when it is present. */
  lemma ProbeFinds<V>(t: seq<Slot<V>>, h: Hash, m: map<Key, V>, k: Key)
    requires Sound(t, h) && Represents(t, m)
    ensures k in m <==> exists j: nat :: j < 8 && KeyAt(t, At(h, k, j, |t|), k)
  {
    if k in m {
      var p: nat :| KeyAt(t, p, k);
      assert KeyAt(t, At(h, k, Offset(h, k, p, |t|), |t|), k);
    }
  }

  /** The first slot with the key, from step j of its probe sequence on. */
  function Found<V>(t: seq<Slot<V>>, h: Hash, k: Key, j: nat): (r: Option<nat>)
    requires j <= 8 <= |t|
    ensures r.Some? ==> KeyAt(t, r.value, k)
    ensures r.None? <==> forall i: nat :: j <= i < 8 ==> !KeyAt(t, At(h, k, i, |t|), k)
    decreases 8 - j
  {
    if j == 8 then None
    else
      var p := At(h, k, j, |t|);
      if t[p].Used? && t[p].key == k then Some(p) else Found(t, h, k, j + 1)
  }

  /** In a table that is a map, it finds the key of the map, with its value. */
  lemma FoundInMap<V>(t: seq<Slot<V>>, h: Hash, m: map<Key, V>, k: Key)
    requires Sound(t, h) && Represents(t, m)
    ensures var r := Found(t, h, k, 0); (r.Some? <==> k in m) && (r.Some? ==> t[r.value].data == m[k])
  {
    hide DupFree, InReach, Represents;
    ProbeFinds(t, h, m, k);
    var r := Found(t, h, k, 0);
    if r.Some? {
      RepresentsAt(t, m, r.value, k);
    }
  }

  lemma RepresentsAt<V>(t: seq<Slot<V>>, m: map<Key, V>, p: nat, k: Key)
    requires Represents(t, m) && KeyAt(t, p, k)
    ensures k in m && m[k] == t[p].data
  {}

  // ---- what a table answers ---------------------------------------------------------------------

  ghost function Lookup<V>(m: map<Key, V>, k: Key): Option<V> {
    if k in m then Some(m[k]) else None
  }

  /** The data of the first copy of the key, as hashmap_get finds it. */
  function Answer<V>(t: seq<Slot<V>>, h: Hash, k: Key): Option<V>
    requires |t| >= 8
  {
    var p := Found(t, h, k, 0);
    if p.None? then None else Some(t[p.value].data)
  }

  /** Every get answers as the map m would, whatever else the table holds. */
  ghost predicate Answers<V>(t: seq<Slot<V>>, h: Hash, m: map<Key, V>)
    requires |t| >= 8
  {
    forall k :: Answer(t, h, k) == Lookup(m, k)
  }

  lemma MapAnswers<V>(t: seq<Slot<V>>, h: Hash, m: map<Key, V>)
    requires Sound(t, h) && Represents(t, m)
    ensures Answers(t, h, m)
  {
    hide DupFree, InReach, Represents, Found;
    forall k
      ensures Answer(t, h, k) == Lookup(m, k)
    {
      FoundInMap(t, h, m, k);
    }
  }

  lemma AnswersUnique<V>(t: seq<Slot<V>>, h: Hash, m: map<Key, V>, n: map<Key, V>)
    requires |t| >= 8 && Answers(t, h, m) && Answers(t, h, n)
    ensures m == n
  {
    hide Answer;
    forall k
      ensures Lookup(m, k) == Lookup(n, k)
    {
      assert Answer(t, h, k) == Lookup(m, k);
    }
    assert forall k :: k in m <==> Lookup(m, k).Some?;
    assert forall k :: k in n <==> Lookup(n, k).Some?;
    SameLookups(m, n);
  }

  lemma SameLookups<V>(m: map<Key, V>, n: map<Key, V>)
    requires forall k :: Lookup(m, k) == Lookup(n, k)
    ensures m == n
  {
    forall k
      ensures k in m <==> k in n
      ensures k in m ==> m[k] == n[k]
    {
      assert Lookup(m, k) == Lookup(n, k);
    }
  }

  /** A store does not change what is found for another key. */
  lemma {:induction false} FoundOther<V>(t: seq<Slot<V>>, h: Hash, s: Slot<V>, p: nat, k: Key, j: nat)
    requires j <= 8 <= |t| && p < |t|
    requires (t[p].Used? ==> t[p].key != k) && (s.Used? ==> s.key != k)
    ensures Found(t[p := s], h, k, j) == Found(t, h, k, j)
    decreases 8 - j
  {
    hide At;
    if j < 8 {
      FoundOther(t, h, s, p, k, j + 1);
    }
  }

  /** The probe stops where the key, once stored there, is found first. */
  lemma {:induction false} FoundStored<V>(t: seq<Slot<V>>, h: Hash, k: Key, v: V, p: nat, j: nat)
    requires j <= 8 <= |t| && p < |t| && Probe(t, h, k, j) == Some(p)
    ensures Found(t[p := Used(k, v)], h, k, j) == Some(p)
    decreases 8 - j
  {
    hide At, Offset;
    if At(h, k, j, |t|) != p {
      FoundStored(t, h, k, v, p, j + 1);
    }
  }

  /** A put into the slot that is probed answers for its key, stale copies or not. */
  lemma StoreAnswers<V>(t: seq<Slot<V>>, h: Hash, m: map<Key, V>, k: Key, v: V, p: nat)
    requires |t| >= 8 && Answers(t, h, m) && p < |t| && Probe(t, h, k, 0) == Some(p)
    ensures Answers(t[p := Used(k, v)], h, m[k := v])
  {
    hide Probe, Found;
    var t' := t[p := Used(k, v)];
    ProbedSlot(t, h, k, p);
    forall k'
      ensures Answer(t', h, k') == Lookup(m[k := v], k')
    {
      if k' == k {
        FoundStored(t, h, k, v, p, 0);
      } else {
        FoundOther(t, h, Used(k, v), p, k', 0);
        FoundAt(t, h, k');
        assert Answer(t, h, k') == Lookup(m, k');
      }
    }
  }

  lemma ProbedSlot<V>(t: seq<Slot<V>>, h: Hash, k: Key, p: nat)
    requires |t| >= 8 && Probe(t, h, k, 0) == Some(p)
    ensures p < |t| && (t[p].Free? || t[p].key == k)
  {}

  lemma FoundAt<V>(t: seq<Slot<V>>, h: Hash, k: Key)
    requires |t| >= 8
    ensures Found(t, h, k, 0).Some? ==> KeyAt(t, Found(t, h, k, 0).value, k)
  {}

  /** A remove answers for its key if and only if that leaves no further copy to be found. */
  lemma FreeAnswers<V>(t: seq<Slot<V>>, h: Hash, m: map<Key, V>, k: Key, p: nat)
    requires |t| >= 8 && Answers(t, h, m) && KeyAt(t, p, k)
    ensures Answers(t[p := Free], h, m - {k}) <==> Answer(t[p := Free], h, k) == None
  {
    hide Found;
    var t' := t[p := Free];
    assert Answers(t', h, m - {k}) ==> Answer(t', h, k) == Lookup(m - {k}, k);
    if Answer(t', h, k) == None {
      forall k'
        ensures Answer(t', h, k') == Lookup(m - {k}, k')
      {
        if k' != k {
          FoundOther(t, h, Free, p, k', 0);
          FoundAt(t, h, k');
          assert Answer(t, h, k') == Lookup(m, k');
        }
      }
    }
  }

  // ---- copying a table slot by slot --------------------------------------------------------

  /** Each key with the data of its last slot: what putting the slots one after the other leaves. */
  function LastCopies<V>(t: seq<Slot<V>>): map<Key, V> {
    if t == [] then map[]
    else
      var m := LastCopies(t[..|t| - 1]);
      match t[|t| - 1]
      case Free => m
      case Used(k, v) => m[k := v]
  }

  lemma LastCopiesStep<V>(t: seq<Slot<V>>, i: nat)
    requires i < |t|
    ensures LastCopies(t[..i + 1]) ==
      if t[i].Free? then LastCopies(t[..i]) else LastCopies(t[..i])[t[i].key := t[i].data]
  {
    assert t[..i + 1][..i] == t[..i];
  }

  /** The keys are those of the table, and the copy in the highest slot wins. */
  lemma {:induction false} LastCopiesAre<V>(t: seq<Slot<V>>, k: Key)
    ensures k in LastCopies(t) <==> Present(t, k)
    ensures forall p: nat :: KeyAt(t, p, k) && (forall q: nat :: KeyAt(t, q, k) ==> q <= p) ==>
      LastCopies(t)[k] == t[p].data
  {
    if t != [] {
      var n := |t| - 1;
      LastCopiesAre(t[..n], k);
      forall p: nat
        ensures p < n ==> (KeyAt(t, p, k) <==> KeyAt(t[..n], p, k))
      {
      }
      if KeyAt(t, n, k) {
        assert Present(t, k);
      } else {
        LastCopiesInit(t, k);
      }
    }
  }

  lemma LastCopiesInit<V>(t: seq<Slot<V>>, k: Key)
    requires t != [] && !KeyAt(t, |t| - 1, k)
    ensures Present(t, k) <==> Present(t[..|t| - 1], k)
    ensures k in LastCopies(t) <==> k in LastCopies(t[..|t| - 1])
    ensures k in LastCopies(t) ==> LastCopies(t)[k] == LastCopies(t[..|t| - 1])[k]
  {
    var init := t[..|t| - 1];
    if Present(t, k) {
      var p: nat :| KeyAt(t, p, k);
      assert KeyAt(init, p, k);
    }
    if Present(init, k) {
      var p: nat :| KeyAt(init, p, k);
      assert KeyAt(t, p, k);
    }
  }

  /** Of a table that is a map the copies are that map, and copying a part copies part of it. */
  lemma CopiesOfMap<V>(t: seq<Slot<V>>, m: map<Key, V>, i: nat)
    requires DupFree(t) && Represents(t, m) && i <= |t|
    ensures Submap(LastCopies(t[..i]), m) && (i == |t| ==> LastCopies(t) == m)
  {
    hide LastCopies;
    forall k
      ensures k in LastCopies(t[..i]) ==> k in m && LastCopies(t[..i])[k] == m[k]
    {
      LastCopiesAre(t[..i], k);
      if k in LastCopies(t[..i]) {
        var p: nat :| KeyAt(t[..i], p, k);
        OnlyCopy(t, i, p, k);
      }
    }
    if i == |t| {
      assert t[..i] == t;
      forall k | k in m
        ensures k in LastCopies(t)
      {
        LastCopiesAre(t, k);
      }
    }
  }

  lemma OnlyCopy<V>(t: seq<Slot<V>>, i: nat, p: nat, k: Key)
    requires DupFree(t) && i <= |t| && KeyAt(t[..i], p, k)
    ensures KeyAt(t, p, k) && t[..i][p] == t[p] && forall q: nat :: KeyAt(t[..i], q, k) ==> q <= p
  {
    assert KeyAt(t, p, k);
    forall q: nat | KeyAt(t[..i], q, k)
      ensures q <= p
    {
      assert KeyAt(t, q, k);
    }
  }

  /** After a stale put in front of the old copy, the copy that wins a rehash is the old one. */
  lemma RehashRevives<V>(t: seq<Slot<V>>, h: Hash, k: Key, v: V, q: nat)
    requires |t| >= 8 && DupFree(t) && Stale(t, h, k) && KeyAt(t, q, k) && Probe(t, h, k, 0).value < q
    ensures var t' := t[Probe(t, h, k, 0).value := Used(k, v)];
      k in LastCopies(t') && LastCopies(t')[k] == t[q].data
  {
    hide LastCopies, Probe;
    var p := Probe(t, h, k, 0).value;
    var t' := t[p := Used(k, v)];
    LastCopiesAre(t', k);
    assert KeyAt(t', q, k);
    forall i: nat | KeyAt(t', i, k)
      ensures i <= q
    {
      assert i != p ==> KeyAt(t, i, k);
    }
  }

  ghost predicate Submap<V>(m: map<Key, V>, n: map<Key, V>) {
    forall k :: k in m ==> k in n && m[k] == n[k]
  }

  lemma SubmapReflexive<V>(m: map<Key, V>)
    ensures Submap(m, m)
  {}

  lemma SubmapTransitive<V>(a: map<Key, V>, b: map<Key, V>, c: map<Key, V>)
    requires Submap(a, b) && Submap(b, c)
    ensures Submap(a, c)
  {}
}

/**
 Put and rehash as functions on tables.  `grants` are the answers that the coming allocations get, in
 order; after the last one there is no memory left.
 */
module HashModel {
  import opened HashTable
  import opened Wrappers

  datatype Table<V> = Table(slots: seq<Slot<V>>, size: nat, grants: seq<bool>)

  /**
   The allocations between two points: if all is well they were all granted; if not, the last one
   that was asked for was denied.
   */
  ghost predicate Spent(before: seq<bool>, after: seq<bool>, ok: bool) {
    && |after| <= |before| && after == before[|before| - |after|..]
    && var n := |before| - |after|;
       if ok then AllTrue(before[..n]) else Denied(before, n)
  }

  ghost predicate AllTrue(s: seq<bool>) { forall i :: 0 <= i < |s| ==> s[i] }

  /** The n-th allocation is denied, by choice or because there is no memory left; those before are granted. */
  ghost predicate Denied(grants: seq<bool>, n: nat)
    requires n <= |grants|
  {
    (n > 0 && !grants[n - 1] && AllTrue(grants[..n - 1])) || (n == |grants| && AllTrue(grants))
  }

  lemma SpentShrinks(before: seq<bool>, after: seq<bool>, ok: bool)
    requires Spent(before, after, ok)
    ensures |after| <= |before|
  {}

  lemma SpentNone(g: seq<bool>)
    ensures Spent(g, g, true) && (g == [] ==> Spent(g, g, false))
  {}

  lemma SpentFirst(g: seq<bool>)
    requires g != []
    ensures Spent(g, g[1..], g[0])
  {}

  lemma SpentChain(a: seq<bool>, b: seq<bool>, c: seq<bool>, ok: bool)
    requires Spent(a, b, true) && Spent(b, c, ok)
    ensures Spent(a, c, ok)
  {
    var m, n := |a| - |b|, |a| - |c|;
    assert forall i :: m <= i < |a| ==> a[i] == b[i - m];
    assert c == a[n..];
    assert forall i :: 0 <= i < m ==> a[..m][i] == a[i];
    assert forall i :: 0 <= i < n - m ==> b[..n - m][i] == b[i];
    if !ok && n > m && !b[n - m - 1] && AllTrue(b[..n - m - 1]) {
      assert forall i :: 0 <= i < n - m - 1 ==> b[..n - m - 1][i] == b[i];
      assert AllTrue(a[..n - 1]);
    }
  }

  function Empty<V>(n: nat): (t: seq<Slot<V>>)
    ensures |t| == n && forall p :: 0 <= p < n ==> t[p] == Free
  {
    seq(n, _ => Free)
  }

  /** hashmap_hash. */
  function SlotFor<V>(h: Hash, t: Table<V>, k: Key): (r: Option<nat>)
    requires |t.slots| >= 16
    ensures r.Some? ==> r.value < |t.slots|
  {
    if t.size >= |t.slots| / 2 then None else Probe(t.slots, h, k, 0)
  }

  /** hashmap_put: whether it succeeds, and the table it leaves. */
  function PutOn<V>(h: Hash, t: Table<V>, k: Key, v: V): (r: (bool, Table<V>))
    requires |t.slots| >= 16
    ensures |r.1.slots| >= |t.slots| && Spent(t.grants, r.1.grants, r.0)
    decreases |t.grants|, 2, 0
  {
    var (ok, u) := RoomOn(h, t, k);
    if !ok then (false, u)
    else
      var p := SlotFor(h, u, k).value;
      (true, Table(u.slots[p := Used(k, v)], u.size + 1, u.grants))
  }

  /** Its loop: rehash until the key has a slot. */
  function RoomOn<V>(h: Hash, t: Table<V>, k: Key): (r: (bool, Table<V>))
    requires |t.slots| >= 16
    ensures |r.1.slots| >= |t.slots| && Spent(t.grants, r.1.grants, r.0) && (r.0 ==> SlotFor(h, r.1, k).Some?)
    decreases |t.grants|, 1, 0
  {
    SpentNone(t.grants);
    if SlotFor(h, t, k).Some? then (true, t)
    else
      var (ok, u) := RehashOn(h, t);
      if !ok then (false, u)
      else
        var r := RoomOn(h, u, k);
        SpentChain(t.grants, u.grants, r.1.grants, r.0);
        r
  }

  /** hashmap_rehash. */
  function RehashOn<V>(h: Hash, t: Table<V>): (r: (bool, Table<V>))
    requires |t.slots| >= 16
    ensures |r.1.slots| >= |t.slots| && Spent(t.grants, r.1.grants, r.0)
    ensures r.0 ==> |r.1.grants| < |t.grants| && |r.1.slots| >= 2 * |t.slots|
    decreases |t.grants|, 0, 0
  {
    SpentNone(t.grants);
    if t.grants == [] then (false, t)
    else
      SpentFirst(t.grants);
      if !t.grants[0] then (false, t.(grants := t.grants[1..]))
      else
        var r := CopyOn(h, t.slots, 0, Table(Empty(2 * |t.slots|), 0, t.grants[1..]));
        SpentChain(t.grants, t.grants[1..], r.1.grants, r.0);
        r
  }

  /** Its loop: put the used slots from slot i on, one after the other. */
  function CopyOn<V>(h: Hash, old_: seq<Slot<V>>, i: nat, t: Table<V>): (r: (bool, Table<V>))
    requires |t.slots| >= 16 && i <= |old_|
    ensures |r.1.slots| >= |t.slots| && Spent(t.grants, r.1.grants, r.0)
    decreases |t.grants|, 3, |old_| - i
  {
    SpentNone(t.grants);
    if i == |old_| then (true, t)
    else if old_[i].Free? then CopyOn(h, old_, i + 1, t)
    else
      var (ok, u) := PutOn(h, t, old_[i].key, old_[i].data);
      if !ok then (false, u)
      else
        var r := CopyOn(h, old_, i + 1, u);
        SpentChain(t.grants, u.grants, r.1.grants, r.0);
        r
  }

  // ---- how the table grows ----------------------------------------------------------------------

  /** n doubled k times is m. */
  ghost predicate Doublings(n: nat, m: nat, k: nat)
    decreases k
  {
    if k == 0 then m == n else Doublings(2 * n, m, k - 1)
  }

  lemma {:induction false} DoublingsChain(a: nat, b: nat, c: nat, i: nat, j: nat)
    requires Doublings(a, b, i) && Doublings(b, c, j)
    ensures Doublings(a, c, i + j)
    decreases i
  {
    if i > 0 {
      DoublingsChain(2 * a, b, c, i - 1, j);
    }
  }

  /** The table of a put that succeeds is doubled exactly once for each allocation. */
  lemma {:induction false} PutDoubles<V>(h: Hash, t: Table<V>, k: Key, v: V)
    requires |t.slots| >= 16 && PutOn(h, t, k, v).0
    ensures var u := PutOn(h, t, k, v).1;
      |u.grants| <= |t.grants| && Doublings(|t.slots|, |u.slots|, |t.grants| - |u.grants|)
    decreases |t.grants|, 2, 0
  {
    hide RoomOn, PutOn, Spent, Doublings, SlotFor;
    PutUnfold(h, t, k, v);
    RoomDoubles(h, t, k);
  }

  lemma {:induction false} RoomDoubles<V>(h: Hash, t: Table<V>, k: Key)
    requires |t.slots| >= 16 && RoomOn(h, t, k).0
    ensures var u := RoomOn(h, t, k).1;
      |u.grants| <= |t.grants| && Doublings(|t.slots|, |u.slots|, |t.grants| - |u.grants|)
    decreases |t.grants|, 1, 0
  {
    hide RoomOn, RehashOn, Spent, SlotFor, Doublings;
    RoomUnfold(h, t, k);
    if SlotFor(h, t, k).Some? {
      DoublingsNone(|t.slots|);
    } else {
      var u := RehashOn(h, t).1;
      RehashDoubles(h, t);
      RoomDoubles(h, u, k);
      var w := RoomOn(h, u, k).1;
      DoublingsChain(|t.slots|, |u.slots|, |w.slots|, |t.grants| - |u.grants|, |u.grants| - |w.grants|);
    }
  }

  /** A put that needs no rehash counts one more, also if the key was there; so puts of one key fill the table too. */
  lemma PutCounts<V>(h: Hash, t: Table<V>, k: Key, v: V)
    requires |t.slots| >= 16 && SlotFor(h, t, k).Some?
    ensures var (ok, u) := PutOn(h, t, k, v);
      ok && u.size == t.size + 1 && u.grants == t.grants && |u.slots| == |t.slots|
  {
    hide SlotFor, RoomOn;
    RoomUnfold(h, t, k);
  }

  lemma DoublingsNone(n: nat)
    ensures Doublings(n, n, 0) && Doublings(n, 2 * n, 1)
  {}

  lemma {:induction false} RehashDoubles<V>(h: Hash, t: Table<V>)
    requires |t.slots| >= 16 && RehashOn(h, t).0
    ensures var u := RehashOn(h, t).1;
      |u.grants| <= |t.grants| && Doublings(|t.slots|, |u.slots|, |t.grants| - |u.grants|)
    decreases |t.grants|, 0, 0
  {
    hide RehashOn, CopyOn, Spent, Doublings;
    RehashUnfold(h, t);
    var s := Table(Empty<V>(2 * |t.slots|), 0, t.grants[1..]);
    CopyDoubles(h, t.slots, 0, s);
    var u := CopyOn(h, t.slots, 0, s).1;
    DoublingsNone(|t.slots|);
    DoublingsChain(|t.slots|, |s.slots|, |u.slots|, 1, |s.grants| - |u.grants|);
  }

  lemma {:induction false} CopyDoubles<V>(h: Hash, old_: seq<Slot<V>>, i: nat, t: Table<V>)
    requires |t.slots| >= 16 && i <= |old_| && CopyOn(h, old_, i, t).0
    ensures var u := CopyOn(h, old_, i, t).1;
      |u.grants| <= |t.grants| && Doublings(|t.slots|, |u.slots|, |t.grants| - |u.grants|)
    decreases |t.grants|, 3, |old_| - i
  {
    hide CopyOn, PutOn, Spent, Doublings;
    CopyUnfold(h, old_, i, t);
    if i == |old_| {
      DoublingsNone(|t.slots|);
    } else if old_[i].Free? {
      CopyDoubles(h, old_, i + 1, t);
    } else {
      PutDoubles(h, t, old_[i].key, old_[i].data);
      var u := PutOn(h, t, old_[i].key, old_[i].data).1;
      CopyDoubles(h, old_, i + 1, u);
      var w := CopyOn(h, old_, i + 1, u).1;
      DoublingsChain(|t.slots|, |u.slots|, |w.slots|, |t.grants| - |u.grants|, |u.grants| - |w.grants|);
    }
  }

  /** hashmap_remove. */
  function RemoveOn<V>(h: Hash, t: Table<V>, k: Key): (r: Table<V>)
    requires |t.slots| >= 16
    ensures |r.slots| == |t.slots|
  {
    var p := Found(t.slots, h, k, 0);
    if p.None? || t.size == 0 then t else Table(t.slots[p.value := Free], t.size - 1, t.grants)
  }

  /** The copies that a rehash keeps are those that are found first, except perhaps for one key. */
  ghost predicate AgreesExcept<V>(h: Hash, t: Table<V>, k: Key)
    requires |t.slots| >= 16
  {
    forall k' :: k' != k ==> Lookup(LastCopies(t.slots), k') == Answer(t.slots, h, k')
  }

  /** A put of the key needs no rehash, or one that keeps what gets answer. */
  ghost predicate PutKeeps<V>(h: Hash, t: Table<V>, k: Key)
    requires |t.slots| >= 16
  {
    SlotFor(h, t, k).Some? || AgreesExcept(h, t, k)
  }

  /** A remove of the key leaves no second copy to be found. */
  predicate RemoveKeeps<V>(h: Hash, t: Table<V>, k: Key)
    requires |t.slots| >= 16
  {
    Answer(RemoveOn(h, t, k).slots, h, k) == None
  }

  lemma AgreesIff<V>(h: Hash, t: Table<V>, m: map<Key, V>, k: Key, v: V)
    requires |t.slots| >= 16 && Answers(t.slots, h, m)
    ensures AgreesExcept(h, t, k) <==> LastCopies(t.slots)[k := v] == m[k := v]
  {
    hide LastCopies, Answer;
    var n := LastCopies(t.slots);
    var n', m' := n[k := v], m[k := v];
    if AgreesExcept(h, t, k) {
      forall k'
        ensures Lookup(n', k') == Lookup(m', k')
      {
        if k' != k {
          assert Answer(t.slots, h, k') == Lookup(m, k');
        }
      }
      SameLookups(n', m');
    }
    if n' == m' {
      forall k' | k' != k
        ensures Lookup(n, k') == Answer(t.slots, h, k')
      {
        assert Lookup(n, k') == Lookup(n', k') == Lookup(m', k') == Lookup(m, k');
      }
    }
  }

  /** The next put of this key would leave an older copy behind a hole. */
  ghost predicate StaleIn<V>(h: Hash, t: Table<V>, k: Key)
    requires |t.slots| >= 16
  {
    t.size < |t.slots| / 2 && Stale(t.slots, h, k)
  }

  // ---- unfolding ------------------------------------------------------------------------------

  lemma RoomUnfold<V>(h: Hash, t: Table<V>, k: Key)
    requires |t.slots| >= 16
    ensures RoomOn(h, t, k) ==
      if SlotFor(h, t, k).Some? then (true, t)
      else if !RehashOn(h, t).0 then (false, RehashOn(h, t).1) else RoomOn(h, RehashOn(h, t).1, k)
  {}

  lemma RehashUnfold<V>(h: Hash, t: Table<V>)
    requires |t.slots| >= 16
    ensures RehashOn(h, t) ==
      if t.grants == [] then (false, t)
      else if !t.grants[0] then (false, t.(grants := t.grants[1..]))
      else CopyOn(h, t.slots, 0, Table(Empty(2 * |t.slots|), 0, t.grants[1..]))
  {}

  lemma CopyUnfold<V>(h: Hash, old_: seq<Slot<V>>, i: nat, t: Table<V>)
    requires |t.slots| >= 16 && i <= |old_|
    ensures CopyOn(h, old_, i, t) ==
      if i == |old_| then (true, t)
      else if old_[i].Free? then CopyOn(h, old_, i + 1, t)
      else
        var (ok, u) := PutOn(h, t, old_[i].key, old_[i].data);
        if !ok then (false, u) else CopyOn(h, old_, i + 1, u)
  {}

  lemma PutUnfold<V>(h: Hash, t: Table<V>, k: Key, v: V)
    requires |t.slots| >= 16
    ensures PutOn(h, t, k, v) ==
      var (ok, u) := RoomOn(h, t, k);
      if !ok then (false, u)
      else (true, Table(u.slots[SlotFor(h, u, k).value := Used(k, v)], u.size + 1, u.grants))
  {}
}

/** The map itself: put and rehash call each other. */
module Hashmap {
  import opened HashTable
  import opened HashModel
  import opened Wrappers

  datatype Status = MapOk | MapMissing | MapOmem

  class Map<V> {
    var data: array<Slot<V>>
    var size: nat
    /** What the coming allocations will be answered. */
    var grants: seq<bool>
    const hash: Hash
    ghost var contents: map<Key, V>

    function State(): (t: Table<V>)
      reads this, data
      ensures t.slots == data[..] && t.size == size && t.grants == grants
    {
      Table(data[..], size, grants)
    }

    /** What holds in every state, stale copies or not: the table is never more than half full. */
    ghost predicate Bounded()
      reads `data, `size, data
    {
      16 <= data.Length && Count(data[..]) <= size <= data.Length / 2
    }

    /** The table is a map: each key has one slot, within reach of its home. */
    ghost predicate Valid()
      reads `data, `size, `contents, data
    {
      Bounded() && Sound(data[..], hash) && Represents(data[..], contents)
    }

    /** Every get answers as `contents` would. */
    ghost predicate Answering()
      reads `data, `contents, data
    {
      data.Length >= 8 && Answers(data[..], hash, contents)
    }

    /** calloc. */
    method Calloc(n: nat) returns (t: array?<Slot<V>>)
      modifies `grants
      ensures t != null <==> old(grants) != [] && old(grants)[0]
      ensures grants == if old(grants) == [] then [] else old(grants)[1..]
      ensures t != null ==> fresh(t) && t[..] == Empty(n)
    {
      var granted := false;
      if grants != [] {
        granted, grants := grants[0], grants[1..];
      }
      if !granted {
        return null;
      }
      t := new Slot<V>[n](_ => Free);
    }

    /** hashmap_hash. */
    method HashSlot(key: Key) returns (index: Option<nat>)
      requires data.Length >= 16
      ensures index == SlotFor(hash, State(), key)
    {
      if size >= data.Length / 2 {
        return None;
      }
      var curr := Home(hash, key, data.Length);
      for i := 0 to 8
        invariant i < 8 ==> curr == At(hash, key, i, data.Length)
        invariant Probe(data[..], hash, key, 0) == Probe(data[..], hash, key, i)
      {
        if data[curr].Free? || data[curr].key == key {
          return Some(curr);
        }
        if i < 7 {
          NextSlot(hash, key, i, data.Length);
        }
        curr := (curr + 1) % data.Length;
      }
      return None;
    }

    /** hashmap_get.  In a table that is a map, the value of the key; in any table, that of its first copy. */
    method Get(key: Key) returns (status: Status, value: Option<V>)
      requires Bounded()
      ensures value == Answer(data[..], hash, key) && status == if value.Some? then MapOk else MapMissing
      ensures Valid() || Answering() ==> value == Lookup(contents, key)
    {
      hide Sound, Represents, Count, Found;
      if Valid() {
        MapAnswers(data[..], hash, contents);
      }
      assert Answering() ==> Answer(data[..], hash, key) == Lookup(contents, key);
      var slot := FindKey(key);
      if slot.None? {
        return MapMissing, None;
      }
      return MapOk, Some(data[slot.value].data);
    }

    /** The probing loop of hashmap_get and hashmap_remove: the first slot with the key, in eight steps. */
    method FindKey(key: Key) returns (slot: Option<nat>)
      requires Bounded()
      ensures slot == Found(data[..], hash, key, 0)
      ensures Valid() ==> (slot.Some? <==> key in contents)
    {
      hide Sound, Represents, Count;
      if Valid() {
        FoundInMap(data[..], hash, contents, key);
      }
      var curr := Home(hash, key, data.Length);
      for i := 0 to 8
        invariant i < 8 ==> curr == At(hash, key, i, data.Length)
        invariant Found(data[..], hash, key, 0) == Found(data[..], hash, key, i)
      {
        if data[curr].Used? && data[curr].key == key {
          return Some(curr);
        }
        if i < 7 {
          NextSlot(hash, key, i, data.Length);
        }
        curr := (curr + 1) % data.Length;
      }
      return None;
    }

    /** hashmap_remove. */
    method Remove(key: Key) returns (status: Status)
      requires Bounded()
      modifies this, data
      ensures Bounded() && data == old(data) && State() == RemoveOn(hash, old(State()), key)
      ensures old(Valid()) ==> Valid() && contents == old(contents) - {key}
      ensures old(Valid() || Answering()) ==> status == if key in old(contents) then MapOk else MapMissing
      ensures contents == old(contents) - {key} || (status == MapMissing && contents == old(contents))
      ensures old(Answering()) ==>
        (RemoveKeeps(hash, old(State()), key) <==> Answers(data[..], hash, old(contents) - {key}))
      ensures old(Answering()) && RemoveKeeps(hash, old(State()), key) ==>
        Answering() && contents == old(contents) - {key}
    {
      hide Valid, Bounded, Found, Answers;
      BoundedTable();
      AnswersKey(data[..], hash, contents, key);
      var slot := FindKey(key);
      if slot.None? {
        assert key !in contents ==> contents - {key} == contents;
        return MapMissing;
      }
      if Answering() {
        FreeAnswers(data[..], hash, contents, key, slot.value);
      }
      FreeSlot(slot.value);
      return MapOk;
    }

    /** Blank out a slot and reduce the size. */
    method FreeSlot(curr: nat)
      requires Bounded() && curr < data.Length && data[curr].Used?
      modifies this, data
      ensures Bounded() && data == old(data) && old(size) > 0
      ensures State() == Table(old(data[..])[curr := Free], old(size) - 1, old(grants))
      ensures contents == old(contents) - {old(data[curr]).key} && (old(Valid()) ==> Valid())
    {
      hide Sound, Represents, Count;
      ghost var t := data[..];
      if Valid() {
        FreeRemoves(t, hash, contents, curr);
      }
      CountUpdate(t, curr, Free);
      data[curr] := Free;
      assert data[..] == t[curr := Free];
      contents := contents - {t[curr].key};
      size := size - 1;
    }

    /** The next put of this key would leave an older copy behind a hole. */
    ghost predicate StalePut(key: Key)
      requires data.Length >= 16
      reads this, data
    {
      StaleIn(hash, State(), key)
    }

    /** Set the data at the slot hashmap_hash chose. */
    method Store(index: nat, key: Key, value: V)
      requires Bounded() && SlotFor(hash, State(), key) == Some(index)
      modifies this, data
      ensures Bounded() && data == old(data)
      ensures State() == Table(old(data[..])[index := Used(key, value)], old(size) + 1, old(grants))
      ensures old(Stale(data[..], hash, key)) ==> !DupFree(data[..])
      ensures contents == old(contents)[key := value] && (old(Answering()) ==> Answering())
      ensures old(Valid()) && !old(Stale(data[..], hash, key)) ==> Valid()
      ensures old(Valid()) && !old(Stale(data[..], hash, key)) && old(Tight(data[..], hash)) ==> Tight(data[..], hash)
    {
      hide Sound, Represents, Count, Stale, Tight, Probe, DupFree, Answers;
      ghost var t := data[..];
      if Answering() {
        StoreAnswers(t, hash, contents, key, value, index);
      }
      if Stale(t, hash, key) {
        StoreDuplicates(t, hash, key, value);
      } else if Valid() {
        StoreUpdates(t, hash, contents, key, value);
      }
      CountUpdate(t, index, Used(key, value));
      data[index] := Used(key, value);
      assert data[..] == t[index := Used(key, value)];
      contents := contents[key := value];
      size := size + 1;
    }

    lemma BoundedTable()
      requires Bounded()
      ensures 16 <= data.Length && Count(data[..]) <= size <= data.Length / 2
    {}

    lemma ValidTable()
      requires Valid()
      ensures Bounded() && 16 <= data.Length && Sound(data[..], hash) && DupFree(data[..])
      ensures Represents(data[..], contents)
      ensures Tight(data[..], hash) ==> forall key :: !Stale(data[..], hash, key)
    {
      hide DupFree, InReach, Represents;
      if Tight(data[..], hash) {
        forall key {
          TightIsNotStale(data[..], hash, key);
        }
      }
    }

    lemma AnsweringIs()
      requires data.Length >= 8
      ensures Answering() <==> Answers(data[..], hash, contents)
    {
      hide Answers;
    }

    lemma ValidIsAnswering()
      requires Valid()
      ensures Answering()
    {
      hide DupFree, InReach, Represents, Answers;
      MapAnswers(data[..], hash, contents);
    }

    /** In a map every put and every remove is clean. */
    lemma ValidAnswers(key: Key)
      requires Valid()
      ensures Answering() && PutKeeps(hash, State(), key) && RemoveKeeps(hash, State(), key)
    {
      hide DupFree, InReach, Represents, Answers, LastCopies, SlotFor, Count, Found;
      ValidIsAnswering();
      CopiesOfMap(data[..], contents, data.Length);
      AgreesAll(hash, State(), contents, key);
      var p := Found(data[..], hash, key, 0);
      FoundAt(data[..], hash, key);
      if p.Some? {
        FreeRemoves(data[..], hash, contents, p.value);
        MapAnswers(data[..][p.value := Free], hash, contents - {key});
        AnswersAt(data[..][p.value := Free], hash, contents - {key}, key);
        CountUpdate(data[..], p.value, Free);
      }
    }

    /** A table of free slots is a valid, tight, empty map. */
    lemma FreshTable()
      requires 16 <= data.Length && size == 0 && contents == map[] && data[..] == Empty(data.Length)
      ensures Valid() && Tight(data[..], hash)
    {
      CountFree(data[..]);
    }

    /** The while loop of hashmap_put: rehash until the key has a slot. */
    method FindRoom(key: Key) returns (status: Status, index: nat)
      requires Bounded()
      modifies this
      ensures status == MapOk || status == MapOmem
      ensures Bounded() && data.Length >= 16 && (data == old(data) || fresh(data))
      ensures (status == MapOk, State()) == RoomOn(hash, old(State()), key)
      ensures Spent(old(grants), grants, status == MapOk)
      ensures status == MapOk ==> SlotFor(hash, State(), key) == Some(index)
      ensures old(Valid()) ==> Valid()
      ensures old(Valid()) && status == MapOmem ==> Submap(contents, old(contents))
      ensures old(Valid()) && status == MapOk ==> contents == old(contents)
      ensures status == MapOk && SlotFor(hash, old(State()), key).None? ==>
        Valid() && Tight(data[..], hash) && contents == LastCopies(old(data[..]))
      ensures status == MapOmem ==>
        (data == old(data) && data[..] == old(data[..]) && contents == old(contents)) || data.Length > old(data.Length)
      ensures status == MapOk && SlotFor(hash, old(State()), key).Some? ==>
        data == old(data) && State() == old(State()) && contents == old(contents)
      decreases |grants|, 1
    {
      hide *;
      BoundedTable();
      ghost var start := State();
      var found := HashSlot(key);
      while found.None?
        invariant Bounded() && data.Length >= 16 && (data == old(data) || fresh(data))
        invariant old(Valid()) ==> Valid() && contents == old(contents)
        invariant RoomOn(hash, start, key) == RoomOn(hash, State(), key) && |grants| <= |old(grants)|
        invariant found == SlotFor(hash, State(), key)
        invariant
          || (State() == start && data == old(data) && contents == old(contents))
          || (&& Valid() && Tight(data[..], hash)
              && contents == LastCopies(old(data[..])) && data.Length > old(data.Length))
        invariant SlotFor(hash, start, key).None? || (State() == start && data == old(data))
        decreases |grants|
      {
        RoomUnfold(hash, State(), key);
        var rehashed := Rehash();
        if rehashed == MapOmem {
          return MapOmem, 0;
        }
        BoundedTable();
        found := HashSlot(key);
      }
      RoomUnfold(hash, State(), key);
      return MapOk, found.value;
    }

    /** hashmap_put.  It runs out of memory only when an allocation is denied. */
    method Put(key: Key, value: V) returns (status: Status)
      requires Bounded()
      modifies this, data
      ensures status == MapOk || status == MapOmem
      ensures Bounded() && data.Length >= 16 && (data == old(data) || fresh(data))
      ensures (status == MapOk, State()) == PutOn(hash, old(State()), key, value)
      ensures Spent(old(grants), grants, status == MapOk)
      ensures old(Valid()) && status == MapOmem ==> Valid() && Submap(contents, old(contents))
      ensures status == MapOk && old(StalePut(key)) ==> data == old(data) && !DupFree(data[..])
      ensures status == MapOk && old(StalePut(key)) ==>
        data[..] == old(data[..])[old(Probe(data[..], hash, key, 0)).value := Used(key, value)]
      ensures old(Valid()) && status == MapOk && !old(StalePut(key)) ==>
        Valid() && contents == old(contents)[key := value]
      ensures old(Valid()) && status == MapOk && old(Tight(data[..], hash)) ==>
        !old(StalePut(key)) && Tight(data[..], hash)
      ensures old(Answering()) && status == MapOk ==>
        (PutKeeps(hash, old(State()), key) <==> Answers(data[..], hash, old(contents)[key := value]))
      ensures old(Answering()) && status == MapOk && PutKeeps(hash, old(State()), key) ==>
        Answering() && contents == old(contents)[key := value]
      ensures status == MapOmem ==>
        (data == old(data) && data[..] == old(data[..]) && contents == old(contents)) || data.Length > old(data.Length)
      decreases |grants|, 2
    {
      hide DupFree, InReach, Represents, Valid, Bounded, Tight, Probe, Submap, Sound, SlotFor, PutOn, RoomOn, Spent;
      hide Answers, AgreesExcept, LastCopies;
      BoundedTable();
      ghost var start, answering, m := State(), Answering(), contents;
      if answering {
        AgreesIff(hash, start, m, key, value);
      }
      PutUnfold(hash, start, key, value);
      StalePutIs(key);
      if Valid() {
        ValidTable();
      }
      var index;
      status, index := FindRoom(key);
      if status == MapOmem {
        return;
      }
      if Valid() {
        ValidTable();
        MapAnswers(data[..], hash, contents);
      }
      Store(index, key, value);
      if answering && Answers(data[..], hash, m[key := value]) {
        AnswersUnique(data[..], hash, contents, m[key := value]);
      }
    }

    lemma StalePutIs(key: Key)
      requires data.Length >= 16
      ensures StalePut(key) ==>
        && Stale(data[..], hash, key) && SlotFor(hash, State(), key).Some?
        && SlotFor(hash, State(), key) == Probe(data[..], hash, key, 0)
      ensures !StalePut(key) && SlotFor(hash, State(), key).Some? ==> !Stale(data[..], hash, key)
    {
      hide Probe;
    }

    /**
     hashmap_rehash.  Whatever the table was, the new one is a map without holes, in which each key has
     the data of its last slot; of a map it is the same map.
     */
    method Rehash() returns (status: Status)
      requires Bounded()
      modifies this
      ensures status == MapOk || status == MapOmem
      ensures Bounded() && (data == old(data) || fresh(data))
      ensures (status == MapOk, State()) == RehashOn(hash, old(State()))
      ensures Spent(old(grants), grants, status == MapOk)
      ensures status == MapOk ==>
        fresh(data) && Valid() && Tight(data[..], hash) && contents == LastCopies(old(data[..]))
      ensures old(Valid()) ==> Valid()
      ensures old(Valid()) && status == MapOk ==> contents == old(contents)
      ensures old(Valid()) && status == MapOmem ==> Submap(contents, old(contents))
      ensures data.Length > old(data.Length) ||
        (status == MapOmem && data == old(data) && data[..] == old(data[..]) && contents == old(contents))
      decreases |grants|, 0
    {
      hide *;
      BoundedTable();
      RehashUnfold(hash, State());
      ghost var valid, all, slots := Valid(), contents, data[..];
      if valid {
        ValidTable();
        CopiesOfMap(slots, all, data.Length);
        SubmapReflexive(all);
      }
      var temp := Calloc(2 * data.Length);
      if temp == null {
        return MapOmem;
      }
      var curr := data;
      data, size, contents := temp, 0, map[];
      assert data.Length == |data[..]| == 2 * curr.Length;
      FreshTable();
      ghost var start := State();
      CopiesOfNothing(slots);
      for i := 0 to curr.Length
        invariant curr[..] == slots && fresh(data) && Valid() && Tight(data[..], hash) && data.Length >= 16
        invariant contents == LastCopies(slots[..i]) && |grants| < |old(grants)| && data.Length > old(data.Length)
        invariant CopyOn(hash, slots, 0, start) == CopyOn(hash, slots, i, State())
      {
        ValidTable();
        CopyUnfold(hash, slots, i, State());
        LastCopiesStep(slots, i);
        if curr[i].Free? {
          continue;
        }
        ghost var before, asked := contents, grants;
        status := Put(curr[i].key, curr[i].data);
        SpentShrinks(asked, grants, status == MapOk);
        if status != MapOk {
          if valid {
            CopiesOfMap(slots, all, i);
            SubmapTransitive(contents, before, all);
          }
          ValidTable();
          return;
        }
      }
      ValidTable();
      CopyUnfold(hash, slots, curr.Length, State());
      assert slots[..curr.Length] == slots;
      return MapOk;
    }

    constructor (hash: Hash, grants: seq<bool>, table: array<Slot<V>>)
      requires table[..] == Empty(16)
      ensures Valid() && Tight(data[..], this.hash) && contents == map[] && data == table
      ensures this.hash == hash && State() == Fresh(grants)
    {
      this.hash, this.grants := hash, grants;
      data, size, contents := table, 0, map[];
      new;
      assert |table[..]| == 16;
      FreshTable();
    }
  }

  lemma AnswersKey<V>(t: seq<Slot<V>>, h: Hash, m: map<Key, V>, k: Key)
    requires |t| >= 8
    ensures Answers(t, h, m) ==> (Found(t, h, k, 0).Some? <==> k in m)
  {
    hide Found;
    assert Answers(t, h, m) ==> Answer(t, h, k) == Lookup(m, k);
  }

  lemma AgreesAll<V>(h: Hash, t: Table<V>, m: map<Key, V>, k: Key)
    requires |t.slots| >= 16 && Answers(t.slots, h, m) && LastCopies(t.slots) == m
    ensures AgreesExcept(h, t, k)
  {
    hide LastCopies, Answer;
  }

  lemma AnswersAt<V>(t: seq<Slot<V>>, h: Hash, m: map<Key, V>, k: Key)
    requires |t| >= 8 && Answers(t, h, m)
    ensures Answer(t, h, k) == Lookup(m, k)
  {}

  lemma CopiesOfNothing<V>(t: seq<Slot<V>>)
    ensures LastCopies(t[..0]) == map[]
  {}

  /** A new table, with what its two allocations leave of the allocator's answers. */
  function Fresh<V>(grants: seq<bool>): Table<V> { Table(Empty(16), 0, grants) }

  /** hashmap_new: the map and its first table must both be granted. */
  predicate Starts(grants: seq<bool>) { |grants| >= 2 && grants[0] && grants[1] }

  lemma StartsIs(grants: seq<bool>)
    ensures Starts(grants) ==> |grants| >= 2
  {}

  method New<V>(hash: Hash, grants: seq<bool>) returns (m: Map?<V>)
    ensures m != null <==> Starts(grants)
    ensures m != null ==> fresh(m) && fresh(m.data) && m.hash == hash && m.State() == Fresh(grants[2..])
    ensures m != null ==> m.Valid() && Tight(m.data[..], m.hash) && m.contents == map[]
  {
    var left := grants;
    if left == [] || !left[0] {
      return null;
    }
    left := left[1..];
    if left == [] || !left[0] {
      return null;
    }
    left := left[1..];
    var table := new Slot<V>[16](_ => Free);
    m := new Map<V>(hash, left, table);
  }

  // ---- whole runs ------------------------------------------------------------------------

  datatype Op<V> = PutOp(key: Key, value: V) | GetOp(key: Key) | RemoveOp(key: Key)

  /** The table after one operation, and after a run of them. */
  function StepOn<V>(h: Hash, t: Table<V>, op: Op<V>): (r: Table<V>)
    requires |t.slots| >= 16
    ensures |r.slots| >= 16
  {
    match op
    case PutOp(k, v) => PutOn(h, t, k, v).1
    case GetOp(_) => t
    case RemoveOp(k) => RemoveOn(h, t, k)
  }

  function RunOn<V>(h: Hash, t: Table<V>, ops: seq<Op<V>>): (r: Table<V>)
    requires |t.slots| >= 16
    ensures |r.slots| >= 16
  {
    if ops == [] then t else StepOn(h, RunOn(h, t, ops[..|ops| - 1]), ops[|ops| - 1])
  }

  /** The map that a run of operations should leave: the last put of each key that was not denied or removed since. */
  ghost function After<V>(h: Hash, t: Table<V>, ops: seq<Op<V>>): map<Key, V>
    requires |t.slots| >= 16
  {
    if ops == [] then map[]
    else
      var init := ops[..|ops| - 1];
      Changed(h, RunOn(h, t, init), After(h, t, init), ops[|ops| - 1])
  }

  ghost function Changed<V>(h: Hash, t: Table<V>, m: map<Key, V>, op: Op<V>): map<Key, V>
    requires |t.slots| >= 16
  {
    match op
    case PutOp(k, v) => if PutOn(h, t, k, v).0 then m[k := v] else m
    case GetOp(_) => m
    case RemoveOp(k) => m - {k}
  }

  datatype Care = Clean | Steady | Growing

  /**
   What each operation of a run may meet.  Clean: no put is denied memory after it began to copy, or
   needs a rehash that keeps an older copy; no remove leaves a second copy.  Steady: no put is denied
   memory or meets a stale copy.  Growing: no put is denied memory, and nothing is removed.
   */
  ghost predicate Allows<V>(care: Care, h: Hash, t: Table<V>, op: Op<V>)
    requires |t.slots| >= 16
  {
    match care
    case Clean =>
      (match op
       case PutOp(k, v) =>
         var (ok, u) := PutOn(h, t, k, v);
         if ok then PutKeeps(h, t, k) else |u.slots| == |t.slots|
       case GetOp(_) => true
       case RemoveOp(k) => RemoveKeeps(h, t, k))
    case Steady => op.PutOp? ==> PutOn(h, t, op.key, op.value).0 && !StaleIn(h, t, op.key)
    case Growing => !op.RemoveOp? && (op.PutOp? ==> PutOn(h, t, op.key, op.value).0)
  }

  ghost predicate Run<V>(care: Care, h: Hash, t: Table<V>, ops: seq<Op<V>>)
    requires |t.slots| >= 16
  {
    forall i :: 0 <= i < |ops| ==> Allows(care, h, RunOn(h, t, ops[..i]), ops[i])
  }

  lemma RunStep<V>(h: Hash, t: Table<V>, ops: seq<Op<V>>, i: nat)
    requires |t.slots| >= 16 && i < |ops|
    ensures RunOn(h, t, ops[..i + 1]) == StepOn(h, RunOn(h, t, ops[..i]), ops[i])
    ensures After(h, t, ops[..i + 1]) == Changed(h, RunOn(h, t, ops[..i]), After(h, t, ops[..i]), ops[i])
  {
    hide PutOn, RemoveOn;
    assert ops[..i + 1][..i] == ops[..i];
  }

  lemma Prefix<V>(ops: seq<Op<V>>, i: nat, j: nat)
    requires j <= i <= |ops|
    ensures ops[..i][..j] == ops[..j] && (j < i ==> ops[..i][j] == ops[j])
  {}

  lemma RunIs<V>(care: Care, h: Hash, t: Table<V>, ops: seq<Op<V>>, i: nat)
    requires |t.slots| >= 16 && i <= |ops|
    ensures Run(care, h, t, ops[..i]) <==> forall j :: 0 <= j < i ==> Allows(care, h, RunOn(h, t, ops[..j]), ops[j])
  {
    hide RunOn, Allows;
    forall j | 0 <= j < i
      ensures ops[..i][..j] == ops[..j] && ops[..i][j] == ops[j]
    {
      Prefix(ops, i, j);
    }
  }

  lemma RunMore<V>(care: Care, h: Hash, t: Table<V>, ops: seq<Op<V>>, i: nat)
    requires |t.slots| >= 16 && i < |ops|
    ensures Run(care, h, t, ops[..i + 1]) <==>
      Run(care, h, t, ops[..i]) && Allows(care, h, RunOn(h, t, ops[..i]), ops[i])
  {
    hide *;
    RunIs(care, h, t, ops, i);
    RunIs(care, h, t, ops, i + 1);
  }

  lemma RunStart<V>(h: Hash, t: Table<V>, ops: seq<Op<V>>)
    requires |t.slots| >= 16
    ensures RunOn(h, t, ops[..0]) == t && After(h, t, ops[..0]) == map[]
    ensures forall care :: Run(care, h, t, ops[..0])
  {}

  datatype Load = Load(used: nat, size: nat, table: nat)

  function LoadOf<V>(t: Table<V>): Load { Load(Count(t.slots), t.size, |t.slots|) }

  predicate HalfFull(l: Load) { l.used <= l.size <= l.table / 2 && l.table >= 16 }

  lemma LoadIs<V>(m: Map<V>)
    requires m.Bounded()
    ensures HalfFull(LoadOf(m.State())) && |m.State().slots| >= 16
  {
    hide Count;
  }

  /** The answer of get i: what the table before it says, and what a map would as long as the run is clean. */
  ghost predicate Answered<V>(h: Hash, t: Table<V>, ops: seq<Op<V>>, i: nat, answer: Option<V>)
    requires |t.slots| >= 16 && i < |ops|
  {
    && answer == Answer(RunOn(h, t, ops[..i]).slots, h, ops[i].key)
    && (Run(Clean, h, t, ops[..i]) ==> answer == Lookup(After(h, t, ops[..i]), ops[i].key))
  }

  lemma AnsweredIs<V>(h: Hash, t: Table<V>, ops: seq<Op<V>>, i: nat, answer: Option<V>)
    requires |t.slots| >= 16 && i < |ops|
    ensures Answered(h, t, ops, i, answer) <==>
      && answer == Answer(RunOn(h, t, ops[..i]).slots, h, ops[i].key)
      && (Run(Clean, h, t, ops[..i]) ==> answer == Lookup(After(h, t, ops[..i]), ops[i].key))
  {}

  /**
   One operation.  A table that answers as a map goes on to do so, with the map changed, if and only if
   the operation is clean, unless it is a put that is denied memory.
   */
  method Apply<V>(m: Map<V>, op: Op<V>) returns (answer: Option<V>)
    requires m.Bounded()
    modifies m, m.data
    ensures m.Bounded() && (m.data == old(m.data) || fresh(m.data))
    ensures |old(m.State()).slots| >= 16 && m.State() == StepOn(m.hash, old(m.State()), op)
    ensures op.GetOp? ==> answer == Answer(old(m.State()).slots, m.hash, op.key)
    ensures op.GetOp? && old(m.Answering()) ==> answer == Lookup(old(m.contents), op.key)
    ensures var t := old(m.State()); old(m.Answering()) && Allows(Clean, m.hash, t, op) ==>
      m.Answering() && m.contents == Changed(m.hash, t, old(m.contents), op)
    ensures var t := old(m.State()); old(m.Answering()) && !Allows(Clean, m.hash, t, op) ==>
      || (op.PutOp? && !PutOn(m.hash, t, op.key, op.value).0)
      || !Answers(m.State().slots, m.hash, Changed(m.hash, t, old(m.contents), op))
    ensures old(m.Valid()) && Allows(Steady, m.hash, old(m.State()), op) ==>
      m.Valid() && Allows(Clean, m.hash, old(m.State()), op)
    ensures old(m.Valid() && Tight(m.data[..], m.hash)) && Allows(Growing, m.hash, old(m.State()), op) ==>
      Allows(Steady, m.hash, old(m.State()), op) && Tight(m.data[..], m.hash)
  {
    hide Tight, Map.Valid, Map.Bounded, Map.Answering, StaleIn, PutOn, RemoveOn, Answer, Answers, RemoveKeeps, PutKeeps;
    m.BoundedTable();
    m.AnsweringIs();
    ghost var t := m.State();
    if m.Valid() {
      m.ValidAnswers(op.key);
    }
    answer := None;
    match op {
      case PutOp(k, v) =>
        var status := m.Put(k, v);
      case GetOp(k) =>
        var status, value := m.Get(k);
        answer := value;
      case RemoveOp(k) =>
        var status := m.Remove(k);
    }
    m.AnsweringIs();
  }

  /**
   Run any history on a new map.  Every table on the way is determined by the hash function, the
   allocator's answers and the operations, and is at most half full.  Each get answers as a map would as
   long as the run is clean; a steady run is clean, and a growing run is steady.
   */
  method Replay<V>(hash: Hash, grants: seq<bool>, ops: seq<Op<V>>) returns (answers: seq<Option<V>>, loads: seq<Load>)
    ensures !Starts(grants) ==> answers == [] && loads == []
    ensures Starts(grants) ==> |answers| == |ops| && |loads| == |ops| + 1
    ensures Starts(grants) ==>
      forall i :: 0 <= i <= |ops| ==> loads[i] == LoadOf(RunOn(hash, Fresh<V>(grants[2..]), ops[..i]))
    ensures forall i :: 0 <= i < |loads| ==> HalfFull(loads[i])
    ensures Starts(grants) ==> forall i :: 0 <= i < |ops| && ops[i].GetOp? ==>
      Answered(hash, Fresh<V>(grants[2..]), ops, i, answers[i])
    ensures Starts(grants) ==> var t := Fresh<V>(grants[2..]);
      && (Run(Growing, hash, t, ops) ==> Run(Steady, hash, t, ops))
      && (Run(Steady, hash, t, ops) ==> Run(Clean, hash, t, ops))
  {
    hide *;
    answers, loads := [], [];
    var m := New<V>(hash, grants);
    if m == null {
      return;
    }
    StartsIs(grants);
    ghost var t := Fresh<V>(grants[2..]);
    m.ValidTable();
    m.ValidIsAnswering();
    RunStart(hash, t, ops);
    loads := [LoadOf(m.State())];
    LoadIs(m);
    for i := 0 to |ops|
      invariant fresh(m) && fresh(m.data) && m.hash == hash && m.Bounded() && m.State() == RunOn(hash, t, ops[..i])
      invariant Run(Clean, hash, t, ops[..i]) ==> m.Answering() && m.contents == After(hash, t, ops[..i])
      invariant Run(Steady, hash, t, ops[..i]) ==> Run(Clean, hash, t, ops[..i]) && m.Valid()
      invariant Run(Growing, hash, t, ops[..i]) ==> Run(Steady, hash, t, ops[..i]) && Tight(m.data[..], m.hash)
      invariant |answers| == i && |loads| == i + 1
      invariant forall j :: 0 <= j <= i ==> loads[j] == LoadOf(RunOn(hash, t, ops[..j])) && HalfFull(loads[j])
      invariant forall j :: 0 <= j < i && ops[j].GetOp? ==> Answered(hash, t, ops, j, answers[j])
    {
      RunStep(hash, t, ops, i);
      RunMore(Clean, hash, t, ops, i);
      RunMore(Steady, hash, t, ops, i);
      RunMore(Growing, hash, t, ops, i);
      var answer := Apply(m, ops[i]);
      AnsweredIs(hash, t, ops, i, answer);
      LoadIs(m);
      answers, loads := answers + [answer], loads + [LoadOf(m.State())];
    }
    assert ops[..|ops|] == ops;
  }
}
