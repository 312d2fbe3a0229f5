/**
 The lock of src/hiredis-lock.c: SET NX to acquire, and to release a GET, a comparison in the
 client and then a DEL, as two separate commands to the shared store.
 */
module RedisLock {
  import opened Wrappers

  type Key = nat

  /** The lock entry in redis.  One set with PX may expire. */
  datatype Entry = Entry(key: Key, expires: bool)

  /** A user of the lock: `Checked` has seen its own key and is about to delete. */
  datatype Client = Idle | Holding(key: Key) | Checked(key: Key)

  /**
   The store, the clients, and the number of other `off` commands whose GET has matched and whose
   DEL is still to come.
   */
  datatype State = State(store: Option<Entry>, clients: seq<Client>, strays: nat)

  /**
   What a deployment allows: locks with a time to live, and `off` commands that name a drawn key
   although the owner of that key did not issue them, or issued them before.
   */
  datatype Config = Config(clients: nat, ttl: bool, strays: bool, drawn: set<Key>)

  datatype Event =
    | Lock(p: nat, key: Key, ttl: bool)
    | Refused(p: nat)
    | Expire
    | OwnerGet(p: nat)
    | OwnerDel(p: nat)
    | StrayGet(key: Key)
    | StrayDel

  predicate Owns(c: Client) { c.Holding? || c.Checked? }

  ghost predicate Init(c: Config, s: State) {
    && s.store == None && s.strays == 0 && |s.clients| == c.clients
    && forall p :: 0 <= p < |s.clients| ==> s.clients[p] == Idle
  }

  /** One command, or one expiry, against the store. */
  ghost predicate Step(c: Config, s: State, e: Event, t: State) {
    match e
    case Lock(p, key, ttl) =>
      && p < |s.clients| && s.clients[p] == Idle && key in c.drawn && (ttl ==> c.ttl)
      && s.store == None
      && t == s.(store := Some(Entry(key, ttl)), clients := s.clients[p := Holding(key)])
    case Refused(p) =>
      p < |s.clients| && s.clients[p] == Idle && s.store.Some? && t == s
    case Expire =>
      s.store.Some? && s.store.value.expires && t == s.(store := None)
    case OwnerGet(p) =>
      && p < |s.clients| && s.clients[p].Holding?
      && var matched := s.store.Some? && s.store.value.key == s.clients[p].key;
         t == s.(clients := s.clients[p := if matched then Checked(s.clients[p].key) else Idle])
    case OwnerDel(p) =>
      && p < |s.clients| && s.clients[p].Checked?
      && t == s.(store := None, clients := s.clients[p := Idle])
    case StrayGet(key) =>
      && (key in c.drawn ==> c.strays)
      && var matched := s.store.Some? && s.store.value.key == key;
         t == if matched then s.(strays := s.strays + 1) else s
    case StrayDel =>
      s.strays > 0 && t == s.(store := None, strays := s.strays - 1)
  }

  /** A run: its states, and the events between them. */
  ghost predicate Run(c: Config, states: seq<State>, events: seq<Event>) {
    && |states| == |events| + 1 && Init(c, states[0])
    && forall i :: 0 <= i < |events| ==> Step(c, states[i], events[i], states[i + 1])
  }

  /** At most one client owns the lock. */
  ghost predicate Mutex(s: State) {
    forall p, q :: 0 <= p < |s.clients| && 0 <= q < |s.clients| && Owns(s.clients[p]) && Owns(s.clients[q]) ==> p == q
  }

  ghost predicate Reachable(c: Config, s: State) {
    exists states, events :: Run(c, states, events) && states[|events|] == s
  }

  /** No interleaving lets two clients own the lock. */
  ghost predicate AlwaysMutex(c: Config) { forall s :: Reachable(c, s) ==> Mutex(s) }

  lemma ReachInit(c: Config, s: State)
    requires Init(c, s)
    ensures Reachable(c, s)
  {
    assert Run(c, [s], []);
  }

  lemma ReachStep(c: Config, s: State, e: Event, t: State)
    requires Reachable(c, s) && Step(c, s, e, t)
    ensures Reachable(c, t)
  {
    hide Step, Init;
    var states, events :| Run(c, states, events) && states[|events|] == s;
    assert Run(c, states + [t], events + [e]);
  }

  // ---- the invariant ----------------------------------------------------------------------------

  /**
   Without expiry and strays, the store holds exactly the owner's key, both while it holds the
   lock and between its GET and its DEL.
   */
  ghost predicate Inv(c: Config, s: State) {
    && s.strays == 0
    && (s.store.Some? ==> !s.store.value.expires && s.store.value.key in c.drawn)
    && (forall p :: 0 <= p < |s.clients| && Owns(s.clients[p]) ==>
          s.store.Some? && s.store.value.key == s.clients[p].key)
    && (s.store.Some? ==> exists p :: 0 <= p < |s.clients| && Owns(s.clients[p]))
    && Mutex(s)
  }

  lemma StepKeepsInv(c: Config, s: State, e: Event, t: State)
    requires !c.ttl && !c.strays && Inv(c, s) && Step(c, s, e, t)
    ensures Inv(c, t)
  {
    match e {
      case Lock(p, key, ttl) =>
        assert Owns(t.clients[p]);
      case OwnerGet(p) =>
        assert Owns(s.clients[p]) && Owns(t.clients[p]);
      case OwnerDel(p) =>
        assert Owns(s.clients[p]);
      case _ =>
    }
  }

  lemma {:induction false} RunKeepsInv(c: Config, states: seq<State>, events: seq<Event>, i: nat)
    requires !c.ttl && !c.strays && Run(c, states, events) && i <= |events|
    ensures Inv(c, states[i])
  {
    if i > 0 {
      RunKeepsInv(c, states, events, i - 1);
      StepKeepsInv(c, states[i - 1], events[i - 1], states[i]);
    }
  }

  /**
   In every state of such a run: an owner's key is the one in the store, so its GET matches and its
   DEL removes its own lock and no other; and the lock is free whenever nobody owns it.
   */
  lemma OwnerAlwaysReleases(c: Config, states: seq<State>, events: seq<Event>, i: nat, p: nat)
    requires !c.ttl && !c.strays && Run(c, states, events) && i <= |events| && p < |states[i].clients|
    ensures Owns(states[i].clients[p]) ==> states[i].store == Some(Entry(states[i].clients[p].key, false))
    ensures (forall q :: 0 <= q < |states[i].clients| ==> !Owns(states[i].clients[q])) ==> states[i].store == None
  {
    RunKeepsInv(c, states, events, i);
  }

  // ---- each assumption is needed ----------------------------------------------------------------------

  /** A lock that expires under its owner can be taken again. */
  lemma ExpiryBreaksMutex(c: Config, k: Key)
    requires c.ttl && k in c.drawn && c.clients >= 2
    ensures !AlwaysMutex(c)
  {
    hide Reachable, Mutex;
    var idle := seq(c.clients, _ => Idle);
    var s0 := State(None, idle, 0);
    var s1 := State(Some(Entry(k, true)), idle[0 := Holding(k)], 0);
    var s2 := s1.(store := None);
    var s3 := State(Some(Entry(k, true)), idle[0 := Holding(k)][1 := Holding(k)], 0);
    ReachInit(c, s0);
    ReachStep(c, s0, Lock(0, k, true), s1);
    ReachStep(c, s1, Expire, s2);
    ReachStep(c, s2, Lock(1, k, true), s3);
    NotMutex(s3, 0, 1);
  }

  lemma NotMutex(s: State, p: nat, q: nat)
    requires p < q < |s.clients| && Owns(s.clients[p]) && Owns(s.clients[q])
    ensures !Mutex(s)
  {}

  /** A second `off` with the same key, between the first one's GET and DEL, deletes the next owner's lock. */
  lemma DoubleUnlockBreaksMutex(c: Config, k: Key)
    requires c.strays && k in c.drawn && c.clients >= 2
    ensures !AlwaysMutex(c)
  {
    hide Reachable, Mutex;
    var idle := seq(c.clients, _ => Idle);
    var e := Some(Entry(k, false));
    var s0 := State(None, idle, 0);
    var s1 := State(e, idle[0 := Holding(k)], 0);
    var s2 := State(e, idle[0 := Checked(k)], 0);
    var s3 := s2.(strays := 1);
    var s4 := State(None, idle, 1);
    var s5 := State(e, idle[1 := Holding(k)], 1);
    var s6 := State(None, idle[1 := Holding(k)], 0);
    var s7 := State(e, idle[1 := Holding(k)][0 := Holding(k)], 0);
    assert idle[0 := Checked(k)][0 := Idle] == idle && idle[0 := Holding(k)][0 := Checked(k)] == idle[0 := Checked(k)];
    ReachInit(c, s0);
    ReachStep(c, s0, Lock(0, k, false), s1);
    ReachStep(c, s1, OwnerGet(0), s2);
    ReachStep(c, s2, StrayGet(k), s3);
    ReachStep(c, s3, OwnerDel(0), s4);
    ReachStep(c, s4, Lock(1, k, false), s5);
    ReachStep(c, s5, StrayDel, s6);
    ReachStep(c, s6, Lock(0, k, false), s7);
    NotMutex(s7, 0, 1);
  }

  /** Nobody to exclude: a single client, or no key ever drawn. */
  predicate Alone(c: Config) { c.clients <= 1 || c.drawn == {} }

  lemma {:induction false} AloneIsMutex(c: Config, states: seq<State>, events: seq<Event>, i: nat)
    requires Alone(c) && Run(c, states, events) && i <= |events|
    ensures |states[i].clients| == c.clients && Mutex(states[i])
    ensures c.drawn == {} ==> forall p :: 0 <= p < |states[i].clients| ==> states[i].clients[p] == Idle
  {
    if i > 0 {
      AloneIsMutex(c, states, events, i - 1);
      assert Step(c, states[i - 1], events[i - 1], states[i]);
    }
  }

  /**
   For every deployment: the lock excludes in all interleavings exactly when no lock expires and
   only owners unlock, each once, or there is nobody to exclude.
   */
  lemma MutexIff(c: Config)
    ensures AlwaysMutex(c) <==> (!c.ttl && !c.strays) || Alone(c)
  {
    if (!c.ttl && !c.strays) || Alone(c) {
      forall s | Reachable(c, s)
        ensures Mutex(s)
      {
        var states, events :| Run(c, states, events) && states[|events|] == s;
        if Alone(c) {
          AloneIsMutex(c, states, events, |events|);
        } else {
          RunKeepsInv(c, states, events, |events|);
        }
      }
    } else {
      var k :| k in c.drawn;
      if c.ttl {
        ExpiryBreaksMutex(c, k);
      } else {
        DoubleUnlockBreaksMutex(c, k);
      }
    }
  }
}
