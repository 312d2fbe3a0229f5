/**
 What the DHCPv4 client does when no server answers: state_panic in src/dhcp/client/dhclient.c
 works through its recorded leases by rotating them through `active`.
 */
module StatePanic {
  class Lease {
    const expiry: int
    const renewal: int

    constructor (expiry: int, renewal: int)
      ensures this.expiry == expiry && this.renewal == renewal
    {
      this.expiry, this.renewal := expiry, renewal;
    }
  }

  datatype State = SInit | SBound

  /** How state_panic ends: bound to a lease, waiting to start again, or, if told to try once, leaving. */
  datatype Outcome = Bound | Waiting | Exited

  ghost predicate Distinct(s: seq<Lease>) { forall i, j :: 0 <= i < j < |s| ==> s[i] != s[j] }

  ghost function Rotate(s: seq<Lease>, k: nat): seq<Lease>
    requires k <= |s|
  {
    s[k..] + s[..k]
  }

  class Client {
    var active: Lease?
    var leases: seq<Lease>
    var state: State
    /** When the client wakes up next. */
    var timer: int

    /** Every recorded lease, the active one first. */
    ghost function All(): seq<Lease>
      reads `active, `leases
    {
      if active == null then leases else [active] + leases
    }

    constructor (active: Lease?, leases: seq<Lease>)
      ensures this.active == active && this.leases == leases && state == SInit
    {
      this.active, this.leases, state, timer := active, leases, SInit, 0;
    }

    /** Put the active lease at the end of the list and activate the first one. */
    method ActivateNext()
      requires leases != []
      modifies this`active, this`leases
      ensures active != null && All() == if old(active) == null then old(All()) else Rotate(old(All()), 1)
    {
      var rest := if active == null then leases else leases + [active];
      active := rest[0];
      leases := rest[1..];
    }

    /** Put the only lease back into the list. */
    method GiveUp()
      requires active != null && leases == []
      modifies this`active, this`leases
      ensures active == null && All() == old(All())
    {
      leases := [active];
      active := null;
    }

    lemma AllIs()
      ensures active != null ==> All() != [] && All()[0] == active && (leases == [] <==> |All()| == 1)
      ensures active == null ==> All() == leases
    {}

    /** Bind to the active lease and wake up when it is due for renewal, or at once if it is overdue. */
    method Bind(now: int)
      requires active != null
      modifies this`state, this`timer
      ensures state == SBound && timer >= now && timer >= active.renewal && (timer == now || timer == active.renewal)
    {
      state := SBound;
      if now < active.renewal {
        timer := active.renewal;
      } else {
        timer := now;
      }
    }

    /**
     state_panic.  It binds the first usable lease, one that has not expired and that the client script
     (`works`) accepts, in the order in which they are recorded, having
     examined just the ones before it; the leases end up rotated to start at that one.  If none is
     usable, each has been examined once and the order is the original one; then the client leaves if it
     was to try once, or goes back to INIT and starts again between a half and one and a half times the
     retry interval later.
     */
    method Panic(now: int, works: Lease -> bool, onetry: bool, retryInterval: nat, draw: nat)
      returns (outcome: Outcome, ghost examined: seq<Lease>)
      requires Distinct(All()) && retryInterval > 0
      modifies this
      ensures outcome == Bound ==> examined != [] && examined <= old(All())
      ensures outcome == Bound ==> All() == Rotate(old(All()), |examined| - 1) && active == examined[|examined| - 1]
      ensures outcome == Bound ==> active.expiry > now && works(active) && state == SBound
      ensures outcome == Bound ==> timer >= now && timer >= active.renewal && (timer == now || timer == active.renewal)
      ensures outcome == Bound ==>
        forall i :: 0 <= i < |examined| - 1 ==> examined[i].expiry <= now || !works(examined[i])
      ensures outcome != Bound ==> examined == old(All()) && All() == old(All())
      ensures outcome != Bound ==> forall i :: 0 <= i < |examined| ==> examined[i].expiry <= now || !works(examined[i])
      ensures outcome != Bound ==> (active == null <==> |old(All())| <= 1)
      ensures outcome == Exited ==> onetry && state == old(state) && timer == old(timer)
      ensures outcome == Waiting ==>
        !onetry && state == SInit && 2 * (timer - now) >= retryInterval && 2 * (timer - now) <= 3 * retryInterval
      ensures outcome == Waiting ==> timer - now - (retryInterval + 1) / 2 == draw % retryInterval
    {
      hide *;
      var bound;
      bound, examined := TryLeases(now, works);
      if bound {
        return Bound, examined;
      }
      if onetry {
        return Exited, examined;
      }
      state := SInit;
      timer := now + ((retryInterval + 1) / 2 + draw % retryInterval);
      return Waiting, examined;
    }

    /** The loop over the recorded leases. */
    method TryLeases(now: int, works: Lease -> bool) returns (bound: bool, ghost examined: seq<Lease>)
      requires Distinct(All())
      modifies this
      ensures bound ==> examined != [] && examined <= old(All())
      ensures bound ==> All() == Rotate(old(All()), |examined| - 1) && active == examined[|examined| - 1]
      ensures bound ==> active.expiry > now && works(active) && state == SBound
      ensures bound ==> timer >= now && timer >= active.renewal && (timer == now || timer == active.renewal)
      ensures bound ==> forall i :: 0 <= i < |examined| - 1 ==> examined[i].expiry <= now || !works(examined[i])
      ensures !bound ==> examined == old(All()) && All() == old(All()) && state == old(state) && timer == old(timer)
      ensures !bound ==> forall i :: 0 <= i < |examined| ==> examined[i].expiry <= now || !works(examined[i])
      ensures !bound ==> (active == null <==> |old(All())| <= 1)
    {
      hide Rotate, Distinct, Client.All;
      ghost var all := All();
      RotateNone(all);
      AllIs();
      examined := [];
      var loop := active;
      if active == null && leases != [] {
        ActivateNext();
        AllIs();
        if active != loop && loop == null {
          loop := active;
        }
      }
      while active != null
        invariant |examined| <= |all| && examined == all[..|examined|]
        invariant All() == Rotate(all, |examined|) && state == old(state) && timer == old(timer)
        invariant forall i :: 0 <= i < |examined| ==> examined[i].expiry <= now || !works(examined[i])
        invariant active == null ==> |all| == 0
        invariant active != null ==> |examined| < |all| && loop == all[0]
        decreases |all| - |examined|
      {
        RotateFront(all, |examined|);
        AllIs();
        examined := examined + [active];
        if active.expiry > now {
          var accepted := works(active);
          if accepted {
            Bind(now);
            return true, examined;
          }
        }
        if leases == [] {
          GiveUp();
          RotateFront(all, |examined|);
          assert examined == all;
          return false, examined;
        }
        ActivateNext();
        AllIs();
        RotateStep(all, |examined| - 1);
        RotateFront(all, |examined|);
        if active == loop {
          assert examined == all;
          return false, examined;
        }
      }
      return false, examined;
    }
  }

  lemma RotateNone(s: seq<Lease>)
    ensures Rotate(s, 0) == s
  {}

  /** The front of a rotation; only the full turn brings the first lease back there. */
  lemma RotateFront(s: seq<Lease>, k: nat)
    requires Distinct(s) && k <= |s| && s != []
    ensures |Rotate(s, k)| == |s| && Rotate(s, k)[0] == if k < |s| then s[k] else s[0]
    ensures 0 < k && Rotate(s, k)[0] == s[0] ==> k == |s|
    ensures k == |s| ==> Rotate(s, k) == s
  {}

  lemma RotateStep(s: seq<Lease>, k: nat)
    requires k < |s|
    ensures Rotate(Rotate(s, k), 1) == Rotate(s, k + 1)
  {}
}
