/**
 The bindings of a DHCPv6 lease: identity associations and their addresses or prefixes
 (src/dhcp/client/dhc6.c).
 */
module Bindings {
  /** Non-temporary and temporary addresses, delegated prefixes, and any other option code. */
  datatype IaType = IaNa | IaTa | IaPd | IaOther

  /** A status code option: absent, a code, or too short to hold one. */
  datatype Status = NoStatus | Code(code: nat) | Malformed

  datatype Addr = Addr(address: seq<nat>, plen: nat, depreffed: bool, expired: bool,
                       starts: int, preferred: nat, maxLife: nat)

  datatype Ia = Ia(iaType: IaType, iaid: seq<nat>, starts: int, renew: nat, rebind: nat, addrs: seq<Addr>,
                   status: Status)

  /** The same binding: for delegated prefixes the length counts too. */
  predicate SameAddr(t: IaType, a: Addr, b: Addr) { a.address == b.address && (t == IaPd ==> a.plen == b.plen) }

  /** find_ia: the first association with this type and identifier, or the length of the list. */
  function FindIa(s: seq<Ia>, t: IaType, id: seq<nat>): (k: nat)
    ensures k <= |s| && (k < |s| ==> s[k].iaType == t && s[k].iaid == id)
    ensures forall i :: 0 <= i < k ==> !(s[i].iaType == t && s[i].iaid == id)
  {
    if s == [] || (s[0].iaType == t && s[0].iaid == id) then 0 else 1 + FindIa(s[1..], t, id)
  }

  /** find_addr and find_pref: the first matching address or prefix, or the length of the list. */
  function FindAddr(t: IaType, s: seq<Addr>, a: Addr): (k: nat)
    ensures k <= |s| && (k < |s| ==> SameAddr(t, s[k], a))
    ensures forall i :: 0 <= i < k ==> !SameAddr(t, s[i], a)
  {
    if s == [] || SameAddr(t, s[0], a) then 0 else 1 + FindAddr(t, s[1..], a)
  }

  predicate Knows(t: IaType, s: seq<Addr>, a: Addr) { FindAddr(t, s, a) < |s| }

  lemma KnowsIff(t: IaType, s: seq<Addr>, a: Addr)
    ensures Knows(t, s, a) <==> exists i :: 0 <= i < |s| && SameAddr(t, s[i], a)
  {}
}
