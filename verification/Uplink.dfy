/** The uplink that connects a routed network to the network node, created with the first router port and
    removed with the last, whichever delete events fire. It is found again by its name, which other ports of the
    network can have too. */
module Uplink {
  import opened Common

  const PREFIX := "uplink-"

  /** A router's port, the segment-shared port of an uplink, or any other port. */
  datatype Kind = RouterPort(flavored: bool) | Shared | Other

  datatype Port = Port(network: string, name: string, kind: Kind)

  /** The Neutron ports, the subports of the network node trunk, and the localnet ports in OVN by network and name. */
  datatype State = State(ports: map<string, Port>, subports: set<string>, localnets: set<(string, string)>)

  const EMPTY := State(map[], {}, {})

  /** Which handlers a removal fires. */
  datatype Via = Precommit | AfterDelete | Both

  /** Router ports come and go; so do other ports, and any port except the shared one can be renamed. Adding a
      router port names the segment and the id that Neutron would give a new shared port. */
  datatype Event =
    | Add(port: string, network: string, name: string, flavored: bool, segment: string, sharedId: string)
    | Remove(port: string, via: Via)
    | AddOther(port: string, network: string, name: string)
    | RemoveOther(port: string)
    | Rename(port: string, name: string)

  predicate OnNetwork(s: State, p: string, n: string) {
    p in s.ports && s.ports[p].network == n
  }

  function PortsOn(s: State, n: string): set<string> {
    set p | p in s.ports && OnNetwork(s, p, n) && IsRouterPort(s, p)
  }

  function SharedOn(s: State, n: string): set<string> {
    set p | p in s.ports && OnNetwork(s, p, n) && IsShared(s, p)
  }

  /** What the lookup by name may return: any port of the network with the prefix. */
  function Matches(s: State, n: string): set<string> {
    set p | p in s.ports && OnNetwork(s, p, n) && PREFIX <= s.ports[p].name
  }

  /** The matches that are not the uplink's own port. */
  function Strangers(s: State, n: string): set<string> {
    set p | p in s.ports && OnNetwork(s, p, n) && PREFIX <= s.ports[p].name && !IsShared(s, p)
  }

  predicate HasUplink(s: State, n: string) {
    SharedOn(s, n) != {}
  }

  predicate IsShared(s: State, p: string) {
    p in s.ports && s.ports[p].kind.Shared?
  }

  predicate IsRouterPort(s: State, p: string) {
    p in s.ports && s.ports[p].kind.RouterPort?
  }

  // ----- the handlers

  function WithPort(s: State, p: string, port: Port): State {
    s.(ports := s.ports[p := port])
  }

  function WithoutPort(s: State, p: string): State {
    s.(ports := s.ports - {p})
  }

  /** After a router port was stored: only the first one on a network, and only of an unflavored router, builds
      the uplink. */
  function CreateUplink(s: State, e: Event): State
    requires e.Add?
  {
    if |PortsOn(s, e.network)| > 1 || e.flavored then s
    else
      State(s.ports[e.sharedId := Port(e.network, PREFIX + e.segment, Shared)],
            s.subports + {e.sharedId},
            s.localnets + {(e.network, PREFIX + e.segment)})
  }

  /** Take down whatever hangs on the port that was found. */
  function TakenDown(s: State, p: string): State
    requires p in s.ports
  {
    State(s.ports - {p}, s.subports - {p}, s.localnets - {(s.ports[p].network, s.ports[p].name)})
  }

  /** A cleanup takes down some match, or does nothing if there is none. */
  ghost predicate CleanedUp(s: State, n: string, s': State) {
    if Matches(s, n) == {} then s' == s else exists p :: p in Matches(s, n) && s' == TakenDown(s, p)
  }

  ghost predicate OnPrecommitDelete(s: State, n: string, s': State) {
    if |PortsOn(s, n)| > 1 then s' == s else CleanedUp(s, n, s')
  }

  ghost predicate OnAfterDelete(s: State, n: string, s': State) {
    if PortsOn(s, n) != {} then s' == s else CleanedUp(s, n, s')
  }

  /** Neutron deletes the port between the two events. */
  ghost predicate Removal(s: State, e: Event, mid: State, s': State)
    requires e.Remove? && IsRouterPort(s, e.port)
  {
    var n := s.ports[e.port].network;
    && (if e.via == AfterDelete then mid == s else OnPrecommitDelete(s, n, mid))
    && (if e.via == Precommit then s' == WithoutPort(mid, e.port) else OnAfterDelete(WithoutPort(mid, e.port), n, s'))
  }

  ghost predicate Step(s: State, e: Event, s': State) {
    match e
    case Add(port, network, name, flavored, _, _) =>
      s' == CreateUplink(WithPort(s, port, Port(network, name, RouterPort(flavored))), e)
    case Remove(port, _) => if IsRouterPort(s, port) then exists mid :: Removal(s, e, mid, s') else s' == s
    case AddOther(port, network, name) => s' == WithPort(s, port, Port(network, name, Other))
    case RemoveOther(port) => s' == if port in s.ports && s.ports[port].kind.Other? then WithoutPort(s, port) else s
    case Rename(port, name) =>
      s' == if port in s.ports && !IsShared(s, port) then WithPort(s, port, s.ports[port].(name := name)) else s
  }

  // ----- what is meant

  /** The uplink of a network without its three parts. */
  function Cleanup(s: State, n: string): State {
    State(s.ports - SharedOn(s, n),
          s.subports - SharedOn(s, n),
          s.localnets - set p | p in SharedOn(s, n) :: (n, s.ports[p].name))
  }

  /** Removing a router port is meant to take down the uplink with the last one, and nothing else. */
  function Meant(s: State, e: Event): State
    requires e.Remove? && IsRouterPort(s, e.port)
  {
    var n, stored := s.ports[e.port].network, WithoutPort(s, e.port);
    if PortsOn(s, n) == {e.port} then Cleanup(stored, n) else stored
  }

  function SharedPorts(s: State): set<string> {
    set p | p in s.ports && IsShared(s, p)
  }

  function LocalnetsOf(s: State): set<(string, string)> {
    set p | p in s.ports && IsShared(s, p) :: (s.ports[p].network, s.ports[p].name)
  }

  /** Shared port, trunk subport and localnet port exist together, and at most once per network. */
  ghost predicate Coherent(s: State) {
    Findable(s) && s.subports == SharedPorts(s) && s.localnets == LocalnetsOf(s)
  }

  /** One shared port per network at most, and its name has the prefix. */
  ghost predicate Findable(s: State) {
    && (forall p, q :: IsShared(s, p) && IsShared(s, q) && s.ports[p].network == s.ports[q].network ==> p == q)
    && (forall p :: IsShared(s, p) ==> PREFIX <= s.ports[p].name)
  }

  /** And no network without router ports has an uplink. */
  ghost predicate UplinksOk(s: State) {
    Coherent(s) && forall n :: PortsOn(s, n) == {} ==> !HasUplink(s, n)
  }

  /** New ports get new ids. */
  predicate FreshIds(s: State, e: Event) {
    && (e.Add? ==> e.port !in s.ports && e.sharedId !in s.ports && e.port != e.sharedId)
    && (e.AddOther? ==> e.port !in s.ports)
  }

  /** The removal of a last router port can go wrong: the lookup may find a port that stays, or, before the port
      itself is deleted, that port instead of the uplink. */
  predicate Harmful(s: State, e: Event) {
    && e.Remove? && IsRouterPort(s, e.port)
    && var n := s.ports[e.port].network;
       && PortsOn(s, n) == {e.port}
       && (Strangers(s, n) - {e.port} != {} || (e.via == Precommit && e.port in Strangers(s, n) && HasUplink(s, n)))
  }

  // ----- one removal: exactly when the lookup by name cannot go wrong

  lemma LastPort(ports: set<string>, p: string)
    requires p in ports
    ensures |ports| <= 1 <==> ports == {p}
    ensures ports - {p} == {} <==> ports == {p}
  {
    assert |ports - {p}| == |ports| - 1;
    assert |ports| <= 1 ==> ports - {p} == {};
    assert ports == (ports - {p}) + {p};
  }

  /** Without strangers the lookup finds the uplink. */
  lemma LookupFindsUplink(s: State, n: string, s': State)
    requires Findable(s) && Strangers(s, n) == {} && CleanedUp(s, n, s')
    ensures s' == Cleanup(s, n)
  {
    forall p | p in Matches(s, n) ensures p in SharedOn(s, n) {
      assert p !in Strangers(s, n);
    }
    if Matches(s, n) == {} {
      forall p ensures p !in SharedOn(s, n) {
        assert p !in Matches(s, n);
      }
      NothingToClean(s, n);
    } else {
      var p :| p in Matches(s, n) && s' == TakenDown(s, p);
      assert SharedOn(s, n) == {p};
      assert (set q | q in SharedOn(s, n) :: (n, s.ports[q].name)) == {(n, s.ports[p].name)};
    }
  }

  lemma NothingToClean(s: State, n: string)
    requires SharedOn(s, n) == {}
    ensures Cleanup(s, n) == s
  {
    assert s.ports - {} == s.ports;
  }

  /** Deleting a port that is not shared and taking down the uplink commute. */
  lemma CleanupCommutes(s: State, n: string, p: string)
    requires !IsShared(s, p)
    ensures WithoutPort(Cleanup(s, n), p) == Cleanup(WithoutPort(s, p), n)
  {
    var t := WithoutPort(s, p);
    forall q ensures q in SharedOn(t, n) <==> q in SharedOn(s, n) {
    }
    assert SharedOn(t, n) == SharedOn(s, n);
    assert WithoutPort(Cleanup(s, n), p).ports == Cleanup(t, n).ports;
    assert (set q | q in SharedOn(s, n) :: (n, s.ports[q].name))
           == (set q | q in SharedOn(t, n) :: (n, t.ports[q].name));
  }

  /** Taking down the router port itself removes nothing but that port, up to the localnet port of an uplink of the
      same name. */
  lemma OwnPortTakenDown(s: State, p: string)
    requires Coherent(s) && IsRouterPort(s, p)
    ensures var n, t := s.ports[p].network, WithoutPort(s, p);
            && Cleanup(WithoutPort(TakenDown(s, p), p), n) == Cleanup(t, n)
            && (!HasUplink(s, n) ==> WithoutPort(TakenDown(s, p), p) == t)
  {
    var n, t, taken := s.ports[p].network, WithoutPort(s, p), WithoutPort(TakenDown(s, p), p);
    assert taken.ports == t.ports && taken.subports == t.subports;
    assert SharedOn(taken, n) == SharedOn(t, n);
    forall q | IsShared(s, q) && s.ports[q].network == n ensures q in SharedOn(s, n) && q in SharedOn(t, n) {
    }
    var cut := set q | q in SharedOn(t, n) :: (n, t.ports[q].name);
    assert cut == set q | q in SharedOn(taken, n) :: (n, taken.ports[q].name);
    assert taken.localnets == t.localnets - {(n, s.ports[p].name)};
    if (n, s.ports[p].name) in s.localnets {
      var q :| IsShared(s, q) && (n, s.ports[p].name) == (s.ports[q].network, s.ports[q].name);
      assert q in SharedOn(t, n) && (n, t.ports[q].name) in cut;
    }
  }

  lemma SetsWithout(s: State, p: string, n: string)
    ensures var t := WithoutPort(s, p);
            && PortsOn(t, n) == PortsOn(s, n) - {p} && SharedOn(t, n) == SharedOn(s, n) - {p}
            && Strangers(t, n) == Strangers(s, n) - {p} && Matches(t, n) == Matches(s, n) - {p}
  {
  }

  /** What the precommit handler leaves when the last port of a network goes and no stranger stays. */
  lemma PrecommitHarmless(s: State, p: string, mid: State)
    requires Coherent(s) && IsRouterPort(s, p) && Strangers(s, s.ports[p].network) - {p} == {}
    requires CleanedUp(s, s.ports[p].network, mid)
    ensures var n := s.ports[p].network;
            mid == Cleanup(s, n) || (p in Strangers(s, n) && mid == TakenDown(s, p))
  {
    var n := s.ports[p].network;
    if p !in Strangers(s, n) {
      assert Strangers(s, n) == {};
      LookupFindsUplink(s, n, mid);
    } else {
      assert p in Matches(s, n);
      var q :| q in Matches(s, n) && mid == TakenDown(s, q);
      if q != p {
        assert q !in Strangers(s, n) - {p};
        assert SharedOn(s, n) == {q};
        assert (set r | r in SharedOn(s, n) :: (n, s.ports[r].name)) == {(n, s.ports[q].name)};
      }
    }
  }

  /** What the handler after the deletion makes of either. */
  lemma AfterDeleteHarmless(s: State, p: string, mid: State, s': State)
    requires Coherent(s) && IsRouterPort(s, p) && Strangers(s, s.ports[p].network) - {p} == {}
    requires mid == s || mid == Cleanup(s, s.ports[p].network) || mid == TakenDown(s, p)
    requires CleanedUp(WithoutPort(mid, p), s.ports[p].network, s')
    ensures s' == Cleanup(WithoutPort(s, p), s.ports[p].network)
  {
    var n, stored := s.ports[p].network, WithoutPort(s, p);
    SetsWithout(s, p, n);
    if mid == Cleanup(s, n) {
      CleanupCommutes(s, n, p);
      CleanedSets(stored, n);
      LookupFindsUplink(Cleanup(stored, n), n, s');
      NothingToClean(Cleanup(stored, n), n);
    } else if mid == s {
      LookupFindsUplink(stored, n, s');
    } else {
      OwnPortTakenDown(s, p);
      OwnPortSets(s, p, n);
      LookupFindsUplink(WithoutPort(mid, p), n, s');
    }
  }

  lemma OwnPortSets(s: State, p: string, n: string)
    requires Findable(s) && p in s.ports
    ensures Findable(WithoutPort(TakenDown(s, p), p))
    ensures Strangers(WithoutPort(TakenDown(s, p), p), n) == Strangers(s, n) - {p}
  {
    assert WithoutPort(TakenDown(s, p), p).ports == WithoutPort(s, p).ports;
  }

  lemma CleanedSets(s: State, n: string)
    requires Findable(s)
    ensures Findable(Cleanup(s, n)) && SharedOn(Cleanup(s, n), n) == {}
    ensures Strangers(Cleanup(s, n), n) == Strangers(s, n)
  {
  }

  /** A harmless removal does what is meant, whatever the lookup returns. */
  lemma HarmlessIsMeant(s: State, e: Event, mid: State, s': State)
    requires Coherent(s) && e.Remove? && IsRouterPort(s, e.port) && !Harmful(s, e) && Removal(s, e, mid, s')
    ensures s' == Meant(s, e)
  {
    var n := s.ports[e.port].network;
    assert e.port in PortsOn(s, n);
    LastPort(PortsOn(s, n), e.port);
    SetsWithout(s, e.port, n);
    if PortsOn(s, n) == {e.port} {
      if e.via != AfterDelete {
        PrecommitHarmless(s, e.port, mid);
      }
      if e.via == Precommit {
        CleanupCommutes(s, n, e.port);
        OwnPortTakenDown(s, e.port);
        if mid == TakenDown(s, e.port) && !HasUplink(s, n) {
          NothingToClean(WithoutPort(s, e.port), n);
        }
      } else {
        NoPortsAfter(s, e.port, mid);
        AfterDeleteHarmless(s, e.port, mid, s');
      }
    } else {
      assert PortsOn(s, n) - {e.port} != {};
    }
  }

  lemma NoPortsAfter(s: State, p: string, mid: State)
    requires IsRouterPort(s, p) && PortsOn(s, s.ports[p].network) == {p}
    requires mid.ports.Keys <= s.ports.Keys && forall q :: q in mid.ports ==> mid.ports[q] == s.ports[q]
    ensures PortsOn(WithoutPort(mid, p), s.ports[p].network) == {}
  {
    var n := s.ports[p].network;
    assert forall q :: q in PortsOn(WithoutPort(mid, p), n) ==> q in PortsOn(s, n) && q != p;
  }

  /** Some result of cleaning up always exists. */
  lemma SomeCleanup(s: State, n: string) returns (s': State)
    ensures CleanedUp(s, n, s')
    ensures s'.ports.Keys <= s.ports.Keys
  {
    if p :| p in Matches(s, n) {
      s' := TakenDown(s, p);
    } else {
      s' := s;
    }
  }

  /** A harmful removal can go wrong. */
  lemma HarmfulCanStray(s: State, e: Event) returns (mid: State, s': State)
    requires Coherent(s) && Harmful(s, e)
    ensures Removal(s, e, mid, s') && s' != Meant(s, e)
  {
    var n, stored := s.ports[e.port].network, WithoutPort(s, e.port);
    LastPort(PortsOn(s, n), e.port);
    SetsWithout(s, e.port, n);
    if Strangers(s, n) - {e.port} == {} {
      assert e.port in Matches(s, n);
      mid := TakenDown(s, e.port);
      s' := WithoutPort(mid, e.port);
      var u :| u in SharedOn(s, n);
      assert u in s'.ports && u !in Meant(s, e).ports;
    } else {
      var q :| q in Strangers(s, n) - {e.port};
      assert q in Matches(s, n) && q in Matches(stored, n) && q in Meant(s, e).ports;
      if e.via == AfterDelete {
        mid, s' := s, TakenDown(stored, q);
      } else {
        mid := TakenDown(s, q);
        s' := WithoutPort(mid, e.port);
        if e.via == Both {
          NoPortsAfter(s, e.port, mid);
          s' := SomeCleanup(s', n);
        }
      }
      assert q !in s'.ports;
    }
  }

  /** Whatever the lookup returns, removing a router port does exactly what is meant if and only if it is harmless. */
  lemma RemovalAsMeantIff(s: State, e: Event)
    requires Coherent(s) && e.Remove? && IsRouterPort(s, e.port)
    ensures (forall s' :: Step(s, e, s') ==> s' == Meant(s, e)) <==> !Harmful(s, e)
  {
    if Harmful(s, e) {
      var mid, s' := HarmfulCanStray(s, e);
      assert Step(s, e, s');
    } else {
      forall s' | Step(s, e, s') ensures s' == Meant(s, e) {
        var mid :| Removal(s, e, mid, s');
        HarmlessIsMeant(s, e, mid, s');
      }
    }
  }

  // ----- when an uplink can outlive its router ports

  /** The cleanups of this removal can all be spent on strangers. */
  predicate Diverted(s: State, e: Event)
    requires e.Remove? && IsRouterPort(s, e.port)
  {
    var strangers := Strangers(s, s.ports[e.port].network);
    match e.via
    case Precommit => strangers != {}
    case AfterDelete => strangers - {e.port} != {}
    case Both => exists q :: q in strangers && strangers - {q, e.port} != {}
  }

  lemma FoundIsStranger(s: State, n: string, u: string, p: string)
    requires Findable(s) && u in SharedOn(s, n) && p in Matches(s, n) && p != u
    ensures p in Strangers(s, n)
  {
  }

  /** A cleanup that leaves the uplink took a stranger. */
  lemma SpentOnStranger(s: State, n: string, u: string, s': State) returns (p: string)
    requires Findable(s) && u in SharedOn(s, n) && CleanedUp(s, n, s') && u in s'.ports
    ensures p in Strangers(s, n) && s' == TakenDown(s, p)
  {
    assert u in Matches(s, n);
    p :| p in Matches(s, n) && s' == TakenDown(s, p);
    FoundIsStranger(s, n, u, p);
  }

  /** t is s with some ports missing. */
  predicate PartOf(t: State, s: State) {
    t.ports.Keys <= s.ports.Keys && forall p :: p in t.ports ==> t.ports[p] == s.ports[p]
  }

  lemma PartSets(t: State, s: State, n: string)
    requires PartOf(t, s)
    ensures SharedOn(t, n) <= SharedOn(s, n) && Strangers(t, n) <= Strangers(s, n)
    ensures Findable(s) ==> Findable(t)
  {
    if Findable(s) {
      forall p | IsShared(t, p) ensures IsShared(s, p) && PREFIX <= t.ports[p].name {
      }
    }
  }

  lemma CleanedUpIsPart(s: State, n: string, s': State)
    requires CleanedUp(s, n, s')
    ensures PartOf(s', s)
  {
  }

  lemma StaysAfterOne(s: State, n: string, q: string)
    requires q in Strangers(s, n) && HasUplink(s, n)
    ensures CleanedUp(s, n, TakenDown(s, q)) && HasUplink(TakenDown(s, q), n)
    ensures Strangers(TakenDown(s, q), n) == Strangers(s, n) - {q}
  {
    var u :| u in SharedOn(s, n);
    assert q in Matches(s, n);
    assert u in SharedOn(TakenDown(s, q), n);
  }

  lemma StaysIfDiverted(s: State, e: Event) returns (mid: State, s': State)
    requires e.Remove? && IsRouterPort(s, e.port) && Diverted(s, e) && PortsOn(s, s.ports[e.port].network) == {e.port}
    requires HasUplink(s, s.ports[e.port].network)
    ensures Removal(s, e, mid, s') && HasUplink(s', s.ports[e.port].network)
  {
    var n := s.ports[e.port].network;
    LastPort(PortsOn(s, n), e.port);
    match e.via {
      case Precommit =>
        var q :| q in Strangers(s, n);
        StaysAfterOne(s, n, q);
        mid := TakenDown(s, q);
        StillThere(s, mid, e.port, n);
        s' := WithoutPort(mid, e.port);
      case AfterDelete =>
        mid := s;
        s' := StaysAfterDelete(s, mid, e.port);
      case Both =>
        var q :| q in Strangers(s, n) && Strangers(s, n) - {q, e.port} != {};
        StaysAfterOne(s, n, q);
        mid := TakenDown(s, q);
        assert Strangers(s, n) - {q, e.port} == Strangers(mid, n) - {e.port};
        s' := StaysAfterDelete(s, mid, e.port);
    }
  }

  lemma StaysAfterDelete(s: State, mid: State, p: string) returns (s': State)
    requires IsRouterPort(s, p) && PortsOn(s, s.ports[p].network) == {p} && PartOf(mid, s)
    requires HasUplink(mid, s.ports[p].network) && Strangers(mid, s.ports[p].network) - {p} != {}
    ensures OnAfterDelete(WithoutPort(mid, p), s.ports[p].network, s') && HasUplink(s', s.ports[p].network)
  {
    var n, stored := s.ports[p].network, WithoutPort(mid, p);
    NoPortsAfter(s, p, mid);
    SetsWithout(mid, p, n);
    StillThere(s, mid, p, n);
    var r :| r in Strangers(stored, n);
    StaysAfterOne(stored, n, r);
    s' := TakenDown(stored, r);
  }

  lemma StillThere(s: State, mid: State, p: string, n: string)
    requires IsRouterPort(s, p) && PartOf(mid, s) && HasUplink(mid, n)
    ensures HasUplink(WithoutPort(mid, p), n)
  {
    var u :| u in SharedOn(mid, n);
    assert u in SharedOn(WithoutPort(mid, p), n);
  }

  lemma DivertedIfStays(s: State, e: Event, mid: State, s': State)
    requires Findable(s) && e.Remove? && IsRouterPort(s, e.port) && Removal(s, e, mid, s')
    requires PortsOn(s, s.ports[e.port].network) == {e.port} && HasUplink(s', s.ports[e.port].network)
    ensures Diverted(s, e)
  {
    var n, stored := s.ports[e.port].network, WithoutPort(mid, e.port);
    LastPort(PortsOn(s, n), e.port);
    if e.via != AfterDelete {
      CleanedUpIsPart(s, n, mid);
    }
    NoPortsAfter(s, e.port, mid);
    if e.via != Precommit {
      CleanedUpIsPart(stored, n, s');
    }
    var u :| u in SharedOn(s', n);
    PartSets(stored, s, n);
    PartSets(s', s, n);
    if e.via == AfterDelete {
      var r := SpentOnStranger(stored, n, u, s');
    } else {
      var q := SpentOnStranger(s, n, u, mid);
      if e.via == Both {
        PartSets(s', stored, n);
        var r := SpentOnStranger(stored, n, u, s');
        assert r in Strangers(s, n) - {q, e.port};
      }
    }
  }

  /** After the last router port is gone, its uplink can still be there if and only if the cleanups can all be
      spent on other ports with the prefix. */
  lemma UplinkCanStayIff(s: State, e: Event)
    requires Coherent(s) && e.Remove? && IsRouterPort(s, e.port)
    requires PortsOn(s, s.ports[e.port].network) == {e.port} && HasUplink(s, s.ports[e.port].network)
    ensures (exists s' :: Step(s, e, s') && HasUplink(s', s.ports[e.port].network)) <==> Diverted(s, e)
  {
    if Diverted(s, e) {
      var mid, s' := StaysIfDiverted(s, e);
      assert Step(s, e, s');
    }
    if s' :| Step(s, e, s') && HasUplink(s', s.ports[e.port].network) {
      var mid :| Removal(s, e, mid, s');
      DivertedIfStays(s, e, mid, s');
    }
  }

  // ----- what harmless steps keep

  /** The same shared ports and the same parts of the uplinks. */
  ghost predicate SameUplinks(s: State, s': State) {
    && s'.subports == s.subports && s'.localnets == s.localnets
    && (forall p :: IsShared(s', p) <==> IsShared(s, p))
    && (forall p :: IsShared(s, p) ==> s'.ports[p] == s.ports[p])
  }

  lemma SameUplinksCoherent(s: State, s': State)
    requires SameUplinks(s, s')
    ensures Coherent(s) ==> Coherent(s')
    ensures forall n :: SharedOn(s', n) == SharedOn(s, n)
  {
    forall n ensures SharedOn(s', n) == SharedOn(s, n) {
      forall p ensures p in SharedOn(s', n) <==> p in SharedOn(s, n) {
        assert IsShared(s', p) <==> IsShared(s, p);
      }
    }
    if Coherent(s) {
      assert SharedPorts(s') == SharedPorts(s);
      LocalnetsAlike(s, s');
    }
  }

  lemma LocalnetsAlike(s: State, s': State)
    requires SameUplinks(s, s')
    ensures LocalnetsOf(s') == LocalnetsOf(s)
  {
    forall l ensures l in LocalnetsOf(s') <==> l in LocalnetsOf(s) {
      if l in LocalnetsOf(s') {
        var p :| p in s'.ports && IsShared(s', p) && l == (s'.ports[p].network, s'.ports[p].name);
        assert IsShared(s, p);
      }
      if l in LocalnetsOf(s) {
        var p :| p in s.ports && IsShared(s, p) && l == (s.ports[p].network, s.ports[p].name);
        assert IsShared(s', p);
      }
    }
  }

  predicate Builds(s: State, e: Event)
    requires e.Add?
  {
    |PortsOn(s, e.network)| <= 1 && !e.flavored
  }

  lemma CreateSets(s: State, e: Event, n: string)
    requires e.Add? && e.sharedId !in s.ports
    ensures PortsOn(CreateUplink(s, e), n) == PortsOn(s, n)
    ensures SharedOn(CreateUplink(s, e), n) ==
            if n == e.network && Builds(s, e) then SharedOn(s, n) + {e.sharedId} else SharedOn(s, n)
  {
  }

  lemma CreateCoherent(s: State, e: Event)
    requires Coherent(s) && e.Add? && e.sharedId !in s.ports && (Builds(s, e) ==> SharedOn(s, e.network) == {})
    ensures Coherent(CreateUplink(s, e))
  {
    var s' := CreateUplink(s, e);
    if Builds(s, e) {
      forall p | IsShared(s, p) ensures s.ports[p].network != e.network {
        assert p !in SharedOn(s, e.network);
      }
      assert PREFIX <= PREFIX + e.segment;
      CreateFindable(s, s', e.sharedId);
      LocalnetsMore(s, s', e.sharedId);
      assert SharedPorts(s') == SharedPorts(s) + {e.sharedId};
    }
  }

  lemma CreateFindable(s: State, s': State, u: string)
    requires Findable(s) && u in s'.ports && s'.ports == s.ports[u := s'.ports[u]] && PREFIX <= s'.ports[u].name
    requires forall p :: IsShared(s, p) ==> s.ports[p].network != s'.ports[u].network
    ensures Findable(s')
  {
    assert forall p :: p != u && IsShared(s', p) ==> IsShared(s, p) && s'.ports[p] == s.ports[p];
  }

  lemma LocalnetsMore(s: State, s': State, u: string)
    requires u !in s.ports && u in s'.ports && s'.ports == s.ports[u := s'.ports[u]] && IsShared(s', u)
    ensures LocalnetsOf(s') == LocalnetsOf(s) + {(s'.ports[u].network, s'.ports[u].name)}
  {
    forall l | l in LocalnetsOf(s) ensures l in LocalnetsOf(s') {
      var p :| p in s.ports && IsShared(s, p) && l == (s.ports[p].network, s.ports[p].name);
      assert IsShared(s', p) && s'.ports[p] == s.ports[p];
    }
    forall l | l in LocalnetsOf(s') ensures l in LocalnetsOf(s) || l == (s'.ports[u].network, s'.ports[u].name) {
      var p :| p in s'.ports && IsShared(s', p) && l == (s'.ports[p].network, s'.ports[p].name);
      assert p != u ==> IsShared(s, p);
    }
  }

  lemma PortsAfterAdd(s: State, p: string, port: Port)
    requires p !in s.ports && port.kind.RouterPort?
    ensures SameUplinks(s, WithPort(s, p, port))
    ensures PortsOn(WithPort(s, p, port), port.network) == PortsOn(s, port.network) + {p}
    ensures |PortsOn(WithPort(s, p, port), port.network)| == |PortsOn(s, port.network)| + 1
    ensures forall n :: n != port.network ==> PortsOn(WithPort(s, p, port), n) == PortsOn(s, n)
  {
    var s' := WithPort(s, p, port);
    assert forall q :: IsShared(s', q) <==> IsShared(s, q);
    assert PortsOn(s', port.network) == PortsOn(s, port.network) + {p};
  }

  lemma AddStep(s: State, e: Event, s': State)
    requires UplinksOk(s) && e.Add? && FreshIds(s, e) && Step(s, e, s')
    ensures UplinksOk(s')
    ensures forall n :: HasUplink(s', n) <==>
              if n == e.network && PortsOn(s, n) == {} then !e.flavored else HasUplink(s, n)
    ensures forall n :: PortsOn(s', n) == if n == e.network then PortsOn(s, n) + {e.port} else PortsOn(s, n)
    ensures e.port in s'.ports && s'.ports[e.port] == Port(e.network, e.name, RouterPort(e.flavored))
    ensures if PortsOn(s, e.network) == {} && !e.flavored
            then && s'.ports == s.ports[e.port := s'.ports[e.port]][e.sharedId := s'.ports[e.sharedId]]
                 && s'.ports[e.sharedId] == Port(e.network, "uplink-" + e.segment, Shared)
                 && s'.subports == s.subports + {e.sharedId}
                 && s'.localnets == s.localnets + {(e.network, "uplink-" + e.segment)}
            else && s'.ports == s.ports[e.port := s'.ports[e.port]]
                 && s'.subports == s.subports && s'.localnets == s.localnets
  {
    var port := Port(e.network, e.name, RouterPort(e.flavored));
    var mid := WithPort(s, e.port, port);
    PortsAfterAdd(s, e.port, port);
    SameUplinksCoherent(s, mid);
    assert |PortsOn(s, e.network)| == 0 <==> PortsOn(s, e.network) == {};
    CreateCoherent(mid, e);
    forall n
      ensures PortsOn(s', n) == PortsOn(mid, n)
      ensures SharedOn(s', n) ==
              if n == e.network && Builds(mid, e) then SharedOn(mid, n) + {e.sharedId} else SharedOn(mid, n)
    {
      CreateSets(mid, e, n);
    }
  }

  lemma CleanupCoherent(s: State, n: string)
    requires Coherent(s)
    ensures Coherent(Cleanup(s, n)) && forall m :: PortsOn(Cleanup(s, n), m) == PortsOn(s, m)
    ensures forall m :: SharedOn(Cleanup(s, n), m) == if m == n then {} else SharedOn(s, m)
  {
    var s' := Cleanup(s, n);
    assert forall p :: IsShared(s', p) <==> IsShared(s, p) && s.ports[p].network != n;
    assert s'.subports == SharedPorts(s');
    LocalnetsFewer(s, n);
  }

  lemma LocalnetsFewer(s: State, n: string)
    requires Coherent(s)
    ensures Cleanup(s, n).localnets == LocalnetsOf(Cleanup(s, n))
  {
    var s' := Cleanup(s, n);
    forall l | l in s'.localnets ensures l in LocalnetsOf(s') {
      var p :| p in s.ports && IsShared(s, p) && l == (s.ports[p].network, s.ports[p].name);
      assert p !in SharedOn(s, n);
      assert IsShared(s', p) && s'.ports[p] == s.ports[p];
    }
    forall l | l in LocalnetsOf(s') ensures l in s'.localnets {
      var p :| p in s'.ports && IsShared(s', p) && l == (s'.ports[p].network, s'.ports[p].name);
      assert IsShared(s, p) && l in LocalnetsOf(s) && l.0 != n;
    }
  }

  /** A removal that does what is meant takes the uplink with the last port, and only then. */
  lemma RemoveStep(s: State, e: Event)
    requires UplinksOk(s) && e.Remove? && IsRouterPort(s, e.port)
    ensures UplinksOk(Meant(s, e))
    ensures var n := s.ports[e.port].network;
            && (forall m :: HasUplink(Meant(s, e), m) <==> HasUplink(s, m) && !(m == n && PortsOn(s, n) == {e.port}))
            && (forall m :: PortsOn(Meant(s, e), m) == if m == n then PortsOn(s, n) - {e.port} else PortsOn(s, m))
  {
    var n, stored := s.ports[e.port].network, WithoutPort(s, e.port);
    assert e.port in PortsOn(s, n);
    LastPort(PortsOn(s, n), e.port);
    assert forall p :: IsShared(stored, p) <==> IsShared(s, p);
    SameUplinksCoherent(s, stored);
    forall m ensures PortsOn(stored, m) == if m == n then PortsOn(s, n) - {e.port} else PortsOn(s, m) {
      SetsWithout(s, e.port, m);
    }
    CleanupCoherent(stored, n);
  }

  /** Other ports and new names do not touch router ports or uplinks. */
  lemma OtherStep(s: State, e: Event, s': State)
    requires UplinksOk(s) && !e.Add? && !e.Remove? && FreshIds(s, e) && Step(s, e, s')
    ensures UplinksOk(s')
    ensures forall n :: PortsOn(s', n) == PortsOn(s, n) && SharedOn(s', n) == SharedOn(s, n)
  {
    assert SameUplinks(s, s');
    SameUplinksCoherent(s, s');
    forall n ensures PortsOn(s', n) == PortsOn(s, n) {
      forall p ensures p in PortsOn(s', n) <==> p in PortsOn(s, n) {
      }
    }
  }

  // ----- runs

  datatype Run = Run(states: seq<State>, events: seq<Event>)

  ghost predicate StepAt(run: Run, i: nat)
    requires i < |run.events| && i + 1 < |run.states|
  {
    FreshIds(run.states[i], run.events[i]) && Step(run.states[i], run.events[i], run.states[i + 1])
  }

  ghost predicate IsRun(run: Run) {
    && |run.states| == |run.events| + 1 && run.states[0] == EMPTY
    && forall i :: 0 <= i < |run.events| ==> StepAt(run, i)
  }

  /** No removal up to state j is harmful, which can be seen before each. */
  ghost predicate Harmless(run: Run, j: nat)
    requires j <= |run.events| < |run.states|
  {
    forall i :: 0 <= i < j ==> !Harmful(run.states[i], run.events[i])
  }

  /** Whether the router port that opened the network's current spell of routing was flavored; none while no
      router port is there. */
  ghost function Opener(run: Run, n: string, j: nat): Option<bool>
    requires j <= |run.events| < |run.states|
  {
    if j == 0 || PortsOn(run.states[j], n) == {} then None
    else if Opener(run, n, j - 1).None? && run.events[j - 1].Add? then Some(run.events[j - 1].flavored)
    else Opener(run, n, j - 1)
  }

  /** In every run of harmless removals a network has an uplink exactly while it has router ports the first of which
      belonged to an unflavored router, never more than one, and always complete. */
  lemma {:induction false} RunKeepsUplinks(run: Run, n: string, j: nat)
    requires IsRun(run) && j <= |run.events| && Harmless(run, j)
    ensures UplinksOk(run.states[j])
    ensures HasUplink(run.states[j], n) <==> Opener(run, n, j) == Some(false)
    ensures Opener(run, n, j).None? <==> PortsOn(run.states[j], n) == {}
  {
    if j > 0 {
      RunKeepsUplinks(run, n, j - 1);
      var s, e, s' := run.states[j - 1], run.events[j - 1], run.states[j];
      assert StepAt(run, j - 1) && !Harmful(s, e);
      if e.Add? {
        AddStep(s, e, s');
      } else if !e.Remove? {
        OtherStep(s, e, s');
      } else if IsRouterPort(s, e.port) {
        var mid :| Removal(s, e, mid, s');
        HarmlessIsMeant(s, e, mid, s');
        RemoveStep(s, e);
      }
    }
  }

  /** In particular if no port but the shared ones ever has a name with the prefix. */
  lemma NoStrangersNoHarm(run: Run, j: nat)
    requires IsRun(run) && j <= |run.events|
    requires forall i, n :: 0 <= i < j ==> Strangers(run.states[i], n) == {}
    ensures Harmless(run, j)
  {
  }

  // ----- a run that goes wrong

  const TENANT := Port("n", "uplink-vm", Other)
  const ROUTER := Port("n", "", RouterPort(false))
  const UPLINK := Port("n", "uplink-seg", Shared)

  const STRAY_RUN := Run(
    [EMPTY,
     State(map["vm" := TENANT], {}, {}),
     State(map["vm" := TENANT, "r" := ROUTER, "u" := UPLINK], {"u"}, {("n", "uplink-seg")}),
     State(map["u" := UPLINK], {"u"}, {("n", "uplink-seg")}),
     State(map["u" := UPLINK, "q" := ROUTER, "w" := UPLINK], {"u", "w"}, {("n", "uplink-seg")})],
    [AddOther("vm", "n", "uplink-vm"),
     Add("r", "n", "", false, "seg", "u"),
     Remove("r", AfterDelete),
     Add("q", "n", "", false, "seg", "w")])

  /** A tenant's port named "uplink-vm" is deleted in place of the uplink, which stays on a network without router
      ports, and the next router port builds a second one. */
  lemma TenantPortDiverts()
    ensures IsRun(STRAY_RUN) && PortsOn(STRAY_RUN.states[3], "n") == {} && HasUplink(STRAY_RUN.states[3], "n")
    ensures "vm" in STRAY_RUN.states[2].ports && "vm" !in STRAY_RUN.states[3].ports
    ensures SharedOn(STRAY_RUN.states[4], "n") == {"u", "w"}
  {
    StrayRunSteps();
    assert "u" in SharedOn(STRAY_RUN.states[3], "n");
  }

  lemma StrayRunSteps()
    ensures IsRun(STRAY_RUN)
  {
    FirstUplink();
    TenantPortFound();
    SecondUplink();
    assert StepAt(STRAY_RUN, 0) && StepAt(STRAY_RUN, 1) && StepAt(STRAY_RUN, 2) && StepAt(STRAY_RUN, 3);
  }

  lemma FirstUplink()
    ensures Step(STRAY_RUN.states[1], STRAY_RUN.events[1], STRAY_RUN.states[2])
  {
    var mid := WithPort(STRAY_RUN.states[1], "r", ROUTER);
    assert PortsOn(mid, "n") == {"r"};
    assert PREFIX + "seg" == "uplink-seg";
    assert CreateUplink(mid, STRAY_RUN.events[1]).ports == STRAY_RUN.states[2].ports;
  }

  lemma SecondUplink()
    ensures Step(STRAY_RUN.states[3], STRAY_RUN.events[3], STRAY_RUN.states[4])
  {
    var mid := WithPort(STRAY_RUN.states[3], "q", ROUTER);
    assert PortsOn(mid, "n") == {"q"};
    assert PREFIX + "seg" == "uplink-seg";
    assert CreateUplink(mid, STRAY_RUN.events[3]).ports == STRAY_RUN.states[4].ports;
  }

  lemma TenantPortFound()
    ensures Step(STRAY_RUN.states[2], STRAY_RUN.events[2], STRAY_RUN.states[3])
  {
    var s, e, s' := STRAY_RUN.states[2], STRAY_RUN.events[2], STRAY_RUN.states[3];
    var stored := WithoutPort(s, "r");
    assert PREFIX <= "uplink-vm";
    assert PortsOn(stored, "n") == {} && "vm" in Matches(stored, "n");
    assert TakenDown(stored, "vm").ports == s'.ports;
    assert Removal(s, e, s, s');
  }

  // ----- the driver

  class Driver {
    var ports: map<string, Port>
    var subports: set<string>
    var localnets: set<(string, string)>

    constructor ()
      ensures Now() == EMPTY
    {
      ports, subports, localnets := map[], {}, {};
    }

    function Now(): State
      reads this
    {
      State(ports, subports, localnets)
    }

    method IsOnlyRouterPortOnNetwork(n: string) returns (only: bool)
      ensures only <==> |PortsOn(Now(), n)| <= 1
    {
      var others := set p | p in ports && ports[p].network == n && ports[p].kind.RouterPort?;
      assert others == PortsOn(Now(), n);
      only := !(|others| > 1);
    }

    method CreatePortPostcommit(e: Event)
      requires e.Add?
      modifies this
      ensures Now() == CreateUplink(old(Now()), e)
    {
      var only := IsOnlyRouterPortOnNetwork(e.network);
      if !only || e.flavored {
        return;
      }
      ports := ports[e.sharedId := Port(e.network, PREFIX + e.segment, Shared)];
      subports := subports + {e.sharedId};
      localnets := localnets + {(e.network, PREFIX + e.segment)};
    }

    /** The first port of the network whose name has the prefix; in which order they come is not known. */
    method FetchSharedRouterPort(n: string) returns (p: Option<string>)
      ensures p.Some? ==> p.value in Matches(Now(), n)
      ensures p.None? ==> Matches(Now(), n) == {}
    {
      if q :| q in ports && ports[q].network == n && PREFIX <= ports[q].name {
        return Some(q);
      }
      return None;
    }

    method DoUplinkCleanup(n: string)
      modifies this
      ensures CleanedUp(old(Now()), n, Now())
    {
      var found := FetchSharedRouterPort(n);
      if found.None? {
        return;
      }
      var port := found.value;
      var segment := ports[port].name[|PREFIX|..];
      assert PREFIX + segment == ports[port].name;
      subports := subports - {port};
      localnets := localnets - {(n, PREFIX + segment)};
      ports := ports - {port};
      assert Now() == TakenDown(old(Now()), port);
    }

    method HandleRouterInterfaceRemoval(n: string)
      modifies this
      ensures OnPrecommitDelete(old(Now()), n, Now())
    {
      var only := IsOnlyRouterPortOnNetwork(n);
      if !only {
        return;
      }
      DoUplinkCleanup(n);
    }

    method HandleRouterInterfaceAfterDelete(n: string)
      modifies this
      ensures OnAfterDelete(old(Now()), n, Now())
    {
      if p :| p in ports && ports[p].network == n && ports[p].kind.RouterPort? {
        assert p in PortsOn(Now(), n);
        return;
      }
      assert PortsOn(Now(), n) == {};
      DoUplinkCleanup(n);
    }

    /** Neutron stores the port and then calls the driver. */
    method AddRouterPort(e: Event)
      requires e.Add?
      modifies this
      ensures Step(old(Now()), e, Now())
    {
      ports := ports[e.port := Port(e.network, e.name, RouterPort(e.flavored))];
      CreatePortPostcommit(e);
    }

    /** Neutron deletes the port between the two events, of which either or both are published. */
    method RemoveRouterPort(e: Event)
      requires e.Remove?
      modifies this
      ensures Step(old(Now()), e, Now())
    {
      if e.port !in ports || !ports[e.port].kind.RouterPort? {
        return;
      }
      var n := ports[e.port].network;
      if e.via != AfterDelete {
        HandleRouterInterfaceRemoval(n);
      }
      ghost var mid := Now();
      ports := ports - {e.port};
      assert Now() == WithoutPort(mid, e.port);
      if e.via != Precommit {
        HandleRouterInterfaceAfterDelete(n);
      }
      assert Removal(old(Now()), e, mid, Now());
    }
  }
}
