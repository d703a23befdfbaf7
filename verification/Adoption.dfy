/** Adopting bare metal appliances for routers: a provision-state protocol with rollback. */
module Adoption {
  import opened Common

  type RouterId = string

  datatype ProvisionState = Available | Manageable | Adopting | AdoptFailed | Active | Elsewhere(state: string)

  datatype Node = Node(driver: string, resourceClass: string, maintenance: bool, state: ProvisionState,
                       lessee: Option<string>, instance: Option<RouterId>, instanceName: Option<string>)

  /** What Ironic does with the calls of one adoption: each may fail before or after taking effect, and the
      adopt verb may leave the node in any of the states it passes through. */
  datatype Fate =
    | ManageFails(tookEffect: bool)
    | StampFails(tookEffect: bool)
    | AdoptCallFails(reached: ProvisionState)
    | WaitFails(reached: ProvisionState)
    | Succeeds

  datatype Outcome = Adopted(index: nat) | Failed | NoNodeAvailable | Misconfigured

  predicate AdoptReach(s: ProvisionState) {
    s == Adopting || s == AdoptFailed || s == Active
  }

  predicate PossibleFate(f: Fate) {
    && (f.AdoptCallFails? ==> f.reached == Manageable || AdoptReach(f.reached))
    && (f.WaitFails? ==> AdoptReach(f.reached))
  }

  predicate Unstamped(n: Node) {
    n.lessee.None? && n.instance.None? && n.instanceName.None?
  }

  function Stamped(n: Node, router: RouterId, project: Option<string>, name: string): Node {
    n.(lessee := project, instance := Some(router), instanceName := Some(name))
  }

  function Cleared(n: Node): Node {
    n.(lessee := None, instance := None, instanceName := None)
  }

  /** Undeploying tears down the instance but not the lease. */
  function Undeployed(n: Node): Node {
    n.(state := Available, instance := None, instanceName := None)
  }

  /** The node an adoption with this fate leaves behind, before any rollback. */
  function AfterCalls(n: Node, router: RouterId, project: Option<string>, name: string, fate: Fate): Node {
    var managed := n.(state := Manageable);
    var stamped := Stamped(managed, router, project, name);
    match fate
    case ManageFails(e) => if e then managed else n
    case StampFails(e) => if e then stamped else managed
    case AdoptCallFails(s) => stamped.(state := s)
    case WaitFails(s) => stamped.(state := s)
    case Succeeds => stamped.(state := Active)
  }

  /** Recovery by the state found: clear, clear and provide, undeploy and clear, or leave alone. */
  function Returned(n: Node): Node {
    match n.state
    case Available => Cleared(n)
    case Manageable => Cleared(n).(state := Available)
    case Active => Cleared(Undeployed(n))
    case _ => n
  }

  predicate Eligible(n: Node, resourceClass: string) {
    n.driver == "netdev" && n.resourceClass == resourceClass && n.state == Available && !n.maintenance
  }

  // ----- the protocol as a step function over the node list

  datatype Event =
    | CreateRouter(router: RouterId, resourceClass: Option<string>, project: Option<string>, name: Option<string>,
                   fate: Fate)
    | DeleteRouter(router: RouterId)
    | Settle(index: nat, adopted: bool)

  /** The first node that satisfies a test. */
  function FirstEligible(nodes: seq<Node>, resourceClass: string): (i: Option<nat>)
    ensures i.Some? ==> i.value < |nodes| && Eligible(nodes[i.value], resourceClass)
                        && forall k :: 0 <= k < i.value ==> !Eligible(nodes[k], resourceClass)
    ensures i.None? ==> forall k :: 0 <= k < |nodes| ==> !Eligible(nodes[k], resourceClass)
  {
    if nodes == [] then None
    else if Eligible(nodes[0], resourceClass) then Some(0)
    else match FirstEligible(nodes[1..], resourceClass)
         case None => assert forall k :: 1 <= k < |nodes| ==> nodes[k] == nodes[1..][k - 1]; None
         case Some(k) => assert forall j :: 1 <= j < |nodes| ==> nodes[j] == nodes[1..][j - 1]; Some(k + 1)
  }

  function FirstBound(nodes: seq<Node>, router: RouterId): (i: Option<nat>)
    ensures i.Some? ==> i.value < |nodes| && nodes[i.value].instance == Some(router)
    ensures i.None? ==> forall k :: 0 <= k < |nodes| ==> nodes[k].instance != Some(router)
  {
    if nodes == [] then None
    else if nodes[0].instance == Some(router) then Some(0)
    else match FirstBound(nodes[1..], router)
         case None => assert forall k :: 1 <= k < |nodes| ==> nodes[k] == nodes[1..][k - 1]; None
         case Some(k) => Some(k + 1)
  }

  function RouterName(e: Event): string
    requires e.CreateRouter?
  {
    if e.name.Some? && e.name.value != "" then e.name.value else e.router
  }

  function AdoptNode(n: Node, e: Event): Node
    requires e.CreateRouter?
  {
    var left := AfterCalls(n, e.router, e.project, RouterName(e), e.fate);
    if e.fate.Succeeds? then left else Returned(left)
  }

  function CreateStep(nodes: seq<Node>, e: Event): (seq<Node>, Outcome)
    requires e.CreateRouter?
  {
    if e.resourceClass.None? then (nodes, Misconfigured)
    else match FirstEligible(nodes, e.resourceClass.value)
         case None => (nodes, NoNodeAvailable)
         case Some(i) => (nodes[i := AdoptNode(nodes[i], e)], if e.fate.Succeeds? then Adopted(i) else Failed)
  }

  function DeleteStep(nodes: seq<Node>, router: RouterId): seq<Node> {
    match FirstBound(nodes, router)
    case None => nodes
    case Some(i) => nodes[i := Returned(nodes[i])]
  }

  /** An adoption left behind goes on in Ironic. */
  function SettleStep(nodes: seq<Node>, i: nat, adopted: bool): seq<Node> {
    if i < |nodes| && nodes[i].state == Adopting
    then nodes[i := nodes[i].(state := if adopted then Active else AdoptFailed)] else nodes
  }

  function Step(nodes: seq<Node>, e: Event): seq<Node> {
    match e
    case CreateRouter(_, _, _, _, _) => CreateStep(nodes, e).0
    case DeleteRouter(r) => DeleteStep(nodes, r)
    case Settle(i, adopted) => SettleStep(nodes, i, adopted)
  }

  function Run(nodes: seq<Node>, events: seq<Event>): seq<Node> {
    if events == [] then nodes else Step(Run(nodes, events[..|events| - 1]), events[|events| - 1])
  }

  // ----- what every step keeps

  /** An available node is free, and an active or adopting one is stamped for a router. */
  predicate NodeOk(n: Node) {
    && (n.state == Available ==> Unstamped(n))
    && (n.state == Active || n.state == Adopting ==> n.instance.Some?)
  }

  predicate SameHardware(n: Node, m: Node) {
    n.driver == m.driver && n.resourceClass == m.resourceClass && n.maintenance == m.maintenance
  }

  /** Untouched, or in one of the states the protocol ends in. */
  predicate Accounted(n: Node, base: Node) {
    SameHardware(n, base) && (n == base || n.state == Available || AdoptReach(n.state))
  }

  ghost predicate PoolOk(nodes: seq<Node>, used: set<RouterId>) {
    && (forall i :: 0 <= i < |nodes| ==> NodeOk(nodes[i]))
    && (forall i :: 0 <= i < |nodes| && nodes[i].instance.Some? ==> nodes[i].instance.value in used)
    && (forall i, j :: 0 <= i < j < |nodes| && nodes[i].instance.Some? ==> nodes[i].instance != nodes[j].instance)
  }

  ghost predicate PoolFrom(base: seq<Node>, nodes: seq<Node>) {
    |nodes| == |base| && forall i :: 0 <= i < |nodes| ==> Accounted(nodes[i], base[i])
  }

  /** A failed adoption gives the node back exactly as it was, unless Ironic was caught in mid adoption;
      a successful one makes it active and stamped. */
  lemma AdoptNodeResult(n: Node, e: Event)
    requires e.CreateRouter? && PossibleFate(e.fate) && n.state == Available && Unstamped(n)
    ensures var m := AdoptNode(n, e);
            && SameHardware(m, n)
            && (m == n || (AdoptReach(m.state) && m.instance == Some(e.router)))
            && (m.state == Active <==> e.fate.Succeeds?)
            && (m == n <==>
                 !e.fate.Succeeds? && AfterCalls(n, e.router, e.project, RouterName(e), e.fate).state != Adopting
                            && AfterCalls(n, e.router, e.project, RouterName(e), e.fate).state != AdoptFailed)
  {
  }

  function Used(used: set<RouterId>, e: Event): set<RouterId> {
    if e.CreateRouter? then used + {e.router} else used
  }

  ghost predicate FreshEvent(used: set<RouterId>, e: Event) {
    e.CreateRouter? ==> e.router !in used && PossibleFate(e.fate)
  }

  lemma ReplaceNode(base: seq<Node>, nodes: seq<Node>, used: set<RouterId>, used': set<RouterId>, i: nat, m: Node)
    requires PoolOk(nodes, used) && PoolFrom(base, nodes) && i < |nodes| && used <= used'
    requires NodeOk(m) && SameHardware(m, nodes[i]) && (m == nodes[i] || m.state == Available || AdoptReach(m.state))
    requires m.instance.None? || m.instance == nodes[i].instance
             || (m.instance.value !in used && m.instance.value in used')
    ensures PoolOk(nodes[i := m], used') && PoolFrom(base, nodes[i := m])
  {
  }

  lemma StepKeepsPool(base: seq<Node>, nodes: seq<Node>, used: set<RouterId>, e: Event)
    requires PoolOk(nodes, used) && PoolFrom(base, nodes) && FreshEvent(used, e)
    ensures PoolOk(Step(nodes, e), Used(used, e)) && PoolFrom(base, Step(nodes, e))
  {
    match e
    case CreateRouter(_, rc, _, _, _) =>
      if rc.Some? && FirstEligible(nodes, rc.value).Some? {
        var i := FirstEligible(nodes, rc.value).value;
        AdoptNodeResult(nodes[i], e);
        ReplaceNode(base, nodes, used, Used(used, e), i, AdoptNode(nodes[i], e));
      }
    case DeleteRouter(r) =>
      if FirstBound(nodes, r).Some? {
        var i := FirstBound(nodes, r).value;
        ReplaceNode(base, nodes, used, used, i, Returned(nodes[i]));
      }
    case Settle(i, adopted) =>
      if i < |nodes| && nodes[i].state == Adopting {
        ReplaceNode(base, nodes, used, used, i, nodes[i].(state := if adopted then Active else AdoptFailed));
      }
  }

  ghost function UsedAfter(used: set<RouterId>, events: seq<Event>): set<RouterId> {
    if events == [] then used else Used(UsedAfter(used, events[..|events| - 1]), events[|events| - 1])
  }

  /** Router ids are never reused, and fates are possible ones. */
  ghost predicate FreshRun(used: set<RouterId>, events: seq<Event>) {
    events == [] || (FreshRun(used, events[..|events| - 1])
                     && FreshEvent(UsedAfter(used, events[..|events| - 1]), events[|events| - 1]))
  }

  /** Over every run, each node is free in the pool, active for one router, or left for reconciliation, and no
      two nodes carry the same router. */
  lemma {:induction false} RunKeepsPool(base: seq<Node>, used: set<RouterId>, events: seq<Event>)
    requires PoolOk(base, used) && FreshRun(used, events)
    ensures PoolOk(Run(base, events), UsedAfter(used, events)) && PoolFrom(base, Run(base, events))
  {
    if events != [] {
      var init := events[..|events| - 1];
      RunKeepsPool(base, used, init);
      StepKeepsPool(base, Run(base, init), UsedAfter(used, init), events[|events| - 1]);
    }
  }

  // ----- a successful create owns one node until its router is deleted

  predicate Owned(n: Node, router: RouterId) {
    n.state == Active && n.instance == Some(router)
  }

  /** Exactly one active node carries the router, and it is this one. */
  ghost predicate OwnedAt(nodes: seq<Node>, router: RouterId, i: nat) {
    && i < |nodes| && Owned(nodes[i], router)
    && forall k :: 0 <= k < |nodes| && k != i ==> nodes[k].instance != Some(router)
  }

  lemma StepKeepsOwner(nodes: seq<Node>, used: set<RouterId>, e: Event, router: RouterId, i: nat)
    requires PoolOk(nodes, used) && FreshEvent(used, e) && OwnedAt(nodes, router, i) && e != DeleteRouter(router)
    ensures OwnedAt(Step(nodes, e), router, i) && Step(nodes, e)[i] == nodes[i]
  {
    StepKeepsPool(nodes, nodes, used, e);
    assert router in used;
  }

  lemma CreateOwns(nodes: seq<Node>, used: set<RouterId>, e: Event)
    requires PoolOk(nodes, used) && FreshEvent(used, e) && e.CreateRouter? && CreateStep(nodes, e).1.Adopted?
    ensures OwnedAt(Step(nodes, e), e.router, CreateStep(nodes, e).1.index)
    ensures var n := nodes[CreateStep(nodes, e).1.index];
            n.driver == "netdev" && e.resourceClass == Some(n.resourceClass) && !n.maintenance && n.state == Available
  {
    forall k | 0 <= k < |nodes| ensures nodes[k].instance != Some(e.router) {
    }
  }

  /** A router whose create succeeded owns exactly that node for as long as it is not deleted. */
  lemma {:induction false} OwnerPersists(base: seq<Node>, used: set<RouterId>, before: seq<Event>, e: Event,
                                         after: seq<Event>)
    requires PoolOk(base, used) && FreshRun(used, before + [e] + after)
    requires e.CreateRouter? && CreateStep(Run(base, before), e).1.Adopted?
    requires DeleteRouter(e.router) !in after
    ensures OwnedAt(Run(base, before + [e] + after), e.router, CreateStep(Run(base, before), e).1.index)
    decreases |after|
  {
    if after == [] {
      assert before + [e] + after == before + [e];
      LastEvent(base, used, before, e);
      RunKeepsPool(base, used, before);
      CreateOwns(Run(base, before), UsedAfter(used, before), e);
    } else {
      var shorter, last := after[..|after| - 1], after[|after| - 1];
      var init := before + [e] + shorter;
      assert before + [e] + after == init + [last];
      LastEvent(base, used, init, last);
      RunKeepsPool(base, used, init);
      OwnerPersists(base, used, before, e, shorter);
      StepKeepsOwner(Run(base, init), UsedAfter(used, init), last, e.router, CreateStep(Run(base, before), e).1.index);
    }
  }

  lemma LastEvent(base: seq<Node>, used: set<RouterId>, init: seq<Event>, last: Event)
    ensures Run(base, init + [last]) == Step(Run(base, init), last)
    ensures FreshRun(used, init + [last]) <==> FreshRun(used, init) && FreshEvent(UsedAfter(used, init), last)
  {
    assert (init + [last])[..|init|] == init;
  }

  /** Deleting the router puts its node back in the pool, free, and changes no other node. */
  lemma DeleteFrees(nodes: seq<Node>, used: set<RouterId>, router: RouterId, i: nat)
    requires PoolOk(nodes, used) && OwnedAt(nodes, router, i)
    ensures var nodes' := Step(nodes, DeleteRouter(router));
            && |nodes'| == |nodes| && nodes'[i].state == Available && Unstamped(nodes'[i])
            && (forall k :: 0 <= k < |nodes| && k != i ==> nodes'[k] == nodes[k])
            && (forall k :: 0 <= k < |nodes'| ==> nodes'[k].instance != Some(router))
  {
  }

  // ----- the steps in terms of the node's fields

  /** The first free netdev node of the class. */
  predicate FirstFree(nodes: seq<Node>, resourceClass: string, i: nat) {
    i < |nodes| && Free(nodes[i], resourceClass) && forall k :: 0 <= k < i ==> !Free(nodes[k], resourceClass)
  }

  predicate Free(n: Node, resourceClass: string) {
    n.driver == "netdev" && n.resourceClass == resourceClass && n.state == Available && !n.maintenance
  }

  predicate CaughtInBetween(f: Fate) {
    (f.AdoptCallFails? || f.WaitFails?) && f.reached != Available && f.reached != Manageable && f.reached != Active
  }

  /** A router's node is active, leased to the project, and carries the id and the name of the router, or its id for
      lack of a name. A node that failed to be adopted is available without any of these, unless Ironic was caught
      in between: then it stays there with all of them. */
  ghost predicate CreatedPlainly(nodes: seq<Node>, e: Event, after: seq<Node>, out: Outcome)
    requires e.CreateRouter?
  {
    var name := if e.name == None || e.name == Some("") then e.router else e.name.value;
    match out
    case Misconfigured => e.resourceClass == None && after == nodes
    case NoNodeAvailable =>
      && e.resourceClass.Some? && after == nodes
      && forall k :: 0 <= k < |nodes| ==> !Free(nodes[k], e.resourceClass.value)
    case Adopted(i) =>
      && e.resourceClass.Some? && FirstFree(nodes, e.resourceClass.value, i) && e.fate == Succeeds
      && after == nodes[i := nodes[i].(state := Active, lessee := e.project, instance := Some(e.router),
                                       instanceName := Some(name))]
    case Failed =>
      && e.resourceClass.Some? && e.fate != Succeeds
      && exists i: nat ::
           && FirstFree(nodes, e.resourceClass.value, i)
           && after == nodes[i := if CaughtInBetween(e.fate)
                                  then nodes[i].(state := e.fate.reached, lessee := e.project,
                                                 instance := Some(e.router), instanceName := Some(name))
                                  else nodes[i].(lessee := None, instance := None, instanceName := None)]
  }

  lemma CreateMeaning(nodes: seq<Node>, e: Event)
    requires e.CreateRouter?
    ensures CreatedPlainly(nodes, e, CreateStep(nodes, e).0, CreateStep(nodes, e).1)
  {
    if e.resourceClass.Some? && FirstEligible(nodes, e.resourceClass.value).Some? {
      var i := FirstEligible(nodes, e.resourceClass.value).value;
      assert FirstFree(nodes, e.resourceClass.value, i);
    }
  }

  /** The node of a deleted router is available and carries nothing, unless it is in a state that is left alone. */
  predicate DeletedPlainly(nodes: seq<Node>, router: RouterId, after: seq<Node>, released: Option<nat>) {
    match released
    case None => after == nodes && forall k :: 0 <= k < |nodes| ==> nodes[k].instance != Some(router)
    case Some(i) =>
      && i < |nodes| && nodes[i].instance == Some(router)
      && after == nodes[i := if nodes[i].state == Available || nodes[i].state == Manageable || nodes[i].state == Active
                             then nodes[i].(state := Available, lessee := None, instance := None, instanceName := None)
                             else nodes[i]]
  }

  lemma DeleteMeaning(nodes: seq<Node>, router: RouterId)
    ensures DeletedPlainly(nodes, router, DeleteStep(nodes, router), FirstBound(nodes, router))
  {
  }

  // ----- the client

  class IronicClient {
    var nodes: seq<Node>

    constructor (nodes: seq<Node>)
      ensures this.nodes == nodes
    {
      this.nodes := nodes;
    }

    method SetState(i: nat, s: ProvisionState)
      requires i < |nodes|
      modifies this
      ensures nodes == old(nodes)[i := old(nodes)[i].(state := s)]
    {
      nodes := nodes[i := nodes[i].(state := s)];
    }

    method ClearOwnership(i: nat)
      requires i < |nodes|
      modifies this
      ensures nodes == old(nodes)[i := Cleared(old(nodes)[i])]
    {
      nodes := nodes[i := nodes[i].(lessee := None, instance := None, instanceName := None)];
    }

    method Undeploy(i: nat)
      requires i < |nodes|
      modifies this
      ensures nodes == old(nodes)[i := Undeployed(old(nodes)[i])]
    {
      nodes := nodes[i := nodes[i].(state := Available, instance := None, instanceName := None)];
    }

    method ReturnNodeToAvailable(i: nat)
      requires i < |nodes|
      modifies this
      ensures nodes == old(nodes)[i := Returned(old(nodes)[i])]
    {
      var state := nodes[i].state;
      if state == Available {
        ClearOwnership(i);
      } else if state == Manageable {
        ClearOwnership(i);
        SetState(i, Available);
      } else if state == Active {
        Undeploy(i);
        ClearOwnership(i);
      }
    }

    /** The four calls of an adoption in order, stopping at the one that fails. */
    method AdoptionCalls(i: nat, router: RouterId, project: Option<string>, name: string, fate: Fate) returns (ok: bool)
      requires i < |nodes|
      modifies this
      ensures nodes == old(nodes)[i := AfterCalls(old(nodes)[i], router, project, name, fate)]
      ensures ok <==> fate.Succeeds?
      ensures ok ==> nodes == old(nodes)[i := old(nodes)[i].(state := Active, lessee := project,
                                                             instance := Some(router), instanceName := Some(name))]
    {
      if fate.ManageFails? {
        if fate.tookEffect {
          SetState(i, Manageable);
        }
        return false;
      }
      SetState(i, Manageable);
      if fate == StampFails(false) {
        return false;
      }
      nodes := nodes[i := nodes[i].(lessee := project, instance := Some(router), instanceName := Some(name))];
      if fate.StampFails? {
        return false;
      }
      if fate.AdoptCallFails? || fate.WaitFails? {
        SetState(i, fate.reached);
        return false;
      }
      SetState(i, Active);
      return true;
    }

    method AdoptNodeForRouter(i: nat, e: Event) returns (ok: bool)
      requires i < |nodes| && e.CreateRouter?
      modifies this
      ensures nodes == old(nodes)[i := AdoptNode(old(nodes)[i], e)]
      ensures ok <==> e.fate.Succeeds?
      ensures ok ==> nodes[i].state == Active && nodes[i].lessee == e.project && nodes[i].instance == Some(e.router)
                     && nodes[i].instanceName == if e.name == None || e.name == Some("") then Some(e.router) else e.name
    {
      ok := AdoptionCalls(i, e.router, e.project, RouterName(e), e.fate);
      if !ok {
        ReturnNodeToAvailable(i);
      }
    }

    method ProcessRouterCreate(e: Event) returns (out: Outcome)
      requires e.CreateRouter?
      modifies this
      ensures (nodes, out) == CreateStep(old(nodes), e) && CreatedPlainly(old(nodes), e, nodes, out)
    {
      CreateMeaning(nodes, e);
      if e.resourceClass.None? {
        return Misconfigured;
      }
      var found := FirstEligible(nodes, e.resourceClass.value);
      if found.None? {
        return NoNodeAvailable;
      }
      var ok := AdoptNodeForRouter(found.value, e);
      return if ok then Adopted(found.value) else Failed;
    }

    method ProcessRouterDelete(router: RouterId) returns (released: Option<nat>)
      modifies this
      ensures nodes == DeleteStep(old(nodes), router)
      ensures released == FirstBound(old(nodes), router) && DeletedPlainly(old(nodes), router, nodes, released)
    {
      DeleteMeaning(nodes, router);
      released := FirstBound(nodes, router);
      if released.Some? {
        ReturnNodeToAvailable(released.value);
      }
    }
  }
}
