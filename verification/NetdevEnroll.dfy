/** The enrolment of a netdev node: plan, step out of the pool, apply, put back. */
module NetdevEnroll {
  import opened Common
  import opened PyText
  import opened NetdevPlan
  import opened NetdevApply

  datatype ProvisionState = Enroll | Manageable | Available | Busy(state: string)

  /** Resource class, driver_info and extra count as one opaque metadata value. */
  datatype Node = Node(driver: string, state: ProvisionState, metadata: int)

  datatype Outcome = Done | BadRequest(fault: Fault) | WrongDriver | NotReenrollable | MacConflict | Interrupted

  function RequestOf(entries: seq<Entry>): (reqs: seq<NetdevPort>)
    requires Acceptable(entries)
    ensures |reqs| == |entries| && forall i :: 0 <= i < |entries| ==> reqs[i] == PortOf(entries[i])
  {
    seq(|entries|, i requires 0 <= i < |entries| => PortOf(entries[i]))
  }

  /** What enrolling the entries means for a node with these ports. */
  function JobOf(base: seq<Port>, name: string, physnet: string, entries: seq<Entry>): Job
    requires Acceptable(entries)
  {
    Job(base, name, physnet, RequestOf(entries))
  }

  predicate Empty(plan: Plan) {
    plan.Update? && plan.patch == EMPTY_PATCH
  }

  ghost predicate NothingPending(job: Job) {
    Plannable(job) && forall q :: 0 <= q < |job.reqs| ==> Empty(PlanAt(job, q))
  }

  /** All ports as before, or all ports as requested. */
  ghost predicate AllOrNothing(job: Job, ports: seq<Port>) {
    ports == job.base || (Plannable(job) && Converged(job, ports))
  }

  lemma ApplyAny(job: Job, n: nat, ports: seq<Port>, plan: Plan)
    requires 0 < n && AppliedUpTo(job, n - 1, ports) && n <= |job.reqs| && plan == PlanAt(job, n - 1)
    ensures AppliedUpTo(job, n, ApplyPlan(ports, job.node, job.physnet, job.reqs[n - 1], plan))
  {
    assert UpTo(n) == UpTo(n - 1) + {n - 1};
    if plan.Update? {
      ApplyUpdate(job, UpTo(n - 1), ports, n - 1);
    } else {
      ApplyCreate(job, UpTo(n - 1), ports, n - 1);
    }
  }

  /** The ports after the plans of the first n requests. */
  ghost function PortsAfter(job: Job, n: nat): seq<Port>
    requires Plannable(job) && n <= |job.reqs|
  {
    if n == 0 then job.base
    else ApplyPlan(PortsAfter(job, n - 1), job.node, job.physnet, job.reqs[n - 1], PlanAt(job, n - 1))
  }

  lemma {:induction false} PortsAfterApplied(job: Job, n: nat)
    requires Plannable(job) && n <= |job.reqs|
    ensures AppliedUpTo(job, n, PortsAfter(job, n))
  {
    if n == 0 {
      AppliedStart(job);
    } else {
      PortsAfterApplied(job, n - 1);
      ApplyAny(job, n, PortsAfter(job, n - 1), PlanAt(job, n - 1));
    }
  }

  /** A plan with an empty patch changes nothing. */
  lemma EmptyPatchIsIdentity(ports: seq<Port>, node: string, physnet: string, req: NetdevPort, i: nat)
    ensures ApplyPlan(ports, node, physnet, req, Update(i, EMPTY_PATCH)) == ports
  {
  }

  /** The ports after the first n plans. */
  function AfterPlans(ports: seq<Port>, name: string, physnet: string, reqs: seq<NetdevPort>, plans: seq<Plan>, n: nat)
    : seq<Port>
    requires n <= |plans| == |reqs|
  {
    if n == 0 then ports
    else ApplyPlan(AfterPlans(ports, name, physnet, reqs, plans, n - 1), name, physnet, reqs[n - 1], plans[n - 1])
  }

  lemma {:induction false} AfterPlansAre(job: Job, plans: seq<Plan>, n: nat)
    requires Plannable(job) && n <= |plans| && plans == PlansOf(job)
    ensures AfterPlans(job.base, job.node, job.physnet, job.reqs, plans, n) == PortsAfter(job, n)
  {
    if n > 0 {
      AfterPlansAre(job, plans, n - 1);
    }
  }

  lemma AfterPlansApplied(job: Job, plans: seq<Plan>, n: nat)
    requires Plannable(job) && n <= |plans| && plans == PlansOf(job)
    ensures AppliedUpTo(job, n, AfterPlans(job.base, job.node, job.physnet, job.reqs, plans, n))
  {
    AfterPlansAre(job, plans, n);
    PortsAfterApplied(job, n);
  }

  /** If no plan changes anything, the ports stay as they are. */
  lemma {:induction false} NothingPendingStays(ports: seq<Port>, name: string, physnet: string, reqs: seq<NetdevPort>,
                                               plans: seq<Plan>, n: nat)
    requires n <= |plans| == |reqs| && forall q :: 0 <= q < |plans| ==> Empty(plans[q])
    ensures AfterPlans(ports, name, physnet, reqs, plans, n) == ports
  {
    if n > 0 {
      NothingPendingStays(ports, name, physnet, reqs, plans, n - 1);
      EmptyPatchIsIdentity(ports, name, physnet, reqs[n - 1], plans[n - 1].index);
    }
  }

  lemma NothingPendingConverged(job: Job)
    requires NothingPending(job)
    ensures Converged(job, job.base)
  {
    NothingPendingStays(job.base, job.node, job.physnet, job.reqs, PlansOf(job), |job.reqs|);
    AfterPlansApplied(job, PlansOf(job), |job.reqs|);
    AllAppliedConverges(job, job.base);
  }

  /** After a converged enrolment the same request plans no port change at all. */
  lemma SecondEnrolmentPlansNothing(job: Job, ports: seq<Port>)
    requires Plannable(job) && Converged(job, ports)
    ensures NothingPending(Job(ports, job.node, job.physnet, job.reqs))
  {
    var again := Job(ports, job.node, job.physnet, job.reqs);
    forall q | 0 <= q < |job.reqs|
      ensures PlanPort(ports, job.node, job.physnet, job.reqs[q]).Some?
              && Empty(PlanPort(ports, job.node, job.physnet, job.reqs[q]).value)
    {
      assert MetBy(job, q, ports);
      MatchingNeedsNothing(job, q, ports, LastByName(ports, NameAt(job, q)).value);
    }
  }

  // ----- the outcome in terms of the entries' fields

  /** The switch_id that the entry gives. */
  predicate GivenId(fields: map<string, Json>, v: string) {
    "switch_id" in fields && fields["switch_id"] == Str(v) && v != ""
  }

  /** A real switch_id was recorded for the port of this name. */
  ghost predicate RecordedId(before: seq<Port>, name: string, v: string) {
    exists j: nat :: LastNamed(before, name, j) && before[j].link.Some? && RealId(before[j].link.value, v)
  }

  predicate RealId(link: map<string, string>, v: string) {
    "switch_id" in link && link["switch_id"] == v && v != "" && v != "00:00:00:00:00:00"
  }

  /** The port has the MAC of the entry up to case, the physical network, the category, and a link to the switch and
      interface of the entry; its switch_id is the one given, or else the real one recorded, or else the placeholder. */
  ghost predicate Fits(before: seq<Port>, p: Port, name: string, physnet: string, fields: map<string, Json>) {
    && "mac" in fields && fields["mac"].Str?
    && p.name == Some(name) && p.physnet == Some(physnet) && p.category == Some("network")
    && p.address.Some? && SameUpToCase(p.address.value, fields["mac"].s)
    && p.link.Some? && LinkFits(before, p.link.value, name, fields)
  }

  ghost predicate LinkFits(before: seq<Port>, link: map<string, string>, name: string, fields: map<string, Json>) {
    && "switch" in fields && fields["switch"].Str? && "intf" in fields && fields["intf"].Str?
    && "switch_info" in link && link["switch_info"] == fields["switch"].s
    && "port_id" in link && link["port_id"] == fields["intf"].s
    && "switch_id" in link
    && (forall v :: GivenId(fields, v) ==> link["switch_id"] == v)
    && ((forall v :: !GivenId(fields, v)) ==>
          && (forall v :: RecordedId(before, name, v) ==> link["switch_id"] == v)
          && ((forall v :: !RecordedId(before, name, v)) ==> link["switch_id"] == "00:00:00:00:00:00"))
  }

  predicate Labelled(e: Entry, name: string, full: string) {
    e.Object? && "label" in e.fields && e.fields["label"].Str? && full == name + ":" + e.fields["label"].s
  }

  /** Every entry has its port under the name of the node and its label, ports under other names are as before, and
      no other ports are new. */
  ghost predicate EnrolledPlainly(before: seq<Port>, ports: seq<Port>, name: string, physnet: string,
                                  entries: seq<Entry>)
  {
    && |ports| >= |before|
    && (forall q :: 0 <= q < |entries| ==> EntryServed(before, ports, name, physnet, entries[q]))
    && (forall i :: 0 <= i < |before| && !Asked(before[i], name, entries) ==> ports[i] == before[i])
    && (forall i :: |before| <= i < |ports| ==> Asked(ports[i], name, entries))
  }

  ghost predicate EntryServed(before: seq<Port>, ports: seq<Port>, name: string, physnet: string, e: Entry) {
    exists full: string, i: nat ::
      Labelled(e, name, full) && LastNamed(ports, full, i) && Fits(before, ports[i], full, physnet, e.fields)
  }

  ghost predicate Asked(p: Port, name: string, entries: seq<Entry>) {
    p.name.Some? && exists q :: 0 <= q < |entries| && Labelled(entries[q], name, p.name.value)
  }

  lemma PriorIdMeaning(job: Job, q: nat, v: string)
    requires Plannable(job) && q < |job.reqs|
    ensures RecordedId(job.base, NameAt(job, q), v) <==>
            PriorSwitchId(job, q) == Some(v) && v != "" && v != "00:00:00:00:00:00"
  {
    var existing := LastByName(job.base, NameAt(job, q));
    if existing.Some? {
      assert LastNamed(job.base, NameAt(job, q), existing.value);
      assert forall j: nat :: LastNamed(job.base, NameAt(job, q), j) ==> j == existing.value;
    }
  }

  lemma LinkFitsRequest(job: Job, q: nat, link: map<string, string>, e: Entry)
    requires Plannable(job) && q < |job.reqs| && e.Object? && Usable(e) && job.reqs[q] == PortOf(e)
    requires LinkMatches(link, WantedLink(job.reqs[q], PriorSwitchId(job, q)))
    ensures LinkFits(job.base, link, NameAt(job, q), e.fields)
  {
    UsableFields(e, 0);
    var wanted := WantedLink(job.reqs[q], PriorSwitchId(job, q));
    assert "switch_info" in wanted && "port_id" in wanted && "switch_id" in wanted;
    assert Field(link, "switch_info") == Some(wanted["switch_info"]);
    assert Field(link, "port_id") == Some(wanted["port_id"]);
    assert Field(link, "switch_id") == Some(wanted["switch_id"]);
    forall v ensures RecordedId(job.base, NameAt(job, q), v) <==>
                     PriorSwitchId(job, q) == Some(v) && v != "" && v != "00:00:00:00:00:00"
    {
      PriorIdMeaning(job, q, v);
    }
    if forall v :: !GivenId(e.fields, v) {
      assert job.reqs[q].switchId.None? || job.reqs[q].switchId.value == "" by {
        if job.reqs[q].switchId.Some? {
          assert !GivenId(e.fields, job.reqs[q].switchId.value);
        }
      }
    }
  }

  lemma MatchingFits(job: Job, q: nat, p: Port, e: Entry)
    requires Plannable(job) && q < |job.reqs| && e.Object? && Usable(e) && job.reqs[q] == PortOf(e)
    requires Matches(job, q, p)
    ensures Fits(job.base, p, NameAt(job, q), job.physnet, e.fields) && Labelled(e, job.node, NameAt(job, q))
  {
    UsableFields(e, 0);
    LinkFitsRequest(job, q, LinkOf(p), e);
    MacMeaning(p, e.fields["mac"].s);
    assert job.reqs[q].mac != "";
  }

  /** Some entry asks for a MAC that another port has. */
  ghost predicate SomeConflict(ports: seq<Port>, name: string, entries: seq<Entry>) {
    exists q, full :: 0 <= q < |entries| && Labelled(entries[q], name, full) && "mac" in entries[q].fields
                      && entries[q].fields["mac"].Str? && Conflicts(ports, full, entries[q].fields["mac"].s)
  }

  lemma PlannableMeaning(job: Job, entries: seq<Entry>)
    requires Acceptable(entries) && job.reqs == RequestOf(entries) && GoodRequest(job.reqs)
    ensures Plannable(job) <==> !SomeConflict(job.base, job.node, entries)
  {
    forall q | 0 <= q < |entries|
      ensures PlanPort(job.base, job.node, job.physnet, job.reqs[q]) == None <==>
              Conflicts(job.base, NameAt(job, q), job.reqs[q].mac)
      ensures Labelled(entries[q], job.node, NameAt(job, q)) && "mac" in entries[q].fields
      ensures entries[q].fields["mac"] == Str(job.reqs[q].mac)
    {
      UsableFields(entries[q], 0);
      ConflictIff(job.base, job.node, job.physnet, job.reqs[q]);
    }
  }

  lemma NamesAsked(job: Job, entries: seq<Entry>, p: Port)
    requires Acceptable(entries) && job.reqs == RequestOf(entries)
    ensures Requested(job, p) <==> Asked(p, job.node, entries)
  {
    forall q | 0 <= q < |entries| ensures Labelled(entries[q], job.node, NameAt(job, q)) {
      UsableFields(entries[q], 0);
    }
  }

  /** Converged means that every entry is served and nothing else was touched. */
  lemma ConvergedPlainly(job: Job, entries: seq<Entry>, ports: seq<Port>)
    requires Acceptable(entries) && job.reqs == RequestOf(entries) && Plannable(job) && Converged(job, ports)
    ensures EnrolledPlainly(job.base, ports, job.node, job.physnet, entries)
  {
    forall q | 0 <= q < |entries| ensures EntryServed(job.base, ports, job.node, job.physnet, entries[q]) {
      assert MetBy(job, q, ports);
      var i := LastByName(ports, NameAt(job, q)).value;
      UsableFields(entries[q], 0);
      MatchingFits(job, q, ports[i], entries[q]);
      assert LastNamed(ports, NameAt(job, q), i);
    }
    forall p ensures Requested(job, p) <==> Asked(p, job.node, entries) {
      NamesAsked(job, entries, p);
    }
  }

  // ----- how many calls an enrolment needs

  /** How many of the first n plans change something. */
  function PendingUpTo(plans: seq<Plan>, n: nat): (k: nat)
    requires n <= |plans|
    ensures k <= n
  {
    if n == 0 then 0 else PendingUpTo(plans, n - 1) + if Empty(plans[n - 1]) then 0 else 1
  }

  function Pending(plans: seq<Plan>): nat {
    PendingUpTo(plans, |plans|)
  }

  lemma {:induction false} PendingPrefix(plans: seq<Plan>, more: seq<Plan>, n: nat)
    requires n <= |plans| <= |more| && forall q :: 0 <= q < n ==> more[q] == plans[q]
    ensures PendingUpTo(more, n) == PendingUpTo(plans, n)
  {
    if n > 0 {
      PendingPrefix(plans, more, n - 1);
    }
  }

  lemma PendingSnoc(plans: seq<Plan>, plan: Plan)
    ensures Pending(plans + [plan]) == Pending(plans) + if Empty(plan) then 0 else 1
  {
    PendingPrefix(plans, plans + [plan], |plans|);
  }

  lemma {:induction false} MorePending(plans: seq<Plan>, q: nat, n: nat)
    requires q < n <= |plans| && !Empty(plans[q])
    ensures PendingUpTo(plans, q) < PendingUpTo(plans, n)
  {
    if q < n - 1 {
      MorePending(plans, q, n - 1);
    }
  }

  lemma {:induction false} PendingZero(plans: seq<Plan>, n: nat)
    requires n <= |plans|
    ensures PendingUpTo(plans, n) == 0 <==> forall q :: 0 <= q < n ==> Empty(plans[q])
  {
    if n > 0 {
      PendingZero(plans, n - 1);
    }
  }

  ghost function PlansOf(job: Job): (plans: seq<Plan>)
    requires Plannable(job)
    ensures |plans| == |job.reqs| && forall q :: 0 <= q < |plans| ==> plans[q] == PlanAt(job, q)
  {
    seq(|job.reqs|, q requires 0 <= q < |job.reqs| => PlanAt(job, q))
  }

  /** The calls that bring a node back to available. */
  function CallsToPool(s: ProvisionState): nat {
    if s == Enroll then 2 else 1
  }

  /** The calls of a reconciliation: out of the pool, metadata, ports, and back. */
  function CallsFor(plans: seq<Plan>, node: Node, metadata: int): nat {
    (if node.metadata != metadata then 1 else 0) +
    if node.state != Available then Pending(plans) + CallsToPool(node.state)
    else if Pending(plans) == 0 then 0 else 2 + Pending(plans)
  }

  /** The calls of an enrolment; a node that does not exist is created first, with its metadata. */
  ghost function EnrolmentCalls(job: Job, node: Option<Node>, metadata: int): nat
    requires Plannable(job)
  {
    if node.None? then 1 + CallsFor(PlansOf(job), Node("netdev", Enroll, metadata), metadata)
    else CallsFor(PlansOf(job), node.value, metadata)
  }

  lemma FewCalls(job: Job, node: Option<Node>, metadata: int)
    requires Plannable(job)
    ensures EnrolmentCalls(job, node, metadata) <= |job.reqs| + 3
  {
  }

  lemma NothingPendingCounts(job: Job)
    requires Plannable(job)
    ensures NothingPending(job) <==> Pending(PlansOf(job)) == 0
  {
    PendingZero(PlansOf(job), |job.reqs|);
  }

  lemma NoPortsNoConflict(job: Job)
    requires GoodRequest(job.reqs) && job.base == []
    ensures Plannable(job)
  {
  }

  ghost predicate PlannedUpTo(job: Job, n: nat, plans: seq<Plan>)
    requires n <= |job.reqs|
  {
    |plans| == n && forall r :: 0 <= r < n ==> PlanPort(job.base, job.node, job.physnet, job.reqs[r]) == Some(plans[r])
  }

  lemma PlannedAll(job: Job, plans: seq<Plan>)
    requires GoodRequest(job.reqs) && PlannedUpTo(job, |job.reqs|, plans)
    ensures Plannable(job) && plans == PlansOf(job)
  {
  }

  lemma NotPlannable(job: Job, q: nat)
    requires q < |job.reqs| && PlanPort(job.base, job.node, job.physnet, job.reqs[q]).None?
    ensures !Plannable(job)
  {
  }

  lemma PlannedMore(job: Job, q: nat, plans: seq<Plan>, plan: Plan)
    requires q < |job.reqs| && PlannedUpTo(job, q, plans)
    requires PlanPort(job.base, job.node, job.physnet, job.reqs[q]) == Some(plan)
    ensures PlannedUpTo(job, q + 1, plans + [plan])
  {
  }

  method PlanAll(job: Job) returns (ok: bool, plans: seq<Plan>, pending: bool)
    requires GoodRequest(job.reqs)
    ensures ok <==> Plannable(job)
    ensures ok ==> plans == PlansOf(job) && (pending <==> !NothingPending(job))
  {
    plans, pending := [], false;
    for q := 0 to |job.reqs|
      invariant PlannedUpTo(job, q, plans)
      invariant pending <==> Pending(plans) > 0
    {
      var plan := PlanPort(job.base, job.node, job.physnet, job.reqs[q]);
      if plan.None? {
        NotPlannable(job, q);
        return false, [], false;
      }
      PlannedMore(job, q, plans, plan.value);
      PendingSnoc(plans, plan.value);
      plans := plans + [plan.value];
      pending := pending || !Empty(plan.value);
    }
    PlannedAll(job, plans);
    NothingPendingCounts(job);
    return true, plans, pending;
  }

  /** The node as Ironic holds it, with a bound on the calls that succeed before the run is cut short. */
  class Ironic {
    var node: Option<Node>
    var ports: seq<Port>
    var transitions: nat
    var allowed: nat

    constructor (node: Option<Node>, ports: seq<Port>, allowed: nat)
      ensures this.node == node && this.ports == ports && this.allowed == allowed && transitions == 0
    {
      this.node, this.ports, this.allowed, transitions := node, ports, allowed, 0;
    }

    predicate Valid()
      reads this
    {
      node.None? ==> ports == []
    }

    predicate InPool()
      reads this
    {
      node.Some? && node.value.state == Available
    }

    method CreateNode(metadata: int) returns (ok: bool)
      requires node.None?
      modifies this`node, this`allowed
      ensures ok <==> old(allowed) >= 1
      ensures ok ==> node == Some(Node("netdev", Enroll, metadata)) && allowed == old(allowed) - 1
      ensures !ok ==> node == old(node) && allowed == 0
    {
      if allowed == 0 { return false; }
      allowed := allowed - 1;
      node := Some(Node("netdev", Enroll, metadata));
      return true;
    }

    method Transition(to: ProvisionState) returns (ok: bool)
      requires node.Some?
      modifies this`node, this`transitions, this`allowed
      ensures ok <==> old(allowed) >= 1
      ensures ok ==> node == Some(old(node).value.(state := to)) && transitions == old(transitions) + 1
                     && allowed == old(allowed) - 1
      ensures !ok ==> node == old(node) && transitions == old(transitions) && allowed == 0
    {
      if allowed == 0 { return false; }
      allowed := allowed - 1;
      node := Some(node.value.(state := to));
      transitions := transitions + 1;
      return true;
    }

    /** Patches the metadata only if it differs. */
    method UpdateNodeMetadata(metadata: int) returns (ok: bool)
      requires node.Some?
      modifies this`node, this`allowed
      ensures var cost := if old(node).value.metadata == metadata then 0 else 1;
              (ok <==> old(allowed) >= cost) && (ok ==> allowed == old(allowed) - cost)
      ensures ok ==> node == Some(old(node).value.(metadata := metadata))
      ensures !ok ==> node == old(node)
    {
      if node.value.metadata == metadata { return true; }
      if allowed == 0 { return false; }
      allowed := allowed - 1;
      node := Some(node.value.(metadata := metadata));
      return true;
    }

    /** Ports are only created or updated outside the pool. */
    method ApplyPortPlan(name: string, physnet: string, req: NetdevPort, plan: Plan) returns (ok: bool)
      requires node.Some? && !InPool()
      modifies this`ports, this`allowed
      ensures (ok <==> old(allowed) >= 1) && (ok ==> allowed == old(allowed) - 1)
      ensures ports == if ok then ApplyPlan(old(ports), name, physnet, req, plan) else old(ports)
    {
      if allowed == 0 { return false; }
      allowed := allowed - 1;
      match plan {
        case Create =>
          ports := ports + [NewPort(name, physnet, req)];
        case Update(i, patch) =>
          if i < |ports| {
            ports := ports[i := Patched(ports[i], patch)];
          }
      }
      return true;
    }

    /** One planned port, skipped when it needs nothing. */
    method ApplyOne(req: NetdevPort, plan: Plan, name: string, physnet: string) returns (ok: bool)
      requires node.Some? && !InPool()
      modifies this`ports, this`allowed
      ensures var cost := if Empty(plan) then 0 else 1;
              (ok <==> old(allowed) >= cost) && (ok ==> allowed == old(allowed) - cost)
      ensures ports == if ok then ApplyPlan(old(ports), name, physnet, req, plan) else old(ports)
    {
      if Empty(plan) {
        EmptyPatchIsIdentity(ports, name, physnet, req, plan.index);
        return true;
      }
      ok := ApplyPortPlan(name, physnet, req, plan);
    }

    /** All plans in order, or the first n of them when the calls stop succeeding. */
    method ApplyAll(name: string, physnet: string, reqs: seq<NetdevPort>, plans: seq<Plan>)
      returns (ok: bool, ghost n: nat)
      requires |plans| == |reqs| && node.Some? && !InPool()
      modifies this`ports, this`allowed
      ensures (ok <==> old(allowed) >= Pending(plans)) && (ok ==> allowed == old(allowed) - Pending(plans))
      ensures n <= |plans| && ports == AfterPlans(old(ports), name, physnet, reqs, plans, n) && (ok ==> n == |plans|)
    {
      n := 0;
      for q := 0 to |plans|
        invariant n == q && ports == AfterPlans(old(ports), name, physnet, reqs, plans, n)
        invariant allowed == old(allowed) - PendingUpTo(plans, q)
      {
        ok := ApplyOne(reqs[q], plans[q], name, physnet);
        if !ok {
          MorePending(plans, q, |plans|);
          return;
        }
        n := n + 1;
      }
      ok := true;
    }

    /** The planned ports, and then back into the pool. */
    method ApplyAndReturn(ghost job: Job, name: string, physnet: string, reqs: seq<NetdevPort>, plans: seq<Plan>)
      returns (ok: bool)
      requires job == Job(ports, name, physnet, reqs) && Plannable(job) && plans == PlansOf(job)
      requires node.Some? && (node.value.state == Enroll || node.value.state == Manageable)
      modifies this
      ensures var cost := Pending(plans) + CallsToPool(old(node).value.state);
              (ok <==> old(allowed) >= cost) && (ok ==> allowed == old(allowed) - cost)
      ensures node.Some? && node.value.driver == old(node).value.driver
              && node.value.metadata == old(node).value.metadata
      ensures ok <==> InPool()
      ensures ok ==> Converged(job, ports)
      ensures DistinctMacs(job.base) ==> DistinctMacs(ports)
    {
      ghost var n;
      ok, n := ApplyAll(name, physnet, reqs, plans);
      AfterPlansApplied(job, plans, n);
      if DistinctMacs(job.base) {
        MacsStayDistinct(job, UpTo(n), ports);
      }
      if !ok { return; }
      AllAppliedConverges(job, ports);
      ok := MakeAvailable();
    }

    /** Everything after the node was found or created. */
    method Reconcile(name: string, physnet: string, reqs: seq<NetdevPort>, metadata: int, created: bool)
      returns (out: Outcome)
      requires node.Some? && !node.value.state.Busy? && GoodRequest(reqs)
      requires created ==> node.value.metadata == metadata
      modifies this
      ensures node.Some?
      ensures out in {Done, MacConflict, Interrupted}
      ensures out == Done ==> node.value.metadata == metadata && node.value.driver == old(node).value.driver
      ensures var job := Job(old(ports), name, physnet, reqs);
              && (out == MacConflict <==> !Plannable(job))
              && (out == MacConflict ==> node == old(node) && ports == old(ports) && transitions == old(transitions))
              && (Plannable(job) ==>
                    var calls := CallsFor(PlansOf(job), old(node).value, metadata);
                    && (out == Interrupted <==> old(allowed) < calls)
                    && (out == Done ==> allowed == old(allowed) - calls))
              && (out == Done ==> InPool() && Converged(job, ports))
              && (InPool() ==> AllOrNothing(job, ports))
              && (DistinctMacs(old(ports)) ==> DistinctMacs(ports))
              && (old(InPool()) && NothingPending(job) ==>
                    ports == old(ports) && InPool() && transitions == old(transitions))
    {
      ghost var job := Job(ports, name, physnet, reqs);
      var planned, plans, pending := PlanAll(Job(ports, name, physnet, reqs));
      if !planned {
        return MacConflict;
      }
      NothingPendingCounts(job);
      if pending && node.value.state == Available {
        var ok := Transition(Manageable);
        if !ok { return Interrupted; }
      }
      if !created {
        var ok := UpdateNodeMetadata(metadata);
        if !ok { return Interrupted; }
      }
      if !pending && node.value.state == Available {
        NothingPendingConverged(job);
        return Done;
      }
      var ok := ApplyAndReturn(job, name, physnet, reqs, plans);
      return if ok then Done else Interrupted;
    }

    method MakeAvailable() returns (ok: bool)
      requires node.Some? && (node.value.state == Enroll || node.value.state == Manageable)
      modifies this`node, this`transitions, this`allowed
      ensures node.Some? && node.value.driver == old(node).value.driver
              && node.value.metadata == old(node).value.metadata
      ensures ok <==> InPool()
      ensures ok <==> old(allowed) >= CallsToPool(old(node).value.state)
      ensures ok ==> allowed == old(allowed) - CallsToPool(old(node).value.state)
    {
      if node.value.state == Enroll {
        ok := Transition(Manageable);
        if !ok { return; }
      }
      ok := Transition(Available);
    }

    /** Enrols the node, or stops at whatever point the calls stop succeeding. */
    method EnrollNetdev(name: string, physnet: string, entries: seq<Entry>, metadata: int) returns (out: Outcome)
      requires Valid()
      modifies this
      ensures Valid()
      ensures out.BadRequest? <==> !Acceptable(entries)
      ensures out == WrongDriver <==> Acceptable(entries) && old(node).Some? && old(node).value.driver != "netdev"
      ensures out == Done ==> node.Some? && node.value.metadata == metadata && node.value.driver == "netdev"
      ensures out == Interrupted ==> old(allowed) < |entries| + 3
      ensures out == Done ==> EnrolledPlainly(old(ports), ports, name, physnet, entries)
      ensures Acceptable(entries) && InPool() ==>
                ports == old(ports) || EnrolledPlainly(old(ports), ports, name, physnet, entries)
      ensures out == MacConflict <==>
                && Acceptable(entries) && SomeConflict(old(ports), name, entries)
                && old(node).Some? && old(node).value.driver == "netdev" && !old(node).value.state.Busy?
      ensures out == NotReenrollable <==>
                Acceptable(entries) && old(node).Some? && old(node).value.driver == "netdev"
                  && old(node).value.state.Busy?
      ensures !out.Done? && !out.Interrupted? ==>
                node == old(node) && ports == old(ports) && transitions == old(transitions)
      ensures Acceptable(entries) ==>
                var job := JobOf(old(ports), name, physnet, entries);
                && (out == MacConflict ==> !Plannable(job))
                && (out in {Done, Interrupted} ==> Plannable(job))
                && (out in {Done, Interrupted} ==>
                      var calls := EnrolmentCalls(job, old(node), metadata);
                      && (out == Interrupted <==> old(allowed) < calls)
                      && (out == Done ==> allowed == old(allowed) - calls))
                && (out == Done ==> InPool() && Plannable(job) && Converged(job, ports))
                && (InPool() ==> AllOrNothing(job, ports))
                && (DistinctMacs(old(ports)) ==> DistinctMacs(ports))
                && (old(InPool()) && NothingPending(job) ==>
                      ports == old(ports) && InPool() && transitions == old(transitions))
    {
      var request := BuildNetdevPorts(entries);
      if request.Err? {
        return BadRequest(request.error);
      }
      assert request.value == RequestOf(entries);
      ghost var job := JobOf(ports, name, physnet, entries);
      if Plannable(job) {
        FewCalls(job, node, metadata);
      }
      var created := node.None?;
      if created {
        NoPortsNoConflict(job);
        var ok := CreateNode(metadata);
        if !ok { return Interrupted; }
      } else if node.value.driver != "netdev" {
        return WrongDriver;
      } else if node.value.state.Busy? {
        return NotReenrollable;
      }
      PlannableMeaning(job, entries);
      out := Reconcile(name, physnet, request.value, metadata, created);
      if Plannable(job) && Converged(job, ports) {
        ConvergedPlainly(job, entries, ports);
      }
    }

    /** An enrolment that finds everything in place makes no call. */
    method EnrollSettled(name: string, physnet: string, entries: seq<Entry>, metadata: int) returns (out: Outcome)
      requires Acceptable(entries) && InPool() && node.value.driver == "netdev" && node.value.metadata == metadata
      requires NothingPending(JobOf(ports, name, physnet, entries))
      modifies this
      ensures out == Done && InPool()
      ensures ports == old(ports) && transitions == old(transitions) && allowed == old(allowed)
    {
      NothingPendingCounts(JobOf(ports, name, physnet, entries));
      out := EnrollNetdev(name, physnet, entries, metadata);
    }

    /** Enrolling again with the same request needs no call at all: it is done, and no port and no provision
        state changes. */
    method EnrollTwice(name: string, physnet: string, entries: seq<Entry>, metadata: int)
      returns (first: Outcome, second: Outcome, portsBetween: seq<Port>, transitionsBetween: nat, allowedBetween: nat)
      requires Valid()
      modifies this
      ensures Valid()
      ensures first == Done ==>
                && second == Done && InPool()
                && ports == portsBetween && transitions == transitionsBetween && allowed == allowedBetween
                && Acceptable(entries) && Plannable(JobOf(old(ports), name, physnet, entries))
                && Converged(JobOf(old(ports), name, physnet, entries), portsBetween)
    {
      ghost var before := ports;
      first := EnrollNetdev(name, physnet, entries, metadata);
      portsBetween, transitionsBetween, allowedBetween := ports, transitions, allowed;
      if first != Done {
        second := first;
        return;
      }
      SecondEnrolmentPlansNothing(JobOf(before, name, physnet, entries), ports);
      second := EnrollSettled(name, physnet, entries, metadata);
    }
  }
}
