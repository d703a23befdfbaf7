/** Repair of OVN HA_Chassis_Groups: drop dead members, then repopulate the emptied network groups. */
module HaChassis {
  import opened Common

  datatype Group = Group(uuid: Uuid, name: string, members: seq<Uuid>, networkId: Option<string>,
                         routerId: Option<string>)

  /** The tables of the Northbound DB that the repair reads and writes. */
  datatype Nb = Nb(chassis: map<Uuid, string>, groups: seq<Group>)

  /** What does not change during a run: registered chassis, and each router's own chassis option. */
  datatype Fleet = Fleet(live: set<string>, routerChassis: map<string, Option<string>>)

  predicate Given(o: Option<string>) {
    o.Some? && o.value != ""
  }

  function Stale(chassis: map<Uuid, string>, fleet: Fleet): set<Uuid> {
    set u | u in chassis && chassis[u] !in fleet.live
  }

  function KeepOut(s: seq<Uuid>, drop: set<Uuid>): (r: seq<Uuid>)
    ensures forall u :: u in r <==> u in s && u !in drop
  {
    if s == [] then []
    else if s[0] in drop then KeepOut(s[1..], drop)
    else [s[0]] + KeepOut(s[1..], drop)
  }

  lemma KeepOutAgree(s: seq<Uuid>, a: set<Uuid>, b: set<Uuid>)
    requires forall u :: u in s ==> (u in a <==> u in b)
    ensures KeepOut(s, a) == KeepOut(s, b)
  {
  }

  lemma {:induction false} KeepOutTwice(s: seq<Uuid>, a: set<Uuid>, b: set<Uuid>)
    ensures KeepOut(KeepOut(s, a), b) == KeepOut(s, a + b)
  {
    if s != [] {
      KeepOutTwice(s[1..], a, b);
      var t := KeepOut(s[1..], a);
      if s[0] !in a {
        assert ([s[0]] + t)[1..] == t;
      }
    }
  }

  lemma KeepOutNothing(s: seq<Uuid>, a: set<Uuid>)
    requires forall u :: u in s ==> u !in a
    ensures KeepOut(s, a) == s
  {
  }

  ghost predicate DistinctGroups(groups: seq<Group>) {
    forall i, j :: 0 <= i < j < |groups| ==> groups[i].uuid != groups[j].uuid
  }

  // ----- phase 1

  datatype Removal = Removal(group: Uuid, member: Uuid)

  predicate StaleIn(g: Group, r: Removal, stale: set<Uuid>) {
    r.group == g.uuid && r.member in g.members && r.member in stale
  }

  function CleanGroup(g: Group, stale: set<Uuid>): Group {
    g.(members := KeepOut(g.members, stale))
  }

  function Clean(groups: seq<Group>, stale: set<Uuid>): (r: seq<Group>)
    ensures |r| == |groups| && forall i :: 0 <= i < |groups| ==> r[i] == CleanGroup(groups[i], stale)
  {
    seq(|groups|, i requires 0 <= i < |groups| => CleanGroup(groups[i], stale))
  }

  /** One removal per group and stale member. */
  method MapGroupsToStaleMembers(groups: seq<Group>, stale: set<Uuid>) returns (records: seq<Removal>)
    ensures forall r :: r in records <==>
              exists i :: 0 <= i < |groups| && StaleIn(groups[i], r, stale)
  {
    records := [];
    for i := 0 to |groups|
      invariant forall r :: r in records <==>
                  exists k :: 0 <= k < i && StaleIn(groups[k], r, stale)
    {
      ghost var before := records;
      var members := groups[i].members;
      for j := 0 to |members|
        invariant forall r :: r in records <==>
                    r in before || (r.group == groups[i].uuid && r.member in members[..j] && r.member in stale)
      {
        assert members[..j + 1] == members[..j] + [members[j]];
        if members[j] in stale {
          records := records + [Removal(groups[i].uuid, members[j])];
        }
      }
      assert members[..|members|] == members;
    }
  }

  ghost function Removed(records: seq<Removal>, k: nat, group: Uuid): set<Uuid>
    requires k <= |records|
  {
    if k == 0 then {}
    else Removed(records, k - 1, group) + if records[k - 1].group == group then {records[k - 1].member} else {}
  }

  lemma {:induction false} RemovedMember(records: seq<Removal>, k: nat, group: Uuid, m: Uuid)
    requires k <= |records|
    ensures m in Removed(records, k, group) <==> Removal(group, m) in records[..k]
  {
    if k > 0 {
      RemovedMember(records, k - 1, group, m);
      assert records[..k] == records[..k - 1] + [records[k - 1]];
    }
  }

  method RemoveMember(groups: seq<Group>, r: Removal) returns (after: seq<Group>)
    ensures |after| == |groups|
    ensures forall i :: 0 <= i < |groups| ==>
              after[i] == if groups[i].uuid == r.group then CleanGroup(groups[i], {r.member}) else groups[i]
  {
    after := groups;
    for i := 0 to |groups|
      invariant |after| == |groups|
      invariant forall k :: 0 <= k < i ==>
                  after[k] == if groups[k].uuid == r.group then CleanGroup(groups[k], {r.member}) else groups[k]
      invariant forall k :: i <= k < |groups| ==> after[k] == groups[k]
    {
      if groups[i].uuid == r.group {
        after := after[i := CleanGroup(groups[i], {r.member})];
      }
    }
  }

  /** The removals as one transaction leave every group with its live members only. */
  method ExecuteCleanup(groups: seq<Group>, records: seq<Removal>, ghost stale: set<Uuid>) returns (after: seq<Group>)
    requires DistinctGroups(groups)
    requires forall r :: r in records <==>
               exists i :: 0 <= i < |groups| && StaleIn(groups[i], r, stale)
    ensures after == Clean(groups, stale)
  {
    after := groups;
    forall i | 0 <= i < |groups| ensures groups[i] == CleanGroup(groups[i], {}) {
      KeepOutNothing(groups[i].members, {});
    }
    for k := 0 to |records|
      invariant CleanedSoFar(groups, records, k, after)
    {
      var next := RemoveMember(after, records[k]);
      forall i | 0 <= i < |groups| ensures next[i] == CleanGroup(groups[i], Removed(records, k + 1, groups[i].uuid)) {
        CleanStep(groups[i], records, k);
      }
      after := next;
    }
    forall i | 0 <= i < |groups| ensures after[i] == CleanGroup(groups[i], stale) {
      RemovedIsStale(groups, records, stale, i);
    }
  }

  ghost predicate CleanedSoFar(groups: seq<Group>, records: seq<Removal>, k: nat, after: seq<Group>)
    requires k <= |records|
  {
    |after| == |groups|
    && forall i :: 0 <= i < |groups| ==> after[i] == CleanGroup(groups[i], Removed(records, k, groups[i].uuid))
  }

  lemma CleanStep(g: Group, records: seq<Removal>, k: nat)
    requires k < |records|
    ensures CleanGroup(g, Removed(records, k + 1, g.uuid)) ==
            var before := CleanGroup(g, Removed(records, k, g.uuid));
            if g.uuid == records[k].group then CleanGroup(before, {records[k].member}) else before
  {
    KeepOutTwice(g.members, Removed(records, k, g.uuid), {records[k].member});
    assert Removed(records, k, g.uuid) + {} == Removed(records, k, g.uuid);
  }

  lemma RemovedIsStale(groups: seq<Group>, records: seq<Removal>, stale: set<Uuid>, i: nat)
    requires DistinctGroups(groups) && i < |groups|
    requires forall r :: r in records <==>
               exists k :: 0 <= k < |groups| && StaleIn(groups[k], r, stale)
    ensures CleanGroup(groups[i], Removed(records, |records|, groups[i].uuid)) == CleanGroup(groups[i], stale)
  {
    assert records[..|records|] == records;
    forall u | u in groups[i].members ensures u in Removed(records, |records|, groups[i].uuid) <==> u in stale {
      RemovedMember(records, |records|, groups[i].uuid, u);
      if u in stale {
        assert Removal(groups[i].uuid, u) in records;
      }
    }
    KeepOutAgree(groups[i].members, Removed(records, |records|, groups[i].uuid), stale);
  }

  // ----- phase 2: the plan

  datatype Decision =
    | NotCandidate
    | NoRouter
    | DeadChassis(chassis: string)
    | NoRouterGroup
    | Ambiguous(count: nat)
    | Repopulate(target: string)

  function LastNamed(groups: seq<Group>, name: string): (i: Option<nat>)
    ensures i.Some? ==> i.value < |groups| && groups[i.value].name == name
                        && forall k :: i.value < k < |groups| ==> groups[k].name != name
    ensures i.None? ==> forall k :: 0 <= k < |groups| ==> groups[k].name != name
  {
    if groups == [] then None
    else if groups[|groups| - 1].name == name then Some(|groups| - 1)
    else LastNamed(groups[..|groups| - 1], name)
  }

  function ChassisNames(chassis: map<Uuid, string>, members: seq<Uuid>): set<string> {
    set m | m in members && m in chassis :: chassis[m]
  }

  function RouterGroupName(routerId: string): string {
    "neutron-" + routerId
  }

  ghost function Sole(names: set<string>): string
    requires |names| == 1
    ensures names == {Sole(names)}
  {
    SoleExists(names);
    var c :| names == {c};
    c
  }

  lemma SoleExists(names: set<string>)
    requires |names| == 1
    ensures exists c :: names == {c}
  {
    var c :| c in names;
    assert |names - {c}| == 0;
    assert names == {c};
  }

  /** The chassis that the router's own group resolves to. */
  ghost function FromRouterGroup(nb: Nb, stale: set<Uuid>, routerId: string): Decision {
    var rg := LastNamed(nb.groups, RouterGroupName(routerId));
    if rg.None? then NoRouterGroup
    else
      var names := ChassisNames(nb.chassis, KeepOut(nb.groups[rg.value].members, stale));
      if |names| == 1 then Repopulate(Sole(names)) else Ambiguous(|names|)
  }

  function RouterOption(fleet: Fleet, routerId: string): Option<string> {
    if routerId in fleet.routerChassis then fleet.routerChassis[routerId] else None
  }

  predicate Candidate(g: Group, stale: set<Uuid>) {
    Given(g.networkId) && KeepOut(g.members, stale) == []
  }

  ghost function Decide(nb: Nb, stale: set<Uuid>, fleet: Fleet, g: Group): Decision {
    if !Candidate(g, stale) then NotCandidate
    else if !Given(g.routerId) then NoRouter
    else
      var option := RouterOption(fleet, g.routerId.value);
      if Given(option) then
        if option.value in fleet.live then Repopulate(option.value) else DeadChassis(option.value)
      else FromRouterGroup(nb, stale, g.routerId.value)
  }

  datatype PlanItem = PlanItem(group: Uuid, name: string, networkId: string, routerId: string, target: string)

  datatype Skipped = Skipped(name: string, reason: Decision)

  function TextOf(o: Option<string>): string {
    if o.Some? then o.value else ""
  }

  function ItemFor(g: Group, target: string): PlanItem {
    PlanItem(g.uuid, g.name, TextOf(g.networkId), TextOf(g.routerId), target)
  }

  /** The plan and the skipped groups, with one more group decided. */
  function Recorded(sofar: (seq<PlanItem>, seq<Skipped>), g: Group, d: Decision): (seq<PlanItem>, seq<Skipped>) {
    match d
    case NotCandidate => sofar
    case Repopulate(target) => (sofar.0 + [ItemFor(g, target)], sofar.1)
    case _ => (sofar.0, sofar.1 + [Skipped(g.name, d)])
  }

  /** The plan and the skipped groups from the decisions on the first n groups. */
  ghost function PlanFrom(groups: seq<Group>, ds: seq<Decision>, n: nat): (seq<PlanItem>, seq<Skipped>)
    requires |ds| == |groups| && n <= |groups|
  {
    if n == 0 then ([], []) else Recorded(PlanFrom(groups, ds, n - 1), groups[n - 1], ds[n - 1])
  }

  ghost function Decisions(nb: Nb, stale: set<Uuid>, fleet: Fleet): (ds: seq<Decision>)
    ensures |ds| == |nb.groups| && forall i :: 0 <= i < |ds| ==> ds[i] == Decide(nb, stale, fleet, nb.groups[i])
  {
    seq(|nb.groups|, i requires 0 <= i < |nb.groups| => Decide(nb, stale, fleet, nb.groups[i]))
  }

  ghost function PlanAll(nb: Nb, stale: set<Uuid>, fleet: Fleet): (seq<PlanItem>, seq<Skipped>) {
    PlanFrom(nb.groups, Decisions(nb, stale, fleet), |nb.groups|)
  }

  method DecideGroup(nb: Nb, stale: set<Uuid>, fleet: Fleet, g: Group) returns (d: Decision)
    ensures d == Decide(nb, stale, fleet, g)
  {
    if !Given(g.networkId) {
      return NotCandidate;
    }
    var remaining := KeepOut(g.members, stale);
    if remaining != [] {
      return NotCandidate;
    }
    if !Given(g.routerId) {
      return NoRouter;
    }
    var option := RouterOption(fleet, g.routerId.value);
    if Given(option) {
      return if option.value in fleet.live then Repopulate(option.value) else DeadChassis(option.value);
    }
    var rg := LastNamed(nb.groups, RouterGroupName(g.routerId.value));
    if rg.None? {
      return NoRouterGroup;
    }
    var names := ChassisNames(nb.chassis, KeepOut(nb.groups[rg.value].members, stale));
    if |names| == 1 {
      var c :| c in names;
      assert names == {Sole(names)};
      return Repopulate(c);
    }
    return Ambiguous(|names|);
  }

  method PlanRepopulation(nb: Nb, stale: set<Uuid>, fleet: Fleet) returns (plan: seq<PlanItem>, skipped: seq<Skipped>)
    ensures (plan, skipped) == PlanAll(nb, stale, fleet)
  {
    plan, skipped := [], [];
    ghost var ds := Decisions(nb, stale, fleet);
    for i := 0 to |nb.groups|
      invariant (plan, skipped) == PlanFrom(nb.groups, ds, i)
    {
      var g := nb.groups[i];
      var d := DecideGroup(nb, stale, fleet, g);
      match d {
        case NotCandidate =>
        case Repopulate(target) => plan := plan + [ItemFor(g, target)];
        case _ => skipped := skipped + [Skipped(g.name, d)];
      }
    }
  }
}
