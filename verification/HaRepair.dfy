/** The two repair phases together: the early plan is the right one, and the result needs no more repair. */
module HaRepair {
  import opened Common
  import opened HaChassis

  // ----- after phase 1

  /** Rows may be garbage collected once no group refers to them. */
  ghost predicate Collected(nb: Nb, groups: seq<Group>, chassis: map<Uuid, string>) {
    && (forall u :: u in chassis ==> u in nb.chassis && chassis[u] == nb.chassis[u])
    && (forall i, u :: 0 <= i < |groups| && u in groups[i].members && u in nb.chassis ==> u in chassis)
  }

  /** nb1 is nb after phase 1. */
  ghost predicate Phase1(nb: Nb, fleet: Fleet, nb1: Nb) {
    nb1.groups == Clean(nb.groups, Stale(nb.chassis, fleet)) && Collected(nb, nb1.groups, nb1.chassis)
  }

  /** A database in which no group has a stale member. */
  ghost predicate NoStaleMembers(nb: Nb, fleet: Fleet) {
    forall i, u :: 0 <= i < |nb.groups| && u in nb.groups[i].members ==> u !in Stale(nb.chassis, fleet)
  }

  lemma Phase1Cleans(nb: Nb, fleet: Fleet, nb1: Nb)
    requires Phase1(nb, fleet, nb1)
    ensures NoStaleMembers(nb1, fleet)
  {
  }

  lemma SameNames(groups: seq<Group>, groups': seq<Group>, name: string)
    requires |groups| == |groups'| && forall i :: 0 <= i < |groups| ==> groups[i].name == groups'[i].name
    ensures LastNamed(groups, name) == LastNamed(groups', name)
  {
  }

  lemma DecisionStable(nb: Nb, fleet: Fleet, nb1: Nb, i: nat)
    requires Phase1(nb, fleet, nb1) && i < |nb.groups|
    ensures Decide(nb1, Stale(nb1.chassis, fleet), fleet, nb1.groups[i])
            == Decide(nb, Stale(nb.chassis, fleet), fleet, nb.groups[i])
  {
    var stale, stale1, g := Stale(nb.chassis, fleet), Stale(nb1.chassis, fleet), nb.groups[i];
    Phase1Cleans(nb, fleet, nb1);
    KeepOutNothing(nb1.groups[i].members, stale1);
    if Candidate(g, stale) && Given(g.routerId) && !Given(RouterOption(fleet, g.routerId.value)) {
      var name := RouterGroupName(g.routerId.value);
      SameNames(nb.groups, nb1.groups, name);
      var rg := LastNamed(nb.groups, name);
      if rg.Some? {
        var r := rg.value;
        KeepOutNothing(nb1.groups[r].members, stale1);
        assert KeepOut(nb1.groups[r].members, stale1) == KeepOut(nb.groups[r].members, stale);
        var kept := KeepOut(nb.groups[r].members, stale);
        assert ChassisNames(nb1.chassis, kept) == ChassisNames(nb.chassis, kept) by {
          forall m | m in kept && m in nb.chassis ensures m in nb1.chassis {
            assert m in nb1.groups[r].members;
          }
        }
      }
    }
  }

  lemma RecordedAlike(sofar: (seq<PlanItem>, seq<Skipped>), g: Group, g1: Group, d: Decision)
    requires g1 == g.(members := g1.members)
    ensures Recorded(sofar, g1, d) == Recorded(sofar, g, d)
  {
  }

  lemma {:induction false} PlanFromAlike(groups: seq<Group>, groups1: seq<Group>, ds: seq<Decision>, n: nat)
    requires |groups| == |groups1| == |ds| && n <= |ds|
    requires forall i :: 0 <= i < |ds| ==> groups1[i] == groups[i].(members := groups1[i].members)
    ensures PlanFrom(groups1, ds, n) == PlanFrom(groups, ds, n)
  {
    if n > 0 {
      PlanFromAlike(groups, groups1, ds, n - 1);
      RecordedAlike(PlanFrom(groups, ds, n - 1), groups[n - 1], groups1[n - 1], ds[n - 1]);
    }
  }

  /** The plan made before the cleanup, ignoring stale members, is the plan for the state after it. */
  lemma PlanSurvivesCleanup(nb: Nb, fleet: Fleet, nb1: Nb)
    requires Phase1(nb, fleet, nb1)
    ensures PlanAll(nb1, Stale(nb1.chassis, fleet), fleet) == PlanAll(nb, Stale(nb.chassis, fleet), fleet)
  {
    var ds, ds1 := Decisions(nb, Stale(nb.chassis, fleet), fleet), Decisions(nb1, Stale(nb1.chassis, fleet), fleet);
    forall i | 0 <= i < |ds| ensures ds1[i] == ds[i] {
      DecisionStable(nb, fleet, nb1, i);
    }
    assert ds1 == ds;
    PlanFromAlike(nb.groups, nb1.groups, ds, |ds|);
  }

  // ----- phase 2

  predicate Planned(plan: seq<PlanItem>, group: Uuid, i: nat) {
    i < |plan| && plan[i].group == group
  }

  /** One plan item per repopulated group, in the order of the groups. */
  lemma {:induction false} PlanItems(groups: seq<Group>, ds: seq<Decision>, n: nat, p: PlanItem)
    requires |ds| == |groups| && n <= |groups|
    ensures p in PlanFrom(groups, ds, n).0 <==>
            exists k :: 0 <= k < n && ds[k].Repopulate? && p == ItemFor(groups[k], ds[k].target)
  {
    if n > 0 {
      PlanItems(groups, ds, n - 1, p);
    }
  }

  ghost predicate DistinctItems(plan: seq<PlanItem>) {
    forall i, j :: 0 <= i < j < |plan| ==> plan[i].group != plan[j].group
  }

  lemma {:induction false} PlanGroupsDistinct(groups: seq<Group>, ds: seq<Decision>, n: nat)
    requires DistinctGroups(groups) && |ds| == |groups| && n <= |groups|
    ensures DistinctItems(PlanFrom(groups, ds, n).0)
  {
    if n > 0 {
      PlanGroupsDistinct(groups, ds, n - 1);
      var plan := PlanFrom(groups, ds, n - 1).0;
      forall i | 0 <= i < |plan| ensures plan[i].group != groups[n - 1].uuid {
        PlanItems(groups, ds, n - 1, plan[i]);
        assert plan[i] in plan;
      }
    }
  }

  /** nb2 is nb after the plan: a fresh row for each item, added to its group. */
  ghost predicate Phase2(nb: Nb, plan: seq<PlanItem>, next: Uuid, nb2: Nb) {
    && |nb2.groups| == |nb.groups|
    && (forall k :: 0 <= k < |nb.groups| ==> GroupAfter(nb.groups[k], plan, next, nb2.groups[k]))
    && (forall u :: u in nb.chassis ==> u in nb2.chassis && nb2.chassis[u] == nb.chassis[u])
    && (forall u :: u in nb2.chassis && u !in nb.chassis ==> next <= u < next + |plan|)
    && (forall i :: 0 <= i < |plan| ==> next + i in nb2.chassis && nb2.chassis[next + i] == plan[i].target)
  }

  ghost predicate GroupAfter(g: Group, plan: seq<PlanItem>, next: Uuid, g2: Group) {
    if exists i: nat :: Planned(plan, g.uuid, i)
    then exists i: nat :: Planned(plan, g.uuid, i) && g2 == g.(members := g.members + [next + i])
    else g2 == g
  }

  predicate RowsBelow(nb: Nb, next: Uuid) {
    && (forall u :: u in nb.chassis ==> u < next)
    && (forall i, u :: 0 <= i < |nb.groups| && u in nb.groups[i].members ==> u < next)
  }

  /** The create-and-add transaction for a plan that names each group at most once. */
  method ExecuteRepopulation(nb: Nb, plan: seq<PlanItem>, next: Uuid) returns (nb2: Nb)
    requires RowsBelow(nb, next)
    requires DistinctItems(plan)
    ensures Phase2(nb, plan, next, nb2)
  {
    var chassis, groups := nb.chassis, nb.groups;
    for i := 0 to |plan|
      invariant forall u :: u in chassis <==> u in nb.chassis || next <= u < next + i
      invariant forall u :: u in nb.chassis ==> chassis[u] == nb.chassis[u]
      invariant forall k :: 0 <= k < i ==> chassis[next + k] == plan[k].target
      invariant |groups| == |nb.groups|
      invariant forall k :: 0 <= k < |groups| ==> GroupAfter(nb.groups[k], plan[..i], next, groups[k])
    {
      chassis := chassis[next + i := plan[i].target];
      var before := groups;
      groups := AddMember(groups, plan[i].group, next + i);
      forall k | 0 <= k < |groups| ensures GroupAfter(nb.groups[k], plan[..i + 1], next, groups[k]) {
        GroupStep(nb.groups[k], plan, i, next, before[k]);
      }
    }
    assert plan[..|plan|] == plan;
    nb2 := Nb(chassis, groups);
  }

  function AddTo(g: Group, group: Uuid, member: Uuid): Group {
    if g.uuid == group then g.(members := g.members + [member]) else g
  }

  method AddMember(groups: seq<Group>, group: Uuid, member: Uuid) returns (after: seq<Group>)
    ensures |after| == |groups| && forall k :: 0 <= k < |groups| ==> after[k] == AddTo(groups[k], group, member)
  {
    after := groups;
    for i := 0 to |groups|
      invariant |after| == |groups|
      invariant forall k :: 0 <= k < i ==> after[k] == AddTo(groups[k], group, member)
      invariant forall k :: i <= k < |groups| ==> after[k] == groups[k]
    {
      after := after[i := AddTo(groups[i], group, member)];
    }
  }

  lemma GroupStep(g: Group, plan: seq<PlanItem>, i: nat, next: Uuid, before: Group)
    requires i < |plan| && GroupAfter(g, plan[..i], next, before)
    requires DistinctItems(plan)
    ensures GroupAfter(g, plan[..i + 1], next, AddTo(before, plan[i].group, next + i))
  {
    var now := plan[..i + 1];
    forall k: nat
      ensures Planned(now, g.uuid, k) <==> Planned(plan[..i], g.uuid, k) || (k == i && plan[i].group == g.uuid)
    {
    }
    if plan[i].group == g.uuid {
      assert forall k: nat :: !Planned(plan[..i], g.uuid, k);
      assert Planned(now, g.uuid, i);
    }
  }

  // ----- after both phases

  /** Every group member is a row of the HA_Chassis table. */
  ghost predicate Integrity(nb: Nb) {
    forall i, u :: 0 <= i < |nb.groups| && u in nb.groups[i].members ==> u in nb.chassis
  }

  ghost predicate AllMembersLive(nb: Nb, fleet: Fleet) {
    forall i, u :: 0 <= i < |nb.groups| && u in nb.groups[i].members ==> u in nb.chassis && nb.chassis[u] in fleet.live
  }

  /** The state between the phases, with its plan. */
  ghost predicate Ready(nb1: Nb, fleet: Fleet, plan: seq<PlanItem>, next: Uuid, nb2: Nb) {
    && NoStaleMembers(nb1, fleet) && DistinctGroups(nb1.groups) && RowsBelow(nb1, next)
    && plan == PlanAll(nb1, Stale(nb1.chassis, fleet), fleet).0
    && Phase2(nb1, plan, next, nb2)
  }

  ghost function DecisionAt(nb: Nb, fleet: Fleet, k: nat): Decision
    requires k < |nb.groups|
  {
    Decide(nb, Stale(nb.chassis, fleet), fleet, nb.groups[k])
  }

  lemma PlannedAsDecided(nb: Nb, fleet: Fleet, plan: seq<PlanItem>, k: nat, i: nat)
    requires DistinctGroups(nb.groups) && k < |nb.groups| && plan == PlanAll(nb, Stale(nb.chassis, fleet), fleet).0
    requires Planned(plan, nb.groups[k].uuid, i)
    ensures DecisionAt(nb, fleet, k).Repopulate? && plan[i].target == DecisionAt(nb, fleet, k).target
  {
    var ds := Decisions(nb, Stale(nb.chassis, fleet), fleet);
    PlanItems(nb.groups, ds, |nb.groups|, plan[i]);
    var j :| 0 <= j < |nb.groups| && ds[j].Repopulate? && plan[i] == ItemFor(nb.groups[j], ds[j].target);
    assert j == k;
  }

  /** A group is in the plan exactly if it was decided to repopulate it. */
  lemma PlannedIffDecided(nb: Nb, fleet: Fleet, plan: seq<PlanItem>, k: nat)
    requires DistinctGroups(nb.groups) && k < |nb.groups| && plan == PlanAll(nb, Stale(nb.chassis, fleet), fleet).0
    ensures (exists i: nat :: Planned(plan, nb.groups[k].uuid, i)) <==> DecisionAt(nb, fleet, k).Repopulate?
  {
    if i: nat :| Planned(plan, nb.groups[k].uuid, i) {
      PlannedAsDecided(nb, fleet, plan, k, i);
    }
    if DecisionAt(nb, fleet, k).Repopulate? {
      var p := ItemFor(nb.groups[k], DecisionAt(nb, fleet, k).target);
      PlanItems(nb.groups, Decisions(nb, Stale(nb.chassis, fleet), fleet), |nb.groups|, p);
      assert p in plan;
      var i :| 0 <= i < |plan| && plan[i] == p;
      assert Planned(plan, nb.groups[k].uuid, i);
    }
  }

  lemma TargetIsLive(nb: Nb, fleet: Fleet, plan: seq<PlanItem>, i: nat)
    requires plan == PlanAll(nb, Stale(nb.chassis, fleet), fleet).0 && i < |plan|
    ensures plan[i].target in fleet.live
  {
    PlanItems(nb.groups, Decisions(nb, Stale(nb.chassis, fleet), fleet), |nb.groups|, plan[i]);
  }

  /** After both phases every member of every group is a live chassis. */
  lemma MembersLiveAfterwards(nb1: Nb, fleet: Fleet, plan: seq<PlanItem>, next: Uuid, nb2: Nb)
    requires Ready(nb1, fleet, plan, next, nb2) && Integrity(nb1)
    ensures AllMembersLive(nb2, fleet) && NoStaleMembers(nb2, fleet)
  {
    forall k, u | 0 <= k < |nb2.groups| && u in nb2.groups[k].members
      ensures u in nb2.chassis && nb2.chassis[u] in fleet.live
    {
      assert GroupAfter(nb1.groups[k], plan, next, nb2.groups[k]);
      if u !in nb1.groups[k].members {
        var i: nat :| Planned(plan, nb1.groups[k].uuid, i)
          && nb2.groups[k] == nb1.groups[k].(members := nb1.groups[k].members + [next + i]);
        assert u == next + i;
        TargetIsLive(nb1, fleet, plan, i);
      } else {
        assert u !in Stale(nb1.chassis, fleet);
      }
    }
  }

  function NewRow(next: Uuid, i: nat): Uuid {
    next + i
  }

  /** The group with one member only, a row that names the chassis. */
  ghost predicate HoldsOnly(nb: Nb, g: Group, g2: Group, target: string) {
    |g2.members| == 1 && g2 == g.(members := g2.members) && g2.members[0] in nb.chassis
      && nb.chassis[g2.members[0]] == target
  }

  /** A repopulated group ends up with exactly its new member, which names the chassis decided on, and other
      groups are unchanged. */
  lemma GroupAfterwards(nb1: Nb, fleet: Fleet, plan: seq<PlanItem>, next: Uuid, nb2: Nb, k: nat)
    requires Ready(nb1, fleet, plan, next, nb2) && k < |nb1.groups|
    ensures if DecisionAt(nb1, fleet, k).Repopulate?
            then HoldsOnly(nb2, nb1.groups[k], nb2.groups[k], DecisionAt(nb1, fleet, k).target)
                 && exists i: nat :: i < |plan| && nb2.groups[k] == nb1.groups[k].(members := [NewRow(next, i)])
            else nb2.groups[k] == nb1.groups[k]
  {
    PlannedIffDecided(nb1, fleet, plan, k);
    assert GroupAfter(nb1.groups[k], plan, next, nb2.groups[k]);
    if DecisionAt(nb1, fleet, k).Repopulate? {
      KeepOutNothing(nb1.groups[k].members, Stale(nb1.chassis, fleet));
      var i: nat :| Planned(plan, nb1.groups[k].uuid, i)
        && nb2.groups[k] == nb1.groups[k].(members := nb1.groups[k].members + [next + i]);
      assert nb1.groups[k].members + [next + i] == [NewRow(next, i)];
      PlannedAsDecided(nb1, fleet, plan, k, i);
    }
  }

  /** A skipped group waits only for its router's group, and that one was just repopulated. */
  ghost predicate Unblocked(nb1: Nb, fleet: Fleet, k: nat)
    requires k < |nb1.groups|
  {
    var g := nb1.groups[k];
    && !DecisionAt(nb1, fleet, k).Repopulate? && Candidate(g, Stale(nb1.chassis, fleet)) && Given(g.routerId)
    && !Given(RouterOption(fleet, g.routerId.value))
    && var rg := LastNamed(nb1.groups, RouterGroupName(g.routerId.value));
       rg.Some? && DecisionAt(nb1, fleet, rg.value).Repopulate?
  }

  lemma NamesAfterwards(nb1: Nb, fleet: Fleet, plan: seq<PlanItem>, next: Uuid, nb2: Nb, name: string)
    requires Ready(nb1, fleet, plan, next, nb2)
    ensures LastNamed(nb2.groups, name) == LastNamed(nb1.groups, name)
  {
    forall k | 0 <= k < |nb1.groups| ensures nb2.groups[k].name == nb1.groups[k].name {
      GroupAfterwards(nb1, fleet, plan, next, nb2, k);
    }
    SameNames(nb1.groups, nb2.groups, name);
  }

  /** The chassis a group resolves to, as the second planning sees it. */
  lemma ResolvesAfterwards(nb1: Nb, fleet: Fleet, plan: seq<PlanItem>, next: Uuid, nb2: Nb, r: nat)
    requires Ready(nb1, fleet, plan, next, nb2) && NoStaleMembers(nb2, fleet) && r < |nb1.groups|
    ensures var names1 := ChassisNames(nb1.chassis, KeepOut(nb1.groups[r].members, Stale(nb1.chassis, fleet)));
            var names2 := ChassisNames(nb2.chassis, KeepOut(nb2.groups[r].members, Stale(nb2.chassis, fleet)));
            if DecisionAt(nb1, fleet, r).Repopulate? then |names2| == 1 else names2 == names1
  {
    GroupAfterwards(nb1, fleet, plan, next, nb2, r);
    KeepOutNothing(nb1.groups[r].members, Stale(nb1.chassis, fleet));
    KeepOutNothing(nb2.groups[r].members, Stale(nb2.chassis, fleet));
    if DecisionAt(nb1, fleet, r).Repopulate? {
      var i: nat :| i < |plan| && nb2.groups[r] == nb1.groups[r].(members := [NewRow(next, i)]);
      assert ChassisNames(nb2.chassis, nb2.groups[r].members) == {nb2.chassis[next + i]};
    } else {
      NamesUnchanged(nb1, plan, next, nb2, r);
    }
  }

  lemma RouterGroupAfterwards(nb1: Nb, fleet: Fleet, plan: seq<PlanItem>, next: Uuid, nb2: Nb, routerId: string)
    requires Ready(nb1, fleet, plan, next, nb2) && NoStaleMembers(nb2, fleet)
    ensures var d1, d2 := FromRouterGroup(nb1, Stale(nb1.chassis, fleet), routerId),
              FromRouterGroup(nb2, Stale(nb2.chassis, fleet), routerId);
            var rg := LastNamed(nb1.groups, RouterGroupName(routerId));
            if rg.Some? && DecisionAt(nb1, fleet, rg.value).Repopulate? then d2.Repopulate? else d2 == d1
  {
    NamesAfterwards(nb1, fleet, plan, next, nb2, RouterGroupName(routerId));
    var rg := LastNamed(nb1.groups, RouterGroupName(routerId));
    if rg.Some? {
      ResolvesAfterwards(nb1, fleet, plan, next, nb2, rg.value);
    }
  }

  lemma NamesUnchanged(nb1: Nb, plan: seq<PlanItem>, next: Uuid, nb2: Nb, r: nat)
    requires RowsBelow(nb1, next) && Phase2(nb1, plan, next, nb2) && r < |nb1.groups|
    ensures ChassisNames(nb2.chassis, nb1.groups[r].members) == ChassisNames(nb1.chassis, nb1.groups[r].members)
  {
    forall m | m in nb1.groups[r].members ensures m in nb2.chassis <==> m in nb1.chassis {
      assert m < next;
    }
  }

  /** Planning again repopulates exactly the groups that the first round unblocked. */
  lemma ReplanDecision(nb1: Nb, fleet: Fleet, plan: seq<PlanItem>, next: Uuid, nb2: Nb, k: nat)
    requires Ready(nb1, fleet, plan, next, nb2) && Integrity(nb1) && k < |nb1.groups|
    ensures |nb2.groups| == |nb1.groups|
    ensures DecisionAt(nb2, fleet, k).Repopulate? <==> Unblocked(nb1, fleet, k)
  {
    MembersLiveAfterwards(nb1, fleet, plan, next, nb2);
    GroupAfterwards(nb1, fleet, plan, next, nb2, k);
    var g := nb1.groups[k];
    KeepOutNothing(g.members, Stale(nb1.chassis, fleet));
    KeepOutNothing(nb2.groups[k].members, Stale(nb2.chassis, fleet));
    if Given(g.routerId) {
      RouterGroupAfterwards(nb1, fleet, plan, next, nb2, g.routerId.value);
    }
  }

  lemma {:induction false} EmptyPlan(groups: seq<Group>, ds: seq<Decision>, n: nat)
    requires |ds| == |groups| && n <= |groups|
    ensures PlanFrom(groups, ds, n).0 == [] <==> forall k :: 0 <= k < n ==> !ds[k].Repopulate?
  {
    if n > 0 {
      EmptyPlan(groups, ds, n - 1);
    }
  }

  /** A second run has nothing to repopulate if and only if the first round unblocked nothing. */
  lemma ReplanIsEmptyIff(nb1: Nb, fleet: Fleet, plan: seq<PlanItem>, next: Uuid, nb2: Nb)
    requires Ready(nb1, fleet, plan, next, nb2) && Integrity(nb1)
    ensures PlanAll(nb2, Stale(nb2.chassis, fleet), fleet).0 == [] <==> NothingUnblocked(nb1, fleet)
  {
    var ds := Decisions(nb2, Stale(nb2.chassis, fleet), fleet);
    EmptyPlan(nb2.groups, ds, |nb2.groups|);
    forall k | 0 <= k < |nb1.groups| ensures ds[k].Repopulate? <==> Unblocked(nb1, fleet, k) {
      ReplanDecision(nb1, fleet, plan, next, nb2, k);
    }
  }

  predicate RouterGroupOf(g: Group, rg: Group) {
    Given(g.routerId) && rg.name == RouterGroupName(g.routerId.value)
  }

  lemma Phase1Keeps(nb: Nb, fleet: Fleet, nb1: Nb, next: Uuid)
    requires Phase1(nb, fleet, nb1) && DistinctGroups(nb.groups) && Integrity(nb) && RowsBelow(nb, next)
    ensures NoStaleMembers(nb1, fleet) && DistinctGroups(nb1.groups) && Integrity(nb1) && RowsBelow(nb1, next)
  {
    Phase1Cleans(nb, fleet, nb1);
  }

  /** Whether a group is unblocked can be read off the snapshot before the cleanup. */
  lemma UnblockedStable(nb: Nb, fleet: Fleet, nb1: Nb, k: nat)
    requires Phase1(nb, fleet, nb1) && k < |nb.groups|
    ensures Unblocked(nb1, fleet, k) <==> Unblocked(nb, fleet, k)
  {
    var g := nb.groups[k];
    Phase1Cleans(nb, fleet, nb1);
    DecisionStable(nb, fleet, nb1, k);
    KeepOutNothing(nb1.groups[k].members, Stale(nb1.chassis, fleet));
    if Given(g.routerId) {
      var name := RouterGroupName(g.routerId.value);
      SameNames(nb.groups, nb1.groups, name);
      var rg := LastNamed(nb.groups, name);
      if rg.Some? {
        DecisionStable(nb, fleet, nb1, rg.value);
      }
    }
  }

  ghost predicate NothingUnblocked(nb: Nb, fleet: Fleet) {
    forall k :: 0 <= k < |nb.groups| ==> !Unblocked(nb, fleet, k)
  }

  lemma NothingUnblockedStable(nb: Nb, fleet: Fleet, nb1: Nb)
    requires Phase1(nb, fleet, nb1)
    ensures NothingUnblocked(nb1, fleet) <==> NothingUnblocked(nb, fleet)
  {
    forall k | 0 <= k < |nb.groups| ensures Unblocked(nb1, fleet, k) <==> Unblocked(nb, fleet, k) {
      UnblockedStable(nb, fleet, nb1, k);
    }
  }

  /** No group that serves as a router's own group belongs to a network. */
  predicate RouterGroupsApart(nb: Nb) {
    forall k, r :: 0 <= k < |nb.groups| && 0 <= r < |nb.groups| && RouterGroupOf(nb.groups[k], nb.groups[r]) ==>
                     !Given(nb.groups[r].networkId)
  }

  lemma ApartUnblocksNothing(nb: Nb, fleet: Fleet)
    requires RouterGroupsApart(nb)
    ensures NothingUnblocked(nb, fleet)
  {
    forall k | 0 <= k < |nb.groups| ensures !Unblocked(nb, fleet, k) {
      if Given(nb.groups[k].routerId) {
        var rg := LastNamed(nb.groups, RouterGroupName(nb.groups[k].routerId.value));
        assert rg.Some? ==> RouterGroupOf(nb.groups[k], nb.groups[rg.value]);
      }
    }
  }

  /** A group after the repair: its decided chassis as the only member, or its live members as they were. */
  ghost predicate Repaired(nb: Nb, fleet: Fleet, nb2: Nb, k: nat)
    requires k < |nb.groups| == |nb2.groups|
  {
    if DecisionAt(nb, fleet, k).Repopulate?
    then HoldsOnly(nb2, nb.groups[k], nb2.groups[k], DecisionAt(nb, fleet, k).target)
    else nb2.groups[k] == CleanGroup(nb.groups[k], Stale(nb.chassis, fleet))
  }

  // ----- the same in terms of the tables alone

  predicate LiveRow(nb: Nb, fleet: Fleet, u: Uuid) {
    u in nb.chassis && nb.chassis[u] in fleet.live
  }

  /** A network's group with a router and without a live member. */
  predicate NeedsMember(nb: Nb, fleet: Fleet, g: Group) {
    && g.networkId.Some? && g.networkId.value != "" && g.routerId.Some? && g.routerId.value != ""
    && forall u :: u in g.members ==> !LiveRow(nb, fleet, u)
  }

  /** The chassis option of the router itself, if it has a non-empty one. */
  predicate HasOption(fleet: Fleet, router: string, c: string) {
    router in fleet.routerChassis && fleet.routerChassis[router] == Some(c) && c != ""
  }

  /** The live members of the last group with this name all name one chassis. */
  ghost predicate SoleLiveName(nb: Nb, fleet: Fleet, name: string, c: string) {
    exists i: nat :: LastWithName(nb.groups, name, i) && SoleLiveIn(nb, fleet, nb.groups[i], c)
  }

  predicate LastWithName(groups: seq<Group>, name: string, i: nat) {
    i < |groups| && groups[i].name == name && forall j :: i < j < |groups| ==> groups[j].name != name
  }

  predicate SoleLiveIn(nb: Nb, fleet: Fleet, g: Group, c: string) {
    && (exists u :: u in g.members && LiveRow(nb, fleet, u))
    && (forall u :: u in g.members && LiveRow(nb, fleet, u) ==> nb.chassis[u] == c)
  }

  predicate OnlyMember(nb: Nb, g: Group, c: string) {
    |g.members| == 1 && g.members[0] in nb.chassis && nb.chassis[g.members[0]] == c
  }

  /** A group without a live member gets the live chassis of its router's option; a dead option leaves it empty;
      without an option it gets the one live chassis of the last group named after the router, if there is one.
      Every other group keeps exactly its live members. */
  ghost predicate PlainlyRepaired(nb: Nb, fleet: Fleet, nb2: Nb, k: nat)
    requires k < |nb.groups| == |nb2.groups|
  {
    var g, g2 := nb.groups[k], nb2.groups[k];
    && g2 == g.(members := g2.members)
    && (!NeedsMember(nb, fleet, g) ==> forall u :: u in g2.members <==> u in g.members && LiveRow(nb, fleet, u))
    && (NeedsMember(nb, fleet, g) ==>
          && (forall c :: HasOption(fleet, g.routerId.value, c) ==>
                if c in fleet.live then OnlyMember(nb2, g2, c) else g2.members == [])
          && ((forall c :: !HasOption(fleet, g.routerId.value, c)) ==>
                && (forall c :: OnlyMember(nb2, g2, c) <==> SoleLiveName(nb, fleet, "neutron-" + g.routerId.value, c))
                && (g2.members == [] || exists c :: OnlyMember(nb2, g2, c))))
  }

  lemma LiveIsNotStale(nb: Nb, fleet: Fleet, g: Group)
    requires forall u :: u in g.members ==> u in nb.chassis
    ensures forall u :: u in KeepOut(g.members, Stale(nb.chassis, fleet)) <==> u in g.members && LiveRow(nb, fleet, u)
    ensures KeepOut(g.members, Stale(nb.chassis, fleet)) == [] <==>
            forall u :: u in g.members ==> !LiveRow(nb, fleet, u)
  {
    var kept := KeepOut(g.members, Stale(nb.chassis, fleet));
    if kept != [] {
      assert kept[0] in kept;
    }
  }

  lemma SoleLiveMeaning(nb: Nb, fleet: Fleet, g: Group, c: string)
    requires forall u :: u in g.members ==> u in nb.chassis
    ensures ChassisNames(nb.chassis, KeepOut(g.members, Stale(nb.chassis, fleet))) == {c} <==>
            SoleLiveIn(nb, fleet, g, c)
  {
    var kept := KeepOut(g.members, Stale(nb.chassis, fleet));
    var names := ChassisNames(nb.chassis, kept);
    LiveIsNotStale(nb, fleet, g);
    if names == {c} {
      assert c in names;
      forall u | u in g.members && LiveRow(nb, fleet, u) ensures nb.chassis[u] == c {
        assert u in kept && nb.chassis[u] in names;
      }
    }
    if SoleLiveIn(nb, fleet, g, c) {
      var u :| u in g.members && LiveRow(nb, fleet, u);
      assert u in kept && nb.chassis[u] in names;
    }
  }

  /** What the router's own group resolves to. */
  lemma RouterGroupMeaning(nb: Nb, fleet: Fleet, router: string, c: string)
    requires Integrity(nb)
    ensures FromRouterGroup(nb, Stale(nb.chassis, fleet), router) == Repopulate(c) <==>
            SoleLiveName(nb, fleet, "neutron-" + router, c)
  {
    var rg := LastNamed(nb.groups, "neutron-" + router);
    if rg.Some? {
      var g := nb.groups[rg.value];
      var names := ChassisNames(nb.chassis, KeepOut(g.members, Stale(nb.chassis, fleet)));
      assert LastWithName(nb.groups, "neutron-" + router, rg.value);
      assert forall i: nat :: LastWithName(nb.groups, "neutron-" + router, i) ==> i == rg.value;
      SoleLiveMeaning(nb, fleet, g, c);
      assert |{c}| == 1;
      assert |names| == 1 ==> names == {Sole(names)};
    }
  }

  /** Which group is repopulated with which chassis. */
  lemma DecisionMeaning(nb: Nb, fleet: Fleet, k: nat, c: string)
    requires Integrity(nb) && k < |nb.groups|
    ensures DecisionAt(nb, fleet, k) == Repopulate(c) <==>
            && NeedsMember(nb, fleet, nb.groups[k])
            && var router := nb.groups[k].routerId.value;
               || (HasOption(fleet, router, c) && c in fleet.live)
               || ((forall d :: !HasOption(fleet, router, d)) && SoleLiveName(nb, fleet, "neutron-" + router, c))
  {
    var g := nb.groups[k];
    LiveIsNotStale(nb, fleet, g);
    if Given(g.routerId) {
      var router := g.routerId.value;
      RouterGroupMeaning(nb, fleet, router, c);
      var option := RouterOption(fleet, router);
      assert Given(option) ==> HasOption(fleet, router, option.value);
      assert forall d :: HasOption(fleet, router, d) ==> option == Some(d);
    }
  }

  /** Why a group is left out of the plan. */
  lemma SkipMeaning(nb: Nb, fleet: Fleet, k: nat, c: string)
    requires Integrity(nb) && k < |nb.groups|
    ensures var g, d := nb.groups[k], DecisionAt(nb, fleet, k);
            var network := g.networkId.Some? && g.networkId.value != "";
            var router := g.routerId.Some? && g.routerId.value != "";
            var hasLive := exists u :: u in g.members && LiveRow(nb, fleet, u);
            && (d == NotCandidate <==> !network || hasLive)
            && (d == NoRouter <==> network && !hasLive && !router)
            && (d == DeadChassis(c) <==>
                  NeedsMember(nb, fleet, g) && HasOption(fleet, g.routerId.value, c) && c !in fleet.live)
            && (d == NoRouterGroup <==>
                  && NeedsMember(nb, fleet, g) && (forall x :: !HasOption(fleet, g.routerId.value, x))
                  && forall i :: 0 <= i < |nb.groups| ==> nb.groups[i].name != "neutron-" + g.routerId.value)
  {
    var g := nb.groups[k];
    LiveIsNotStale(nb, fleet, g);
    if Given(g.routerId) {
      var option := RouterOption(fleet, g.routerId.value);
      assert Given(option) ==> HasOption(fleet, g.routerId.value, option.value);
      assert forall d :: HasOption(fleet, g.routerId.value, d) ==> option == Some(d);
    }
  }

  lemma PlainRepair(nb: Nb, fleet: Fleet, nb2: Nb, k: nat)
    requires Integrity(nb) && k < |nb.groups| == |nb2.groups| && Repaired(nb, fleet, nb2, k)
    ensures PlainlyRepaired(nb, fleet, nb2, k)
  {
    var g, g2 := nb.groups[k], nb2.groups[k];
    LiveIsNotStale(nb, fleet, g);
    forall c
      ensures DecisionAt(nb, fleet, k) == Repopulate(c) <==> NeedsMember(nb, fleet, g) && OnlyMember(nb2, g2, c)
    {
      if DecisionAt(nb, fleet, k).Repopulate? {
        DecisionMeaning(nb, fleet, k, DecisionAt(nb, fleet, k).target);
      }
    }
    forall c ensures DecisionAt(nb, fleet, k) == Repopulate(c) <==>
                     && NeedsMember(nb, fleet, g)
                     && (|| (HasOption(fleet, g.routerId.value, c) && c in fleet.live)
                         || ((forall d :: !HasOption(fleet, g.routerId.value, d))
                             && SoleLiveName(nb, fleet, "neutron-" + g.routerId.value, c)))
    {
      DecisionMeaning(nb, fleet, k, c);
    }
    if NeedsMember(nb, fleet, g) && !DecisionAt(nb, fleet, k).Repopulate? {
      assert g2.members == [];
    }
  }

  /** The whole repair: with the plan made up front, both phases leave only live members, nothing stale to clean,
      and a plan for the next run that is empty exactly if nothing was unblocked. */
  lemma RepairConverges(nb: Nb, fleet: Fleet, nb1: Nb, plan: seq<PlanItem>, next: Uuid, nb2: Nb)
    requires DistinctGroups(nb.groups) && Integrity(nb) && RowsBelow(nb, next)
    requires Phase1(nb, fleet, nb1) && plan == PlanAll(nb, Stale(nb.chassis, fleet), fleet).0
             && Phase2(nb1, plan, next, nb2)
    ensures AllMembersLive(nb2, fleet) && Clean(nb2.groups, Stale(nb2.chassis, fleet)) == nb2.groups
    ensures |nb2.groups| == |nb.groups| && forall k :: 0 <= k < |nb.groups| ==> Repaired(nb, fleet, nb2, k)
    ensures forall k :: 0 <= k < |nb.groups| ==> PlainlyRepaired(nb, fleet, nb2, k)
    ensures PlanAll(nb2, Stale(nb2.chassis, fleet), fleet).0 == [] <==> NothingUnblocked(nb, fleet)
  {
    Phase1Keeps(nb, fleet, nb1, next);
    PlanSurvivesCleanup(nb, fleet, nb1);
    assert Ready(nb1, fleet, plan, next, nb2);
    MembersLiveAfterwards(nb1, fleet, plan, next, nb2);
    forall k | 0 <= k < |nb2.groups| ensures CleanGroup(nb2.groups[k], Stale(nb2.chassis, fleet)) == nb2.groups[k] {
      KeepOutNothing(nb2.groups[k].members, Stale(nb2.chassis, fleet));
    }
    forall k | 0 <= k < |nb.groups| ensures Repaired(nb, fleet, nb2, k) {
      DecisionStable(nb, fleet, nb1, k);
      GroupAfterwards(nb1, fleet, plan, next, nb2, k);
    }
    forall k | 0 <= k < |nb.groups| ensures PlainlyRepaired(nb, fleet, nb2, k) {
      PlainRepair(nb, fleet, nb2, k);
    }
    ReplanIsEmptyIff(nb1, fleet, plan, next, nb2);
    NothingUnblockedStable(nb, fleet, nb1);
  }

  /** In particular one run is enough if router groups carry no network id. */
  lemma RouterGroupsWithoutNetwork(nb: Nb, fleet: Fleet, nb1: Nb, plan: seq<PlanItem>, next: Uuid, nb2: Nb)
    requires DistinctGroups(nb.groups) && Integrity(nb) && RowsBelow(nb, next)
    requires Phase1(nb, fleet, nb1) && plan == PlanAll(nb, Stale(nb.chassis, fleet), fleet).0
             && Phase2(nb1, plan, next, nb2)
    requires RouterGroupsApart(nb)
    ensures PlanAll(nb2, Stale(nb2.chassis, fleet), fleet).0 == []
  {
    ApartUnblocksNothing(nb, fleet);
    RepairConverges(nb, fleet, nb1, plan, next, nb2);
  }

  /** A run with both phases confirmed. */
  method Repair(nb: Nb, fleet: Fleet, next: Uuid) returns (nb2: Nb)
    requires DistinctGroups(nb.groups) && Integrity(nb) && RowsBelow(nb, next)
    ensures AllMembersLive(nb2, fleet) && Clean(nb2.groups, Stale(nb2.chassis, fleet)) == nb2.groups
    ensures |nb2.groups| == |nb.groups| && forall k :: 0 <= k < |nb.groups| ==> Repaired(nb, fleet, nb2, k)
    ensures forall k :: 0 <= k < |nb.groups| ==> PlainlyRepaired(nb, fleet, nb2, k)
    ensures PlanAll(nb2, Stale(nb2.chassis, fleet), fleet).0 == [] <==> NothingUnblocked(nb, fleet)
  {
    var stale := Stale(nb.chassis, fleet);
    var records := MapGroupsToStaleMembers(nb.groups, stale);
    var groups := ExecuteCleanup(nb.groups, records, stale);
    var referenced := set i, u | 0 <= i < |groups| && u in groups[i].members :: u;
    var nb1 := Nb(map u | u in nb.chassis && u in referenced :: nb.chassis[u], groups);
    assert Phase1(nb, fleet, nb1);
    var plan, skipped := PlanRepopulation(nb, stale, fleet);
    PlanGroupsDistinct(nb.groups, Decisions(nb, stale, fleet), |nb.groups|);
    Phase1Keeps(nb, fleet, nb1, next);
    nb2 := ExecuteRepopulation(nb1, plan, next);
    RepairConverges(nb, fleet, nb1, plan, next, nb2);
  }

  const WAITING := Nb(map[], [Group(0, "neutron-r", [], Some("m"), Some("s")),
                              Group(1, "neutron-n", [], Some("n"), Some("r"))])

  const ONE_LIVE := Fleet({"c"}, map["s" := Some("c")])

  lemma SecondGroupWaits()
    ensures Unblocked(WAITING, ONE_LIVE, 1)
  {
    assert DecisionAt(WAITING, ONE_LIVE, 0) == Repopulate("c");
    assert RouterGroupName("r") == "neutron-r";
    assert LastNamed(WAITING.groups, "neutron-r") == Some(0);
    assert ChassisNames(WAITING.chassis, []) == {};
  }

  /** One round is not always enough: a network group that is also a router's group is filled first, and the
      group that waits for it only becomes plannable in the next run. */
  lemma SecondRoundCanHaveWork(nb1: Nb, plan: seq<PlanItem>, next: Uuid, nb2: Nb)
    requires Phase1(WAITING, ONE_LIVE, nb1) && Phase2(nb1, plan, next, nb2)
    requires plan == PlanAll(WAITING, Stale(WAITING.chassis, ONE_LIVE), ONE_LIVE).0
    ensures PlanAll(nb2, Stale(nb2.chassis, ONE_LIVE), ONE_LIVE).0 != []
  {
    SecondGroupWaits();
    RepairConverges(WAITING, ONE_LIVE, nb1, plan, next, nb2);
  }
}
