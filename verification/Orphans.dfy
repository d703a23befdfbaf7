/** Tearing down leftover networks: which switches may go, and what the deletions leave intact. */
module Orphans {
  import opened Common
  import opened Sorting

  const PREFIX := "neutron-"

  /** Switches with their ports, the group each switch port and router port refers to, and the groups by name. */
  datatype Net = Net(switches: map<string, set<Uuid>>, lsps: map<Uuid, Option<Uuid>>, lrps: map<Uuid, Option<Uuid>>,
                     groups: map<Uuid, string>)

  datatype Item = Item(switch: string, hcg: Option<Uuid>, refLsps: set<Uuid>, refLrps: set<Uuid>)

  datatype Reason = StillLive | Unconfirmed | ForeignReference

  datatype Skip = Skip(switch: string, reason: Reason)

  datatype Abort = NoNetworks | TooManyOrphans

  /** What neutron says: the listed networks, and the answer of a direct lookup. */
  datatype Neutron = Neutron(listed: set<string>, show: string -> Option<bool>)

  predicate IsNetworkSwitch(name: string) {
    PREFIX <= name
  }

  function NetworkId(name: string): string
    requires IsNetworkSwitch(name)
  {
    name[|PREFIX|..]
  }

  /** Port rows that refer to a group. */
  function RefsTo(rows: map<Uuid, Option<Uuid>>, g: Uuid): set<Uuid> {
    set u | u in rows && rows[u] == Some(g)
  }

  /** Every reference is to an existing group. */
  predicate Integrity(net: Net) {
    && (forall u :: u in net.lsps && net.lsps[u].Some? ==> net.lsps[u].value in net.groups)
    && (forall u :: u in net.lrps && net.lrps[u].Some? ==> net.lrps[u].value in net.groups)
  }

  /** Group names are unique, and each switch port is on one switch. */
  ghost predicate WellFormed(net: Net) {
    && Integrity(net)
    && (forall g, h :: g in net.groups && h in net.groups && net.groups[g] == net.groups[h] ==> g == h)
    && (forall s, t :: s in net.switches && t in net.switches && s != t ==> net.switches[s] !! net.switches[t])
  }

  // ----- planning

  /** Neutron has lost the network of this switch, by its list and by direct lookup. */
  predicate ConfirmedGone(neutron: Neutron, name: string) {
    IsNetworkSwitch(name) && NetworkId(name) !in neutron.listed && neutron.show(NetworkId(name)) == Some(false)
  }

  ghost predicate GroupNamed(net: Net, name: string, g: Option<Uuid>) {
    match g
    case Some(u) => u in net.groups && net.groups[u] == name
    case None => forall u :: u in net.groups ==> net.groups[u] != name
  }

  function Refs(rows: map<Uuid, Option<Uuid>>, g: Option<Uuid>): set<Uuid> {
    if g.Some? then RefsTo(rows, g.value) else {}
  }

  /** An item that describes the database: its group, exactly the ports that refer to it, and all those switch
      ports on its own switch. */
  ghost predicate Accurate(net: Net, p: Item) {
    && p.switch in net.switches && GroupNamed(net, p.switch, p.hcg)
    && p.refLsps == Refs(net.lsps, p.hcg) && p.refLrps == Refs(net.lrps, p.hcg)
    && p.refLsps <= net.switches[p.switch]
  }

  function Candidates(order: seq<string>, neutron: Neutron): (r: seq<string>)
    ensures forall n :: n in r <==> n in order && IsNetworkSwitch(n) && NetworkId(n) !in neutron.listed
    ensures |r| <= |order|
  {
    if order == [] then []
    else
      var rest := Candidates(order[1..], neutron);
      if IsNetworkSwitch(order[0]) && NetworkId(order[0]) !in neutron.listed then [order[0]] + rest else rest
  }

  function NetworkSwitches(order: seq<string>): (r: seq<string>)
    ensures forall n :: n in r <==> n in order && IsNetworkSwitch(n)
  {
    if order == [] then []
    else
      var rest := NetworkSwitches(order[1..]);
      if IsNetworkSwitch(order[0]) then [order[0]] + rest else rest
  }

  /** The ports that sit on a network switch, each with the name of its switch. */
  predicate OnSwitch(net: Net, u: Uuid, name: string) {
    IsNetworkSwitch(name) && name in net.switches && u in net.switches[name]
  }

  method FindGroup(net: Net, name: string) returns (g: Option<Uuid>)
    ensures GroupNamed(net, name, g)
  {
    if u :| u in net.groups && net.groups[u] == name {
      return Some(u);
    }
    return None;
  }

  /** One suspect: gone for certain and referred to from nowhere else, or the reason to leave it alone. */
  method JudgeSwitch(net: Net, neutron: Neutron, name: string) returns (r: Result<Item, Reason>)
    requires name in net.switches && IsNetworkSwitch(name) && NetworkId(name) !in neutron.listed
    ensures r.Ok? ==> r.value.switch == name && Accurate(net, r.value) && ConfirmedGone(neutron, name)
    ensures r.Err? ==> SkipOk(net, neutron, Skip(name, r.error))
    ensures neutron.show(NetworkId(name)) != Some(false) ==> r.Err?
    ensures WellFormed(net) && SharedGroup(net, name) ==> r.Err?
  {
    var answer := neutron.show(NetworkId(name));
    if answer == Some(true) {
      return Err(StillLive);
    }
    if answer == None {
      return Err(Unconfirmed);
    }
    assert answer.Some? && answer.value == false;
    var hcg := FindGroup(net, name);
    var refLsps := Refs(net.lsps, hcg);
    if u :| u in refLsps && !OnSwitch(net, u, name) {
      return Err(ForeignReference);
    }
    return Ok(Item(name, hcg, refLsps, Refs(net.lrps, hcg)));
  }

  /** The switch's group is referred to by a port that is not on the switch. */
  ghost predicate SharedGroup(net: Net, name: string)
    requires name in net.switches
  {
    exists g, u :: g in net.groups && net.groups[g] == name && u in net.lsps && net.lsps[u] == Some(g)
                   && u !in net.switches[name]
  }

  /** The reason given for leaving a switch alone is true. */
  ghost predicate SkipOk(net: Net, neutron: Neutron, skip: Skip) {
    skip.switch in net.switches && IsNetworkSwitch(skip.switch) &&
    match skip.reason
    case StillLive => neutron.show(NetworkId(skip.switch)) == Some(true)
    case Unconfirmed => neutron.show(NetworkId(skip.switch)) == None
    case ForeignReference => neutron.show(NetworkId(skip.switch)) == Some(false) && SharedGroup(net, skip.switch)
  }

  /** The switch is planned for removal, or skipped for a reason. */
  ghost predicate Judged(plan: seq<Item>, skipped: seq<Skip>, name: string) {
    || (exists k :: 0 <= k < |plan| && plan[k].switch == name)
    || (exists k :: 0 <= k < |skipped| && skipped[k].switch == name)
  }

  lemma JudgedMore(plan: seq<Item>, skipped: seq<Skip>, plan': seq<Item>, skipped': seq<Skip>, name: string)
    requires Judged(plan, skipped, name) && plan <= plan' && skipped <= skipped'
    ensures Judged(plan', skipped', name)
  {
    if k :| 0 <= k < |plan| && plan[k].switch == name {
      assert plan'[k].switch == name;
    } else {
      var j :| 0 <= j < |skipped| && skipped[j].switch == name;
      assert skipped'[j].switch == name;
    }
  }

  ghost predicate DistinctSwitches(plan: seq<Item>) {
    forall i, j :: 0 <= i < j < |plan| ==> plan[i].switch != plan[j].switch
  }

  ghost predicate PlanOk(net: Net, neutron: Neutron, plan: seq<Item>) {
    && (forall i :: 0 <= i < |plan| ==> Accurate(net, plan[i]) && ConfirmedGone(neutron, plan[i].switch))
    && DistinctSwitches(plan)
  }

  /** Only confirmed orphans are planned, each once, and unforced at most half of all network switches. */
  method PlanOrphanCleanup(net: Net, order: seq<string>, neutron: Neutron, force: bool)
    returns (r: Result<(seq<Item>, seq<Skip>), Abort>)
    requires NoDup(order)
    requires forall n :: n in order <==> n in net.switches
    ensures neutron.listed == {} <==> r == Err(NoNetworks)
    ensures r.Ok? ==> PlanOk(net, neutron, r.value.0)
    ensures r.Ok? && !force ==> 2 * |r.value.0| <= |NetworkSwitches(order)|
    ensures r.Ok? ==> (forall k :: 0 <= k < |r.value.1| ==> SkipOk(net, neutron, r.value.1[k]))
                      && |r.value.0| + |r.value.1| == |Candidates(order, neutron)|
                      && forall n :: n in Candidates(order, neutron) ==> Judged(r.value.0, r.value.1, n)
    ensures r == Err(TooManyOrphans) <==>
              neutron.listed != {} && !force && 2 * |Candidates(order, neutron)| > |NetworkSwitches(order)|
  {
    if neutron.listed == {} {
      return Err(NoNetworks);
    }
    var candidates := Candidates(order, neutron);
    CandidatesDistinct(order, neutron);
    if 2 * |candidates| > |NetworkSwitches(order)| && !force {
      return Err(TooManyOrphans);
    }
    var plan: seq<Item> := [];
    var skipped: seq<Skip> := [];
    for i := 0 to |candidates|
      invariant JudgedUpTo(net, neutron, candidates, i, plan, skipped)
    {
      assert candidates[i] in candidates;
      var judged := JudgeSwitch(net, neutron, candidates[i]);
      match judged {
        case Ok(item) =>
          PlanMore(net, neutron, candidates, i, plan, skipped, item);
          plan := plan + [item];
        case Err(reason) =>
          SkipMore(net, neutron, candidates, i, plan, skipped, Skip(candidates[i], reason));
          skipped := skipped + [Skip(candidates[i], reason)];
      }
    }
    return Ok((plan, skipped));
  }

  /** The first i candidates have been planned or skipped, each once and rightly. */
  ghost predicate JudgedUpTo(net: Net, neutron: Neutron, candidates: seq<string>, i: nat, plan: seq<Item>,
                             skipped: seq<Skip>)
    requires i <= |candidates|
  {
    && |plan| + |skipped| == i && PlanOk(net, neutron, plan)
    && (forall k :: 0 <= k < |plan| ==> plan[k].switch in candidates[..i])
    && (forall k :: 0 <= k < |skipped| ==> SkipOk(net, neutron, skipped[k]))
    && (forall c :: 0 <= c < i ==> Judged(plan, skipped, candidates[c]))
  }

  lemma PlanMore(net: Net, neutron: Neutron, candidates: seq<string>, i: nat, plan: seq<Item>, skipped: seq<Skip>,
                 item: Item)
    requires i < |candidates| && JudgedUpTo(net, neutron, candidates, i, plan, skipped)
    requires NoDup(candidates)
    requires item.switch == candidates[i] && Accurate(net, item) && ConfirmedGone(neutron, item.switch)
    ensures JudgedUpTo(net, neutron, candidates, i + 1, plan + [item], skipped)
  {
    var plan' := plan + [item];
    assert candidates[..i + 1] == candidates[..i] + [candidates[i]];
    assert candidates[i] !in candidates[..i];
    assert plan'[|plan|].switch == candidates[i];
    forall c | 0 <= c < i ensures Judged(plan', skipped, candidates[c]) {
      JudgedMore(plan, skipped, plan', skipped, candidates[c]);
    }
  }

  lemma SkipMore(net: Net, neutron: Neutron, candidates: seq<string>, i: nat, plan: seq<Item>, skipped: seq<Skip>,
                 skip: Skip)
    requires i < |candidates| && JudgedUpTo(net, neutron, candidates, i, plan, skipped)
    requires skip.switch == candidates[i] && SkipOk(net, neutron, skip)
    ensures JudgedUpTo(net, neutron, candidates, i + 1, plan, skipped + [skip])
  {
    var skipped' := skipped + [skip];
    assert candidates[..i + 1] == candidates[..i] + [candidates[i]];
    assert skipped'[|skipped|].switch == candidates[i];
    forall c | 0 <= c < i ensures Judged(plan, skipped', candidates[c]) {
      JudgedMore(plan, skipped, plan, skipped', candidates[c]);
    }
  }

  lemma {:induction false} CandidatesDistinct(order: seq<string>, neutron: Neutron)
    requires NoDup(order)
    ensures NoDup(Candidates(order, neutron))
  {
    if order != [] {
      CandidatesDistinct(order[1..], neutron);
      assert order[0] !in order[1..];
      assert order[0] !in Candidates(order[1..], neutron);
    }
  }

  // ----- one transaction

  function ClearRefs(rows: map<Uuid, Option<Uuid>>, ports: set<Uuid>): map<Uuid, Option<Uuid>> {
    map u | u in rows :: if u in ports then None else rows[u]
  }

  /** Clear the listed references, delete the switch with its ports, destroy the group. */
  function Teardown(net: Net, p: Item): Net {
    var ports := if p.switch in net.switches then net.switches[p.switch] else {};
    Net(net.switches - {p.switch},
        ClearRefs(net.lsps, p.refLsps) - ports,
        ClearRefs(net.lrps, p.refLrps),
        if p.hcg.Some? then net.groups - {p.hcg.value} else net.groups)
  }

  /** The database refuses a transaction that would break a reference. */
  function Commit(net: Net, p: Item): Net {
    if Integrity(Teardown(net, p)) then Teardown(net, p) else net
  }

  /** The rows with exactly the references to groups that are gone cleared. */
  function Unreferred(rows: map<Uuid, Option<Uuid>>, groups: map<Uuid, string>): map<Uuid, Option<Uuid>> {
    map u | u in rows :: if rows[u].Some? && rows[u].value in groups then rows[u] else None
  }

  /** The groups that are not named after one of the switches. */
  ghost function Surviving(net: Net, gone: set<string>): map<Uuid, string> {
    map g | g in net.groups && net.groups[g] !in gone :: net.groups[g]
  }

  /** The transaction goes through, removes its switch and group, leaves the ports of every other switch as they
      were, and drops no reference except those to its own group. */
  lemma TeardownIsSafe(net: Net, p: Item)
    requires WellFormed(net) && Accurate(net, p)
    ensures Commit(net, p) == Teardown(net, p) && WellFormed(Teardown(net, p))
    ensures var after := Teardown(net, p);
            && after.switches == net.switches - {p.switch}
            && (forall u :: u in net.lsps && u !in net.switches[p.switch] ==>
                 u in after.lsps && after.lsps[u] == net.lsps[u])
            && after.lrps == Unreferred(net.lrps, after.groups)
            && after.groups == Surviving(net, {p.switch})
  {
    var after := Teardown(net, p);
    forall u | u in after.lsps && after.lsps[u].Some? ensures after.lsps[u].value in after.groups {
      assert u in net.lsps && u !in p.refLsps;
    }
    forall u | u in after.lrps && after.lrps[u].Some? ensures after.lrps[u].value in after.groups {
      assert u in net.lrps && u !in p.refLrps;
    }
  }

  /** An item stays accurate while other switches are torn down. */
  lemma TeardownKeepsAccurate(net: Net, q: Item, p: Item)
    requires WellFormed(net) && Accurate(net, q) && Accurate(net, p) && q.switch != p.switch
    ensures Accurate(Teardown(net, q), p)
  {
    var after := Teardown(net, q);
    TeardownIsSafe(net, q);
    assert p.hcg.Some? ==> p.hcg != q.hcg;
    forall u ensures u in Refs(after.lsps, p.hcg) <==> u in p.refLsps {
      if u in p.refLsps {
        assert u in net.switches[p.switch] && u !in net.switches[q.switch];
      }
    }
    forall u ensures u in Refs(after.lrps, p.hcg) <==> u in p.refLrps {
    }
  }

  // ----- the whole phase

  function TeardownAll(net: Net, plan: seq<Item>): Net
    decreases |plan|
  {
    if plan == [] then net else TeardownAll(Commit(net, plan[0]), plan[1..])
  }

  ghost function Switches(plan: seq<Item>): set<string> {
    set i | 0 <= i < |plan| :: plan[i].switch
  }

  predicate OnOneOf(net: Net, switches: set<string>, u: Uuid) {
    exists s :: s in switches && s in net.switches && u in net.switches[s]
  }

  /** The switch ports that are on none of the switches. */
  ghost function PortsOff(net: Net, gone: set<string>): map<Uuid, Option<Uuid>> {
    map u | u in net.lsps && !OnOneOf(net, gone, u) :: net.lsps[u]
  }

  /** Exactly these switches with their ports and the groups named after them are gone, router ports lost exactly the
      references to those groups, every other port keeps its own, and integrity holds. */
  ghost predicate TornDown(net: Net, gone: set<string>, after: Net) {
    && WellFormed(after) && after.switches == net.switches - gone && after.lsps == PortsOff(net, gone)
    && after.groups == Surviving(net, gone) && after.lrps == Unreferred(net.lrps, after.groups)
  }

  lemma NothingTornDown(net: Net)
    requires WellFormed(net)
    ensures TornDown(net, {}, net)
  {
    assert net.switches - {} == net.switches;
    assert Unreferred(net.lrps, net.groups) == net.lrps;
    assert PortsOff(net, {}) == net.lsps;
  }

  lemma OneTornDown(net: Net, p: Item)
    requires WellFormed(net) && Accurate(net, p)
    ensures Commit(net, p) == Teardown(net, p) && TornDown(net, {p.switch}, Teardown(net, p))
  {
    TeardownIsSafe(net, p);
    forall u ensures OnOneOf(net, {p.switch}, u) <==> u in net.switches[p.switch] {
    }
    assert Teardown(net, p).lsps == PortsOff(net, {p.switch});
  }

  lemma PortsOffBoth(net: Net, a: set<string>, mid: Net, b: set<string>)
    requires mid.switches == net.switches - a && mid.lsps == PortsOff(net, a)
    ensures PortsOff(mid, b) == PortsOff(net, a + b)
  {
    forall u ensures OnOneOf(net, a + b, u) <==> OnOneOf(net, a, u) || OnOneOf(mid, b, u) {
      if s :| s in a + b && s in net.switches && u in net.switches[s] {
        assert s in a || (s in b && s in mid.switches && u in mid.switches[s]);
      }
    }
  }

  lemma MoreTornDown(net: Net, a: set<string>, mid: Net, b: set<string>, after: Net)
    requires TornDown(net, a, mid) && TornDown(mid, b, after)
    ensures TornDown(net, a + b, after)
  {
    assert after.switches == net.switches - (a + b);
    assert after.groups == Surviving(net, a + b);
    assert after.lrps == Unreferred(net.lrps, after.groups);
    PortsOffBoth(net, a, mid, b);
  }

  ghost predicate SafePlan(net: Net, plan: seq<Item>) {
    WellFormed(net) && DistinctSwitches(plan) && forall i :: 0 <= i < |plan| ==> Accurate(net, plan[i])
  }

  /** All transactions of an accurate plan go through, and tear down exactly the planned switches. */
  lemma {:induction false} TeardownAllIsSafe(net: Net, plan: seq<Item>)
    requires SafePlan(net, plan)
    ensures TornDown(net, Switches(plan), TeardownAll(net, plan))
    decreases |plan|
  {
    if plan == [] {
      NothingTornDown(net);
    } else {
      var p, rest := plan[0], plan[1..];
      OneTornDown(net, p);
      var mid := Teardown(net, p);
      forall i | 0 <= i < |rest| ensures Accurate(mid, rest[i]) {
        TeardownKeepsAccurate(net, p, plan[i + 1]);
      }
      TeardownAllIsSafe(mid, rest);
      MoreTornDown(net, {p.switch}, mid, Switches(rest), TeardownAll(mid, rest));
      SwitchesStep(plan);
    }
  }

  // ----- the run, in which a transaction may also fail for reasons of its own

  /** Those of the first n items whose transaction reaches the database. */
  function ChosenUpTo(plan: seq<Item>, works: seq<bool>, n: nat): seq<Item>
    requires n <= |plan| == |works|
  {
    if n == 0 then []
    else ChosenUpTo(plan, works, n - 1) + if works[n - 1] then [plan[n - 1]] else []
  }

  function Chosen(plan: seq<Item>, works: seq<bool>): seq<Item>
    requires |works| == |plan|
  {
    ChosenUpTo(plan, works, |plan|)
  }

  lemma {:induction false} TeardownSnoc(net: Net, plan: seq<Item>, p: Item)
    ensures TeardownAll(net, plan + [p]) == Commit(TeardownAll(net, plan), p)
    decreases |plan|
  {
    if plan == [] {
      assert plan + [p] == [p];
    } else {
      TeardownSnoc(Commit(net, plan[0]), plan[1..], p);
      assert (plan + [p])[1..] == plan[1..] + [p];
    }
  }

  /** What is still to do stays accurate. */
  ghost predicate StillSafe(net: Net, plan: seq<Item>, i: nat) {
    WellFormed(net) && forall k :: i <= k < |plan| ==> Accurate(net, plan[k])
  }

  lemma SafeStep(net: Net, plan: seq<Item>, i: nat)
    requires StillSafe(net, plan, i) && DistinctSwitches(plan) && i < |plan|
    ensures StillSafe(Teardown(net, plan[i]), plan, i + 1) && StillSafe(net, plan, i + 1)
    ensures Integrity(Teardown(net, plan[i]))
  {
    TeardownIsSafe(net, plan[i]);
    forall k | i + 1 <= k < |plan| ensures Accurate(Teardown(net, plan[i]), plan[k]) {
      TeardownKeepsAccurate(net, plan[i], plan[k]);
    }
  }

  /** The state after the first i transactions, with the number of those that went through. */
  ghost predicate Tried(net: Net, plan: seq<Item>, works: seq<bool>, i: nat, after: Net, removed: nat)
    requires i <= |plan| == |works|
  {
    && after == TeardownAll(net, ChosenUpTo(plan, works, i))
    && (SafePlan(net, plan) ==> StillSafe(after, plan, i) && removed == |ChosenUpTo(plan, works, i)|)
  }

  lemma TriedNothing(net: Net, plan: seq<Item>, works: seq<bool>)
    requires |works| == |plan|
    ensures Tried(net, plan, works, 0, net, 0)
  {
  }

  lemma TriedAll(net: Net, plan: seq<Item>, works: seq<bool>, after: Net, removed: nat)
    requires |works| == |plan| && Tried(net, plan, works, |plan|, after, removed)
    ensures after == TeardownAll(net, Chosen(plan, works))
    ensures SafePlan(net, plan) ==> removed == |Chosen(plan, works)| && WellFormed(after)
  {
  }

  lemma TriedWorks(net: Net, plan: seq<Item>, works: seq<bool>, i: nat, after: Net, removed: nat)
    requires i < |plan| == |works| && Tried(net, plan, works, i, after, removed)
    requires works[i] && Integrity(Teardown(after, plan[i]))
    ensures Tried(net, plan, works, i + 1, Teardown(after, plan[i]), removed + 1)
  {
    TeardownSnoc(net, ChosenUpTo(plan, works, i), plan[i]);
    if SafePlan(net, plan) {
      SafeStep(after, plan, i);
    }
  }

  lemma TriedFails(net: Net, plan: seq<Item>, works: seq<bool>, i: nat, after: Net, removed: nat)
    requires i < |plan| == |works| && Tried(net, plan, works, i, after, removed)
    requires !works[i] || !Integrity(Teardown(after, plan[i]))
    ensures Tried(net, plan, works, i + 1, after, removed)
  {
    TeardownSnoc(net, ChosenUpTo(plan, works, i), plan[i]);
    assert ChosenUpTo(plan, works, i) + [] == ChosenUpTo(plan, works, i);
    if SafePlan(net, plan) {
      SafeStep(after, plan, i);
    }
  }

  /** One transaction per item: a failure neither stops nor undoes the others, and the database itself refuses
      nothing of an accurate plan. */
  method ExecuteOrphanCleanup(net: Net, plan: seq<Item>, works: seq<bool>)
    returns (after: Net, removed: nat, failed: nat)
    requires |works| == |plan|
    ensures after == TeardownAll(net, Chosen(plan, works))
    ensures removed + failed == |plan|
    ensures SafePlan(net, plan) ==> removed == |Chosen(plan, works)| && WellFormed(after)
  {
    after, removed, failed := net, 0, 0;
    TriedNothing(net, plan, works);
    for i := 0 to |plan|
      invariant removed + failed == i && Tried(net, plan, works, i, after, removed)
    {
      if works[i] && Integrity(Teardown(after, plan[i])) {
        TriedWorks(net, plan, works, i, after, removed);
        after, removed := Teardown(after, plan[i]), removed + 1;
      } else {
        TriedFails(net, plan, works, i, after, removed);
        failed := failed + 1;
      }
    }
    TriedAll(net, plan, works, after, removed);
  }

  lemma {:induction false} ChosenFromPlan(plan: seq<Item>, works: seq<bool>, n: nat, p: Item)
    requires n <= |plan| == |works|
    ensures p in ChosenUpTo(plan, works, n) <==> exists i :: 0 <= i < n && plan[i] == p && works[i]
  {
    if n > 0 {
      ChosenFromPlan(plan, works, n - 1, p);
    }
  }

  lemma {:induction false} ChosenDistinct(plan: seq<Item>, works: seq<bool>, n: nat)
    requires n <= |plan| == |works| && DistinctSwitches(plan)
    ensures DistinctSwitches(ChosenUpTo(plan, works, n)) && |ChosenUpTo(plan, works, n)| <= n
  {
    if n > 0 {
      ChosenDistinct(plan, works, n - 1);
      var before := ChosenUpTo(plan, works, n - 1);
      forall k | 0 <= k < |before| ensures before[k].switch != plan[n - 1].switch {
        ChosenFromPlan(plan, works, n - 1, before[k]);
        assert before[k] in before;
      }
    }
  }

  /** Leaving out some items of a safe plan leaves a safe plan. */
  lemma ChosenIsSafe(net: Net, neutron: Neutron, plan: seq<Item>, works: seq<bool>)
    requires |works| == |plan| && PlanOk(net, neutron, plan)
    ensures PlanOk(net, neutron, Chosen(plan, works)) && |Chosen(plan, works)| <= |plan|
    ensures forall p :: p in Chosen(plan, works) ==> p in plan
  {
    var chosen := Chosen(plan, works);
    ChosenDistinct(plan, works, |plan|);
    forall p | p in chosen ensures p in plan && Accurate(net, p) && ConfirmedGone(neutron, p.switch) {
      ChosenFromPlan(plan, works, |plan|, p);
    }
    assert forall i :: 0 <= i < |chosen| ==> chosen[i] in chosen;
  }

  lemma SwitchesStep(plan: seq<Item>)
    requires plan != []
    ensures Switches(plan) == {plan[0].switch} + Switches(plan[1..])
  {
    var all, rest := Switches(plan), Switches(plan[1..]);
    forall s | s in all ensures s == plan[0].switch || s in rest {
      var i :| 0 <= i < |plan| && plan[i].switch == s;
      assert i > 0 ==> plan[1..][i - 1] == plan[i];
    }
    forall s | s in rest ensures s in all {
      var i :| 0 <= i < |plan[1..]| && plan[1..][i].switch == s;
      assert plan[i + 1] == plan[1..][i];
    }
  }

  ghost function Gone(net: Net, after: Net): set<string> {
    net.switches.Keys - after.switches.Keys
  }

  /** Whichever transactions get through, only confirmed orphans go, at most as many as were planned, and every
      other switch, group and reference stays. */
  lemma PlanTearsDownSafely(net: Net, neutron: Neutron, plan: seq<Item>, works: seq<bool>)
    requires WellFormed(net) && PlanOk(net, neutron, plan) && |works| == |plan|
    ensures var after := TeardownAll(net, Chosen(plan, works));
            && TornDown(net, Gone(net, after), after) && |Gone(net, after)| <= |plan|
            && Gone(net, after) == Switches(Chosen(plan, works))
            && forall s :: s in Gone(net, after) ==> ConfirmedGone(neutron, s)
  {
    var chosen := Chosen(plan, works);
    ChosenIsSafe(net, neutron, plan, works);
    TeardownAllIsSafe(net, chosen);
    SwitchCount(chosen);
    PlannedGone(net, neutron, chosen);
    GoneAre(net, Switches(chosen), TeardownAll(net, chosen));
  }

  lemma PlannedGone(net: Net, neutron: Neutron, plan: seq<Item>)
    requires PlanOk(net, neutron, plan)
    ensures Switches(plan) <= net.switches.Keys && forall s :: s in Switches(plan) ==> ConfirmedGone(neutron, s)
  {
  }

  lemma GoneAre(net: Net, gone: set<string>, after: Net)
    requires gone <= net.switches.Keys && after.switches == net.switches - gone
    ensures Gone(net, after) == gone
  {
  }

  /** A network switch that may go: its network is confirmed gone, and no port elsewhere refers to its group. */
  ghost predicate Removable(net: Net, neutron: Neutron, name: string) {
    name in net.switches && ConfirmedGone(neutron, name) && !SharedGroup(net, name)
  }

  ghost function AllRemovable(net: Net, neutron: Neutron): set<string> {
    set n | n in net.switches && Removable(net, neutron, n)
  }

  lemma AccurateIsUnshared(net: Net, p: Item)
    requires WellFormed(net) && Accurate(net, p)
    ensures !SharedGroup(net, p.switch)
  {
    forall g, u | g in net.groups && net.groups[g] == p.switch && u in net.lsps && net.lsps[u] == Some(g)
      ensures u in net.switches[p.switch]
    {
      assert p.hcg == Some(g);
      assert u in p.refLsps;
    }
  }

  /** The plan names exactly the switches that may go. */
  lemma PlanIsExact(net: Net, order: seq<string>, neutron: Neutron, plan: seq<Item>, skipped: seq<Skip>)
    requires WellFormed(net) && PlanOk(net, neutron, plan) && forall n :: n in order <==> n in net.switches
    requires forall k :: 0 <= k < |skipped| ==> SkipOk(net, neutron, skipped[k])
    requires forall n :: n in Candidates(order, neutron) ==> Judged(plan, skipped, n)
    ensures Switches(plan) == AllRemovable(net, neutron)
  {
    forall i | 0 <= i < |plan| ensures Removable(net, neutron, plan[i].switch) {
      AccurateIsUnshared(net, plan[i]);
    }
    forall n | Removable(net, neutron, n) ensures n in Switches(plan) {
      assert n in Candidates(order, neutron) && Judged(plan, skipped, n);
      forall k | 0 <= k < |skipped| ensures skipped[k].switch != n {
        assert SkipOk(net, neutron, skipped[k]);
      }
    }
  }

  /** Those of the switches whose transaction works. */
  ghost function Working(switches: set<string>, works: string -> bool): set<string> {
    set n | n in switches && works(n)
  }

  lemma ChosenAreWorking(plan: seq<Item>, works: string -> bool, outcomes: seq<bool>)
    requires |outcomes| == |plan| && forall i :: 0 <= i < |plan| ==> outcomes[i] == works(plan[i].switch)
    ensures Switches(Chosen(plan, outcomes)) == Working(Switches(plan), works)
  {
    var chosen := Chosen(plan, outcomes);
    forall i | 0 <= i < |chosen| ensures chosen[i].switch in Working(Switches(plan), works) {
      ChosenFromPlan(plan, outcomes, |plan|, chosen[i]);
      assert chosen[i] in chosen;
    }
    forall i | 0 <= i < |plan| && works(plan[i].switch) ensures plan[i].switch in Switches(chosen) {
      ChosenFromPlan(plan, outcomes, |plan|, plan[i]);
      assert plan[i] in chosen;
    }
  }

  // ----- the same by network ids

  lemma SwitchOfNetwork(id: string)
    ensures IsNetworkSwitch("neutron-" + id) && NetworkId("neutron-" + id) == id
  {
    var name := "neutron-" + id;
    assert name[|PREFIX|..] == id && name[..|PREFIX|] == PREFIX;
  }

  lemma NetworkOfSwitch(name: string)
    requires IsNetworkSwitch(name)
    ensures name == "neutron-" + NetworkId(name)
  {
    assert name == name[..|PREFIX|] + name[|PREFIX|..];
  }

  /** Neutron's word on a network and its switch: unlisted, denied by direct lookup, and referred to from nowhere
      else. */
  ghost predicate Orphaned(net: Net, neutron: Neutron, id: string) {
    && "neutron-" + id in net.switches && id !in neutron.listed && neutron.show(id) == Some(false)
    && forall g, u :: g in net.groups && net.groups[g] == "neutron-" + id && u in net.lsps && net.lsps[u] == Some(g) ==>
                        u in net.switches["neutron-" + id]
  }

  lemma RemovableMeaning(net: Net, neutron: Neutron, id: string)
    ensures "neutron-" + id in AllRemovable(net, neutron) <==> Orphaned(net, neutron, id)
  {
    SwitchOfNetwork(id);
  }

  /** The switch of a listed network stays, that of another network goes exactly if it is orphaned and its transaction
      works, and switches of no network stay. */
  ghost predicate GoneByNetwork(net: Net, neutron: Neutron, works: string -> bool, after: Net) {
    && (forall id :: id in neutron.listed && "neutron-" + id in net.switches ==> "neutron-" + id in after.switches)
    && (forall id :: "neutron-" + id in net.switches ==>
          ("neutron-" + id in after.switches <==> !(Orphaned(net, neutron, id) && works("neutron-" + id))))
    && (forall n :: n in net.switches && !("neutron-" <= n) ==> n in after.switches)
  }

  lemma ByNetwork(net: Net, neutron: Neutron, works: string -> bool, after: Net)
    requires Gone(net, after) == Working(AllRemovable(net, neutron), works)
    ensures GoneByNetwork(net, neutron, works, after)
  {
    forall id | "neutron-" + id in net.switches
      ensures "neutron-" + id in after.switches <==> !(Orphaned(net, neutron, id) && works("neutron-" + id))
    {
      RemovableMeaning(net, neutron, id);
      assert "neutron-" + id in after.switches <==> "neutron-" + id !in Gone(net, after);
    }
    forall n | n in net.switches && !("neutron-" <= n) ensures n in after.switches {
      assert n !in AllRemovable(net, neutron);
      assert n !in Gone(net, after);
    }
  }

  function NetworkSwitchesOf(net: Net): set<string> {
    set n | n in net.switches && "neutron-" <= n
  }

  /** The network switches whose network neutron does not list. */
  function Suspects(net: Net, neutron: Neutron): set<string> {
    set n | n in net.switches && "neutron-" <= n && n[8..] !in neutron.listed
  }

  lemma CountNetworkSwitches(net: Net, order: seq<string>)
    requires NoDup(order) && forall n :: n in order <==> n in net.switches
    ensures |NetworkSwitches(order)| == |NetworkSwitchesOf(net)|
  {
    NetworkSwitchesDistinct(order);
    NoDupLength(NetworkSwitches(order));
    assert (set n | n in NetworkSwitches(order)) == NetworkSwitchesOf(net);
  }

  lemma CountSuspects(net: Net, order: seq<string>, neutron: Neutron)
    requires NoDup(order) && forall n :: n in order <==> n in net.switches
    ensures |Candidates(order, neutron)| == |Suspects(net, neutron)|
  {
    CandidatesDistinct(order, neutron);
    NoDupLength(Candidates(order, neutron));
    assert (set n | n in Candidates(order, neutron)) == Suspects(net, neutron);
  }

  lemma {:induction false} NetworkSwitchesDistinct(order: seq<string>)
    requires NoDup(order)
    ensures NoDup(NetworkSwitches(order))
  {
    if order != [] {
      NetworkSwitchesDistinct(order[1..]);
      assert order[0] !in order[1..];
    }
  }

  lemma PhaseOutcome(net: Net, order: seq<string>, neutron: Neutron, works: string -> bool, plan: seq<Item>,
                     skipped: seq<Skip>, outcomes: seq<bool>)
    requires WellFormed(net) && PlanOk(net, neutron, plan) && forall n :: n in order <==> n in net.switches
    requires forall k :: 0 <= k < |skipped| ==> SkipOk(net, neutron, skipped[k])
    requires forall n :: n in Candidates(order, neutron) ==> Judged(plan, skipped, n)
    requires |outcomes| == |plan| && forall i :: 0 <= i < |plan| ==> outcomes[i] == works(plan[i].switch)
    ensures var after := TeardownAll(net, Chosen(plan, outcomes));
            && TornDown(net, Gone(net, after), after) && GoneByNetwork(net, neutron, works, after)
            && Gone(net, after) == Working(AllRemovable(net, neutron), works) && |Gone(net, after)| <= |plan|
  {
    PlanTearsDownSafely(net, neutron, plan, outcomes);
    ChosenAreWorking(plan, works, outcomes);
    PlanIsExact(net, order, neutron, plan, skipped);
    ByNetwork(net, neutron, works, TeardownAll(net, Chosen(plan, outcomes)));
  }

  /** The whole phase. It aborts exactly if neutron lists no network or, unforced, more than half of the network
      switches are suspects. Otherwise exactly the switches that may go and whose transaction works are removed,
      which unforced are at most half of the network switches. */
  method RunOrphanPhase(net: Net, order: seq<string>, neutron: Neutron, force: bool, works: string -> bool)
    returns (r: Result<Net, Abort>)
    requires WellFormed(net)
    requires NoDup(order)
    requires forall n :: n in order <==> n in net.switches
    ensures r == Err(NoNetworks) <==> neutron.listed == {}
    ensures r == Err(TooManyOrphans) <==>
              neutron.listed != {} && !force && 2 * |Suspects(net, neutron)| > |NetworkSwitchesOf(net)|
    ensures r.Ok? ==> GoneByNetwork(net, neutron, works, r.value)
    ensures r.Ok? ==>
              && TornDown(net, Gone(net, r.value), r.value)
              && Gone(net, r.value) == Working(AllRemovable(net, neutron), works)
              && (!force ==> 2 * |Gone(net, r.value)| <= |NetworkSwitchesOf(net)|)
  {
    CountNetworkSwitches(net, order);
    CountSuspects(net, order, neutron);
    var planned := PlanOrphanCleanup(net, order, neutron, force);
    if planned.Err? {
      return Err(planned.error);
    }
    var (plan, skipped) := planned.value;
    var outcomes := seq(|plan|, i requires 0 <= i < |plan| => works(plan[i].switch));
    var after, removed, failed := ExecuteOrphanCleanup(net, plan, outcomes);
    PhaseOutcome(net, order, neutron, works, plan, skipped, outcomes);
    return Ok(after);
  }

  lemma {:induction false} SwitchCount(plan: seq<Item>)
    ensures |Switches(plan)| <= |plan|
  {
    if plan != [] {
      SwitchCount(plan[1..]);
      SwitchesStep(plan);
    }
  }
}
