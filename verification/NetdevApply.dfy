/** Applying the planned port changes in any order: MAC uniqueness, convergence and idempotence. */
module NetdevApply {
  import opened Common
  import opened PyText
  import opened NetdevPlan

  /** An accepted request against the ports found at planning time. */
  datatype Job = Job(base: seq<Port>, node: string, physnet: string, reqs: seq<NetdevPort>)

  /** Planning met no MAC conflict. */
  ghost predicate Plannable(job: Job) {
    && GoodRequest(job.reqs)
    && forall q :: 0 <= q < |job.reqs| ==> PlanPort(job.base, job.node, job.physnet, job.reqs[q]).Some?
  }

  ghost function PlanAt(job: Job, q: nat): Plan
    requires Plannable(job) && q < |job.reqs|
  {
    PlanPort(job.base, job.node, job.physnet, job.reqs[q]).value
  }

  ghost predicate Targets(job: Job, q: nat, i: nat)
    requires Plannable(job) && q < |job.reqs|
  {
    PlanAt(job, q).Update? && PlanAt(job, q).index == i
  }

  ghost function Fresh(job: Job, q: nat): Port
    requires q < |job.reqs|
  {
    NewPort(job.node, job.physnet, job.reqs[q])
  }

  function NameAt(job: Job, q: nat): string
    requires q < |job.reqs|
  {
    PortName(job.node, job.reqs[q].portLabel)
  }

  lemma NamesDiffer(job: Job, q: nat, r: nat)
    requires GoodRequest(job.reqs) && q < |job.reqs| && r < |job.reqs| && q != r
    ensures NameAt(job, q) != NameAt(job, r)
  {
    var n := |job.node + ":"|;
    assert NameAt(job, q)[n..] == job.reqs[q].portLabel && NameAt(job, r)[n..] == job.reqs[r].portLabel;
    assert job.reqs[q].portLabel != job.reqs[r].portLabel;
  }

  lemma TargetsDiffer(job: Job, q: nat, r: nat, i: nat)
    requires Plannable(job) && q < |job.reqs| && r < |job.reqs| && Targets(job, q, i) && Targets(job, r, i)
    ensures q == r
  {
    if q != r {
      NamesDiffer(job, q, r);
    }
  }

  // ----- the ports after some of the plans, in any order

  /** Exactly the plans of the requests in done have been applied. */
  ghost predicate Applied(job: Job, done: set<nat>, ports: seq<Port>)
    requires Plannable(job) && forall q :: q in done ==> q < |job.reqs|
  {
    && |ports| >= |job.base|
    && (forall q :: q in done && PlanAt(job, q).Update? ==>
          ports[PlanAt(job, q).index] == Patched(job.base[PlanAt(job, q).index], PlanAt(job, q).patch))
    && (forall i {:trigger Untouched(job, done, i)} :: 0 <= i < |job.base| && Untouched(job, done, i) ==>
          ports[i] == job.base[i])
    && (forall i {:trigger CreatedAt(job, done, ports[i])} :: |job.base| <= i < |ports| ==>
          CreatedAt(job, done, ports[i]))
    && (forall q :: q in done && PlanAt(job, q).Create? ==> Fresh(job, q) in ports[|job.base|..])
    && (forall i, j :: |job.base| <= i < j < |ports| ==> ports[i].name != ports[j].name)
  }

  /** None of these requests is about the port. */
  ghost predicate Untouched(job: Job, done: set<nat>, i: nat)
    requires Plannable(job) && forall q :: q in done ==> q < |job.reqs|
  {
    forall q :: q in done ==> !Targets(job, q, i)
  }

  ghost predicate CreatedAt(job: Job, done: set<nat>, p: Port)
    requires Plannable(job) && forall q :: q in done ==> q < |job.reqs|
  {
    exists q :: q in done && PlanAt(job, q).Create? && p == Fresh(job, q)
  }

  lemma AppliedNothing(job: Job)
    requires Plannable(job)
    ensures Applied(job, {}, job.base)
  {
  }

  lemma ApplyUpdate(job: Job, done: set<nat>, ports: seq<Port>, q: nat)
    requires Plannable(job) && (forall r :: r in done ==> r < |job.reqs|) && q < |job.reqs| && q !in done
    requires Applied(job, done, ports) && PlanAt(job, q).Update?
    ensures Applied(job, done + {q}, ApplyPlan(ports, job.node, job.physnet, job.reqs[q], PlanAt(job, q)))
  {
    var i, done' := PlanAt(job, q).index, done + {q};
    var ports' := ApplyPlan(ports, job.node, job.physnet, job.reqs[q], PlanAt(job, q));
    forall r | r in done ensures !Targets(job, r, i) {
      if Targets(job, r, i) {
        TargetsDiffer(job, q, r, i);
      }
    }
    assert Untouched(job, done, i);
    forall k | 0 <= k < |job.base| && Untouched(job, done', k) ensures ports'[k] == job.base[k] {
      assert q in done' && !Targets(job, q, k);
      assert Untouched(job, done, k);
    }
    assert ports'[|job.base|..] == ports[|job.base|..];
    forall k | |job.base| <= k < |ports'| ensures CreatedAt(job, done', ports'[k]) {
      assert CreatedAt(job, done, ports[k]);
    }
  }

  lemma ApplyCreate(job: Job, done: set<nat>, ports: seq<Port>, q: nat)
    requires Plannable(job) && (forall r :: r in done ==> r < |job.reqs|) && q < |job.reqs| && q !in done
    requires Applied(job, done, ports) && PlanAt(job, q).Create?
    ensures Applied(job, done + {q}, ports + [Fresh(job, q)])
  {
    var done', ports' := done + {q}, ports + [Fresh(job, q)];
    forall k | 0 <= k < |job.base| && Untouched(job, done', k) ensures ports'[k] == job.base[k] {
      assert Untouched(job, done, k);
    }
    forall k | |job.base| <= k < |ports'| ensures CreatedAt(job, done', ports'[k]) {
      if k < |ports| {
        assert CreatedAt(job, done, ports[k]);
      } else {
        assert q in done' && ports'[k] == Fresh(job, q);
      }
    }
    assert ports'[|job.base|..] == ports[|job.base|..] + [Fresh(job, q)];
    forall k | |job.base| <= k < |ports| ensures ports[k].name != Fresh(job, q).name {
      FreshName(job, done, ports[k], q);
    }
  }

  lemma FreshName(job: Job, done: set<nat>, p: Port, q: nat)
    requires Plannable(job) && (forall r :: r in done ==> r < |job.reqs|) && q < |job.reqs| && q !in done
    requires CreatedAt(job, done, p)
    ensures p.name != Fresh(job, q).name
  {
    var r :| r in done && PlanAt(job, r).Create? && p == Fresh(job, r);
    NamesDiffer(job, q, r);
  }

  ghost function UpTo(n: nat): (s: set<nat>)
    ensures forall q :: q in s <==> 0 <= q < n
  {
    if n == 0 then {} else UpTo(n - 1) + {n - 1}
  }

  /** The plans of the first n requests have been applied. */
  ghost predicate AppliedUpTo(job: Job, n: nat, ports: seq<Port>) {
    Plannable(job) && n <= |job.reqs| && Applied(job, UpTo(n), ports)
  }

  lemma AppliedStart(job: Job)
    requires Plannable(job)
    ensures AppliedUpTo(job, 0, job.base)
  {
    AppliedNothing(job);
  }

  // ----- MAC addresses stay unique

  /** Addressed ports have distinct MACs up to case. */
  ghost predicate DistinctMacs(ports: seq<Port>) {
    forall i, j :: 0 <= i < j < |ports| && Mac(ports[i]) != "" ==> Mac(ports[i]) != Mac(ports[j])
  }

  function Address(p: Port): string {
    if p.address.Some? then p.address.value else ""
  }

  lemma DistinctMacsMeaning(ports: seq<Port>)
    ensures DistinctMacs(ports) <==>
            forall i, j :: 0 <= i < j < |ports| && Address(ports[i]) != "" ==>
                             !SameUpToCase(Address(ports[i]), Address(ports[j]))
  {
    assert forall p: Port :: Mac(p) == Lower(Address(p)) && (Mac(p) == "" <==> Address(p) == "");
    forall i, j | 0 <= i < j < |ports|
      ensures Mac(ports[i]) == Mac(ports[j]) <==> SameUpToCase(Address(ports[i]), Address(ports[j]))
    {
      LowerMeaning(Address(ports[i]), Address(ports[j]));
    }
  }

  /** A planned port either already has its MAC, or nobody has. */
  lemma PlannedMac(job: Job, q: nat)
    requires Plannable(job) && q < |job.reqs|
    ensures PlanAt(job, q).Update? ==>
              && Mac(Patched(job.base[PlanAt(job, q).index], PlanAt(job, q).patch)) == Lower(job.reqs[q].mac)
              && (Mac(job.base[PlanAt(job, q).index]) == Lower(job.reqs[q].mac)
                  || forall k :: 0 <= k < |job.base| ==> Mac(job.base[k]) != Lower(job.reqs[q].mac))
    ensures PlanAt(job, q).Create? ==> forall k :: 0 <= k < |job.base| ==> Mac(job.base[k]) != Lower(job.reqs[q].mac)
  {
  }

  /** Where the MAC at a position comes from: the base, or a request that put it there. */
  lemma MacOrigin(job: Job, done: set<nat>, ports: seq<Port>, i: nat) returns (q: Option<nat>)
    requires Plannable(job) && (forall r :: r in done ==> r < |job.reqs|) && Applied(job, done, ports) && i < |ports|
    ensures q.None? ==> i < |job.base| && Mac(ports[i]) == Mac(job.base[i])
    ensures q.Some? ==> q.value in done && Mac(ports[i]) == Lower(job.reqs[q.value].mac)
                        && if i < |job.base| then Targets(job, q.value, i)
                           else PlanAt(job, q.value).Create? && ports[i] == Fresh(job, q.value)
  {
    if i < |job.base| {
      if r :| r in done && Targets(job, r, i) {
        PlannedMac(job, r);
        q := Some(r);
      } else {
        assert Untouched(job, done, i);
        q := None;
      }
    } else {
      assert CreatedAt(job, done, ports[i]);
      var r :| r in done && PlanAt(job, r).Create? && ports[i] == Fresh(job, r);
      q := Some(r);
    }
  }

  /** After any selection of the plans, in any order, MACs are still unique. */
  lemma MacsStayDistinct(job: Job, done: set<nat>, ports: seq<Port>)
    requires Plannable(job) && (forall r :: r in done ==> r < |job.reqs|) && Applied(job, done, ports)
    requires DistinctMacs(job.base)
    ensures DistinctMacs(ports)
  {
    forall i, j | 0 <= i < j < |ports| && Mac(ports[i]) != "" ensures Mac(ports[i]) != Mac(ports[j]) {
      var a := MacOrigin(job, done, ports, i);
      var b := MacOrigin(job, done, ports, j);
      if a.Some? && b.Some? {
        MacsOfRequests(job, done, ports, i, j, a.value, b.value);
      } else if a.Some? {
        PlannedMac(job, a.value);
        MacOfOther(job, a.value, i, j);
      } else if b.Some? {
        PlannedMac(job, b.value);
        MacOfOther(job, b.value, j, i);
      }
    }
  }

  lemma MacsOfRequests(job: Job, done: set<nat>, ports: seq<Port>, i: nat, j: nat, a: nat, b: nat)
    requires Plannable(job) && (forall r :: r in done ==> r < |job.reqs|) && Applied(job, done, ports)
    requires i < j < |ports| && a in done && b in done
    requires if i < |job.base| then Targets(job, a, i) else PlanAt(job, a).Create? && ports[i] == Fresh(job, a)
    requires if j < |job.base| then Targets(job, b, j) else PlanAt(job, b).Create? && ports[j] == Fresh(job, b)
    ensures Lower(job.reqs[a].mac) != Lower(job.reqs[b].mac)
  {
    assert a != b;
  }

  /** A request that moves a MAC to position i does not collide with an untouched base port. */
  lemma MacOfOther(job: Job, q: nat, i: nat, j: nat)
    requires Plannable(job) && q < |job.reqs| && j < |job.base| && i != j && DistinctMacs(job.base)
    requires i < |job.base| ==> Targets(job, q, i)
    requires i >= |job.base| ==> PlanAt(job, q).Create?
    ensures Lower(job.reqs[q].mac) != Mac(job.base[j])
  {
    PlannedMac(job, q);
    assert job.reqs[q].mac != "";
    assert |Lower(job.reqs[q].mac)| > 0;
    if i < |job.base| && Mac(job.base[i]) == Lower(job.reqs[q].mac) {
      assert i < j ==> Mac(job.base[i]) != Mac(job.base[j]);
      assert j < i ==> Mac(job.base[j]) == "" || Mac(job.base[j]) != Mac(job.base[i]);
    }
  }

  // ----- convergence and idempotence

  /** The switch_id recorded before the enrolment. */
  ghost function PriorSwitchId(job: Job, q: nat): Option<string>
    requires Plannable(job) && q < |job.reqs|
  {
    if PlanAt(job, q).Update? then Field(LinkOf(job.base[PlanAt(job, q).index]), "switch_id") else None
  }

  ghost predicate Matches(job: Job, q: nat, p: Port)
    requires Plannable(job) && q < |job.reqs|
  {
    && p.name == Some(NameAt(job, q)) && Mac(p) == Lower(job.reqs[q].mac)
    && p.physnet == Some(job.physnet) && p.category == Some("network")
    && LinkMatches(LinkOf(p), WantedLink(job.reqs[q], PriorSwitchId(job, q)))
  }

  /** Every request is met by the port under its name, and ports under other names are as before. */
  ghost predicate Converged(job: Job, ports: seq<Port>)
    requires Plannable(job)
  {
    && |ports| >= |job.base|
    && (forall q :: 0 <= q < |job.reqs| ==> MetBy(job, q, ports))
    && (forall i :: 0 <= i < |job.base| && !Requested(job, job.base[i]) ==> ports[i] == job.base[i])
    && (forall i :: |job.base| <= i < |ports| ==> Requested(job, ports[i]))
  }

  ghost predicate MetBy(job: Job, q: nat, ports: seq<Port>)
    requires Plannable(job) && q < |job.reqs|
  {
    var i := LastByName(ports, NameAt(job, q));
    i.Some? && Matches(job, q, ports[i.value])
  }

  ghost predicate Requested(job: Job, p: Port) {
    exists q :: 0 <= q < |job.reqs| && p.name == Some(NameAt(job, q))
  }

  ghost function All(job: Job): set<nat> {
    UpTo(|job.reqs|)
  }

  lemma TargetIsRequested(job: Job, q: nat, i: nat)
    requires Plannable(job) && q < |job.reqs| && i < |job.base| && Targets(job, q, i)
    ensures Requested(job, job.base[i])
  {
    assert job.base[i].name == Some(NameAt(job, q));
  }

  lemma NameKept(job: Job, ports: seq<Port>, i: nat)
    requires Plannable(job) && Applied(job, All(job), ports) && i < |job.base|
    ensures ports[i].name == job.base[i].name
  {
    if r :| r in All(job) && Targets(job, r, i) {
    } else {
      assert Untouched(job, All(job), i);
    }
  }

  lemma CreatedIsElsewhere(job: Job, ports: seq<Port>, q: nat, k: nat)
    requires Plannable(job) && Applied(job, All(job), ports) && q < |job.reqs| && PlanAt(job, q).Update?
    requires |job.base| <= k < |ports|
    ensures ports[k].name != Some(NameAt(job, q))
  {
    assert CreatedAt(job, All(job), ports[k]);
    var r :| r in All(job) && PlanAt(job, r).Create? && ports[k] == Fresh(job, r);
    NamesDiffer(job, q, r);
  }

  /** The port a request updated, or the one it created, is the one its name finds afterwards. */
  lemma FoundAfterwards(job: Job, ports: seq<Port>, q: nat) returns (i: nat)
    requires Plannable(job) && Applied(job, All(job), ports) && q < |job.reqs|
    ensures LastByName(ports, NameAt(job, q)) == Some(i) && i < |ports|
    ensures if PlanAt(job, q).Update?
            then i == PlanAt(job, q).index && ports[i] == Patched(job.base[i], PlanAt(job, q).patch)
            else ports[i] == Fresh(job, q)
  {
    var n := NameAt(job, q);
    if PlanAt(job, q).Update? {
      i := PlanAt(job, q).index;
      assert q in All(job);
      forall k | i < k < |ports| ensures ports[k].name != Some(n) {
        if k < |job.base| {
          NameKept(job, ports, k);
        } else {
          CreatedIsElsewhere(job, ports, q, k);
        }
      }
    } else {
      assert q in All(job) && Fresh(job, q) in ports[|job.base|..];
      var k :| |job.base| <= k < |ports| && ports[k] == Fresh(job, q);
      i := k;
    }
    UniqueLast(ports, n, i);
  }

  lemma UniqueLast(ports: seq<Port>, name: string, i: nat)
    requires i < |ports| && ports[i].name == Some(name)
    requires forall k :: i < k < |ports| ==> ports[k].name != Some(name)
    ensures LastByName(ports, name) == Some(i)
  {
  }

  lemma SwitchIdSettles(req: NetdevPort, prior: Option<string>)
    ensures SwitchIdFor(req, Some(SwitchIdFor(req, prior))) == SwitchIdFor(req, prior)
  {
  }

  /** Once all plans are applied, each request is met and planning again finds nothing to do. */
  lemma RequestSettles(job: Job, ports: seq<Port>, q: nat)
    requires Plannable(job) && Applied(job, All(job), ports) && q < |job.reqs|
    ensures MetBy(job, q, ports)
    ensures exists i :: PlanPort(ports, job.node, job.physnet, job.reqs[q]) == Some(Update(i, EMPTY_PATCH))
  {
    var i := FoundAfterwards(job, ports, q);
    AppliedMatches(job, q, ports[i]);
    MatchingNeedsNothing(job, q, ports, i);
  }

  lemma AppliedMatches(job: Job, q: nat, p: Port)
    requires Plannable(job) && q < |job.reqs|
    requires p == if PlanAt(job, q).Update? then Patched(job.base[PlanAt(job, q).index], PlanAt(job, q).patch)
             else Fresh(job, q)
    ensures Matches(job, q, p)
  {
    PlannedMac(job, q);
  }

  lemma MatchingNeedsNothing(job: Job, q: nat, ports: seq<Port>, i: nat)
    requires Plannable(job) && q < |job.reqs| && i < |ports| && Matches(job, q, ports[i])
    requires LastByName(ports, NameAt(job, q)) == Some(i)
    ensures PlanPort(ports, job.node, job.physnet, job.reqs[q]) == Some(Update(i, EMPTY_PATCH))
  {
    var wanted := WantedLink(job.reqs[q], PriorSwitchId(job, q));
    assert "switch_id" in wanted;
    assert Field(LinkOf(ports[i]), "switch_id") == Some(SwitchIdFor(job.reqs[q], PriorSwitchId(job, q)));
    SwitchIdSettles(job.reqs[q], PriorSwitchId(job, q));
    assert WantedLink(job.reqs[q], Field(LinkOf(ports[i]), "switch_id")) == wanted;
  }

  lemma AllAppliedConverges(job: Job, ports: seq<Port>)
    requires Plannable(job) && Applied(job, All(job), ports)
    ensures Converged(job, ports)
  {
    forall q | 0 <= q < |job.reqs| ensures MetBy(job, q, ports) {
      RequestSettles(job, ports, q);
    }
    forall i | 0 <= i < |job.base| && !Requested(job, job.base[i]) ensures ports[i] == job.base[i] {
      forall r | r in All(job) ensures !Targets(job, r, i) {
        if Targets(job, r, i) {
          TargetIsRequested(job, r, i);
        }
      }
      assert Untouched(job, All(job), i);
    }
    forall i | |job.base| <= i < |ports| ensures Requested(job, ports[i]) {
      assert CreatedAt(job, All(job), ports[i]);
      var q :| q in All(job) && PlanAt(job, q).Create? && ports[i] == Fresh(job, q);
      assert ports[i].name == Some(NameAt(job, q));
    }
  }
}
