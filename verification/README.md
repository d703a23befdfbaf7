# UnderStack core algorithms in Dafny

UnderStack glues OpenStack, Ironic, OVN and Kubernetes together. This project models the parts in which the
repository itself decides something, with the foreign services reduced to the state they hold, and proves what
those parts promise. `dafny verify dfyconfig.toml` checks everything.

| module | part of the system |
|---|---|
| `Dag` | the sync scheduler of the Nautobot operator (Kahn's algorithm with a sorted queue and a cycle report) |
| `Ranges`, `VlanRanges` | merging of integer ranges, and the VLAN IDs that tenants may use on trunk subports |
| `VniRanges`, `VniAllocator`, `VniRuns` | VNI range configuration, the persistent allocation table, and every run of router creations and deletions over it |
| `Segments` | dynamic VLAN segments shared by trunk subports and kept alive by binding levels |
| `NetdevPlan`, `NetdevApply`, `NetdevEnroll` | the enrolment reconciler for network devices |
| `Adoption` | adoption of bare metal appliances for routers, with rollback |
| `HaChassis`, `HaRepair`, `Orphans` | the three phases of the OVN HA chassis repair script |
| `Tokens`, `Depends` | the parser of workflow `depends` expressions |
| `Uplink` | the uplink of a routed network under overlapping delete events |
| `NodeCache` | the node cache of the hardware exporter with its two writers |
| `Common`, `Sorting`, `PyText` | options and results, library sorting, Python string operations on ASCII text |

Code that changes state is modelled by classes and loops, each tied by its postcondition to a specification
function or predicate; the theorems are then about those, over all inputs, all runs or all reachable states.

Seven results are sharper than the code's own comments, or differ from what they suggest:

- A segment range written backwards, such as 6 to 3, can make the VLAN check accept an ID that is taken, inside the
  default range or outside it (`VlanRanges.BackwardsRangeAdmitsTakenId`, `VlanRanges.TakenIdAdmittedOutside`).
  `VlanRanges.TakenIdAcceptedIff` says exactly for which lists this happens, and `VlanRanges.AcceptedExactly`
  decides every ID for every list.
- IDs outside the default VLAN range can be accepted when a segment range lies beyond them;
  `VlanRanges.ExactComplementIff` says exactly when the accepted IDs are the default range minus the segment ranges.
- One run of the HA repair is not always enough: a network group that also serves as a router's group is filled
  in the same run in which another group had to be skipped for its sake. `HaRepair.RepairConverges` gives the exact
  condition on the snapshot, and `HaRepair.SecondRoundCanHaveWork` an input.
- When a subport already has a level elsewhere, segment allocation stops and can leave the segment that it just made
  without any level (`Segments.NeutronDb.HandleSegmentAllocation`); no other failure leaves an unused segment.
- The uplink of a network is found again by the prefix of its port's name, which tenants can use as well. A removal
  then deletes the wrong port and the uplink stays (`Uplink.TenantPortDiverts`); `Uplink.RemovalAsMeantIff` and
  `Uplink.UplinkCanStayIff` say exactly when, and `Uplink.RunKeepsUplinks` holds of every run that avoids it.
- A network whose first router port belonged to a flavored router gets no uplink from later unflavored ports
  until all its router ports are gone (`Uplink.RunKeepsUplinks`).
- In the node cache even the node name is independent of how the two consumers interleave: the last sensor
  message names the node, and the first state message does if there is none (`NodeCache.EntryFromStreams`).

Assumptions on the foreign services are stated as preconditions: OVN rows have unique identifiers and referential
integrity, Ironic's recovery calls succeed, router ids are not reused while adopting, new Neutron objects get new
ids, and the clock that stamps releases increases. An `allowed` count in `NetdevEnroll.Ironic` lets an enrolment
stop after any number of successful calls. In `Adoption` a `Fate` lets each call fail before or after its effect.

## Model

| member | source | states |
|---|---|---|
| `Dag.TopologicalSort` | go/nautobotop/internal/controller/dag.go:22-90 | On every input exactly one outcome is right: the first repeated name, else the first unknown dependency, else (if and only if the graph has a cycle) exactly the names from which a cycle can be reached, sorted, else the lexicographically first execution order |
| `Dag.FindDuplicate` | go/nautobotop/internal/controller/dag.go:26-32 | Finds the first name that repeats an earlier one, or shows that all names are distinct |
| `Dag.FindUnknown` | go/nautobotop/internal/controller/dag.go:34-40 | Finds the first dependency that no node declares, or shows that all are declared |
| `Dag.BuildCounters` | go/nautobotop/internal/controller/dag.go:42-50 | The counters equal the lengths of the dependency lists, and each name occurs among the dependents of d as often as d occurs in its list |
| `Dag.AddDependents` | go/nautobotop/internal/controller/dag.go:47-49 | Adds one node to the dependents of each entry of its list, with multiplicity, and touches nothing else |
| `Dag.InitialQueue` | go/nautobotop/internal/controller/dag.go:52-57 | The queue holds exactly the names whose counter is zero, each once |
| `Dag.CrossOff` | go/nautobotop/internal/controller/dag.go:69-74 | Every counter drops by the number of occurrences of its name among the children, and exactly those that reach zero are queued, each once |
| `Dag.Release` | go/nautobotop/internal/controller/dag.go:67-75 | After scheduling a name, the counters count the outstanding dependencies again and the queue holds exactly the ready names |
| `Dag.ScheduleNext` | go/nautobotop/internal/controller/dag.go:62-76 | One round of the loop keeps the schedule greedy: it appends the least ready name |
| `Dag.Schedule` | go/nautobotop/internal/controller/dag.go:52-76 | The loop ends with a greedy schedule that no further name can join |
| `Dag.CollectBlocked` | go/nautobotop/internal/controller/dag.go:78-86 | Collects exactly the names with a positive counter, sorted and without repeats |
| `Dag.SortGraph` | go/nautobotop/internal/controller/dag.go:42-89 | With distinct names and known dependencies, fails if and only if there is a cycle, and otherwise returns the first execution order |
| `Dag.ScheduledNeverReachesCycle` | go/nautobotop/internal/controller/dag.go:62-76 | No walk along DependsOn from a scheduled name reaches a cycle |
| `Dag.StuckReachesCycle` | go/nautobotop/internal/controller/dag.go:78-87 | If every name of a set still waits for a name of the set, each of them reaches a cycle |
| `Dag.UnscheduledReachesCycle` | go/nautobotop/internal/controller/dag.go:78-87 | When the loop stops, the unscheduled names are exactly those that reach a cycle, and there are some if and only if a cycle exists |
| `Dag.GreedyIsFirst` | go/nautobotop/internal/controller/dag.go:58-76 | Taking the least ready name each time gives the lexicographically first of all execution orders |
| `Dag.FirstOrderUnique` | go/nautobotop/internal/controller/dag.go:15-16 | There is only one first execution order |
| `Dag.ResultIsCanonical` | go/nautobotop/internal/controller/dag.go:15-16 | Two inputs that describe the same graph give the same result, whatever the order of nodes and of their DependsOn lists |
| `Dag.GraphMeaning` | go/nautobotop/internal/controller/dag.go:42-50 | The graph that these results are about has exactly the declared names, each depending on exactly the entries of its list |
| `Sorting.StrLeqIff` | go/nautobotop/internal/controller/dag.go:58-58 | Names are ordered by the first character that differs, and a prefix comes first |
| `Ranges.MergeRanges` | python/neutron-understack/neutron_understack/l3_router/understack_vni_db.py:85-92 | The result is sorted, disjoint and without adjacent ranges, covers exactly the same integers, and keeps exactly those backwards ranges that adjoin nothing below their start |
| `Ranges.SweepOne` | python/neutron-understack/neutron_understack/utils.py:536-541 | One range read keeps the sweep: separated ranges that cover what has been read so far |
| `Ranges.CanonicalUnique` | python/neutron-understack/neutron_understack/l3_router/understack_vni_db.py:85-92 | Two sorted, disjoint, non-adjacent lists that cover the same integers are the same list |
| `VlanRanges.FetchGapsInRanges` | python/neutron-understack/neutron_understack/utils.py:544-555 | The gaps contain exactly the IDs strictly between the end of one range and the start of the next, with the default range at both ends, and none of them is backwards |
| `VlanRanges.AllowedTenantVlanIdRanges` | python/neutron-understack/neutron_understack/utils.py:526-531 | For every list of segment ranges and every default range, the allowed ranges hold exactly the free IDs, and none of them is backwards |
| `VlanRanges.AcceptedInDefault` | python/neutron-understack/neutron_understack/utils.py:526-561 | For every list and every default range: an ID inside the default range is accepted if and only if no range covers it or it lies between the ends of a backwards range that adjoins nothing below its start |
| `VlanRanges.AcceptedExactly` | python/neutron-understack/neutron_understack/utils.py:526-561 | For every list, every default range and every ID: accepted if and only if it is uncovered with the default range or a range on either side, or lies in what a backwards range frees |
| `VlanRanges.FollowedIff` | python/neutron-understack/neutron_understack/utils.py:534-541 | A range counts as followed exactly if another position of the list holds one that starts later, or starts together with it and ends no earlier |
| `VlanRanges.ExactComplementIff` | python/neutron-understack/neutron_understack/utils.py:534-555 | For every list and every default range, the accepted IDs are the default range minus the segment ranges if and only if every merged range touches the default range and no range overlaps what a backwards one frees |
| `VlanRanges.TakenIdAcceptedIff` | python/neutron-understack/neutron_understack/utils.py:526-561 | Some ID that a segment range covers is accepted if and only if a segment range overlaps what a backwards one frees |
| `VlanRanges.ForwardRangesAreSafe` | python/neutron-understack/neutron_understack/utils.py:526-561 | With ranges written forwards no accepted ID, inside or outside the default range, lies in a segment range |
| `VlanRanges.BackwardsRangeAdmitsTakenId` | python/neutron-understack/neutron_understack/utils.py:534-555 | With 1 to 4 and 6 down to 3 the code accepts ID 4, which is taken |
| `VlanRanges.TakenIdAdmittedOutside` | python/neutron-understack/neutron_understack/utils.py:534-555 | Outside the default range 1 to 50, with 100 to 104, 106 down to 103 and 200 to 201, the code accepts ID 104, which is taken |
| `VlanRanges.CheckSubportsSegmentationId` | python/neutron-understack/neutron_understack/trunk.py:138-165 | For every list of ranges, finds the first subport whose VLAN ID is not free, accepts the list if and only if all are free, and exempts the network node trunk |
| `VniRanges.EntryAcceptedIff` | python/neutron-understack/neutron_understack/l3_router/understack_vni_db.py:49-74 | A text is accepted as a range if and only if, stripped, it names that range around its first colon or as one integer and the range lies in the 24-bit VNI space; the reason of a refusal tells exactly what is wrong |
| `PyText.ParseIntMeaning` | python/neutron-understack/neutron_understack/l3_router/understack_vni_db.py:60-61 | A bound is read as a number exactly if, stripped, it is at most one sign and digits with single underscores between them |
| `PyText.StripMeaning` | python/neutron-understack/neutron_understack/l3_router/understack_vni_db.py:49-50 | Stripping takes whitespace off both ends and nothing else |
| `VniRanges.ParseVniRanges` | python/neutron-understack/neutron_understack/l3_router/understack_vni_db.py:46-82 | Accepts exactly the non-empty lists of valid entries and returns the canonical list of exactly the integers they denote, or reports the first fault |
| `VniRanges.ConfigurationIsCanonical` | python/neutron-understack/neutron_understack/l3_router/understack_vni_db.py:46-92 | Two accepted configurations that denote the same VNIs parse to the identical list |
| `VniRanges.EntryRoundTrip` | python/neutron-understack/neutron_understack/l3_router/understack_vni_db.py:42-43 | A formatted range parses back to itself |
| `VniRanges.FormatMeaning` | python/neutron-understack/neutron_understack/l3_router/understack_vni_db.py:42-43 | The text holds each range as its two numbers around a colon, with commas between |
| `PyText.NatTextShort` | python/neutron-understack/neutron_understack/l3_router/understack_vni_db.py:42-43 | Numbers are written without leading zeros |
| `VniRanges.FormatRoundTrip` | python/neutron-understack/neutron_understack/l3_router/understack_vni_db.py:42-92 | A canonical list that is formatted, split at the commas and parsed comes back unchanged |
| `VniAllocator.VniDbHelper.AllocateVniForRouter` | python/neutron-understack/neutron_understack/l3_router/understack_vni_db.py:108-125 | Bad configuration, existing holding, automatic and explicit request each end in exactly the promised table and result |
| `VniAllocator.VniDbHelper.ReleaseVniForRouter` | python/neutron-understack/neutron_understack/l3_router/understack_vni_db.py:127-133 | The row of the router stays in the table, without router and stamped with a later time than all before; a router without a row changes nothing |
| `VniAllocator.VniDbHelper.GetVniForRouter` | python/neutron-understack/neutron_understack/l3_router/understack_vni_db.py:135-139 | Returns a VNI that the router holds, or nothing exactly if it holds none |
| `VniAllocator.VniDbHelper.AllocateAuto` | python/neutron-understack/neutron_understack/l3_router/understack_vni_db.py:141-159 | Takes the least configured VNI without a row, else the one released first, and fails if and only if a router holds every configured VNI |
| `VniAllocator.VniDbHelper.AllocateSpecific` | python/neutron-understack/neutron_understack/l3_router/understack_vni_db.py:161-181 | Grants a free or released VNI and refuses one that is held, naming the holder |
| `VniAllocator.VniDbHelper.FindInRange` | python/neutron-understack/neutron_understack/l3_router/understack_vni_db.py:194-207 | The candidate scan over the ascending rows finds the least VNI of one range without a row |
| `VniAllocator.VniDbHelper.FindNeverUsedVni` | python/neutron-understack/neutron_understack/l3_router/understack_vni_db.py:191-209 | Returns the least VNI of all ranges that never had a row, or nothing only if all have one |
| `VniAllocator.VniDbHelper.FindReleasedAllocation` | python/neutron-understack/neutron_understack/l3_router/understack_vni_db.py:211-222 | Returns the released row with the least release time and then the least VNI in the ranges, or nothing only if none is released |
| `VniAllocator.ReuseMeaning` | python/neutron-understack/neutron_understack/l3_router/understack_vni_db.py:211-222 | Of two released rows the one with the earlier stamp goes first, and with equal stamps the smaller VNI |
| `VniAllocator.ModeMeaning` | python/neutron-understack/neutron_understack/l3_router/vrf.py:92-102 | The mode is on or auto exactly if the text of the setting says so, in whatever case |
| `VniAllocator.AutoMeaning` | python/neutron-understack/neutron_understack/l3_router/understack_vni_db.py:38-39 | No value, null and zero ask for any VNI, and nothing else does |
| `VniAllocator.VniPlugin.ProcessRouterCreate` | python/neutron-understack/neutron_understack/l3_router/vrf.py:151-182 | By the text of the setting: auto allocates, on allocates an explicit VNI only, anything else refuses an explicit VNI and grants none |
| `VniAllocator.VniPlugin.ProcessRouterDelete` | python/neutron-understack/neutron_understack/l3_router/vrf.py:190-192 | Deleting a router releases its VNI |
| `VniRuns.StepKeepsOk` | python/neutron-understack/neutron_understack/l3_router/understack_vni_db.py:108-181 | Every step keeps one VNI per router, release times on exactly the released rows, and all rows |
| `VniRuns.RunKeepsOk` | python/neutron-understack/neutron_understack/l3_router/understack_vni_db.py:108-181 | In every run each router holds at most one VNI, each VNI has at most one router, and no row disappears |
| `VniRuns.HeldWasGranted` | python/neutron-understack/neutron_understack/l3_router/vrf.py:151-192 | Whatever a router holds it was granted in a creation of that run, from the configured ranges and in mode auto or by explicit request, and it was not deleted since |
| `VniRuns.KeptUntilDeleted` | python/neutron-understack/neutron_understack/l3_router/understack_vni_db.py:108-133 | A router keeps its VNI until it is deleted |
| `VniRuns.AllocatingAgain` | python/neutron-understack/neutron_understack/l3_router/understack_vni_db.py:108-118 | Allocating again returns the VNI already held and changes nothing, and demanding another one is a conflict |
| `VniRuns.AutoRefines` | python/neutron-understack/neutron_understack/l3_router/understack_vni_db.py:141-159 | Automatic allocation in the table is automatic allocation in a first-in first-out pool |
| `VniRuns.StepRefines` | python/neutron-understack/neutron_understack/l3_router/vrf.py:151-192 | Each step of the table is a step of the pool with the same outcome |
| `VniRuns.RunRefinesPool` | python/neutron-understack/neutron_understack/l3_router/understack_vni_db.py:108-222 | Every run of the table with an increasing clock is a run of the pool with the same outcomes: never used first, then first released, first reused |
| `VniRuns.RunFromEmptyTable` | python/neutron-understack/neutron_understack/l3_router/understack_vni_db.py:108-222 | In particular every run from an empty table is a run from the pool in which nothing was ever used |
| `Segments.NeutronDb.NetworkSegmentByPhysnet` | python/neutron-understack/neutron_understack/utils.py:436-453 | Returns a VLAN segment of the network on the physical network, or nothing only if there is none |
| `Segments.NeutronDb.AllocateDynamicSegment` | python/neutron-understack/neutron_understack/utils.py:375-397 | Creates one dynamic VLAN segment with a tag taken out of the free ones, or fails unchanged when none is free |
| `Segments.NeutronDb.CreateBindingProfileLevel` | python/neutron-understack/neutron_understack/utils.py:400-416 | Creates the level once, and a different row under the same key is a conflict |
| `Segments.NeutronDb.DeleteUnusedSegment` | python/neutron-understack/neutron_understack/trunk.py:252-258 | Releases the segment, and frees its tag, exactly if it is dynamic and no level refers to it |
| `Segments.NeutronDb.HandleSegmentDeallocation` | python/neutron-understack/neutron_understack/trunk.py:260-267 | Unbinds the subports in order, each segment going with its last level |
| `Segments.NeutronDb.BindSubport` | python/neutron-understack/neutron_understack/trunk.py:183-196 | One subport reuses or creates the one segment of its network and gets one level; it fails only if no segment carries the network and no tag is left, or if its level already pointed elsewhere, and then no existing row is touched |
| `Segments.NeutronDb.HandleSegmentAllocation` | python/neutron-understack/neutron_understack/trunk.py:174-198 | All subports, repeats of a network included, end up with a level of this driver on a VLAN segment of their network and the physical network asked for, and the returned tags are exactly theirs; otherwise the first n are bound and the next one is unknown, finds neither segment nor tag, or had a level elsewhere before the call |
| `Segments.UnbindKeepsSettled` | python/neutron-understack/neutron_understack/trunk.py:252-267 | Unbinding keeps one VLAN segment per network and physical network, no dangling level and no unused dynamic segment |
| `Segments.UnbindAllKeepsSettled` | python/neutron-understack/neutron_understack/trunk.py:260-267 | The same over any list of subports |
| `Segments.UnbindAllReleases` | python/neutron-understack/neutron_understack/trunk.py:252-267 | Over any list of subports, no static segment and no segment with a remaining level is released |
| `Segments.BindNext` | python/neutron-understack/neutron_understack/trunk.py:183-196 | Binding the next subport keeps the growth exact: only its key and, at most, one segment that it uses are added |
| `Segments.BindKeepsSettled` | python/neutron-understack/neutron_understack/trunk.py:174-198 | Binding leaves no dynamic segment unused |
| `Segments.DuplicateIsOld` | python/neutron-understack/neutron_understack/utils.py:400-416 | A level made earlier in the same call never conflicts |
| `Segments.UnbindShrinks` | python/neutron-understack/neutron_understack/trunk.py:252-267 | Unbinding one of the added subports removes exactly its part of the growth |
| `Segments.UnbindAllRestores` | python/neutron-understack/neutron_understack/trunk.py:260-267 | Unbinding all added subports in any order gives back the original segments, levels and free tags |
| `Segments.BindThenUnbind` | python/neutron-understack/neutron_understack/trunk.py:174-267 | Allocating segments for any list of subports and deallocating the same list restores segments, levels and tags exactly |
| `NetdevPlan.BuildNetdevPorts` | python/understack-workflows/understack_workflows/netdev_reconciler.py:59-118 | Accepts exactly the non-empty lists of usable entries with distinct labels and distinct MACs up to case, and otherwise reports the first fault of the first entry that cannot be taken |
| `NetdevPlan.UsableMeaning` | python/understack-workflows/understack_workflows/netdev_reconciler.py:71-104 | An entry is usable exactly if its four fields are non-empty texts, its switch_id is absent, null or a text, and it has no other field |
| `NetdevPlan.FaultMeaning` | python/understack-workflows/understack_workflows/netdev_reconciler.py:71-104 | Which fault is reported when several apply |
| `NetdevPlan.ClashMeaning` | python/understack-workflows/understack_workflows/netdev_reconciler.py:105-112 | Entries clash exactly over equal labels or over MACs that are equal up to case |
| `NetdevPlan.ConflictIff` | python/understack-workflows/understack_workflows/netdev_reconciler.py:408-451 | A request conflicts exactly if some port has its MAC up to case and the last port under its name does not |
| `NetdevApply.PlannedMac` | python/understack-workflows/understack_workflows/netdev_reconciler.py:408-451 | After an accepted plan the port has the requested MAC, which it had before or nobody had |
| `NetdevApply.ApplyUpdate` | python/understack-workflows/understack_workflows/netdev_reconciler.py:496-510 | Applying an update out of any set of already applied plans gives exactly one more applied plan |
| `NetdevApply.ApplyCreate` | python/understack-workflows/understack_workflows/netdev_reconciler.py:513-554 | The same for a created port |
| `NetdevApply.MacsStayDistinct` | python/understack-workflows/understack_workflows/netdev_reconciler.py:408-451 | After any selection of the plans, in any order, addressed ports still have distinct MACs up to case |
| `NetdevApply.DistinctMacsMeaning` | python/understack-workflows/understack_workflows/netdev_reconciler.py:168-169 | Distinct MACs means that no two addresses are equal up to case |
| `NetdevApply.FoundAfterwards` | python/understack-workflows/understack_workflows/netdev_reconciler.py:389-475 | After all plans each requested name finds the very port that its plan updated or created |
| `NetdevApply.RequestSettles` | python/understack-workflows/understack_workflows/netdev_reconciler.py:389-475 | After all plans each request is met and planning it again yields an empty patch |
| `NetdevApply.MatchingNeedsNothing` | python/understack-workflows/understack_workflows/netdev_reconciler.py:389-475 | A port that matches its request, with switch_id by the preserve rule, needs no change |
| `NetdevApply.AllAppliedConverges` | python/understack-workflows/understack_workflows/netdev_reconciler.py:389-554 | After all plans every request is met by the port under its name and ports under other names are untouched |
| `NetdevEnroll.ConvergedPlainly` | python/understack-workflows/understack_workflows/netdev_reconciler.py:389-554 | Converged means, over the fields of the entries: the port named after node and label has the MAC up to case, the physical network, switch_info from the switch and port_id from the interface, and the given, recorded or placeholder switch_id; ports under other names are untouched |
| `NetdevEnroll.PlanAll` | python/understack-workflows/understack_workflows/netdev_reconciler.py:175-186 | Planning succeeds if and only if no request conflicts over a MAC, and knows whether anything is pending |
| `NetdevEnroll.NothingPendingConverged` | python/understack-workflows/understack_workflows/netdev_reconciler.py:223-233 | If nothing is pending the ports already are as requested |
| `NetdevEnroll.SecondEnrolmentPlansNothing` | python/understack-workflows/understack_workflows/netdev_reconciler.py:167-186 | After a converged enrolment the same request plans no port change |
| `NetdevEnroll.Ironic.UpdateNodeMetadata` | python/understack-workflows/understack_workflows/netdev_reconciler.py:321-354 | Sets the metadata and nothing else, and needs a call exactly if it differs |
| `NetdevEnroll.Ironic.ApplyPortPlan` | python/understack-workflows/understack_workflows/netdev_reconciler.py:478-510 | Creates or updates the one planned port, fails only when calls no longer succeed, and may only be called outside the pool |
| `NetdevEnroll.Ironic.ApplyOne` | python/understack-workflows/understack_workflows/netdev_reconciler.py:235-242 | One more plan is applied, with a call exactly if it changes something; without that call nothing changes |
| `NetdevEnroll.Ironic.ApplyAll` | python/understack-workflows/understack_workflows/netdev_reconciler.py:235-242 | All plans are applied if and only if as many calls succeed as plans change something, and otherwise a first part of them |
| `NetdevEnroll.Ironic.ApplyAndReturn` | python/understack-workflows/understack_workflows/netdev_reconciler.py:235-244 | The planned ports and the return to the pool: all or the node stays out of the pool |
| `NetdevEnroll.PortsAfterApplied` | python/understack-workflows/understack_workflows/netdev_reconciler.py:235-242 | Applying the plans of the first n requests in order leaves exactly those plans applied |
| `NetdevEnroll.Ironic.MakeAvailable` | python/understack-workflows/understack_workflows/netdev_reconciler.py:557-587 | Brings the node to available if and only if the one or two calls for it succeed |
| `NetdevEnroll.Ironic.Reconcile` | python/understack-workflows/understack_workflows/netdev_reconciler.py:167-244 | A MAC conflict changes nothing; success leaves an available node with its metadata and all ports as requested, and happens if and only if the counted calls succeed; wherever it stops, an available node has all ports as before or all as requested; MACs stay distinct; a run with nothing pending makes no transition |
| `NetdevEnroll.Ironic.EnrollNetdev` | python/understack-workflows/understack_workflows/netdev_reconciler.py:121-249 | Over the fields of the entries: success leaves an available node with every port as its entry asks and all others untouched; wherever it stops, an available node has all ports as before or all as asked; the exact condition of each refusal, none of which changes anything, and of an interruption; the exact number of calls of a success; MACs stay distinct |
| `NetdevEnroll.Ironic.EnrollTwice` | python/understack-workflows/understack_workflows/netdev_reconciler.py:159-249 | After a successful enrolment the same enrolment succeeds again and makes no call at all: no port changes and no provision transition |
| `NetdevEnroll.FewCalls` | python/understack-workflows/understack_workflows/netdev_reconciler.py:167-249 | An enrolment needs at most three calls more than it has requests |
| `Adoption.FirstEligible` | python/neutron-understack/neutron_understack/ironic.py:77-115 | The first available netdev node of the resource class that is not in maintenance, or none only if there is none |
| `Adoption.FirstBound` | python/neutron-understack/neutron_understack/ironic.py:117-122 | A node stamped with the router, or none only if there is none |
| `Adoption.IronicClient.ClearOwnership` | python/neutron-understack/neutron_understack/ironic.py:258-270 | Clears lessee, instance and display name of the one node |
| `Adoption.IronicClient.ReturnNodeToAvailable` | python/neutron-understack/neutron_understack/ironic.py:211-256 | Recovery by the state found: pooled and managed nodes are cleared, active ones undeployed and cleared, all others left alone |
| `Adoption.IronicClient.AdoptionCalls` | python/neutron-understack/neutron_understack/ironic.py:154-188 | The calls in order, cut at the one that fails, before or after its effect |
| `Adoption.IronicClient.AdoptNodeForRouter` | python/neutron-understack/neutron_understack/ironic.py:124-209 | Success exactly if all calls succeed, and then the node is active with lessee, instance and name as asked; recovery otherwise |
| `Adoption.IronicClient.ProcessRouterCreate` | python/neutron-understack/neutron_understack/l3_router/palo_alto.py:181-221 | In terms of the fields: takes the first free netdev node of the class and leaves it active, leased to the project, with the id of the router and its name or else its id; on failure it is free again, or stays where Ironic was caught with all of these; a misconfigured flavor or an empty pool touches nothing |
| `Adoption.IronicClient.ProcessRouterDelete` | python/neutron-understack/neutron_understack/l3_router/palo_alto.py:226-245 | In terms of the fields: the node of the router is available and carries nothing, unless it is in a state that is left alone |
| `Adoption.AdoptNodeResult` | python/neutron-understack/neutron_understack/ironic.py:124-256 | A failed adoption gives the node back exactly as it was unless it was caught adopting or failed to adopt, and then it is still stamped; only success makes it active |
| `Adoption.StepKeepsPool` | python/neutron-understack/neutron_understack/l3_router/palo_alto.py:181-245 | Every step keeps available nodes unstamped, active and adopting ones stamped, and no router on two nodes |
| `Adoption.RunKeepsPool` | python/neutron-understack/neutron_understack/l3_router/palo_alto.py:181-245 | Over every serialised run each node is untouched, free in the pool, active for exactly one router, or in a state left for reconciliation |
| `Adoption.StepKeepsOwner` | python/neutron-understack/neutron_understack/l3_router/palo_alto.py:181-245 | No step other than its deletion takes the node from a router |
| `Adoption.CreateOwns` | python/neutron-understack/neutron_understack/l3_router/palo_alto.py:191-221 | A successful create leaves exactly one node with the router, active and chosen from the right class |
| `Adoption.OwnerPersists` | python/neutron-understack/neutron_understack/l3_router/palo_alto.py:181-245 | A router whose create succeeded owns exactly that node through every run that does not delete it |
| `Adoption.DeleteFrees` | python/neutron-understack/neutron_understack/ironic.py:289-306 | Deleting the router returns its node to the pool without stamps and changes no other node |
| `HaChassis.MapGroupsToStaleMembers` | scripts/cleanup_dead_ovn_ha_chassis.py:195-214 | One removal exactly for each group and stale member of it |
| `HaChassis.ExecuteCleanup` | scripts/cleanup_dead_ovn_ha_chassis.py:235-269 | The removals leave every group with exactly its members that are not stale, in order |
| `HaChassis.DecideGroup` | scripts/cleanup_dead_ovn_ha_chassis.py:298-347 | The decision for one group: not a candidate, a reason to skip it, or the one chassis to put in |
| `HaChassis.PlanRepopulation` | scripts/cleanup_dead_ovn_ha_chassis.py:275-362 | The plan and the skipped list follow the decisions in the order of the groups |
| `HaRepair.DecisionMeaning` | scripts/cleanup_dead_ovn_ha_chassis.py:298-347 | A group is planned for a chassis exactly if it belongs to a network and a router, has no live member, and the chassis is the live option of the router or, without an option, the only live one of the last group named after the router |
| `HaRepair.SkipMeaning` | scripts/cleanup_dead_ovn_ha_chassis.py:298-347 | Each reason for leaving a group out is given exactly when it is true |
| `HaRepair.DecisionStable` | scripts/cleanup_dead_ovn_ha_chassis.py:275-347 | A decision that ignores stale members on the old snapshot is the decision on the cleaned database |
| `HaRepair.PlanSurvivesCleanup` | scripts/cleanup_dead_ovn_ha_chassis.py:903-941 | The plan made from the snapshot before the cleanup equals the plan for the database after it |
| `HaRepair.ExecuteRepopulation` | scripts/cleanup_dead_ovn_ha_chassis.py:387-427 | Each planned group gets one new row with its target chassis, and nothing else changes |
| `HaRepair.MembersLiveAfterwards` | scripts/cleanup_dead_ovn_ha_chassis.py:387-427 | After both phases every member of every group is a live chassis |
| `HaRepair.GroupAfterwards` | scripts/cleanup_dead_ovn_ha_chassis.py:402-418 | A planned group ends with exactly one member, naming the chassis decided on; other groups are unchanged |
| `HaRepair.ReplanDecision` | scripts/cleanup_dead_ovn_ha_chassis.py:275-347 | Planning again repopulates exactly the groups that were skipped only because their router group was still empty and is filled now |
| `HaRepair.ReplanIsEmptyIff` | scripts/cleanup_dead_ovn_ha_chassis.py:275-362 | A second run has nothing to repopulate if and only if the first one unblocked no group |
| `HaRepair.UnblockedStable` | scripts/cleanup_dead_ovn_ha_chassis.py:275-347 | Whether a group is unblocked can be read off the snapshot before the cleanup |
| `HaRepair.RouterGroupsWithoutNetwork` | scripts/cleanup_dead_ovn_ha_chassis.py:275-362 | If no router group of the snapshot carries a network id, one run is enough: the next plan is empty |
| `HaRepair.RepairConverges` | scripts/cleanup_dead_ovn_ha_chassis.py:903-941 | The whole repair in terms of the tables: live members only, nothing stale left, a group without live members holds exactly the chassis that its router leads to or stays empty, other groups keep exactly their live members; and the exact condition on the snapshot for the next plan to be empty |
| `HaRepair.Repair` | scripts/cleanup_dead_ovn_ha_chassis.py:903-941 | The run itself reaches that state, with the same condition for an empty next plan |
| `HaRepair.SecondRoundCanHaveWork` | scripts/cleanup_dead_ovn_ha_chassis.py:275-362 | From a given database every complete run leaves a group that the second run plans to repopulate |
| `Orphans.JudgeSwitch` | scripts/cleanup_dead_ovn_ha_chassis.py:580-637 | A switch is planned only if a direct lookup confirms that its network is gone and no port elsewhere refers to its group; every skip has a true reason |
| `Orphans.PlanOrphanCleanup` | scripts/cleanup_dead_ovn_ha_chassis.py:529-638 | Refuses an empty network list and, without force, a suspect share above one half, in exactly those cases; every suspect is planned once or skipped for a true reason; unforced plans hold at most half of the network switches |
| `Orphans.TeardownIsSafe` | scripts/cleanup_dead_ovn_ha_chassis.py:656-680 | One transaction passes the referential check, removes its switch and the group named after it, clears exactly the router port references to that group, and changes no port of another switch |
| `Orphans.TeardownKeepsAccurate` | scripts/cleanup_dead_ovn_ha_chassis.py:656-680 | Tearing down one network leaves the plan items of the others accurate |
| `Orphans.TeardownAllIsSafe` | scripts/cleanup_dead_ovn_ha_chassis.py:727-737 | All transactions of a plan go through: exactly the planned switches with their ports and groups disappear, router ports lose exactly the references to those, and every other port keeps its own |
| `Orphans.ExecuteOrphanCleanup` | scripts/cleanup_dead_ovn_ha_chassis.py:701-741 | Each item is tried once, a failure neither stops nor undoes the others, and the database refuses none of an accurate plan |
| `Orphans.ChosenIsSafe` | scripts/cleanup_dead_ovn_ha_chassis.py:724-737 | Whichever transactions fail, what is left is still a safe plan |
| `Orphans.PlanTearsDownSafely` | scripts/cleanup_dead_ovn_ha_chassis.py:529-741 | Whichever transactions fail, only switches whose network is confirmed gone disappear, with their groups, at most as many as planned, and every other switch, group and reference stays |
| `Orphans.PlanIsExact` | scripts/cleanup_dead_ovn_ha_chassis.py:580-638 | The plan names exactly the switches whose network is confirmed gone and whose group no port elsewhere refers to |
| `Orphans.RunOrphanPhase` | scripts/cleanup_dead_ovn_ha_chassis.py:529-741 | By network ids: the switch of a listed network stays, that of another network goes exactly if the lookup denies it, no port elsewhere refers to its group and its transaction works, and other switches stay; it aborts exactly if neutron lists nothing or, unforced, more than half of the network switches are suspects |
| `Tokens.SplittingIsLexing` | scripts/argo-workflows-to-mkdocs.py:667-669 | Replacing the operators one after another and splitting at whitespace is the same as reading the text once from the left |
| `Tokens.Tokenize` | scripts/argo-workflows-to-mkdocs.py:666-670 | The tokens are those of the one-pass lexer |
| `Tokens.SpelledIsLexed` | scripts/argo-workflows-to-mkdocs.py:666-670 | Tokens written with any whitespace, or none next to an operator, are read back as they were |
| `Depends.Parser.Consume` | scripts/argo-workflows-to-mkdocs.py:672-678 | Takes one token if there is one |
| `Depends.Parser.ParseExpression` | scripts/argo-workflows-to-mkdocs.py:694-701 | Parses one operand of the grammar from the current position, and terminates |
| `Depends.Parser.ParseTerm` | scripts/argo-workflows-to-mkdocs.py:703-708 | Accepts exactly a word and records its task name |
| `Depends.Parser.ParseParentheses` | scripts/argo-workflows-to-mkdocs.py:710-716 | Accepts exactly a bracketed disjunction |
| `Depends.Parser.ParseNot` | scripts/argo-workflows-to-mkdocs.py:718-721 | Accepts exactly a negated operand |
| `Depends.Parser.ParseAnd` | scripts/argo-workflows-to-mkdocs.py:723-729 | Parses a conjunction from the current position, and terminates |
| `Depends.Parser.ParseOr` | scripts/argo-workflows-to-mkdocs.py:731-737 | Parses a disjunction from the current position, and terminates |
| `Depends.ParsesOperand` | scripts/argo-workflows-to-mkdocs.py:694-721 | The printing of any tree, bracketed as needed, is accepted as an operand and gives its leaves |
| `Depends.ParsesConjunction` | scripts/argo-workflows-to-mkdocs.py:723-729 | The same where the context is a conjunction |
| `Depends.ParsesDisjunction` | scripts/argo-workflows-to-mkdocs.py:731-737 | The same where the context is a disjunction |
| `Depends.OperandIsTree` | scripts/argo-workflows-to-mkdocs.py:694-721 | Whatever is accepted as an operand is the printing of some tree with those leaves |
| `Depends.DisjunctionIsTree` | scripts/argo-workflows-to-mkdocs.py:731-737 | Whatever prefix is accepted is the printing of some tree with those leaves |
| `Depends.AcceptedIff` | scripts/argo-workflows-to-mkdocs.py:694-742 | The parser takes a prefix and leaves the rest if and only if the prefix prints some tree and the rest starts with neither binary operator; the names are the leaves of that tree |
| `Depends.AcceptedInFullIff` | scripts/argo-workflows-to-mkdocs.py:694-742 | A token list is accepted in full if and only if it prints some tree, and then the names are its leaves |
| `Depends.FirstOccurrencesOrder` | scripts/argo-workflows-to-mkdocs.py:742 | Each name once, and in order of first appearance |
| `Depends.Distinct` | scripts/argo-workflows-to-mkdocs.py:742 | Removes later repeats |
| `Depends.ParseDepends` | scripts/argo-workflows-to-mkdocs.py:657-742 | No value gives no names, a list is returned as it is, an expression gives its distinct names or an error, anything else is an error |
| `Depends.TermGivesName` | scripts/argo-workflows-to-mkdocs.py:707-707 | A term gives the name before its first dot |
| `Depends.OperatorsGiveNames` | scripts/argo-workflows-to-mkdocs.py:667-742 | Each operator is read as it is written |
| `Depends.WrittenTreeGivesItsTasks` | scripts/argo-workflows-to-mkdocs.py:657-742 | Every expression tree, written as text with any whitespace or none, gives its task names once each in order of first appearance |
| `Uplink.Driver.IsOnlyRouterPortOnNetwork` | python/neutron-understack/neutron_understack/routers.py:86-99 | True exactly if the network has no second router port |
| `Uplink.Driver.CreatePortPostcommit` | python/neutron-understack/neutron_understack/routers.py:37-83 | Only the first router port, and only of an unflavored router, builds shared port, trunk subport and localnet port |
| `Uplink.Driver.FetchSharedRouterPort` | python/neutron-understack/neutron_understack/routers.py:479-486 | Returns some port of the network whose name has the prefix, the uplink or another, or nothing only if there is none |
| `Uplink.Driver.DoUplinkCleanup` | python/neutron-understack/neutron_understack/routers.py:363-374 | Takes down whatever hangs on the port that the lookup found, and nothing if it found none |
| `Uplink.Driver.HandleRouterInterfaceRemoval` | python/neutron-understack/neutron_understack/routers.py:377-420 | Cleans up exactly if at most this one router port is left |
| `Uplink.Driver.HandleRouterInterfaceAfterDelete` | python/neutron-understack/neutron_understack/routers.py:423-465 | Cleans up exactly if no router port is left |
| `Uplink.Driver.AddRouterPort` | python/neutron-understack/neutron_understack/routers.py:37-83 | Storing a router port and calling the driver is a step that the run lemmas reason about |
| `Uplink.Driver.RemoveRouterPort` | python/neutron-understack/neutron_understack/routers.py:377-465 | A removal through either handler or both, whatever the lookups find, is a step that the run lemmas reason about |
| `Uplink.AddStep` | python/neutron-understack/neutron_understack/routers.py:37-83 | A new router port keeps uplinks complete and unique; exactly if it is the first on the network and unflavored it adds the shared port, its trunk subport and the localnet port, all named after the segment, and nothing else |
| `Uplink.RemovalAsMeantIff` | python/neutron-understack/neutron_understack/routers.py:363-486 | Whatever the lookup by name returns, a removal deletes its port and, with the last one, the uplink, and nothing else, if and only if it is harmless: no other port of the network that stays has the prefix, and the port itself is not found in place of the uplink |
| `Uplink.UplinkCanStayIff` | python/neutron-understack/neutron_understack/routers.py:363-486 | After the last router port is removed its uplink can still be there if and only if each cleanup that fires can be spent on another port with the prefix |
| `Uplink.TenantPortDiverts` | python/neutron-understack/neutron_understack/routers.py:363-486 | A run in which the port of a tenant named uplink-vm is deleted in place of the uplink, which stays without router ports until a second one is built |
| `Uplink.OtherStep` | python/neutron-understack/neutron_understack/routers.py:406-413 | Other ports and new port names leave router ports and uplinks alone |
| `Uplink.NoStrangersNoHarm` | python/neutron-understack/neutron_understack/routers.py:479-486 | If no port except shared ones ever has the prefix, no removal is harmful |
| `Uplink.RemoveStep` | python/neutron-understack/neutron_understack/routers.py:363-465 | A removal that does what is meant keeps uplinks complete and unique, takes the uplink with the last router port and with no other |
| `Uplink.RunKeepsUplinks` | python/neutron-understack/neutron_understack/routers.py:37-465 | In every run of harmless removals a network has at most one uplink, its three parts exist together, and it exists exactly while the router port that opened the current spell of routing was unflavored |
| `NodeCache.Store.Put` | go/ironic-hardware-exporter/internal/cache/store.go:56-105 | A message changes only the entry of its node, in a fresh object |
| `NodeCache.Store.GetAll` | go/ironic-hardware-exporter/internal/cache/store.go:110-118 | A snapshot equals the cache and shares no object with it |
| `NodeCache.Store.SnapshotOutlivesWrites` | go/ironic-hardware-exporter/internal/cache/store.go:107-118 | A snapshot keeps its contents whatever is written later |
| `NodeCache.EntryFromStreams` | go/ironic-hardware-exporter/internal/cache/store.go:56-105 | Each entry is a fold of its node's history: last sensor message, last conductor host, and per state field the last value given |
| `NodeCache.LastGivenMeaning` | go/ironic-hardware-exporter/internal/cache/store.go:73-75 | The last value given is the one at the last message that gives any |
| `NodeCache.InterleavingDoesNotMatter` | go/ironic-hardware-exporter/internal/cache/store.go:56-105 | An entry, its name included, depends only on the two per-consumer streams and not on their interleaving |

## Left out

- Interleaved adoptions of one node, and failures inside recovery calls: the rollback acts on the state that it re-reads and logs its own failures, so exclusive ownership is stated for serialised runs with working recovery.
- Node metadata of an enrolled device is one opaque value, because the patch is computed by a client library that is not part of this model; that Ironic refuses a MAC registered on another node is not modelled either.
- Real SQL, row locks and the foreign key that sets a router to null: the table is a map, and router ids are non-empty strings.
- The Ironic, Neutron, OVN, Undersync, kubectl and openstack clients: only the state they hold is modelled, and their answers are parameters.
- Positions in a list stand for UUIDs of nodes and ports; the lookup of a network's segment takes any match, which is unique under the invariant.
- Printing, confirmation prompts and dry runs of the repair script, and its parsing of OVN's JSON; reverse references are sets instead of lists of rows.
- Whitespace, digits and letter case outside ASCII in Python's `strip`, `split`, `int` and `lower`.
- Depends.WrittenTreeGivesItsTasks: takes term names without the characters of the operators; other words are covered at the level of tokens by `Depends.AcceptedInFullIff` and by the lexer equivalence.
- Eviction and time to live in the node cache, and the sensor payload's contents.
- Service profile metadata and flavor lookups behind router creation: the setting or resource class found is a parameter.
- Anchoring of gateway ports to HA chassis groups, the anchor network of appliances, and discovery of the network node trunk.
- Redfish, password derivation, the Dex and Nautobot operators beyond scheduling, NetApp, flavor matching, RAID grouping, image conversion and documentation rendering.
