/** Planning a netdev enrolment: request validation, and what each requested port still needs. */
module NetdevPlan {
  import opened Common
  import opened PyText

  const PLACEHOLDER := "00:00:00:00:00:00"

  // ----- the request

  /** A JSON value as far as validation looks at it. */
  datatype Json = Str(s: string) | Null | OtherValue(truthy: bool)

  datatype Entry = NotObject | Object(fields: map<string, Json>)

  datatype NetdevPort = NetdevPort(portLabel: string, mac: string, switch: string, interface: string,
                                   switchId: Option<string>)

  datatype Fault =
    | EmptyList
    | NotAnObject(index: nat)
    | MissingField(index: nat)
    | NotStrings(index: nat)
    | BadSwitchId(index: nat)
    | UnknownField(index: nat)
    | DuplicateLabel(index: nat)
    | DuplicateMac(index: nat)

  const REQUIRED := {"label", "mac", "switch", "intf"}
  const ALLOWED := REQUIRED + {"switch_id"}

  predicate Truthy(fields: map<string, Json>, key: string) {
    key in fields &&
    match fields[key]
    case Str(s) => s != ""
    case Null => false
    case OtherValue(t) => t
  }

  function EntryFault(e: Entry, i: nat): Option<Fault> {
    if e.NotObject? then Some(NotAnObject(i))
    else if exists k :: k in REQUIRED && !Truthy(e.fields, k) then Some(MissingField(i))
    else if exists k :: k in REQUIRED && k in e.fields && !e.fields[k].Str? then Some(NotStrings(i))
    else if "switch_id" in e.fields && e.fields["switch_id"].OtherValue? then Some(BadSwitchId(i))
    else if !(e.fields.Keys <= ALLOWED) then Some(UnknownField(i))
    else None
  }

  predicate Usable(e: Entry) {
    EntryFault(e, 0).None?
  }

  lemma UsableFields(e: Entry, i: nat)
    requires EntryFault(e, i).None?
    ensures Usable(e) && e.Object?
    ensures forall k :: k in REQUIRED ==> k in e.fields && e.fields[k].Str? && e.fields[k].s != ""
  {
  }

  predicate NonEmptyText(fields: map<string, Json>, key: string) {
    key in fields && fields[key].Str? && fields[key].s != ""
  }

  /** A usable entry has the four fields as non-empty texts, perhaps a switch_id that is a text or null, and no other
      field. */
  lemma UsableMeaning(e: Entry)
    ensures Usable(e) <==>
            && e.Object?
            && NonEmptyText(e.fields, "label") && NonEmptyText(e.fields, "mac")
            && NonEmptyText(e.fields, "switch") && NonEmptyText(e.fields, "intf")
            && ("switch_id" in e.fields ==> e.fields["switch_id"].Str? || e.fields["switch_id"].Null?)
            && forall k :: k in e.fields ==>
                 k == "label" || k == "mac" || k == "switch" || k == "intf" || k == "switch_id"
  {
    assert "label" in REQUIRED && "mac" in REQUIRED && "switch" in REQUIRED && "intf" in REQUIRED;
  }

  /** Which fault an entry has: a missing field counts before one of the wrong type, then switch_id, then fields that
      are not known. */
  lemma FaultMeaning(e: Entry, i: nat)
    requires e.Object?
    ensures var f := e.fields;
            var present := Truthy(f, "label") && Truthy(f, "mac") && Truthy(f, "switch") && Truthy(f, "intf");
            var texts := present && f["label"].Str? && f["mac"].Str? && f["switch"].Str? && f["intf"].Str?;
            var idOk := "switch_id" !in f || f["switch_id"].Str? || f["switch_id"].Null?;
            && (EntryFault(e, i) == Some(MissingField(i)) <==> !present)
            && (EntryFault(e, i) == Some(NotStrings(i)) <==> present && !texts)
            && (EntryFault(e, i) == Some(BadSwitchId(i)) <==> texts && !idOk)
            && (EntryFault(e, i) == Some(UnknownField(i)) <==>
                  texts && idOk && exists k :: k in f && k !in {"label", "mac", "switch", "intf", "switch_id"})
  {
    assert "label" in REQUIRED && "mac" in REQUIRED && "switch" in REQUIRED && "intf" in REQUIRED;
    assert ALLOWED == {"label", "mac", "switch", "intf", "switch_id"};
  }

  function PortOf(e: Entry): NetdevPort
    requires Usable(e)
  {
    UsableFields(e, 0);
    var f := e.fields;
    NetdevPort(f["label"].s, f["mac"].s, f["switch"].s, f["intf"].s,
               if "switch_id" in f && f["switch_id"].Str? then Some(f["switch_id"].s) else None)
  }

  /** Labels are unique, MACs are unique up to case, and neither is empty. */
  ghost predicate GoodRequest(ports: seq<NetdevPort>) {
    && (forall i, j :: 0 <= i < j < |ports| ==> ports[i].portLabel != ports[j].portLabel)
    && (forall i, j :: 0 <= i < j < |ports| ==> Lower(ports[i].mac) != Lower(ports[j].mac))
    && (forall i :: 0 <= i < |ports| ==> ports[i].mac != "")
  }

  predicate Clash(a: Entry, b: Entry) {
    && Usable(a) && Usable(b)
    && (PortOf(a).portLabel == PortOf(b).portLabel || Lower(PortOf(a).mac) == Lower(PortOf(b).mac))
  }

  /** Entries clash over the same label, or over MACs that are equal up to case. */
  lemma ClashMeaning(a: Entry, b: Entry)
    requires a.Object? && b.Object? && Usable(a) && Usable(b)
    requires NonEmptyText(a.fields, "label") && NonEmptyText(b.fields, "label")
    requires NonEmptyText(a.fields, "mac") && NonEmptyText(b.fields, "mac")
    ensures Clash(a, b) <==>
            a.fields["label"].s == b.fields["label"].s || SameUpToCase(a.fields["mac"].s, b.fields["mac"].s)
  {
    LowerMeaning(a.fields["mac"].s, b.fields["mac"].s);
  }

  predicate AcceptableUpTo(entries: seq<Entry>, n: nat)
    requires n <= |entries|
  {
    && (forall i :: 0 <= i < n ==> Usable(entries[i]))
    && (forall i, j :: 0 <= i < j < n ==> !Clash(entries[i], entries[j]))
  }

  predicate Acceptable(entries: seq<Entry>) {
    entries != [] && AcceptableUpTo(entries, |entries|)
  }

  predicate SharesLabel(entries: seq<Entry>, i: nat)
    requires i < |entries| && Usable(entries[i])
  {
    exists k :: 0 <= k < i && Usable(entries[k]) && PortOf(entries[k]).portLabel == PortOf(entries[i]).portLabel
  }

  /** Entry i is the first that cannot be taken, and this is the first thing wrong with it. */
  predicate FirstFault(entries: seq<Entry>, i: nat, f: Fault) {
    && i < |entries| && AcceptableUpTo(entries, i) && !AcceptableUpTo(entries, i + 1)
    && if !Usable(entries[i]) then EntryFault(entries[i], i) == Some(f)
       else f == if SharesLabel(entries, i) then DuplicateLabel(i) else DuplicateMac(i)
  }

  lemma FaultyEntry(entries: seq<Entry>, i: nat, f: Fault)
    requires i < |entries| && AcceptableUpTo(entries, i)
    requires if !Usable(entries[i]) then EntryFault(entries[i], i) == Some(f)
             else (exists k :: 0 <= k < i && Clash(entries[k], entries[i]))
                  && f == if SharesLabel(entries, i) then DuplicateLabel(i) else DuplicateMac(i)
    ensures FirstFault(entries, i, f) && !Acceptable(entries)
  {
  }

  /** The ports of the first i entries, all of them acceptable. */
  ghost predicate Built(entries: seq<Entry>, i: nat, ports: seq<NetdevPort>)
    requires i <= |entries|
  {
    && AcceptableUpTo(entries, i) && |ports| == i
    && forall k :: 0 <= k < i ==> ports[k] == PortOf(entries[k])
  }

  lemma BuiltIsGood(entries: seq<Entry>, i: nat, ports: seq<NetdevPort>)
    requires i <= |entries| && Built(entries, i, ports)
    ensures GoodRequest(ports)
  {
    forall j, k | 0 <= j < k < i
      ensures ports[j].portLabel != ports[k].portLabel && Lower(ports[j].mac) != Lower(ports[k].mac)
    {
      assert !Clash(entries[j], entries[k]);
    }
    forall k | 0 <= k < i ensures ports[k].mac != "" {
      UsableFields(entries[k], 0);
    }
  }

  function Labels(ports: seq<NetdevPort>): set<string> {
    set k | 0 <= k < |ports| :: ports[k].portLabel
  }

  function Macs(ports: seq<NetdevPort>): set<string> {
    set k | 0 <= k < |ports| :: Lower(ports[k].mac)
  }

  /** A label or a MAC seen before makes the entry the first faulty one. */
  lemma SeenBefore(entries: seq<Entry>, i: nat, ports: seq<NetdevPort>)
    requires i < |entries| && Built(entries, i, ports) && Usable(entries[i])
    ensures PortOf(entries[i]).portLabel in Labels(ports) ==>
              FirstFault(entries, i, DuplicateLabel(i)) && !Acceptable(entries)
    ensures PortOf(entries[i]).portLabel !in Labels(ports) && Lower(PortOf(entries[i]).mac) in Macs(ports) ==>
              FirstFault(entries, i, DuplicateMac(i)) && !Acceptable(entries)
  {
    var port := PortOf(entries[i]);
    if port.portLabel in Labels(ports) {
      var k :| 0 <= k < i && ports[k].portLabel == port.portLabel;
      assert Clash(entries[k], entries[i]) && SharesLabel(entries, i);
      FaultyEntry(entries, i, DuplicateLabel(i));
    } else if Lower(port.mac) in Macs(ports) {
      var k :| 0 <= k < i && Lower(ports[k].mac) == Lower(port.mac);
      assert Clash(entries[k], entries[i]);
      assert !SharesLabel(entries, i);
      FaultyEntry(entries, i, DuplicateMac(i));
    }
  }

  lemma OneMoreBuilt(entries: seq<Entry>, i: nat, ports: seq<NetdevPort>)
    requires i < |entries| && Built(entries, i, ports) && Usable(entries[i])
    requires PortOf(entries[i]).portLabel !in Labels(ports) && Lower(PortOf(entries[i]).mac) !in Macs(ports)
    ensures Built(entries, i + 1, ports + [PortOf(entries[i])])
  {
    forall k | 0 <= k < i ensures !Clash(entries[k], entries[i]) {
      assert ports[k].portLabel in Labels(ports) && Lower(ports[k].mac) in Macs(ports);
    }
  }

  lemma SeenMore(ports: seq<NetdevPort>, port: NetdevPort)
    ensures Labels(ports + [port]) == Labels(ports) + {port.portLabel}
    ensures Macs(ports + [port]) == Macs(ports) + {Lower(port.mac)}
  {
    var more := ports + [port];
    assert more[|ports|] == port && forall k :: 0 <= k < |ports| ==> more[k] == ports[k];
  }

  /** Accepts exactly a non-empty list of usable entries with distinct labels and distinct MACs, and otherwise
      reports the first fault of the first entry that cannot be taken. */
  method BuildNetdevPorts(entries: seq<Entry>) returns (r: Result<seq<NetdevPort>, Fault>)
    ensures r.Ok? ==> entries != [] && |r.value| == |entries| && GoodRequest(r.value)
                      && forall i :: 0 <= i < |entries| ==> Usable(entries[i]) && r.value[i] == PortOf(entries[i])
    ensures r.Ok? <==> Acceptable(entries)
    ensures r.Err? ==> if entries == [] then r.error == EmptyList else exists i: nat :: FirstFault(entries, i, r.error)
  {
    if entries == [] {
      return Err(EmptyList);
    }
    var result: seq<NetdevPort> := [];
    var seenLabels: set<string> := {};
    var seenMacs: set<string> := {};
    for i := 0 to |entries|
      invariant Built(entries, i, result) && seenLabels == Labels(result) && seenMacs == Macs(result)
    {
      var fault := EntryFault(entries[i], i);
      if fault.Some? {
        FaultyEntry(entries, i, fault.value);
        return Err(fault.value);
      }
      UsableFields(entries[i], i);
      SeenBefore(entries, i, result);
      var port := PortOf(entries[i]);
      if port.portLabel in seenLabels {
        return Err(DuplicateLabel(i));
      }
      if Lower(port.mac) in seenMacs {
        return Err(DuplicateMac(i));
      }
      OneMoreBuilt(entries, i, result);
      SeenMore(result, port);
      seenLabels := seenLabels + {port.portLabel};
      seenMacs := seenMacs + {Lower(port.mac)};
      result := result + [port];
    }
    BuiltIsGood(entries, |entries|, result);
    return Ok(result);
  }

  // ----- the node's ports

  /** A bare metal port; its position in the node's list stands for its UUID. */
  datatype Port = Port(name: Option<string>, address: Option<string>, physnet: Option<string>, category: Option<string>,
                       link: Option<map<string, string>>)

  function Mac(p: Port): string {
    if p.address.Some? then Lower(p.address.value) else ""
  }

  function PortName(node: string, portLabel: string): string {
    node + ":" + portLabel
  }

  /** Dictionary lookups keep the last port under a key. */
  function LastByName(ports: seq<Port>, name: string): (i: Option<nat>)
    ensures i.Some? ==> i.value < |ports| && ports[i.value].name == Some(name)
                        && forall k :: i.value < k < |ports| ==> ports[k].name != Some(name)
    ensures i.None? ==> forall k :: 0 <= k < |ports| ==> ports[k].name != Some(name)
  {
    if ports == [] then None
    else if ports[|ports| - 1].name == Some(name) then Some(|ports| - 1)
    else LastByName(ports[..|ports| - 1], name)
  }

  function LastByMac(ports: seq<Port>, mac: string): (i: Option<nat>)
    ensures i.Some? ==> i.value < |ports| && Mac(ports[i.value]) == mac
    ensures i.None? ==> forall k :: 0 <= k < |ports| ==> Mac(ports[k]) != mac
  {
    if ports == [] then None
    else if Mac(ports[|ports| - 1]) == mac then Some(|ports| - 1)
    else LastByMac(ports[..|ports| - 1], mac)
  }

  datatype Patch = Patch(address: Option<string>, physnet: Option<string>, category: bool,
                         link: Option<map<string, string>>)

  const EMPTY_PATCH := Patch(None, None, false, None)

  datatype Plan = Create | Update(index: nat, patch: Patch)

  function LinkOf(p: Port): map<string, string> {
    if p.link.Some? then p.link.value else map[]
  }

  function Field(link: map<string, string>, key: string): Option<string> {
    if key in link then Some(link[key]) else None
  }

  /** An explicit switch_id wins, a recorded real one is preserved, and otherwise the placeholder is written. */
  function SwitchIdFor(req: NetdevPort, current: Option<string>): string {
    if req.switchId.Some? && req.switchId.value != "" then req.switchId.value
    else if current.None? || current.value == "" || current.value == PLACEHOLDER then PLACEHOLDER
    else current.value
  }

  function WantedLink(req: NetdevPort, current: Option<string>): map<string, string> {
    map["switch_id" := SwitchIdFor(req, current), "switch_info" := req.switch, "port_id" := req.interface]
  }

  predicate LinkMatches(link: map<string, string>, wanted: map<string, string>) {
    forall key :: key in wanted ==> Field(link, key) == Some(wanted[key])
  }

  /** What a single port needs; None when the MAC belongs to another port. */
  function PlanPort(ports: seq<Port>, node: string, physnet: string, req: NetdevPort): (plan: Option<Plan>)
    ensures plan.Some? && plan.value.Update? ==> plan.value.index < |ports|
  {
    var existing := LastByName(ports, PortName(node, req.portLabel));
    var owner := LastByMac(ports, Lower(req.mac));
    if existing.None? then
      if owner.Some? then None else Some(Create)
    else
      var p := ports[existing.value];
      var wanted := WantedLink(req, Field(LinkOf(p), "switch_id"));
      if Mac(p) != Lower(req.mac) && owner.Some? && owner.value != existing.value then None
      else
        Some(Update(existing.value,
                    Patch(if Mac(p) != Lower(req.mac) then Some(req.mac) else None,
                          if p.physnet != Some(physnet) then Some(physnet) else None,
                          p.category != Some("network"),
                          if LinkMatches(LinkOf(p), wanted) then None else Some(wanted))))
  }

  predicate LastNamed(ports: seq<Port>, name: string, i: nat) {
    i < |ports| && ports[i].name == Some(name) && forall k :: i < k < |ports| ==> ports[k].name != Some(name)
  }

  predicate HasMac(p: Port, mac: string) {
    SameUpToCase(if p.address.Some? then p.address.value else "", mac)
  }

  lemma MacMeaning(p: Port, mac: string)
    ensures Mac(p) == Lower(mac) <==> HasMac(p, mac)
  {
    LowerMeaning(if p.address.Some? then p.address.value else "", mac);
    assert Lower("") == "";
  }

  /** Some port has the MAC, and the last one under this name does not. */
  ghost predicate Conflicts(ports: seq<Port>, name: string, mac: string) {
    && (exists k :: 0 <= k < |ports| && HasMac(ports[k], mac))
    && !exists i: nat :: LastNamed(ports, name, i) && HasMac(ports[i], mac)
  }

  /** A request conflicts exactly if some port has its MAC, and the last port under its name does not. */
  lemma ConflictIff(ports: seq<Port>, node: string, physnet: string, req: NetdevPort)
    ensures PlanPort(ports, node, physnet, req) == None <==> Conflicts(ports, node + ":" + req.portLabel, req.mac)
  {
    forall k | 0 <= k < |ports| ensures Mac(ports[k]) == Lower(req.mac) <==> HasMac(ports[k], req.mac) {
      MacMeaning(ports[k], req.mac);
    }
    var existing := LastByName(ports, PortName(node, req.portLabel));
    if existing.Some? {
      assert LastNamed(ports, node + ":" + req.portLabel, existing.value);
      assert forall i: nat :: LastNamed(ports, node + ":" + req.portLabel, i) ==> i == existing.value;
    }
  }

  function Patched(p: Port, patch: Patch): Port {
    Port(p.name,
         if patch.address.Some? then patch.address else p.address,
         if patch.physnet.Some? then patch.physnet else p.physnet,
         if patch.category then Some("network") else p.category,
         if patch.link.Some? then patch.link else p.link)
  }

  function NewPort(node: string, physnet: string, req: NetdevPort): Port {
    Port(Some(PortName(node, req.portLabel)), Some(req.mac), Some(physnet), Some("network"),
         Some(WantedLink(req, None)))
  }

  function ApplyPlan(ports: seq<Port>, node: string, physnet: string, req: NetdevPort, plan: Plan): seq<Port> {
    match plan
    case Create => ports + [NewPort(node, physnet, req)]
    case Update(i, patch) => if i < |ports| then ports[i := Patched(ports[i], patch)] else ports
  }
}
