/** The exporter's node cache: two consumers write, and each entry is a function of the two message streams. */
module NodeCache {
  import opened Common

  datatype Message =
    | Hardware(node: string, name: string, timestamp: int, sensors: int)
    | NodeState(node: string, name: string, host: string, power: Option<string>, provision: Option<string>,
                maintenance: Option<bool>, fault: Option<string>)

  /** Everything known about a server; sensors stands for one opaque payload, zero when none was received. */
  datatype Entry = Entry(node: string, name: string, lastSeen: int, sensors: int, hasState: bool, host: string,
                         power: Option<string>, provision: Option<string>, maintenance: bool, fault: Option<string>)

  function Blank(node: string, name: string): Entry {
    Entry(node, name, 0, 0, false, "", None, None, false, None)
  }

  function Newer<T>(incoming: Option<T>, current: Option<T>): Option<T> {
    if incoming.Some? then incoming else current
  }

  /** The entry after one message for its node. */
  function Updated(existing: Option<Entry>, m: Message): Entry {
    match m
    case Hardware(node, name, timestamp, sensors) =>
      var e := if existing.Some? then existing.value else Blank(node, "");
      e.(name := name, lastSeen := timestamp, sensors := sensors)
    case NodeState(node, name, host, power, provision, maintenance, fault) =>
      var e := if existing.Some? then existing.value else Blank(node, name);
      e.(hasState := true, host := host, power := Newer(power, e.power), provision := Newer(provision, e.provision),
         maintenance := if maintenance.Some? then maintenance.value else e.maintenance, fault := Newer(fault, e.fault))
  }

  type View = map<string, Entry>

  function Lookup(v: View, node: string): Option<Entry> {
    if node in v then Some(v[node]) else None
  }

  function Write(v: View, m: Message): View {
    v[m.node := Updated(Lookup(v, m.node), m)]
  }

  function WriteAll(v: View, history: seq<Message>): View {
    if history == [] then v else Write(WriteAll(v, history[..|history| - 1]), history[|history| - 1])
  }

  // ----- the entry as a function of the two streams

  /** The messages of one consumer about one node. */
  function Stream(history: seq<Message>, node: string, hardware: bool): (r: seq<Message>)
    ensures forall i :: 0 <= i < |r| ==> r[i].Hardware? == hardware && r[i].node == node
  {
    if history == [] then []
    else
      var m := history[|history| - 1];
      Stream(history[..|history| - 1], node, hardware) + if m.node == node && m.Hardware? == hardware then [m] else []
  }

  function LastGiven<T>(states: seq<Message>, field: Message -> Option<T>): Option<T> {
    if states == [] then None
    else Newer(field(states[|states| - 1]), LastGiven(states[..|states| - 1], field))
  }

  function PowerOf(m: Message): Option<string> { if m.NodeState? then m.power else None }
  function ProvisionOf(m: Message): Option<string> { if m.NodeState? then m.provision else None }
  function MaintenanceOf(m: Message): Option<bool> { if m.NodeState? then m.maintenance else None }
  function FaultOf(m: Message): Option<string> { if m.NodeState? then m.fault else None }

  /** The last sensor message, the last conductor host, and per state field the last value given; the name is
      that of the last sensor message, or of the first state message if there is none. */
  ghost function FromStreams(node: string, sensors: seq<Message>, states: seq<Message>): Option<Entry>
    requires forall i :: 0 <= i < |sensors| ==> sensors[i].Hardware?
    requires forall i :: 0 <= i < |states| ==> states[i].NodeState?
  {
    if sensors == [] && states == [] then None
    else
      Some(Entry(node,
                 if sensors != [] then sensors[|sensors| - 1].name else states[0].name,
                 if sensors != [] then sensors[|sensors| - 1].timestamp else 0,
                 if sensors != [] then sensors[|sensors| - 1].sensors else 0,
                 states != [],
                 if states != [] then states[|states| - 1].host else "",
                 LastGiven(states, PowerOf), LastGiven(states, ProvisionOf),
                 LastGiven(states, MaintenanceOf) == Some(true), LastGiven(states, FaultOf)))
  }

  lemma LastGivenSnoc<T>(states: seq<Message>, m: Message, field: Message -> Option<T>)
    ensures LastGiven(states + [m], field) == Newer(field(m), LastGiven(states, field))
  {
    assert (states + [m])[..|states|] == states;
  }

  /** The value at the last message that gives one. */
  lemma {:induction false} LastGivenMeaning<T>(states: seq<Message>, field: Message -> Option<T>, v: T)
    ensures LastGiven(states, field) == Some(v) <==>
            exists i :: LastGivenAt(states, field, i) && field(states[i]) == Some(v)
    ensures LastGiven(states, field) == None <==> forall i :: 0 <= i < |states| ==> field(states[i]) == None
  {
    if states != [] {
      var init, n := states[..|states| - 1], |states| - 1;
      LastGivenMeaning(init, field, v);
      assert forall i :: 0 <= i < n ==> init[i] == states[i];
      if i :| LastGivenAt(states, field, i) && field(states[i]) == Some(v) {
        assert i < n ==> LastGivenAt(init, field, i);
      }
      if field(states[n]).Some? {
        assert LastGivenAt(states, field, n);
      } else if i :| LastGivenAt(init, field, i) && field(init[i]) == Some(v) {
        assert LastGivenAt(states, field, i);
      }
    }
  }

  predicate LastGivenAt<T>(states: seq<Message>, field: Message -> Option<T>, i: int) {
    0 <= i < |states| && field(states[i]).Some? && forall j :: i < j < |states| ==> field(states[j]).None?
  }

  lemma HardwareStep(node: string, sensors: seq<Message>, states: seq<Message>, m: Message)
    requires (forall i :: 0 <= i < |sensors| ==> sensors[i].Hardware?)
             && (forall i :: 0 <= i < |states| ==> states[i].NodeState?)
    requires m.Hardware? && m.node == node
    ensures FromStreams(node, sensors + [m], states) == Some(Updated(FromStreams(node, sensors, states), m))
  {
  }

  lemma StateStep(node: string, sensors: seq<Message>, states: seq<Message>, m: Message)
    requires (forall i :: 0 <= i < |sensors| ==> sensors[i].Hardware?)
             && (forall i :: 0 <= i < |states| ==> states[i].NodeState?)
    requires m.NodeState? && m.node == node
    ensures FromStreams(node, sensors, states + [m]) == Some(Updated(FromStreams(node, sensors, states), m))
  {
    LastGivenSnoc(states, m, PowerOf);
    LastGivenSnoc(states, m, ProvisionOf);
    LastGivenSnoc(states, m, MaintenanceOf);
    LastGivenSnoc(states, m, FaultOf);
  }

  /** Every entry is that function of its node's history, however the two consumers interleave. */
  lemma {:induction false} EntryFromStreams(history: seq<Message>, node: string)
    ensures Lookup(WriteAll(map[], history), node) ==
            FromStreams(node, Stream(history, node, true), Stream(history, node, false))
  {
    if history != [] {
      var init, m := history[..|history| - 1], history[|history| - 1];
      var sensors, states := Stream(init, node, true), Stream(init, node, false);
      EntryFromStreams(init, node);
      assert sensors + [] == sensors && states + [] == states;
      if m.node == node && m.Hardware? {
        HardwareStep(node, sensors, states, m);
      } else if m.node == node {
        StateStep(node, sensors, states, m);
      }
    }
  }

  /** Two histories with the same stream from each consumer leave the same entry. */
  lemma InterleavingDoesNotMatter(a: seq<Message>, b: seq<Message>, node: string)
    requires Stream(a, node, true) == Stream(b, node, true) && Stream(a, node, false) == Stream(b, node, false)
    ensures Lookup(WriteAll(map[], a), node) == Lookup(WriteAll(map[], b), node)
  {
    EntryFromStreams(a, node);
    EntryFromStreams(b, node);
  }

  // ----- the store

  /** An entry as an object that others may hold on to. */
  class NodeEntry {
    var data: Entry

    constructor (data: Entry)
      ensures this.data == data
    {
      this.data := data;
    }
  }

  class Store {
    var cache: map<string, NodeEntry>

    constructor ()
      ensures cache == map[] && Contents() == map[]
    {
      cache := map[];
    }

    /** What the cache currently says. */
    ghost function Contents(): View
      reads this, cache.Values
    {
      map k | k in cache :: cache[k].data
    }

    /** Get, copy, modify, set: no entry object that existed before is written to. */
    method Put(m: Message)
      modifies this
      ensures Contents() == Write(old(Contents()), m)
      ensures m.node in cache && fresh(cache[m.node])
      ensures forall k :: k in old(cache) && k != m.node ==> k in cache && cache[k] == old(cache)[k]
    {
      var existing := if m.node in cache then Some(cache[m.node].data) else None;
      var entry := new NodeEntry(Updated(existing, m));
      ghost var before := Contents();
      cache := cache[m.node := entry];
      assert existing == Lookup(before, m.node);
    }

    method PutAll(history: seq<Message>)
      modifies this
      ensures Contents() == WriteAll(old(Contents()), history)
    {
      for i := 0 to |history|
        invariant Contents() == WriteAll(old(Contents()), history[..i])
      {
        Put(history[i]);
        assert history[..i + 1][..i] == history[..i];
      }
      assert history[..|history|] == history;
    }

    /** A snapshot in objects of its own. */
    method GetAll() returns (snapshot: map<string, NodeEntry>)
      ensures snapshot.Keys == cache.Keys
      ensures forall k :: k in snapshot ==> fresh(snapshot[k]) && snapshot[k].data == cache[k].data
      ensures Contents() == old(Contents())
    {
      snapshot := map[];
      var rest := cache.Keys;
      while rest != {}
        invariant rest <= cache.Keys
        invariant snapshot.Keys == cache.Keys - rest
        invariant forall k :: k in snapshot ==> fresh(snapshot[k]) && snapshot[k].data == cache[k].data
        invariant Contents() == old(Contents())
      {
        var key :| key in rest;
        var copy := new NodeEntry(cache[key].data);
        snapshot := snapshot[key := copy];
        rest := rest - {key};
      }
    }

    /** Whatever is written later, a snapshot keeps saying what the cache said when it was taken. */
    method SnapshotOutlivesWrites(later: seq<Message>) returns (snapshot: map<string, NodeEntry>)
      modifies this
      ensures snapshot.Keys == old(Contents()).Keys
      ensures forall k :: k in snapshot ==> snapshot[k].data == old(Contents())[k]
      ensures Contents() == WriteAll(old(Contents()), later)
    {
      snapshot := GetAll();
      PutAll(later);
    }
  }
}
