/** Dynamic VLAN segments shared by trunk subports, kept alive by their port binding levels. */
module Segments {
  import opened Common

  type SegmentId = nat

  datatype Segment = Segment(network: string, physnet: string, isVlan: bool, tag: int, isDynamic: bool)

  /** Primary key of a port binding level. */
  datatype Key = Key(port: string, host: string, level: nat)

  datatype Level = Level(driver: string, segment: SegmentId)

  /** The rows that matter: segments, binding levels and the VLAN tags still free per physical network. */
  datatype Db = Db(segments: map<SegmentId, Segment>, levels: map<Key, Level>, freeTags: set<(string, int)>,
                   nextId: nat)

  datatype Failure = PortNotFound(port: string) | NoTagAvailable(physnet: string) | DuplicateLevel(port: string)

  const DRIVER := "understack"

  predicate Referenced(levels: map<Key, Level>, s: SegmentId) {
    exists k :: k in levels && levels[k].segment == s
  }

  predicate Carries(seg: Segment, network: string, physnet: string) {
    seg.isVlan && seg.network == network && seg.physnet == physnet
  }

  predicate SamePlace(a: Segment, b: Segment) {
    a.isVlan && b.isVlan && a.network == b.network && a.physnet == b.physnet
  }

  function TagOf(seg: Segment): (string, int) {
    (seg.physnet, seg.tag)
  }

  /** No level dangles, at most one VLAN segment per network and physical network, ids are fresh. */
  ghost predicate Sound(db: Db) {
    && (forall k :: k in db.levels ==> db.levels[k].segment in db.segments)
    && (forall s, t :: s in db.segments && t in db.segments && SamePlace(db.segments[s], db.segments[t]) ==> s == t)
    && (forall s :: s in db.segments ==> s < db.nextId)
  }

  /** Sound, and every dynamic segment is in use. */
  ghost predicate Settled(db: Db) {
    Sound(db) && forall s :: s in db.segments && db.segments[s].isDynamic ==> Referenced(db.levels, s)
  }

  // ----- growing: what binding subports adds

  ghost predicate Added(base: Db, db: Db, s: SegmentId) {
    s in db.segments && s !in base.segments
  }

  /** db is base plus levels under the keys of extra and the dynamic segments that only those use, whose tags
      came out of the free ones. */
  ghost predicate Grown(base: Db, db: Db, extra: set<Key>) {
    && extra !! base.levels.Keys && db.levels.Keys == base.levels.Keys + extra
    && (forall k :: k in base.levels ==> db.levels[k] == base.levels[k])
    && (forall s :: s in base.segments ==> s in db.segments && db.segments[s] == base.segments[s])
    && (forall s :: Added(base, db, s) ==> AddedOk(base, db, extra, s))
    && (forall s, t :: Added(base, db, s) && Added(base, db, t) && TagOf(db.segments[s]) == TagOf(db.segments[t]) ==>
         s == t)
    && (forall t :: t in db.freeTags <==> t in base.freeTags && !TagTaken(base, db, t))
  }

  ghost predicate AddedOk(base: Db, db: Db, extra: set<Key>, s: SegmentId)
    requires Added(base, db, s)
  {
    && db.segments[s].isDynamic && TagOf(db.segments[s]) in base.freeTags
    && exists k :: k in extra && k in db.levels && db.levels[k].segment == s
  }

  ghost predicate TagTaken(base: Db, db: Db, t: (string, int)) {
    exists s :: Added(base, db, s) && TagOf(db.segments[s]) == t
  }

  ghost predicate BoundTo(db: Db, port: string, host: string, network: string, physnet: string) {
    var k := Key(port, host, 0);
    && k in db.levels && db.levels[k].driver == "understack" && db.levels[k].segment in db.segments
    && var s := db.segments[db.levels[k].segment];
       s.isVlan && s.network == network && s.physnet == physnet
  }

  /** The first n subports are bound to the segment of their network. */
  ghost predicate BoundUpTo(db: Db, ports: map<string, string>, subports: seq<string>, n: nat, physnet: string,
                            host: string)
    requires n <= |subports|
  {
    forall i :: 0 <= i < n ==> subports[i] in ports && BoundTo(db, subports[i], host, ports[subports[i]], physnet)
  }

  ghost function NewKeys(base: Db, db: Db): set<Key> {
    db.levels.Keys - base.levels.Keys
  }

  ghost function KeysUpTo(subports: seq<string>, n: nat, host: string): set<Key>
    requires n <= |subports|
  {
    set i | 0 <= i < n :: Key(subports[i], host, 0)
  }

  ghost function KeysOf(subports: seq<string>, host: string): set<Key> {
    KeysUpTo(subports, |subports|, host)
  }

  function WithLevel(db: Db, k: Key, s: SegmentId): Db {
    db.(levels := db.levels[k := Level(DRIVER, s)])
  }

  function WithSegment(db: Db, network: string, t: (string, int)): Db {
    db.(segments := db.segments[db.nextId := Segment(network, t.0, true, t.1, true)],
        freeTags := db.freeTags - {t}, nextId := db.nextId + 1)
  }

  lemma GrownLevel(base: Db, db: Db, extra: set<Key>, k: Key, s: SegmentId)
    requires Grown(base, db, extra) && k !in db.levels && s in db.segments
    ensures Grown(base, WithLevel(db, k, s), extra + {k})
  {
    var db' := WithLevel(db, k, s);
    forall t | Added(base, db', t) ensures AddedOk(base, db', extra + {k}, t) {
      assert Added(base, db, t) && AddedOk(base, db, extra, t);
    }
    forall t ensures TagTaken(base, db', t) <==> TagTaken(base, db, t) {
      if s :| Added(base, db, s) && TagOf(db.segments[s]) == t {
        assert Added(base, db', s);
      }
      if s :| Added(base, db', s) && TagOf(db'.segments[s]) == t {
        assert Added(base, db, s);
      }
    }
    forall s, t | Added(base, db', s) && Added(base, db', t) && TagOf(db'.segments[s]) == TagOf(db'.segments[t])
      ensures s == t
    {
      assert Added(base, db, s) && Added(base, db, t);
    }
  }

  /** Taking a tag out of the free ones for a new segment. */
  lemma TagsAfterSegment(base: Db, db: Db, network: string, t: (string, int), u: (string, int))
    requires db.nextId !in db.segments && db.nextId !in base.segments
    ensures TagTaken(base, WithSegment(db, network, t), u) <==> TagTaken(base, db, u) || u == t
  {
    var n, db' := db.nextId, WithSegment(db, network, t);
    if s :| Added(base, db, s) && TagOf(db.segments[s]) == u {
      assert Added(base, db', s) && db'.segments[s] == db.segments[s];
    }
    assert Added(base, db', n) && TagOf(db'.segments[n]) == t;
    if s :| Added(base, db', s) && TagOf(db'.segments[s]) == u {
      assert s != n ==> Added(base, db, s);
    }
  }

  lemma GrownSegment(base: Db, db: Db, extra: set<Key>, k: Key, network: string, t: (string, int))
    requires Grown(base, db, extra) && k !in db.levels && t in db.freeTags
    requires db.nextId !in db.segments && db.nextId !in base.segments
    ensures Grown(base, WithLevel(WithSegment(db, network, t), k, db.nextId), extra + {k})
  {
    var n, mid := db.nextId, WithSegment(db, network, t);
    var db' := WithLevel(mid, k, n);
    SameAdded(base, mid, db');
    forall s | Added(base, db', s) ensures AddedOk(base, db', extra + {k}, s) {
      if s == n {
        assert db'.levels[k].segment == n;
      } else {
        assert Added(base, db, s) && AddedOk(base, db, extra, s);
      }
    }
    forall u ensures TagTaken(base, db', u) <==> TagTaken(base, db, u) || u == t {
      TagsAfterSegment(base, db, network, t, u);
    }
    forall s, u | Added(base, db', s) && Added(base, db', u) && TagOf(db'.segments[s]) == TagOf(db'.segments[u])
      ensures s == u
    {
      assert s != n ==> Added(base, db, s) && TagTaken(base, db, TagOf(db.segments[s]));
      assert u != n ==> Added(base, db, u) && TagTaken(base, db, TagOf(db.segments[u]));
    }
  }

  // ----- shrinking: what unbinding a subport removes

  function ReleaseIfUnused(db: Db, s: SegmentId): Db {
    if s in db.segments && db.segments[s].isDynamic && !Referenced(db.levels, s) then
      db.(segments := db.segments - {s}, freeTags := db.freeTags + {TagOf(db.segments[s])})
    else db
  }

  function Unbind(db: Db, port: string, host: string): Db {
    var k := Key(port, host, 0);
    if k in db.levels then ReleaseIfUnused(db.(levels := db.levels - {k}), db.levels[k].segment) else db
  }

  function UnbindAll(db: Db, subports: seq<string>, host: string): Db
    decreases |subports|
  {
    if subports == [] then db else UnbindAll(Unbind(db, subports[0], host), subports[1..], host)
  }

  /** Unbinding releases a segment only if it is dynamic and no level uses it any more, and returns its tag. */
  lemma UnbindReleases(db: Db, port: string, host: string, s: SegmentId)
    requires s in db.segments && s !in Unbind(db, port, host).segments
    ensures db.segments[s].isDynamic && !Referenced(Unbind(db, port, host).levels, s)
    ensures TagOf(db.segments[s]) in Unbind(db, port, host).freeTags
  {
  }

  lemma UnbindKeepsSettled(db: Db, port: string, host: string)
    requires Settled(db)
    ensures Settled(Unbind(db, port, host))
  {
    var k := Key(port, host, 0);
    if k in db.levels {
      var db', s := Unbind(db, port, host), db.levels[k].segment;
      forall t | t in db'.segments && db'.segments[t].isDynamic ensures Referenced(db'.levels, t) {
        var j :| j in db.levels && db.levels[j].segment == t;
        if t != s {
          assert j in db'.levels;
        }
      }
    }
  }

  lemma {:induction false} UnbindAllKeepsSettled(db: Db, subports: seq<string>, host: string)
    requires Settled(db)
    ensures Settled(UnbindAll(db, subports, host))
    decreases |subports|
  {
    if subports != [] {
      UnbindKeepsSettled(db, subports[0], host);
      UnbindAllKeepsSettled(Unbind(db, subports[0], host), subports[1..], host);
    }
  }

  lemma {:induction false} UnbindAllLevels(db: Db, subports: seq<string>, host: string, s: SegmentId)
    requires !Referenced(db.levels, s)
    ensures !Referenced(UnbindAll(db, subports, host).levels, s)
    decreases |subports|
  {
    if subports != [] {
      UnbindAllLevels(Unbind(db, subports[0], host), subports[1..], host, s);
    }
  }

  /** Over any list of subports, a segment is released only if it is dynamic and ends without a level. */
  lemma {:induction false} UnbindAllReleases(db: Db, subports: seq<string>, host: string, s: SegmentId)
    requires s in db.segments && s !in UnbindAll(db, subports, host).segments
    ensures db.segments[s].isDynamic && !Referenced(UnbindAll(db, subports, host).levels, s)
    decreases |subports|
  {
    var mid := Unbind(db, subports[0], host);
    if s in mid.segments {
      UnbindAllReleases(mid, subports[1..], host, s);
    } else {
      UnbindReleases(db, subports[0], host, s);
      UnbindAllLevels(mid, subports[1..], host, s);
    }
  }

  lemma BaseStaysReferenced(base: Db, db: Db, extra: set<Key>, s: SegmentId)
    requires Settled(base) && Grown(base, db, extra) && s in base.segments && base.segments[s].isDynamic
    ensures Referenced(db.levels, s)
  {
    var k :| k in base.levels && base.levels[k].segment == s;
    assert k in db.levels && db.levels[k].segment == s;
  }

  lemma ExtraOrBase(base: Db, db: Db, extra: set<Key>, k: Key)
    requires Settled(base) && Grown(base, db, extra) && k in db.levels && Added(base, db, db.levels[k].segment)
    ensures k in extra
  {
  }

  lemma ShrinkLevel(base: Db, db: Db, extra: set<Key>, k: Key)
    requires Settled(base) && Grown(base, db, extra) && k in extra
    requires Added(base, db, db.levels[k].segment) ==> Referenced(db.levels - {k}, db.levels[k].segment)
    ensures Grown(base, db.(levels := db.levels - {k}), extra - {k})
  {
    var s, db' := db.levels[k].segment, db.(levels := db.levels - {k});
    SameAdded(base, db, db');
    forall t | Added(base, db', t) ensures AddedOk(base, db', extra - {k}, t) {
      assert AddedOk(base, db, extra, t);
      var j :| j in extra && j in db.levels && db.levels[j].segment == t;
      if t == s {
        var i :| i in db'.levels && db'.levels[i].segment == s;
        ExtraOrBase(base, db, extra, i);
      } else {
        assert j in extra - {k} && j in db'.levels;
      }
    }
  }

  lemma SameAdded(base: Db, db: Db, db': Db)
    requires db'.segments == db.segments
    ensures forall t :: TagTaken(base, db', t) <==> TagTaken(base, db, t)
    ensures forall s :: Added(base, db', s) <==> Added(base, db, s)
  {
    forall t ensures TagTaken(base, db', t) <==> TagTaken(base, db, t) {
      if s :| Added(base, db, s) && TagOf(db.segments[s]) == t {
        assert Added(base, db', s);
      }
      if s :| Added(base, db', s) && TagOf(db'.segments[s]) == t {
        assert Added(base, db, s);
      }
    }
  }

  lemma ShrinkSegment(base: Db, db: Db, extra: set<Key>, k: Key, s: SegmentId)
    requires Grown(base, db, extra) && k in extra && s == db.levels[k].segment
    requires Added(base, db, s) && !Referenced(db.levels - {k}, s)
    ensures Grown(base, db.(levels := db.levels - {k}, segments := db.segments - {s},
                            freeTags := db.freeTags + {TagOf(db.segments[s])}), extra - {k})
  {
    var tag := TagOf(db.segments[s]);
    var db' := db.(levels := db.levels - {k}, segments := db.segments - {s}, freeTags := db.freeTags + {tag});
    assert AddedOk(base, db, extra, s);
    forall t ensures Added(base, db', t) <==> Added(base, db, t) && t != s {
    }
    forall t | Added(base, db', t) ensures AddedOk(base, db', extra - {k}, t) {
      assert AddedOk(base, db, extra, t);
      var j :| j in extra && j in db.levels && db.levels[j].segment == t;
      assert j in extra - {k} && j in db'.levels;
    }
    forall u ensures TagTaken(base, db', u) <==> TagTaken(base, db, u) && u != tag {
      if t :| Added(base, db, t) && TagOf(db.segments[t]) == u {
        assert u != tag ==> Added(base, db', t) && db'.segments[t] == db.segments[t];
      }
      if t :| Added(base, db', t) && TagOf(db'.segments[t]) == u {
        assert Added(base, db, t);
      }
    }
  }

  /** Removing one of the extra levels shrinks the growth by that key. */
  lemma UnbindShrinks(base: Db, db: Db, extra: set<Key>, port: string, host: string)
    requires Settled(base) && Grown(base, db, extra) && Key(port, host, 0) in extra
    ensures Grown(base, Unbind(db, port, host), extra - {Key(port, host, 0)})
  {
    var k := Key(port, host, 0);
    var s, mid := db.levels[k].segment, db.(levels := db.levels - {k});
    if s in mid.segments && mid.segments[s].isDynamic && !Referenced(mid.levels, s) {
      if s in base.segments {
        BaseUsedElsewhere(base, db, extra, k, s);
      }
      ShrinkSegment(base, db, extra, k, s);
    } else {
      if Added(base, db, s) {
        assert AddedOk(base, db, extra, s);
      }
      ShrinkLevel(base, db, extra, k);
    }
  }

  lemma BaseUsedElsewhere(base: Db, db: Db, extra: set<Key>, k: Key, s: SegmentId)
    requires Settled(base) && Grown(base, db, extra) && k in extra && s in base.segments && db.segments[s].isDynamic
    ensures Referenced(db.levels - {k}, s)
  {
    var j :| j in base.levels && base.levels[j].segment == s;
    assert j in db.levels - {k} && db.levels[j].segment == s;
  }

  lemma GrownByNothing(base: Db, db: Db)
    requires Grown(base, db, {})
    ensures db.segments == base.segments && db.levels == base.levels && db.freeTags == base.freeTags
  {
    forall s ensures s in db.segments <==> s in base.segments {
      if Added(base, db, s) {
        assert AddedOk(base, db, {}, s);
      }
    }
    forall t ensures t in db.freeTags <==> t in base.freeTags {
      assert !TagTaken(base, db, t);
    }
  }

  /** Unbinding the subports of the extra keys gives the base back. */
  lemma {:induction false} UnbindAllRestores(base: Db, db: Db, extra: set<Key>, subports: seq<string>, host: string)
    requires Settled(base) && Grown(base, db, extra)
    requires KeysOf(subports, host) !! base.levels.Keys && extra <= KeysOf(subports, host)
    ensures var after := UnbindAll(db, subports, host);
            after.segments == base.segments && after.levels == base.levels && after.freeTags == base.freeTags
    decreases |subports|
  {
    if subports == [] {
      assert extra == {};
      GrownByNothing(base, db);
    } else {
      var k := Key(subports[0], host, 0);
      assert k in KeysOf(subports, host);
      KeysOfTail(subports, host);
      if k in extra {
        UnbindShrinks(base, db, extra, subports[0], host);
      }
      UnbindAllRestores(base, Unbind(db, subports[0], host), extra - {k}, subports[1..], host);
    }
  }

  lemma KeysOfTail(subports: seq<string>, host: string)
    requires subports != []
    ensures KeysOf(subports, host) == {Key(subports[0], host, 0)} + KeysOf(subports[1..], host)
  {
    var all, rest := KeysOf(subports, host), KeysOf(subports[1..], host);
    forall k | k in all ensures k == Key(subports[0], host, 0) || k in rest {
      var i :| 0 <= i < |subports| && k == Key(subports[i], host, 0);
      assert i > 0 ==> subports[1..][i - 1] == subports[i];
    }
    forall k | k in rest ensures k in all {
      var i :| 0 <= i < |subports[1..]| && k == Key(subports[1..][i], host, 0);
      assert subports[i + 1] == subports[1..][i];
    }
  }

  /** Binding any list of subports and then unbinding the same list restores segments, levels and tags. */
  lemma BindThenUnbind(base: Db, db: Db, ports: map<string, string>, subports: seq<string>, physnet: string,
                       host: string)
    requires Settled(base) && KeysOf(subports, host) !! base.levels.Keys
    requires BindPost(base, db, ports, subports, |subports|, physnet, host)
    ensures var after := UnbindAll(db, subports, host);
            after.segments == base.segments && after.levels == base.levels && after.freeTags == base.freeTags
  {
    UnbindAllRestores(base, db, NewKeys(base, db), subports, host);
  }

  /** The state after binding the first n subports. */
  ghost predicate BindPost(base: Db, db: Db, ports: map<string, string>, subports: seq<string>, n: nat, physnet: string,
                           host: string)
    requires n <= |subports|
  {
    && Sound(db) && db.nextId >= base.nextId
    && Grown(base, db, NewKeys(base, db)) && NewKeys(base, db) <= KeysUpTo(subports, n, host)
    && BoundUpTo(db, ports, subports, n, physnet, host)
  }

  lemma BindKeepsSettled(base: Db, db: Db, ports: map<string, string>, subports: seq<string>, n: nat, physnet: string,
                         host: string)
    requires Settled(base) && n <= |subports| && BindPost(base, db, ports, subports, n, physnet, host)
    ensures Settled(db)
  {
    forall s | s in db.segments && db.segments[s].isDynamic ensures Referenced(db.levels, s) {
      if s in base.segments {
        BaseStaysReferenced(base, db, NewKeys(base, db), s);
      } else {
        assert Added(base, db, s) && AddedOk(base, db, NewKeys(base, db), s);
      }
    }
  }

  lemma BindStart(base: Db, ports: map<string, string>, subports: seq<string>, physnet: string, host: string)
    requires Sound(base)
    ensures BindPost(base, base, ports, subports, 0, physnet, host)
  {
    assert NewKeys(base, base) == {};
  }

  /** How binding one subport changes the rows: not at all, by a level, or by a segment and a level. */
  datatype Change = Nothing | AddLevel(segment: SegmentId) | AddSegment(tag: (string, int))

  ghost predicate Allowed(db: Db, c: Change, network: string, physnet: string, k: Key) {
    match c
    case Nothing => k in db.levels
    case AddLevel(s) => k !in db.levels && s in db.segments && Carries(db.segments[s], network, physnet)
    case AddSegment(t) =>
      && k !in db.levels && t in db.freeTags && t.0 == physnet
      && forall s :: s in db.segments ==> !Carries(db.segments[s], network, physnet)
  }

  function Apply(db: Db, c: Change, network: string, k: Key): Db {
    match c
    case Nothing => db
    case AddLevel(s) => WithLevel(db, k, s)
    case AddSegment(t) => WithLevel(WithSegment(db, network, t), k, db.nextId)
  }

  ghost predicate Extends(db: Db, db': Db) {
    && (forall k :: k in db.levels ==> k in db'.levels && db'.levels[k] == db.levels[k])
    && (forall s :: s in db.segments ==> s in db'.segments && db'.segments[s] == db.segments[s])
    && db'.nextId >= db.nextId
  }

  lemma LevelSound(db: Db, k: Key, s: SegmentId)
    requires Sound(db) && s in db.segments && k !in db.levels
    ensures Sound(WithLevel(db, k, s)) && Extends(db, WithLevel(db, k, s))
  {
  }

  lemma SegmentSound(db: Db, network: string, t: (string, int))
    requires Sound(db) && forall s :: s in db.segments ==> !Carries(db.segments[s], network, t.0)
    ensures Sound(WithSegment(db, network, t)) && Extends(db, WithSegment(db, network, t))
  {
    var n, db' := db.nextId, WithSegment(db, network, t);
    assert n !in db.segments;
    forall s, u | s in db'.segments && u in db'.segments && SamePlace(db'.segments[s], db'.segments[u]) ensures s == u {
      assert s != n ==> !Carries(db.segments[s], network, t.0);
      assert u != n ==> !Carries(db.segments[u], network, t.0);
    }
  }

  lemma ApplySound(db: Db, c: Change, network: string, physnet: string, k: Key)
    requires Sound(db) && Allowed(db, c, network, physnet, k)
    ensures Sound(Apply(db, c, network, k)) && Extends(db, Apply(db, c, network, k))
    ensures Apply(db, c, network, k).levels.Keys == db.levels.Keys + {k}
  {
    match c
    case Nothing =>
    case AddLevel(s) => LevelSound(db, k, s);
    case AddSegment(t) =>
      SegmentSound(db, network, t);
      LevelSound(WithSegment(db, network, t), k, db.nextId);
  }

  lemma NewKeysStep(base: Db, db: Db, db': Db, k: Key)
    requires k !in db.levels && base.levels.Keys <= db.levels.Keys && db'.levels.Keys == db.levels.Keys + {k}
    ensures NewKeys(base, db') == NewKeys(base, db) + {k}
  {
  }

  lemma ApplyGrows(base: Db, db: Db, c: Change, network: string, physnet: string, k: Key)
    requires Sound(base) && Sound(db) && db.nextId >= base.nextId && Grown(base, db, NewKeys(base, db))
    requires Allowed(db, c, network, physnet, k)
    ensures Grown(base, Apply(db, c, network, k), NewKeys(base, Apply(db, c, network, k)))
  {
    if c.AddLevel? {
      NewKeysStep(base, db, Apply(db, c, network, k), k);
      GrownLevel(base, db, NewKeys(base, db), k, c.segment);
    } else if c.AddSegment? {
      NewKeysStep(base, db, Apply(db, c, network, k), k);
      GrownSegment(base, db, NewKeys(base, db), k, network, c.tag);
    }
  }

  lemma BoundStays(db: Db, db': Db, port: string, host: string, network: string, physnet: string)
    requires Extends(db, db') && BoundTo(db, port, host, network, physnet)
    ensures BoundTo(db', port, host, network, physnet) && TagAt(db', port, host) == TagAt(db, port, host)
  {
  }

  lemma BindNext(base: Db, db: Db, ports: map<string, string>, subports: seq<string>, n: nat, physnet: string,
                 host: string, c: Change)
    requires n < |subports| && Sound(base) && BindPost(base, db, ports, subports, n, physnet, host)
    requires subports[n] in ports && Allowed(db, c, ports[subports[n]], physnet, Key(subports[n], host, 0))
    requires BoundTo(Apply(db, c, ports[subports[n]], Key(subports[n], host, 0)), subports[n], host,
                     ports[subports[n]], physnet)
    ensures BindPost(base, Apply(db, c, ports[subports[n]], Key(subports[n], host, 0)), ports, subports, n + 1,
                     physnet, host)
  {
    var k, network := Key(subports[n], host, 0), ports[subports[n]];
    var db' := Apply(db, c, network, k);
    ApplySound(db, c, network, physnet, k);
    ApplyGrows(base, db, c, network, physnet, k);
    assert NewKeys(base, db') <= KeysUpTo(subports, n + 1, host) by {
      KeysStep(subports, n, host);
    }
    forall i | 0 <= i < n + 1
      ensures subports[i] in ports && BoundTo(db', subports[i], host, ports[subports[i]], physnet)
    {
      if i < n {
        BoundStays(db, db', subports[i], host, ports[subports[i]], physnet);
      }
    }
  }

  lemma KeysStep(subports: seq<string>, n: nat, host: string)
    requires n < |subports|
    ensures KeysUpTo(subports, n + 1, host) == KeysUpTo(subports, n, host) + {Key(subports[n], host, 0)}
  {
  }

  lemma TagsNext(db: Db, db': Db, ports: map<string, string>, subports: seq<string>, n: nat, physnet: string,
                 host: string)
    requires n < |subports| && Extends(db, db') && BoundUpTo(db, ports, subports, n, physnet, host)
    ensures TagsUpTo(db', subports, n + 1, host) == TagsUpTo(db, subports, n, host) + {TagAt(db', subports[n], host)}
  {
    forall i | 0 <= i < n ensures TagAt(db', subports[i], host) == TagAt(db, subports[i], host) {
      BoundStays(db, db', subports[i], host, ports[subports[i]], physnet);
    }
  }

  ghost function TagAt(db: Db, port: string, host: string): int {
    var k := Key(port, host, 0);
    if k in db.levels && db.levels[k].segment in db.segments then db.segments[db.levels[k].segment].tag else 0
  }

  /** The VLAN tags that the first n subports carry. */
  ghost function TagsUpTo(db: Db, subports: seq<string>, n: nat, host: string): set<int>
    requires n <= |subports|
  {
    set i | 0 <= i < n :: TagAt(db, subports[i], host)
  }

  /** A level made earlier in the same call is the one wanted now, so a conflict is with an older row. */
  lemma DuplicateIsOld(base: Db, db: Db, ports: map<string, string>, subports: seq<string>, n: nat, physnet: string,
                       host: string)
    requires n < |subports| && BindPost(base, db, ports, subports, n, physnet, host) && subports[n] in ports
    requires Extends(base, db)
    ensures var k := Key(subports[n], host, 0);
            || k !in db.levels || k in base.levels
            || !PointsElsewhere(db, k, ports[subports[n]], physnet)
  {
    var k := Key(subports[n], host, 0);
    if k in db.levels && k !in base.levels {
      assert k in KeysUpTo(subports, n, host);
      var i :| 0 <= i < n && k == Key(subports[i], host, 0);
      assert BoundTo(db, subports[i], host, ports[subports[i]], physnet);
    }
  }

  /** No segment carries the network, and no tag is left to make one. */
  predicate NoTagLeft(db: Db, network: string, physnet: string) {
    && (forall s :: s in db.segments && db.segments[s].isVlan && db.segments[s].physnet == physnet ==>
          db.segments[s].network != network)
    && (forall t :: t in db.freeTags ==> t.0 != physnet)
  }

  /** The level under the key is not one of this driver on a segment of the network. */
  predicate PointsElsewhere(db: Db, k: Key, network: string, physnet: string) {
    k in db.levels &&
    !(db.levels[k].driver == "understack" && db.levels[k].segment in db.segments &&
      var s := db.segments[db.levels[k].segment]; s.isVlan && s.network == network && s.physnet == physnet)
  }

  /** What a level in the way leaves behind: nothing, or the segment just made for it. */
  ghost predicate LeftBehind(db: Db, network: string, physnet: string, db': Db) {
    db' == db || exists t :: t in db.freeTags && t.0 == physnet && db' == WithSegment(db, network, t)
  }

  /** The first n subports are bound and the next one fails, for the reason given. */
  ghost predicate FailsAt(base: Db, before: Db, db: Db, ports: map<string, string>, subports: seq<string>, n: nat,
                          physnet: string, host: string, f: Failure)
  {
    && n < |subports| && BindPost(base, before, ports, subports, n, physnet, host)
    && match f
       case PortNotFound(p) => p == subports[n] && p !in ports && db == before
       case NoTagAvailable(q) =>
         q == physnet && subports[n] in ports && NoTagLeft(before, ports[subports[n]], physnet) && db == before
       case DuplicateLevel(p) =>
         && p == subports[n] && p in ports && PointsElsewhere(base, Key(p, host, 0), ports[p], physnet)
         && LeftBehind(before, ports[p], physnet, db)
  }

  lemma ElsewhereFromStart(base: Db, db: Db, k: Key, network: string, physnet: string)
    requires Sound(base) && Extends(base, db) && k in base.levels && PointsElsewhere(db, k, network, physnet)
    ensures PointsElsewhere(base, k, network, physnet)
  {
  }

  class NeutronDb {
    const ports: map<string, string>
    var segments: map<SegmentId, Segment>
    var levels: map<Key, Level>
    var freeTags: set<(string, int)>
    var nextId: nat

    constructor (ports: map<string, string>, freeTags: set<(string, int)>)
      ensures this.ports == ports && State() == Db(map[], map[], freeTags, 0) && Settled(State())
    {
      this.ports := ports;
      this.freeTags := freeTags;
      segments, levels, nextId := map[], map[], 0;
    }

    ghost function State(): Db
      reads this
    {
      Db(segments, levels, freeTags, nextId)
    }

    method NetworkSegmentByPhysnet(network: string, physnet: string) returns (s: Option<SegmentId>)
      ensures s.Some? ==> s.value in segments && segments[s.value].isVlan && segments[s.value].network == network
                          && segments[s.value].physnet == physnet
      ensures s.None? ==> forall x :: x in segments && segments[x].isVlan && segments[x].network == network ==>
                            segments[x].physnet != physnet
    {
      if x :| x in segments && Carries(segments[x], network, physnet) {
        return Some(x);
      }
      return None;
    }

    method AllocateDynamicSegment(network: string, physnet: string) returns (r: Result<SegmentId, Failure>)
      modifies this
      ensures levels == old(levels)
      ensures r.Err? ==> State() == old(State()) && r.error == NoTagAvailable(physnet)
                         && forall t :: t in freeTags ==> t.0 != physnet
      ensures r.Ok? ==> r.value == old(nextId)
                        && exists t :: && t in old(freeTags) && t.0 == physnet
                                       && State() == WithSegment(old(State()), network, t)
    {
      if t :| t in freeTags && t.0 == physnet {
        ghost var before := State();
        segments := segments[nextId := Segment(network, physnet, true, t.1, true)];
        freeTags := freeTags - {t};
        nextId := nextId + 1;
        assert State() == WithSegment(before, network, t);
        return Ok(nextId - 1);
      }
      return Err(NoTagAvailable(physnet));
    }

    /** Creates the level unless the very same row exists; another row under the key is a conflict. */
    method CreateBindingProfileLevel(port: string, host: string, segment: SegmentId) returns (ok: bool)
      modifies this`levels
      ensures var k := Key(port, host, 0);
              if k in old(levels) then levels == old(levels) && (ok <==> old(levels)[k] == Level(DRIVER, segment))
              else ok && State() == WithLevel(old(State()), k, segment)
    {
      var k := Key(port, host, 0);
      if k in levels {
        return levels[k] == Level(DRIVER, segment);
      }
      levels := levels[k := Level(DRIVER, segment)];
      return true;
    }

    method DeleteUnusedSegment(segment: SegmentId)
      modifies this`segments, this`freeTags
      ensures State() == ReleaseIfUnused(old(State()), segment)
    {
      if segment in segments && segments[segment].isDynamic && !Referenced(levels, segment) {
        freeTags := freeTags + {TagOf(segments[segment])};
        segments := segments - {segment};
      }
    }

    /** Unbinds the subports in order, releasing each segment with its last level. */
    method HandleSegmentDeallocation(subports: seq<string>, host: string)
      modifies this
      ensures State() == UnbindAll(old(State()), subports, host)
    {
      for i := 0 to |subports|
        invariant UnbindAll(State(), subports[i..], host) == UnbindAll(old(State()), subports, host)
      {
        var k := Key(subports[i], host, 0);
        ghost var before := State();
        if k in levels {
          var segment := levels[k].segment;
          levels := levels - {k};
          DeleteUnusedSegment(segment);
        }
        assert State() == Unbind(before, subports[i], host);
        assert subports[i..][1..] == subports[i + 1..];
      }
    }

    /** One subport: find or allocate the segment of its network, then create its level. */
    method BindSubport(port: string, network: string, physnet: string, host: string)
      returns (r: Result<SegmentId, Failure>, ghost c: Change)
      requires Sound(State())
      modifies this
      ensures r.Ok? ==>
                && Allowed(old(State()), c, network, physnet, Key(port, host, 0))
                && State() == Apply(old(State()), c, network, Key(port, host, 0))
                && r.value in segments && Carries(segments[r.value], network, physnet)
                && Key(port, host, 0) in levels && levels[Key(port, host, 0)] == Level(DRIVER, r.value)
      ensures r.Err? ==> r.error == NoTagAvailable(physnet) || r.error == DuplicateLevel(port)
      ensures r.Err? && r.error.NoTagAvailable? ==> State() == old(State()) && NoTagLeft(State(), network, physnet)
      ensures r.Err? && r.error.DuplicateLevel? ==>
                && PointsElsewhere(old(State()), Key(port, host, 0), network, physnet)
                && LeftBehind(old(State()), network, physnet, State())
      ensures r.Err? ==> Sound(State()) && Extends(old(State()), State()) && levels == old(levels)
    {
      ghost var before, k := State(), Key(port, host, 0);
      var current := NetworkSegmentByPhysnet(network, physnet);
      var segment: SegmentId;
      if current.Some? {
        segment := current.value;
        c := if k in levels then Nothing else AddLevel(segment);
      } else {
        r := AllocateDynamicSegment(network, physnet);
        if r.Err? {
          c := Nothing;
          return;
        }
        segment := r.value;
        ghost var t :| t in before.freeTags && t.0 == physnet && State() == WithSegment(before, network, t);
        SegmentSound(before, network, t);
        c := AddSegment(t);
      }
      var ok := CreateBindingProfileLevel(port, host, segment);
      if !ok {
        r := Err(DuplicateLevel(port));
        return;
      }
      r := Ok(segment);
    }

    /** Binds every subport to the VLAN segment of its network on the physical network, and returns the tags.
        Otherwise it stops at the first subport that is unknown, finds no tag, or has a level that already pointed
        elsewhere; only in the last case can a segment be left without a level. */
    method HandleSegmentAllocation(subports: seq<string>, physnet: string, host: string)
      returns (r: Result<set<int>, Failure>)
      requires Sound(State())
      modifies this
      ensures r.Ok? ==> BindPost(old(State()), State(), ports, subports, |subports|, physnet, host)
                        && r.value == TagsUpTo(State(), subports, |subports|, host)
      ensures r.Err? ==> exists n: nat, before: Db ::
                           FailsAt(old(State()), before, State(), ports, subports, n, physnet, host, r.error)
      ensures Sound(State()) && Extends(old(State()), State())
    {
      var tags: set<int> := {};
      ghost var base := State();
      BindStart(base, ports, subports, physnet, host);
      for i := 0 to |subports|
        invariant BindPost(base, State(), ports, subports, i, physnet, host)
        invariant tags == TagsUpTo(State(), subports, i, host)
        invariant Extends(base, State())
      {
        if subports[i] !in ports {
          assert FailsAt(base, State(), State(), ports, subports, i, physnet, host, PortNotFound(subports[i]));
          return Err(PortNotFound(subports[i]));
        }
        ghost var before := State();
        var bound;
        ghost var c;
        bound, c := BindSubport(subports[i], ports[subports[i]], physnet, host);
        if bound.Err? {
          if bound.error.DuplicateLevel? {
            DuplicateIsOld(base, before, ports, subports, i, physnet, host);
            ElsewhereFromStart(base, before, Key(subports[i], host, 0), ports[subports[i]], physnet);
          }
          assert FailsAt(base, before, State(), ports, subports, i, physnet, host, bound.error);
          return Err(bound.error);
        }
        ApplySound(before, c, ports[subports[i]], physnet, Key(subports[i], host, 0));
        BindNext(base, before, ports, subports, i, physnet, host, c);
        TagsNext(before, State(), ports, subports, i, physnet, host);
        tags := tags + {segments[bound.value].tag};
      }
      return Ok(tags);
    }
  }
}
