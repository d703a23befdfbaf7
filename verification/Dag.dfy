/** The sync scheduler of the Nautobot operator: Kahn's algorithm over declared dependencies. */
module Dag {
  import opened Sorting

  datatype ResourceNode = ResourceNode(name: string, dependsOn: seq<string>)

  datatype SortResult =
    | Order(names: seq<string>)
    | DuplicateName(name: string)
    | UnknownDependency(node: string, dep: string)
    | CycleDetected(involved: seq<string>)

  /** Each name with the set of names it depends on. */
  type Graph = map<string, set<string>>

  // ----- what the input denotes

  predicate DistinctUpTo(nodes: seq<ResourceNode>, n: nat)
    requires n <= |nodes|
  {
    forall i, j :: 0 <= i < j < n ==> nodes[i].name != nodes[j].name
  }

  predicate DistinctNames(nodes: seq<ResourceNode>) {
    DistinctUpTo(nodes, |nodes|)
  }

  predicate Declared(nodes: seq<ResourceNode>, n: string) {
    exists i :: 0 <= i < |nodes| && nodes[i].name == n
  }

  /** All dependencies read before entry k of node i are declared. */
  predicate KnownUpTo(nodes: seq<ResourceNode>, i: nat, k: nat)
    requires i < |nodes| && k <= |nodes[i].dependsOn|
  {
    && (forall a, b :: 0 <= a < i && 0 <= b < |nodes[a].dependsOn| ==> Declared(nodes, nodes[a].dependsOn[b]))
    && (forall b :: 0 <= b < k ==> Declared(nodes, nodes[i].dependsOn[b]))
  }

  predicate KnownDependencies(nodes: seq<ResourceNode>) {
    forall a, b :: 0 <= a < |nodes| && 0 <= b < |nodes[a].dependsOn| ==> Declared(nodes, nodes[a].dependsOn[b])
  }

  ghost function DepsUpTo(nodes: seq<ResourceNode>, i: nat): map<string, seq<string>>
    requires i <= |nodes|
  {
    if i == 0 then map[] else DepsUpTo(nodes, i - 1)[nodes[i - 1].name := nodes[i - 1].dependsOn]
  }

  ghost function Relation(deps: map<string, seq<string>>): Graph {
    map n | n in deps :: set d | d in deps[n]
  }

  ghost function GraphOf(nodes: seq<ResourceNode>): Graph {
    Relation(DepsUpTo(nodes, |nodes|))
  }

  /** The graph has the declared names, and each depends on exactly the entries of its list. */
  lemma GraphMeaning(nodes: seq<ResourceNode>, n: string, d: string)
    requires DistinctNames(nodes)
    ensures n in GraphOf(nodes) <==> exists i :: 0 <= i < |nodes| && nodes[i].name == n
    ensures n in GraphOf(nodes) && d in GraphOf(nodes)[n] <==>
            exists i :: 0 <= i < |nodes| && nodes[i].name == n && d in nodes[i].dependsOn
  {
    DepsKeys(nodes, |nodes|);
    assert n in GraphOf(nodes) <==> NamedBefore(nodes, |nodes|, n);
    forall i | 0 <= i < |nodes| && nodes[i].name == n
      ensures n in GraphOf(nodes) && (d in GraphOf(nodes)[n] <==> d in nodes[i].dependsOn)
    {
      DepsEntry(nodes, |nodes|, i);
    }
  }

  ghost predicate NamedBefore(nodes: seq<ResourceNode>, i: nat, n: string)
    requires i <= |nodes|
  {
    exists a :: 0 <= a < i && nodes[a].name == n
  }

  lemma NamedBeforeStep(nodes: seq<ResourceNode>, i: nat, n: string)
    requires i < |nodes|
    ensures NamedBefore(nodes, i + 1, n) <==> NamedBefore(nodes, i, n) || nodes[i].name == n
  {
    if a :| 0 <= a < i + 1 && nodes[a].name == n {
      assert a < i ==> NamedBefore(nodes, i, n);
    }
  }

  lemma {:induction false} DepsKeys(nodes: seq<ResourceNode>, i: nat)
    requires i <= |nodes|
    ensures forall n :: n in DepsUpTo(nodes, i) <==> NamedBefore(nodes, i, n)
  {
    if i > 0 {
      DepsKeys(nodes, i - 1);
      forall n ensures n in DepsUpTo(nodes, i) <==> NamedBefore(nodes, i, n) {
        NamedBeforeStep(nodes, i - 1, n);
      }
    }
  }

  lemma {:induction false} DepsCount(nodes: seq<ResourceNode>, i: nat)
    requires i <= |nodes| && DistinctUpTo(nodes, i)
    ensures |DepsUpTo(nodes, i)| == i
  {
    if i > 0 {
      DepsCount(nodes, i - 1);
      DepsKeys(nodes, i - 1);
      assert nodes[i - 1].name !in DepsUpTo(nodes, i - 1);
      assert DepsUpTo(nodes, i).Keys == DepsUpTo(nodes, i - 1).Keys + {nodes[i - 1].name};
    }
  }

  lemma {:induction false} DepsEntry(nodes: seq<ResourceNode>, i: nat, a: nat)
    requires a < i <= |nodes| && DistinctUpTo(nodes, i)
    ensures nodes[a].name in DepsUpTo(nodes, i) && DepsUpTo(nodes, i)[nodes[a].name] == nodes[a].dependsOn
  {
    if a < i - 1 {
      DepsEntry(nodes, i - 1, a);
    }
  }

  lemma ClosedGraph(nodes: seq<ResourceNode>)
    requires DistinctNames(nodes) && KnownDependencies(nodes)
    ensures Closed(GraphOf(nodes))
  {
    var g := GraphOf(nodes);
    DepsKeys(nodes, |nodes|);
    forall n, d | n in g && d in g[n] ensures d in g {
      assert NamedBefore(nodes, |nodes|, n);
      var a :| 0 <= a < |nodes| && nodes[a].name == n;
      DepsEntry(nodes, |nodes|, a);
      var b :| 0 <= b < |nodes[a].dependsOn| && nodes[a].dependsOn[b] == d;
      assert Declared(nodes, nodes[a].dependsOn[b]);
      assert NamedBefore(nodes, |nodes|, d);
    }
  }

  ghost predicate Closed(g: Graph) {
    forall n, d :: n in g && d in g[n] ==> d in g
  }

  // ----- cycles

  ghost predicate Link(g: Graph, p: seq<string>, i: nat)
    requires i < |p| - 1 && p[i] in g
  {
    p[i + 1] in g[p[i]]
  }

  ghost predicate Walk(g: Graph, p: seq<string>) {
    && |p| > 0
    && (forall i :: 0 <= i < |p| ==> p[i] in g)
    && (forall i :: 0 <= i < |p| - 1 ==> Link(g, p, i))
  }

  ghost predicate OnCycle(g: Graph, n: string) {
    exists c :: Walk(g, c) && |c| >= 2 && c[0] == n && c[|c| - 1] == n
  }

  ghost predicate HasCycle(g: Graph) {
    exists n :: OnCycle(g, n)
  }

  /** Following DependsOn from n can end up on a cycle. */
  ghost predicate ReachesCycle(g: Graph, n: string) {
    exists p :: Walk(g, p) && p[0] == n && OnCycle(g, p[|p| - 1])
  }

  // ----- execution orders

  ghost function Before(s: seq<string>, i: nat): set<string>
    requires i <= |s|
  {
    if i == 0 then {} else Before(s, i - 1) + {s[i - 1]}
  }

  ghost predicate DependenciesBefore(g: Graph, s: seq<string>, i: nat)
    requires i < |s|
  {
    s[i] in g && g[s[i]] <= Before(s, i)
  }

  /** Every element comes after everything it depends on. */
  ghost predicate RespectsDependencies(g: Graph, s: seq<string>) {
    forall i :: 0 <= i < |s| ==> DependenciesBefore(g, s, i)
  }

  ghost predicate ExecutionOrder(g: Graph, s: seq<string>) {
    && NoDup(s)
    && (forall n :: n in s <==> n in g)
    && RespectsDependencies(g, s)
  }

  ghost predicate FirstDiffer(s: seq<string>, t: seq<string>, k: nat) {
    k < |s| && k < |t| && s[k] != t[k] && forall i :: 0 <= i < k ==> s[i] == t[i]
  }

  /** Lexicographic comparison of sequences of names at their first difference. */
  ghost predicate Precedes(s: seq<string>, t: seq<string>) {
    exists k: nat :: FirstDiffer(s, t, k) && StrLeq(s[k], t[k])
  }

  ghost predicate FirstExecutionOrder(g: Graph, s: seq<string>) {
    ExecutionOrder(g, s) && forall t :: ExecutionOrder(g, t) && t != s ==> Precedes(s, t)
  }

  // ----- the contract of the sort

  ghost predicate FirstDuplicate(nodes: seq<ResourceNode>, i: nat) {
    i < |nodes| && DistinctUpTo(nodes, i) && exists a :: 0 <= a < i && nodes[a].name == nodes[i].name
  }

  ghost predicate FirstUnknown(nodes: seq<ResourceNode>, i: nat, k: nat) {
    i < |nodes| && k < |nodes[i].dependsOn| && KnownUpTo(nodes, i, k) && !Declared(nodes, nodes[i].dependsOn[k])
  }

  ghost predicate Correct(nodes: seq<ResourceNode>, r: SortResult) {
    if !DistinctNames(nodes) then
      exists i: nat :: FirstDuplicate(nodes, i) && r == DuplicateName(nodes[i].name)
    else if !KnownDependencies(nodes) then
      exists i: nat, k: nat :: FirstUnknown(nodes, i, k) && r == UnknownDependency(nodes[i].name, nodes[i].dependsOn[k])
    else if HasCycle(GraphOf(nodes)) then
      r.CycleDetected? && CycleReport(GraphOf(nodes), r.involved)
    else
      r.Order? && FirstExecutionOrder(GraphOf(nodes), r.names)
  }

  /** The report: each name from which a cycle can be reached, once, in order. */
  ghost predicate CycleReport(g: Graph, involved: seq<string>) {
    Sorted(StrLeq, involved) && NoDup(involved) && forall n :: n in involved <==> ReachesCycle(g, n)
  }

  // ----- no walk from an already scheduled name reaches a cycle

  lemma {:induction false} BeforeIndex(s: seq<string>, i: nat, x: string) returns (k: nat)
    requires i <= |s| && x in Before(s, i)
    ensures k < i && s[k] == x
  {
    if x == s[i - 1] {
      k := i - 1;
    } else {
      k := BeforeIndex(s, i - 1, x);
    }
  }

  lemma {:induction false} BeforeHas(s: seq<string>, i: nat, k: nat)
    requires k < i <= |s|
    ensures s[k] in Before(s, i)
  {
    if k < i - 1 {
      BeforeHas(s, i - 1, k);
    }
  }

  lemma BeforeAll(s: seq<string>)
    ensures forall x :: x in Before(s, |s|) <==> x in s
  {
    forall x ensures x in Before(s, |s|) <==> x in s {
      if x in Before(s, |s|) {
        var k := BeforeIndex(s, |s|, x);
      }
      if x in s {
        var k :| 0 <= k < |s| && s[k] == x;
        BeforeHas(s, |s|, k);
      }
    }
  }

  lemma {:induction false} BeforeAgree(s: seq<string>, t: seq<string>, i: nat)
    requires i <= |s| && i <= |t| && forall k :: 0 <= k < i ==> s[k] == t[k]
    ensures Before(s, i) == Before(t, i)
  {
    if i > 0 {
      BeforeAgree(s, t, i - 1);
    }
  }

  lemma {:induction false} WalkDescends(g: Graph, s: seq<string>, p: seq<string>, k: nat, n: nat) returns (m: nat)
    requires RespectsDependencies(g, s) && Walk(g, p)
    requires k < |s| && p[0] == s[k] && n < |p|
    ensures m < |s| && p[n] == s[m]
    ensures m <= k && (n > 0 ==> m < k)
  {
    if n == 0 {
      m := k;
    } else {
      var m' := WalkDescends(g, s, p, k, n - 1);
      assert Link(g, p, n - 1) && DependenciesBefore(g, s, m');
      m := BeforeIndex(s, m', p[n]);
    }
  }

  lemma ScheduledOffCycle(g: Graph, s: seq<string>, k: nat)
    requires RespectsDependencies(g, s) && NoDup(s) && k < |s|
    ensures !OnCycle(g, s[k])
  {
    if c :| Walk(g, c) && |c| >= 2 && c[0] == s[k] && c[|c| - 1] == s[k] {
      var m := WalkDescends(g, s, c, k, |c| - 1);
      assert false;
    }
  }

  lemma ScheduledNeverReachesCycle(g: Graph, s: seq<string>, n: string)
    requires RespectsDependencies(g, s) && NoDup(s) && n in s
    ensures !ReachesCycle(g, n)
  {
    forall p | Walk(g, p) && p[0] == n ensures !OnCycle(g, p[|p| - 1]) {
      var k :| 0 <= k < |s| && s[k] == n;
      var m := WalkDescends(g, s, p, k, |p| - 1);
      ScheduledOffCycle(g, s, m);
    }
  }

  // ----- a set in which everything waits for something reaches a cycle

  ghost predicate Stuck(g: Graph, u: set<string>) {
    u <= g.Keys && forall n {:trigger g[n]} :: n in u ==> g[n] * u != {}
  }

  lemma {:induction false} StuckWalk(g: Graph, u: set<string>, n: string, len: nat) returns (p: seq<string>)
    requires Stuck(g, u) && n in u
    ensures Walk(g, p) && p[0] == n && |p| == len + 1
    ensures forall i :: 0 <= i < |p| ==> p[i] in u
    decreases len
  {
    if len == 0 {
      p := [n];
    } else {
      assert g[n] * u != {};
      var d :| d in g[n] * u;
      var q := StuckWalk(g, u, d, len - 1);
      p := PrependWalk(g, n, q);
    }
  }

  lemma PrependWalk(g: Graph, n: string, q: seq<string>) returns (p: seq<string>)
    requires Walk(g, q) && n in g && q[0] in g[n]
    ensures p == [n] + q && Walk(g, p)
  {
    p := [n] + q;
    forall i | 0 <= i < |p| - 1 ensures Link(g, p, i) {
      if i > 0 {
        assert Link(g, q, i - 1);
      }
    }
  }

  lemma SliceWalk(g: Graph, p: seq<string>, a: nat, b: nat) returns (q: seq<string>)
    requires Walk(g, p) && a < b <= |p|
    ensures q == p[a..b] && Walk(g, q)
  {
    q := p[a..b];
    forall i | 0 <= i < |q| - 1 ensures Link(g, q, i) {
      assert Link(g, p, a + i);
    }
  }

  lemma StuckReachesCycle(g: Graph, u: set<string>, n: string)
    requires Stuck(g, u) && n in u
    ensures ReachesCycle(g, n) && HasCycle(g)
  {
    var p := StuckWalk(g, u, n, |u|);
    var i, j := Pigeonhole(p, u);
    var lead := SliceWalk(g, p, 0, i + 1);
    var c := SliceWalk(g, p, i, j + 1);
    assert OnCycle(g, p[i]);
  }

  lemma CycleNodeReachesCycle(g: Graph, n: string)
    requires OnCycle(g, n)
    ensures ReachesCycle(g, n)
  {
    var c :| Walk(g, c) && |c| >= 2 && c[0] == n && c[|c| - 1] == n;
    var p := SliceWalk(g, c, 0, 1);
    assert OnCycle(g, p[|p| - 1]);
  }

  // ----- the greedy order

  ghost predicate Ready(g: Graph, done: set<string>, n: string) {
    n in g && n !in done && g[n] <= done
  }

  ghost predicate FirstReady(g: Graph, done: set<string>, n: string) {
    Ready(g, done, n) && forall m :: Ready(g, done, m) ==> StrLeq(n, m)
  }

  ghost predicate GreedyAt(g: Graph, s: seq<string>, i: nat)
    requires i < |s|
  {
    FirstReady(g, Before(s, i), s[i])
  }

  ghost predicate Greedy(g: Graph, s: seq<string>) {
    forall i :: 0 <= i < |s| ==> GreedyAt(g, s, i)
  }

  lemma GreedyRespects(g: Graph, s: seq<string>)
    requires Greedy(g, s)
    ensures RespectsDependencies(g, s) && NoDup(s)
    ensures forall n :: n in s ==> n in g
  {
    forall i, j | 0 <= i < j < |s| ensures s[i] != s[j] {
      assert GreedyAt(g, s, j);
      BeforeHas(s, j, i);
    }
    forall i | 0 <= i < |s| ensures DependenciesBefore(g, s, i) {
      assert GreedyAt(g, s, i);
    }
    forall n | n in s ensures n in g {
      var i :| 0 <= i < |s| && s[i] == n;
      assert GreedyAt(g, s, i);
    }
  }

  lemma GreedyExtends(g: Graph, s: seq<string>, c: string)
    requires Greedy(g, s) && FirstReady(g, Before(s, |s|), c)
    ensures Greedy(g, s + [c]) && Before(s + [c], |s| + 1) == Before(s, |s|) + {c}
  {
    var t := s + [c];
    forall i | 0 <= i < |t| ensures GreedyAt(g, t, i) {
      BeforeAgree(s, t, i);
      assert i < |s| ==> GreedyAt(g, s, i);
    }
    BeforeAgree(s, t, |s|);
  }

  lemma GreedyPrecedes(g: Graph, s: seq<string>, t: seq<string>)
    requires Greedy(g, s) && ExecutionOrder(g, t) && |s| == |t| && s != t
    ensures Precedes(s, t)
  {
    var k := FirstDifference(s, t);
    BeforeAgree(s, t, k);
    assert GreedyAt(g, s, k) && DependenciesBefore(g, t, k);
    if t[k] in Before(t, k) {
      var a := BeforeIndex(t, k, t[k]);
    }
    assert Ready(g, Before(s, k), t[k]);
  }

  lemma FirstDifference(s: seq<string>, t: seq<string>) returns (k: nat)
    requires |s| == |t| && s != t
    ensures FirstDiffer(s, t, k)
  {
    k := 0;
    while k < |s| && s[k] == t[k]
      invariant k <= |s| && forall i :: 0 <= i < k ==> s[i] == t[i]
    {
      k := k + 1;
    }
  }

  lemma GreedyIsFirst(g: Graph, s: seq<string>)
    requires Greedy(g, s) && forall n :: n in g ==> n in s
    ensures FirstExecutionOrder(g, s)
  {
    GreedyRespects(g, s);
    forall t | ExecutionOrder(g, t) && t != s ensures Precedes(s, t) {
      SameLength(s, t);
      GreedyPrecedes(g, s, t);
    }
  }

  lemma SameLength(s: seq<string>, t: seq<string>)
    requires NoDup(s) && NoDup(t) && forall n :: n in s <==> n in t
    ensures |s| == |t|
  {
    NoDupLength(s);
    NoDupLength(t);
    assert (set n | n in s) == (set n | n in t);
  }

  lemma FirstOrderUnique(g: Graph, s: seq<string>, t: seq<string>)
    requires FirstExecutionOrder(g, s) && FirstExecutionOrder(g, t)
    ensures s == t
  {
    StrLeqTotalOrder();
  }

  /** The result depends only on the dependency relation: neither the order of the nodes, nor the
      order of their DependsOn lists, nor repeated entries in them, can change it. */
  lemma ResultIsCanonical(nodes: seq<ResourceNode>, nodes': seq<ResourceNode>, r: SortResult, r': SortResult)
    requires DistinctNames(nodes) && KnownDependencies(nodes)
    requires DistinctNames(nodes') && KnownDependencies(nodes')
    requires GraphOf(nodes) == GraphOf(nodes')
    requires Correct(nodes, r) && Correct(nodes', r')
    ensures r == r'
  {
    var g := GraphOf(nodes);
    if HasCycle(g) {
      StrLeqTotalOrder();
      NoDupMultiset(r.involved, r'.involved);
      SortedUnique(StrLeq, r.involved, r'.involved);
    } else {
      FirstOrderUnique(g, r.names, r'.names);
    }
  }

  /** What remains when nothing is ready is exactly what can reach a cycle. */
  lemma UnscheduledReachesCycle(g: Graph, s: seq<string>)
    requires Greedy(g, s) && Closed(g) && forall n :: !Ready(g, Before(s, |s|), n)
    ensures forall n :: ReachesCycle(g, n) <==> n in g && n !in s
    ensures HasCycle(g) <==> exists n :: n in g && n !in s
  {
    GreedyRespects(g, s);
    BeforeAll(s);
    var u := g.Keys - Before(s, |s|);
    forall n {:trigger g[n]} | n in u ensures g[n] * u != {} {
      assert !Ready(g, Before(s, |s|), n);
      var d :| d in g[n] && d !in Before(s, |s|);
      assert d in g[n] * u;
    }
    forall n ensures ReachesCycle(g, n) <==> n in u {
      if n in u {
        StuckReachesCycle(g, u, n);
      } else if n in s {
        ScheduledNeverReachesCycle(g, s, n);
      }
    }
    if n :| OnCycle(g, n) {
      CycleNodeReachesCycle(g, n);
    }
  }

  // ----- reading the input

  method FindDuplicate(nodes: seq<ResourceNode>) returns (found: bool, at: nat)
    ensures !found ==> DistinctNames(nodes)
    ensures found ==> FirstDuplicate(nodes, at)
  {
    var nodeSet: set<string> := {};
    for i := 0 to |nodes|
      invariant nodeSet == set a | 0 <= a < i :: nodes[a].name
      invariant DistinctUpTo(nodes, i)
    {
      if nodes[i].name in nodeSet {
        return true, i;
      }
      nodeSet := nodeSet + {nodes[i].name};
    }
    return false, 0;
  }

  method FindUnknown(nodes: seq<ResourceNode>) returns (found: bool, at: nat, dep: nat)
    ensures !found ==> KnownDependencies(nodes)
    ensures found ==> FirstUnknown(nodes, at, dep)
  {
    var nodeSet := set i | 0 <= i < |nodes| :: nodes[i].name;
    assert forall n :: n in nodeSet <==> Declared(nodes, n);
    for i := 0 to |nodes|
      invariant forall a, b :: 0 <= a < i && 0 <= b < |nodes[a].dependsOn| ==> Declared(nodes, nodes[a].dependsOn[b])
    {
      for k := 0 to |nodes[i].dependsOn|
        invariant KnownUpTo(nodes, i, k)
      {
        if nodes[i].dependsOn[k] !in nodeSet {
          return true, i, k;
        }
      }
    }
    return false, 0, 0;
  }

  // ----- the counters

  /** The first j elements, counted. */
  ghost function Seen(s: seq<string>, j: nat): multiset<string>
    requires j <= |s|
  {
    if j == 0 then multiset{} else Seen(s, j - 1) + multiset{s[j - 1]}
  }

  lemma {:induction false} SeenPrefix(s: seq<string>, j: nat)
    requires j <= |s|
    ensures Seen(s, j) == multiset(s[..j])
  {
    if j > 0 {
      SeenPrefix(s, j - 1);
      assert s[..j] == s[..j - 1] + [s[j - 1]];
    }
  }

  lemma SeenAll(s: seq<string>)
    ensures Seen(s, |s|) == multiset(s)
  {
    SeenPrefix(s, |s|);
    assert s[..|s|] == s;
  }

  lemma SeenNext(s: seq<string>, j: nat)
    requires j < |s|
    ensures Seen(s, j)[s[j]] < multiset(s)[s[j]]
  {
    SeenPrefix(s, j);
    assert s == s[..j] + s[j..] && s[j] in s[j..];
  }

  function Children(dependents: map<string, seq<string>>, d: string): seq<string> {
    if d in dependents then dependents[d] else []
  }

  /** How often n is listed as waiting for d. */
  ghost function Waits(dependents: map<string, seq<string>>, d: string, n: string): nat {
    multiset(Children(dependents, d))[n]
  }

  ghost predicate CountersOf(deps: map<string, seq<string>>, inDegree: map<string, int>,
                             dependents: map<string, seq<string>>)
  {
    && inDegree.Keys == deps.Keys
    && (forall n :: n in deps ==> inDegree[n] == |deps[n]|)
    && (forall d, n :: Waits(dependents, d, n) == if n in deps then multiset(deps[n])[d] else 0)
  }

  lemma AppendChild(dependents: map<string, seq<string>>, dep: string, name: string, d: string, n: string)
    ensures Waits(dependents[dep := Children(dependents, dep) + [name]], d, n)
            == Waits(dependents, d, n) + if d == dep && n == name then 1 else 0
  {
  }

  method AddDependents(node: ResourceNode, base: map<string, seq<string>>)
    returns (dependents: map<string, seq<string>>)
    ensures forall d, n :: Waits(dependents, d, n) ==
                           Waits(base, d, n) + if n == node.name then multiset(node.dependsOn)[d] else 0
  {
    dependents := base;
    assert Seen(node.dependsOn, 0) == multiset{};
    for k := 0 to |node.dependsOn|
      invariant forall d, n :: Waits(dependents, d, n) ==
                               Waits(base, d, n) + if n == node.name then Seen(node.dependsOn, k)[d] else 0
    {
      var dep := node.dependsOn[k];
      forall d, n
        ensures Waits(dependents[dep := Children(dependents, dep) + [node.name]], d, n)
                == Waits(base, d, n) + if n == node.name then Seen(node.dependsOn, k + 1)[d] else 0
      {
        AppendChild(dependents, dep, node.name, d, n);
      }
      dependents := dependents[dep := Children(dependents, dep) + [node.name]];
    }
    SeenAll(node.dependsOn);
  }

  lemma CountersStep(deps: map<string, seq<string>>, node: ResourceNode, inDegree: map<string, int>,
                     dependents: map<string, seq<string>>, dependents': map<string, seq<string>>)
    requires CountersOf(deps, inDegree, dependents) && node.name !in deps
    requires forall d, n :: Waits(dependents', d, n) ==
                            Waits(dependents, d, n) + if n == node.name then multiset(node.dependsOn)[d] else 0
    ensures CountersOf(deps[node.name := node.dependsOn], inDegree[node.name := |node.dependsOn|], dependents')
  {
  }

  method BuildCounters(nodes: seq<ResourceNode>)
    returns (inDegree: map<string, int>, dependents: map<string, seq<string>>)
    requires DistinctNames(nodes)
    ensures CountersOf(DepsUpTo(nodes, |nodes|), inDegree, dependents)
  {
    inDegree, dependents := map[], map[];
    for i := 0 to |nodes|
      invariant CountersOf(DepsUpTo(nodes, i), inDegree, dependents)
    {
      assert nodes[i].name !in DepsUpTo(nodes, i) by {
        DepsKeys(nodes, i);
      }
      ghost var before := dependents;
      dependents := AddDependents(nodes[i], dependents);
      CountersStep(DepsUpTo(nodes, i), nodes[i], inDegree, before, dependents);
      inDegree := inDegree[nodes[i].name := |nodes[i].dependsOn|];
    }
  }

  /** Entries of a DependsOn list that are not scheduled yet. */
  ghost function Outstanding(deps: seq<string>, done: set<string>): nat {
    if deps == [] then 0
    else (if deps[0] in done then 0 else 1) + Outstanding(deps[1..], done)
  }

  lemma {:induction false} OutstandingStep(deps: seq<string>, done: set<string>, c: string)
    requires c !in done
    ensures Outstanding(deps, done) == Outstanding(deps, done + {c}) + multiset(deps)[c]
  {
    if deps != [] {
      assert deps == [deps[0]] + deps[1..];
      OutstandingStep(deps[1..], done, c);
    }
  }

  lemma {:induction false} OutstandingZero(deps: seq<string>, done: set<string>)
    ensures Outstanding(deps, done) == 0 <==> forall d :: d in deps ==> d in done
    ensures done == {} ==> Outstanding(deps, done) == |deps|
  {
    if deps != [] {
      assert deps == [deps[0]] + deps[1..];
      OutstandingZero(deps[1..], done);
    }
  }

  ghost predicate Waiting(deps: map<string, seq<string>>, done: set<string>, inDegree: map<string, int>) {
    inDegree.Keys == deps.Keys && forall n :: n in deps ==> inDegree[n] == Outstanding(deps[n], done)
  }

  lemma ReadyIsZero(deps: map<string, seq<string>>, done: set<string>, n: string)
    ensures Ready(Relation(deps), done, n) <==> n in deps && n !in done && Outstanding(deps[n], done) == 0
  {
    if n in deps {
      OutstandingZero(deps[n], done);
    }
  }

  // ----- the main loop

  /** The counters and the queue after the first j children. */
  ghost predicate Crossed(children: seq<string>, j: nat, inDegree0: map<string, int>, queue0: seq<string>,
                          inDegree: map<string, int>, queue: seq<string>)
    requires j <= |children|
  {
    && inDegree.Keys == inDegree0.Keys
    && (forall n :: n in inDegree ==> inDegree[n] == inDegree0[n] - Seen(children, j)[n])
    && NoDup(queue)
    && (forall n :: n in queue <==> n in queue0 || (n in inDegree && Seen(children, j)[n] > 0 && inDegree[n] == 0))
  }

  lemma CrossStep(children: seq<string>, j: nat, inDegree0: map<string, int>, queue0: seq<string>,
                  inDegree: map<string, int>, queue: seq<string>, inDegree': map<string, int>, queue': seq<string>)
    requires j < |children| && Crossed(children, j, inDegree0, queue0, inDegree, queue)
    requires children[j] in inDegree0 && children[j] !in queue0
    requires inDegree0[children[j]] > Seen(children, j)[children[j]]
    requires inDegree' == inDegree[children[j] := inDegree[children[j]] - 1]
    requires queue' == if inDegree'[children[j]] == 0 then queue + [children[j]] else queue
    ensures Crossed(children, j + 1, inDegree0, queue0, inDegree', queue')
  {
    var child := children[j];
    assert Seen(children, j + 1) == Seen(children, j) + multiset{child};
    assert child !in queue;
    if inDegree'[child] == 0 {
      SnocQueue(queue, child);
    }
  }

  lemma SnocQueue(queue: seq<string>, child: string)
    requires NoDup(queue) && child !in queue
    ensures NoDup(queue + [child]) && forall n :: n in queue + [child] <==> n in queue || n == child
  {
  }

  ghost predicate CanCross(children: seq<string>, inDegree0: map<string, int>, queue0: seq<string>, n: string) {
    n in inDegree0 && inDegree0[n] >= multiset(children)[n] && n !in queue0
  }

  /** Every child's counter drops once per listing, and a child is queued when its counter reaches zero. */
  method CrossOff(children: seq<string>, inDegree0: map<string, int>, queue0: seq<string>)
    returns (inDegree: map<string, int>, queue: seq<string>)
    requires forall i :: 0 <= i < |children| ==> CanCross(children, inDegree0, queue0, children[i])
    requires NoDup(queue0)
    ensures Crossed(children, |children|, inDegree0, queue0, inDegree, queue)
  {
    inDegree, queue := inDegree0, queue0;
    assert Seen(children, 0) == multiset{};
    for j := 0 to |children|
      invariant Crossed(children, j, inDegree0, queue0, inDegree, queue)
    {
      var child := children[j];
      assert CanCross(children, inDegree0, queue0, child);
      SeenNext(children, j);
      ghost var before, pending := inDegree, queue;
      inDegree := inDegree[child := inDegree[child] - 1];
      if inDegree[child] == 0 {
        queue := queue + [child];
      }
      CrossStep(children, j, inDegree0, queue0, before, pending, inDegree, queue);
    }
  }

  /** Everything finished has only finished dependencies. */
  ghost predicate DoneClosed(g: Graph, done: set<string>) {
    forall n :: n in done ==> n in g && g[n] <= done
  }

  lemma FinishedIsZero(deps: map<string, seq<string>>, done: set<string>, n: string)
    requires DoneClosed(Relation(deps), done) && n in done
    ensures n in deps && Outstanding(deps[n], done) == 0
  {
    assert n in Relation(deps);
    OutstandingZero(deps[n], done);
  }

  lemma {:induction false} GreedyClosed(g: Graph, s: seq<string>, i: nat)
    requires Greedy(g, s) && i <= |s|
    ensures DoneClosed(g, Before(s, i))
  {
    if i > 0 {
      GreedyClosed(g, s, i - 1);
      assert GreedyAt(g, s, i - 1);
    }
  }

  /** Finishing current makes ready exactly what was ready and what now waits for nothing more. */
  lemma ReadyAfter(deps: map<string, seq<string>>, done: set<string>, current: string, n: string)
    requires DoneClosed(Relation(deps), done) && Ready(Relation(deps), done, current)
    ensures Ready(Relation(deps), done + {current}, n) <==>
            || (n != current && Ready(Relation(deps), done, n))
            || (n in deps && multiset(deps[n])[current] > 0 && Outstanding(deps[n], done + {current}) == 0)
    ensures n in deps ==>
              Outstanding(deps[n], done) == Outstanding(deps[n], done + {current}) + multiset(deps[n])[current]
    ensures n in deps && multiset(deps[n])[current] > 0 ==> !Ready(Relation(deps), done, n)
  {
    ReadyIsZero(deps, done, n);
    ReadyIsZero(deps, done + {current}, n);
    if n in deps {
      OutstandingStep(deps[n], done, current);
      if n in done {
        FinishedIsZero(deps, done, n);
      }
    }
  }

  /** The finished node is crossed off every list that waits for it, and exactly the names that
      became ready join the queue. */
  method Release(ghost deps: map<string, seq<string>>, ghost done: set<string>, current: string, children: seq<string>,
                 inDegree0: map<string, int>, queue0: seq<string>)
    returns (inDegree: map<string, int>, queue: seq<string>)
    requires Waiting(deps, done, inDegree0) && Ready(Relation(deps), done, current) && DoneClosed(Relation(deps), done)
    requires forall n :: multiset(children)[n] == if n in deps then multiset(deps[n])[current] else 0
    requires NoDup(queue0) && forall n :: n in queue0 <==> Ready(Relation(deps), done, n) && n != current
    ensures Waiting(deps, done + {current}, inDegree)
    ensures NoDup(queue) && forall n :: n in queue <==> Ready(Relation(deps), done + {current}, n)
  {
    forall i | 0 <= i < |children| ensures CanCross(children, inDegree0, queue0, children[i]) {
      assert children[i] in multiset(children);
      ReadyAfter(deps, done, current, children[i]);
    }
    inDegree, queue := CrossOff(children, inDegree0, queue0);
    SeenAll(children);
    forall n ensures ReleasedRight(deps, done, current, n, inDegree, queue) {
      ReadyAfter(deps, done, current, n);
    }
    forall n ensures n in queue <==> Ready(Relation(deps), done + {current}, n) {
      assert ReleasedRight(deps, done, current, n, inDegree, queue);
    }
    forall n | n in deps ensures inDegree[n] == Outstanding(deps[n], done + {current}) {
      assert ReleasedRight(deps, done, current, n, inDegree, queue);
    }
  }

  ghost predicate ReleasedRight(deps: map<string, seq<string>>, done: set<string>, current: string, n: string,
                                inDegree: map<string, int>, queue: seq<string>)
  {
    && (n in queue <==> Ready(Relation(deps), done + {current}, n))
    && (n in deps ==> n in inDegree && inDegree[n] == Outstanding(deps[n], done + {current}))
  }

  method InitialQueue(names: seq<string>, inDegree: map<string, int>) returns (queue: seq<string>)
    requires NoDup(names) && forall n :: n in names ==> n in inDegree
    ensures Sorted(StrLeq, queue) && NoDup(queue)
    ensures forall n :: n in queue <==> n in names && inDegree[n] == 0
  {
    queue := [];
    for i := 0 to |names|
      invariant NoDup(queue)
      invariant forall n :: n in queue <==> exists a :: 0 <= a < i && names[a] == n && inDegree[n] == 0
    {
      if inDegree[names[i]] == 0 {
        queue := queue + [names[i]];
      }
    }
    queue := SortNames(queue);
  }

  method SortNames(s: seq<string>) returns (r: seq<string>)
    ensures Sorted(StrLeq, r) && multiset(r) == multiset(s)
    ensures forall n :: n in r <==> n in s
    ensures NoDup(s) ==> NoDup(r)
  {
    r := Sort(StrLeq, s);
    StrLeqTotalOrder();
    SortSorts(StrLeq, s);
    if NoDup(s) {
      SortNoDup(StrLeq, s);
    }
  }

  lemma HeadIsFirst(g: Graph, done: set<string>, queue: seq<string>)
    requires |queue| > 0 && Sorted(StrLeq, queue) && NoDup(queue)
    requires forall n :: n in queue <==> Ready(g, done, n)
    ensures FirstReady(g, done, queue[0])
    ensures NoDup(queue[1..]) && forall n :: n in queue[1..] <==> Ready(g, done, n) && n != queue[0]
  {
    StrLeqTotalOrder();
    var rest := queue[1..];
    forall n ensures n in rest <==> Ready(g, done, n) && n != queue[0] {
      assert n in queue <==> n == queue[0] || n in rest;
    }
    forall n | Ready(g, done, n) ensures StrLeq(queue[0], n) {
      var i :| 0 <= i < |queue| && queue[i] == n;
    }
  }

  /** What the main loop keeps: counters, queue and the order so far agree. */
  ghost predicate Progress(deps: map<string, seq<string>>, result: seq<string>, inDegree: map<string, int>,
                           queue: seq<string>)
  {
    && Waiting(deps, Before(result, |result|), inDegree)
    && Sorted(StrLeq, queue) && NoDup(queue)
    && (forall n :: n in queue <==> Ready(Relation(deps), Before(result, |result|), n))
    && Greedy(Relation(deps), result)
  }

  /** One round: take the head of the queue and release what waited for it. */
  method ScheduleNext(ghost deps: map<string, seq<string>>, dependents: map<string, seq<string>>,
                      result0: seq<string>, inDegree0: map<string, int>, queue0: seq<string>)
    returns (result: seq<string>, inDegree: map<string, int>, queue: seq<string>)
    requires forall d, n :: Waits(dependents, d, n) == if n in deps then multiset(deps[n])[d] else 0
    requires |queue0| > 0 && Progress(deps, result0, inDegree0, queue0)
    ensures Progress(deps, result, inDegree, queue)
    ensures queue0[0] in deps && queue0[0] !in Before(result0, |result0|)
    ensures Before(result, |result|) == Before(result0, |result0|) + {queue0[0]}
  {
    ghost var g, done := Relation(deps), Before(result0, |result0|);
    var current := queue0[0];
    HeadIsFirst(g, done, queue0);
    GreedyClosed(g, result0, |result0|);
    GreedyExtends(g, result0, current);
    result := result0 + [current];
    var children := SortNames(Children(dependents, current));
    ChildrenCount(deps, dependents, current, children);
    inDegree, queue := Release(deps, done, current, children, inDegree0, queue0[1..]);
    queue := SortNames(queue);
    ProgressAfter(deps, done, current, result, inDegree, queue);
  }

  lemma ChildrenCount(deps: map<string, seq<string>>, dependents: map<string, seq<string>>, current: string,
                      children: seq<string>)
    requires forall d, n :: Waits(dependents, d, n) == if n in deps then multiset(deps[n])[d] else 0
    requires multiset(children) == multiset(Children(dependents, current))
    ensures forall n :: multiset(children)[n] == if n in deps then multiset(deps[n])[current] else 0
  {
    forall n ensures multiset(children)[n] == if n in deps then multiset(deps[n])[current] else 0 {
      assert multiset(children)[n] == Waits(dependents, current, n);
    }
  }

  lemma ProgressAfter(deps: map<string, seq<string>>, done: set<string>, current: string, result: seq<string>,
                      inDegree: map<string, int>, queue: seq<string>)
    requires Before(result, |result|) == done + {current} && Greedy(Relation(deps), result)
    requires Waiting(deps, done + {current}, inDegree) && Sorted(StrLeq, queue) && NoDup(queue)
    requires forall n :: n in queue <==> Ready(Relation(deps), done + {current}, n)
    ensures Progress(deps, result, inDegree, queue)
  {
  }

  lemma InitialProgress(deps: map<string, seq<string>>, inDegree: map<string, int>, queue: seq<string>)
    requires inDegree.Keys == deps.Keys && forall n :: n in deps ==> inDegree[n] == |deps[n]|
    requires Sorted(StrLeq, queue) && NoDup(queue) && forall n :: n in queue <==> n in deps && inDegree[n] == 0
    ensures Progress(deps, [], inDegree, queue)
  {
    forall n | n in deps ensures inDegree[n] == Outstanding(deps[n], {}) {
      OutstandingZero(deps[n], {});
    }
    forall n ensures n in queue <==> Ready(Relation(deps), {}, n) {
      ReadyIsZero(deps, {}, n);
    }
  }

  method Schedule(ghost deps: map<string, seq<string>>, names: seq<string>, inDegree0: map<string, int>,
                  dependents: map<string, seq<string>>)
    returns (result: seq<string>, inDegree: map<string, int>)
    requires CountersOf(deps, inDegree0, dependents)
    requires NoDup(names) && forall n :: n in names <==> n in deps
    ensures Greedy(Relation(deps), result)
    ensures Waiting(deps, Before(result, |result|), inDegree)
    ensures forall n :: !Ready(Relation(deps), Before(result, |result|), n)
  {
    inDegree, result := inDegree0, [];
    var queue := InitialQueue(names, inDegree);
    InitialProgress(deps, inDegree, queue);
    while |queue| > 0
      invariant Progress(deps, result, inDegree, queue)
      decreases deps.Keys - Before(result, |result|)
    {
      result, inDegree, queue := ScheduleNext(deps, dependents, result, inDegree, queue);
    }
    forall n ensures !Ready(Relation(deps), Before(result, |result|), n) {
      assert n !in queue;
    }
  }

  method CollectBlocked(inDegree: map<string, int>) returns (blocked: seq<string>)
    ensures Sorted(StrLeq, blocked) && NoDup(blocked)
    ensures forall n :: n in blocked <==> n in inDegree && inDegree[n] > 0
  {
    blocked := [];
    var rest := inDegree.Keys;
    while rest != {}
      invariant rest <= inDegree.Keys
      invariant NoDup(blocked)
      invariant forall n :: n in blocked <==> n in inDegree.Keys - rest && inDegree[n] > 0
    {
      var name :| name in rest;
      rest := rest - {name};
      if inDegree[name] > 0 {
        blocked := blocked + [name];
      }
    }
    blocked := SortNames(blocked);
  }

  lemma CompleteByCount(g: Graph, s: seq<string>)
    requires NoDup(s) && forall n :: n in s ==> n in g
    ensures |s| == |g| <==> forall n :: n in g ==> n in s
  {
    NoDupLength(s);
    var got := set n | n in s;
    assert |g| == |g.Keys|;
    assert g.Keys == got + (g.Keys - got);
    if |s| == |g| {
      assert |g.Keys - got| == 0;
    } else {
      assert g.Keys - got != {};
      var n :| n in g.Keys - got;
    }
  }

  lemma BlockedExactly(deps: map<string, seq<string>>, s: seq<string>, n: string)
    requires Greedy(Relation(deps), s) && n in deps
    requires !Ready(Relation(deps), Before(s, |s|), n)
    ensures Outstanding(deps[n], Before(s, |s|)) > 0 <==> n !in s
  {
    var done := Before(s, |s|);
    BeforeAll(s);
    ReadyIsZero(deps, done, n);
    if n in s {
      GreedyClosed(Relation(deps), s, |s|);
      FinishedIsZero(deps, done, n);
    }
  }

  /** Fails exactly on duplicate names, then unknown dependencies, then cycles, and names the culprits;
      otherwise returns the lexicographically first order in which dependencies come first. */
  method TopologicalSort(nodes: seq<ResourceNode>) returns (r: SortResult)
    ensures Correct(nodes, r)
  {
    var dup, at := FindDuplicate(nodes);
    if dup {
      return DuplicateName(nodes[at].name);
    }
    var unknown, i, k := FindUnknown(nodes);
    if unknown {
      return UnknownDependency(nodes[i].name, nodes[i].dependsOn[k]);
    }
    r := SortGraph(nodes);
  }

  function NamesOf(nodes: seq<ResourceNode>): (names: seq<string>)
    ensures |names| == |nodes| && forall i :: 0 <= i < |nodes| ==> names[i] == nodes[i].name
  {
    seq(|nodes|, i requires 0 <= i < |nodes| => nodes[i].name)
  }

  lemma NamesAreKeys(nodes: seq<ResourceNode>)
    requires DistinctNames(nodes)
    ensures NoDup(NamesOf(nodes)) && forall n :: n in NamesOf(nodes) <==> n in DepsUpTo(nodes, |nodes|)
  {
    DepsKeys(nodes, |nodes|);
    var names := NamesOf(nodes);
    forall n ensures n in names <==> NamedBefore(nodes, |nodes|, n) {
      if a :| 0 <= a < |nodes| && nodes[a].name == n {
        assert names[a] == n;
      }
    }
  }

  lemma GraphSize(nodes: seq<ResourceNode>)
    requires DistinctNames(nodes)
    ensures |GraphOf(nodes)| == |nodes|
  {
    DepsCount(nodes, |nodes|);
    assert GraphOf(nodes).Keys == DepsUpTo(nodes, |nodes|).Keys;
  }

  method SortGraph(nodes: seq<ResourceNode>) returns (r: SortResult)
    requires DistinctNames(nodes) && KnownDependencies(nodes)
    ensures Correct(nodes, r)
  {
    ghost var deps, g := DepsUpTo(nodes, |nodes|), GraphOf(nodes);
    NamesAreKeys(nodes);
    GraphSize(nodes);
    var inDegree, dependents := BuildCounters(nodes);
    var result;
    result, inDegree := Schedule(deps, NamesOf(nodes), inDegree, dependents);
    ClosedGraph(nodes);
    UnscheduledReachesCycle(g, result);
    GreedyRespects(g, result);
    CompleteByCount(g, result);
    if |result| != |nodes| {
      var blocked := CollectBlocked(inDegree);
      forall n ensures n in blocked <==> ReachesCycle(g, n) {
        if n in deps {
          BlockedExactly(deps, result, n);
        }
      }
      return CycleDetected(blocked);
    }
    GreedyIsFirst(g, result);
    return Order(result);
  }
}
