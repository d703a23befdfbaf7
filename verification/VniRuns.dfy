/** Every run of router creations and deletions over the VNI table. */
module VniRuns {
  import opened Common
  import opened Sorting
  import opened VniRanges
  import opened VniAllocator

  /** The table and a clock later than every recorded release. */
  datatype World = World(rows: Table, clock: int)

  datatype Event = Create(router: RouterId, mode: Mode, req: Request) | Delete(router: RouterId)

  datatype Outcome = Created(result: Result<Option<int>, Error>) | Deleted

  ghost predicate Step(config: seq<string>, w: World, e: Event, w': World, out: Outcome) {
    match e
    case Create(r, mode, req) =>
      out.Created? && CreatePost(config, w.rows, r, mode, req, w'.rows, out.result) && w'.clock >= w.clock
    case Delete(r) =>
      out == Deleted && ReleasePost(w.rows, r, w.clock, w'.rows) && w'.clock > w.clock
  }

  ghost predicate WorldOk(w: World) {
    TableOk(w.rows) && forall v :: v in w.rows && w.rows[v].releasedAt.Some? ==> w.rows[v].releasedAt.value < w.clock
  }

  datatype Run = Run(worlds: seq<World>, events: seq<Event>, outs: seq<Outcome>)

  ghost predicate StepAt(config: seq<string>, run: Run, i: nat)
    requires i + 1 < |run.worlds| && i < |run.events| && i < |run.outs|
  {
    Step(config, run.worlds[i], run.events[i], run.worlds[i + 1], run.outs[i])
  }

  ghost predicate IsRun(config: seq<string>, run: Run) {
    && |run.worlds| == |run.events| + 1 == |run.outs| + 1
    && WorldOk(run.worlds[0])
    && forall i :: 0 <= i < |run.events| ==> StepAt(config, run, i)
  }

  // ----- what one step does to the holders

  /** Every step either leaves the table alone, grants one row, or releases one row. */
  lemma StepShape(config: seq<string>, w: World, e: Event, w': World, out: Outcome)
    requires Step(config, w, e, w', out)
    ensures || w'.rows == w.rows
            || (exists v :: w'.rows == Granted(w.rows, e.router, v) && GrantedBy(config, w.rows, e, out, v))
            || (e.Delete? && exists v :: Holds(w.rows, e.router, v) && w'.rows == w.rows[v := Row(None, Some(w.clock))])
  {
    if e.Create? && w'.rows != w.rows {
      assert GrantedBy(config, w.rows, e, out, out.result.value.value);
    }
  }

  /** A grant goes to a router without a VNI, from the ranges, to a free row, and only if the mode allows it. */
  ghost predicate GrantedBy(config: seq<string>, rows: Table, e: Event, out: Outcome, v: int) {
    && e.Create? && out == Created(Ok(Some(v)))
    && Denotes(config, v)
    && e.mode != Off && (e.mode == On ==> !IsAuto(e.req))
    && (v in rows ==> rows[v].router.None?)
    && (forall x :: !Holds(rows, e.router, x))
  }

  lemma StepKeepsOk(config: seq<string>, w: World, e: Event, w': World, out: Outcome)
    requires WorldOk(w) && Step(config, w, e, w', out)
    ensures WorldOk(w') && w.rows.Keys <= w'.rows.Keys
  {
    StepShape(config, w, e, w', out);
    forall r, v, x | Holds(w'.rows, r, v) && Holds(w'.rows, r, x) ensures v == x {
      assert (Holds(w.rows, r, v) || r == e.router) && (Holds(w.rows, r, x) || r == e.router);
    }
  }

  lemma StepGains(config: seq<string>, w: World, e: Event, w': World, out: Outcome, r: RouterId, v: int)
    requires WorldOk(w) && Step(config, w, e, w', out) && Holds(w'.rows, r, v) && !Holds(w.rows, r, v)
    ensures e.router == r && GrantedBy(config, w.rows, e, out, v)
  {
    StepShape(config, w, e, w', out);
  }

  lemma StepKeepsHolder(config: seq<string>, w: World, e: Event, w': World, out: Outcome, r: RouterId, v: int)
    requires WorldOk(w) && Step(config, w, e, w', out) && Holds(w.rows, r, v)
    ensures Holds(w'.rows, r, v) <==> e != Delete(r)
  {
    StepShape(config, w, e, w', out);
  }

  // ----- runs

  /** One VNI per router, one router per VNI, and no row ever disappears. */
  lemma {:induction false} RunKeepsOk(config: seq<string>, run: Run, i: nat, j: nat)
    requires IsRun(config, run) && i <= j < |run.worlds|
    ensures WorldOk(run.worlds[j]) && run.worlds[i].rows.Keys <= run.worlds[j].rows.Keys
  {
    if j > 0 {
      assert StepAt(config, run, j - 1);
      if i < j {
        RunKeepsOk(config, run, i, j - 1);
      } else {
        RunKeepsOk(config, run, j - 1, j - 1);
      }
      StepKeepsOk(config, run.worlds[j - 1], run.events[j - 1], run.worlds[j], run.outs[j - 1]);
    }
  }

  /** A router that came to hold a VNI was granted it, from the ranges and by a mode that permits it, in a
      creation after which it was not deleted again. */
  lemma {:induction false} HeldWasGranted(config: seq<string>, run: Run, j: nat, r: RouterId, v: int) returns (i: nat)
    requires IsRun(config, run) && j < |run.worlds|
    requires Holds(run.worlds[j].rows, r, v) && !Holds(run.worlds[0].rows, r, v)
    ensures i < j && run.events[i].router == r && GrantedBy(config, run.worlds[i].rows, run.events[i], run.outs[i], v)
    ensures forall k :: i <= k < j ==> run.events[k] != Delete(r)
  {
    HeldBefore(config, run, j, r, v);
    if Holds(run.worlds[j - 1].rows, r, v) {
      i := HeldWasGranted(config, run, j - 1, r, v);
    } else {
      i := j - 1;
    }
  }

  lemma HeldBefore(config: seq<string>, run: Run, j: nat, r: RouterId, v: int)
    requires IsRun(config, run) && 0 < j < |run.worlds| && Holds(run.worlds[j].rows, r, v)
    ensures run.events[j - 1] != Delete(r)
    ensures Holds(run.worlds[j - 1].rows, r, v)
            || (run.events[j - 1].router == r
                && GrantedBy(config, run.worlds[j - 1].rows, run.events[j - 1], run.outs[j - 1], v))
  {
    RunKeepsOk(config, run, j - 1, j - 1);
    assert StepAt(config, run, j - 1);
    var w, e, w', out := run.worlds[j - 1], run.events[j - 1], run.worlds[j], run.outs[j - 1];
    if Holds(w.rows, r, v) {
      StepKeepsHolder(config, w, e, w', out, r, v);
    } else {
      StepGains(config, w, e, w', out, r, v);
    }
  }

  /** A VNI stays with its router exactly until the router is deleted. */
  lemma {:induction false} KeptUntilDeleted(config: seq<string>, run: Run, i: nat, j: nat, r: RouterId, v: int)
    requires IsRun(config, run) && i <= j < |run.worlds| && Holds(run.worlds[i].rows, r, v)
    requires forall k :: i <= k < j ==> run.events[k] != Delete(r)
    ensures Holds(run.worlds[j].rows, r, v)
  {
    if i < j {
      KeptUntilDeleted(config, run, i, j - 1, r, v);
      RunKeepsOk(config, run, i, j - 1);
      assert StepAt(config, run, j - 1);
      StepKeepsHolder(config, run.worlds[j - 1], run.events[j - 1], run.worlds[j], run.outs[j - 1], r, v);
    }
  }

  /** Allocating again for a router that holds a VNI returns the same one and changes nothing, unless a
      different VNI is demanded. */
  lemma AllocatingAgain(config: seq<string>, rows: Table, r: RouterId, v: int, req: Request, rows': Table,
                        out: Result<int, Error>)
    requires Accepted(config) && TableOk(rows) && Holds(rows, r, v) && AllocatePost(config, rows, r, req, rows', out)
    ensures rows' == rows
    ensures out == if req == Unspecified || req == Null || req == Vni(0) || req == Vni(v) then Ok(v)
                   else Err(RouterHasVni(v, req.n))
  {
  }

  // ----- the table refines a first-in first-out pool

  /** The allocator without rows and clocks: who holds what, and the released VNIs in order of release. */
  datatype Pool = Pool(held: map<RouterId, int>, queue: seq<int>)

  ghost predicate Used(p: Pool, v: int) {
    v in p.queue || exists r :: r in p.held && p.held[r] == v
  }

  function Without(q: seq<int>, k: nat): seq<int>
    requires k < |q|
  {
    q[..k] + q[k + 1..]
  }

  ghost predicate LeastFresh(config: seq<string>, p: Pool, v: int) {
    Denotes(config, v) && !Used(p, v) && forall x :: Denotes(config, x) && !Used(p, x) ==> v <= x
  }

  /** The first VNI in the queue that the configuration covers. */
  ghost predicate FirstInQueue(config: seq<string>, p: Pool, k: nat) {
    k < |p.queue| && Denotes(config, p.queue[k]) && forall i :: 0 <= i < k ==> !Denotes(config, p.queue[i])
  }

  ghost predicate PoolAllocate(config: seq<string>, p: Pool, r: RouterId, req: Request, p': Pool,
                               out: Result<int, Error>)
  {
    if !Accepted(config) then
      out.Err? && out.error.InvalidConfig? && ParseSpec(config, Err(out.error.fault)) && p' == p
    else if r in p.held then
      p' == p && out == if IsAuto(req) || req.n == p.held[r] then Ok(p.held[r]) else Err(RouterHasVni(p.held[r], req.n))
    else if IsAuto(req) then
      PoolPick(config, p, r, p', out)
    else if !Denotes(config, req.n) then
      out == Err(NotInRange(req.n)) && p' == p
    else if out.Err? then
      out.error.InUse? && out.error.vni == req.n && out.error.holder in p.held && p.held[out.error.holder] == req.n
      && p' == p
    else
      out == Ok(req.n) && PoolTake(p, r, req.n, p')
  }

  /** Never used first; then the head of the queue; nothing only if all are held. */
  ghost predicate PoolPick(config: seq<string>, p: Pool, r: RouterId, p': Pool, out: Result<int, Error>) {
    if exists x :: Denotes(config, x) && !Used(p, x) then
      out.Ok? && LeastFresh(config, p, out.value) && p' == Pool(p.held[r := out.value], p.queue)
    else if exists k: nat :: k < |p.queue| && Denotes(config, p.queue[k]) then
      exists k: nat :: FirstInQueue(config, p, k) && out == Ok(p.queue[k])
                       && p' == Pool(p.held[r := p.queue[k]], Without(p.queue, k))
    else out == Err(NoneAvailable) && p' == p
  }

  predicate TakesAt(p: Pool, r: RouterId, v: int, k: nat, p': Pool) {
    k < |p.queue| && p.queue[k] == v && p' == Pool(p.held[r := v], Without(p.queue, k))
  }

  ghost predicate PoolTake(p: Pool, r: RouterId, v: int, p': Pool) {
    if v in p.queue then exists k: nat :: TakesAt(p, r, v, k, p')
    else !Used(p, v) && p' == Pool(p.held[r := v], p.queue)
  }

  ghost predicate PoolStep(config: seq<string>, p: Pool, e: Event, p': Pool, out: Outcome) {
    match e
    case Delete(r) =>
      out == Deleted && p' == if r in p.held then Pool(p.held - {r}, p.queue + [p.held[r]]) else p
    case Create(r, mode, req) =>
      if mode == Off && !IsAuto(req) then out == Created(Err(NotAllowed)) && p' == p
      else if mode == Off || (mode == On && IsAuto(req)) then out == Created(Ok(None)) && p' == p
      else out.Created? && (out.result.Ok? ==> out.result.value.Some?)
           && PoolAllocate(config, p, r, req, p',
                           if out.result.Ok? then Ok(out.result.value.value) else Err(out.result.error))
  }

  /** The table as a pool: the holders agree, and the queue lists the released rows by release time. */
  ghost predicate Represents(rows: Table, p: Pool) {
    && (forall r, v :: (r in p.held && p.held[r] == v) <==> Holds(rows, r, v))
    && NoDup(p.queue) && (forall v :: v in p.queue <==> Released(rows, v))
    && ByRelease(rows, p.queue)
  }

  ghost predicate ByRelease(rows: Table, q: seq<int>) {
    && (forall i :: 0 <= i < |q| ==> Released(rows, q[i]) && rows[q[i]].releasedAt.Some?)
    && (forall i, j :: 0 <= i < j < |q| ==> rows[q[i]].releasedAt.value < rows[q[j]].releasedAt.value)
  }

  const EMPTY_POOL := Pool(map[], [])

  /** A table without rows is the pool in which nothing was ever used. */
  lemma EmptyTableIsEmptyPool()
    ensures Represents(map[], EMPTY_POOL) && forall v :: !Used(EMPTY_POOL, v)
  {
  }

  lemma UsedIsRow(rows: Table, p: Pool, v: int)
    requires Represents(rows, p)
    ensures Used(p, v) <==> v in rows
  {
    assert v in p.queue <==> Released(rows, v);
    if v in rows && rows[v].router.Some? {
      var r := rows[v].router.value;
      assert Holds(rows, r, v);
      assert r in p.held && p.held[r] == v;
    }
    if r :| r in p.held && p.held[r] == v {
      assert Holds(rows, r, v);
    }
  }

  lemma HeldIsHolder(rows: Table, p: Pool, r: RouterId)
    requires Represents(rows, p)
    ensures r in p.held <==> exists v :: Holds(rows, r, v)
  {
    if r in p.held {
      assert Holds(rows, r, p.held[r]);
    }
  }

  lemma GrantUnused(rows: Table, p: Pool, r: RouterId, v: int)
    requires Represents(rows, p) && v !in rows && forall x :: !Holds(rows, r, x)
    ensures Represents(Granted(rows, r, v), Pool(p.held[r := v], p.queue))
  {
    var rows', held' := Granted(rows, r, v), p.held[r := v];
    forall q, x ensures (q in held' && held'[q] == x) <==> Holds(rows', q, x) {
      assert (q in p.held && p.held[q] == x) <==> Holds(rows, q, x);
    }
    forall x ensures x in p.queue <==> Released(rows', x) {
      assert x in p.queue <==> Released(rows, x);
    }
    forall i | 0 <= i < |p.queue| ensures rows'[p.queue[i]] == rows[p.queue[i]] {
      assert Released(rows, p.queue[i]);
    }
  }

  lemma WithoutMember(q: seq<int>, k: nat)
    requires NoDup(q) && k < |q|
    ensures NoDup(Without(q, k)) && forall v :: v in Without(q, k) <==> v in q && v != q[k]
    ensures forall i :: 0 <= i < |q| - 1 ==> Without(q, k)[i] == if i < k then q[i] else q[i + 1]
  {
    var t := Without(q, k);
    forall v | v in q && v != q[k] ensures v in t {
      var i :| 0 <= i < |q| && q[i] == v;
      assert t[if i < k then i else i - 1] == v;
    }
  }

  /** Queue position i after removing position k is this position before. */
  function Earlier(k: nat, i: nat): nat {
    if i < k then i else i + 1
  }

  lemma GrantReleased(rows: Table, p: Pool, r: RouterId, k: nat)
    requires Represents(rows, p) && k < |p.queue| && forall x :: !Holds(rows, r, x)
    ensures Represents(Granted(rows, r, p.queue[k]), Pool(p.held[r := p.queue[k]], Without(p.queue, k)))
  {
    var v := p.queue[k];
    var rows', held', q' := Granted(rows, r, v), p.held[r := v], Without(p.queue, k);
    assert Released(rows, v);
    forall q, x ensures (q in held' && held'[q] == x) <==> Holds(rows', q, x) {
      assert (q in p.held && p.held[q] == x) <==> Holds(rows, q, x);
    }
    QueueWithout(rows, p, r, k);
  }

  lemma QueueWithout(rows: Table, p: Pool, r: RouterId, k: nat)
    requires Represents(rows, p) && k < |p.queue|
    ensures var rows', q' := Granted(rows, r, p.queue[k]), Without(p.queue, k);
            NoDup(q') && (forall v :: v in q' <==> Released(rows', v)) && ByRelease(rows', q')
  {
    var rows', q' := Granted(rows, r, p.queue[k]), Without(p.queue, k);
    WithoutMember(p.queue, k);
    forall x ensures x in q' <==> Released(rows', x) {
      assert x in p.queue <==> Released(rows, x);
    }
    WithoutByRelease(rows, p.queue, k);
    forall i | 0 <= i < |q'| ensures q'[i] in rows && rows'[q'[i]] == rows[q'[i]] {
      assert q'[i] in q';
    }
  }

  lemma WithoutByRelease(rows: Table, q: seq<int>, k: nat)
    requires ByRelease(rows, q) && k < |q|
    ensures ByRelease(rows, Without(q, k))
  {
    var q' := Without(q, k);
    forall i | 0 <= i < |q'|
      ensures q'[i] == q[Earlier(k, i)] && Released(rows, q'[i]) && rows[q'[i]].releasedAt.Some?
    {
    }
    forall i, j | 0 <= i < j < |q'| ensures rows[q'[i]].releasedAt.value < rows[q'[j]].releasedAt.value {
      assert Earlier(k, i) < Earlier(k, j);
    }
  }

  lemma ReleaseHeld(rows: Table, p: Pool, r: RouterId, v: int, now: int)
    requires Represents(rows, p) && Holds(rows, r, v)
    requires forall x :: x in rows && rows[x].releasedAt.Some? ==> rows[x].releasedAt.value < now
    ensures r in p.held && p.held[r] == v
    ensures Represents(rows[v := Row(None, Some(now))], Pool(p.held - {r}, p.queue + [v]))
  {
    var rows', held', q' := rows[v := Row(None, Some(now))], p.held - {r}, p.queue + [v];
    assert r in p.held && p.held[r] == v;
    forall q, x ensures (q in held' && held'[q] == x) <==> Holds(rows', q, x) {
      assert (q in p.held && p.held[q] == x) <==> Holds(rows, q, x);
    }
    forall x ensures x in q' <==> Released(rows', x) {
      assert x in p.queue <==> Released(rows, x);
      assert x in q' <==> x in p.queue || x == v;
    }
    assert v !in p.queue;
    forall i | 0 <= i < |p.queue| ensures rows'[p.queue[i]] == rows[p.queue[i]] {
      assert Released(rows, p.queue[i]);
    }
  }

  lemma AutoRefines(config: seq<string>, rows: Table, p: Pool, r: RouterId, rows': Table, out: Result<int, Error>)
    returns (p': Pool)
    requires Represents(rows, p) && AutoPost(config, rows, r, rows', out) && forall x :: !Holds(rows, r, x)
    ensures PoolPick(config, p, r, p', out) && Represents(rows', p')
  {
    forall x ensures Used(p, x) <==> x in rows {
      UsedIsRow(rows, p, x);
    }
    if out.Ok? && out.value !in rows {
      GrantUnused(rows, p, r, out.value);
      p' := Pool(p.held[r := out.value], p.queue);
    } else if out.Ok? {
      assert out.value in p.queue;
      var k: nat :| k < |p.queue| && p.queue[k] == out.value;
      forall i | 0 <= i < k ensures !Denotes(config, p.queue[i]) {
        assert Released(rows, p.queue[i]);
        assert rows[p.queue[i]].releasedAt.value < rows[p.queue[k]].releasedAt.value;
      }
      assert FirstInQueue(config, p, k);
      GrantReleased(rows, p, r, k);
      p' := Pool(p.held[r := out.value], Without(p.queue, k));
    } else {
      forall k: nat | k < |p.queue| ensures !Denotes(config, p.queue[k]) {
        assert Released(rows, p.queue[k]);
      }
      p' := p;
    }
  }

  lemma SpecificRefines(config: seq<string>, rows: Table, p: Pool, r: RouterId, n: int, rows': Table,
                        out: Result<int, Error>)
    returns (p': Pool)
    requires Represents(rows, p) && Denotes(config, n) && SpecificPost(config, rows, r, n, rows', out)
    requires forall x :: !Holds(rows, r, x)
    ensures Represents(rows', p')
    ensures out.Ok? ==> out == Ok(n) && PoolTake(p, r, n, p')
    ensures out.Err? ==> out.error.InUse? && out.error.vni == n && p' == p
                         && out.error.holder in p.held && p.held[out.error.holder] == n
  {
    UsedIsRow(rows, p, n);
    if out.Err? {
      assert Holds(rows, out.error.holder, n);
      p' := p;
    } else if n !in rows {
      GrantUnused(rows, p, r, n);
      p' := Pool(p.held[r := n], p.queue);
    } else {
      assert n in p.queue;
      var k: nat :| k < |p.queue| && p.queue[k] == n;
      GrantReleased(rows, p, r, k);
      p' := Pool(p.held[r := n], Without(p.queue, k));
      assert TakesAt(p, r, n, k, p');
    }
  }

  lemma AllocateRefines(config: seq<string>, rows: Table, p: Pool, r: RouterId, req: Request, rows': Table,
                        out: Result<int, Error>)
    returns (p': Pool)
    requires Represents(rows, p) && TableOk(rows) && AllocatePost(config, rows, r, req, rows', out)
    ensures PoolAllocate(config, p, r, req, p', out) && Represents(rows', p')
  {
    p' := p;
    if Accepted(config) {
      if v :| Holds(rows, r, v) {
        assert r in p.held && p.held[r] == v;
        AllocatingAgain(config, rows, r, v, req, rows', out);
      } else {
        HeldIsHolder(rows, p, r);
        if IsAuto(req) {
          p' := AutoRefines(config, rows, p, r, rows', out);
        } else if Denotes(config, req.n) {
          p' := SpecificRefines(config, rows, p, r, req.n, rows', out);
        }
      }
    }
  }

  lemma StepRefines(config: seq<string>, w: World, e: Event, w': World, out: Outcome, p: Pool) returns (p': Pool)
    requires WorldOk(w) && Step(config, w, e, w', out) && Represents(w.rows, p)
    ensures PoolStep(config, p, e, p', out) && Represents(w'.rows, p')
  {
    match e
    case Delete(r) =>
      if v :| Holds(w.rows, r, v) {
        ReleaseHeld(w.rows, p, r, v, w.clock);
        p' := Pool(p.held - {r}, p.queue + [v]);
      } else {
        HeldIsHolder(w.rows, p, r);
        p' := p;
      }
    case Create(r, mode, req) =>
      if mode == Off || (mode == On && IsAuto(req)) {
        p' := p;
      } else {
        p' := AllocateRefines(config, w.rows, p, r, req, w'.rows,
                              if out.result.Ok? then Ok(out.result.value.value) else Err(out.result.error));
      }
  }

  ghost predicate PoolStepAt(config: seq<string>, run: Run, pools: seq<Pool>, i: nat)
    requires i + 1 < |pools| && i < |run.events| && i < |run.outs|
  {
    PoolStep(config, pools[i], run.events[i], pools[i + 1], run.outs[i])
  }

  /** Every run of the table is a run of the pool with the same outcomes, so automatic reuse is
      first released, first reused. */
  lemma {:induction false} RunRefinesPool(config: seq<string>, run: Run, p: Pool, n: nat) returns (pools: seq<Pool>)
    requires IsRun(config, run) && Represents(run.worlds[0].rows, p) && n < |run.worlds|
    ensures |pools| == n + 1 && pools[0] == p
    ensures Represents(run.worlds[n].rows, pools[n])
    ensures forall i :: 0 <= i < n ==> PoolStepAt(config, run, pools, i)
  {
    if n == 0 {
      pools := [p];
    } else {
      var prior := RunRefinesPool(config, run, p, n - 1);
      RunKeepsOk(config, run, n - 1, n - 1);
      assert StepAt(config, run, n - 1);
      var p' := StepRefines(config, run.worlds[n - 1], run.events[n - 1], run.worlds[n], run.outs[n - 1], prior[n - 1]);
      pools := prior + [p'];
      forall i | 0 <= i < n ensures PoolStepAt(config, run, pools, i) {
        assert i < n - 1 ==> PoolStepAt(config, run, prior, i);
      }
    }
  }

  /** In particular every run from an empty table is a run from the pool in which nothing was ever used. */
  lemma RunFromEmptyTable(config: seq<string>, run: Run) returns (pools: seq<Pool>)
    requires IsRun(config, run) && run.worlds[0].rows == map[]
    ensures |pools| == |run.worlds| && pools[0] == EMPTY_POOL
    ensures forall i :: 0 <= i < |run.events| ==> PoolStepAt(config, run, pools, i)
    ensures Represents(run.worlds[|run.events|].rows, pools[|run.events|])
  {
    EmptyTableIsEmptyPool();
    pools := RunRefinesPool(config, run, EMPTY_POOL, |run.events|);
  }
}
