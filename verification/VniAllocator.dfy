/** The persistent VNI table behind the router plugin: never used first, then oldest released. */
module VniAllocator {
  import opened Common
  import opened PyText
  import opened Ranges
  import opened VniRanges

  type RouterId = s: string | s != "" witness "router"

  /** A table row: the router that holds the VNI, or the time of its release. */
  datatype Row = Row(router: Option<RouterId>, releasedAt: Option<int>)

  type Table = map<int, Row>

  /** What the caller asked for; no value, null and zero all mean "pick one". */
  datatype Request = Unspecified | Null | Vni(n: int)

  datatype Mode = Off | On | Auto

  datatype Error =
    | InvalidConfig(fault: InvalidRange)
    | NotAllowed
    | RouterHasVni(existing: int, requested: int)
    | NotInRange(vni: int)
    | InUse(vni: int, holder: RouterId)
    | NoneAvailable

  predicate IsAuto(req: Request) {
    !req.Vni? || req.n == 0
  }

  /** The flavor's toggle, defaulting to off when absent or not understood. */
  function ModeOf(setting: Option<string>): Mode {
    if setting.None? then Off
    else if Lower(setting.value) == "on" then On
    else if Lower(setting.value) == "auto" then Auto
    else Off
  }

  lemma AutoMeaning(req: Request)
    ensures IsAuto(req) <==> req == Unspecified || req == Null || req == Vni(0)
  {
  }

  predicate Says(setting: Option<string>, text: string) {
    setting.Some? && SameUpToCase(setting.value, text)
  }

  /** The toggle by its text, in whatever case. */
  lemma ModeMeaning(setting: Option<string>)
    ensures ModeOf(setting) == On <==> Says(setting, "on")
    ensures ModeOf(setting) == Auto <==> Says(setting, "auto")
  {
    if setting.Some? {
      assert Lower("on") == "on" && Lower("auto") == "auto";
      LowerMeaning(setting.value, "on");
      LowerMeaning(setting.value, "auto");
    }
  }

  // ----- the table

  predicate Holds(rows: Table, router: RouterId, v: int) {
    v in rows && rows[v].router == Some(router)
  }

  predicate Released(rows: Table, v: int) {
    v in rows && rows[v].router.None?
  }

  /** At most one VNI per router, and a release time exactly on released rows. */
  ghost predicate TableOk(rows: Table) {
    && (forall r, v, w :: Holds(rows, r, v) && Holds(rows, r, w) ==> v == w)
    && (forall v :: v in rows ==> (rows[v].router.None? <==> rows[v].releasedAt.Some?))
  }

  ghost predicate LeastUnused(config: seq<string>, rows: Table, v: int) {
    Denotes(config, v) && v !in rows && forall x :: Denotes(config, x) && x !in rows ==> v <= x
  }

  /** Order of reuse: earlier release first, then the smaller VNI; a missing time sorts first. */
  predicate ReusedBefore(rows: Table, v: int, w: int)
    requires v in rows && w in rows
  {
    match (rows[v].releasedAt, rows[w].releasedAt)
    case (None, None) => v <= w
    case (None, Some(_)) => true
    case (Some(_), None) => false
    case (Some(s), Some(t)) => s < t || (s == t && v <= w)
  }

  /** Among stamped rows the earlier stamp goes first, and then the smaller VNI. */
  lemma ReuseMeaning(rows: Table, v: int, w: int, s: int, t: int)
    requires v in rows && w in rows && rows[v].releasedAt == Some(s) && rows[w].releasedAt == Some(t)
    ensures ReusedBefore(rows, v, w) <==> s < t || (s == t && v <= w)
  {
  }

  ghost predicate OldestReleased(config: seq<string>, rows: Table, v: int) {
    && Denotes(config, v) && Released(rows, v)
    && forall w :: Denotes(config, w) && Released(rows, w) ==> ReusedBefore(rows, v, w)
  }

  /** Every configured VNI is held by a router. */
  ghost predicate Exhausted(config: seq<string>, rows: Table) {
    forall x :: Denotes(config, x) ==> x in rows && rows[x].router.Some?
  }

  function Granted(rows: Table, router: RouterId, v: int): Table {
    rows[v := Row(Some(router), None)]
  }

  ghost predicate AutoPost(config: seq<string>, rows: Table, router: RouterId, rows': Table, out: Result<int, Error>) {
    if Exhausted(config, rows) then
      out == Err(NoneAvailable) && rows' == rows
    else
      && out.Ok? && rows' == rows[out.value := Row(Some(router), None)]
      && (LeastUnused(config, rows, out.value)
          || (OldestReleased(config, rows, out.value) && forall x :: Denotes(config, x) ==> x in rows))
  }

  ghost predicate SpecificPost(config: seq<string>, rows: Table, router: RouterId, n: int, rows': Table,
                               out: Result<int, Error>)
  {
    if !Denotes(config, n) then out == Err(NotInRange(n)) && rows' == rows
    else if n in rows && rows[n].router.Some? then out == Err(InUse(n, rows[n].router.value)) && rows' == rows
    else out == Ok(n) && rows' == rows[n := Row(Some(router), None)]
  }

  ghost predicate ExistingPost(rows: Table, router: RouterId, req: Request, out: Result<int, Error>) {
    exists v :: Holds(rows, router, v) &&
                out == if IsAuto(req) || req.n == v then Ok(v) else Err(RouterHasVni(v, req.n))
  }

  ghost predicate AllocatePost(config: seq<string>, rows: Table, router: RouterId, req: Request,
                               rows': Table, out: Result<int, Error>)
  {
    if !Accepted(config) then
      out.Err? && out.error.InvalidConfig? && ParseSpec(config, Err(out.error.fault)) && rows' == rows
    else if exists v :: Holds(rows, router, v) then
      ExistingPost(rows, router, req, out) && rows' == rows
    else if IsAuto(req) then
      AutoPost(config, rows, router, rows', out)
    else
      SpecificPost(config, rows, router, req.n, rows', out)
  }

  ghost predicate ReleasePost(rows: Table, router: RouterId, now: int, rows': Table) {
    if exists v :: Holds(rows, router, v) then
      exists v :: Holds(rows, router, v) && rows' == rows[v := Row(None, Some(now))]
    else rows' == rows
  }

  function PlainResult(out: Result<Option<int>, Error>): Result<int, Error>
    requires out != Ok(None)
  {
    if out.Ok? then Ok(out.value.value) else Err(out.error)
  }

  /** Router creation: the flavor decides whether a VNI may be supplied or picked. */
  ghost predicate CreatePost(config: seq<string>, rows: Table, router: RouterId, mode: Mode, req: Request,
                             rows': Table, out: Result<Option<int>, Error>)
  {
    if mode == Off && !IsAuto(req) then out == Err(NotAllowed) && rows' == rows
    else if mode == Off || (mode == On && IsAuto(req)) then out == Ok(None) && rows' == rows
    else if out.Ok? then out.value.Some? && AllocatePost(config, rows, router, req, rows', Ok(out.value.value))
    else AllocatePost(config, rows, router, req, rows', Err(out.error))
  }

  class VniDbHelper {
    const config: seq<string>
    var rows: Table
    var clock: int

    constructor (config: seq<string>)
      ensures this.config == config && rows == map[]
    {
      this.config := config;
      rows := map[];
      clock := 0;
    }

    method GetVniForRouter(router: RouterId) returns (v: Option<int>)
      ensures v.Some? ==> Holds(rows, router, v.value)
      ensures v.None? ==> forall x :: !Holds(rows, router, x)
    {
      if x :| x in rows && rows[x].router == Some(router) {
        return Some(x);
      }
      return None;
    }

    method AllocateVniForRouter(router: RouterId, req: Request) returns (out: Result<int, Error>)
      modifies this`rows
      ensures AllocatePost(config, old(rows), router, req, rows, out)
    {
      var parsed := ParseVniRanges(config);
      if parsed.Err? {
        return Err(InvalidConfig(parsed.error));
      }
      var existing := GetVniForRouter(router);
      if existing.Some? {
        if IsAuto(req) || req.n == existing.value {
          return Ok(existing.value);
        }
        return Err(RouterHasVni(existing.value, req.n));
      }
      if IsAuto(req) {
        out := AllocateAuto(router, parsed.value);
      } else if !InRanges(req.n, parsed.value) {
        out := Err(NotInRange(req.n));
      } else {
        out := AllocateSpecific(router, req.n);
      }
    }

    method ReleaseVniForRouter(router: RouterId)
      modifies this
      ensures ReleasePost(old(rows), router, old(clock), rows)
      ensures clock > old(clock)
    {
      var v := GetVniForRouter(router);
      if v.Some? {
        rows := rows[v.value := Row(None, Some(clock))];
      }
      clock := clock + 1;
    }

    method AllocateAuto(router: RouterId, ranges: seq<Range>) returns (out: Result<int, Error>)
      requires Canonical(ranges) && forall x :: InRanges(x, ranges) <==> Denotes(config, x)
      modifies this`rows
      ensures AutoPost(config, old(rows), router, rows, out)
    {
      var unused := FindNeverUsedVni(ranges);
      if unused.Some? {
        rows := Granted(rows, router, unused.value);
        return Ok(unused.value);
      }
      var released := FindReleasedAllocation(ranges);
      if released.Some? {
        rows := Granted(rows, router, released.value);
        return Ok(released.value);
      }
      return Err(NoneAvailable);
    }

    method AllocateSpecific(router: RouterId, n: int) returns (out: Result<int, Error>)
      requires Denotes(config, n)
      modifies this`rows
      ensures SpecificPost(config, old(rows), router, n, rows, out)
    {
      if n in rows && rows[n].router.Some? {
        return Err(InUse(n, rows[n].router.value));
      }
      rows := Granted(rows, router, n);
      return Ok(n);
    }

    /** The VNIs with a row between two bounds, in ascending order. */
    method QueryVnis(start: int, end: int) returns (vnis: seq<int>)
      ensures forall i, j :: 0 <= i < j < |vnis| ==> vnis[i] < vnis[j]
      ensures forall v :: v in vnis <==> start <= v <= end && v in rows
    {
      vnis := [];
      var v := start;
      while v <= end
        invariant start <= v && forall i :: 0 <= i < |vnis| ==> vnis[i] < v
        invariant forall i, j :: 0 <= i < j < |vnis| ==> vnis[i] < vnis[j]
        invariant forall x :: x in vnis <==> start <= x < v && x <= end && x in rows
      {
        if v in rows {
          vnis := vnis + [v];
        }
        v := v + 1;
      }
    }

    method FindInRange(start: int, end: int) returns (v: Option<int>)
      requires start <= end
      ensures v.Some? ==> start <= v.value <= end && v.value !in rows && forall x :: start <= x < v.value ==> x in rows
      ensures v.None? ==> forall x :: start <= x <= end ==> x in rows
    {
      var candidate := start;
      var vnis := QueryVnis(start, end);
      assert forall k :: 0 <= k < |vnis| ==> vnis[k] in vnis;
      var i := 0;
      while i < |vnis|
        invariant 0 <= i <= |vnis|
        invariant start <= candidate <= end + 1
        invariant forall x :: start <= x < candidate ==> x in rows
        invariant forall k :: i <= k < |vnis| ==> vnis[k] >= candidate
        invariant forall k :: 0 <= k < i ==> vnis[k] < candidate
      {
        var vni := vnis[i];
        assert vni in vnis;
        if vni > candidate {
          assert candidate !in vnis;
          return Some(candidate);
        }
        if vni == candidate {
          candidate := candidate + 1;
        }
        if candidate > end {
          break;
        }
        i := i + 1;
      }
      if candidate <= end {
        assert candidate !in vnis;
        return Some(candidate);
      }
      return None;
    }

    /** The least VNI of the ranges that never had a row. */
    method FindNeverUsedVni(ranges: seq<Range>) returns (v: Option<int>)
      requires Canonical(ranges)
      ensures v.Some? ==> InRanges(v.value, ranges) && v.value !in rows
                          && forall x :: InRanges(x, ranges) && x !in rows ==> v.value <= x
      ensures v.None? ==> forall x :: InRanges(x, ranges) ==> x in rows
    {
      for i := 0 to |ranges|
        invariant forall k, x :: 0 <= k < i && Within(ranges[k], x) ==> x in rows
      {
        v := FindInRange(ranges[i].lo, ranges[i].hi);
        if v.Some? {
          assert Within(ranges[i], v.value);
          return;
        }
      }
      return None;
    }

    /** The released row between two bounds that was released first. */
    method OldestBetween(start: int, end: int) returns (v: Option<int>)
      ensures v.Some? ==> start <= v.value <= end && Released(rows, v.value)
                          && forall w :: start <= w <= end && Released(rows, w) ==> ReusedBefore(rows, v.value, w)
      ensures v.None? ==> forall w :: start <= w <= end ==> !Released(rows, w)
    {
      var vnis := QueryVnis(start, end);
      assert forall k :: 0 <= k < |vnis| ==> vnis[k] in vnis;
      v := None;
      for i := 0 to |vnis|
        invariant v.Some? ==> start <= v.value <= end && Released(rows, v.value)
                              && forall k :: 0 <= k < i && Released(rows, vnis[k]) ==>
                                   ReusedBefore(rows, v.value, vnis[k])
        invariant v.None? ==> forall k :: 0 <= k < i ==> !Released(rows, vnis[k])
      {
        if Released(rows, vnis[i]) && (v.None? || ReusedBefore(rows, vnis[i], v.value)) {
          v := Some(vnis[i]);
        }
      }
    }

    /** The released row of the ranges that was released first. */
    method FindReleasedAllocation(ranges: seq<Range>) returns (v: Option<int>)
      ensures v.Some? ==> InRanges(v.value, ranges) && Released(rows, v.value)
                          && forall w :: InRanges(w, ranges) && Released(rows, w) ==> ReusedBefore(rows, v.value, w)
      ensures v.None? ==> forall w :: InRanges(w, ranges) ==> !Released(rows, w)
    {
      v := None;
      for i := 0 to |ranges|
        invariant v.Some? ==> InRanges(v.value, ranges) && Released(rows, v.value)
                              && forall k, w :: 0 <= k < i && Within(ranges[k], w) && Released(rows, w)
                                                ==> ReusedBefore(rows, v.value, w)
        invariant v.None? ==> forall k, w :: 0 <= k < i && Within(ranges[k], w) ==> !Released(rows, w)
      {
        var u := OldestBetween(ranges[i].lo, ranges[i].hi);
        if u.Some? && (v.None? || ReusedBefore(rows, u.value, v.value)) {
          assert Within(ranges[i], u.value);
          v := u;
        }
      }
    }
  }

  class VniPlugin {
    const db: VniDbHelper

    constructor (config: seq<string>)
      ensures fresh(db) && db.config == config && db.rows == map[]
    {
      db := new VniDbHelper(config);
    }

    method ProcessRouterCreate(router: RouterId, setting: Option<string>, req: Request)
      returns (out: Result<Option<int>, Error>)
      modifies db`rows
      ensures CreatePost(db.config, old(db.rows), router, ModeOf(setting), req, db.rows, out)
      ensures var picks := req == Unspecified || req == Null || req == Vni(0);
              if Says(setting, "auto") || (Says(setting, "on") && !picks) then
                out != Ok(None) && AllocatePost(db.config, old(db.rows), router, req, db.rows, PlainResult(out))
              else db.rows == old(db.rows) && out == if picks || Says(setting, "on") then Ok(None) else Err(NotAllowed)
    {
      ModeMeaning(setting);
      AutoMeaning(req);
      var mode := ModeOf(setting);
      if mode == Off {
        if !IsAuto(req) {
          return Err(NotAllowed);
        }
        return Ok(None);
      }
      if mode == On && IsAuto(req) {
        return Ok(None);
      }
      var vniOut := db.AllocateVniForRouter(router, req);
      match vniOut
      case Ok(vni) => return Ok(Some(vni));
      case Err(e) => return Err(e);
    }

    method ProcessRouterDelete(router: RouterId)
      modifies db
      ensures ReleasePost(old(db.rows), router, old(db.clock), db.rows)
      ensures db.clock > old(db.clock)
    {
      db.ReleaseVniForRouter(router);
    }
  }
}
