/** Quota admission (c3r/api_access.py:233-255): a swept table of counters per key and second
    and per project and aligned minute, against counting the whole admitted history. The clock
    is read in whole seconds; one BEGIN IMMEDIATE transaction is one step. */
module AccessQuota {
  import opened Schema

  datatype Principal = Principal(tenantId: string, projectId: string, keyId: string)

  datatype Rates = Rates(rpm: int, keyRps: int)

  predicate Bounded(r: Rates) { 1 <= r.rpm <= 100_000 && 1 <= r.keyRps <= 10_000 }

  /** What `create_project` lets through. */
  type Limits = r: Rates | Bounded(r) witness Rates(60, 10)

  type Projects = map<(string, string), Limits>

  datatype Kind = PerKey | PerProject

  /** The primary key of the `quota` table. */
  datatype Slot = Slot(kind: Kind, tenantId: string, projectId: string, keyId: string, window: int)

  type Table = map<Slot, nat>

  const SWEEP_SECONDS := 120

  function KeySlot(p: Principal, now: int): Slot {
    Slot(PerKey, p.tenantId, p.projectId, p.keyId, now)
  }

  function ProjectSlot(p: Principal, now: int): Slot {
    Slot(PerProject, p.tenantId, p.projectId, "", now / 60 * 60)
  }

  predicate Full(quota: Table, slot: Slot, limit: nat) {
    slot in quota && quota[slot] >= limit
  }

  /** The decision of `admit` on the table. */
  predicate TableAdmits(projects: Projects, quota: Table, p: Principal, now: int) {
    && (p.tenantId, p.projectId) in projects
    && var limits := projects[(p.tenantId, p.projectId)];
    && !Full(quota, KeySlot(p, now), limits.keyRps) && !Full(quota, ProjectSlot(p, now), limits.rpm)
  }

  /** `INSERT ... ON CONFLICT DO UPDATE SET count=count+1`. */
  function Bump(quota: Table, slot: Slot): Table {
    quota[slot := if slot in quota then quota[slot] + 1 else 1]
  }

  /** `DELETE FROM quota WHERE window < ?`. */
  function Sweep(quota: Table, bound: int): Table {
    map slot | slot in quota && slot.window >= bound :: quota[slot]
  }

  function AfterAdmit(quota: Table, p: Principal, now: int): Table {
    Sweep(Bump(Bump(quota, KeySlot(p, now)), ProjectSlot(p, now)), now - SWEEP_SECONDS)
  }

  class AccessStore {
    var projects: Projects
    var quota: Table

    constructor ()
      ensures projects == map[] && quota == map[]
    {
      projects, quota := map[], map[];
    }

    /** `create_project`, for identifiers already checked; false is the raised error. */
    method CreateProject(tenantId: string, projectId: string, rates: Rates) returns (created: bool)
      modifies this`projects
      ensures created <==> Bounded(rates) && (tenantId, projectId) !in old(projects)
      ensures projects == if created then old(projects)[(tenantId, projectId) := rates] else old(projects)
    {
      if !Bounded(rates) || (tenantId, projectId) in projects {
        return false;
      }
      projects := projects[(tenantId, projectId) := rates];
      return true;
    }

    /** `admit`. */
    method Admit(p: Principal, now: int) returns (admitted: bool)
      modifies this`quota
      ensures admitted == TableAdmits(projects, old(quota), p, now)
      ensures quota == if admitted then AfterAdmit(old(quota), p, now) else old(quota)
    {
      if (p.tenantId, p.projectId) !in projects {
        return false;
      }
      var limits := projects[(p.tenantId, p.projectId)];
      var requests := [(KeySlot(p, now), limits.keyRps), (ProjectSlot(p, now), limits.rpm)];
      for i := 0 to 2
        invariant quota == old(quota)
        invariant forall j :: 0 <= j < i ==> !Full(quota, requests[j].0, requests[j].1)
      {
        if requests[i].0 in quota && quota[requests[i].0] >= requests[i].1 {
          assert Full(quota, requests[i].0, requests[i].1);
          return false;
        }
      }
      assert !Full(quota, requests[0].0, requests[0].1) && !Full(quota, requests[1].0, requests[1].1);
      for i := 0 to 2
        invariant i == 0 ==> quota == old(quota)
        invariant i == 1 ==> quota == Bump(old(quota), KeySlot(p, now))
        invariant i == 2 ==> quota == Bump(Bump(old(quota), KeySlot(p, now)), ProjectSlot(p, now))
      {
        quota := Bump(quota, requests[i].0);
      }
      quota := Sweep(quota, now - SWEEP_SECONDS);
      return true;
    }
  }

  // ----- Counting the history instead

  datatype Request = Request(principal: Principal, now: int)

  predicate Uses(g: Request, slot: Slot) {
    slot == KeySlot(g.principal, g.now) || slot == ProjectSlot(g.principal, g.now)
  }

  function Count(history: seq<Request>, slot: Slot): nat {
    if history == [] then 0
    else Count(history[..|history| - 1], slot) + if Uses(history[|history| - 1], slot) then 1 else 0
  }

  /** The decision that counting every admitted request would give. */
  predicate HistoryAdmits(projects: Projects, history: seq<Request>, p: Principal, now: int) {
    && (p.tenantId, p.projectId) in projects
    && var limits := projects[(p.tenantId, p.projectId)];
    && Count(history, KeySlot(p, now)) < limits.keyRps && Count(history, ProjectSlot(p, now)) < limits.rpm
  }

  datatype World = World(quota: Table, history: seq<Request>)

  function Step(projects: Projects, w: World, r: Request): World {
    if TableAdmits(projects, w.quota, r.principal, r.now)
    then World(AfterAdmit(w.quota, r.principal, r.now), w.history + [r]) else w
  }

  /** The table and the admitted requests after `requests`. */
  function Run(projects: Projects, requests: seq<Request>): World {
    if requests == [] then World(map[], [])
    else Step(projects, Run(projects, requests[..|requests| - 1]), requests[|requests| - 1])
  }

  /** How far, in whole seconds, the clock may read below an earlier reading. */
  const TOLERANCE := 61

  predicate SteadyBy(requests: seq<Request>, tolerance: int) {
    forall i, j :: 0 <= i < j < |requests| ==> requests[j].now >= requests[i].now - tolerance
  }

  predicate Steady(requests: seq<Request>) { SteadyBy(requests, TOLERANCE) }

  /** No admitted request is more than the tolerance ahead of `now`. */
  predicate NotFarAhead(history: seq<Request>, now: int) {
    forall i :: 0 <= i < |history| ==> history[i].now <= now + TOLERANCE
  }

  predicate Swept(history: seq<Request>, slot: Slot) {
    exists i :: 0 <= i < |history| && slot.window < history[i].now - SWEEP_SECONDS
  }

  /** The table holds the true count of every slot that no admitted request has swept. */
  ghost predicate Agrees(w: World) {
    && (forall slot :: slot in w.quota ==> w.quota[slot] == Count(w.history, slot))
    && (forall slot :: slot !in w.quota ==> Count(w.history, slot) == 0 || Swept(w.history, slot))
  }

  /** The slots a request at `now` uses have not been swept. */
  lemma OwnSlotsKept(history: seq<Request>, p: Principal, now: int)
    requires NotFarAhead(history, now)
    ensures !Swept(history, KeySlot(p, now)) && !Swept(history, ProjectSlot(p, now))
  {
  }

  /** The table decides as counting would. */
  lemma TableDecidesAsHistory(projects: Projects, w: World, p: Principal, now: int)
    requires Agrees(w) && NotFarAhead(w.history, now)
    ensures TableAdmits(projects, w.quota, p, now) <==> HistoryAdmits(projects, w.history, p, now)
  {
    OwnSlotsKept(w.history, p, now);
  }

  lemma CountGrows(history: seq<Request>, r: Request, slot: Slot)
    ensures Count(history + [r], slot) == Count(history, slot) + if Uses(r, slot) then 1 else 0
  {
    assert (history + [r])[..|history|] == history;
  }

  lemma SweptGrows(history: seq<Request>, r: Request, slot: Slot)
    ensures Swept(history + [r], slot) <==> Swept(history, slot) || slot.window < r.now - SWEEP_SECONDS
  {
    if Swept(history, slot) {
      var i :| 0 <= i < |history| && slot.window < history[i].now - SWEEP_SECONDS;
      assert (history + [r])[i] == history[i];
    }
    if slot.window < r.now - SWEEP_SECONDS {
      assert (history + [r])[|history|] == r;
    }
  }

  /** Counting, bumping and sweeping keep the table in agreement with the history. */
  lemma AdmitKeepsAgreement(w: World, r: Request)
    requires Agrees(w) && NotFarAhead(w.history, r.now)
    ensures Agrees(World(AfterAdmit(w.quota, r.principal, r.now), w.history + [r]))
  {
    OwnSlotsKept(w.history, r.principal, r.now);
    var quota, history := AfterAdmit(w.quota, r.principal, r.now), w.history + [r];
    forall slot
      ensures slot in quota ==> quota[slot] == Count(history, slot)
      ensures slot !in quota ==> Count(history, slot) == 0 || Swept(history, slot)
    {
      CountGrows(w.history, r, slot);
      SweptGrows(w.history, r, slot);
    }
  }

  lemma {:induction false} HistoryFromRequests(projects: Projects, requests: seq<Request>)
    ensures forall g :: g in Run(projects, requests).history ==> g in requests
  {
    if requests != [] {
      HistoryFromRequests(projects, requests[..|requests| - 1]);
      assert requests == requests[..|requests| - 1] + [requests[|requests| - 1]];
    }
  }

  lemma LastNotFarAhead(projects: Projects, requests: seq<Request>)
    requires Steady(requests) && requests != []
    ensures NotFarAhead(Run(projects, requests[..|requests| - 1]).history, requests[|requests| - 1].now)
  {
    var init := requests[..|requests| - 1];
    HistoryFromRequests(projects, init);
    var history := Run(projects, init).history;
    forall i | 0 <= i < |history|
      ensures history[i].now <= requests[|requests| - 1].now + TOLERANCE
    {
      assert history[i] in init;
      var j :| 0 <= j < |init| && init[j] == history[i];
      assert requests[j] == init[j];
    }
  }

  lemma {:induction false} SteadyRunAgrees(projects: Projects, requests: seq<Request>)
    requires Steady(requests)
    ensures Agrees(Run(projects, requests))
  {
    if requests != [] {
      var init, r := requests[..|requests| - 1], requests[|requests| - 1];
      SteadyRunAgrees(projects, init);
      LastNotFarAhead(projects, requests);
      if TableAdmits(projects, Run(projects, init).quota, r.principal, r.now) {
        AdmitKeepsAgreement(Run(projects, init), r);
      }
    }
  }

  /** The history when every request is decided by counting. */
  function Counted(projects: Projects, requests: seq<Request>): seq<Request> {
    if requests == [] then []
    else
      var earlier, r := Counted(projects, requests[..|requests| - 1]), requests[|requests| - 1];
      if HistoryAdmits(projects, earlier, r.principal, r.now) then earlier + [r] else earlier
  }

  /** With a clock that never reads more than the tolerance below an earlier reading, the swept
      table admits exactly the requests that counting the whole history admits. */
  lemma {:induction false} SweptTableIsExact(projects: Projects, requests: seq<Request>)
    requires Steady(requests)
    ensures Run(projects, requests).history == Counted(projects, requests)
  {
    if requests != [] {
      var init, r := requests[..|requests| - 1], requests[|requests| - 1];
      SweptTableIsExact(projects, init);
      SteadyRunAgrees(projects, init);
      LastNotFarAhead(projects, requests);
      TableDecidesAsHistory(projects, Run(projects, init), r.principal, r.now);
    }
  }

  // ----- Limits and independence

  /** The limit that governs a slot. */
  function LimitOf(limits: Limits, slot: Slot): nat {
    if slot.kind == PerKey then limits.keyRps else limits.rpm
  }

  /** No slot is ever used beyond its limit: per key and second, per project and minute. */
  lemma {:induction false} LimitsHold(projects: Projects, requests: seq<Request>, slot: Slot)
    requires (slot.tenantId, slot.projectId) in projects
    ensures Count(Counted(projects, requests), slot) <= LimitOf(projects[(slot.tenantId, slot.projectId)], slot)
  {
    if requests != [] {
      LimitsHold(projects, requests[..|requests| - 1], slot);
      CountGrows(Counted(projects, requests[..|requests| - 1]), requests[|requests| - 1], slot);
    }
  }

  /** The same bound for the swept table: a key is admitted at most `keyRps` times in a second
      and a project at most `rpm` times in an aligned minute. */
  lemma EveryLimitHolds(projects: Projects, requests: seq<Request>, slot: Slot)
    requires Steady(requests) && (slot.tenantId, slot.projectId) in projects
    ensures Count(Run(projects, requests).history, slot) <= LimitOf(projects[(slot.tenantId, slot.projectId)], slot)
  {
    SweptTableIsExact(projects, requests);
    LimitsHold(projects, requests, slot);
  }

  predicate InSpan(g: Request, tenantId: string, projectId: string, start: int) {
    g.principal.tenantId == tenantId && g.principal.projectId == projectId && start <= g.now <= start + 60
  }

  function SpanCount(history: seq<Request>, tenantId: string, projectId: string, start: int): nat {
    if history == [] then 0
    else SpanCount(history[..|history| - 1], tenantId, projectId, start)
         + if InSpan(history[|history| - 1], tenantId, projectId, start) then 1 else 0
  }

  function MinuteSlot(tenantId: string, projectId: string, now: int): Slot {
    Slot(PerProject, tenantId, projectId, "", now / 60 * 60)
  }

  lemma SpanMinute(now: int, start: int)
    ensures start <= now <= start + 60 ==> now / 60 * 60 == start / 60 * 60 || now / 60 * 60 == (start + 60) / 60 * 60
  {
  }

  lemma {:induction false} SpanTouchesTwoMinutes(history: seq<Request>, tenantId: string, projectId: string, start: int)
    ensures SpanCount(history, tenantId, projectId, start)
         <= Count(history, MinuteSlot(tenantId, projectId, start)) + Count(history, MinuteSlot(tenantId, projectId, start + 60))
  {
    if history != [] {
      SpanTouchesTwoMinutes(history[..|history| - 1], tenantId, projectId, start);
      SpanMinute(history[|history| - 1].now, start);
    }
  }

  /** In any 60 seconds, both ends included, a project is admitted at most twice its rate. */
  lemma SpanBound(projects: Projects, requests: seq<Request>, tenantId: string, projectId: string, start: int)
    requires Steady(requests) && (tenantId, projectId) in projects
    ensures SpanCount(Run(projects, requests).history, tenantId, projectId, start) <= 2 * projects[(tenantId, projectId)].rpm
  {
    SweptTableIsExact(projects, requests);
    SpanTouchesTwoMinutes(Run(projects, requests).history, tenantId, projectId, start);
    LimitsHold(projects, requests, MinuteSlot(tenantId, projectId, start));
    LimitsHold(projects, requests, MinuteSlot(tenantId, projectId, start + 60));
  }

  predicate Own(r: Request, tenantId: string, projectId: string) {
    r.principal.tenantId == tenantId && r.principal.projectId == projectId
  }

  function OwnOnly(requests: seq<Request>, tenantId: string, projectId: string): seq<Request> {
    if requests == [] then []
    else
      var own, r := OwnOnly(requests[..|requests| - 1], tenantId, projectId), requests[|requests| - 1];
      if Own(r, tenantId, projectId) then own + [r] else own
  }

  lemma {:induction false} CountOwnOnly(history: seq<Request>, slot: Slot)
    ensures Count(OwnOnly(history, slot.tenantId, slot.projectId), slot) == Count(history, slot)
  {
    if history != [] {
      var init, r := history[..|history| - 1], history[|history| - 1];
      CountOwnOnly(init, slot);
      CountGrows(OwnOnly(init, slot.tenantId, slot.projectId), r, slot);
    }
  }

  lemma OwnOnlyStep(history: seq<Request>, r: Request, tenantId: string, projectId: string)
    ensures OwnOnly(history + [r], tenantId, projectId)
         == var own := OwnOnly(history, tenantId, projectId); if Own(r, tenantId, projectId) then own + [r] else own
  {
    assert (history + [r])[..|history|] == history;
  }

  lemma CountedStep(projects: Projects, requests: seq<Request>, r: Request)
    ensures Counted(projects, requests + [r])
         == var earlier := Counted(projects, requests);
            if HistoryAdmits(projects, earlier, r.principal, r.now) then earlier + [r] else earlier
  {
    assert (requests + [r])[..|requests|] == requests;
  }

  /** What a project is admitted does not depend on anyone else's traffic: dropping all other
      requests leaves its admitted requests unchanged. */
  lemma {:induction false} OthersDoNotMatter(projects: Projects, requests: seq<Request>, tenantId: string, projectId: string)
    ensures OwnOnly(Counted(projects, requests), tenantId, projectId)
         == Counted(projects, OwnOnly(requests, tenantId, projectId))
  {
    if requests != [] {
      var init, r := requests[..|requests| - 1], requests[|requests| - 1];
      var all := Counted(projects, init);
      OthersDoNotMatter(projects, init, tenantId, projectId);
      OwnOnlyStep(all, r, tenantId, projectId);
      if Own(r, tenantId, projectId) {
        CountOwnOnly(all, KeySlot(r.principal, r.now));
        CountOwnOnly(all, ProjectSlot(r.principal, r.now));
        CountedStep(projects, OwnOnly(init, tenantId, projectId), r);
      }
    }
  }

  lemma {:induction false} OwnOnlySteady(requests: seq<Request>, tenantId: string, projectId: string)
    requires Steady(requests)
    ensures Steady(OwnOnly(requests, tenantId, projectId))
    ensures forall r :: r in OwnOnly(requests, tenantId, projectId) ==> r in requests
  {
    if requests != [] {
      var init, r := requests[..|requests| - 1], requests[|requests| - 1];
      OwnOnlySteady(init, tenantId, projectId);
      var own := OwnOnly(init, tenantId, projectId);
      forall i | 0 <= i < |own|
        ensures r.now >= own[i].now - TOLERANCE
      {
        assert own[i] in init;
        var j :| 0 <= j < |init| && init[j] == own[i];
        assert requests[j] == own[i];
      }
      assert requests == init + [r];
    }
  }

  /** The same for the swept table. */
  lemma TenantsAreIsolated(projects: Projects, requests: seq<Request>, tenantId: string, projectId: string)
    requires Steady(requests)
    ensures OwnOnly(Run(projects, requests).history, tenantId, projectId)
         == Run(projects, OwnOnly(requests, tenantId, projectId)).history
  {
    SweptTableIsExact(projects, requests);
    OwnOnlySteady(requests, tenantId, projectId);
    SweptTableIsExact(projects, OwnOnly(requests, tenantId, projectId));
    OthersDoNotMatter(projects, requests, tenantId, projectId);
  }

  function TwoProjects(a: Principal, b: Principal): Projects {
    map[(a.tenantId, a.projectId) := Rates(1, 1), (b.tenantId, b.projectId) := Rates(1, 1)]
  }

  /** A request of `a`, a request of `b` that sweeps its minute, and a late second one of `a`. */
  function FallingClock(a: Principal, b: Principal): seq<Request> {
    [Request(a, 0), Request(b, 121), Request(a, 59)]
  }

  lemma RunStep(projects: Projects, requests: seq<Request>, r: Request)
    ensures Run(projects, requests + [r]) == Step(projects, Run(projects, requests), r)
  {
    assert (requests + [r])[..|requests|] == requests;
  }

  lemma RunOfThree(projects: Projects, x: Request, y: Request, z: Request)
    ensures Run(projects, [x, y, z]) == Step(projects, Step(projects, Step(projects, World(map[], []), x), y), z)
  {
    RunStep(projects, [], x);
    RunStep(projects, [x], y);
    RunStep(projects, [x, y], z);
    assert [] + [x] == [x] && [x] + [y] == [x, y] && [x, y] + [z] == [x, y, z];
  }

  lemma CountedOfThree(projects: Projects, x: Request, y: Request, z: Request)
    requires HistoryAdmits(projects, [], x.principal, x.now) && HistoryAdmits(projects, [x], y.principal, y.now)
    requires !HistoryAdmits(projects, [x, y], z.principal, z.now)
    ensures Counted(projects, [x, y, z]) == [x, y]
  {
    CountedStep(projects, [], x);
    CountedStep(projects, [x], y);
    CountedStep(projects, [x, y], z);
    assert [] + [x] == [x] && [x] + [y] == [x, y] && [x, y] + [z] == [x, y, z];
  }

  lemma TableForgets(a: Principal, b: Principal)
    requires (a.tenantId, a.projectId) != (b.tenantId, b.projectId)
    ensures var projects, quota := TwoProjects(a, b), AfterAdmit(map[], a, 0);
            && TableAdmits(projects, map[], a, 0) && TableAdmits(projects, quota, b, 121)
            && TableAdmits(projects, AfterAdmit(quota, b, 121), a, 59)
  {
  }

  lemma HistoryRemembers(a: Principal, b: Principal)
    requires (a.tenantId, a.projectId) != (b.tenantId, b.projectId)
    ensures var projects, x, y := TwoProjects(a, b), Request(a, 0), Request(b, 121);
            && HistoryAdmits(projects, [], a, 0) && HistoryAdmits(projects, [x], b, 121) && !HistoryAdmits(projects, [x, y], a, 59)
  {
    var x, y := Request(a, 0), Request(b, 121);
    assert [] + [x] == [x] && [x] + [y] == [x, y];
    CountGrows([], x, KeySlot(b, 121));
    CountGrows([], x, ProjectSlot(b, 121));
    CountGrows([], x, ProjectSlot(a, 59));
    CountGrows([x], y, ProjectSlot(a, 59));
  }

  /** One second more of tolerance is too much: a clock that drops by 62 seconds reaches a minute
      whose counter was swept, and a request over the limit is admitted. */
  lemma SixtyTwoSecondsIsTooMuch(a: Principal, b: Principal)
    requires (a.tenantId, a.projectId) != (b.tenantId, b.projectId)
    ensures SteadyBy(FallingClock(a, b), 62)
    ensures Run(TwoProjects(a, b), FallingClock(a, b)).history == FallingClock(a, b)
    ensures Counted(TwoProjects(a, b), FallingClock(a, b)) == FallingClock(a, b)[..2]
  {
    var projects, x, y, z := TwoProjects(a, b), Request(a, 0), Request(b, 121), Request(a, 59);
    TableForgets(a, b);
    HistoryRemembers(a, b);
    AllAdmitted(projects, x, y, z);
    CountedOfThree(projects, x, y, z);
    assert FallingClock(a, b)[..2] == [x, y];
  }

  lemma AllAdmitted(projects: Projects, x: Request, y: Request, z: Request)
    requires TableAdmits(projects, map[], x.principal, x.now)
    requires var quota := AfterAdmit(map[], x.principal, x.now);
             TableAdmits(projects, quota, y.principal, y.now)
             && TableAdmits(projects, AfterAdmit(quota, y.principal, y.now), z.principal, z.now)
    ensures Run(projects, [x, y, z]).history == [x, y, z]
  {
    RunOfThree(projects, x, y, z);
    assert [] + [x] == [x] && [x] + [y] == [x, y] && [x, y] + [z] == [x, y, z];
  }

  /** The swept table decides every run of a given tolerance as counting would if and only if the
      tolerance is at most 61 seconds. */
  lemma ExactUpToSixtyOne(tolerance: int)
    ensures (forall projects: Projects, requests: seq<Request> ::
               SteadyBy(requests, tolerance) ==> Run(projects, requests).history == Counted(projects, requests))
       <==> tolerance <= TOLERANCE
  {
    if tolerance <= TOLERANCE {
      forall projects: Projects, requests: seq<Request> | SteadyBy(requests, tolerance)
        ensures Run(projects, requests).history == Counted(projects, requests)
      {
        SweptTableIsExact(projects, requests);
      }
    } else {
      var a, b := Principal("a", "", ""), Principal("b", "", "");
      assert a.tenantId[0] != b.tenantId[0];
      SixtyTwoSecondsIsTooMuch(a, b);
      assert SteadyBy(FallingClock(a, b), tolerance);
    }
  }

  // ----- The limits in terms of requests

  /** How many requests of one key were admitted in one second. */
  function KeyCount(history: seq<Request>, p: Principal, second: int): nat {
    if history == [] then 0
    else
      var r := history[|history| - 1];
      KeyCount(history[..|history| - 1], p, second)
      + if r.now == second && r.principal.tenantId == p.tenantId && r.principal.projectId == p.projectId && r.principal.keyId == p.keyId then 1 else 0
  }

  /** How many requests of one project were admitted in one minute of the clock. */
  function MinuteCount(history: seq<Request>, tenantId: string, projectId: string, minute: int): nat {
    if history == [] then 0
    else
      var r := history[|history| - 1];
      MinuteCount(history[..|history| - 1], tenantId, projectId, minute)
      + if minute * 60 <= r.now < minute * 60 + 60 && r.principal.tenantId == tenantId && r.principal.projectId == projectId then 1 else 0
  }

  lemma SameMinute(now: int, other: int)
    ensures now / 60 * 60 == other / 60 * 60 <==> other / 60 * 60 <= now < other / 60 * 60 + 60
  {
  }

  lemma {:induction false} KeySlotCounts(history: seq<Request>, p: Principal, second: int)
    ensures Count(history, KeySlot(p, second)) == KeyCount(history, p, second)
  {
    if history != [] {
      KeySlotCounts(history[..|history| - 1], p, second);
    }
  }

  lemma {:induction false} ProjectSlotCounts(history: seq<Request>, p: Principal, now: int, minute: int)
    requires minute == now / 60
    ensures Count(history, ProjectSlot(p, now)) == MinuteCount(history, p.tenantId, p.projectId, minute)
  {
    if history != [] {
      ProjectSlotCounts(history[..|history| - 1], p, now, minute);
      SameMinute(history[|history| - 1].now, now);
    }
  }

  /** With a steady clock a request is admitted exactly when its project exists, its key has been
      admitted fewer than `keyRps` times in this second, and its project fewer than `rpm` times in this
      minute. */
  lemma AdmittedExactlyWhen(projects: Projects, requests: seq<Request>, r: Request)
    requires Steady(requests + [r])
    ensures var history, project := Run(projects, requests).history, (r.principal.tenantId, r.principal.projectId);
            TableAdmits(projects, Run(projects, requests).quota, r.principal, r.now) <==>
              && project in projects
              && KeyCount(history, r.principal, r.now) < projects[project].keyRps
              && MinuteCount(history, r.principal.tenantId, r.principal.projectId, r.now / 60) < projects[project].rpm
  {
    var history := Run(projects, requests).history;
    assert (requests + [r])[..|requests|] == requests;
    SteadyPrefix(requests, r);
    SteadyRunAgrees(projects, requests);
    LastNotFarAhead(projects, requests + [r]);
    TableDecidesAsHistory(projects, Run(projects, requests), r.principal, r.now);
    KeySlotCounts(history, r.principal, r.now);
    ProjectSlotCounts(history, r.principal, r.now, r.now / 60);
  }

  lemma SteadyPrefix(requests: seq<Request>, r: Request)
    requires Steady(requests + [r])
    ensures Steady(requests)
  {
    forall i, j | 0 <= i < j < |requests|
      ensures requests[j].now >= requests[i].now - TOLERANCE
    {
      assert (requests + [r])[i] == requests[i] && (requests + [r])[j] == requests[j];
    }
  }

  /** No key is admitted more than `keyRps` times in a second, and no project more than `rpm` times in a
      minute. */
  lemma RatesHold(projects: Projects, requests: seq<Request>, p: Principal, second: int)
    requires Steady(requests) && (p.tenantId, p.projectId) in projects
    ensures var history, limits := Run(projects, requests).history, projects[(p.tenantId, p.projectId)];
            KeyCount(history, p, second) <= limits.keyRps && MinuteCount(history, p.tenantId, p.projectId, second / 60) <= limits.rpm
  {
    var history := Run(projects, requests).history;
    EveryLimitHolds(projects, requests, KeySlot(p, second));
    EveryLimitHolds(projects, requests, ProjectSlot(p, second));
    KeySlotCounts(history, p, second);
    ProjectSlotCounts(history, p, second, second / 60);
  }
}
