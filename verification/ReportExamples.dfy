/** Reports of single stores that show where a plan misleads and that the floors of the trust gate are reached. */
module ReportExamples {
  import opened Text
  import opened Sums
  import opened Json
  import opened Reports
  import opened ReportContract
  import opened StoreReports
  import opened StoreReportChecks
  import opened Gates
  import Store = LocalStore
  import Runs = StoreRuns
  import Plans = RepairPlans

  // ---------- the surroundings ----------

  const EARLY := "2026-01-01T00:00:00+00:00"
  const LATE := "2026-01-01T00:01:00+00:00"

  /** Two instants one minute apart. */
  function Clock(): Iso {
    (s: string) => if s == EARLY then Some(0) else if s == LATE then Some(60000) else None
  }

  lemma ClockReads()
    ensures ParseInstant(Clock(), Str(EARLY)) == Some(0) && ParseInstant(Clock(), Str(LATE)) == Some(60000)
  {
    assert EARLY[15] == '0' && LATE[15] == '1';
    assert EARLY[|EARLY| - 1] == '0' && LATE[|LATE| - 1] == '0';
  }

  function HostWith(free: nat, ratio: real): Host {
    Host(LATE, 60000, 1, "sha256:0", "linux", "/var/lib", free, 100, ratio)
  }

  /** Half of the disk is free, or less than a tenth. */
  const Roomy := HostWith(50, 0.5)
  const Tight := HostWith(8, 0.08)

  lemma HostsAreOk()
    ensures HostOk(Clock(), Roomy) && HostOk(Clock(), Tight)
  {
    ClockReads();
    assert "sha256:0"[..7] == "sha256:";
  }

  /** An initialised store with this migration state and this journal. */
  function StoreWith(migration: string, lines: seq<Store.Line>): Store.Files {
    Store.Files(Some(Store.NewManifest.(migrationState := migration)), Some(lines), map[], true)
  }

  const Waiting := Store.Event("e", Store.Add, Some("normal"), None, None, false)

  /** A journal of events that were never applied. */
  function Unfinished(n: nat): seq<Store.Line> {
    if n == 0 then [] else Unfinished(n - 1) + [Store.Json(Waiting)]
  }

  function Example(h: Host, migration: string, lines: seq<Store.Line>): Report {
    ReportOf(Clock(), h, StoreWith(migration, lines), 0)
  }

  lemma {:induction false} UnfinishedEvents(n: nat)
    ensures var es := Store.EventsOf(Unfinished(n));
            CountIf(es, Store.Unapplied) == n && CountIf(es, Store.IsCorrupt) == 0
  {
    if n > 0 {
      UnfinishedEvents(n - 1);
      var lines, es := Unfinished(n), Store.EventsOf(Unfinished(n));
      assert lines[..|lines| - 1] == Unfinished(n - 1);
      assert es == Store.EventsOf(Unfinished(n - 1)) + [Waiting];
    }
  }

  lemma DamagedEvents(n: nat)
    ensures var es := Store.EventsOf(Unfinished(n) + [Store.Corrupt]);
            CountIf(es, Store.Unapplied) == n && CountIf(es, Store.IsCorrupt) == 1
  {
    UnfinishedEvents(n);
    var lines := Unfinished(n) + [Store.Corrupt];
    assert lines[..|lines| - 1] == Unfinished(n);
    var es := Store.EventsOf(lines);
    assert es == Store.EventsOf(Unfinished(n)) + [Store.CorruptEvent(|lines|)];
  }

  // ---------- what such a report says ----------

  lemma StoreWithFacts(migration: string, lines: seq<Store.Line>)
    ensures var f := StoreWith(migration, lines);
            && f.manifest.Some? && f.directories
            && Store.SummaryManifest(f).lanes == Store.DEFAULT_LANES && Store.SummaryManifest(f).migrationState == migration
            && Store.SummaryEvents(f) == Store.EventsOf(lines)
            && forall l :: l in Store.DEFAULT_LANES ==> l in Store.SummaryManifest(f).lanes
  {
  }

  lemma ExampleIs(h: Host, migration: string, lines: seq<Store.Line>)
    ensures Example(h, migration, lines) == ReportOf(Clock(), h, StoreWith(migration, lines), 0)
    ensures Example(h, migration, lines) == StoreReport(Clock(), h, Store.Summarized(StoreWith(migration, lines), 0))
  {
    hide ReportOf, StoreWith, StoreReport;
    ReportOfIs(Clock(), h, StoreWith(migration, lines), 0);
  }

  /** Everything the gates and the plan ask of it. */
  lemma ExampleFacts(h: Host, migration: string, lines: seq<Store.Line>, now: int)
    requires HostOk(Clock(), h)
    ensures var r, es := Example(h, migration, lines), Store.EventsOf(lines);
            var u, lanes := CountIf(es, Store.Unapplied), |Store.SummaryOrder(StoreWith(migration, lines))|;
            && (ReportErrors(Clock(), r) == [] <==> migration in MIGRATION_STATES)
            && MadeFrom(r, h, Store.Summarized(StoreWith(migration, lines), 0))
            && HeartbeatOk(Clock(), now, r) && CleanOpen(r) && HasLane(r, "normal") && !Attested(r)
            && (u <= 90 ==> LagOk(r)) && (u >= 100 ==> !LagOk(r))
            && lanes >= 10 && TotalLag(LanesOf(r)) == lanes * u
            && (ShadowFailures(StoresOf(r)) == [] <==> CountIf(es, Store.IsCorrupt) == 0)
            && PressureOf(r) == Str(DiskPressureText(h.freeRatio))
            && (Plans.DiskWatched(r) <==> h.freeRatio <= 0.20)
  {
    hide *;
    var f := StoreWith(migration, lines);
    var r, s := Example(h, migration, lines), Store.Summarized(f, 0);
    StoreWithFacts(migration, lines);
    ExampleIs(h, migration, lines);
    StoreReportIsValid(Clock(), h, f, 0);
    DefaultLanesThere(f);
    DefaultsListed(f);
    ReportIsMadeFrom(Clock(), h, s);
    MadeFromParts(r, h, s);
    FreshIsAlive(Clock(), now, r, h, s);
    NormalIsDefault();
    DefaultLaneIsListed(r, h, f, 0, "normal");
    NeverAttested(r);
    LagThresholds(Clock(), h, f, 0);
    ExampleLag(r, h, f);
    ShadowExactly(r, h, f, 0);
    PressureText(r, h);
    WatchedExactly(r, h.freeRatio);
  }

  lemma NormalIsDefault()
    ensures "normal" in Store.DEFAULT_LANES
  {
    assert Store.DEFAULT_LANES[0] == "normal";
  }

  lemma ExampleLag(r: Report, h: Host, f: Store.Files)
    requires MadeFrom(r, h, Store.Summarized(f, 0))
    ensures TotalLag(LanesOf(r)) == |Store.SummaryOrder(f)| * CountIf(Store.SummaryEvents(f), Store.Unapplied)
  {
    hide *;
    var s := Store.Summarized(f, 0);
    MadeFromParts(r, h, s);
    SummaryLags(f, 0);
    SummaryIsGood(f, 0);
    LagSum(s.lanes, CountIf(Store.SummaryEvents(f), Store.Unapplied));
  }

  // ---------- sections replaced ----------

  /** Everything read outside the two sections is the same. */
  predicate SameElsewhere(r: Report, x: Report) {
    && r.Keys <= x.Keys
    && Get(x, "schema") == Get(r, "schema") && Get(x, "generated_at") == Get(r, "generated_at")
    && Get(x, "identity") == Get(r, "identity") && Get(x, "collection") == Get(r, "collection")
    && Get(x, "stores") == Get(r, "stores") && Get(x, "lanes") == Get(r, "lanes")
    && Get(x, "policy") == Get(r, "policy") && Get(x, "invariants") == Get(r, "invariants")
    && Get(x, "attestation") == Get(r, "attestation")
    && LanesOf(x) == LanesOf(r) && StoresOf(x) == StoresOf(r)
  }

  function WithRuntime(r: Report, runtime: Fields): Report {
    r["runtime" := Obj(runtime)]
  }

  function WithDisk(r: Report, disk: Fields): Report {
    r["resources" := Obj(map["disk" := Obj(disk)])]
  }

  lemma RuntimeReplaced(r: Report, runtime: Fields)
    ensures var x := WithRuntime(r, runtime);
            SameElsewhere(r, x) && Get(x, "runtime") == Obj(runtime) && RuntimeOf(x) == runtime && DiskOf(x) == DiskOf(r)
  {
  }

  lemma DiskReplaced(r: Report, disk: Fields)
    ensures var x := WithDisk(r, disk);
            SameElsewhere(r, x) && Get(x, "runtime") == Get(r, "runtime") && RuntimeOf(x) == RuntimeOf(r) && DiskOf(x) == Obj(disk)
  {
  }

  lemma StaysValid(iso: Iso, r: Report, x: Report)
    requires Valid(iso, r) && SameElsewhere(r, x) && GoodRuntime(iso, Get(x, "runtime")) && GoodDisk(DiskOf(x))
    ensures Valid(iso, x)
  {
    hide GoodRuntime, GoodDisk, GoodIdentity, GoodCollection, GoodStore, GoodLane, GoodPolicy, GoodInvariant, UniqueNames, DiskOf;
  }

  lemma ValidParts(iso: Iso, r: Report)
    requires Valid(iso, r)
    ensures GoodRuntime(iso, Get(r, "runtime")) && GoodDisk(DiskOf(r))
  {
    hide GoodRuntime, GoodDisk, GoodIdentity, GoodCollection, GoodStore, GoodLane, GoodPolicy, GoodInvariant, UniqueNames, DiskOf;
  }

  lemma SameReadings(r: Report, x: Report)
    requires SameElsewhere(r, x)
    ensures LagOk(x) <==> LagOk(r)
    ensures Attested(x) <==> Attested(r)
    ensures TotalLag(LanesOf(x)) == TotalLag(LanesOf(r)) && MaxAge(x) == MaxAge(r)
    ensures ShadowFailures(StoresOf(x)) == ShadowFailures(StoresOf(r))
    ensures HasLane(x, "normal") <==> HasLane(r, "normal")
  {
    hide TotalLag, AllowedLag, ShadowFailures, MinAge;
  }

  // ---------- plans that say nothing is wrong ----------

  lemma HalfwayIsUnknown()
    ensures "halfway" !in MIGRATION_STATES && "none" in MIGRATION_STATES
  {
  }

  lemma RoomyFacts()
    ensures Roomy.freeRatio == 0.5 && DiskPressureText(Roomy.freeRatio) == "none"
    ensures Tight.freeRatio == 0.08 && DiskPressureText(Tight.freeRatio) == "warning"
  {
  }

  lemma EmptyJournal()
    ensures Store.EventsOf([]) == []
    ensures CountIf([], Store.Unapplied) == 0 && CountIf([], Store.IsCorrupt) == 0
  {
  }

  /** The first class: a store whose manifest names an unknown migration state. Its report fails the contract and is
      unsafe, and its repair plan is the lone no-op. */
  lemma BrokenContractGetsNoOp(now: int)
    ensures var r := Example(Roomy, "halfway", []);
            && ReportErrors(Clock(), r) != [] && PressureOf(r) == Str("none")
            && Diagnose(Clock(), now, r).status == Unsafe
            && Plans.PlannedSteps(Diagnose(Clock(), now, r), r) == [Plans.NoOp]
  {
    hide *;
    var r := Example(Roomy, "halfway", []);
    HostsAreOk();
    RoomyFacts();
    HalfwayIsUnknown();
    EmptyJournal();
    ExampleFacts(Roomy, "halfway", [], now);
    Plans.PlanShape(Clock(), now, r, "", "");
    Plans.NoOpIsHealthyExactly(Clock(), now, r);
  }

  const UnknownDisk: Fields :=
    map["free_bytes" := Int(50), "total_bytes" := Int(100), "free_ratio" := Num(0.5), "pressure" := Str("unknown")]

  lemma UnknownDiskIsGood()
    ensures GoodDisk(Obj(UnknownDisk)) && Get(UnknownDisk, "pressure") == Str("unknown")
  {
  }

  lemma UnknownPressure(r: Report)
    requires DiskOf(r) == Obj(UnknownDisk)
    ensures PressureOf(r) == Str("unknown") && !Plans.DiskWatched(r)
  {
  }

  lemma SameHeartbeat(iso: Iso, now: int, r: Report, x: Report)
    requires SameElsewhere(r, x) && RuntimeOf(x) == RuntimeOf(r)
    ensures HeartbeatOk(iso, now, x) <==> HeartbeatOk(iso, now, r)
    ensures CleanOpen(x) <==> CleanOpen(r)
  {
    hide MinAge;
  }

  /** The second class: a report that passes the whole contract, but whose disk pressure is "unknown", is unsafe as well and
      gets the same plan. */
  lemma UnknownPressureGetsNoOp(now: int)
    ensures var x := WithDisk(Example(Roomy, "none", []), UnknownDisk);
            && ReportErrors(Clock(), x) == [] && PressureOf(x) == Str("unknown")
            && Diagnose(Clock(), now, x).status == Unsafe
            && Plans.PlannedSteps(Diagnose(Clock(), now, x), x) == [Plans.NoOp]
  {
    hide *;
    var r := Example(Roomy, "none", []);
    var x := WithDisk(r, UnknownDisk);
    HostsAreOk();
    HalfwayIsUnknown();
    EmptyJournal();
    ExampleFacts(Roomy, "none", [], now);
    DiskReplaced(r, UnknownDisk);
    UnknownDiskIsGood();
    UnknownPressure(x);
    ContractExactly(Clock(), r);
    ValidParts(Clock(), r);
    StaysValid(Clock(), r, x);
    ContractExactly(Clock(), x);
    SameReadings(r, x);
    SameHeartbeat(Clock(), now, r, x);
    Plans.PlanShape(Clock(), now, x, "", "");
    Plans.NoOpIsHealthyExactly(Clock(), now, x);
  }

  // ---------- the floors of the trust gate ----------

  lemma NormalIsUnrestricted(r: Report, q: TrustRequest)
    requires q.lane == "normal"
    ensures !Restricted(r, q) && q.lane != "secure" && q.lane != "repair"
  {
    assert |"normal"| == |"secure"| == |"repair"| && "normal"[0] == 'n';
  }

  /** The score of a valid report on a tight disk with some lag, from which of the other invariants hold. */
  lemma ScoreOfExample(r: Report, now: int, heartbeat: bool, lag: bool, shadow: bool, clean: bool)
    requires ReportErrors(Clock(), r) == [] && PressureOf(r) == Str("warning") && TotalLag(LanesOf(r)) != 0 && !Attested(r)
    requires HeartbeatOk(Clock(), now, r) == heartbeat && LagOk(r) == lag && CleanOpen(r) == clean
    requires (ShadowFailures(StoresOf(r)) == []) == shadow
    ensures EvaluateScorecard(Clock(), now, r).score == 75 - 10 * N(!heartbeat) - 10 * N(!lag) - 5 * N(!shadow) - 5 * N(!clean)
  {
    hide *;
    var invs := InvariantsWith([], Clock(), now, r);
    ScorecardOfValid(Clock(), now, r);
    VerifyGivesSix([], Clock(), now, r);
    WarningIsOk(r);
    SixCounts(invs, true, heartbeat, lag, shadow, true, clean);
    AtMostOne(heartbeat, lag, shadow, clean);
    ScoreWithCounts(invs, r, N(!heartbeat) + N(!lag), N(!shadow) + N(!clean));
  }

  lemma WarningIsOk(r: Report)
    requires PressureOf(r) == Str("warning")
    ensures PressureOk(r)
  {
  }

  lemma AtMostOne(heartbeat: bool, lag: bool, shadow: bool, clean: bool)
    ensures N(true) == 1 && N(false) == 0
    ensures N(!heartbeat) + N(!lag) <= 2 && N(!shadow) + N(!clean) <= 2
  {
  }

  lemma ScoreWithCounts(invs: seq<Invariant>, r: Report, fails: nat, warns: nat)
    requires CountCritical(invs) == 0 && CountLevel(invs, Fail) == fails <= 2 && CountLevel(invs, Warn) == warns <= 2
    requires PressureOf(r) == Str("warning") && TotalLag(LanesOf(r)) != 0 && !Attested(r)
    ensures ScorecardWith([], invs, r).score == 75 - 10 * fails - 5 * warns
  {
    hide CountCritical, CountLevel, StatusOf, FailingGates, PressureOf, TotalLag, LanesOf, Attested;
  }

  lemma SomeLag(lanes: nat, u: nat)
    requires lanes >= 10 && u >= 1
    ensures lanes * u != 0
  {
  }

  /** The floor of an allowed request is reached: one unapplied event, a tight disk and no signature leave 75 points, and
      the request is allowed. */
  lemma AllowedFloorIsReached(now: int)
    ensures var r := Example(Tight, "none", Unfinished(1));
            && EvaluateTrust(Clock(), now, r, TrustRequest("normal", false, false)).status == TrustAllowed
            && EvaluateScorecard(Clock(), now, r).score == 75
  {
    hide *;
    var r, q := Example(Tight, "none", Unfinished(1)), TrustRequest("normal", false, false);
    HostsAreOk();
    RoomyFacts();
    HalfwayIsUnknown();
    UnfinishedEvents(1);
    ExampleFacts(Tight, "none", Unfinished(1), now);
    SomeLag(|Store.SummaryOrder(StoreWith("none", Unfinished(1)))|, 1);
    WarningIsOk(r);
    ScoreOfExample(r, now, true, true, true, true);
    AtMostOne(true, true, true, true);
    NormalIsUnrestricted(r, q);
    TrustPassesExactly(Clock(), now, r, q);
    GrantedKind(Clock(), now, r, q);
  }

  /** A request that does not accept degraded mode is allowed outright or not at all; one for a degraded report is allowed
      in degraded mode or not at all. */
  lemma GrantedKind(iso: Iso, now: int, r: Report, q: TrustRequest)
    requires EvaluateTrust(iso, now, r, q).status != TrustBlocked
    ensures !q.allowDegraded ==> EvaluateTrust(iso, now, r, q).status == TrustAllowed
    ensures Diagnose(iso, now, r).status == Degraded ==> EvaluateTrust(iso, now, r, q).status == DegradedAllowed
  {
    hide ReportErrors, Diagnose;
  }

  /** The last heartbeat is a minute old, and the last open was dirty. */
  const Neglected: Fields := map["last_heartbeat_at" := Str(EARLY), "last_dirty_open_at" := Str(EARLY)]

  lemma NeglectedIsGood()
    ensures GoodRuntime(Clock(), Obj(Neglected))
    ensures Get(Neglected, "last_heartbeat_at") == Str(EARLY) && Truthy(Get(Neglected, "last_dirty_open_at"))
  {
    ClockReads();
  }

  lemma NeglectedFails(x: Report, now: int)
    requires RuntimeOf(x) == Neglected && Get(x, "generated_at") == Str(LATE) && MaxAge(x) == 30000
    ensures !HeartbeatOk(Clock(), now, x) && !CleanOpen(x)
  {
    hide MaxAge, Clock;
    ClockReads();
    NeglectedIsGood();
  }

  lemma AgeOfExample(r: Report, h: Host, s: Store.Summary)
    requires MadeFrom(r, h, s) && s.lanes != []
    ensures MaxAge(r) == 30000 && Get(r, "generated_at") == Str(h.nowText)
  {
    hide LaneItems, MinAge;
    LaneAges(s.lanes);
  }

  lemma LanesThere(f: Store.Files)
    requires Store.SummaryOrder(f) != []
    ensures Store.Summarized(f, 0).lanes != []
  {
    hide *;
    SummaryIsGood(f, 0);
  }

  lemma DegradedGiven(iso: Iso, now: int, r: Report)
    requires ReportErrors(iso, r) == [] && PressureOk(r) && !HeartbeatOk(iso, now, r)
    ensures Diagnose(iso, now, r).status == Degraded
  {
    hide *;
    Diagnosed(iso, now, r);
    VerifyGivesSix([], iso, now, r);
    SixStatus(InvariantsWith([], iso, now, r), true, false, LagOk(r), ShadowFailures(StoresOf(r)) == [], true, CleanOpen(r));
  }

  lemma Diagnosed(iso: Iso, now: int, r: Report)
    requires ReportErrors(iso, r) == []
    ensures Diagnose(iso, now, r).status == StatusOf(InvariantsWith([], iso, now, r)).0
  {
    hide StatusOf, InvariantsWith, ReportErrors, NotPassing, AffectedLanes, CollectionCauses;
  }

  /** ... and so is the floor of degraded mode: a stale heartbeat, a hundred unapplied events, a damaged line and a dirty
      open besides leave 45 points, and the request is allowed in degraded mode. */
  lemma DegradedFloorIsReached(now: int)
    ensures var x := WithRuntime(Example(Tight, "none", Unfinished(100) + [Store.Corrupt]), Neglected);
            && EvaluateTrust(Clock(), now, x, TrustRequest("normal", true, false)).status == DegradedAllowed
            && EvaluateScorecard(Clock(), now, x).score == 45
  {
    hide *;
    var lines, q := Unfinished(100) + [Store.Corrupt], TrustRequest("normal", true, false);
    var r, f := Example(Tight, "none", lines), StoreWith("none", lines);
    var x := WithRuntime(r, Neglected);
    HostsAreOk();
    RoomyFacts();
    HalfwayIsUnknown();
    DamagedEvents(100);
    ExampleFacts(Tight, "none", lines, now);
    SomeLag(|Store.SummaryOrder(f)|, 100);
    LanesThere(f);
    AgeOfExample(r, Tight, Store.Summarized(f, 0));
    TightClock();
    RuntimeReplaced(r, Neglected);
    NeglectedIsGood();
    ContractExactly(Clock(), r);
    ValidParts(Clock(), r);
    StaysValid(Clock(), r, x);
    ContractExactly(Clock(), x);
    SameReadings(r, x);
    SameDatedElsewhere(r, x);
    SamePressure(r, x);
    WarningIsOk(x);
    NeglectedFails(x, now);
    ScoreOfExample(x, now, false, false, false, false);
    AtMostOne(false, false, false, false);
    NormalIsUnrestricted(x, q);
    TrustPassesExactly(Clock(), now, x, q);
    DegradedGiven(Clock(), now, x);
    GrantedKind(Clock(), now, x, q);
  }

  lemma TightClock()
    ensures Tight.nowText == LATE
  {
  }

  lemma SameDatedElsewhere(r: Report, x: Report)
    requires SameElsewhere(r, x)
    ensures Get(x, "generated_at") == Get(r, "generated_at")
  {
  }

  lemma SamePressure(r: Report, x: Report)
    requires DiskOf(x) == DiskOf(r)
    ensures PressureOf(x) == PressureOf(r)
  {
  }
}
