/** Writing invariants, diagnosis and controls back into a report (reports.py, `with_fresh_diagnosis`). */
module FreshDiagnosis {
  import opened Text
  import opened Json
  import opened Reports
  import opened ErrorPlaces

  // ---------- as JSON ----------

  function IdText(id: InvariantId): string {
    match id
    case ContractValid => "report.contract_valid"
    case Heartbeat => "heartbeat.within_sla"
    case ReplayLag => "journal.replay_lag_within_sla"
    case Shadow => "store.shadow_verified_when_present"
    case DiskPressure => "resources.disk_pressure_below_critical"
    case DirtyOpen => "runtime.no_unrecovered_dirty_open"
  }

  function RemedyText(id: InvariantId): string {
    match id
    case ContractValid => "fix_report_contract"
    case Heartbeat => "restart_or_mark_stale"
    case ReplayLag => "run_replay"
    case Shadow => "verify_or_rebuild_shadow"
    case DiskPressure => "compact_or_purge_preview"
    case DirtyOpen => "verify_before_ready"
  }

  function LevelText(l: Level): string {
    match l case Pass => "pass" case Warn => "warn" case Fail => "fail"
  }

  function SeverityText(s: Severity): string {
    match s case Info => "info" case Warning => "warning" case Error => "error" case Critical => "critical"
  }

  function StatusText(s: Status): string {
    match s case Healthy => "healthy" case Degraded => "degraded" case Unsafe => "unsafe"
  }

  function SummaryText(s: Status): string {
    match s
    case Healthy => "All required state integrity invariants pass."
    case Degraded => "One or more state integrity invariants need attention before full trust."
    case Unsafe => "Critical state integrity invariant failed; restrict mutation and require repair planning."
  }

  function CauseText(c: Cause): string {
    match c
    case Broken(id) => IdText(id)
    case CollectionPartial => "collection.partial"
    case CollectionFailed => "collection.failed"
  }

  function SafeActionText(a: SafeAction): string {
    match a case Remedy(id) => RemedyText(id) case PurgePreview => "purge_preview"
  }

  function BlockedActionText(a: BlockedAction): string {
    match a
    case DestructivePurge => "destructive_purge_without_policy_grant"
    case FreshStateAction => "agent_action_requiring_fresh_state"
  }

  function InvariantJson(v: Invariant): Json {
    Obj(map["id" := Str(IdText(v.id)), "status" := Str(LevelText(v.status)), "severity" := Str(SeverityText(v.severity)),
            "evidence" := Obj(v.evidence), "remediation" := Str(RemedyText(v.id))])
  }

  function InvariantItems(invs: seq<Invariant>): seq<Json> {
    if invs == [] then [] else InvariantItems(invs[..|invs| - 1]) + [InvariantJson(invs[|invs| - 1])]
  }

  function InvariantsJson(invs: seq<Invariant>): Json {
    Arr(InvariantItems(invs))
  }

  /** The keys that `diagnose` writes. */
  function DiagnosisFields(d: Diagnosis): Fields {
    var actions := set a | a in d.safeActions :: SafeActionText(a);
    map["status" := Str(StatusText(d.status)), "severity" := Str(SeverityText(d.severity)),
        "summary" := Str(SummaryText(d.status)),
        "causes" := Texts(SortedSet(set c | c in d.causes :: CauseText(c))),
        "affected_lanes" := Texts(SortedSet(d.affectedLanes)),
        "affected_domains" := Arr([]),
        "safe_actions" := Texts(if actions == {} then ["continue_normal_operation"] else SortedSet(actions)),
        "blocked_actions" := Texts(SortedSet(set a | a in d.blockedActions :: BlockedActionText(a)))]
  }

  function DiagnosisJson(d: Diagnosis): Json {
    Obj(DiagnosisFields(d))
  }

  function ControlJson(c: Control): Json {
    match c
    case RunReplay =>
      Obj(map["id" := Str("run_replay"), "trigger" := Str("journal.replay_lag_above_sla"), "action" := Str("run_replay"),
              "mode" := Str("automatic_allowed")])
    case PurgePreviewControl =>
      Obj(map["id" := Str("disk_pressure_purge_preview"), "trigger" := Str("disk.pressure_warning_or_critical"),
              "action" := Str("purge_preview"), "mode" := Str("manual_approval_required")])
    case VerifyDirtyOpen =>
      Obj(map["id" := Str("verify_dirty_open"), "trigger" := Str("runtime.last_dirty_open_present"),
              "action" := Str("verify_before_ready"), "mode" := Str("automatic_allowed")])
  }

  function ControlItems(cs: seq<Control>): seq<Json> {
    if cs == [] then [] else ControlItems(cs[..|cs| - 1]) + [ControlJson(cs[|cs| - 1])]
  }

  // ---------- the rewritten keys ----------

  const REWRITTEN: set<string> := {"invariants", "diagnosis", "controls"}

  /** A report without the three keys that are rewritten. */
  function Core(r: Report): Report {
    r - REWRITTEN
  }

  lemma CoreGet(r: Report, key: string, default: Json)
    requires key !in REWRITTEN
    ensures GetOr(r, key, default) == GetOr(Core(r), key, default)
  {
  }

  lemma CoreUpdate(r: Report, key: string, value: Json)
    requires key in REWRITTEN
    ensures Core(r[key := value]) == Core(r)
  {
  }

  /** Everything read outside the three keys is the same in two reports with the same core. */
  lemma SameSections(r: Report, x: Report)
    requires Core(r) == Core(x)
    ensures forall key, default :: key !in REWRITTEN ==> GetOr(r, key, default) == GetOr(x, key, default)
  {
    forall key, default | key !in REWRITTEN ensures GetOr(r, key, default) == GetOr(x, key, default) {
      CoreGet(r, key, default);
      CoreGet(x, key, default);
    }
  }

  lemma SameLookups(r: Report, x: Report)
    requires Core(r) == Core(x)
    ensures DiskOf(r) == DiskOf(x) && LanesOf(r) == LanesOf(x) && StoresOf(r) == StoresOf(x) && RuntimeOf(r) == RuntimeOf(x)
    ensures Get(r, "generated_at") == Get(x, "generated_at")
    ensures GetOr(r, "collection", Obj(map[])) == GetOr(x, "collection", Obj(map[]))
  {
    SameSections(r, x);
    assert "resources" !in REWRITTEN && "lanes" !in REWRITTEN && "stores" !in REWRITTEN && "runtime" !in REWRITTEN;
    assert "generated_at" !in REWRITTEN && "collection" !in REWRITTEN;
  }

  lemma SameReadable(r: Report, x: Report)
    requires Core(r) == Core(x)
    ensures Readable(r) <==> Readable(x)
  {
    SameLookups(r, x);
    SameSections(r, x);
    assert "resources" !in REWRITTEN && "lanes" !in REWRITTEN && "stores" !in REWRITTEN && "runtime" !in REWRITTEN;
    assert "identity" !in REWRITTEN;
  }

  lemma SameBody(iso: Iso, r: Report, x: Report)
    requires Core(r) == Core(x)
    ensures BodyErrors(iso, r) == BodyErrors(iso, x)
  {
    SameLookups(r, x);
    SameSections(r, x);
    assert "identity" !in REWRITTEN && "collection" !in REWRITTEN && "runtime" !in REWRITTEN && "stores" !in REWRITTEN
           && "lanes" !in REWRITTEN && "policy" !in REWRITTEN;
  }

  predicate Dated(iso: Iso, r: Report) {
    ParseInstant(iso, Get(r, "generated_at")).Some?
  }

  lemma SameInvariants(iso: Iso, now: int, now': int, errors: Errors, r: Report, x: Report)
    requires Core(r) == Core(x) && Dated(iso, r)
    ensures InvariantsWith(errors, iso, now, r) == InvariantsWith(errors, iso, now', x)
  {
    SameLookups(r, x);
  }

  lemma SameDiagnosis(invs: seq<Invariant>, r: Report, x: Report)
    requires Core(r) == Core(x)
    ensures DiagnoseWith(invs, r) == DiagnoseWith(invs, x)
    ensures forall d :: ControlsWith(d, r) == ControlsWith(d, x)
  {
    SameLookups(r, x);
  }

  /** The three keys are there and the invariants list is well formed. */
  predicate Settled(r: Report) {
    REWRITTEN <= r.Keys && InvariantsErrors(Get(r, "invariants")) == []
  }

  lemma SameShape(r: Report, x: Report)
    requires Core(r) == Core(x) && REWRITTEN <= r.Keys && REWRITTEN <= x.Keys
    ensures ShapeErrors(r) == ShapeErrors(x)
  {
    SameSections(r, x);
    assert "schema" !in REWRITTEN && "lanes" !in REWRITTEN && "stores" !in REWRITTEN;
    assert r.Keys == Core(r).Keys + REWRITTEN;
    assert x.Keys == Core(x).Keys + REWRITTEN;
  }

  lemma SettledErrors(iso: Iso, r: Report, x: Report)
    requires Core(r) == Core(x) && Settled(r) && Settled(x)
    ensures ReportErrors(iso, r) == ReportErrors(iso, x)
  {
    SameShape(r, x);
    SameBody(iso, r, x);
  }

  // ---------- generated invariants are well formed ----------

  lemma InvariantJsonValid(v: Invariant)
    ensures InvariantErrors(InvariantJson(v)) == []
  {
    var d := InvariantJson(v).fields;
    NothingMissing("invariants", d, REQUIRED_INVARIANT);
  }

  lemma {:induction false} InvariantsJsonValid(invs: seq<Invariant>)
    ensures InvariantsErrors(InvariantsJson(invs)) == []
  {
    if invs != [] {
      InvariantsJsonValid(invs[..|invs| - 1]);
      InvariantJsonValid(invs[|invs| - 1]);
      var items := InvariantItems(invs);
      assert items[..|items| - 1] == InvariantItems(invs[..|invs| - 1]);
    }
  }

  // ---------- with_fresh_diagnosis ----------

  function Rewritten(r: Report, invariants: Json, diagnosis: Json, controls: Json): Report {
    r["invariants" := invariants]["diagnosis" := diagnosis]["controls" := controls]
  }

  lemma RewrittenFacts(r: Report, i: Json, d: Json, c: Json)
    ensures var x := Rewritten(r, i, d, c);
            && Core(x) == Core(r) && REWRITTEN <= x.Keys
            && Get(x, "invariants") == i && Get(x, "diagnosis") == d && Get(x, "controls") == c
  {
  }

  lemma RewrittenTwice(r: Report, i: Json, d: Json, c: Json, i': Json, d': Json, c': Json)
    ensures Rewritten(Rewritten(r, i, d, c), i', d', c') == Rewritten(r, i', d', c')
  {
  }

  function FreshInvariants(iso: Iso, now: int, r: Report): Json
  {
    InvariantsJson(Verify(iso, now, r))
  }

  /** The report when the diagnosis is made: the invariants are already new. */
  function WithInvariants(iso: Iso, now: int, r: Report): Report {
    r["invariants" := FreshInvariants(iso, now, r)]
  }

  /** The report when the controls are chosen: the diagnosis is new as well. */
  function WithDiagnosis(iso: Iso, now: int, r: Report): Report {
    WithInvariants(iso, now, r)["diagnosis" := DiagnosisJson(Diagnose(iso, now, WithInvariants(iso, now, r)))]
  }

  function Refresh(iso: Iso, now: int, r: Report): Report {
    Rewritten(r, FreshInvariants(iso, now, r),
              DiagnosisJson(Diagnose(iso, now, WithInvariants(iso, now, r))),
              Arr(ControlItems(ControlsFor(iso, now, WithDiagnosis(iso, now, r)))))
  }

  lemma RefreshSettles(iso: Iso, now: int, r: Report)
    ensures var x := Refresh(iso, now, r);
            Core(x) == Core(r) && Settled(x) && Get(x, "invariants") == InvariantsJson(Verify(iso, now, r))
  {
    RewrittenSettles(r, Verify(iso, now, r), DiagnosisJson(Diagnose(iso, now, WithInvariants(iso, now, r))),
                     Arr(ControlItems(ControlsFor(iso, now, WithDiagnosis(iso, now, r)))));
  }

  lemma RewrittenSettles(r: Report, invs: seq<Invariant>, d: Json, c: Json)
    ensures var x := Rewritten(r, InvariantsJson(invs), d, c);
            Core(x) == Core(r) && Settled(x) && Get(x, "invariants") == InvariantsJson(invs)
            && Get(x, "diagnosis") == d && Get(x, "controls") == c
  {
    RewrittenFacts(r, InvariantsJson(invs), d, c);
    InvariantsJsonValid(invs);
  }

  lemma StaysDated(iso: Iso, r: Report, x: Report)
    requires Core(r) == Core(x) && Dated(iso, r)
    ensures Dated(iso, x)
  {
    SameLookups(r, x);
  }

  /** Refreshing never makes a readable report unreadable. */
  lemma RefreshKeepsReadable(iso: Iso, now: int, r: Report)
    ensures Readable(r) <==> Readable(Refresh(iso, now, r))
  {
    RefreshSettles(iso, now, r);
    SameReadable(r, Refresh(iso, now, r));
  }

  /** Two reports that check alike are diagnosed alike, even at different times. */
  lemma DiagnosedAlike(iso: Iso, now: int, now': int, r: Report, x: Report)
    requires Core(r) == Core(x) && Dated(iso, r)
    requires ReportErrors(iso, r) == ReportErrors(iso, x)
    ensures Verify(iso, now, r) == Verify(iso, now', x)
    ensures Diagnose(iso, now, r) == Diagnose(iso, now', x)
    ensures ControlsFor(iso, now, r) == ControlsFor(iso, now', x)
  {
    SameInvariants(iso, now, now', ReportErrors(iso, r), r, x);
    SameDiagnosis(Verify(iso, now, r), r, x);
  }

  lemma OneKeyRewritten(r: Report, key: string, value: Json)
    requires key in REWRITTEN
    ensures var x := r[key := value];
            && Core(x) == Core(r)
            && (REWRITTEN <= r.Keys ==> REWRITTEN <= x.Keys)
            && (key != "invariants" ==> Get(x, "invariants") == Get(r, "invariants"))
  {
    CoreUpdate(r, key, value);
  }

  lemma InvariantsWritten(r: Report, invs: seq<Invariant>)
    ensures var x := r["invariants" := InvariantsJson(invs)];
            && Core(x) == Core(r)
            && (REWRITTEN <= r.Keys ==> REWRITTEN <= x.Keys)
            && InvariantsErrors(Get(x, "invariants")) == []
  {
    InvariantsJsonValid(invs);
    OneKeyRewritten(r, "invariants", InvariantsJson(invs));
  }

  lemma DiagnosisWritten(r: Report, invs: seq<Invariant>, d: Json)
    ensures var x := r["invariants" := InvariantsJson(invs)]["diagnosis" := d];
            && Core(x) == Core(r)
            && (REWRITTEN <= r.Keys ==> REWRITTEN <= x.Keys)
            && InvariantsErrors(Get(x, "invariants")) == []
  {
    InvariantsWritten(r, invs);
    OneKeyRewritten(r["invariants" := InvariantsJson(invs)], "diagnosis", d);
  }

  lemma FirstStep(iso: Iso, now: int, r: Report)
    ensures var x := WithInvariants(iso, now, r);
            && Core(x) == Core(r)
            && (REWRITTEN <= r.Keys ==> REWRITTEN <= x.Keys)
            && InvariantsErrors(Get(x, "invariants")) == []
  {
    InvariantsWritten(r, Verify(iso, now, r));
  }

  lemma SecondStep(iso: Iso, now: int, r: Report)
    ensures var x := WithDiagnosis(iso, now, r);
            && Core(x) == Core(r)
            && (REWRITTEN <= r.Keys ==> REWRITTEN <= x.Keys)
            && InvariantsErrors(Get(x, "invariants")) == []
  {
    DiagnosisWritten(r, Verify(iso, now, r), DiagnosisJson(Diagnose(iso, now, WithInvariants(iso, now, r))));
  }

  lemma DiagnosedInSecondStep(iso: Iso, now: int, r: Report)
    requires Dated(iso, r) && ReportErrors(iso, WithInvariants(iso, now, r)) == ReportErrors(iso, r)
    ensures Diagnose(iso, now, WithInvariants(iso, now, r)) == Diagnose(iso, now, r)
  {
    FirstStep(iso, now, r);
    DiagnosedAlike(iso, now, now, r, WithInvariants(iso, now, r));
  }

  lemma ControlledInThirdStep(iso: Iso, now: int, r: Report)
    requires Dated(iso, r) && ReportErrors(iso, WithDiagnosis(iso, now, r)) == ReportErrors(iso, r)
    ensures ControlsFor(iso, now, WithDiagnosis(iso, now, r)) == ControlsFor(iso, now, r)
  {
    SecondStep(iso, now, r);
    DiagnosedAlike(iso, now, now, r, WithDiagnosis(iso, now, r));
  }

  /** As long as no step changes what the check finds, the three steps of a refresh see one and the same diagnosis. */
  lemma RefreshInOneStep(iso: Iso, now: int, r: Report)
    requires Dated(iso, r)
    requires ReportErrors(iso, WithInvariants(iso, now, r)) == ReportErrors(iso, r)
    requires ReportErrors(iso, WithDiagnosis(iso, now, r)) == ReportErrors(iso, r)
    ensures Refresh(iso, now, r) == Rewritten(r, FreshInvariants(iso, now, r), DiagnosisJson(Diagnose(iso, now, r)),
                                              Arr(ControlItems(ControlsFor(iso, now, r))))
  {
    DiagnosedInSecondStep(iso, now, r);
    ControlledInThirdStep(iso, now, r);
  }

  /** If no step changes what the check finds, the refreshed report agrees with itself and stays as it is. */
  lemma StableIsFixed(iso: Iso, now: int, later: int, r: Report)
    requires Dated(iso, r)
    requires forall x :: Core(x) == Core(r) && Settled(x) ==> ReportErrors(iso, x) == ReportErrors(iso, r)
    requires REWRITTEN <= r.Keys
    ensures var y := Refresh(iso, now, r);
            && Refresh(iso, later, y) == y
            && Get(y, "invariants") == InvariantsJson(Verify(iso, later, y))
            && Get(y, "diagnosis") == DiagnosisJson(Diagnose(iso, later, y))
            && Get(y, "controls") == Arr(ControlItems(ControlsFor(iso, later, y)))
  {
    FirstStep(iso, now, r);
    SecondStep(iso, now, r);
    RefreshInOneStep(iso, now, r);
    RefreshSettles(iso, now, r);
    var y := Refresh(iso, now, r);
    StaysDated(iso, r, y);
    FirstStep(iso, later, y);
    SecondStep(iso, later, y);
    RefreshInOneStep(iso, later, y);
    DiagnosedAlike(iso, now, later, r, y);
    var i, d, c := FreshInvariants(iso, now, r), DiagnosisJson(Diagnose(iso, now, r)), Arr(ControlItems(ControlsFor(iso, now, r)));
    RewrittenFacts(r, i, d, c);
    RewrittenTwice(r, i, d, c, i, d, c);
  }

  /** Refreshing a settled report makes it agree with itself; refreshing it again, at any later time, changes nothing. */
  lemma SettledIsFixed(iso: Iso, now: int, later: int, r: Report)
    requires Settled(r) && Dated(iso, r)
    ensures var y := Refresh(iso, now, r);
            && Refresh(iso, later, y) == y
            && Get(y, "invariants") == InvariantsJson(Verify(iso, later, y))
            && Get(y, "diagnosis") == DiagnosisJson(Diagnose(iso, later, y))
            && Get(y, "controls") == Arr(ControlItems(ControlsFor(iso, later, y)))
  {
    forall x | Core(x) == Core(r) && Settled(x) ensures ReportErrors(iso, x) == ReportErrors(iso, r) {
      SettledErrors(iso, r, x);
    }
    StableIsFixed(iso, now, later, r);
  }

  /** A settled report that already carries its own invariants and controls keeps everything but its diagnosis. */
  lemma OnlyTheDiagnosisMoves(iso: Iso, later: int, r: Report)
    requires Settled(r) && Dated(iso, r)
    requires Get(r, "invariants") == InvariantsJson(Verify(iso, later, r))
    requires Get(r, "controls") == Arr(ControlItems(ControlsFor(iso, later, r)))
    ensures Refresh(iso, later, r) == r["diagnosis" := DiagnosisJson(Diagnose(iso, later, r))]
  {
    hide *;
    SettledIs(r);
    SettledSteps(iso, later, r);
    RefreshInOneStep(iso, later, r);
    FreshInvariantsAre(iso, later, r);
    RewrittenDiagnosis(r, FreshInvariants(iso, later, r), DiagnosisJson(Diagnose(iso, later, r)),
                       Arr(ControlItems(ControlsFor(iso, later, r))));
  }

  /** The three rewritten keys are what a fresh look at the report gives. */
  predicate Agrees(iso: Iso, now: int, r: Report) {
    && Get(r, "invariants") == InvariantsJson(Verify(iso, now, r))
    && Get(r, "diagnosis") == DiagnosisJson(Diagnose(iso, now, r))
    && Get(r, "controls") == Arr(ControlItems(ControlsFor(iso, now, r)))
  }

  lemma AgreesIs(iso: Iso, now: int, r: Report)
    ensures Agrees(iso, now, r) <==>
            && Get(r, "invariants") == InvariantsJson(Verify(iso, now, r))
            && Get(r, "diagnosis") == DiagnosisJson(Diagnose(iso, now, r))
            && Get(r, "controls") == Arr(ControlItems(ControlsFor(iso, now, r)))
  {
    hide InvariantsJson, Verify, DiagnosisJson, Diagnose, ControlItems, ControlsFor, Get;
  }

  lemma FreshInvariantsAre(iso: Iso, now: int, r: Report)
    ensures FreshInvariants(iso, now, r) == InvariantsJson(Verify(iso, now, r))
  {
    hide InvariantsJson, Verify;
  }

  lemma RewrittenDiagnosis(r: Report, i: Json, d: Json, c: Json)
    requires REWRITTEN <= r.Keys && Get(r, "invariants") == i && Get(r, "controls") == c
    ensures Rewritten(r, i, d, c) == r["diagnosis" := d]
  {
    assert "invariants" in REWRITTEN && "diagnosis" in REWRITTEN && "controls" in REWRITTEN;
    assert r["invariants" := i] == r;
  }

  /** On a settled report no step of a refresh changes what the check finds. */
  lemma SettledSteps(iso: Iso, now: int, r: Report)
    requires Settled(r)
    ensures ReportErrors(iso, WithInvariants(iso, now, r)) == ReportErrors(iso, r)
    ensures ReportErrors(iso, WithDiagnosis(iso, now, r)) == ReportErrors(iso, r)
  {
    hide *;
    SettledIs(r);
    FirstStep(iso, now, r);
    SecondStep(iso, now, r);
    SettledFrom(WithInvariants(iso, now, r));
    SettledFrom(WithDiagnosis(iso, now, r));
    SettledErrors(iso, r, WithInvariants(iso, now, r));
    SettledErrors(iso, r, WithDiagnosis(iso, now, r));
  }

  /** Two applications reach a fixed point on every readable, dated report, and the report then agrees with itself. */
  lemma TwoRefreshesSettle(iso: Iso, now: int, later: int, latest: int, r: Report)
    requires Dated(iso, r)
    ensures var twice := Refresh(iso, later, Refresh(iso, now, r));
            Refresh(iso, latest, twice) == twice
  {
    RefreshSettles(iso, now, r);
    StaysDated(iso, r, Refresh(iso, now, r));
    SettledIsFixed(iso, later, latest, Refresh(iso, now, r));
  }

  lemma KeysAreTopLevel()
    ensures REWRITTEN <= REQUIRED_TOP_LEVEL
  {
  }

  lemma ErrorsAre(iso: Iso, r: Report)
    ensures ShapeErrors(r) != [] ==> ReportErrors(iso, r) == ShapeErrors(r)
    ensures ShapeErrors(r) == [] ==> ReportErrors(iso, r) == BodyErrors(iso, r) + InvariantsErrors(Get(r, "invariants"))
  {
    hide ShapeErrors, BodyErrors, InvariantsErrors;
  }

  lemma ShapeNamesMissing(r: Report)
    ensures |ShapeErrors(r)| == |REQUIRED_TOP_LEVEL - r.Keys| + (if Get(r, "schema") != Str(STATE_SCHEMA) then 1 else 0)
                                + (if Get(r, "lanes").Arr? then 0 else 1) + (if Get(r, "stores").Arr? then 0 else 1)
  {
    NothingMissing("report", r, REQUIRED_TOP_LEVEL);
  }

  lemma FewerMissing(r: Report, x: Report)
    requires Core(r) == Core(x) && !(REWRITTEN <= r.Keys) && REWRITTEN <= x.Keys
    ensures |REQUIRED_TOP_LEVEL - x.Keys| < |REQUIRED_TOP_LEVEL - r.Keys|
  {
    var a, b := REQUIRED_TOP_LEVEL - x.Keys, REQUIRED_TOP_LEVEL - r.Keys;
    var key :| key in REWRITTEN && key !in r.Keys;
    KeysAreTopLevel();
    forall k | k in a ensures k in b {
      assert k !in REWRITTEN && k !in Core(x);
    }
    assert key in b && key !in a;
    Smaller(a, b, key);
  }

  lemma Smaller<T>(a: set<T>, b: set<T>, x: T)
    requires a <= b && x in b && x !in a
    ensures |a| < |b|
  {
    assert |b - a| > 0 by { assert x in b - a; }
    assert |b| == |a| + |b - a|;
  }

  /** A report that lacks a rewritten key has an error that the refreshed one cannot have. */
  lemma LackingKeyShows(iso: Iso, r: Report, x: Report)
    requires Core(r) == Core(x) && !(REWRITTEN <= r.Keys) && Settled(x)
    ensures ReportErrors(iso, r) != ReportErrors(iso, x)
  {
    hide *;
    SettledIs(x);
    FewerMissing(r, x);
    KeysAreTopLevel();
    MissingIsNamedFirst(r);
    ErrorsAre(iso, r);
    ErrorsAre(iso, x);
    ShapeNamesMissing(r);
    ShapeNamesMissing(x);
    SameTopValues(r, x);
    BodyElsewhere(iso, x);
    FirstElsewhere(BodyErrors(iso, x));
  }

  lemma SettledIs(x: Report)
    requires Settled(x)
    ensures REWRITTEN <= x.Keys && InvariantsErrors(Get(x, "invariants")) == []
  {
  }

  lemma FirstElsewhere(errors: Errors)
    requires AllElsewhere(errors)
    ensures errors != [] ==> Elsewhere(errors[0])
  {
  }

  lemma SameTopValues(r: Report, x: Report)
    requires Core(r) == Core(x)
    ensures Get(r, "schema") == Get(x, "schema") && Get(r, "lanes") == Get(x, "lanes") && Get(r, "stores") == Get(x, "stores")
  {
    SameSections(r, x);
    assert "schema" !in REWRITTEN && "lanes" !in REWRITTEN && "stores" !in REWRITTEN;
  }

  /** One application is enough exactly when the three keys were there and the shape is broken anyway or the invariants
      list was well formed. */
  lemma OneRefreshSettlesExactly(iso: Iso, now: int, later: int, r: Report)
    requires Dated(iso, r)
    ensures Refresh(iso, later, Refresh(iso, now, r)) == Refresh(iso, now, r)
            <==> REWRITTEN <= r.Keys && (ShapeErrors(r) != [] || InvariantsErrors(Get(r, "invariants")) == [])
  {
    hide Refresh, Core, Settled, ShapeErrors, BodyErrors, Verify;
    var x := Refresh(iso, now, r);
    RefreshSettles(iso, now, r);
    SettledIs(x);
    if !(REWRITTEN <= r.Keys) {
      LackingKeyShows(iso, r, x);
      RefreshSettles(iso, later, x);
      DifferentErrorsShow(iso, now, later, r, x);
    } else {
      SameShape(r, x);
      SameBody(iso, r, x);
      if ShapeErrors(r) != [] {
        ShapelessIsFixed(iso, now, later, r);
      } else if InvariantsErrors(Get(r, "invariants")) == [] {
        SettledFrom(r);
        SettledIsFixed(iso, now, later, r);
      } else {
        assert |ReportErrors(iso, r)| > |ReportErrors(iso, x)|;
        RefreshSettles(iso, later, x);
        DifferentErrorsShow(iso, now, later, r, x);
      }
    }
  }

  lemma SettledFrom(r: Report)
    requires REWRITTEN <= r.Keys && InvariantsErrors(Get(r, "invariants")) == []
    ensures Settled(r)
  {
  }

  lemma DifferentErrorsShow(iso: Iso, now: int, later: int, r: Report, x: Report)
    requires ReportErrors(iso, r) != ReportErrors(iso, x)
    ensures InvariantsJson(Verify(iso, now, r)) != InvariantsJson(Verify(iso, later, x))
  {
    var a, b := Verify(iso, now, r), Verify(iso, later, x);
    ItemsAt(a, 0);
    ItemsAt(b, 0);
    assert a[0] == ContractInvariant(ReportErrors(iso, r)) && b[0] == ContractInvariant(ReportErrors(iso, x));
    ContractShowsErrors(ReportErrors(iso, r));
    ContractShowsErrors(ReportErrors(iso, x));
    TextsInjective(ReportErrors(iso, r), ReportErrors(iso, x));
  }

  lemma TextsInjective(a: Errors, b: Errors)
    ensures Texts(a) == Texts(b) ==> a == b
  {
    if Texts(a) == Texts(b) {
      forall i | 0 <= i < |a| ensures i < |b| && a[i] == b[i] {
        assert Texts(a).items[i] == Str(a[i]);
        assert Texts(b).items[i] == Str(b[i]);
      }
      assert |Texts(a).items| == |a| && |Texts(b).items| == |b|;
    }
  }

  lemma ContractShowsErrors(errors: Errors)
    ensures var j := InvariantJson(ContractInvariant(errors));
            Get(FieldsOf(Get(FieldsOf(j), "evidence")), "errors") == Texts(errors)
  {
  }

  lemma {:induction false} ItemsAt(invs: seq<Invariant>, i: nat)
    requires i < |invs|
    ensures |InvariantItems(invs)| == |invs| && InvariantItems(invs)[i] == InvariantJson(invs[i])
  {
    if i < |invs| - 1 {
      ItemsAt(invs[..|invs| - 1], i);
    } else if |invs| > 1 {
      ItemsAt(invs[..|invs| - 1], 0);
    }
  }

  /** A report of the wrong shape is never looked into, so its errors do not depend on its invariants at all. */
  lemma ShapelessIsFixed(iso: Iso, now: int, later: int, r: Report)
    requires Dated(iso, r) && REWRITTEN <= r.Keys && ShapeErrors(r) != []
    ensures Refresh(iso, later, Refresh(iso, now, r)) == Refresh(iso, now, r)
  {
    forall x | Core(x) == Core(r) && Settled(x) ensures ReportErrors(iso, x) == ReportErrors(iso, r) {
      SameShape(r, x);
    }
    StableIsFixed(iso, now, later, r);
  }
}
