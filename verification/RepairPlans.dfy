/** Repair planning and the plan contract (reports.py). */
module RepairPlans {
  import opened Text
  import opened Json
  import opened Reports
  import opened FreshDiagnosis
  import opened Diagnoses
  import Gates

  const REPAIR_SCHEMA := "sourceos.repair-plan/v1alpha1"
  const REQUIRED_REPAIR: set<string> :=
    {"schema", "generated_at", "source_report", "plan_id", "status", "severity", "summary", "policy", "preconditions",
     "checkpoint", "steps", "blocked_steps", "rollback", "postconditions"}
  const REPAIR_STATUSES: set<string> := {"preview", "approved", "running", "complete", "failed", "rolled_back"}
  const STEP_KEYS: seq<string> := ["order", "id", "kind", "destructive", "description", "expected_result"]

  // ---------- the plan ----------

  datatype StepId = MarkStale | Replay | VerifyShadow | VerifyDirtyOpenRecovery | GeneratePurgePreview | NoOp

  function StepText(id: StepId): string {
    match id
    case MarkStale => "mark_stale_and_restart_if_managed"
    case Replay => "run_replay"
    case VerifyShadow => "verify_or_rebuild_shadow"
    case VerifyDirtyOpenRecovery => "verify_dirty_open_recovery"
    case GeneratePurgePreview => "generate_purge_preview"
    case NoOp => "no_op"
  }

  function KindText(id: StepId): string {
    match id
    case MarkStale => "control"
    case Replay => "replay"
    case VerifyShadow => "verification"
    case VerifyDirtyOpenRecovery => "verification"
    case GeneratePurgePreview => "purge-preview"
    case NoOp => "control"
  }

  function StepIf(c: bool, id: StepId): seq<StepId> {
    if c then [id] else []
  }

  predicate DiskWatched(r: Report) {
    OneOf(Get(FieldsOf(DiskOf(r)), "pressure"), {"watch", "warning", "critical"})
  }

  function NeededGiven(d: Diagnosis, watched: bool): seq<StepId> {
    StepIf(Broken(Heartbeat) in d.causes, MarkStale) +
    StepIf(Broken(ReplayLag) in d.causes, Replay) +
    StepIf(Broken(Shadow) in d.causes, VerifyShadow) +
    StepIf(Broken(DirtyOpen) in d.causes, VerifyDirtyOpenRecovery) +
    StepIf(watched, GeneratePurgePreview)
  }

  function NeededSteps(d: Diagnosis, r: Report): seq<StepId> {
    NeededGiven(d, DiskWatched(r))
  }

  function PlannedSteps(d: Diagnosis, r: Report): seq<StepId> {
    if NeededSteps(d, r) == [] then [NoOp] else NeededSteps(d, r)
  }

  /** The wording of descriptions is not modelled: they are the step's own name. */
  function StepJson(order: nat, id: StepId): Json {
    Obj(map["order" := Int(order), "id" := Str(StepText(id)), "kind" := Str(KindText(id)), "destructive" := Bool(false),
            "description" := Str(StepText(id)), "expected_result" := Str(StepText(id))])
  }

  function StepItems(ids: seq<StepId>): seq<Json> {
    if ids == [] then [] else StepItems(ids[..|ids| - 1]) + [StepJson(|ids|, ids[|ids| - 1])]
  }

  /** A guarded `add_step`: the order is the number of steps there are, plus one. */
  method AddStepIf(c: bool, steps: seq<Json>, id: StepId, ghost ids: seq<StepId>) returns (r: seq<Json>)
    requires steps == StepItems(ids) && |steps| == |ids|
    ensures r == StepItems(ids + StepIf(c, id)) && |r| == |ids + StepIf(c, id)|
  {
    r := steps;
    if c {
      r := steps + [StepJson(|steps| + 1, id)];
      assert (ids + [id])[..|ids|] == ids;
    } else {
      assert ids + StepIf(c, id) == ids;
    }
  }

  method BuildSteps(d: Diagnosis, r: Report) returns (steps: seq<Json>)
    ensures steps == StepItems(PlannedSteps(d, r))
  {
    var watched := DiskWatched(r);
    steps := AddNeeded(d, watched);
    assert NeededSteps(d, r) == NeededGiven(d, watched);
    if steps == [] {
      steps := AddStepIf(true, steps, NoOp, []);
    }
  }

  method AddNeeded(d: Diagnosis, watched: bool) returns (steps: seq<Json>)
    ensures steps == StepItems(NeededGiven(d, watched)) && |steps| == |NeededGiven(d, watched)|
  {
    ghost var a := StepIf(Broken(Heartbeat) in d.causes, MarkStale);
    ghost var b := a + StepIf(Broken(ReplayLag) in d.causes, Replay);
    ghost var c := b + StepIf(Broken(Shadow) in d.causes, VerifyShadow);
    ghost var e := c + StepIf(Broken(DirtyOpen) in d.causes, VerifyDirtyOpenRecovery);
    assert [] + a == a;
    steps := AddStepIf(Broken(Heartbeat) in d.causes, [], MarkStale, []);
    steps := AddStepIf(Broken(ReplayLag) in d.causes, steps, Replay, a);
    steps := AddStepIf(Broken(Shadow) in d.causes, steps, VerifyShadow, b);
    steps := AddStepIf(Broken(DirtyOpen) in d.causes, steps, VerifyDirtyOpenRecovery, c);
    steps := AddStepIf(watched, steps, GeneratePurgePreview, e);
  }

  /** The fixed frame of a plan around what depends on the report. */
  function PlanObject(generatedAt: Json, source: Json, planId: Json, severity: Json, summary: Json, steps: Json): Fields {
    map["schema" := Str(REPAIR_SCHEMA), "generated_at" := generatedAt, "source_report" := source, "plan_id" := planId,
        "status" := Str("preview"), "severity" := severity, "summary" := summary,
        "policy" := Obj(map["destructive_actions_present" := Bool(false)]),
        "preconditions" := Arr([]), "checkpoint" := Obj(map[]), "steps" := steps,
        "blocked_steps" := Arr([]), "rollback" := Obj(map[]), "postconditions" := Arr([])]
  }

  function SourceReport(r: Report): Json {
    Obj(map["schema" := Get(r, "schema"), "component" := Get(FieldsOf(Get(r, "identity")), "component"),
            "generated_at" := Get(r, "generated_at")])
  }

  /** `nowText` is the clock, `digest` stands for the hash of the diagnosis. */
  function RepairPlan(d: Diagnosis, r: Report, nowText: string, digest: string): Fields {
    PlanObject(Str(nowText), SourceReport(r), Str("repair-plan-" + digest), Str(SeverityText(d.severity)),
               Str(SummaryText(d.status)), Arr(StepItems(PlannedSteps(d, r))))
  }

  function PlanFor(iso: Iso, now: int, r: Report, nowText: string, digest: string): Fields {
    RepairPlan(Diagnose(iso, now, r), r, nowText, digest)
  }

  // ---------- validate_repair_plan ----------

  function AbsentKeys(d: Fields, keys: seq<string>): Errors {
    if keys == [] then [] else FailIf(keys[0] !in d, keys[0]) + AbsentKeys(d, keys[1..])
  }

  /** How many of the steps are objects: only those move the expected order on. */
  function ObjectsIn(steps: seq<Json>): nat {
    if steps == [] then 0 else ObjectsIn(steps[..|steps| - 1]) + if steps[|steps| - 1].Obj? then 1 else 0
  }

  function StepErrors(j: Json, expected: nat): Errors {
    if !j.Obj? then ["steps"]
    else
      var order := Get(j.fields, "order");
      AbsentKeys(j.fields, STEP_KEYS) +
      FailIf(!(IsNumber(order) && NumberValue(order) == expected as real), "order") +
      FailIf(!Get(j.fields, "destructive").Bool?, "destructive")
  }

  function StepListErrors(steps: seq<Json>): Errors {
    if steps == [] then []
    else
      StepListErrors(steps[..|steps| - 1]) + StepErrors(steps[|steps| - 1], ObjectsIn(steps[..|steps| - 1]) + 1)
  }

  predicate AnyDestructive(steps: seq<Json>) {
    exists s :: s in steps && s.Obj? && Truthy(Get(s.fields, "destructive"))
  }

  function StepsErrors(plan: Fields): Errors {
    var steps := Get(plan, "steps");
    if !steps.Arr? || steps.items == [] then ["steps"]
    else
      StepListErrors(steps.items) +
      FailIf(Get(plan, "status") == Str("preview") && AnyDestructive(steps.items), "steps")
  }

  function PlanPolicyErrors(j: Json): Errors {
    if !j.Obj? then ["policy"] else FailIf(!Get(j.fields, "destructive_actions_present").Bool?, "policy")
  }

  function PlanErrors(iso: Iso, plan: Fields): Errors {
    MissingKeys("plan", plan, REQUIRED_REPAIR) +
    FailIf(Get(plan, "schema") != Str(REPAIR_SCHEMA), "schema") +
    FailIf(ParseInstant(iso, Get(plan, "generated_at")).None?, "generated_at") +
    FailIf(!OneOf(Get(plan, "status"), REPAIR_STATUSES), "status") +
    FailIf(!OneOf(Get(plan, "severity"), SEVERITIES), "severity") +
    PlanPolicyErrors(GetOr(plan, "policy", Obj(map[]))) +
    StepsErrors(plan)
  }

  /** The loop over the steps, with the running expected order. */
  method CheckSteps(steps: seq<Json>) returns (errors: Errors)
    ensures errors == StepListErrors(steps)
  {
    errors := [];
    var expected := 1;
    for i := 0 to |steps|
      invariant errors == StepListErrors(steps[..i]) && expected == ObjectsIn(steps[..i]) + 1
    {
      assert steps[..i + 1][..i] == steps[..i];
      errors := errors + StepErrors(steps[i], expected);
      if steps[i].Obj? { expected := expected + 1; }
    }
    assert steps[..|steps|] == steps;
  }

  // ---------- what a valid plan is ----------

  /** A step is complete, has its place in the numbering and says whether it is destructive. */
  predicate GoodStep(j: Json, order: nat) {
    && j.Obj? && (forall k :: k in STEP_KEYS ==> k in j.fields)
    && IsNumber(Get(j.fields, "order")) && NumberValue(Get(j.fields, "order")) == order as real
    && Get(j.fields, "destructive").Bool?
  }

  predicate GoodSteps(steps: seq<Json>) {
    forall i :: 0 <= i < |steps| ==> GoodStep(steps[i], i + 1)
  }

  predicate GoodPlan(iso: Iso, plan: Fields) {
    && REQUIRED_REPAIR <= plan.Keys && Get(plan, "schema") == Str(REPAIR_SCHEMA)
    && ParseInstant(iso, Get(plan, "generated_at")).Some?
    && OneOf(Get(plan, "status"), REPAIR_STATUSES) && OneOf(Get(plan, "severity"), SEVERITIES)
    && Get(plan, "policy").Obj? && Get(Get(plan, "policy").fields, "destructive_actions_present").Bool?
    && Get(plan, "steps").Arr? && Get(plan, "steps").items != [] && GoodSteps(Get(plan, "steps").items)
    && (Get(plan, "status") == Str("preview") ==> !AnyDestructive(Get(plan, "steps").items))
  }

  lemma {:induction false} AbsentExactly(d: Fields, keys: seq<string>)
    ensures AbsentKeys(d, keys) == [] <==> forall k :: k in keys ==> k in d
  {
    if keys != [] {
      AbsentExactly(d, keys[1..]);
      assert keys == [keys[0]] + keys[1..];
    }
  }

  lemma StepExactly(j: Json, order: nat)
    ensures StepErrors(j, order) == [] <==> GoodStep(j, order)
  {
    if j.Obj? { AbsentExactly(j.fields, STEP_KEYS); }
  }

  lemma {:induction false} StepListExactly(steps: seq<Json>)
    ensures StepListErrors(steps) == [] <==> GoodSteps(steps)
    ensures GoodSteps(steps) ==> ObjectsIn(steps) == |steps|
  {
    if steps != [] {
      var front, last := steps[..|steps| - 1], steps[|steps| - 1];
      StepListExactly(front);
      StepExactly(last, ObjectsIn(front) + 1);
      assert GoodSteps(steps) <==> GoodSteps(front) && GoodStep(last, |steps|);
    }
  }

  /** The plan check finds nothing to say exactly about the good plans. */
  lemma PlanExactly(iso: Iso, plan: Fields)
    ensures PlanErrors(iso, plan) == [] <==> GoodPlan(iso, plan)
  {
    hide StepListErrors, GoodSteps, MissingKeys, OneOf, ParseInstant, AnyDestructive;
    NothingMissing("plan", plan, REQUIRED_REPAIR);
    if Get(plan, "steps").Arr? { StepListExactly(Get(plan, "steps").items); }
    if REQUIRED_REPAIR <= plan.Keys { assert "policy" in plan; }
  }

  // ---------- generated plans ----------

  lemma StepJsonValid(order: nat, id: StepId)
    ensures StepErrors(StepJson(order, id), order) == []
    ensures StepJson(order, id).Obj? && !Truthy(Get(StepJson(order, id).fields, "destructive"))
  {
    var d := StepJson(order, id).fields;
    assert STEP_KEYS[5..] == ["expected_result"];
    AllPresent(d, STEP_KEYS);
  }

  lemma {:induction false} AllPresent(d: Fields, keys: seq<string>)
    requires forall k :: k in keys ==> k in d
    ensures AbsentKeys(d, keys) == []
  {
    if keys != [] {
      assert keys[0] in keys;
      AllPresent(d, keys[1..]);
    }
  }

  lemma {:induction false} StepItemsAt(ids: seq<StepId>)
    ensures |StepItems(ids)| == |ids| && forall i :: 0 <= i < |ids| ==> StepItems(ids)[i] == StepJson(i + 1, ids[i])
  {
    if ids != [] { StepItemsAt(ids[..|ids| - 1]); }
  }

  lemma {:induction false} StepItemsNumbered(ids: seq<StepId>)
    ensures ObjectsIn(StepItems(ids)) == |ids| && StepListErrors(StepItems(ids)) == []
  {
    if ids != [] {
      var front := ids[..|ids| - 1];
      StepItemsNumbered(front);
      StepJsonValid(|ids|, ids[|ids| - 1]);
      var items := StepItems(ids);
      assert items[..|items| - 1] == StepItems(front);
    }
  }

  lemma StepItemsSafe(ids: seq<StepId>)
    ensures !AnyDestructive(StepItems(ids))
  {
    StepItemsAt(ids);
    forall s | s in StepItems(ids) ensures s.Obj? && !Truthy(Get(s.fields, "destructive")) {
      var i :| 0 <= i < |ids| && StepItems(ids)[i] == s;
      StepJsonValid(i + 1, ids[i]);
    }
  }

  lemma StepItemsValid(ids: seq<StepId>)
    ensures var items := StepItems(ids);
            && |items| == |ids| == ObjectsIn(items)
            && StepListErrors(items) == []
            && !AnyDestructive(items)
            && forall i :: 0 <= i < |ids| ==> items[i] == StepJson(i + 1, ids[i])
  {
    StepItemsAt(ids);
    StepItemsNumbered(ids);
    StepItemsSafe(ids);
  }

  lemma NeededStepsBound(d: Diagnosis, r: Report)
    ensures |NeededSteps(d, r)| <= 5 && NoOp !in NeededSteps(d, r)
    ensures NeededSteps(d, r) == [] <==>
              && Broken(Heartbeat) !in d.causes && Broken(ReplayLag) !in d.causes
              && Broken(Shadow) !in d.causes && Broken(DirtyOpen) !in d.causes && !DiskWatched(r)
  {
    var a, b, c := StepIf(Broken(Heartbeat) in d.causes, MarkStale), StepIf(Broken(ReplayLag) in d.causes, Replay),
                   StepIf(Broken(Shadow) in d.causes, VerifyShadow);
    var e, f := StepIf(Broken(DirtyOpen) in d.causes, VerifyDirtyOpenRecovery), StepIf(DiskWatched(r), GeneratePurgePreview);
    assert |NeededSteps(d, r)| == |a| + |b| + |c| + |e| + |f|;
  }

  lemma PlanKeys(generatedAt: Json, source: Json, planId: Json, severity: Json, summary: Json, steps: Json)
    ensures MissingKeys("plan", PlanObject(generatedAt, source, planId, severity, summary, steps), REQUIRED_REPAIR) == []
  {
    NothingMissing("plan", PlanObject(generatedAt, source, planId, severity, summary, steps), REQUIRED_REPAIR);
  }

  lemma PlanValues(generatedAt: Json, source: Json, planId: Json, severity: Json, summary: Json, steps: Json)
    ensures var plan := PlanObject(generatedAt, source, planId, severity, summary, steps);
            && Get(plan, "schema") == Str(REPAIR_SCHEMA) && Get(plan, "generated_at") == generatedAt
            && Get(plan, "status") == Str("preview") && Get(plan, "severity") == severity
            && GetOr(plan, "policy", Obj(map[])) == Obj(map["destructive_actions_present" := Bool(false)])
            && Get(plan, "steps") == steps
  {
  }

  lemma PlanTexts(d: Diagnosis)
    ensures OneOf(Str("preview"), REPAIR_STATUSES) && OneOf(Str(SeverityText(d.severity)), SEVERITIES)
    ensures PlanPolicyErrors(Obj(map["destructive_actions_present" := Bool(false)])) == []
  {
  }

  lemma OnlyTheClockMatters(iso: Iso, plan: Fields, ids: seq<StepId>)
    requires MissingKeys("plan", plan, REQUIRED_REPAIR) == []
    requires Get(plan, "schema") == Str(REPAIR_SCHEMA)
    requires OneOf(Get(plan, "status"), REPAIR_STATUSES) && OneOf(Get(plan, "severity"), SEVERITIES)
    requires PlanPolicyErrors(GetOr(plan, "policy", Obj(map[]))) == []
    requires Get(plan, "steps") == Arr(StepItems(ids)) && ids != []
    ensures PlanErrors(iso, plan) == [] <==> ParseInstant(iso, Get(plan, "generated_at")).Some?
  {
    hide StepListErrors, MissingKeys, OneOf, ParseInstant, AnyDestructive, StepItems, PlanPolicyErrors;
    StepItemsValid(ids);
    assert StepsErrors(plan) == [];
  }

  /** Whatever the report, its plan passes the plan contract as soon as the clock's text parses. */
  lemma GeneratedPlansAreValid(iso: Iso, now: int, r: Report, nowText: string, digest: string)
    ensures PlanErrors(iso, PlanFor(iso, now, r, nowText, digest)) == [] <==> ParseInstant(iso, Str(nowText)).Some?
  {
    var d := Diagnose(iso, now, r);
    var severity, steps := Str(SeverityText(d.severity)), Arr(StepItems(PlannedSteps(d, r)));
    PlanKeys(Str(nowText), SourceReport(r), Str("repair-plan-" + digest), severity, Str(SummaryText(d.status)), steps);
    PlanValues(Str(nowText), SourceReport(r), Str("repair-plan-" + digest), severity, Str(SummaryText(d.status)), steps);
    PlanTexts(d);
    OnlyTheClockMatters(iso, RepairPlan(d, r, nowText, digest), PlannedSteps(d, r));
  }

  /** The plan's steps are numbered from 1, there are one to five, none is destructive, and the plan is a lone no-op
      exactly when none of four named invariants is broken and the disk is not even watched. */
  lemma PlanShape(iso: Iso, now: int, r: Report, nowText: string, digest: string)
    ensures var ids := PlannedSteps(Diagnose(iso, now, r), r);
            var steps := Get(PlanFor(iso, now, r, nowText, digest), "steps");
            && 1 <= |ids| <= 5
            && steps.Arr? && |steps.items| == |ids|
            && (forall i :: 0 <= i < |ids| ==> steps.items[i] == StepJson(i + 1, ids[i]))
            && !AnyDestructive(steps.items)
    ensures PlannedSteps(Diagnose(iso, now, r), r) == [NoOp] <==>
            HeartbeatOk(iso, now, r) && LagOk(r) && ShadowFailures(StoresOf(r)) == [] && CleanOpen(r) && !DiskWatched(r)
  {
    hide Diagnose, StepItems, AnyDestructive, NeededSteps, ReportErrors, HeartbeatOk, LagOk, ShadowFailures, CleanOpen, PressureOk,
         DiskWatched, InvariantsWith, PlanObject, SourceReport;
    var d := Diagnose(iso, now, r);
    DiagnoseIs(iso, now, r);
    PlanValues(Str(nowText), SourceReport(r), Str("repair-plan-" + digest), Str(SeverityText(d.severity)),
               Str(SummaryText(d.status)), Arr(StepItems(PlannedSteps(d, r))));
    StepItemsValid(PlannedSteps(d, r));
    NeededStepsBound(d, r);
    CausesExactly(ReportErrors(iso, r), iso, now, r);
  }

  /** The place of a step among the others. */
  function Place(id: StepId): nat {
    match id
    case MarkStale => 0
    case Replay => 1
    case VerifyShadow => 2
    case VerifyDirtyOpenRecovery => 3
    case GeneratePurgePreview => 4
    case NoOp => 5
  }

  ghost predicate InPlace(ids: seq<StepId>) {
    forall i, j :: 0 <= i < j < |ids| ==> Place(ids[i]) < Place(ids[j])
  }

  lemma NeededExactly(d: Diagnosis, watched: bool)
    ensures var ids := NeededGiven(d, watched);
            && (MarkStale in ids <==> Broken(Heartbeat) in d.causes) && (Replay in ids <==> Broken(ReplayLag) in d.causes)
            && (VerifyShadow in ids <==> Broken(Shadow) in d.causes)
            && (VerifyDirtyOpenRecovery in ids <==> Broken(DirtyOpen) in d.causes)
            && (GeneratePurgePreview in ids <==> watched) && NoOp !in ids && InPlace(ids)
  {
    hide *;
    NeededIs(d, watched);
    FiveSteps(Broken(Heartbeat) in d.causes, Broken(ReplayLag) in d.causes, Broken(Shadow) in d.causes,
              Broken(DirtyOpen) in d.causes, watched);
  }

  lemma NeededIs(d: Diagnosis, watched: bool)
    ensures NeededGiven(d, watched) ==
            StepIf(Broken(Heartbeat) in d.causes, MarkStale) + StepIf(Broken(ReplayLag) in d.causes, Replay)
            + StepIf(Broken(Shadow) in d.causes, VerifyShadow) + StepIf(Broken(DirtyOpen) in d.causes, VerifyDirtyOpenRecovery)
            + StepIf(watched, GeneratePurgePreview)
  {
  }

  lemma FiveSteps(stale: bool, lagging: bool, shadow: bool, dirty: bool, watched: bool)
    ensures var ids := StepIf(stale, MarkStale) + StepIf(lagging, Replay) + StepIf(shadow, VerifyShadow)
                       + StepIf(dirty, VerifyDirtyOpenRecovery) + StepIf(watched, GeneratePurgePreview);
            && (MarkStale in ids <==> stale) && (Replay in ids <==> lagging) && (VerifyShadow in ids <==> shadow)
            && (VerifyDirtyOpenRecovery in ids <==> dirty) && (GeneratePurgePreview in ids <==> watched)
            && NoOp !in ids && InPlace(ids)
  {
    hide InPlace, StepIf;
    NothingPlaced();
    var a := StepIf(stale, MarkStale);
    var b := a + StepIf(lagging, Replay);
    var c := b + StepIf(shadow, VerifyShadow);
    var e := c + StepIf(dirty, VerifyDirtyOpenRecovery);
    assert [] + a == a;
    PlacedNext([], stale, MarkStale);
    PlacedNext(a, lagging, Replay);
    PlacedNext(b, shadow, VerifyShadow);
    PlacedNext(c, dirty, VerifyDirtyOpenRecovery);
    PlacedNext(e, watched, GeneratePurgePreview);
  }

  lemma NothingPlaced()
    ensures InPlace([])
  {
  }

  lemma PlacedNext(ids: seq<StepId>, c: bool, id: StepId)
    requires InPlace(ids) && forall x :: x in ids ==> Place(x) < Place(id)
    ensures InPlace(ids + StepIf(c, id))
    ensures forall x :: x in ids + StepIf(c, id) <==> x in ids || (c && x == id)
  {
  }

  lemma WatchedExactly(r: Report)
    ensures DiskWatched(r) <==> Get(FieldsOf(DiskOf(r)), "pressure") in {Str("watch"), Str("warning"), Str("critical")}
  {
  }

  /** Which step answers which trouble, for every report: each is planned exactly for its own cause, at most once, and in a
      fixed order; the no-op exactly when there is nothing else. */
  lemma StepsExactly(iso: Iso, now: int, r: Report)
    ensures var ids := PlannedSteps(Diagnose(iso, now, r), r);
            && (MarkStale in ids <==> !HeartbeatOk(iso, now, r)) && (Replay in ids <==> !LagOk(r))
            && (VerifyShadow in ids <==> ShadowFailures(StoresOf(r)) != [])
            && (VerifyDirtyOpenRecovery in ids <==> !CleanOpen(r))
            && (GeneratePurgePreview in ids <==>
                Get(FieldsOf(DiskOf(r)), "pressure") in {Str("watch"), Str("warning"), Str("critical")})
            && (NoOp in ids <==> ids == [NoOp]) && ids != [] && InPlace(ids)
  {
    hide Diagnose, NeededGiven, ReportErrors, HeartbeatOk, LagOk, ShadowFailures, CleanOpen, PressureOk, DiskWatched, InvariantsWith;
    var d := Diagnose(iso, now, r);
    DiagnoseIs(iso, now, r);
    CausesExactly(ReportErrors(iso, r), iso, now, r);
    NeededExactly(d, DiskWatched(r));
    WatchedExactly(r);
  }

  /** The plan has a step of this id and kind. */
  ghost predicate Plans(steps: seq<Json>, id: string, kind: string) {
    exists i :: 0 <= i < |steps| && steps[i].Obj? && Get(steps[i].fields, "id") == Str(id) && Get(steps[i].fields, "kind") == Str(kind)
  }

  lemma StepShows(order: nat, id: StepId)
    ensures StepJson(order, id).Obj?
    ensures var d := StepJson(order, id).fields;
            Get(d, "id") == Str(StepText(id)) && Get(d, "kind") == Str(KindText(id))
  {
  }

  lemma StepNames(id: StepId)
    ensures StepText(id) == "mark_stale_and_restart_if_managed" <==> id == MarkStale
    ensures StepText(id) == "run_replay" <==> id == Replay
    ensures StepText(id) == "verify_or_rebuild_shadow" <==> id == VerifyShadow
    ensures StepText(id) == "verify_dirty_open_recovery" <==> id == VerifyDirtyOpenRecovery
    ensures StepText(id) == "generate_purge_preview" <==> id == GeneratePurgePreview
    ensures StepText(id) == "no_op" <==> id == NoOp
  {
  }

  lemma StepKinds()
    ensures KindText(MarkStale) == "control" && KindText(Replay) == "replay" && KindText(VerifyShadow) == "verification"
    ensures KindText(VerifyDirtyOpenRecovery) == "verification" && KindText(GeneratePurgePreview) == "purge-preview"
    ensures KindText(NoOp) == "control"
  {
  }

  lemma PlansExactly(ids: seq<StepId>, id: StepId)
    ensures Plans(StepItems(ids), StepText(id), KindText(id)) <==> id in ids
  {
    hide StepText, KindText, StepJson, StepItems, Get;
    StepItemsAt(ids);
    forall i | 0 <= i < |ids|
      ensures StepItems(ids)[i].Obj? && Get(StepItems(ids)[i].fields, "id") == Str(StepText(ids[i]))
              && Get(StepItems(ids)[i].fields, "kind") == Str(KindText(ids[i]))
    {
      StepShows(i + 1, ids[i]);
    }
    if Plans(StepItems(ids), StepText(id), KindText(id)) {
      var i :| 0 <= i < |ids| && StepItems(ids)[i].Obj? && Get(StepItems(ids)[i].fields, "id") == Str(StepText(id));
      TextNames(ids[i], id);
    }
  }

  lemma TextNames(a: StepId, b: StepId)
    requires StepText(a) == StepText(b)
    ensures a == b
  {
    hide StepText;
    StepNames(a);
    StepNames(b);
  }

  /** The same about the plan as it is written out. */
  lemma PlanAnswersExactly(iso: Iso, now: int, r: Report, nowText: string, digest: string)
    ensures Get(PlanFor(iso, now, r, nowText, digest), "steps").Arr?
    ensures var steps := Get(PlanFor(iso, now, r, nowText, digest), "steps").items;
            && (Plans(steps, "mark_stale_and_restart_if_managed", "control") <==> !HeartbeatOk(iso, now, r))
            && (Plans(steps, "run_replay", "replay") <==> !LagOk(r))
            && (Plans(steps, "verify_or_rebuild_shadow", "verification") <==> ShadowFailures(StoresOf(r)) != [])
            && (Plans(steps, "verify_dirty_open_recovery", "verification") <==> !CleanOpen(r))
            && (Plans(steps, "generate_purge_preview", "purge-preview") <==>
                Get(FieldsOf(DiskOf(r)), "pressure") in {Str("watch"), Str("warning"), Str("critical")})
            && (Plans(steps, "no_op", "control") <==>
                HeartbeatOk(iso, now, r) && LagOk(r) && ShadowFailures(StoresOf(r)) == [] && CleanOpen(r)
                && Get(FieldsOf(DiskOf(r)), "pressure") !in {Str("watch"), Str("warning"), Str("critical")})
  {
    hide *;
    var ids := PlannedSteps(Diagnose(iso, now, r), r);
    StepsExactly(iso, now, r);
    PlanHasSteps(iso, now, r, nowText, digest);
    StepKinds();
    StepNames(MarkStale);
    StepNames(Replay);
    StepNames(VerifyShadow);
    StepNames(VerifyDirtyOpenRecovery);
    StepNames(GeneratePurgePreview);
    StepNames(NoOp);
    StepItemsAt(ids);
    PlansExactly(ids, MarkStale);
    PlansExactly(ids, Replay);
    PlansExactly(ids, VerifyShadow);
    PlansExactly(ids, VerifyDirtyOpenRecovery);
    PlansExactly(ids, GeneratePurgePreview);
    PlansExactly(ids, NoOp);
    OneOfSix(ids);
  }

  lemma OneOfSix(ids: seq<StepId>)
    requires ids != [] && (NoOp in ids <==> ids == [NoOp])
    ensures NoOp in ids <==>
            MarkStale !in ids && Replay !in ids && VerifyShadow !in ids && VerifyDirtyOpenRecovery !in ids
            && GeneratePurgePreview !in ids
  {
    assert ids[0] in ids;
    assert forall x :: x in [NoOp] ==> x == NoOp;
    match ids[0] case MarkStale => case Replay => case VerifyShadow => case VerifyDirtyOpenRecovery =>
                 case GeneratePurgePreview => case NoOp =>
  }

  lemma PlanFrame(generatedAt: Json, source: Json, planId: Json, severity: Json, summary: Json, steps: Json)
    ensures var plan := PlanObject(generatedAt, source, planId, severity, summary, steps);
            && Get(plan, "severity") == severity && Get(plan, "summary") == summary && Get(plan, "source_report") == source
            && Get(plan, "plan_id") == planId && Get(plan, "generated_at") == generatedAt
  {
  }

  lemma SourceShown(r: Report)
    ensures var d := FieldsOf(SourceReport(r));
            && Get(d, "schema") == Get(r, "schema") && Get(d, "generated_at") == Get(r, "generated_at")
            && Get(d, "component") == Get(FieldsOf(Get(r, "identity")), "component")
  {
  }

  lemma DiagnosisHead(d: Diagnosis)
    ensures Get(DiagnosisFields(d), "severity") == Str(SeverityText(d.severity))
    ensures Get(DiagnosisFields(d), "summary") == Str(SummaryText(d.status))
  {
    hide StatusText, SeverityText, SummaryText, CauseText, SafeActionText, BlockedActionText, SortedSet, Texts;
  }

  /** A plan names the report it is for and repeats the severity and summary of the diagnosis as it is written. */
  lemma PlanNamesItsReport(iso: Iso, now: int, r: Report, nowText: string, digest: string)
    ensures var plan, d := PlanFor(iso, now, r, nowText, digest), DiagnosisFields(Diagnose(iso, now, r));
            var source := FieldsOf(Get(plan, "source_report"));
            && Get(plan, "severity") == Get(d, "severity") && Get(plan, "summary") == Get(d, "summary")
            && Get(plan, "generated_at") == Str(nowText)
            && Get(source, "schema") == Get(r, "schema") && Get(source, "generated_at") == Get(r, "generated_at")
            && Get(source, "component") == Get(FieldsOf(Get(r, "identity")), "component")
  {
    hide StepItems, PlannedSteps, Diagnose, PlanObject, SourceReport, SeverityText, SummaryText, DiagnosisFields, Get;
    var d := Diagnose(iso, now, r);
    PlanFrame(Str(nowText), SourceReport(r), Str("repair-plan-" + digest), Str(SeverityText(d.severity)),
              Str(SummaryText(d.status)), Arr(StepItems(PlannedSteps(d, r))));
    SourceShown(r);
    DiagnosisHead(d);
  }

  lemma PlanHasSteps(iso: Iso, now: int, r: Report, nowText: string, digest: string)
    ensures Get(PlanFor(iso, now, r, nowText, digest), "steps") == Arr(StepItems(PlannedSteps(Diagnose(iso, now, r), r)))
  {
    hide StepItems, PlannedSteps, Diagnose, PlanObject, SourceReport, SeverityText, SummaryText;
    var d := Diagnose(iso, now, r);
    PlanValues(Str(nowText), SourceReport(r), Str("repair-plan-" + digest), Str(SeverityText(d.severity)),
               Str(SummaryText(d.status)), Arr(StepItems(PlannedSteps(d, r))));
  }

  lemma DiskUnwatched(r: Report)
    requires !DiskWatched(r)
    ensures PressureOk(r) <==> PressureOf(r) != Str("unknown")
  {
  }

  lemma AllSixPass(invs: seq<Invariant>, contract: bool, heartbeat: bool, lag: bool, shadow: bool, disk: bool, clean: bool)
    requires Gates.Six(invs, contract, heartbeat, lag, shadow, disk, clean)
    ensures (forall v :: v in invs ==> v.status == Pass) <==> contract && heartbeat && lag && shadow && disk && clean
  {
    assert invs == [invs[0], invs[1], invs[2], invs[3], invs[4], invs[5]];
    assert forall v :: v in invs <==> v == invs[0] || v == invs[1] || v == invs[2] || v == invs[3] || v == invs[4] || v == invs[5];
    assert invs[0] in invs && invs[1] in invs && invs[2] in invs && invs[3] in invs && invs[4] in invs && invs[5] in invs;
  }

  /** The lone no-op is planned "because all invariants pass". Of the reports that get it, those really are healthy, with
      every invariant passing, whose contract holds and whose disk pressure is known; all others are unsafe. */
  lemma NoOpIsHealthyExactly(iso: Iso, now: int, r: Report)
    ensures PlannedSteps(Diagnose(iso, now, r), r) == [NoOp] ==>
              var fine := ReportErrors(iso, r) == [] && PressureOf(r) != Str("unknown");
              && (Diagnose(iso, now, r).status == Healthy <==> fine)
              && (Diagnose(iso, now, r).status == Unsafe <==> !fine)
              && ((forall v :: v in Verify(iso, now, r) ==> v.status == Pass) <==> fine)
  {
    hide *;
    PlanShape(iso, now, r, "", "");
    if PlannedSteps(Diagnose(iso, now, r), r) == [NoOp] { DiskUnwatched(r); }
    DiagnoseIs(iso, now, r);
    var invs := Verify(iso, now, r);
    Gates.VerifyGivesSix(ReportErrors(iso, r), iso, now, r);
    Gates.SixStatus(invs, ReportErrors(iso, r) == [], HeartbeatOk(iso, now, r), LagOk(r), ShadowFailures(StoresOf(r)) == [],
                    PressureOk(r), CleanOpen(r));
    AllSixPass(invs, ReportErrors(iso, r) == [], HeartbeatOk(iso, now, r), LagOk(r), ShadowFailures(StoresOf(r)) == [],
               PressureOk(r), CleanOpen(r));
    StatusIs(invs, r);
  }

  lemma StatusIs(invs: seq<Invariant>, r: Report)
    ensures DiagnoseWith(invs, r).status == StatusOf(invs).0
  {
    hide StatusOf, NotPassing, AffectedLanes, CollectionCauses;
  }
}
