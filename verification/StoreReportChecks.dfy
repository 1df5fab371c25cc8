/** What the checks and the gates say about any report made from a store. */
module StoreReportChecks {
  import opened Text
  import opened Sums
  import opened Json
  import opened Reports
  import opened FreshDiagnosis
  import opened StoreReports
  import opened Gates
  import Store = LocalStore
  import Runs = StoreRuns
  import Policy = Policies
  import Plans = RepairPlans
  import Causes = Diagnoses

  function ReportOf(iso: Iso, h: Host, f: Store.Files, bytes: nat): Report {
    StoreReport(iso, h, Store.Summarized(f, bytes))
  }

  lemma ReportOfIs(iso: Iso, h: Host, f: Store.Files, bytes: nat)
    ensures ReportOf(iso, h, f, bytes) == StoreReport(iso, h, Store.Summarized(f, bytes))
  {
    hide StoreReport, Store.Summarized;
  }

  lemma SettledKeys(r: Report)
    requires Settled(r)
    ensures REWRITTEN <= r.Keys
  {
  }

  // ---------- the contract ----------

  lemma BodyFrom(iso: Iso, r: Report)
    requires ParseInstant(iso, Get(r, "generated_at")).Some?
    requires IdentityErrors(Get(r, "identity")) == [] && CollectionErrors(Get(r, "collection")) == []
    requires RuntimeErrors(iso, Get(r, "runtime")) == [] && DiskErrors(DiskOf(r)) == [] && PolicyErrors(Get(r, "policy")) == []
    ensures BodyErrors(iso, r) == [] <==>
            ListErrors(ItemsOf(Get(r, "stores")), StoreErrors) == [] && LanesErrors(Get(r, "lanes")) == []
  {
  }

  lemma DiskFrom(r: Report, h: Host)
    requires Get(r, "resources") == ResourcesSection(h)
    ensures DiskOf(r) == DiskSection(h)
  {
    assert "resources" in r;
  }

  lemma ProjectedBody(iso: Iso, h: Host, s: Store.Summary)
    requires HostOk(iso, h) && s.checksum in CHECKSUM_STATES && GoodLanes(s.lanes)
    ensures BodyErrors(iso, Projected(iso, h, s)) == [] <==> s.manifest.migrationState in MIGRATION_STATES && s.lanes != []
  {
    ProjectedParts(iso, h, s);
    BodyOfSections(iso, h, s, Projected(iso, h, s), PolicyCounts(s.lanes));
  }

  /** The body of any report made of the sections of a store report. */
  lemma BodyOfSections(iso: Iso, h: Host, s: Store.Summary, p: Report, c: Policy.Counts)
    requires HostOk(iso, h) && s.checksum in CHECKSUM_STATES && GoodLanes(s.lanes)
    requires Get(p, "generated_at") == Str(h.nowText) && Get(p, "runtime") == RuntimeSection(Str(h.nowText))
    requires Get(p, "resources") == ResourcesSection(h) && Get(p, "identity") == IdentitySection(h)
    requires Get(p, "collection") == CollectionSection(s.initialized) && Get(p, "policy") == PolicySection(c)
    requires Get(p, "stores") == Arr([StoreJson(s)]) && Get(p, "lanes") == Arr(LaneItems(s.lanes))
    ensures BodyErrors(iso, p) == [] <==> s.manifest.migrationState in MIGRATION_STATES && s.lanes != []
  {
    IdentityPasses(iso, h);
    CollectionPasses(s.initialized);
    RuntimePasses(iso, Str(h.nowText));
    DiskFrom(p, h);
    DiskPasses(iso, h);
    PolicyPasses(c);
    BodyFrom(iso, p);
    OneStorePasses(s);
    LaneListPasses(s.lanes);
    LaneItemsAt(s.lanes);
  }

  lemma ShapeFrom(r: Report)
    requires REQUIRED_TOP_LEVEL <= r.Keys && Get(r, "schema") == Str(STATE_SCHEMA) && Get(r, "lanes").Arr? && Get(r, "stores").Arr?
    ensures ShapeErrors(r) == []
  {
    NothingMissing("report", r, REQUIRED_TOP_LEVEL);
  }

  lemma ProjectedShape(iso: Iso, h: Host, s: Store.Summary)
    ensures ShapeErrors(Projected(iso, h, s)) == [] && ShapeErrors(StoreReport(iso, h, s)) == []
  {
    hide *;
    var p, r := Projected(iso, h, s), StoreReport(iso, h, s);
    ProjectedParts(iso, h, s);
    ShapeFrom(p);
    StoreReportIs(iso, h, s);
    FinishedParts(iso, h.now, p, StoreKeysOf(h, s));
    SettledKeys(p);
    SettledKeys(r);
    SameShape(p, r);
  }

  /** The lanes and the store of a summary always have known statuses and checksums, and distinct names. */
  lemma SummaryIsGood(f: Store.Files, bytes: nat)
    ensures var s := Store.Summarized(f, bytes);
            && s.checksum in CHECKSUM_STATES && GoodLanes(s.lanes)
            && |s.lanes| == |Store.SummaryOrder(f)|
            && s.manifest == Store.SummaryManifest(f)
            && (forall i :: 0 <= i < |s.lanes| ==> s.lanes[i].name == Store.SummaryOrder(f)[i])
  {
    var es, order := Store.SummaryEvents(f), Store.SummaryOrder(f);
    Runs.FinalLanesAt(order, f.manifest.Some?, es, bytes);
    Store.LaneOrderFacts(Store.SummaryManifest(f).lanes, es);
    forall i | 0 <= i < |order|
      ensures Store.FinalLane(order[i], f.manifest.Some?, es, bytes).status in LANE_STATUSES
      ensures Store.FinalLane(order[i], f.manifest.Some?, es, bytes).name == order[i]
    {
      StatusKnown(order[i], f.manifest.Some?, es, bytes);
    }
  }

  lemma StatusKnown(l: string, initialized: bool, es: seq<Store.Event>, bytes: nat)
    ensures Store.FinalLane(l, initialized, es, bytes).status in LANE_STATUSES
    ensures Store.FinalLane(l, initialized, es, bytes).name == l
  {
  }

  /** A settled report of the right shape passes exactly when its body does, and the body is that of its core. */
  lemma ContractFrom(iso: Iso, p: Report, r: Report)
    requires Core(r) == Core(p) && Settled(r) && ShapeErrors(r) == []
    ensures ReportErrors(iso, r) == [] <==> BodyErrors(iso, p) == []
  {
    SameBody(iso, p, r);
  }

  lemma StoreReportSettles(iso: Iso, h: Host, s: Store.Summary)
    ensures var r := StoreReport(iso, h, s);
            Core(r) == Core(Projected(iso, h, s)) && Settled(r) && ShapeErrors(r) == []
  {
    ProjectedParts(iso, h, s);
    FinishedParts(iso, h.now, Projected(iso, h, s), StoreKeysOf(h, s));
    ProjectedShape(iso, h, s);
  }

  /** The report made from any store passes the whole contract exactly when the manifest's migration state is a known
      one and there is at least one lane; damage, strange events and missing initialisation never matter. */
  lemma StoreReportIsValid(iso: Iso, h: Host, f: Store.Files, bytes: nat)
    requires HostOk(iso, h)
    ensures ReportErrors(iso, ReportOf(iso, h, f, bytes)) == [] <==>
            Store.SummaryManifest(f).migrationState in MIGRATION_STATES && Store.SummaryOrder(f) != []
  {
    hide *;
    ReportOfIs(iso, h, f, bytes);
    var s := Store.Summarized(f, bytes);
    SummaryIsGood(f, bytes);
    StoreReportSettles(iso, h, s);
    ProjectedBody(iso, h, s);
    ContractFrom(iso, Projected(iso, h, s), StoreReport(iso, h, s));
  }

  /** So it passes for a store that was never initialised ... */
  lemma UninitialisedReportsAreValid(iso: Iso, h: Host, f: Store.Files, bytes: nat)
    requires HostOk(iso, h) && f.manifest.None?
    ensures ReportErrors(iso, ReportOf(iso, h, f, bytes)) == []
  {
    hide *;
    MissingManifest(f);
    DefaultsAreValid(iso, h, f, bytes);
  }

  lemma MissingManifest(f: Store.Files)
    requires f.manifest.None?
    ensures Store.SummaryManifest(f).lanes == Store.DEFAULT_LANES && Store.SummaryManifest(f).migrationState == "none"
  {
  }

  lemma RunManifest(ops: seq<Runs.Op>)
    ensures var f := Runs.After(Runs.Fresh, ops).files;
            && f.manifest.Some? && f.directories
            && Store.SummaryManifest(f).lanes == Store.DEFAULT_LANES && Store.SummaryManifest(f).migrationState == "none"
  {
    Runs.IdsCountAppends(ops);
  }

  /** ... and after every run of appends, cuts and damage. */
  lemma ReportsOfRunsAreValid(iso: Iso, h: Host, ops: seq<Runs.Op>, bytes: nat)
    requires HostOk(iso, h)
    ensures ReportErrors(iso, ReportOf(iso, h, Runs.After(Runs.Fresh, ops).files, bytes)) == []
  {
    hide *;
    RunManifest(ops);
    DefaultsAreValid(iso, h, Runs.After(Runs.Fresh, ops).files, bytes);
  }

  lemma DefaultLanesThere(f: Store.Files)
    requires Store.SummaryManifest(f).lanes == Store.DEFAULT_LANES
    ensures Store.SummaryOrder(f) != [] && "priority" in Store.SummaryOrder(f)
  {
    Store.LaneOrderFacts(Store.SummaryManifest(f).lanes, Store.SummaryEvents(f));
    assert Store.DEFAULT_LANES[1] in Store.SummaryOrder(f);
  }

  lemma NoneIsKnown()
    ensures "none" in MIGRATION_STATES
  {
  }

  lemma DefaultsAreValid(iso: Iso, h: Host, f: Store.Files, bytes: nat)
    requires HostOk(iso, h)
    requires Store.SummaryManifest(f).lanes == Store.DEFAULT_LANES && Store.SummaryManifest(f).migrationState == "none"
    ensures ReportErrors(iso, ReportOf(iso, h, f, bytes)) == []
  {
    hide *;
    StoreReportIsValid(iso, h, f, bytes);
    DefaultLanesThere(f);
    NoneIsKnown();
  }

  lemma ProjectedIsDated(iso: Iso, h: Host, s: Store.Summary)
    requires HostOk(iso, h)
    ensures Settled(Projected(iso, h, s)) && Dated(iso, Projected(iso, h, s))
  {
    hide Projected, Settled, Refresh;
    ProjectedParts(iso, h, s);
  }

  lemma StoreKeysAre(h: Host, s: Store.Summary)
    ensures StoreKeysOf(h, s).Keys == STORE_KEYS && "local_state" in STORE_KEYS
    ensures StoreKeysOf(h, s)["local_state"] == LocalStateJson(h, s)
  {
    hide LocalStateJson, TopProducersJson, PolicySummary, LaneNames;
  }

  lemma LocalStateStays(p: Report, r: Report, d: Json)
    requires Core(p) == Core(r)
    ensures Get(p, "local_state") == Get(r, "local_state") == Get(r["diagnosis" := d], "local_state")
  {
    SameSections(p, r);
    assert "local_state" !in REWRITTEN;
  }

  /** The invariants and controls of a store report are what a fresh look gives at any later time, although the
      diagnosis is written before the invariants. The diagnosis says what a fresh one says and three things more, so the
      first refresh drops exactly those three (of which the local state survives beside the diagnosis), and the next one
      changes nothing. */
  lemma RefreshDropsStoreKeys(iso: Iso, h: Host, f: Store.Files, bytes: nat, later: int, latest: int)
    requires HostOk(iso, h)
    ensures var r, extras := ReportOf(iso, h, f, bytes), StoreKeysOf(h, Store.Summarized(f, bytes));
            var own, x := DiagnosisFields(Diagnose(iso, later, r)), Refresh(iso, later, r);
            && Get(r, "invariants") == InvariantsJson(Verify(iso, later, r))
            && Get(r, "controls") == Arr(ControlItems(ControlsFor(iso, later, r)))
            && Get(r, "diagnosis") == Obj(own + extras)
            && extras.Keys == STORE_KEYS && own.Keys !! STORE_KEYS
            && x == r["diagnosis" := Obj(own)] && x != r && !Agrees(iso, later, r)
            && Get(x, "local_state") == extras["local_state"]
            && Agrees(iso, latest, x) && Refresh(iso, latest, x) == x
  {
    hide *;
    var s, r := Store.Summarized(f, bytes), ReportOf(iso, h, f, bytes);
    var p, extras := Projected(iso, h, s), StoreKeysOf(h, s);
    ReportOfIs(iso, h, f, bytes);
    StoreReportIs(iso, h, s);
    ProjectedIsDated(iso, h, s);
    ProjectedParts(iso, h, s);
    FinishedAgrees(iso, h.now, later, p, extras);
    OnlyTheDiagnosisMoves(iso, later, r);
    var d := Diagnose(iso, later, r);
    StoreKeysAre(h, s);
    ExtrasAreNew(d, extras);
    LocalStateStays(p, r, DiagnosisJson(d));
    AgreesIs(iso, later, r);
    DiagnosisMoved(r, DiagnosisJson(d));
    SettledIsFixed(iso, later, latest, r);
    AgreesIs(iso, latest, Refresh(iso, later, r));
  }

  lemma DiagnosisMoved(r: Report, d: Json)
    ensures Get(r["diagnosis" := d], "diagnosis") == d
  {
  }

  // ---------- what the report says ----------

  /** What the functions that read a report find in one made from summary `s` on host `h`. */
  predicate MadeFrom(r: Report, h: Host, s: Store.Summary) {
    && LanesOf(r) == LaneItems(s.lanes)
    && StoresOf(r) == [StoreJson(s)]
    && DiskOf(r) == DiskSection(h)
    && RuntimeOf(r) == RuntimeSection(Str(h.nowText)).fields
    && Get(r, "policy") == PolicySection(PolicyCounts(s.lanes))
    && Get(r, "generated_at") == Str(h.nowText) && Get(r, "attestation") == Unsigned()
    && Get(r, "pipeline") == PipelineJson(s.pipeline)
  }

  lemma ReportIsMadeFrom(iso: Iso, h: Host, s: Store.Summary)
    ensures MadeFrom(StoreReport(iso, h, s), h, s)
  {
    hide *;
    var p := Projected(iso, h, s);
    ProjectedParts(iso, h, s);
    StoreReportIs(iso, h, s);
    FinishedParts(iso, h.now, p, StoreKeysOf(h, s));
    DiskFrom(p, h);
    SectionsFrom(p, s, h);
    MadeFromParts(p, h, s);
    MadeAlike(p, StoreReport(iso, h, s), h, s);
  }

  lemma MadeFromParts(r: Report, h: Host, s: Store.Summary)
    ensures MadeFrom(r, h, s) <==>
            && LanesOf(r) == LaneItems(s.lanes) && StoresOf(r) == [StoreJson(s)] && DiskOf(r) == DiskSection(h)
            && RuntimeOf(r) == RuntimeSection(Str(h.nowText)).fields
            && Get(r, "policy") == PolicySection(PolicyCounts(s.lanes))
            && Get(r, "generated_at") == Str(h.nowText) && Get(r, "attestation") == Unsigned()
            && Get(r, "pipeline") == PipelineJson(s.pipeline)
  {
  }

  lemma MadeAlike(p: Report, r: Report, h: Host, s: Store.Summary)
    requires Core(p) == Core(r) && MadeFrom(p, h, s)
    ensures MadeFrom(r, h, s)
  {
    SameLookups(p, r);
    SameValues(p, r);
  }

  lemma SameValues(p: Report, r: Report)
    requires Core(p) == Core(r)
    ensures Get(p, "policy") == Get(r, "policy") && Get(p, "attestation") == Get(r, "attestation")
    ensures Get(p, "generated_at") == Get(r, "generated_at") && Get(p, "pipeline") == Get(r, "pipeline")
  {
    SameSections(p, r);
    assert "policy" !in REWRITTEN && "generated_at" !in REWRITTEN && "attestation" !in REWRITTEN && "pipeline" !in REWRITTEN;
  }

  lemma SectionsFrom(p: Report, s: Store.Summary, h: Host)
    requires Get(p, "lanes") == Arr(LaneItems(s.lanes)) && Get(p, "stores") == Arr([StoreJson(s)])
    requires Get(p, "runtime") == RuntimeSection(Str(h.nowText))
    ensures LanesOf(p) == LaneItems(s.lanes) && StoresOf(p) == [StoreJson(s)]
    ensures RuntimeOf(p) == RuntimeSection(Str(h.nowText)).fields
  {
    assert "lanes" in p && "stores" in p && "runtime" in p;
  }

  lemma LaneReads(l: Store.LaneSummary)
    ensures LagOf(LaneJson(l)) == l.replayLag && AllowanceOf(LaneJson(l)) == l.maxReplayLag
    ensures ReadableLane(LaneJson(l).fields) && Get(LaneJson(l).fields, "name") == Str(l.name)
  {
    hide *;
    LaneJsonIs(l);
    SectionsRead(l);
    LaneObjectReads(Str(l.name), Str(l.status), SlaSection(l), ObjectsSection(l), JournalSection(l));
    ReadableSections(LaneJson(l).fields, SlaSection(l), JournalSection(l));
  }

  lemma LaneJsonIs(l: Store.LaneSummary)
    ensures LaneJson(l) == Obj(LaneObject(Str(l.name), Str(l.status), SlaSection(l), ObjectsSection(l), JournalSection(l)))
  {
    hide LaneObject, SlaSection, ObjectsSection, JournalSection;
  }

  lemma SectionsRead(l: Store.LaneSummary)
    ensures SlaSection(l).Obj? && Get(SlaSection(l).fields, "max_replay_lag_events") == Int(l.maxReplayLag)
    ensures JournalSection(l).Obj? && Get(JournalSection(l).fields, "replay_lag_events") == Int(l.replayLag)
    ensures Count(Int(l.maxReplayLag)) == l.maxReplayLag && Count(Int(l.replayLag)) == l.replayLag
    ensures CountLike(Int(l.maxReplayLag)) && CountLike(Int(l.replayLag))
  {
  }

  lemma LaneObjectReads(name: Json, status: Json, sla: Json, objects: Json, journal: Json)
    requires sla.Obj? && journal.Obj?
    ensures var d := LaneObject(name, status, sla, objects, journal);
            && LagOf(Obj(d)) == Count(Get(journal.fields, "replay_lag_events"))
            && AllowanceOf(Obj(d)) == Count(Get(sla.fields, "max_replay_lag_events"))
            && GetOr(d, "sla", Obj(map[])) == sla && GetOr(d, "journal", Obj(map[])) == journal
            && Get(d, "name") == name && "name" in d && d["name"] == name
  {
    hide Count;
  }

  lemma ReadableSections(d: Fields, sla: Json, journal: Json)
    requires GetOr(d, "sla", Obj(map[])) == sla && GetOr(d, "journal", Obj(map[])) == journal && sla.Obj? && journal.Obj?
    requires "name" in d ==> d["name"].Str?
    requires CountLike(Get(journal.fields, "replay_lag_events")) && CountLike(Get(sla.fields, "max_replay_lag_events"))
    ensures ReadableLane(d)
  {
    hide CountLike, Get, GetOr;
  }

  lemma LanesRead(lanes: seq<Store.LaneSummary>, lane: Json)
    requires lane in LaneItems(lanes)
    ensures lane.Obj? && ReadableLane(lane.fields) && Get(lane.fields, "name").Str?
    ensures Get(lane.fields, "name").s in LaneNames(lanes)
  {
    LaneItemsAt(lanes);
    var i :| 0 <= i < |lanes| && LaneItems(lanes)[i] == lane;
    LaneReads(lanes[i]);
    assert LaneNames(lanes)[i] == lanes[i].name;
  }

  lemma ReadableFrom(p: Report, s: Store.Summary, h: Host)
    requires Get(p, "runtime").Obj? && Get(p, "collection").Obj? && Get(p, "identity").Obj?
    requires Get(p, "resources").Obj? && DiskOf(p).Obj? && Get(p, "stores").Arr? && Get(p, "lanes") == Arr(LaneItems(s.lanes))
    ensures Readable(p)
  {
    assert "collection" in p && "identity" in p && "resources" in p && "runtime" in p && "stores" in p && "lanes" in p;
    forall lane | lane in LanesOf(p) && lane.Obj? ensures ReadableLane(lane.fields) {
      LanesRead(s.lanes, lane);
    }
  }

  /** None of the functions that read the report meets anything it cannot handle. */
  lemma StoreReportIsReadable(iso: Iso, h: Host, s: Store.Summary)
    ensures Readable(StoreReport(iso, h, s))
  {
    hide Projected, StoreReport, Finished, Refresh, StoreJson, LaneItems, PolicyCounts, PipelineJson, Settled, Core, Readable;
    var p := Projected(iso, h, s);
    ProjectedParts(iso, h, s);
    StoreReportIs(iso, h, s);
    FinishedParts(iso, h.now, p, StoreKeysOf(h, s));
    DiskFrom(p, h);
    ReadableFrom(p, s, h);
    SameReadable(p, StoreReport(iso, h, s));
  }

  // ---------- the journal in the report ----------

  function ObjectsOf(lane: Json): Fields {
    FieldsOf(Get(FieldsOf(lane), "objects"))
  }

  lemma LaneSections(name: Json, status: Json, sla: Json, objects: Json, journal: Json)
    ensures var lane := Obj(LaneObject(name, status, sla, objects, journal));
            ObjectsOf(lane) == FieldsOf(objects) && Get(FieldsOf(lane), "name") == name && Get(FieldsOf(lane), "status") == status
  {
  }

  lemma LaneShows(l: Store.LaneSummary)
    ensures var o := ObjectsOf(LaneJson(l));
            && Get(o, "total") == Int(l.total) && Get(o, "tombstones") == Int(l.tombstones) && Get(o, "corrupted") == Int(l.corrupted)
            && Get(FieldsOf(LaneJson(l)), "name") == Str(l.name) && Get(FieldsOf(LaneJson(l)), "status") == Str(l.status)
  {
    LaneSections(Str(l.name), Str(l.status), SlaSection(l), ObjectsSection(l), JournalSection(l));
  }

  lemma FinalShows(l: string, initialized: bool, es: seq<Store.Event>, bytes: nat)
    ensures var lane, corrupt := Store.FinalLane(l, initialized, es, bytes), CountIf(es, Store.IsCorrupt);
            && lane.name == l
            && (lane.status == "degraded" <==> l == "repair" && corrupt > 0)
            && lane.total == (if l == "normal" then |Store.SeenObjects(es) - Store.DeletedObjects(es)|
                              else CountIf(es, Store.InLane(l, Store.Maintains)))
            && lane.tombstones == CountIf(es, Store.InLane(l, Store.Tombstones))
            && lane.corrupted == CountIf(es, Store.InLane(l, Store.IsCorrupt)) + (if l == "repair" then corrupt else 0)
  {
  }

  lemma LaneOfEvents(name: string, initialized: bool, es: seq<Store.Event>, bytes: nat)
    ensures LaneCounts(LaneJson(Store.FinalLane(name, initialized, es, bytes)), name, es)
  {
    LaneShows(Store.FinalLane(name, initialized, es, bytes));
    FinalShows(name, initialized, es, bytes);
  }

  lemma LanesOfEvents(lanes: seq<Json>, f: Store.Files, bytes: nat, i: nat)
    requires i < |Store.SummaryOrder(f)| && lanes == LaneItems(Store.Summarized(f, bytes).lanes)
    ensures |lanes| == |Store.SummaryOrder(f)|
    ensures LaneCounts(lanes[i], Store.SummaryOrder(f)[i], Store.SummaryEvents(f))
  {
    Runs.FinalLanesAt(Store.SummaryOrder(f), f.manifest.Some?, Store.SummaryEvents(f), bytes);
    LaneItemsAt(Store.Summarized(f, bytes).lanes);
    LaneOfEvents(Store.SummaryOrder(f)[i], f.manifest.Some?, Store.SummaryEvents(f), bytes);
  }

  /** The report counts the journal: the i-th lane carries the i-th name, the tombstones, the corruption and the
      maintenance events of exactly that lane, lane "normal" the live objects, and only a corrupted lane "repair" is degraded. */
  lemma ReportCountsEvents(iso: Iso, h: Host, f: Store.Files, bytes: nat, i: nat)
    requires i < |Store.SummaryOrder(f)|
    ensures var lanes := LanesOf(ReportOf(iso, h, f, bytes));
            && |lanes| == |Store.SummaryOrder(f)|
            && LaneCounts(lanes[i], Store.SummaryOrder(f)[i], Store.SummaryEvents(f))
  {
    hide *;
    ReportOfIs(iso, h, f, bytes);
    ReportIsMadeFrom(iso, h, Store.Summarized(f, bytes));
    MadeFromParts(ReportOf(iso, h, f, bytes), h, Store.Summarized(f, bytes));
    LanesOfEvents(LanesOf(ReportOf(iso, h, f, bytes)), f, bytes, i);
  }

  /** What a lane object says, read off the events. */
  ghost predicate LaneCounts(lane: Json, name: string, es: seq<Store.Event>) {
    && Get(FieldsOf(lane), "name") == Str(name)
    && (Get(FieldsOf(lane), "status") == Str("degraded") <==> name == "repair" && CountIf(es, Store.IsCorrupt) > 0)
    && Get(ObjectsOf(lane), "tombstones") == Int(CountIf(es, Store.InLane(name, Store.Tombstones)))
    && Get(ObjectsOf(lane), "corrupted") == Int(CountIf(es, Store.InLane(name, Store.IsCorrupt))
                                                + if name == "repair" then CountIf(es, Store.IsCorrupt) else 0)
    && Get(ObjectsOf(lane), "total") == Int(if name == "normal" then |Store.SeenObjects(es) - Store.DeletedObjects(es)|
                                            else CountIf(es, Store.InLane(name, Store.Maintains)))
  }

  function Stage(pipeline: Json, kind: string, stage: string): Json {
    Get(FieldsOf(Get(FieldsOf(pipeline), kind)), stage)
  }

  lemma PipelineShows(p: Store.Pipeline)
    ensures var j := PipelineJson(p);
            && Stage(j, "add", "accepted") == Int(p.add.accepted) && Stage(j, "add", "applied") == Int(p.add.applied)
            && Stage(j, "update", "accepted") == Int(p.update.accepted) && Stage(j, "update", "applied") == Int(p.update.applied)
            && Stage(j, "delete", "tombstoned") == Int(p.delete.tombstoned)
            && Stage(j, "delete", "propagated") == Int(p.delete.propagated)
  {
  }

  /** The stages of the pipeline, read off the events. */
  ghost predicate PipelineCounts(j: Json, es: seq<Store.Event>) {
    && Stage(j, "add", "accepted") == Int(CountIf(es, Store.OfType(Store.Add)))
    && Stage(j, "add", "applied") == Int(CountIf(es, Store.AppliedOfType(Store.Add)))
    && Stage(j, "update", "accepted") == Int(CountIf(es, Store.OfType(Store.Update)))
    && Stage(j, "update", "applied") == Int(CountIf(es, Store.AppliedOfType(Store.Update)))
    && Stage(j, "delete", "tombstoned") == Int(CountIf(es, Store.OfType(Store.Delete)))
    && Stage(j, "delete", "propagated") == Int(CountIf(es, Store.AppliedOfType(Store.Delete)))
  }

  lemma PipelineOfEvents(f: Store.Files, bytes: nat)
    ensures PipelineCounts(PipelineJson(Store.Summarized(f, bytes).pipeline), Store.SummaryEvents(f))
  {
    PipelineShows(Store.Summarized(f, bytes).pipeline);
  }

  /** ... and its pipeline counts the adds, updates and deletes of the journal, and those of them that were applied. */
  lemma ReportCountsPipeline(iso: Iso, h: Host, f: Store.Files, bytes: nat)
    ensures PipelineCounts(Get(ReportOf(iso, h, f, bytes), "pipeline"), Store.SummaryEvents(f))
  {
    hide *;
    ReportOfIs(iso, h, f, bytes);
    ReportIsMadeFrom(iso, h, Store.Summarized(f, bytes));
    MadeFromParts(ReportOf(iso, h, f, bytes), h, Store.Summarized(f, bytes));
    PipelineOfEvents(f, bytes);
  }

  // ---------- replay lag ----------

  lemma LaneItemsSplit(lanes: seq<Store.LaneSummary>)
    requires lanes != []
    ensures var items, names, front := LaneItems(lanes), LaneNames(lanes), lanes[..|lanes| - 1];
            && |items| == |names| == |lanes|
            && items[..|items| - 1] == LaneItems(front) && items[|items| - 1] == LaneJson(lanes[|lanes| - 1])
            && names[..|names| - 1] == LaneNames(front) && names[|names| - 1] == lanes[|lanes| - 1].name
  {
    LaneItemsAt(lanes);
    LaneItemsAt(lanes[..|lanes| - 1]);
  }

  /** All lanes report the same lag. */
  lemma {:induction false} LagSum(lanes: seq<Store.LaneSummary>, u: nat)
    requires forall l :: l in lanes ==> l.replayLag == u
    ensures TotalLag(LaneItems(lanes)) == |lanes| * u
  {
    if lanes != [] {
      var front, last := lanes[..|lanes| - 1], lanes[|lanes| - 1];
      assert last in lanes;
      LagSum(front, u);
      LaneReads(last);
      LaneItemsSplit(lanes);
      assert TotalLag(LaneItems(lanes)) == TotalLag(LaneItems(front)) + u;
      OneMore(|front|, u);
    }
  }

  lemma OneMore(n: nat, u: nat)
    ensures (n + 1) * u == n * u + u
  {
  }

  /** All lanes but the priority lane are allowed a hundred events. */
  lemma {:induction false} AllowanceSum(lanes: seq<Store.LaneSummary>)
    requires forall l :: l in lanes ==> l.maxReplayLag == if l.name == "priority" then 0 else 100
    ensures AllowedLag(LaneItems(lanes)) == 100 * (|lanes| - CountIf(LaneNames(lanes), Policy.LaneIs("priority")))
  {
    if lanes != [] {
      var front, last := lanes[..|lanes| - 1], lanes[|lanes| - 1];
      assert last in lanes;
      AllowanceSum(front);
      LaneReads(last);
      LaneItemsSplit(lanes);
    }
  }

  lemma {:induction false} CountOnce(names: seq<string>, name: string)
    requires Distinct(names)
    ensures CountIf(names, Policy.LaneIs(name)) == if name in names then 1 else 0
  {
    if names != [] {
      var front, last := names[..|names| - 1], names[|names| - 1];
      assert names == front + [last];
      CountOnce(front, name);
    }
  }

  /** A summary's lanes are named as ordered, all carry the count of unapplied events, and only lane "priority" is
      allowed no lag. */
  lemma SummaryLags(f: Store.Files, bytes: nat)
    ensures var s := Store.Summarized(f, bytes);
            && LaneNames(s.lanes) == Store.SummaryOrder(f)
            && forall l :: l in s.lanes ==>
                 && l.replayLag == CountIf(Store.SummaryEvents(f), Store.Unapplied)
                 && l.maxReplayLag == if l.name == "priority" then 0 else 100
  {
    var s, order, es := Store.Summarized(f, bytes), Store.SummaryOrder(f), Store.SummaryEvents(f);
    SummaryIsGood(f, bytes);
    LaneItemsAt(s.lanes);
    Runs.FinalLanesAt(order, f.manifest.Some?, es, bytes);
    forall l | l in s.lanes
      ensures l.replayLag == CountIf(es, Store.Unapplied) && l.maxReplayLag == if l.name == "priority" then 0 else 100
    {
      var i :| 0 <= i < |s.lanes| && s.lanes[i] == l;
      FinalLag(order[i], f.manifest.Some?, es, bytes);
    }
  }

  lemma FinalLag(l: string, initialized: bool, es: seq<Store.Event>, bytes: nat)
    ensures var lane := Store.FinalLane(l, initialized, es, bytes);
            lane.replayLag == CountIf(es, Store.Unapplied) && lane.maxReplayLag == if lane.name == "priority" then 0 else 100
  {
  }

  lemma LagGiven(r: Report, h: Host, f: Store.Files, bytes: nat)
    requires MadeFrom(r, h, Store.Summarized(f, bytes))
    ensures var lanes, u := |Store.SummaryOrder(f)|, CountIf(Store.SummaryEvents(f), Store.Unapplied);
            LagOk(r) <==> lanes * u <= 100 * (lanes - if "priority" in Store.SummaryOrder(f) then 1 else 0)
  {
    var s, order := Store.Summarized(f, bytes), Store.SummaryOrder(f);
    SummaryLags(f, bytes);
    LaneItemsAt(s.lanes);
    LagSum(s.lanes, CountIf(Store.SummaryEvents(f), Store.Unapplied));
    AllowanceSum(s.lanes);
    Store.LaneOrderFacts(Store.SummaryManifest(f).lanes, Store.SummaryEvents(f));
    CountOnce(order, "priority");
  }

  /** The replay-lag invariant of a store report, in closed form. */
  lemma LagExactly(iso: Iso, h: Host, f: Store.Files, bytes: nat)
    ensures var lanes, u := |Store.SummaryOrder(f)|, CountIf(Store.SummaryEvents(f), Store.Unapplied);
            LagOk(ReportOf(iso, h, f, bytes)) <==>
            lanes * u <= 100 * (lanes - if "priority" in Store.SummaryOrder(f) then 1 else 0)
  {
    hide *;
    ReportOfIs(iso, h, f, bytes);
    ReportIsMadeFrom(iso, h, Store.Summarized(f, bytes));
    LagGiven(ReportOf(iso, h, f, bytes), h, f, bytes);
  }

  lemma {:induction false} DistinctFits<T>(a: seq<T>, b: seq<T>)
    requires Distinct(a) && forall x :: x in a ==> x in b
    ensures |a| <= |b|
  {
    if a != [] {
      var x := a[0];
      assert x in a;
      var i :| 0 <= i < |b| && b[i] == x;
      var rest := b[..i] + b[i + 1..];
      forall y | y in a[1..] ensures y in rest {
        var k :| 0 <= k < |a[1..]| && a[1..][k] == y;
        assert a[k + 1] == y && y in a && y != x;
        var j :| 0 <= j < |b| && b[j] == y;
        if j < i { assert rest[j] == y; } else { assert rest[j - 1] == y; }
      }
      DistinctFits(a[1..], rest);
    }
  }

  lemma DefaultLanesDistinct()
    ensures Distinct(Store.DEFAULT_LANES) && |Store.DEFAULT_LANES| == 10
  {
    var d := Store.DEFAULT_LANES;
    assert |d[0]| == 6 && |d[1]| == 8 && |d[2]| == 6 && |d[3]| == 6 && |d[4]| == 6 && |d[5]| == 5 && |d[6]| == 9
           && |d[7]| == 9 && |d[8]| == 6 && |d[9]| == 7;
    assert d[0][0] == 'n' && d[2][0] == 's' && d[3][0] == 'm' && d[4][0] == 'p' && d[8][0] == 'r';
    assert d[6][0] == 't' && d[7][0] == 'm';
  }

  lemma DefaultsListed(f: Store.Files)
    requires forall l :: l in Store.DEFAULT_LANES ==> l in Store.SummaryManifest(f).lanes
    ensures |Store.SummaryOrder(f)| >= 10 && "priority" in Store.SummaryOrder(f)
  {
    Store.LaneOrderFacts(Store.SummaryManifest(f).lanes, Store.SummaryEvents(f));
    DefaultLanesDistinct();
    DistinctFits(Store.DEFAULT_LANES, Store.SummaryOrder(f));
    assert Store.DEFAULT_LANES[1] in Store.SummaryManifest(f).lanes;
  }

  /** With the ten default lanes among them, any number of lanes tolerates 90 unapplied events and none tolerates 100. */
  lemma LagThresholds(iso: Iso, h: Host, f: Store.Files, bytes: nat)
    requires forall l :: l in Store.DEFAULT_LANES ==> l in Store.SummaryManifest(f).lanes
    ensures var u := CountIf(Store.SummaryEvents(f), Store.Unapplied);
            && (u <= 90 ==> LagOk(ReportOf(iso, h, f, bytes)))
            && (u >= 100 ==> !LagOk(ReportOf(iso, h, f, bytes)))
  {
    hide *;
    ReportOfIs(iso, h, f, bytes);
    DefaultsListed(f);
    LagExactly(iso, h, f, bytes);
    Thresholds(|Store.SummaryOrder(f)|, CountIf(Store.SummaryEvents(f), Store.Unapplied));
  }

  lemma Thresholds(n: nat, u: nat)
    requires n >= 10
    ensures u <= 90 ==> n * u <= 100 * (n - 1)
    ensures u >= 100 ==> n * u > 100 * (n - 1)
  {
    if u <= 90 {
      assert n * u <= n * 90;
    } else if u >= 100 {
      assert n * u >= n * 100;
    }
  }

  // ---------- policy and trust ----------

  lemma ListedLane(r: Report, lanes: seq<Store.LaneSummary>, name: string)
    requires LanesOf(r) == LaneItems(lanes) && name in LaneNames(lanes)
    ensures HasLane(r, name)
  {
    LaneItemsAt(lanes);
    var i :| 0 <= i < |lanes| && LaneNames(lanes)[i] == name;
    LaneReads(lanes[i]);
    assert LaneItems(lanes)[i] in LanesOf(r);
  }

  lemma LaneIsListed(r: Report, lanes: seq<Store.LaneSummary>, name: string)
    requires LanesOf(r) == LaneItems(lanes)
    ensures HasLane(r, name) <==> name in LaneNames(lanes)
  {
    if HasLane(r, name) {
      var lane :| lane in LanesOf(r) && lane.Obj? && Get(lane.fields, "name") == Str(name);
      LanesRead(lanes, lane);
    }
    if name in LaneNames(lanes) { ListedLane(r, lanes, name); }
  }

  lemma DenialsExactly(r: Report, c: Policy.Counts)
    requires Get(r, "policy") == PolicySection(c)
    ensures Denials(r) <==> c.denied > 0
  {
    var decisions := GetOr(PolicySection(c).fields, "policy_decisions", Obj(map[]));
    assert GetOr(decisions.fields, "denied", Int(0)) == Int(c.denied);
  }

  lemma RestrictedGiven(r: Report, h: Host, s: Store.Summary, name: string)
    requires MadeFrom(r, h, s) && (name == "secure" || name == "repair") && HasLane(r, name)
    ensures Denials(r)
  {
    LaneIsListed(r, s.lanes, name);
    Policy.RestrictedLaneIsDenied(LaneNames(s.lanes));
    DenialsExactly(r, PolicyCounts(s.lanes));
  }

  /** Under local policy no agent is ever trusted with lane "secure" or "repair" of a store-backed report, whatever it
      asks for: if the lane is reported its own denials block the request, otherwise it is missing. */
  lemma RestrictedLanesAreNeverTrusted(iso: Iso, h: Host, now: int, f: Store.Files, bytes: nat, q: TrustRequest)
    requires q.lane == "secure" || q.lane == "repair"
    ensures EvaluateTrust(iso, now, ReportOf(iso, h, f, bytes), q).status == TrustBlocked
  {
    hide *;
    ReportOfIs(iso, h, f, bytes);
    var r := ReportOf(iso, h, f, bytes);
    TrustPassesExactly(iso, now, r, q);
    ReportIsMadeFrom(iso, h, Store.Summarized(f, bytes));
    if HasLane(r, q.lane) { RestrictedGiven(r, h, Store.Summarized(f, bytes), q.lane); }
  }

  /** The reported decision counts, in closed form. */
  lemma ReportedCountsExactly(f: Store.Files, bytes: nat)
    ensures var c, order := PolicyCounts(Store.Summarized(f, bytes).lanes), Store.SummaryOrder(f);
            && c.denied == (if "secure" in order then 2 else 0) + (if "repair" in order then 1 else 0)
            && c.redacted == (if "secure" in order then 1 else 0)
            && c.deferred == (if "ephemeral" in order then 1 else 0)
            && c.allowed + c.denied + c.redacted + c.deferred == 4 * |order|
  {
    var order := Store.SummaryOrder(f);
    SummaryLags(f, bytes);
    Policy.ReportCounts(order);
    Store.LaneOrderFacts(Store.SummaryManifest(f).lanes, Store.SummaryEvents(f));
    CountOnce(order, "secure");
    CountOnce(order, "repair");
    CountOnce(order, "ephemeral");
  }

  // ---------- end to end ----------

  lemma {:induction false} LaneAges(lanes: seq<Store.LaneSummary>)
    ensures MinAge(LaneItems(lanes)) == if lanes == [] then None else Some(30000)
  {
    if lanes != [] {
      LaneAges(lanes[..|lanes| - 1]);
      LaneItemsSplit(lanes);
      LaneAge(lanes[|lanes| - 1]);
    }
  }

  lemma LaneAge(l: Store.LaneSummary)
    ensures LaneJson(l).Obj? && Get(SlaOf(LaneJson(l)), "max_heartbeat_age_ms") == Int(30000)
  {
    LaneSla(Str(l.name), Str(l.status), SlaSection(l), ObjectsSection(l), JournalSection(l));
  }

  lemma LaneSla(name: Json, status: Json, sla: Json, objects: Json, journal: Json)
    ensures SlaOf(Obj(LaneObject(name, status, sla, objects, journal))) == FieldsOf(sla)
  {
  }

  /** A fresh report always has a fresh heartbeat and a clean open. */
  lemma FreshIsAlive(iso: Iso, now: int, r: Report, h: Host, s: Store.Summary)
    requires HostOk(iso, h) && MadeFrom(r, h, s)
    ensures HeartbeatOk(iso, now, r) && CleanOpen(r)
  {
    hide *;
    MadeFromParts(r, h, s);
    LaneAges(s.lanes);
    RuntimeReads(Str(h.nowText));
    ClockParses(iso, h);
    AliveFrom(iso, now, r, Str(h.nowText));
    MaxAgeIs(r);
  }

  lemma ClockParses(iso: Iso, h: Host)
    requires HostOk(iso, h)
    ensures ParseInstant(iso, Str(h.nowText)).Some?
  {
  }

  lemma MaxAgeIs(r: Report)
    ensures MaxAge(r) == if MinAge(LanesOf(r)).Some? then MinAge(LanesOf(r)).value else 30000
  {
    hide MinAge, LanesOf;
  }

  lemma AliveFrom(iso: Iso, now: int, r: Report, at: Json)
    requires ParseInstant(iso, at).Some? && Get(r, "generated_at") == at
    requires Get(RuntimeOf(r), "last_heartbeat_at") == at && Get(RuntimeOf(r), "last_dirty_open_at") == Null
    ensures MaxAge(r) >= 0 ==> HeartbeatOk(iso, now, r)
    ensures CleanOpen(r)
  {
    hide MaxAge, RuntimeOf, ParseInstant, Get;
  }

  lemma RuntimeReads(now: Json)
    ensures var d := RuntimeSection(now).fields;
            Get(d, "last_heartbeat_at") == now && Get(d, "last_dirty_open_at") == Null
  {
  }

  lemma PressureExactly(r: Report, h: Host)
    requires DiskOf(r) == DiskSection(h)
    ensures PressureOk(r) <==> h.freeRatio > 0.05
  {
    assert "pressure" in DiskSection(h).fields;
    assert Get(DiskSection(h).fields, "pressure") == Str(DiskPressureText(h.freeRatio));
  }

  /** The active store's shadow is unverified exactly when a corrupt event was read. */
  lemma ShadowExactly(r: Report, h: Host, f: Store.Files, bytes: nat)
    requires MadeFrom(r, h, Store.Summarized(f, bytes)) && f.manifest.Some? && f.directories
    ensures ShadowFailures(StoresOf(r)) == [] <==> CountIf(Store.SummaryEvents(f), Store.IsCorrupt) == 0
  {
    var s := Store.Summarized(f, bytes);
    ChecksumDecides(s);
    assert [StoreJson(s)][..0] == [];
  }

  lemma ChecksumDecides(s: Store.Summary)
    requires s.initialized && s.shadowPresent && s.checksum in {"verified", "mismatch"}
    ensures ShadowFails(StoreJson(s)) <==> s.checksum == "mismatch"
  {
    StoreParts(Str("active"), Str(s.manifest.migrationState), Str(s.checksum), Bool(true), Int(100664130),
               Str("0x6000342"), Int(s.manifest.activeGeneration));
  }

  lemma NeverAttested(r: Report)
    requires Get(r, "attestation") == Unsigned()
    ensures !Attested(r)
  {
    assert Get(FieldsOf(Unsigned()), "signed") == Bool(false);
  }

  lemma DefaultLaneIsListed(r: Report, h: Host, f: Store.Files, bytes: nat, name: string)
    requires MadeFrom(r, h, Store.Summarized(f, bytes))
    requires Store.SummaryManifest(f).lanes == Store.DEFAULT_LANES && name in Store.DEFAULT_LANES
    ensures HasLane(r, name)
  {
    SummaryLags(f, bytes);
    Store.LaneOrderFacts(Store.SummaryManifest(f).lanes, Store.SummaryEvents(f));
    LaneIsListed(r, Store.Summarized(f, bytes).lanes, name);
  }

  /** Everything the trust gate asks of the report, after any run. */
  lemma RunFacts(iso: Iso, h: Host, now: int, ops: seq<Runs.Op>, bytes: nat, r: Report, name: string)
    requires HostOk(iso, h) && name in Store.DEFAULT_LANES
    requires MadeFrom(r, h, Store.Summarized(Runs.After(Runs.Fresh, ops).files, bytes))
    ensures HasLane(r, name) && HeartbeatOk(iso, now, r) && CleanOpen(r) && LagOk(r) && !Attested(r)
    ensures PressureOk(r) <==> h.freeRatio > 0.05
    ensures ShadowFailures(StoresOf(r)) == [] <==> !Runs.Damaged(Runs.After(Runs.Fresh, ops))
  {
    var f := Runs.After(Runs.Fresh, ops).files;
    Runs.IdsCountAppends(ops);
    Runs.RunsLeaveNothingUnapplied(ops);
    DefaultLaneIsListed(r, h, f, bytes, name);
    FreshIsAlive(iso, now, r, h, Store.Summarized(f, bytes));
    PressureExactly(r, h);
    DefaultsListed(f);
    LagGiven(r, h, f, bytes);
    ShadowExactly(r, h, f, bytes);
    NeverAttested(r);
  }

  /** From the first append to the trust decision: after any run on a fresh store, an agent may use an unrestricted
      default lane exactly when it does not insist on attestation, the disk is not nearly full, and the journal was
      never damaged or degraded mode is acceptable. */
  lemma RunsAreTrustedExactly(iso: Iso, h: Host, now: int, ops: seq<Runs.Op>, bytes: nat, q: TrustRequest)
    requires HostOk(iso, h) && q.lane in Store.DEFAULT_LANES && q.lane != "secure" && q.lane != "repair"
    ensures var run := Runs.After(Runs.Fresh, ops);
            EvaluateTrust(iso, now, ReportOf(iso, h, run.files, bytes), q).status != TrustBlocked <==>
            !q.requireAttestation && h.freeRatio > 0.05 && (!Runs.Damaged(run) || q.allowDegraded)
  {
    hide *;
    var f := Runs.After(Runs.Fresh, ops).files;
    ReportOfIs(iso, h, f, bytes);
    ReportsOfRunsAreValid(iso, h, ops, bytes);
    ReportIsMadeFrom(iso, h, Store.Summarized(f, bytes));
    TrustPassesExactly(iso, now, ReportOf(iso, h, f, bytes), q);
    RunFacts(iso, h, now, ops, bytes, ReportOf(iso, h, f, bytes), q.lane);
  }

  /** The six invariants of a report whose contract, heartbeat, lag and open are in order. */
  lemma ScoreGiven(invs: seq<Invariant>, r: Report, ratio: real, shadow: bool)
    requires Six(invs, true, true, true, shadow, ratio > 0.05, true)
    requires TotalLag(LanesOf(r)) == 0 && PressureOf(r) == Str(DiskPressureText(ratio)) && !Attested(r)
    ensures var card := ScorecardWith([], invs, r);
            && card.score == (if ratio <= 0.05 then 45 else if ratio <= 0.10 then 85 else 95) - (if shadow then 0 else 5)
            && (card.status == BlockedScore <==> ratio <= 0.05)
            && (card.status == Ready <==> ratio > 0.10)
            && (card.status == Watch <==> 0.05 < ratio <= 0.10)
  {
    SixStatus(invs, true, true, true, shadow, ratio > 0.05, true);
    SixCounts(invs, true, true, true, shadow, ratio > 0.05, true);
    GatesExactly([], StatusOf(invs).0, CountCritical(invs), PressureOf(r));
  }

  lemma NoLag(r: Report, h: Host, f: Store.Files, bytes: nat)
    requires MadeFrom(r, h, Store.Summarized(f, bytes)) && CountIf(Store.SummaryEvents(f), Store.Unapplied) == 0
    ensures TotalLag(LanesOf(r)) == 0
  {
    SummaryLags(f, bytes);
    LagSum(Store.Summarized(f, bytes).lanes, 0);
  }

  lemma PressureText(r: Report, h: Host)
    requires DiskOf(r) == DiskSection(h)
    ensures PressureOf(r) == Str(DiskPressureText(h.freeRatio))
    ensures Get(FieldsOf(DiskOf(r)), "pressure") == Str(DiskPressureText(h.freeRatio))
  {
    assert "pressure" in DiskSection(h).fields;
  }

  /** The scorecard of any run on a fresh store, to the point: 95 at best for want of a signature, five less once the
      journal was damaged, ten less on a tight disk; ready with more than a tenth of the disk free, under watch with less,
      and blocked, at 45 or 40, on a full one. */
  lemma RunsScoreExactly(iso: Iso, h: Host, now: int, ops: seq<Runs.Op>, bytes: nat)
    requires HostOk(iso, h)
    ensures var run := Runs.After(Runs.Fresh, ops);
            var card := EvaluateScorecard(iso, now, ReportOf(iso, h, run.files, bytes));
            && card.score == (if h.freeRatio <= 0.05 then 45 else if h.freeRatio <= 0.10 then 85 else 95)
                             - (if Runs.Damaged(run) then 5 else 0)
            && (card.status == BlockedScore <==> h.freeRatio <= 0.05)
            && (card.status == Ready <==> h.freeRatio > 0.10)
            && (card.status == Watch <==> 0.05 < h.freeRatio <= 0.10)
  {
    hide *;
    var f := Runs.After(Runs.Fresh, ops).files;
    ReportOfIs(iso, h, f, bytes);
    var r := ReportOf(iso, h, f, bytes);
    ReportsOfRunsAreValid(iso, h, ops, bytes);
    ReportIsMadeFrom(iso, h, Store.Summarized(f, bytes));
    ScorecardOfValid(iso, now, r);
    ScoreOfRun(iso, h, now, ops, bytes, r);
  }

  lemma ScoreOfRun(iso: Iso, h: Host, now: int, ops: seq<Runs.Op>, bytes: nat, r: Report)
    requires HostOk(iso, h) && MadeFrom(r, h, Store.Summarized(Runs.After(Runs.Fresh, ops).files, bytes))
    ensures var run, card := Runs.After(Runs.Fresh, ops), ScorecardWith([], InvariantsWith([], iso, now, r), r);
            && card.score == (if h.freeRatio <= 0.05 then 45 else if h.freeRatio <= 0.10 then 85 else 95)
                             - (if Runs.Damaged(run) then 5 else 0)
            && (card.status == BlockedScore <==> h.freeRatio <= 0.05)
            && (card.status == Ready <==> h.freeRatio > 0.10)
            && (card.status == Watch <==> 0.05 < h.freeRatio <= 0.10)
  {
    var f := Runs.After(Runs.Fresh, ops).files;
    RunFacts(iso, h, now, ops, bytes, r, Store.DEFAULT_LANES[0]);
    Runs.IdsCountAppends(ops);
    Runs.RunsLeaveNothingUnapplied(ops);
    NoLag(r, h, f, bytes);
    PressureText(r, h);
    VerifyGivesSix([], iso, now, r);
    ScoreGiven(InvariantsWith([], iso, now, r), r, h.freeRatio, ShadowFailures(StoresOf(r)) == []);
  }

  /** The repair plan of any run: verify the shadow exactly when the journal was damaged, look for something to purge
      exactly when a fifth of the disk or less is free, and otherwise nothing. */
  lemma RunsPlanExactly(iso: Iso, h: Host, now: int, ops: seq<Runs.Op>, bytes: nat)
    requires HostOk(iso, h)
    ensures var run := Runs.After(Runs.Fresh, ops);
            var r := ReportOf(iso, h, run.files, bytes);
            Plans.PlannedSteps(Diagnose(iso, now, r), r) ==
            if !Runs.Damaged(run) && h.freeRatio > 0.20 then [Plans.NoOp]
            else Plans.StepIf(Runs.Damaged(run), Plans.VerifyShadow) + Plans.StepIf(h.freeRatio <= 0.20, Plans.GeneratePurgePreview)
  {
    hide *;
    var f := Runs.After(Runs.Fresh, ops).files;
    ReportOfIs(iso, h, f, bytes);
    ReportIsMadeFrom(iso, h, Store.Summarized(f, bytes));
    Causes.DiagnoseIs(iso, now, ReportOf(iso, h, f, bytes));
    PlanOfRun(iso, h, now, ops, bytes, ReportOf(iso, h, f, bytes), ReportErrors(iso, ReportOf(iso, h, f, bytes)));
  }

  lemma PlanOfRun(iso: Iso, h: Host, now: int, ops: seq<Runs.Op>, bytes: nat, r: Report, errors: Errors)
    requires HostOk(iso, h) && MadeFrom(r, h, Store.Summarized(Runs.After(Runs.Fresh, ops).files, bytes))
    ensures var run := Runs.After(Runs.Fresh, ops);
            Plans.PlannedSteps(DiagnoseWith(InvariantsWith(errors, iso, now, r), r), r) ==
            if !Runs.Damaged(run) && h.freeRatio > 0.20 then [Plans.NoOp]
            else Plans.StepIf(Runs.Damaged(run), Plans.VerifyShadow) + Plans.StepIf(h.freeRatio <= 0.20, Plans.GeneratePurgePreview)
  {
    RunFacts(iso, h, now, ops, bytes, r, Store.DEFAULT_LANES[0]);
    PressureText(r, h);
    Causes.CausesExactly(errors, iso, now, r);
    WatchedExactly(r, h.freeRatio);
    NeededForRun(DiagnoseWith(InvariantsWith(errors, iso, now, r), r), Runs.Damaged(Runs.After(Runs.Fresh, ops)), h.freeRatio <= 0.20);
  }

  lemma WatchedExactly(r: Report, ratio: real)
    requires Get(FieldsOf(DiskOf(r)), "pressure") == Str(DiskPressureText(ratio))
    ensures Plans.DiskWatched(r) <==> ratio <= 0.20
  {
  }

  lemma NeededForRun(d: Diagnosis, damaged: bool, watched: bool)
    requires Broken(Heartbeat) !in d.causes && Broken(ReplayLag) !in d.causes && Broken(DirtyOpen) !in d.causes
    requires Broken(Shadow) in d.causes <==> damaged
    ensures Plans.NeededGiven(d, watched) == Plans.StepIf(damaged, Plans.VerifyShadow) + Plans.StepIf(watched, Plans.GeneratePurgePreview)
  {
  }
}
