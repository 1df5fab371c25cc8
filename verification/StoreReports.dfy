/** From a local store to a State Integrity Report (store_reports.py, with the base snapshot of reports.py). */
module StoreReports {
  import opened Text
  import opened Sums
  import opened Json
  import opened Reports
  import opened FreshDiagnosis
  import Store = LocalStore
  import Policy = Policies

  /** What the collector reads from the machine. */
  datatype Host = Host(nowText: string, now: int, pid: int, nodeHash: string, platform: string, storeRoot: string,
                       freeBytes: int, totalBytes: int, freeRatio: real)

  /** A clock, a process and a disk that is not empty. */
  predicate HostOk(iso: Iso, h: Host) {
    && ParseInstant(iso, Str(h.nowText)).Some?
    && h.pid >= 0 && "sha256:" <= h.nodeHash
    && 0 <= h.freeBytes <= h.totalBytes && h.totalBytes > 0
    && 0.0 <= h.freeRatio <= 1.0
  }

  function DiskPressureText(ratio: real): string {
    if ratio <= 0.05 then "critical" else if ratio <= 0.10 then "warning" else if ratio <= 0.20 then "watch" else "none"
  }

  // ---------- the sections ----------

  function IdentityFields(h: Host): Fields {
    map["component" := Str("sourceos-syncd"), "repo" := Str("SourceOS-Linux/sourceos-syncd"), "pid" := Int(h.pid),
        "process_name" := Str("sourceos-syncd"), "node_id_hash" := Str(h.nodeHash), "version" := Str("0.1.0"),
        "platform" := Str(h.platform), "service_manager" := Str("manual")]
  }

  function IdentitySection(h: Host): Json {
    Obj(IdentityFields(h)["store_root" := Str(h.storeRoot)])
  }

  function CollectionErrorsText(initialized: bool): Json {
    if initialized then Arr([]) else Texts(["local store is not initialized; run store init first"])
  }

  function CollectionSection(initialized: bool): Json {
    Obj(map["status" := Str("partial"), "duration_ms" := Int(0), "errors" := CollectionErrorsText(initialized),
            "redacted_fields" := Arr([]), "permission_denied_fields" := Arr([]), "timed_out_fields" := Arr([]),
            "unavailable_fields" := Texts(["identity.boot_id", "memory.total_gb"])])
  }

  function RuntimeSection(now: Json): Json {
    Obj(map["process_started_at" := now, "runtime_ready_at" := now, "store_opened_at" := now, "replay_started_at" := now,
            "replay_completed_at" := now, "first_heartbeat_at" := now, "last_heartbeat_at" := now,
            "last_clean_shutdown_at" := Null, "last_dirty_open_at" := Null])
  }

  function DiskSection(h: Host): Json {
    Obj(map["filesystem" := Str("unknown"), "free_bytes" := Int(h.freeBytes), "total_bytes" := Int(h.totalBytes),
            "free_ratio" := Num(h.freeRatio), "pressure" := Str(DiskPressureText(h.freeRatio))])
  }

  function ResourcesSection(h: Host): Json {
    Obj(map["disk" := DiskSection(h), "memory" := Obj(map["pressure" := Str("unknown")])])
  }

  function PolicySection(c: Policy.Counts): Json {
    Obj(map["policy_engine" := Str("policy-fabric-local"), "policy_version" := Str("v0.1.0-local"),
            "policy_decisions" := CountsJson(c)])
  }

  function SlaSection(l: Store.LaneSummary): Json {
    Obj(map["max_heartbeat_age_ms" := Int(30000), "max_replay_lag_events" := Int(l.maxReplayLag),
            "max_replay_lag_ms" := Int(l.maxReplayLagMs)])
  }

  function ObjectsSection(l: Store.LaneSummary): Json {
    Obj(map["total" := Int(l.total), "tombstones" := Int(l.tombstones), "orphans" := Int(0), "corrupted" := Int(l.corrupted),
            "encrypted" := Int(0), "redacted" := Int(0)])
  }

  function JournalSection(l: Store.LaneSummary): Json {
    Obj(map["segment_count" := Int(if l.journalBytes > 0 then 1 else 0), "total_bytes" := Int(l.journalBytes),
            "max_segment_bytes" := Int(l.journalBytes), "oldest_unapplied_event_age_ms" := Int(0),
            "replay_lag_events" := Int(l.replayLag), "replay_lag_bytes" := Int(0),
            "replay_throughput_events_per_sec" := Int(0), "replay_eta_ms" := Int(0), "checksum_state" := Str(l.checksum)])
  }

  function LaneObject(name: Json, status: Json, sla: Json, objects: Json, journal: Json): Fields {
    map["name" := name, "status" := status, "sla" := sla, "objects" := objects, "journal" := journal,
        "maintenance" := Obj(map["compaction_debt" := Str("none"), "purge_debt" := Str("none"), "repair_debt" := Str("none")])]
  }

  function LaneJson(l: Store.LaneSummary): Json {
    Obj(LaneObject(Str(l.name), Str(l.status), SlaSection(l), ObjectsSection(l), JournalSection(l)))
  }

  function LaneItems(lanes: seq<Store.LaneSummary>): seq<Json> {
    Mapped(lanes, LaneJson)
  }

  function StoreObject(role: Json, migration: Json, checksum: Json, shadow: Json, raw: Json, hex: Json, generation: Json): Fields {
    map["name" := Str("content-store-a"), "role" := role, "backend" := Str("filesystem-jsonl"), "schema_version" := Str("1.0.0"),
        "runtime_version" := Str("0.1.0"), "migration_state" := migration, "active_generation" := generation,
        "shadow_present" := shadow, "checksum_state" := checksum, "flags_raw" := raw, "flags_hex" := hex]
  }

  function StoreJson(s: Store.Summary): Json {
    Obj(StoreObject(Str(if s.initialized then "active" else "retired"), Str(s.manifest.migrationState), Str(s.checksum),
                    Bool(s.shadowPresent), Int(if s.initialized then 100664130 else 0),
                    Str(if s.initialized then "0x6000342" else "0x0"), Int(s.manifest.activeGeneration)))
  }

  function NameOfLane(): Store.LaneSummary -> string {
    (l: Store.LaneSummary) => l.name
  }

  function LaneNames(lanes: seq<Store.LaneSummary>): seq<string> {
    Mapped(lanes, NameOfLane())
  }

  function PolicyCounts(lanes: seq<Store.LaneSummary>): Policy.Counts {
    Policy.CountsOf(Policy.ReportDecisions(LaneNames(lanes)))
  }

  function WritesJson(c: Store.WriteCounts): Json {
    Obj(map["external_requested" := Int(c.requested), "accepted" := Int(c.accepted), "journaled" := Int(c.journaled),
            "applied" := Int(c.applied)])
  }

  function PipelineJson(p: Store.Pipeline): Json {
    Obj(map["add" := WritesJson(p.add), "update" := WritesJson(p.update),
            "delete" := Obj(map["external_requested" := Int(p.delete.requested), "authorized" := Int(p.delete.authorized),
                                "tombstoned" := Int(p.delete.tombstoned), "journaled" := Int(p.delete.journaled),
                                "propagated" := Int(p.delete.propagated)])])
  }

  // ---------- what only a store report says ----------

  function RegistryJson(counts: map<Store.Kind, nat>): Json {
    Obj(map["profiles" := Int(RecordCount(counts, Store.Profiles)), "devices" := Int(RecordCount(counts, Store.Devices)),
            "actors" := Int(RecordCount(counts, Store.Actors)), "schemas" := Int(RecordCount(counts, Store.Schemas)),
            "objects" := Int(RecordCount(counts, Store.Objects)), "indexes" := Int(RecordCount(counts, Store.Indexes)),
            "repair-reports" := Int(RecordCount(counts, Store.RepairReports))])
  }

  function RecordCount(counts: map<Store.Kind, nat>, k: Store.Kind): nat {
    if k in counts then counts[k] else 0
  }

  function LocalStateJson(h: Host, s: Store.Summary): Json {
    Obj(map["initialized" := Bool(s.initialized), "root" := Str(h.storeRoot),
            "durable_dirs" := Texts(["profiles", "devices", "actors", "schemas", "objects", "events", "repair-reports"]),
            "rebuildable_dirs" := Texts(["indexes", "checkpoints"]), "disposable_dirs" := Texts(["tmp"]),
            "registry_counts" := RegistryJson(s.registryCounts), "journal_present" := Bool(s.journalPresent),
            "manifest_present" := Bool(s.initialized)])
  }

  function ProducerJson(n: map<string, nat>): string -> Json {
    (p: string) => Obj(map["producer" := Str(p), "events" := Int(Store.EventsBy(n, p))])
  }

  function TopProducersJson(s: Store.Summary): Json {
    Arr(Mapped(s.topProducers, ProducerJson(s.producers)))
  }

  function ActionText(a: Policy.Action): string {
    match a
    case Index => "index"
    case Retain => "retain"
    case Replicate => "replicate"
    case AgentAccess => "agent_access"
    case RepairPreview => "repair_preview"
    case PurgePreview => "purge_preview"
    case Read => "read"
    case Write => "write"
    case UnknownAction => "unknown"
  }

  function PolicyStatusText(s: Policy.PolicyStatus): string {
    match s case Allowed => "allowed" case Denied => "denied" case Redacted => "redacted" case Deferred => "deferred"
  }

  function DecisionJson(nowText: string): Policy.Request -> Json {
    (q: Policy.Request) =>
      Obj(map["schema" := Str("sourceos.policy-decision/v1alpha1"), "generated_at" := Str(nowText),
              "engine" := Str("policy-fabric-local"), "action" := Str(ActionText(q.action)), "lane" := Str(q.lane),
              "status" := Str(PolicyStatusText(Policy.Decide(q))), "reason" := Str(Policy.Reason(q)),
              "subject" := Str("sourceos-syncd"), "object_id" := Null, "data_class" := Str(q.dataClass)])
  }

  function CountsJson(c: Policy.Counts): Json {
    Obj(map["allowed" := Int(c.allowed), "deferred" := Int(c.deferred), "denied" := Int(c.denied), "redacted" := Int(c.redacted)])
  }

  /** `policy_summary`. */
  function PolicySummary(h: Host, lanes: seq<string>): Json {
    Obj(map["engine" := Str("policy-fabric-local"), "counts" := CountsJson(Policy.CountsOf(Policy.ReportDecisions(lanes))),
            "sample" := Arr(Mapped(Policy.Sampled(lanes), DecisionJson(h.nowText)))])
  }

  function Extras(local: Json, producers: Json, policy: Json): Fields {
    map["local_state" := local, "top_producers" := producers, "policy" := policy]
  }

  /** The keys that only the diagnosis of a store report has. */
  function StoreKeysOf(h: Host, s: Store.Summary): Fields {
    Extras(LocalStateJson(h, s), TopProducersJson(s), PolicySummary(h, LaneNames(s.lanes)))
  }

  const STORE_KEYS: set<string> := {"local_state", "top_producers", "policy"}

  /** A computed diagnosis with the store's keys beside its own. */
  function Extended(d: Diagnosis, extras: Fields): Json {
    Obj(DiagnosisFields(d) + extras)
  }

  function Unsigned(): Json {
    Obj(map["signed" := Bool(false), "reason" := Str("unsigned-runtime-snapshot")])
  }

  /** The report of the given sections. */
  function Assemble(now: Json, identity: Json, collection: Json, runtime: Json, stores: Json, lanes: Json, pipeline: Json,
                    resources: Json, policy: Json): Report
  {
    map["schema" := Str(STATE_SCHEMA), "generated_at" := now, "identity" := identity, "collection" := collection,
        "runtime" := runtime, "stores" := stores, "lanes" := lanes, "pipeline" := pipeline, "resources" := resources,
        "policy" := policy, "invariants" := Arr([]), "diagnosis" := Obj(map[]), "controls" := Arr([]),
        "attestation" := Unsigned()]
  }

  function BaseStore(): Json {
    Obj(StoreObject(Str("active"), Str("none"), Str("unverified"), Bool(false), Int(0), Str("0x0"), Int(1)))
  }

  function BasePipeline(): Json {
    PipelineJson(Store.Pipeline(Store.Writes([], Store.Add), Store.Writes([], Store.Update), Store.Deletes([])))
  }

  /** `base_snapshot`: one empty store and one empty lane, no decisions yet. */
  function BaseSnapshot(h: Host): Report {
    Assemble(Str(h.nowText), Obj(IdentityFields(h)), CollectionSection(true), RuntimeSection(Str(h.nowText)), Arr([BaseStore()]),
             Arr([LaneJson(Store.EmptyLane("normal"))]), BasePipeline(), ResourcesSection(h), PolicySection(Policy.Counts(0, 0, 0, 0)))
  }

  /** The sections that the store replaces, one after another. */
  function Overwritten(r: Report, stores: Json, lanes: Json, pipeline: Json, local: Json, collection: Json, identity: Json,
                       policy: Json): Report {
    r["stores" := stores]["lanes" := lanes]["pipeline" := pipeline]["local_state" := local]
      ["collection" := collection]["identity" := identity]["policy" := policy]
  }

  /** The report when the diagnosis is made. */
  function Projected(iso: Iso, h: Host, s: Store.Summary): Report {
    Overwritten(Refresh(iso, h.now, BaseSnapshot(h)), Arr([StoreJson(s)]), Arr(LaneItems(s.lanes)), PipelineJson(s.pipeline),
                LocalStateJson(h, s), CollectionSection(s.initialized), IdentitySection(h), PolicySection(PolicyCounts(s.lanes)))
  }

  /** Diagnosis first, then invariants, then controls. */
  function Finished(iso: Iso, now: int, p: Report, extras: Fields): Report {
    var p1 := p["diagnosis" := Extended(Diagnose(iso, now, p), extras)];
    var p2 := p1["invariants" := InvariantsJson(Verify(iso, now, p1))];
    p2["controls" := Arr(ControlItems(ControlsFor(iso, now, p2)))]
  }

  function StoreReport(iso: Iso, h: Host, s: Store.Summary): Report {
    Finished(iso, h.now, Projected(iso, h, s), StoreKeysOf(h, s))
  }

  lemma StoreReportIs(iso: Iso, h: Host, s: Store.Summary)
    ensures StoreReport(iso, h, s) == Finished(iso, h.now, Projected(iso, h, s), StoreKeysOf(h, s))
  {
    hide Finished, Projected, StoreKeysOf;
  }

  lemma ProjectedIs(iso: Iso, h: Host, s: Store.Summary)
    ensures PolicyCounts(s.lanes) == Policy.CountsOf(Policy.ReportDecisions(LaneNames(s.lanes)))
    ensures Projected(iso, h, s) == Overwritten(Refresh(iso, h.now, BaseSnapshot(h)), Arr([StoreJson(s)]), Arr(LaneItems(s.lanes)),
              PipelineJson(s.pipeline), LocalStateJson(h, s), CollectionSection(s.initialized), IdentitySection(h),
              PolicySection(PolicyCounts(s.lanes)))
  {
    hide Overwritten, Refresh, BaseSnapshot, StoreJson, LaneItems, LaneNames, PipelineJson, LocalStateJson, CollectionSection,
         IdentitySection, PolicySection;
  }

  lemma OverwrittenIs(r: Report, stores: Json, lanes: Json, pipeline: Json, local: Json, collection: Json, identity: Json,
                       policy: Json)
    ensures Overwritten(r, stores, lanes, pipeline, local, collection, identity, policy) ==
            r["stores" := stores]["lanes" := lanes]["pipeline" := pipeline]["local_state" := local]
              ["collection" := collection]["identity" := identity]["policy" := policy]
  {
  }

  method Project(iso: Iso, h: Host, s: Store.Summary) returns (report: Report)
    ensures report == Projected(iso, h, s)
  {
    hide *;
    report := Refresh(iso, h.now, BaseSnapshot(h));
    report := report["stores" := Arr([StoreJson(s)])];
    report := report["lanes" := Arr(LaneItems(s.lanes))];
    report := report["pipeline" := PipelineJson(s.pipeline)];
    report := report["local_state" := LocalStateJson(h, s)];
    report := report["collection" := CollectionSection(s.initialized)];
    report := report["identity" := IdentitySection(h)];
    var decisions := Policy.EvaluateReportPolicy(LaneNames(s.lanes));
    var counts := Policy.CountDecisions(decisions);
    report := report["policy" := PolicySection(counts)];
    ProjectedIs(iso, h, s);
    OverwrittenIs(Refresh(iso, h.now, BaseSnapshot(h)), Arr([StoreJson(s)]), Arr(LaneItems(s.lanes)), PipelineJson(s.pipeline),
                  LocalStateJson(h, s), CollectionSection(s.initialized), IdentitySection(h), PolicySection(PolicyCounts(s.lanes)));
  }

  method Finish(iso: Iso, now: int, p: Report, extras: Fields) returns (report: Report)
    ensures report == Finished(iso, now, p, extras)
  {
    hide *;
    FinishedSteps(iso, now, p, extras);
    report := p;
    report := report["diagnosis" := Extended(Diagnose(iso, now, report), extras)];
    report := report["invariants" := InvariantsJson(Verify(iso, now, report))];
    report := report["controls" := Arr(ControlItems(ControlsFor(iso, now, report)))];
  }

  method SnapshotFromStore(iso: Iso, h: Host, store: Store.LocalStateStore, bytes: nat) returns (report: Report)
    ensures report == StoreReport(iso, h, Store.Summarized(store.Contents(), bytes))
  {
    hide *;
    var s := store.Summarize(bytes);
    StoreReportIs(iso, h, s);
    report := Project(iso, h, s);
    report := Finish(iso, h.now, report, StoreKeysOf(h, s));
  }

  // ---------- each section passes ----------

  lemma IdentityFrom(d: Fields)
    requires REQUIRED_IDENTITY <= d.Keys && IsNonNegative(d["pid"])
    requires d["node_id_hash"].Str? && "sha256:" <= d["node_id_hash"].s
    ensures IdentityErrors(Obj(d)) == []
  {
    NothingMissing("identity", d, REQUIRED_IDENTITY);
  }

  lemma IdentityPasses(iso: Iso, h: Host)
    requires HostOk(iso, h)
    ensures IdentityErrors(IdentitySection(h)) == []
  {
    IdentityFrom(IdentitySection(h).fields);
  }

  lemma CollectionFrom(d: Fields)
    requires REQUIRED_COLLECTION <= d.Keys && OneOf(d["status"], COLLECTION_STATUSES)
    requires forall k :: k in COLLECTION_LISTS ==> Get(d, k).Arr?
    ensures CollectionErrors(Obj(d)) == []
  {
    NothingMissing("collection", d, REQUIRED_COLLECTION);
    ListsThere(d, COLLECTION_LISTS);
  }

  lemma CollectionPasses(initialized: bool)
    ensures CollectionErrors(CollectionSection(initialized)) == []
  {
    CollectionFrom(CollectionSection(initialized).fields);
  }

  lemma {:induction false} ListsThere(d: Fields, keys: seq<string>)
    requires forall k :: k in keys ==> Get(d, k).Arr?
    ensures NotLists(d, keys) == []
  {
    if keys != [] {
      assert keys[0] in keys;
      ListsThere(d, keys[1..]);
    }
  }

  lemma RuntimePasses(iso: Iso, now: Json)
    requires ParseInstant(iso, now).Some?
    ensures RuntimeErrors(iso, RuntimeSection(now)) == []
  {
    var d := RuntimeSection(now).fields;
    assert forall k :: k in d ==> d[k] == now || d[k] == Null;
    assert BadInstants(iso, d) == {};
  }

  lemma DiskPasses(iso: Iso, h: Host)
    requires HostOk(iso, h)
    ensures DiskErrors(DiskSection(h)) == []
  {
  }

  lemma PolicyPasses(c: Policy.Counts)
    ensures PolicyErrors(PolicySection(c)) == []
  {
    var d := Get(PolicySection(c).fields, "policy_decisions").fields;
    NoBadCounts("policy.policy_decisions", d);
  }

  lemma SlaPasses(l: Store.LaneSummary)
    ensures SlaSection(l).Obj? && CountErrors("sla", SlaSection(l).fields) == []
  {
    NoBadCounts("sla", SlaSection(l).fields);
  }

  lemma ObjectsPasses(l: Store.LaneSummary)
    ensures ObjectsSection(l).Obj? && CountErrors("objects", ObjectsSection(l).fields) == []
  {
    NoBadCounts("objects", ObjectsSection(l).fields);
  }

  lemma JournalPasses(l: Store.LaneSummary)
    ensures JournalSection(l).Obj? && BadJournal(JournalSection(l).fields, JOURNAL_COUNTS) == []
  {
    var d := JournalSection(l).fields;
    assert forall k :: k in d && k != "checksum_state" ==> IsNonNegative(d[k]);
    assert forall k :: k in JOURNAL_COUNTS ==> k != "checksum_state";
    CountsThere(d, JOURNAL_COUNTS);
  }

  lemma {:induction false} CountsThere(d: Fields, keys: seq<string>)
    requires forall k :: k in keys && k in d ==> IsNonNegative(d[k])
    ensures BadJournal(d, keys) == []
  {
    if keys != [] {
      assert keys[0] in keys;
      CountsThere(d, keys[1..]);
    }
  }

  lemma LaneParts(name: Json, status: Json, sla: Json, objects: Json, journal: Json)
    ensures var d := LaneObject(name, status, sla, objects, journal);
            && MissingKeys("lanes", d, REQUIRED_LANE) == []
            && Get(d, "name") == name && Get(d, "status") == status
            && GetOr(d, "sla", Obj(map[])) == sla && GetOr(d, "objects", Obj(map[])) == objects
            && GetOr(d, "journal", Obj(map[])) == journal
            && Get(d, "sla") == sla && Get(d, "journal") == journal && "name" in d
  {
    NothingMissing("lanes", LaneObject(name, status, sla, objects, journal), REQUIRED_LANE);
  }

  lemma LanePasses(l: Store.LaneSummary)
    requires l.status in LANE_STATUSES
    ensures LaneErrors(LaneJson(l), false) == []
    ensures NameOf(LaneJson(l)) == Some(l.name)
  {
    LaneParts(Str(l.name), Str(l.status), SlaSection(l), ObjectsSection(l), JournalSection(l));
    SlaPasses(l);
    ObjectsPasses(l);
    JournalPasses(l);
  }

  lemma LaneItemsAt(lanes: seq<Store.LaneSummary>)
    ensures |LaneItems(lanes)| == |lanes| == |LaneNames(lanes)|
    ensures forall i :: 0 <= i < |lanes| ==> LaneItems(lanes)[i] == LaneJson(lanes[i]) && LaneNames(lanes)[i] == lanes[i].name
  {
    MappedAt(lanes, LaneJson);
    MappedAt(lanes, NameOfLane());
  }

  /** The lanes of a summary: distinct names, known statuses. */
  ghost predicate GoodLanes(lanes: seq<Store.LaneSummary>) {
    && (forall i, j :: 0 <= i < j < |lanes| ==> lanes[i].name != lanes[j].name)
    && forall i :: 0 <= i < |lanes| ==> lanes[i].status in LANE_STATUSES
  }

  lemma {:induction false} LaneListPasses(lanes: seq<Store.LaneSummary>)
    requires GoodLanes(lanes)
    ensures ListErrors(LaneItems(lanes), LaneErrors) == []
  {
    hide LaneJson, LaneErrors;
    if lanes != [] {
      var front, last := lanes[..|lanes| - 1], lanes[|lanes| - 1];
      LaneListPasses(front);
      LanePasses(last);
      LaneItemsAt(lanes);
      LaneItemsAt(front);
      var items := LaneItems(lanes);
      assert items[..|items| - 1] == LaneItems(front);
      NamesDiffer(lanes);
      assert !Repeats(items, |items| - 1);
    }
  }

  lemma NamesDiffer(lanes: seq<Store.LaneSummary>)
    requires GoodLanes(lanes) && lanes != []
    ensures |LaneItems(lanes)| == |lanes|
    ensures forall j :: 0 <= j < |lanes| - 1 ==> NameOf(LaneItems(lanes)[j]) != NameOf(LaneItems(lanes)[|lanes| - 1])
  {
    LaneItemsAt(lanes);
    LanePasses(lanes[|lanes| - 1]);
    forall j | 0 <= j < |lanes| - 1 ensures NameOf(LaneItems(lanes)[j]) != NameOf(LaneItems(lanes)[|lanes| - 1]) {
      LanePasses(lanes[j]);
    }
  }

  lemma StoreKeys(role: Json, migration: Json, checksum: Json, shadow: Json, raw: Json, hex: Json, generation: Json)
    ensures MissingKeys("stores", StoreObject(role, migration, checksum, shadow, raw, hex, generation), REQUIRED_STORE) == []
  {
    NothingMissing("stores", StoreObject(role, migration, checksum, shadow, raw, hex, generation), REQUIRED_STORE);
  }

  lemma StoreParts(role: Json, migration: Json, checksum: Json, shadow: Json, raw: Json, hex: Json, generation: Json)
    ensures var d := StoreObject(role, migration, checksum, shadow, raw, hex, generation);
            && Get(d, "role") == role && Get(d, "migration_state") == migration && Get(d, "checksum_state") == checksum
            && "flags_raw" in d && d["flags_raw"] == raw && Get(d, "flags_raw") == raw
            && "flags_hex" in d && d["flags_hex"] == hex
            && Get(d, "shadow_present") == shadow
  {
  }

  lemma ActiveFlags()
    ensures IsHex("0x6000342") && HexValue("0x6000342") == 100664130
  {
    var s := "6000342";
    assert HexBody("0x6000342") == "0x6000342";
    assert "0x6000342"[2..] == s;
    assert DigitsValue(s[..0]) == 0;
    assert s[..1][..0] == s[..0] && DigitsValue(s[..1]) == 6;
    assert s[..2][..1] == s[..1] && DigitsValue(s[..2]) == 96;
    assert s[..3][..2] == s[..2] && DigitsValue(s[..3]) == 1536;
    assert s[..4][..3] == s[..3] && DigitsValue(s[..4]) == 24576;
    assert s[..5][..4] == s[..4] && DigitsValue(s[..5]) == 393219;
    assert s[..6][..5] == s[..5] && DigitsValue(s[..6]) == 6291508;
    assert s[..7][..6] == s[..6] && s[..7] == s;
  }

  lemma RetiredFlags()
    ensures IsHex("0x0") && HexValue("0x0") == 0
  {
    assert HexBody("0x0") == "0x0" && "0x0"[2..] == "0" && "0"[..0] == "";
    assert DigitsValue("") == 0;
  }

  lemma StoreObjectPasses(role: Json, migration: Json, checksum: Json, shadow: Json, raw: Json, hex: Json, generation: Json)
    requires OneOf(role, STORE_ROLES) && OneOf(checksum, CHECKSUM_STATES)
    requires IsNonNegative(raw) && hex.Str? && IsHex(hex.s) && HexValue(hex.s) == IntValue(raw)
    ensures StoreErrors(Obj(StoreObject(role, migration, checksum, shadow, raw, hex, generation)), false) == [] <==>
            OneOf(migration, MIGRATION_STATES)
  {
    StoreKeys(role, migration, checksum, shadow, raw, hex, generation);
    StoreParts(role, migration, checksum, shadow, raw, hex, generation);
    assert FlagErrors(StoreObject(role, migration, checksum, shadow, raw, hex, generation)) == [];
  }

  lemma Roles()
    ensures OneOf(Str("active"), STORE_ROLES) && OneOf(Str("retired"), STORE_ROLES)
  {
  }

  lemma StorePasses(s: Store.Summary)
    requires s.checksum in CHECKSUM_STATES
    ensures StoreErrors(StoreJson(s), false) == [] <==> s.manifest.migrationState in MIGRATION_STATES
  {
    ActiveFlags();
    RetiredFlags();
    Roles();
    StoreObjectPasses(Str(if s.initialized then "active" else "retired"), Str(s.manifest.migrationState), Str(s.checksum),
                      Bool(s.shadowPresent), Int(if s.initialized then 100664130 else 0),
                      Str(if s.initialized then "0x6000342" else "0x0"), Int(s.manifest.activeGeneration));
  }

  lemma OneStorePasses(s: Store.Summary)
    requires s.checksum in CHECKSUM_STATES
    ensures ListErrors([StoreJson(s)], StoreErrors) == [] <==> s.manifest.migrationState in MIGRATION_STATES
  {
    StorePasses(s);
    assert [StoreJson(s)][..0] == [];
    assert !Repeats([StoreJson(s)], 0);
  }

  // ---------- the whole report passes ----------

  lemma AssembledParts(now: Json, identity: Json, collection: Json, runtime: Json, stores: Json, lanes: Json, pipeline: Json,
                       resources: Json, policy: Json)
    ensures var r := Assemble(now, identity, collection, runtime, stores, lanes, pipeline, resources, policy);
            && REQUIRED_TOP_LEVEL <= r.Keys
            && Get(r, "schema") == Str(STATE_SCHEMA) && Get(r, "generated_at") == now && Get(r, "runtime") == runtime
            && Get(r, "resources") == resources && Get(r, "attestation") == Unsigned()
  {
    hide Assemble;
    AssembledKeys(now, identity, collection, runtime, stores, lanes, pipeline, resources, policy);
    AssembledValues(now, identity, collection, runtime, stores, lanes, pipeline, resources, policy);
  }

  lemma AssembledKeys(now: Json, identity: Json, collection: Json, runtime: Json, stores: Json, lanes: Json, pipeline: Json,
                      resources: Json, policy: Json)
    ensures REQUIRED_TOP_LEVEL <= Assemble(now, identity, collection, runtime, stores, lanes, pipeline, resources, policy).Keys
  {
  }

  lemma AssembledValues(now: Json, identity: Json, collection: Json, runtime: Json, stores: Json, lanes: Json, pipeline: Json,
                        resources: Json, policy: Json)
    ensures var r := Assemble(now, identity, collection, runtime, stores, lanes, pipeline, resources, policy);
            && Get(r, "schema") == Str(STATE_SCHEMA) && Get(r, "generated_at") == now && Get(r, "runtime") == runtime
            && Get(r, "resources") == resources && Get(r, "attestation") == Unsigned()
  {
  }

  lemma FirstFour(r: Report, stores: Json, lanes: Json, pipeline: Json, local: Json)
    ensures var x := r["stores" := stores]["lanes" := lanes]["pipeline" := pipeline]["local_state" := local];
            && r.Keys <= x.Keys && Get(x, "local_state") == local
            && Get(x, "stores") == stores && Get(x, "lanes") == lanes && Get(x, "pipeline") == pipeline
            && Get(x, "schema") == Get(r, "schema") && Get(x, "generated_at") == Get(r, "generated_at")
            && Get(x, "runtime") == Get(r, "runtime") && Get(x, "resources") == Get(r, "resources")
            && Get(x, "invariants") == Get(r, "invariants") && Get(x, "attestation") == Get(r, "attestation")
  {
  }

  lemma LastThree(r: Report, collection: Json, identity: Json, policy: Json)
    ensures var x := r["collection" := collection]["identity" := identity]["policy" := policy];
            && r.Keys <= x.Keys
            && Get(x, "collection") == collection && Get(x, "identity") == identity && Get(x, "policy") == policy
            && Get(x, "stores") == Get(r, "stores") && Get(x, "lanes") == Get(r, "lanes")
            && Get(x, "pipeline") == Get(r, "pipeline") && Get(x, "local_state") == Get(r, "local_state")
            && Get(x, "schema") == Get(r, "schema") && Get(x, "generated_at") == Get(r, "generated_at")
            && Get(x, "runtime") == Get(r, "runtime") && Get(x, "resources") == Get(r, "resources")
            && Get(x, "invariants") == Get(r, "invariants") && Get(x, "attestation") == Get(r, "attestation")
  {
  }

  lemma OverwrittenParts(r: Report, stores: Json, lanes: Json, pipeline: Json, local: Json, collection: Json, identity: Json,
                       policy: Json)
    ensures var x := Overwritten(r, stores, lanes, pipeline, local, collection, identity, policy);
            && r.Keys <= x.Keys
            && Get(x, "stores") == stores && Get(x, "lanes") == lanes && Get(x, "collection") == collection
            && Get(x, "identity") == identity && Get(x, "policy") == policy && Get(x, "pipeline") == pipeline
            && Get(x, "local_state") == local
            && Get(x, "schema") == Get(r, "schema") && Get(x, "generated_at") == Get(r, "generated_at")
            && Get(x, "runtime") == Get(r, "runtime") && Get(x, "resources") == Get(r, "resources")
            && Get(x, "invariants") == Get(r, "invariants") && Get(x, "attestation") == Get(r, "attestation")
  {
    hide *;
    OverwrittenIs(r, stores, lanes, pipeline, local, collection, identity, policy);
    FirstFour(r, stores, lanes, pipeline, local);
    LastThree(r["stores" := stores]["lanes" := lanes]["pipeline" := pipeline]["local_state" := local], collection, identity, policy);
  }

  /** A refreshed base snapshot keeps every section it does not rewrite. */
  lemma BaseParts(iso: Iso, h: Host)
    ensures var r := Refresh(iso, h.now, BaseSnapshot(h));
            && REQUIRED_TOP_LEVEL <= r.Keys
            && Get(r, "schema") == Str(STATE_SCHEMA) && Get(r, "generated_at") == Str(h.nowText)
            && Get(r, "runtime") == RuntimeSection(Str(h.nowText)) && Get(r, "resources") == ResourcesSection(h)
            && Get(r, "attestation") == Unsigned() && Settled(r)
  {
    var base := BaseSnapshot(h);
    BaseIsAssembled(h);
    RefreshSettles(iso, h.now, base);
    KeptSections(base, Refresh(iso, h.now, base));
  }

  lemma BaseIsAssembled(h: Host)
    ensures REQUIRED_TOP_LEVEL <= BaseSnapshot(h).Keys
    ensures Get(BaseSnapshot(h), "schema") == Str(STATE_SCHEMA) && Get(BaseSnapshot(h), "generated_at") == Str(h.nowText)
    ensures Get(BaseSnapshot(h), "runtime") == RuntimeSection(Str(h.nowText))
    ensures Get(BaseSnapshot(h), "resources") == ResourcesSection(h) && Get(BaseSnapshot(h), "attestation") == Unsigned()
  {
    AssembledParts(Str(h.nowText), Obj(IdentityFields(h)), CollectionSection(true), RuntimeSection(Str(h.nowText)),
                   Arr([BaseStore()]), Arr([LaneJson(Store.EmptyLane("normal"))]), BasePipeline(), ResourcesSection(h),
                   PolicySection(Policy.Counts(0, 0, 0, 0)));
  }

  lemma KeptSections(r: Report, x: Report)
    requires Core(r) == Core(x) && REQUIRED_TOP_LEVEL <= r.Keys && REWRITTEN <= x.Keys
    ensures REQUIRED_TOP_LEVEL <= x.Keys
    ensures Get(x, "schema") == Get(r, "schema") && Get(x, "generated_at") == Get(r, "generated_at")
    ensures Get(x, "runtime") == Get(r, "runtime") && Get(x, "resources") == Get(r, "resources")
    ensures Get(x, "attestation") == Get(r, "attestation")
  {
    SameSections(r, x);
    assert "attestation" !in REWRITTEN;
    assert "schema" !in REWRITTEN && "generated_at" !in REWRITTEN && "runtime" !in REWRITTEN && "resources" !in REWRITTEN;
    assert r.Keys <= Core(r).Keys + REWRITTEN;
    assert Core(x).Keys <= x.Keys;
  }

  /** The report before it is diagnosed: what each section is. */
  lemma ProjectedParts(iso: Iso, h: Host, s: Store.Summary)
    ensures var p := Projected(iso, h, s);
            && REQUIRED_TOP_LEVEL <= p.Keys && Settled(p)
            && Get(p, "schema") == Str(STATE_SCHEMA) && Get(p, "generated_at") == Str(h.nowText)
            && Get(p, "runtime") == RuntimeSection(Str(h.nowText)) && Get(p, "resources") == ResourcesSection(h)
            && Get(p, "stores") == Arr([StoreJson(s)]) && Get(p, "lanes") == Arr(LaneItems(s.lanes))
            && Get(p, "collection") == CollectionSection(s.initialized) && Get(p, "identity") == IdentitySection(h)
            && Get(p, "policy") == PolicySection(PolicyCounts(s.lanes)) && Get(p, "attestation") == Unsigned()
            && Get(p, "pipeline") == PipelineJson(s.pipeline) && Get(p, "local_state") == LocalStateJson(h, s)
  {
    hide *;
    ProjectedIs(iso, h, s);
    BaseParts(iso, h);
    OverwrittenParts(Refresh(iso, h.now, BaseSnapshot(h)), Arr([StoreJson(s)]), Arr(LaneItems(s.lanes)), PipelineJson(s.pipeline),
                     LocalStateJson(h, s), CollectionSection(s.initialized), IdentitySection(h), PolicySection(PolicyCounts(s.lanes)));
    SettledIs(Refresh(iso, h.now, BaseSnapshot(h)));
    SettledFrom(Projected(iso, h, s));
  }

  /** The last three writes keep the rest. */
  lemma FinishedParts(iso: Iso, now: int, p: Report, extras: Fields)
    requires REQUIRED_TOP_LEVEL <= p.Keys && Settled(p)
    ensures var r := Finished(iso, now, p, extras);
            Core(r) == Core(p) && Settled(r) && REQUIRED_TOP_LEVEL <= r.Keys
  {
    hide *;
    var d := Extended(Diagnose(iso, now, p), extras);
    var p1 := p["diagnosis" := d];
    var p2 := p1["invariants" := InvariantsJson(Verify(iso, now, p1))];
    FinishedSteps(iso, now, p, extras);
    InvariantsJsonValid(Verify(iso, now, p1));
    WrittenBack(p, d, Verify(iso, now, p1), Arr(ControlItems(ControlsFor(iso, now, p2))));
    SettledFrom(Finished(iso, now, p, extras));
  }

  /** The intermediate reports of the last writes. */
  lemma FinishedSteps(iso: Iso, now: int, p: Report, extras: Fields)
    ensures var p1 := p["diagnosis" := Extended(Diagnose(iso, now, p), extras)];
            var p2 := p1["invariants" := InvariantsJson(Verify(iso, now, p1))];
            Finished(iso, now, p, extras) == p2["controls" := Arr(ControlItems(ControlsFor(iso, now, p2)))]
  {
    hide Extended, Diagnose, InvariantsJson, Verify, ControlItems, ControlsFor;
  }

  lemma ThreeWrites(p: Report, d: Json, i: Json, c: Json)
    ensures var p1 := p["diagnosis" := d];
            var p2 := p1["invariants" := i];
            var r := p2["controls" := c];
            && Core(p1) == Core(p) && Core(p2) == Core(p) && Core(r) == Core(p)
            && (REWRITTEN <= p.Keys ==> REWRITTEN <= p1.Keys && REWRITTEN <= p2.Keys && REWRITTEN <= r.Keys)
            && Get(p1, "invariants") == Get(p, "invariants") && Get(p2, "invariants") == i
            && Get(r, "invariants") == i && Get(r, "diagnosis") == d && Get(r, "controls") == c
  {
  }

  lemma AlikeInCore(iso: Iso, now: int, later: int, p: Report, q: Report, r: Report)
    requires Settled(q) && Settled(r) && Core(q) == Core(p) && Core(r) == Core(p) && Dated(iso, p)
    ensures Verify(iso, now, q) == Verify(iso, later, r) && Diagnose(iso, now, q) == Diagnose(iso, later, r)
    ensures ControlsFor(iso, now, q) == ControlsFor(iso, later, r)
  {
    hide *;
    StaysDated(iso, p, q);
    SettledErrors(iso, q, r);
    DiagnosedAlike(iso, now, later, q, r);
  }

  /** The diagnosis is written first, from the invariants of the base snapshot, the invariants after it and the controls
      last; on a settled, dated report a fresh look at the finished report gives all three again, but for the extra keys
      of the diagnosis. */
  lemma FinishedAgrees(iso: Iso, now: int, later: int, p: Report, extras: Fields)
    requires Settled(p) && Dated(iso, p)
    ensures var r := Finished(iso, now, p, extras);
            && Settled(r) && Dated(iso, r) && Core(r) == Core(p)
            && Get(r, "invariants") == InvariantsJson(Verify(iso, later, r))
            && Get(r, "diagnosis") == Extended(Diagnose(iso, later, r), extras)
            && Get(r, "controls") == Arr(ControlItems(ControlsFor(iso, later, r)))
  {
    hide *;
    var d := Extended(Diagnose(iso, now, p), extras);
    var p1 := p["diagnosis" := d];
    var i := InvariantsJson(Verify(iso, now, p1));
    var p2 := p1["invariants" := i];
    var c := Arr(ControlItems(ControlsFor(iso, now, p2)));
    var r := Finished(iso, now, p, extras);
    FinishedSteps(iso, now, p, extras);
    ThreeWrites(p, d, i, c);
    SettledIs(p);
    InvariantsJsonValid(Verify(iso, now, p1));
    SettledFrom(p1);
    SettledFrom(p2);
    SettledFrom(r);
    StaysDated(iso, p, r);
    AlikeInCore(iso, now, later, p, p, r);
    AlikeInCore(iso, now, later, p, p1, r);
    AlikeInCore(iso, now, later, p, p2, r);
  }

  lemma OwnKeys(d: Diagnosis)
    ensures DiagnosisFields(d).Keys !! STORE_KEYS
  {
    hide StatusText, SeverityText, SummaryText, CauseText, SafeActionText, BlockedActionText, SortedSet, Texts;
    assert "local_state" !in DiagnosisFields(d) && "top_producers" !in DiagnosisFields(d) && "policy" !in DiagnosisFields(d);
  }

  /** The extra keys are none of those a diagnosis has of its own. */
  lemma ExtrasAreNew(d: Diagnosis, extras: Fields)
    requires extras.Keys == STORE_KEYS
    ensures DiagnosisFields(d).Keys !! STORE_KEYS
    ensures Extended(d, extras) == Obj(DiagnosisFields(d) + extras) && DiagnosisJson(d) == Obj(DiagnosisFields(d))
    ensures Extended(d, extras) != DiagnosisJson(d)
  {
    hide DiagnosisFields;
    OwnKeys(d);
    assert "local_state" in DiagnosisFields(d) + extras;
  }

  lemma WrittenBack(p: Report, d: Json, invs: seq<Invariant>, c: Json)
    requires REQUIRED_TOP_LEVEL <= p.Keys
    ensures var r := p["diagnosis" := d]["invariants" := InvariantsJson(invs)]["controls" := c];
            && Core(r) == Core(p) && REQUIRED_TOP_LEVEL <= r.Keys
            && Get(r, "invariants") == InvariantsJson(invs) && REWRITTEN <= r.Keys
  {
  }
}
