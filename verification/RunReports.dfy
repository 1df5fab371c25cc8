/** From the requests of a run to the text of its report. */
module RunReports {
  import opened Text
  import opened Sums
  import opened Json
  import opened Reports
  import opened FreshDiagnosis
  import opened StoreReports
  import opened StoreReportChecks
  import Store = LocalStore
  import Runs = StoreRuns
  import Requests = StoreRequests
  import Policy = Policies
  import Causes = Diagnoses

  // ---------- lanes and pipeline ----------

  /** What a lane object says of the requests of a run. */
  ghost predicate LaneTells(lane: Json, name: string, written: seq<Requests.Written>, bytes: nat) {
    var lost := CountIf(written, Requests.Lost());
    && SectionTells(lane, name, bytes)
    && Get(FieldsOf(lane), "name") == Str(name)
    && Get(FieldsOf(lane), "status") == Str(if name == "repair" && lost > 0 then "degraded" else "active")
    && Get(ObjectsOf(lane), "tombstones") == Int(CountIf(written, Requests.For({Store.Delete}, name)))
    && Get(ObjectsOf(lane), "corrupted") == Int(if name == "repair" then 2 * lost else 0)
    && Get(ObjectsOf(lane), "total") ==
       Int(if name == "normal" then |Requests.Objects(written) - Requests.Removed(written)|
           else CountIf(written, Requests.For({Store.Checkpoint, Store.Repair, Store.Policy}, name)))
    && LagOf(lane) == 0
  }

  /** The size of the journal and the limits of the lane. */
  predicate SectionTells(lane: Json, name: string, bytes: nat) {
    var journal, sla := FieldsOf(Get(FieldsOf(lane), "journal")), FieldsOf(Get(FieldsOf(lane), "sla"));
    && Get(journal, "total_bytes") == Int(bytes) == Get(journal, "max_segment_bytes")
    && Get(journal, "segment_count") == Int(if bytes > 0 then 1 else 0)
    && Get(sla, "max_replay_lag_events") == Int(if name == "priority" then 0 else 100)
    && Get(sla, "max_replay_lag_ms") == Int(if name == "priority" then 1000 else 10000)
    && Get(sla, "max_heartbeat_age_ms") == Int(30000)
  }

  lemma SectionsShown(l: Store.LaneSummary)
    requires l.maxReplayLag == if l.name == "priority" then 0 else 100
    requires l.maxReplayLagMs == if l.name == "priority" then 1000 else 10000
    ensures SectionTells(LaneJson(l), l.name, l.journalBytes)
  {
    hide SlaSection, JournalSection;
    LaneJsonIs(l);
    SlaShown(l);
    JournalShown(l);
    LaneParts(Str(l.name), Str(l.status), SlaSection(l), ObjectsSection(l), JournalSection(l));
  }

  lemma SlaShown(l: Store.LaneSummary)
    ensures var d := FieldsOf(SlaSection(l));
            && Get(d, "max_replay_lag_events") == Int(l.maxReplayLag) && Get(d, "max_replay_lag_ms") == Int(l.maxReplayLagMs)
            && Get(d, "max_heartbeat_age_ms") == Int(30000)
  {
  }

  lemma JournalShown(l: Store.LaneSummary)
    ensures var d := FieldsOf(JournalSection(l));
            && Get(d, "total_bytes") == Int(l.journalBytes) == Get(d, "max_segment_bytes")
            && Get(d, "segment_count") == Int(if l.journalBytes > 0 then 1 else 0)
  {
  }

  lemma LaneFromSummary(l: Store.LaneSummary, written: seq<Requests.Written>, bytes: nat)
    requires Requests.LaneTells(l, written, bytes)
    ensures LaneTells(LaneJson(l), l.name, written, bytes)
  {
    hide LaneJson, ObjectsOf, LagOf, Get, FieldsOf, CountIf, SectionTells;
    LaneShows(l);
    LaneReads(l);
    SectionsShown(l);
  }

  /** The stages of the pipeline as they are written. */
  ghost predicate PipelineTells(j: Json, written: seq<Requests.Written>) {
    && StagesAre(j, "add", ["external_requested", "accepted", "journaled", "applied"],
                 CountIf(written, Requests.OfAnyLane(Store.Add)))
    && StagesAre(j, "update", ["external_requested", "accepted", "journaled", "applied"],
                 CountIf(written, Requests.OfAnyLane(Store.Update)))
    && StagesAre(j, "delete", ["external_requested", "authorized", "tombstoned", "journaled", "propagated"],
                 CountIf(written, Requests.OfAnyLane(Store.Delete)))
  }

  predicate StagesAre(j: Json, kind: string, stages: seq<string>, n: nat) {
    forall i :: 0 <= i < |stages| ==> Stage(j, kind, stages[i]) == Int(n)
  }

  lemma WriteStages(p: Store.Pipeline, n: nat)
    ensures p.add == Store.WriteCounts(n, n, n, n) ==>
              StagesAre(PipelineJson(p), "add", ["external_requested", "accepted", "journaled", "applied"], n)
    ensures p.update == Store.WriteCounts(n, n, n, n) ==>
              StagesAre(PipelineJson(p), "update", ["external_requested", "accepted", "journaled", "applied"], n)
  {
  }

  lemma DeleteStages(p: Store.Pipeline, n: nat)
    requires p.delete == Store.DeleteCounts(n, n, n, n, n)
    ensures StagesAre(PipelineJson(p), "delete", ["external_requested", "authorized", "tombstoned", "journaled", "propagated"], n)
  {
  }

  /** The report of any run, lane by lane and stage by stage, read off the accepted requests and the damage. */
  lemma ReportTellsRequests(iso: Iso, h: Host, ops: seq<Runs.Op>, bytes: nat)
    ensures var r, written := ReportOf(iso, h, Runs.After(Runs.Fresh, ops).files, bytes), Requests.WrittenBy(ops);
            && |LanesOf(r)| == |Store.DEFAULT_LANES|
            && (forall i :: 0 <= i < |LanesOf(r)| ==> LaneTells(LanesOf(r)[i], Store.DEFAULT_LANES[i], written, bytes))
            && PipelineTells(Get(r, "pipeline"), written)
  {
    hide *;
    var f, written := Runs.After(Runs.Fresh, ops).files, Requests.WrittenBy(ops);
    var s, r := Store.Summarized(f, bytes), ReportOf(iso, h, f, bytes);
    ReportOfIs(iso, h, f, bytes);
    ReportIsMadeFrom(iso, h, s);
    MadeFromParts(r, h, s);
    Requests.SummaryTellsRequests(ops, bytes);
    LaneItemsAt(s.lanes);
    forall i | 0 <= i < |LanesOf(r)| ensures LaneTells(LanesOf(r)[i], Store.DEFAULT_LANES[i], written, bytes) {
      LaneFromSummary(s.lanes[i], written, bytes);
    }
    PipelineFromSummary(s.pipeline, written);
  }

  lemma PipelineFromSummary(p: Store.Pipeline, written: seq<Requests.Written>)
    requires Requests.PipelineTells(p, written)
    ensures PipelineTells(PipelineJson(p), written)
  {
    hide PipelineJson, StagesAre, CountIf;
    WriteStages(p, CountIf(written, Requests.OfAnyLane(Store.Add)));
    WriteStages(p, CountIf(written, Requests.OfAnyLane(Store.Update)));
    DeleteStages(p, CountIf(written, Requests.OfAnyLane(Store.Delete)));
  }

  // ---------- policy ----------

  function Decisions(r: Report): Fields {
    FieldsOf(Get(FieldsOf(Get(r, "policy")), "policy_decisions"))
  }

  lemma CountsShown(c: Policy.Counts)
    ensures var d := FieldsOf(Get(FieldsOf(PolicySection(c)), "policy_decisions"));
            && Get(d, "allowed") == Int(c.allowed) && Get(d, "denied") == Int(c.denied)
            && Get(d, "redacted") == Int(c.redacted) && Get(d, "deferred") == Int(c.deferred)
            && d.Keys == {"allowed", "denied", "redacted", "deferred"}
  {
  }

  /** The decision counts as a store report writes them: two denials and a redaction for lane "secure", a denial for lane
      "repair", a deferral for lane "ephemeral", and four decisions per lane in all. */
  lemma ReportTellsDecisions(iso: Iso, h: Host, f: Store.Files, bytes: nat)
    ensures var d, lanes := Decisions(ReportOf(iso, h, f, bytes)), Store.SummaryOrder(f);
            var secure, repair, ephemeral := if "secure" in lanes then 1 else 0, if "repair" in lanes then 1 else 0,
                                             if "ephemeral" in lanes then 1 else 0;
            && d.Keys == {"allowed", "denied", "redacted", "deferred"}
            && Get(d, "denied") == Int(2 * secure + repair) && Get(d, "redacted") == Int(secure)
            && Get(d, "deferred") == Int(ephemeral)
            && Get(d, "allowed") == Int(4 * |lanes| - 3 * secure - repair - ephemeral)
  {
    hide *;
    var s, r := Store.Summarized(f, bytes), ReportOf(iso, h, f, bytes);
    ReportOfIs(iso, h, f, bytes);
    ReportIsMadeFrom(iso, h, s);
    MadeFromParts(r, h, s);
    CountsShown(PolicyCounts(s.lanes));
    ReportedCountsExactly(f, bytes);
    DecisionsAre(r);
  }

  lemma DecisionsAre(r: Report)
    ensures Decisions(r) == FieldsOf(Get(FieldsOf(Get(r, "policy")), "policy_decisions"))
  {
  }

  // ---------- what only a store report says ----------

  function CountIn(counts: Json, kind: string): Json {
    Get(FieldsOf(counts), kind)
  }

  lemma RegistryShown(counts: map<Store.Kind, nat>)
    requires counts.Keys == Store.KINDS
    ensures var j := RegistryJson(counts);
            && CountIn(j, "profiles") == Int(counts[Store.Profiles]) && CountIn(j, "devices") == Int(counts[Store.Devices])
            && CountIn(j, "actors") == Int(counts[Store.Actors]) && CountIn(j, "schemas") == Int(counts[Store.Schemas])
            && CountIn(j, "objects") == Int(counts[Store.Objects]) && CountIn(j, "indexes") == Int(counts[Store.Indexes])
            && CountIn(j, "repair-reports") == Int(counts[Store.RepairReports])
  {
  }

  lemma LocalStateShown(h: Host, s: Store.Summary)
    ensures var d := FieldsOf(LocalStateJson(h, s));
            && Get(d, "initialized") == Bool(s.initialized) && Get(d, "root") == Str(h.storeRoot)
            && Get(d, "registry_counts") == RegistryJson(s.registryCounts)
            && Get(d, "journal_present") == Bool(s.journalPresent) && Get(d, "manifest_present") == Bool(s.initialized)
  {
    hide RegistryJson, Texts;
  }

  /** The names of the records of one kind. */
  function NamesOf(f: Store.Files, k: Store.Kind): set<string> {
    set key | key in f.registry && key.0 == k :: key.1
  }

  lemma SummaryState(f: Store.Files, bytes: nat)
    ensures var s := Store.Summarized(f, bytes);
            && s.initialized == f.manifest.Some? && s.journalPresent == f.journal.Some?
            && s.registryCounts.Keys == Store.KINDS
            && forall k :: k in Store.KINDS ==>
                 s.registryCounts[k] == if f.manifest.Some? then |NamesOf(f, k)| else 0
  {
    forall k | k in Store.KINDS ensures |Store.RecordsOf(f, k)| == |NamesOf(f, k)| {
      KeysByName(f, k);
    }
  }

  /** The keys of one kind are as many as their names. */
  lemma KeysByName(f: Store.Files, k: Store.Kind)
    ensures |Store.RecordsOf(f, k)| == |NamesOf(f, k)|
  {
    SameSize(Store.RecordsOf(f, k), NamesOf(f, k), k);
  }

  lemma {:induction false} SameSize(keys: set<(Store.Kind, string)>, names: set<string>, k: Store.Kind)
    requires forall n :: (k, n) in keys <==> n in names
    requires forall key :: key in keys ==> key.0 == k
    ensures |keys| == |names|
    decreases keys
  {
    if keys == {} {
      assert names == {} by { if n :| n in names { assert (k, n) in keys; } }
    } else {
      var key :| key in keys;
      assert (k, key.1) == key;
      SameSize(keys - {key}, names - {key.1}, k);
    }
  }

  /** How many records of a kind a store report announces. */
  function Announced(f: Store.Files, k: Store.Kind): Json {
    Int(if f.manifest.Some? then |NamesOf(f, k)| else 0)
  }

  /** The local state a store report carries: which files there are, and the number of records of each kind. */
  lemma ReportTellsState(iso: Iso, h: Host, f: Store.Files, bytes: nat)
    ensures var d := FieldsOf(Get(ReportOf(iso, h, f, bytes), "local_state"));
            var counts := Get(d, "registry_counts");
            && Get(d, "initialized") == Bool(f.manifest.Some?) == Get(d, "manifest_present")
            && Get(d, "journal_present") == Bool(f.journal.Some?) && Get(d, "root") == Str(h.storeRoot)
            && CountIn(counts, "profiles") == Announced(f, Store.Profiles)
            && CountIn(counts, "devices") == Announced(f, Store.Devices)
            && CountIn(counts, "actors") == Announced(f, Store.Actors)
            && CountIn(counts, "schemas") == Announced(f, Store.Schemas)
            && CountIn(counts, "objects") == Announced(f, Store.Objects)
            && CountIn(counts, "indexes") == Announced(f, Store.Indexes)
            && CountIn(counts, "repair-reports") == Announced(f, Store.RepairReports)
  {
    hide *;
    var s := Store.Summarized(f, bytes);
    ReportOfIs(iso, h, f, bytes);
    StoreReportIs(iso, h, s);
    ProjectedParts(iso, h, s);
    FinishedParts(iso, h.now, Projected(iso, h, s), StoreKeysOf(h, s));
    LocalStateStays(Projected(iso, h, s), ReportOf(iso, h, f, bytes), Null);
    LocalStateShown(h, s);
    SummaryState(f, bytes);
    RegistryShown(s.registryCounts);
    KindsAre();
    AnnouncedAre(f);
  }

  lemma KindsAre()
    ensures Store.KINDS == {Store.Profiles, Store.Devices, Store.Actors, Store.Schemas, Store.Objects, Store.Indexes,
                            Store.RepairReports}
  {
  }

  lemma AnnouncedAre(f: Store.Files)
    ensures forall k :: Announced(f, k) == Int(if f.manifest.Some? then |NamesOf(f, k)| else 0)
    ensures forall d, key: string :: CountIn(d, key) == Get(FieldsOf(d), key)
  {
  }

  /** The top producers as they are written. */
  lemma ProducersShown(s: Store.Summary)
    ensures TopProducersJson(s).Arr? && |TopProducersJson(s).items| == |s.topProducers|
    ensures forall i :: 0 <= i < |s.topProducers| ==>
              var d := FieldsOf(TopProducersJson(s).items[i]);
              Get(d, "producer") == Str(s.topProducers[i])
              && Get(d, "events") == Int(Store.EventsBy(s.producers, s.topProducers[i]))
  {
    MappedAt(s.topProducers, ProducerJson(s.producers));
  }

  lemma {:induction false} RequestsBefore(lanes: seq<string>, k: nat)
    requires k < |lanes|
    ensures |Policy.ReportRequests(lanes)| == 4 * |lanes|
    ensures forall n :: 0 <= n < 4 ==>
              Policy.ReportRequests(lanes)[4 * k + n] == Policy.Request(Policy.REPORTED[n], lanes[k], "internal")
  {
    var front, last := lanes[..|lanes| - 1], lanes[|lanes| - 1];
    Policy.DecisionsOfRequests(front);
    if k < |lanes| - 1 { RequestsBefore(front, k); }
  }

  lemma SampleShown(h: Host, lanes: seq<string>)
    ensures |Policy.ReportRequests(lanes)| == 4 * |lanes|
    ensures var sample := Get(FieldsOf(PolicySummary(h, lanes)), "sample");
            && sample.Arr? && |sample.items| == Min(12, 4 * |lanes|)
            && forall i :: 0 <= i < |sample.items| ==> sample.items[i] == DecisionJson(h.nowText)(Policy.ReportRequests(lanes)[i])
  {
    Policy.DecisionsOfRequests(lanes);
    MappedAt(Policy.Sampled(lanes), DecisionJson(h.nowText));
    SampleIs(h, lanes);
  }

  lemma SampleIs(h: Host, lanes: seq<string>)
    ensures Get(FieldsOf(PolicySummary(h, lanes)), "sample") == Arr(Mapped(Policy.Sampled(lanes), DecisionJson(h.nowText)))
  {
    hide Mapped, Policy.Sampled, DecisionJson, CountsJson;
  }

  lemma DecisionShown(now: string, q: Policy.Request)
    ensures var d := FieldsOf(DecisionJson(now)(q));
            && Get(d, "action") == Str(ActionText(q.action)) && Get(d, "lane") == Str(q.lane)
            && Get(d, "status") == Str(PolicyStatusText(Policy.Decide(q))) && Get(d, "reason") == Str(Policy.Reason(q))
            && Get(d, "generated_at") == Str(now) && Get(d, "subject") == Str("sourceos-syncd") && Get(d, "object_id") == Null
            && Get(d, "data_class") == Str(q.dataClass) && Get(d, "engine") == Str("policy-fabric-local")
  {
    hide Policy.Decide, Policy.Reason, ActionText, PolicyStatusText;
  }

  /** The actions in the order in which they are tried on each lane. */
  const TRIED: seq<string> := ["index", "retain", "replicate", "agent_access"]

  lemma ActionsTried(n: nat)
    requires n < 4
    ensures ActionText(Policy.REPORTED[n]) == TRIED[n]
  {
  }

  /** The sample of decisions in the diagnosis of a store report: the first twelve of four per lane, lane by lane, each
      naming its action, its lane, and the status and reason the policy gives. */
  lemma SampleTells(h: Host, lanes: seq<string>, i: nat)
    requires i < Min(12, 4 * |lanes|)
    ensures var sample := Get(FieldsOf(PolicySummary(h, lanes)), "sample");
            && sample.Arr? && |sample.items| == Min(12, 4 * |lanes|)
            && var d, q := FieldsOf(sample.items[i]), Policy.Request(Policy.REPORTED[i % 4], lanes[i / 4], "internal");
            && Get(d, "action") == Str(TRIED[i % 4]) && Get(d, "lane") == Str(lanes[i / 4])
            && Get(d, "status") == Str(PolicyStatusText(Policy.Decide(q))) && Get(d, "reason") == Str(Policy.Reason(q))
            && Get(d, "subject") == Str("sourceos-syncd") && Get(d, "data_class") == Str("internal")
  {
    hide PolicySummary, DecisionJson, Policy.Decide, Policy.Reason, ActionText, PolicyStatusText, Policy.ReportRequests;
    SampleShown(h, lanes);
    RequestsBefore(lanes, i / 4);
    assert i == 4 * (i / 4) + i % 4;
    DecisionShown(h.nowText, Policy.ReportRequests(lanes)[i]);
    ActionsTried(i % 4);
  }

  // ---------- affected lanes ----------

  lemma LaneAffected(l: Store.LaneSummary)
    ensures Affected(LaneJson(l)) <==> l.status in {"degraded", "repairing", "unsafe"} || l.replayLag > l.maxReplayLag
    ensures LaneName(LaneJson(l)) == l.name
  {
    hide LaneJson;
    LaneReads(l);
    LaneShows(l);
    LaneIsObject(l);
  }

  lemma LaneIsObject(l: Store.LaneSummary)
    ensures LaneJson(l).Obj? && "name" in LaneJson(l).fields
  {
  }

  /** After any run the diagnosis names lane "repair" as affected exactly when a line was damaged, and no other lane ever. */
  lemma RunsAffectExactly(iso: Iso, h: Host, now: int, ops: seq<Runs.Op>, bytes: nat)
    ensures Diagnose(iso, now, ReportOf(iso, h, Runs.After(Runs.Fresh, ops).files, bytes)).affectedLanes ==
            if exists w :: w in Requests.WrittenBy(ops) && w.damaged then {"repair"} else {}
  {
    hide *;
    var f, written := Runs.After(Runs.Fresh, ops).files, Requests.WrittenBy(ops);
    var s, r := Store.Summarized(f, bytes), ReportOf(iso, h, f, bytes);
    ReportOfIs(iso, h, f, bytes);
    ReportIsMadeFrom(iso, h, s);
    MadeFromParts(r, h, s);
    Requests.SummaryTellsRequests(ops, bytes);
    AffectedOfSummary(s.lanes, written, bytes);
    AffectedAre(iso, now, r);
  }

  lemma AffectedAre(iso: Iso, now: int, r: Report)
    ensures Diagnose(iso, now, r).affectedLanes == AffectedLanes(LanesOf(r))
  {
    hide Verify, NotPassing, StatusOf, AffectedLanes, CollectionCauses, DiskTight;
  }

  lemma AffectedOfSummary(lanes: seq<Store.LaneSummary>, written: seq<Requests.Written>, bytes: nat)
    requires |lanes| == |Store.DEFAULT_LANES|
    requires forall i :: 0 <= i < |lanes| ==> lanes[i].name == Store.DEFAULT_LANES[i] && Requests.LaneTells(lanes[i], written, bytes)
    ensures AffectedLanes(LaneItems(lanes)) == if exists w :: w in written && w.damaged then {"repair"} else {}
  {
    hide Affected, LaneName, LaneJson, CountIf, LaneItems;
    LaneItemsAt(lanes);
    Store.CountSome(written, Requests.Lost());
    var items, lost := LaneItems(lanes), CountIf(written, Requests.Lost());
    assert lost > 0 <==> exists w :: w in written && w.damaged by {
      if w :| w in written && w.damaged { assert Requests.Lost()(w); }
    }
    forall i | 0 <= i < |items|
      ensures Affected(items[i]) <==> lanes[i].name == "repair" && lost > 0
      ensures LaneName(items[i]) == lanes[i].name
    {
      LaneAffected(lanes[i]);
      assert Requests.LaneTells(lanes[i], written, bytes);
    }
    forall name ensures name in AffectedLanes(items) <==> name == "repair" && lost > 0 {
      if name in AffectedLanes(items) {
        var lane :| lane in items && Affected(lane) && LaneName(lane) == name;
        var i :| 0 <= i < |items| && items[i] == lane;
      }
      if name == "repair" && lost > 0 {
        assert Store.DEFAULT_LANES[8] == "repair";
        assert items[8] in items;
      }
    }
  }

  // ---------- the store object and the collection ----------

  lemma StoreShown(s: Store.Summary)
    ensures StoreJson(s).Obj?
    ensures var d := StoreJson(s).fields;
            && Get(d, "role") == Str(if s.initialized then "active" else "retired")
            && Get(d, "migration_state") == Str(s.manifest.migrationState) && Get(d, "checksum_state") == Str(s.checksum)
            && Get(d, "active_generation") == Int(s.manifest.activeGeneration) && Get(d, "shadow_present") == Bool(s.shadowPresent)
  {
  }

  lemma ErrorsShown(initialized: bool)
    ensures Get(FieldsOf(CollectionSection(initialized)), "errors") == Arr([]) <==> initialized
    ensures Get(FieldsOf(CollectionSection(initialized)), "status") == Str("partial")
  {
    assert |Texts(["local store is not initialized; run store init first"]).items| == 1;
  }

  /** One active store: its generation, its checksum and its shadow. */
  predicate StoreTells(stores: seq<Json>, generation: int, damaged: bool) {
    && |stores| == 1 && stores[0].Obj?
    && var d := stores[0].fields;
    && Get(d, "role") == Str("active") && Get(d, "migration_state") == Str("none")
    && Get(d, "active_generation") == Int(generation)
    && Get(d, "checksum_state") == Str(if damaged then "mismatch" else "verified")
    && Get(d, "shadow_present") == Bool(true)
  }

  lemma StoreFromSummary(s: Store.Summary, generation: int, damaged: bool)
    requires s.initialized && s.shadowPresent && s.manifest.migrationState == "none"
    requires s.manifest.activeGeneration == generation && s.checksum == if damaged then "mismatch" else "verified"
    ensures StoreTells([StoreJson(s)], generation, damaged)
  {
    hide StoreJson;
    StoreShown(s);
  }

  /** What a run's report says of the store: active, with a generation for each append that was not cut short, its checksum
      verified exactly when no line was damaged; and the collection has no error to report. */
  lemma ReportTellsStore(iso: Iso, h: Host, ops: seq<Runs.Op>, bytes: nat)
    ensures var run := Runs.After(Runs.Fresh, ops);
            var r := ReportOf(iso, h, run.files, bytes);
            && StoreTells(StoresOf(r), 1 + |Requests.WrittenBy(ops)| - run.cuts, Runs.Damaged(run))
            && Get(FieldsOf(Get(r, "collection")), "errors") == Arr([])
  {
    hide *;
    var run := Runs.After(Runs.Fresh, ops);
    var s, r := Store.Summarized(run.files, bytes), ReportOf(iso, h, run.files, bytes);
    ReportOfIs(iso, h, run.files, bytes);
    ReportIsMadeFrom(iso, h, s);
    MadeFromParts(r, h, s);
    SummaryOfRun(ops, bytes);
    StoreFromSummary(s, 1 + |Requests.WrittenBy(ops)| - run.cuts, Runs.Damaged(run));
    CollectionOf(iso, h, s, r);
    ErrorsShown(true);
  }

  lemma CollectionOf(iso: Iso, h: Host, s: Store.Summary, r: Report)
    requires r == StoreReport(iso, h, s)
    ensures Get(r, "collection") == CollectionSection(s.initialized)
  {
    hide *;
    var p := Projected(iso, h, s);
    StoreReportIs(iso, h, s);
    ProjectedParts(iso, h, s);
    FinishedParts(iso, h.now, p, StoreKeysOf(h, s));
    SameCollection(p, r);
  }

  lemma SameCollection(p: Report, r: Report)
    requires Core(p) == Core(r)
    ensures Get(p, "collection") == Get(r, "collection")
  {
    SameSections(p, r);
    assert "collection" !in REWRITTEN;
  }

  lemma SummaryOfRun(ops: seq<Runs.Op>, bytes: nat)
    ensures var run := Runs.After(Runs.Fresh, ops);
            var s := Store.Summarized(run.files, bytes);
            && s.initialized && s.shadowPresent && s.manifest.migrationState == "none"
            && s.manifest.activeGeneration == 1 + |Requests.WrittenBy(ops)| - run.cuts
            && s.checksum == (if Runs.Damaged(run) then "mismatch" else "verified")
  {
    hide CountIf, Store.EventsOf, Runs.Damaged;
    Runs.IdsCountAppends(ops);
    Runs.RunsLeaveNothingUnapplied(ops);
    Requests.JournalHoldsRequests(ops);
  }

  // ---------- the host ----------

  /** What a report says of the machine it was made on. */
  predicate HostTells(identity: Json, disk: Json, runtime: Fields, h: Host) {
    && identity.Obj? && disk.Obj?
    && Get(identity.fields, "pid") == Int(h.pid) && Get(identity.fields, "node_id_hash") == Str(h.nodeHash)
    && Get(identity.fields, "platform") == Str(h.platform) && Get(identity.fields, "store_root") == Str(h.storeRoot)
    && Get(identity.fields, "component") == Str("sourceos-syncd")
    && Get(disk.fields, "free_bytes") == Int(h.freeBytes) && Get(disk.fields, "total_bytes") == Int(h.totalBytes)
    && Get(disk.fields, "free_ratio") == Num(h.freeRatio)
    && Get(disk.fields, "pressure") == Str(if h.freeRatio <= 0.05 then "critical" else if h.freeRatio <= 0.10 then "warning"
                                           else if h.freeRatio <= 0.20 then "watch" else "none")
    && Get(runtime, "last_heartbeat_at") == Str(h.nowText) && Get(runtime, "process_started_at") == Str(h.nowText)
    && Get(runtime, "last_dirty_open_at") == Null
  }

  lemma IdentityShown(h: Host)
    ensures IdentitySection(h).Obj?
    ensures var d := IdentitySection(h).fields;
            && Get(d, "pid") == Int(h.pid) && Get(d, "node_id_hash") == Str(h.nodeHash) && Get(d, "platform") == Str(h.platform)
            && Get(d, "store_root") == Str(h.storeRoot) && Get(d, "component") == Str("sourceos-syncd")
  {
  }

  lemma DiskShown(h: Host)
    ensures DiskSection(h).Obj?
    ensures var d := DiskSection(h).fields;
            && Get(d, "free_bytes") == Int(h.freeBytes) && Get(d, "total_bytes") == Int(h.totalBytes)
            && Get(d, "free_ratio") == Num(h.freeRatio) && Get(d, "pressure") == Str(DiskPressureText(h.freeRatio))
  {
    hide DiskPressureText;
  }

  lemma RuntimeShown(now: Json)
    ensures var d := RuntimeSection(now).fields;
            && Get(d, "last_heartbeat_at") == now && Get(d, "process_started_at") == now && Get(d, "last_dirty_open_at") == Null
  {
  }

  lemma HostFrom(h: Host)
    ensures HostTells(IdentitySection(h), DiskSection(h), RuntimeSection(Str(h.nowText)).fields, h)
  {
    hide IdentitySection, DiskSection, RuntimeSection, Get;
    IdentityShown(h);
    DiskShown(h);
    RuntimeShown(Str(h.nowText));
  }

  lemma SameIdentity(p: Report, r: Report)
    requires Core(p) == Core(r)
    ensures Get(p, "identity") == Get(r, "identity")
  {
    SameSections(p, r);
    assert "identity" !in REWRITTEN;
  }

  /** The report of any store shows the readings of its host: the process, the disk with the pressure its free part stands
      for, and the time of the report as that of the last heartbeat. */
  lemma ReportTellsHost(iso: Iso, h: Host, f: Store.Files, bytes: nat)
    ensures var r := ReportOf(iso, h, f, bytes);
            HostTells(Get(r, "identity"), DiskOf(r), RuntimeOf(r), h) && Get(r, "generated_at") == Str(h.nowText)
  {
    hide *;
    var s := Store.Summarized(f, bytes);
    var p := Projected(iso, h, s);
    ReportOfIs(iso, h, f, bytes);
    ReportIsMadeFrom(iso, h, s);
    MadeFromParts(ReportOf(iso, h, f, bytes), h, s);
    StoreReportIs(iso, h, s);
    ProjectedParts(iso, h, s);
    FinishedParts(iso, h.now, p, StoreKeysOf(h, s));
    SameIdentity(p, ReportOf(iso, h, f, bytes));
    HostFrom(h);
  }

  // ---------- a store that was never initialised ----------

  /** A lane that counts nothing and sleeps. */
  predicate Dormant(lane: Json) {
    && Get(FieldsOf(lane), "status") == Str("dormant")
    && Get(ObjectsOf(lane), "total") == Int(0) && Get(ObjectsOf(lane), "tombstones") == Int(0)
    && Get(ObjectsOf(lane), "corrupted") == Int(0)
  }

  lemma DormantLane(l: string, bytes: nat)
    ensures Dormant(LaneJson(Store.FinalLane(l, false, [], bytes)))
  {
    hide LaneJson, ObjectsOf, Get, FieldsOf;
    LaneShows(Store.FinalLane(l, false, [], bytes));
  }

  lemma UninitialisedSummary(f: Store.Files, bytes: nat)
    requires f.manifest.None?
    ensures var s := Store.Summarized(f, bytes);
            && !s.initialized && s.manifest == Store.MissingManifest && s.checksum == "unverified"
            && s.lanes == Store.FinalLanes(Store.SummaryOrder(f), false, [], bytes)
  {
  }

  /** The report of a store without a manifest, whatever its journal and registry hold: a retired store without flags, every
      lane dormant and empty, no record counted, and a collection error that says why. */
  lemma UninitialisedReportTells(iso: Iso, h: Host, f: Store.Files, bytes: nat)
    requires f.manifest.None?
    ensures var r := ReportOf(iso, h, f, bytes);
            && StoresOf(r) == [StoreJson(Store.Summarized(f, bytes))]
            && Get(FieldsOf(StoreJson(Store.Summarized(f, bytes))), "role") == Str("retired")
            && Get(FieldsOf(StoreJson(Store.Summarized(f, bytes))), "flags_raw") == Int(0)
            && (forall lane :: lane in LanesOf(r) ==> Dormant(lane))
            && Get(FieldsOf(Get(r, "collection")), "errors") != Arr([])
  {
    hide *;
    var s, r := Store.Summarized(f, bytes), ReportOf(iso, h, f, bytes);
    ReportOfIs(iso, h, f, bytes);
    ReportIsMadeFrom(iso, h, s);
    MadeFromParts(r, h, s);
    UninitialisedSummary(f, bytes);
    RetiredStore(s);
    CollectionOf(iso, h, s, r);
    ErrorsShown(false);
    LaneItemsAt(s.lanes);
    Runs.FinalLanesAt(Store.SummaryOrder(f), false, [], bytes);
    forall lane | lane in LanesOf(r) ensures Dormant(lane) {
      var i :| 0 <= i < |LaneItems(s.lanes)| && LaneItems(s.lanes)[i] == lane;
      DormantLane(Store.SummaryOrder(f)[i], bytes);
    }
  }

  lemma RetiredStore(s: Store.Summary)
    requires !s.initialized
    ensures Get(FieldsOf(StoreJson(s)), "role") == Str("retired") && Get(FieldsOf(StoreJson(s)), "flags_raw") == Int(0)
  {
  }
}
