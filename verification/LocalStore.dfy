/** The filesystem-backed store and its one-pass summary (local_store.py). */
module LocalStore {
  import opened Text
  import opened Sums

  const DEFAULT_LANES: seq<string> :=
    ["normal", "priority", "secure", "memory", "policy", "audit", "tombstone", "migration", "repair", "archive"]

  /** The event types `append_event` accepts, the reader's own "corrupt", and everything else found in a journal. */
  datatype EventType = Add | Update | Delete | Checkpoint | Repair | Policy | CorruptType | OtherType

  /** The known registries; any other name is an error. */
  datatype Kind = Profiles | Devices | Actors | Schemas | Objects | Indexes | RepairReports | Unknown(name: string)

  datatype Manifest = Manifest(activeGeneration: int, lastKnownGood: int, lanes: seq<string>, migrationState: string)

  /** A journal event as its readers see it: an absent field is `None`, `applied` is read as a truth value. */
  datatype Event = Event(eventId: string, eventType: EventType, lane: Option<string>, objectId: Option<string>,
                         producer: Option<string>, applied: bool)

  datatype Line = Blank | Corrupt | Json(event: Event)

  type Record = map<string, string>

  /** Everything on disk. Registry files are named by kind and sanitised id. */
  datatype Files = Files(manifest: Option<Manifest>, journal: Option<seq<Line>>, registry: map<(Kind, string), Record>,
                         directories: bool)

  datatype Error = NotInitialized | UnknownLane | UnknownEventType | UnknownKind | EmptyId | NotFound

  datatype Result<+T> = Ok(value: T) | Err(error: Error)

  const NewManifest := Manifest(1, 1, DEFAULT_LANES, "none")
  const MissingManifest := Manifest(0, 0, DEFAULT_LANES, "none")

  function Initialized(f: Files): Files {
    Files(if f.manifest.None? then Some(NewManifest) else f.manifest,
          if f.journal.None? then Some([]) else f.journal, f.registry, true)
  }

  /** Initialising keeps a manifest, a journal and records that are there, and doing it again changes nothing. */
  lemma InitKeeps(f: Files)
    ensures var g := Initialized(f);
            && g.manifest.Some? && g.journal.Some? && g.directories && g.registry == f.registry
            && (f.manifest.Some? ==> g.manifest == f.manifest) && (f.journal.Some? ==> g.journal == f.journal)
            && (f.manifest.None? ==> g.manifest.value.lanes == DEFAULT_LANES && g.manifest.value.activeGeneration == 1)
            && (f.journal.None? ==> g.journal.value == [])
            && Initialized(g) == g
  {
  }

  // ---------- reading the journal ----------

  /** What the reader makes of an unparsable line. */
  function CorruptEvent(lineNumber: nat): Event {
    Event("corrupt-line-" + Decimal(lineNumber), CorruptType, Some("repair"), None, Some("local-store-reader"), false)
  }

  function EventsOf(lines: seq<Line>): seq<Event> {
    if lines == [] then []
    else
      EventsOf(lines[..|lines| - 1]) +
      match lines[|lines| - 1]
      case Blank => []
      case Corrupt => [CorruptEvent(|lines|)]
      case Json(e) => [e]
  }

  function Journal(f: Files): seq<Line> {
    if f.journal.Some? then f.journal.value else []
  }

  // ---------- appending ----------

  datatype Request = Request(eventType: EventType, lane: string, objectId: Option<string>, producer: string)

  function EventId(n: nat): string {
    "evt-" + Padded(n)
  }

  function NewEvent(r: Request, id: string): Event {
    var target := if r.objectId.Some? && r.objectId.value != "" then r.objectId.value else "object-" + id;
    Event(id, r.eventType, Some(r.lane), Some(target), Some(r.producer), true)
  }

  function Refusal(f: Files, r: Request): Option<Error> {
    if f.manifest.None? then Some(NotInitialized)
    else if r.lane !in f.manifest.value.lanes then Some(UnknownLane)
    else if r.eventType in {CorruptType, OtherType} then Some(UnknownEventType)
    else None
  }

  /** Why an append is refused: the first fault in this order, and none exactly when there is no fault. */
  lemma RefusalExactly(f: Files, r: Request)
    ensures var ready := f.manifest.Some?;
            var known, kept := ready && r.lane in f.manifest.value.lanes, r.eventType !in {CorruptType, OtherType};
            && (Refusal(f, r) == Some(NotInitialized) <==> !ready)
            && (Refusal(f, r) == Some(UnknownLane) <==> ready && !known)
            && (Refusal(f, r) == Some(UnknownEventType) <==> known && !kept)
            && (Refusal(f, r) == None <==> known && kept)
  {
  }

  function NextEvent(f: Files, r: Request): Event {
    NewEvent(r, EventId(|EventsOf(Journal(f))| + 1))
  }

  /** The journal write alone: what a crash before the manifest write leaves behind. */
  function JournalWritten(f: Files, r: Request): Files {
    f.(journal := Some(Journal(f) + [Json(NextEvent(f, r))]))
  }

  function Appended(f: Files, r: Request): Files
    requires Refusal(f, r).None?
  {
    var m := f.manifest.value;
    JournalWritten(f, r).(manifest := Some(m.(activeGeneration := m.activeGeneration + 1)))
  }

  // ---------- the registry ----------

  function Defaulted(record: Record, key: string, value: string): Record {
    if key in record then record else record[key := value]
  }

  function StoredRecord(kind: Kind, id: string, record: Record, now: string): Record {
    Defaulted(Defaulted(record, "record_id", id), "schema", RecordSchema(kind))["updated_at" := now]
  }

  function RecordSchema(kind: Kind): string {
    match kind
    case Profiles => "sourceos.profile-record/v1alpha1"
    case Devices => "sourceos.device-record/v1alpha1"
    case Actors => "sourceos.actor-record/v1alpha1"
    case Schemas => "sourceos.schema-record/v1alpha1"
    case Objects => "sourceos.object-record/v1alpha1"
    case Indexes => "sourceos.index-record/v1alpha1"
    case _ => "sourceos.repair-report/v1alpha1"
  }

  function Put(f: Files, alnum: AlnumClass, kind: Kind, id: string, record: Record, now: string): Result<Files> {
    if kind.Unknown? then Err(UnknownKind)
    else if f.manifest.None? then Err(NotInitialized)
    else match SafeId(alnum, id)
      case None => Err(EmptyId)
      case Some(name) => Ok(f.(registry := f.registry[(kind, name) := StoredRecord(kind, id, record, now)]))
  }

  function Get(f: Files, alnum: AlnumClass, kind: Kind, id: string): Result<Record> {
    if kind.Unknown? then Err(UnknownKind)
    else match SafeId(alnum, id)
      case None => Err(EmptyId)
      case Some(name) => if (kind, name) in f.registry then Ok(f.registry[(kind, name)]) else Err(NotFound)
  }

  /** After a put, a get of any id with the same sanitised form finds the stored record, every other get is as before. */
  lemma PutThenGet(f: Files, alnum: AlnumClass, kind: Kind, id: string, record: Record, now: string, kind': Kind, id': string)
    requires Put(f, alnum, kind, id, record, now).Ok?
    ensures var g := Put(f, alnum, kind, id, record, now).value;
            Get(g, alnum, kind', id') ==
            if kind' == kind && SafeId(alnum, id') == SafeId(alnum, id) then Ok(StoredRecord(kind, id, record, now))
            else Get(f, alnum, kind', id')
    ensures var s := StoredRecord(kind, id, record, now);
            && (forall k :: k in record && k != "updated_at" ==> k in s && s[k] == record[k])
            && s.Keys == record.Keys + {"record_id", "schema", "updated_at"} && s["updated_at"] == now
            && ("record_id" !in record ==> s["record_id"] == id)
  {
    StoredKeeps(kind, id, record, now);
    hide StoredRecord, SafeId;
  }

  lemma StoredKeeps(kind: Kind, id: string, record: Record, now: string)
    ensures var s := StoredRecord(kind, id, record, now);
            && (forall k :: k in record && k != "updated_at" ==> k in s && s[k] == record[k])
            && s.Keys == record.Keys + {"record_id", "schema", "updated_at"} && s["updated_at"] == now
            && ("record_id" !in record ==> s["record_id"] == id)
  {
    hide RecordSchema;
  }

  /** A put is one more record of its kind in the summary exactly when no record had that sanitised id. */
  lemma PutIsCounted(f: Files, alnum: AlnumClass, kind: Kind, id: string, record: Record, now: string)
    requires Put(f, alnum, kind, id, record, now).Ok?
    ensures var g := Put(f, alnum, kind, id, record, now).value;
            RegistryCounts(g) == RegistryCounts(f)[kind := RegistryCounts(f)[kind] + if Get(f, alnum, kind, id).Ok? then 0 else 1]
  {
    hide SafeId, StoredRecord, RegistryCounts;
    OneMoreRecord(f, kind, SafeId(alnum, id).value, StoredRecord(kind, id, record, now));
  }

  lemma OneMoreRecord(f: Files, kind: Kind, name: string, record: Record)
    requires kind in KINDS && f.manifest.Some?
    ensures var g := f.(registry := f.registry[(kind, name) := record]);
            RegistryCounts(g) == RegistryCounts(f)[kind := RegistryCounts(f)[kind] + if (kind, name) in f.registry then 0 else 1]
  {
    var g := f.(registry := f.registry[(kind, name) := record]);
    hide RecordsOf;
    forall k ensures |RecordsOf(g, k)| == |RecordsOf(f, k)| + if k == kind && (kind, name) !in f.registry then 1 else 0 {
      RecordsAfter(f, (kind, name), record, k);
    }
  }

  lemma RecordsAfter(f: Files, key: (Kind, string), record: Record, kind: Kind)
    ensures |RecordsOf(f.(registry := f.registry[key := record]), kind)| ==
            |RecordsOf(f, kind)| + if kind == key.0 && key !in f.registry then 1 else 0
  {
    assert RecordsOf(f.(registry := f.registry[key := record]), kind) ==
           if kind == key.0 then RecordsOf(f, kind) + {key} else RecordsOf(f, kind);
  }

  /** A record stored without a schema of its own tells its kind by the one it is given. */
  lemma SchemasTellKinds(k: Kind, other: Kind)
    requires k in KINDS && other in KINDS && RecordSchema(k) == RecordSchema(other)
    ensures k == other
  {
    assert RecordSchema(k)[9] == RecordSchema(other)[9] && RecordSchema(k)[10] == RecordSchema(other)[10];
  }

  /** Two ids can share one file, and the sanitised form of an id always does. */
  lemma SanitisedIdReadsTheSame(f: Files, alnum: AlnumClass, kind: Kind, id: string)
    requires SafeId(alnum, id).Some?
    ensures Get(f, alnum, kind, SafeId(alnum, id).value) == Get(f, alnum, kind, id)
  {
    SafeIdIdempotent(alnum, id);
  }

  // ---------- the summary ----------

  datatype LaneSummary = LaneSummary(name: string, status: string, maxReplayLag: nat, maxReplayLagMs: nat, total: nat,
                                     tombstones: nat, corrupted: nat, journalBytes: nat, replayLag: nat, checksum: string)

  datatype WriteCounts = WriteCounts(requested: nat, accepted: nat, journaled: nat, applied: nat)

  datatype DeleteCounts = DeleteCounts(requested: nat, authorized: nat, tombstoned: nat, journaled: nat, propagated: nat)

  datatype Pipeline = Pipeline(add: WriteCounts, update: WriteCounts, delete: DeleteCounts)

  datatype Summary = Summary(initialized: bool, manifest: Manifest, lanes: seq<LaneSummary>, pipeline: Pipeline,
                             producers: map<string, nat>, topProducers: seq<string>, registryCounts: map<Kind, nat>,
                             journalPresent: bool, checksum: string, shadowPresent: bool)

  const KINDS: set<Kind> := {Profiles, Devices, Actors, Schemas, Objects, Indexes, RepairReports}

  function EmptyLane(name: string): LaneSummary {
    LaneSummary(name, "active", if name == "priority" then 0 else 100, if name == "priority" then 1000 else 10000,
                0, 0, 0, 0, 0, "verified")
  }

  function LaneOf(e: Event): string {
    OrElse(e.lane, "repair")
  }

  function ProducerOf(e: Event): string {
    OrElse(e.producer, "unknown")
  }

  predicate IsCorrupt(e: Event) {
    e.eventType == CorruptType
  }

  predicate NamesObject(e: Event) {
    !IsCorrupt(e) && e.objectId.Some? && e.objectId.value != ""
  }

  predicate Tombstones(e: Event) {
    e.eventType == Delete && NamesObject(e)
  }

  predicate Unapplied(e: Event) {
    !IsCorrupt(e) && !e.applied
  }

  predicate Maintains(e: Event) {
    e.eventType in {Checkpoint, Repair, Policy}
  }

  function OfType(t: EventType): Event -> bool {
    (e: Event) => e.eventType == t
  }

  function AppliedOfType(t: EventType): Event -> bool {
    (e: Event) => e.eventType == t && e.applied
  }

  function SeenObjects(es: seq<Event>): set<string> {
    set e | e in es && NamesObject(e) :: e.objectId.value
  }

  function DeletedObjects(es: seq<Event>): set<string> {
    set e | e in es && Tombstones(e) :: e.objectId.value
  }

  function InLane(l: string, p: Event -> bool): Event -> bool {
    e => LaneOf(e) == l && p(e)
  }

  /** The counters of lane `l` that the pass over the events builds up. */
  function CountedLane(l: string, es: seq<Event>): LaneSummary {
    EmptyLane(l).(total := CountIf(es, InLane(l, Maintains)),
                  tombstones := CountIf(es, InLane(l, Tombstones)),
                  corrupted := CountIf(es, InLane(l, IsCorrupt)))
  }

  function AddNew(order: seq<string>, l: string): seq<string> {
    if l in order then order else order + [l]
  }

  function Dedupe(lanes: seq<string>): seq<string> {
    if lanes == [] then [] else AddNew(Dedupe(lanes[..|lanes| - 1]), lanes[|lanes| - 1])
  }

  /** Manifest lanes first, then the lanes of events in order of appearance, each once. */
  function LaneOrder(lanes: seq<string>, es: seq<Event>): seq<string> {
    if es == [] then Dedupe(lanes) else AddNew(LaneOrder(lanes, es[..|es| - 1]), LaneOf(es[|es| - 1]))
  }

  function Writes(es: seq<Event>, t: EventType): WriteCounts {
    var n := CountIf(es, OfType(t));
    WriteCounts(n, n, n, CountIf(es, AppliedOfType(t)))
  }

  function Deletes(es: seq<Event>): DeleteCounts {
    var n := CountIf(es, OfType(Delete));
    DeleteCounts(n, n, n, n, CountIf(es, AppliedOfType(Delete)))
  }

  function ProducerNames(es: seq<Event>): set<string> {
    set e | e in es :: ProducerOf(e)
  }

  function By(p: string): Event -> bool {
    e => ProducerOf(e) == p
  }

  function Producers(es: seq<Event>): map<string, nat> {
    map p | p in ProducerNames(es) :: CountIf(es, By(p))
  }

  /** The producers in order of first appearance. */
  function ProducerOrder(es: seq<Event>): seq<string> {
    if es == [] then [] else AddNew(ProducerOrder(es[..|es| - 1]), ProducerOf(es[|es| - 1]))
  }

  function EventsBy(n: map<string, nat>, p: string): nat {
    if p in n then n[p] else 0
  }

  /** `p` behind everybody with at least as many events. */
  function Placed(ranked: seq<string>, n: map<string, nat>, p: string): seq<string> {
    if ranked == [] || EventsBy(n, ranked[|ranked| - 1]) >= EventsBy(n, p) then ranked + [p]
    else Placed(ranked[..|ranked| - 1], n, p) + [ranked[|ranked| - 1]]
  }

  /** The stable sort by descending number of events. */
  function Ranked(order: seq<string>, n: map<string, nat>): seq<string> {
    if order == [] then [] else Placed(Ranked(order[..|order| - 1], n), n, order[|order| - 1])
  }

  function RecordsOf(f: Files, kind: Kind): set<(Kind, string)> {
    set key | key in f.registry && key.0 == kind
  }

  function RegistryCounts(f: Files): map<Kind, nat> {
    map kind | kind in KINDS :: if f.manifest.Some? then |RecordsOf(f, kind)| else 0
  }

  /** A lane as reported, every counter in closed form. */
  function FinalLane(l: string, initialized: bool, es: seq<Event>, bytes: nat): LaneSummary {
    var corrupt := CountIf(es, IsCorrupt);
    var lane := CountedLane(l, es);
    lane.(status := if l == "repair" && corrupt > 0 then "degraded" else if initialized then "active" else "dormant",
          total := if l == "normal" then |SeenObjects(es) - DeletedObjects(es)| else lane.total,
          corrupted := lane.corrupted + if l == "repair" then corrupt else 0,
          journalBytes := bytes,
          replayLag := CountIf(es, Unapplied),
          checksum := if corrupt == 0 then "verified" else "mismatch")
  }

  function SummaryEvents(f: Files): seq<Event> {
    if f.manifest.Some? then EventsOf(Journal(f)) else []
  }

  function SummaryManifest(f: Files): Manifest {
    if f.manifest.Some? then f.manifest.value else MissingManifest
  }

  function SummaryOrder(f: Files): seq<string> {
    LaneOrder(SummaryManifest(f).lanes, SummaryEvents(f))
  }

  /** A lane's report by its name. */
  function Reported(initialized: bool, es: seq<Event>, bytes: nat): string -> LaneSummary {
    (l: string) => FinalLane(l, initialized, es, bytes)
  }

  function FinalLanes(order: seq<string>, initialized: bool, es: seq<Event>, bytes: nat): seq<LaneSummary> {
    Mapped(order, Reported(initialized, es, bytes))
  }

  /** The summary in closed form. `bytes` is the size of the journal file. */
  function Summarized(f: Files, bytes: nat): Summary {
    var es := SummaryEvents(f);
    Summary(f.manifest.Some?, SummaryManifest(f), FinalLanes(SummaryOrder(f), f.manifest.Some?, es, bytes),
            Pipeline(Writes(es, Add), Writes(es, Update), Deletes(es)), Producers(es),
            Ranked(ProducerOrder(es), Producers(es)), RegistryCounts(f), f.journal.Some?,
            if f.manifest.None? then "unverified" else if CountIf(es, IsCorrupt) == 0 then "verified" else "mismatch",
            f.directories)
  }

  // ---------- the class ----------

  class LocalStateStore {
    const alnum: AlnumClass
    var manifest: Option<Manifest>
    var journal: Option<seq<Line>>
    var registry: map<(Kind, string), Record>
    var directories: bool

    constructor (alnum: AlnumClass, f: Files)
      ensures Contents() == f && this.alnum == alnum
    {
      this.alnum := alnum;
      manifest, journal, registry, directories := f.manifest, f.journal, f.registry, f.directories;
    }

    function Contents(): Files
      reads this
    {
      Files(manifest, journal, registry, directories)
    }

    method Init() returns (m: Manifest)
      modifies this
      ensures Contents() == Initialized(old(Contents())) && manifest == Some(m)
    {
      directories := true;
      if journal.None? { journal := Some([]); }
      if manifest.None? { manifest := Some(NewManifest); }
      m := manifest.value;
    }

    method IterEvents() returns (events: seq<Event>)
      ensures events == EventsOf(Journal(Contents()))
    {
      events := [];
      var lines := if journal.Some? then journal.value else [];
      for i := 0 to |lines|
        invariant events == EventsOf(lines[..i])
      {
        assert lines[..i + 1][..i] == lines[..i];
        match lines[i]
        case Blank =>
        case Corrupt => events := events + [CorruptEvent(i + 1)];
        case Json(e) => events := events + [e];
      }
      assert lines[..|lines|] == lines;
    }

    /** `crash` is a power cut between the journal write and the manifest write. */
    method AppendEvent(r: Request, crash: bool) returns (result: Result<Event>)
      modifies this
      ensures Refusal(old(Contents()), r).Some? ==>
                result == Err(Refusal(old(Contents()), r).value) && Contents() == old(Contents())
      ensures Refusal(old(Contents()), r).None? ==>
                && result == Ok(NextEvent(old(Contents()), r))
                && Contents() == if crash then JournalWritten(old(Contents()), r) else Appended(old(Contents()), r)
    {
      if manifest.None? { return Err(NotInitialized); }
      var m := manifest.value;
      if r.lane !in m.lanes { return Err(UnknownLane); }
      if r.eventType in {CorruptType, OtherType} { return Err(UnknownEventType); }
      var events := IterEvents();
      var event := NewEvent(r, EventId(|events| + 1));
      journal := Some((if journal.Some? then journal.value else []) + [Json(event)]);
      if crash { return Ok(event); }
      manifest := Some(m.(activeGeneration := m.activeGeneration + 1));
      return Ok(event);
    }

    method PutRecord(kind: Kind, id: string, record: Record, now: string) returns (result: Result<Record>)
      modifies `registry
      ensures var p := Put(old(Contents()), alnum, kind, id, record, now);
              match p
              case Ok(f) => Contents() == f && result == Ok(StoredRecord(kind, id, record, now))
              case Err(e) => Contents() == old(Contents()) && result == Err(e)
    {
      if kind.Unknown? { return Err(UnknownKind); }
      if manifest.None? { return Err(NotInitialized); }
      var name := SafeId(alnum, id);
      if name.None? { return Err(EmptyId); }
      var stored := StoredRecord(kind, id, record, now);
      registry := registry[(kind, name.value) := stored];
      return Ok(stored);
    }

    method GetRecord(kind: Kind, id: string) returns (result: Result<Record>)
      ensures result == Get(Contents(), alnum, kind, id)
    {
      if kind.Unknown? { return Err(UnknownKind); }
      var name := SafeId(alnum, id);
      if name.None? { return Err(EmptyId); }
      if (kind, name.value) !in registry { return Err(NotFound); }
      return Ok(registry[(kind, name.value)]);
    }

    /** One pass over the events, updating the counters of the lane each event names. */
    method Summarize(bytes: nat) returns (s: Summary)
      ensures s == Summarized(Contents(), bytes)
    {
      var initialized := manifest.Some?;
      var m := if initialized then manifest.value else MissingManifest;
      var events := [];
      if initialized { events := IterEvents(); }
      var t := CountEvents(events, m.lanes);
      var reported := ReportLanes(t.order, t.lanes, initialized, events, bytes, |t.seen - t.deleted|, t.unapplied, t.corrupt);
      s := Summary(initialized, m, reported, Pipeline(t.add, t.update, t.delete), t.producers,
                   Ranked(t.firstSeen, t.producers), RegistryCounts(Contents()), journal.Some?,
                   if initialized && t.corrupt == 0 then "verified" else if !initialized then "unverified" else "mismatch",
                   directories);
    }
  }

  // ---------- the body of the loop ----------

  /** The local variables of `summarize`; lanes keep the order in which they were first met. */
  datatype Tally = Tally(order: seq<string>, lanes: map<string, LaneSummary>, seen: set<string>, deleted: set<string>,
                         corrupt: nat, unapplied: nat, producers: map<string, nat>, firstSeen: seq<string>, add: WriteCounts,
                         update: WriteCounts, delete: DeleteCounts)
  {
    ghost predicate PipelineCounts(es: seq<Event>) {
      && unapplied == CountIf(es, Unapplied)
      && add == Writes(es, Add) && update == Writes(es, Update) && delete == Deletes(es)
    }

    ghost predicate TotalCounts(es: seq<Event>) {
      && seen == SeenObjects(es) && deleted == DeletedObjects(es)
      && corrupt == CountIf(es, IsCorrupt)
      && producers == Producers(es) && firstSeen == ProducerOrder(es)
      && PipelineCounts(es)
    }

    /** The variables hold the closed forms for the events read so far. */
    ghost predicate Counts(base: seq<string>, es: seq<Event>) {
      && order == LaneOrder(base, es)
      && LanesCounted(lanes, order, es)
      && TotalCounts(es)
    }
  }

  /** The lane counters one event moves, in a lane that is created when it is first named. */
  method CountInLane(t: Tally, e: Event, ghost base: seq<string>, ghost es: seq<Event>)
    returns (order: seq<string>, lanes: map<string, LaneSummary>)
    requires t.order == LaneOrder(base, es) && LanesCounted(t.lanes, t.order, es)
    ensures order == LaneOrder(base, es + [e]) && LanesCounted(lanes, order, es + [e])
  {
    LanesStep(base, es, e);
    order, lanes := t.order, t.lanes;
    var l := LaneOf(e);
    if l !in lanes {
      lanes, order := lanes[l := EmptyLane(l)], order + [l];
    }
    var lane := lanes[l];
    if IsCorrupt(e) {
      lane := lane.(corrupted := lane.corrupted + 1);
    } else if e.eventType == Delete {
      if e.objectId.Some? && e.objectId.value != "" {
        lane := lane.(tombstones := lane.tombstones + 1);
      }
    } else if e.eventType in {Checkpoint, Repair, Policy} {
      lane := lane.(total := lane.total + 1);
    }
    assert lane == LaneBumped(CountedLane(l, es), e);
    lanes := lanes[l := lane];
  }

  /** The pipeline counters and the unapplied count one intact event moves. */
  method CountInPipeline(t: Tally, e: Event, ghost es: seq<Event>) returns (u: Tally)
    requires t.PipelineCounts(es)
    requires !IsCorrupt(e)
    ensures u.PipelineCounts(es + [e])
    ensures u == t.(unapplied := u.unapplied, add := u.add, update := u.update, delete := u.delete)
  {
    CountersStep(es, e);
    PipelineStep(es, e);
    u := t;
    if !e.applied { u := u.(unapplied := u.unapplied + 1); }
    match e.eventType
    case Add => u := u.(add := Bumped(u.add, e.applied));
    case Update => u := u.(update := Bumped(u.update, e.applied));
    case Delete => u := u.(delete := DeleteBumped(u.delete, e.applied));
    case _ =>
  }

  /** Everything one event moves outside the lanes. */
  method CountTotals(t: Tally, e: Event, ghost es: seq<Event>) returns (u: Tally)
    requires t.TotalCounts(es)
    ensures u.TotalCounts(es + [e])
    ensures u.order == t.order && u.lanes == t.lanes
  {
    hide CountIf, SeenObjects, DeletedObjects, Producers, ProducerOrder, Writes, Deletes;
    ProducersStep(es, e);
    FirstSeenStep(es, e);
    CountersStep(es, e);
    ObjectsStep(es, e);
    var p := ProducerOf(e);
    u := t.(producers := t.producers[p := (if p in t.producers then t.producers[p] else 0) + 1],
            firstSeen := if p in t.producers then t.firstSeen else t.firstSeen + [p]);
    if IsCorrupt(e) {
      PipelineStep(es, e);
      u := u.(corrupt := u.corrupt + 1);
    } else {
      u := CountInPipeline(u, e, es);
      if e.objectId.Some? && e.objectId.value != "" {
        u := u.(seen := u.seen + {e.objectId.value},
                deleted := if e.eventType == Delete then u.deleted + {e.objectId.value} else u.deleted);
      }
    }
  }

  /** One turn of the loop. */
  method CountEvent(t: Tally, e: Event, ghost base: seq<string>, ghost es: seq<Event>) returns (u: Tally)
    requires t.Counts(base, es)
    ensures u.Counts(base, es + [e])
  {
    var order, lanes := CountInLane(t, e, base, es);
    u := CountTotals(t, e, es);
    u := u.(order := order, lanes := lanes);
  }

  /** The loop over the events. */
  method CountEvents(events: seq<Event>, base: seq<string>) returns (t: Tally)
    ensures t.Counts(base, events)
  {
    var order := Dedupe(base);
    DedupeFacts(base);
    t := Tally(order, map l | l in order :: EmptyLane(l), {}, {}, 0, 0, map[], [], WriteCounts(0, 0, 0, 0),
               WriteCounts(0, 0, 0, 0), DeleteCounts(0, 0, 0, 0, 0));
    for i := 0 to |events|
      invariant t.Counts(base, events[..i])
    {
      assert events[..i + 1] == events[..i] + [events[i]];
      t := CountEvent(t, events[i], base, events[..i]);
    }
    assert events[..|events|] == events;
  }

  /** What the second loop and the two special lanes make of one lane. */
  method ReportLane(counted: LaneSummary, initialized: bool, es: seq<Event>, bytes: nat, live: nat, unapplied: nat, corrupt: nat)
    returns (lane: LaneSummary)
    requires counted == CountedLane(counted.name, es)
    requires live == |SeenObjects(es) - DeletedObjects(es)|
    requires corrupt == CountIf(es, IsCorrupt) && unapplied == CountIf(es, Unapplied)
    ensures lane == FinalLane(counted.name, initialized, es, bytes)
  {
    lane := counted.(journalBytes := bytes, replayLag := unapplied,
                     checksum := if corrupt == 0 then "verified" else "mismatch");
    if !initialized { lane := lane.(status := "dormant"); }
    if counted.name == "normal" { lane := lane.(total := live); }
    if counted.name == "repair" {
      lane := lane.(corrupted := lane.corrupted + corrupt);
      if corrupt > 0 { lane := lane.(status := "degraded"); }
    }
  }

  /** The loop over the lanes after the events have been counted. */
  method ReportLanes(order: seq<string>, counted: map<string, LaneSummary>, initialized: bool, es: seq<Event>, bytes: nat,
                     live: nat, unapplied: nat, corrupt: nat)
    returns (lanes: seq<LaneSummary>)
    requires LanesCounted(counted, order, es)
    requires live == |SeenObjects(es) - DeletedObjects(es)|
    requires corrupt == CountIf(es, IsCorrupt) && unapplied == CountIf(es, Unapplied)
    ensures lanes == FinalLanes(order, initialized, es, bytes)
  {
    lanes := [];
    for i := 0 to |order|
      invariant lanes == FinalLanes(order[..i], initialized, es, bytes)
    {
      var l := order[i];
      assert l in order && counted[l].name == l;
      MappedNext(order, Reported(initialized, es, bytes), i);
      var lane := ReportLane(counted[l], initialized, es, bytes, live, unapplied, corrupt);
      lanes := lanes + [lane];
    }
    assert order[..|order|] == order;
  }

  // ---------- what one more event adds ----------

  ghost predicate LanesCounted(lanes: map<string, LaneSummary>, order: seq<string>, es: seq<Event>) {
    && (forall l :: l in lanes <==> l in order)
    && (forall l :: l in lanes ==> lanes[l] == CountedLane(l, es))
  }

  function Bumped(c: WriteCounts, applied: bool): WriteCounts {
    WriteCounts(c.requested + 1, c.accepted + 1, c.journaled + 1, c.applied + if applied then 1 else 0)
  }

  function DeleteBumped(c: DeleteCounts, applied: bool): DeleteCounts {
    DeleteCounts(c.requested + 1, c.authorized + 1, c.tombstoned + 1, c.journaled + 1,
                 c.propagated + if applied then 1 else 0)
  }

  lemma CountStep<T>(s: seq<T>, x: T, p: T -> bool)
    ensures CountIf(s + [x], p) == CountIf(s, p) + if p(x) then 1 else 0
  {
    assert (s + [x])[..|s|] == s;
  }

  lemma {:induction false} CountNever<T>(s: seq<T>, p: T -> bool)
    requires forall x :: x in s ==> !p(x)
    ensures CountIf(s, p) == 0
  {
    if s != [] {
      assert s[|s| - 1] in s;
      CountNever(s[..|s| - 1], p);
    }
  }

  lemma {:induction false} CountSome<T>(s: seq<T>, p: T -> bool)
    ensures CountIf(s, p) > 0 <==> exists x :: x in s && p(x)
    ensures CountIf(s, p) <= |s|
  {
    if s != [] {
      CountSome(s[..|s| - 1], p);
      assert s == s[..|s| - 1] + [s[|s| - 1]];
    }
  }

  lemma {:induction false} DedupeFacts(lanes: seq<string>)
    ensures Distinct(Dedupe(lanes)) && forall l :: l in Dedupe(lanes) <==> l in lanes
  {
    if lanes != [] {
      DedupeFacts(lanes[..|lanes| - 1]);
      assert lanes == lanes[..|lanes| - 1] + [lanes[|lanes| - 1]];
    }
  }

  /** Every lane is listed once: those of the manifest and those named by an event. */
  lemma {:induction false} LaneOrderFacts(lanes: seq<string>, es: seq<Event>)
    ensures Distinct(LaneOrder(lanes, es))
    ensures forall l :: l in LaneOrder(lanes, es) <==> l in lanes || exists e :: e in es && LaneOf(e) == l
  {
    if es == [] {
      DedupeFacts(lanes);
    } else {
      LaneOrderFacts(lanes, es[..|es| - 1]);
      assert es == es[..|es| - 1] + [es[|es| - 1]];
    }
  }

  lemma LanesStep(lanes: seq<string>, es: seq<Event>, e: Event)
    ensures LaneOrder(lanes, es + [e]) == AddNew(LaneOrder(lanes, es), LaneOf(e))
    ensures LaneOf(e) !in LaneOrder(lanes, es) ==> CountedLane(LaneOf(e), es) == EmptyLane(LaneOf(e))
    ensures forall l :: CountedLane(l, es + [e]) ==
              if l != LaneOf(e) then CountedLane(l, es)
              else LaneBumped(CountedLane(l, es), e)
  {
    assert (es + [e])[..|es|] == es;
    forall l ensures CountedLane(l, es + [e]) ==
                     if l != LaneOf(e) then CountedLane(l, es) else LaneBumped(CountedLane(l, es), e)
    {
      CountStep(es, e, InLane(l, Maintains));
      CountStep(es, e, InLane(l, Tombstones));
      CountStep(es, e, InLane(l, IsCorrupt));
    }
    var l := LaneOf(e);
    if l !in LaneOrder(lanes, es) {
      LaneOrderFacts(lanes, es);
      assert forall x :: x in es ==> LaneOf(x) != l;
      CountNever(es, InLane(l, Maintains));
      CountNever(es, InLane(l, Tombstones));
      CountNever(es, InLane(l, IsCorrupt));
    }
  }

  lemma CountersStep(es: seq<Event>, e: Event)
    ensures CountIf(es + [e], IsCorrupt) == CountIf(es, IsCorrupt) + if IsCorrupt(e) then 1 else 0
    ensures CountIf(es + [e], Unapplied) == CountIf(es, Unapplied) + if Unapplied(e) then 1 else 0
  {
    CountStep(es, e, IsCorrupt);
    CountStep(es, e, Unapplied);
  }

  function LaneBumped(lane: LaneSummary, e: Event): LaneSummary {
    lane.(total := lane.total + if Maintains(e) then 1 else 0,
          tombstones := lane.tombstones + if Tombstones(e) then 1 else 0,
          corrupted := lane.corrupted + if IsCorrupt(e) then 1 else 0)
  }

  lemma ObjectsStep(es: seq<Event>, e: Event)
    ensures SeenObjects(es + [e]) == SeenObjects(es) + if NamesObject(e) then {e.objectId.value} else {}
    ensures DeletedObjects(es + [e]) == DeletedObjects(es) + if Tombstones(e) then {e.objectId.value} else {}
  {
    assert forall x :: x in es + [e] <==> x in es || x == e;
  }

  lemma ProducersStep(es: seq<Event>, e: Event)
    ensures var p := ProducerOf(e);
            Producers(es + [e]) == Producers(es)[p := (if p in Producers(es) then Producers(es)[p] else 0) + 1]
  {
    assert forall x :: x in es + [e] <==> x in es || x == e;
    forall p ensures CountIf(es + [e], By(p)) == CountIf(es, By(p)) + if ProducerOf(e) == p then 1 else 0 {
      CountStep(es, e, By(p));
    }
    var p := ProducerOf(e);
    if p !in Producers(es) {
      CountNever(es, By(p));
    }
  }

  lemma {:induction false} ProducerOrderFacts(es: seq<Event>)
    ensures Distinct(ProducerOrder(es)) && forall p :: p in ProducerOrder(es) <==> p in Producers(es)
  {
    if es != [] {
      ProducerOrderFacts(es[..|es| - 1]);
      assert es == es[..|es| - 1] + [es[|es| - 1]];
    }
  }

  lemma FirstSeenStep(es: seq<Event>, e: Event)
    ensures ProducerOrder(es + [e]) ==
            if ProducerOf(e) in Producers(es) then ProducerOrder(es) else ProducerOrder(es) + [ProducerOf(e)]
  {
    assert (es + [e])[..|es|] == es;
    ProducerOrderFacts(es);
  }

  /** `p` stands before `q`. */
  ghost predicate Before(order: seq<string>, p: string, q: string) {
    exists i, j :: 0 <= i < j < |order| && order[i] == p && order[j] == q
  }

  /** More events, or as many and met earlier. */
  ghost predicate Outranks(order: seq<string>, n: map<string, nat>, p: string, q: string) {
    EventsBy(n, p) > EventsBy(n, q) || (EventsBy(n, p) == EventsBy(n, q) && Before(order, p, q))
  }

  ghost predicate InRank(ranked: seq<string>, order: seq<string>, n: map<string, nat>) {
    forall i, j :: 0 <= i < j < |ranked| ==> Outranks(order, n, ranked[i], ranked[j])
  }

  lemma PlacedLast(ranked: seq<string>, order: seq<string>, n: map<string, nat>, p: string)
    requires InRank(ranked, order, n) && forall q :: q in ranked ==> Before(order, q, p)
    requires ranked != [] ==> EventsBy(n, ranked[|ranked| - 1]) >= EventsBy(n, p)
    ensures InRank(ranked + [p], order, n)
  {
    hide Before, EventsBy;
    forall i | 0 <= i < |ranked| ensures Outranks(order, n, ranked[i], p) {
      if i < |ranked| - 1 { assert Outranks(order, n, ranked[i], ranked[|ranked| - 1]); }
    }
  }

  lemma BehindPlaced(placed: seq<string>, front: seq<string>, last: string, order: seq<string>, n: map<string, nat>, p: string)
    requires InRank(front + [last], order, n) && InRank(placed, order, n) && EventsBy(n, last) < EventsBy(n, p)
    requires multiset(placed) == multiset(front) + multiset{p}
    ensures InRank(placed + [last], order, n)
  {
    hide Before, EventsBy;
    forall i | 0 <= i < |placed| ensures Outranks(order, n, placed[i], last) {
      assert placed[i] in multiset(placed);
      if placed[i] != p {
        var k :| 0 <= k < |front| && front[k] == placed[i];
        assert Outranks(order, n, (front + [last])[k], (front + [last])[|front|]);
      }
    }
  }

  lemma {:induction false} PlacedInRank(ranked: seq<string>, order: seq<string>, n: map<string, nat>, p: string)
    requires InRank(ranked, order, n) && forall q :: q in ranked ==> Before(order, q, p)
    ensures InRank(Placed(ranked, n, p), order, n)
    ensures multiset(Placed(ranked, n, p)) == multiset(ranked) + multiset{p}
  {
    hide Before, EventsBy, Outranks;
    if ranked == [] || EventsBy(n, ranked[|ranked| - 1]) >= EventsBy(n, p) {
      PlacedLast(ranked, order, n, p);
    } else {
      var front, last := ranked[..|ranked| - 1], ranked[|ranked| - 1];
      assert ranked == front + [last];
      PlacedInRank(front, order, n, p);
      BehindPlaced(Placed(front, n, p), front, last, order, n, p);
    }
  }

  lemma {:induction false} RankedInRank(order: seq<string>, n: map<string, nat>)
    ensures InRank(Ranked(order, n), order, n) && multiset(Ranked(order, n)) == multiset(order)
  {
    if order != [] {
      var front, p := order[..|order| - 1], order[|order| - 1];
      assert order == front + [p];
      RankedInRank(front, n);
      var ranked := Ranked(front, n);
      forall q, q' | Before(front, q, q') ensures Before(order, q, q') {
        var i, j :| 0 <= i < j < |front| && front[i] == q && front[j] == q';
        assert order[i] == q && order[j] == q';
      }
      forall q | q in ranked ensures Before(order, q, p) {
        assert q in multiset(front);
        var i :| 0 <= i < |front| && front[i] == q;
        assert order[i] == q && order[|front|] == p;
      }
      PlacedInRank(ranked, order, n, p);
    }
  }

  /** The producers of a summary: everyone who wrote an event, once, by falling number of events, and among equals by
      first appearance. */
  lemma TopProducersExactly(f: Files, bytes: nat)
    ensures var s, es := Summarized(f, bytes), SummaryEvents(f);
            && Distinct(s.topProducers)
            && (forall p :: p in s.topProducers <==> exists e :: e in es && ProducerOf(e) == p)
            && InRank(s.topProducers, ProducerOrder(es), Producers(es))
            && (forall p :: p in s.topProducers ==> EventsBy(s.producers, p) == CountIf(es, By(p)))
  {
    var es := SummaryEvents(f);
    var order, top := ProducerOrder(es), Ranked(ProducerOrder(es), Producers(es));
    ProducerOrderFacts(es);
    RankedInRank(order, Producers(es));
    forall p ensures p in top <==> p in order {
      assert p in multiset(top) <==> p in multiset(order);
    }
    DistinctPermuted(order, top);
  }

  lemma DistinctPermuted<T>(s: seq<T>, t: seq<T>)
    requires Distinct(s) && multiset(s) == multiset(t)
    ensures Distinct(t)
  {
    forall i, j | 0 <= i < j < |t| ensures t[i] != t[j] {
      if t[i] == t[j] {
        assert t == t[..i] + [t[i]] + t[i + 1..j] + [t[j]] + t[j + 1..];
        assert multiset(t)[t[i]] >= 2;
        OnceInDistinct(s, t[i]);
      }
    }
  }

  lemma {:induction false} OnceInDistinct<T>(s: seq<T>, x: T)
    requires Distinct(s)
    ensures multiset(s)[x] <= 1
  {
    if s != [] {
      assert s == s[..|s| - 1] + [s[|s| - 1]];
      OnceInDistinct(s[..|s| - 1], x);
      if s[|s| - 1] == x { assert x !in multiset(s[..|s| - 1]); }
    }
  }

  /** A delete in this lane; an event that names no lane belongs to lane "repair". */
  function DeletesIn(l: string): Event -> bool {
    (e: Event) => e.eventType == Delete && e.objectId.Some? && e.objectId.value != ""
                  && (e.lane == Some(l) || (e.lane.None? && l == "repair"))
  }

  /** Written by `p`; an event that names no producer is by "unknown". */
  function WrittenFor(p: string): Event -> bool {
    (e: Event) => e.producer == Some(p) || (e.producer.None? && p == "unknown")
  }

  lemma {:induction false} CountSame<T>(s: seq<T>, p: T -> bool, q: T -> bool)
    requires forall x :: x in s ==> (p(x) <==> q(x))
    ensures CountIf(s, p) == CountIf(s, q)
  {
    if s != [] {
      assert s[|s| - 1] in s;
      CountSame(s[..|s| - 1], p, q);
    }
  }

  /** What the journal of any store counts for, whoever wrote it: a lane has the deletes that name it, lane "repair" those that
      name none as well, and a producer the events that name it, "unknown" those that name none. */
  lemma UnnamedEventsCount(f: Files, bytes: nat, i: nat, p: string)
    requires i < |SummaryOrder(f)|
    ensures |Summarized(f, bytes).lanes| == |SummaryOrder(f)|
    ensures var lane := Summarized(f, bytes).lanes[i];
            lane.name == SummaryOrder(f)[i] && lane.tombstones == CountIf(SummaryEvents(f), DeletesIn(lane.name))
    ensures EventsBy(Summarized(f, bytes).producers, p) == CountIf(SummaryEvents(f), WrittenFor(p))
  {
    hide CountIf, SummaryOrder, SummaryEvents, Ranked, ProducerOrder, RegistryCounts, Writes, Deletes;
    var es, l := SummaryEvents(f), SummaryOrder(f)[i];
    MappedAt(SummaryOrder(f), Reported(f.manifest.Some?, es, bytes));
    TombstonesByLane(es, l);
    EventsByProducer(es, p);
  }

  lemma TombstonesByLane(es: seq<Event>, l: string)
    ensures CountIf(es, InLane(l, Tombstones)) == CountIf(es, DeletesIn(l))
  {
    forall e | e in es ensures InLane(l, Tombstones)(e) <==> DeletesIn(l)(e) {
      assert InLane(l, Tombstones)(e) <==> LaneOf(e) == l && Tombstones(e);
    }
    CountSame(es, InLane(l, Tombstones), DeletesIn(l));
  }

  lemma EventsByProducer(es: seq<Event>, p: string)
    ensures EventsBy(Producers(es), p) == CountIf(es, WrittenFor(p))
  {
    CountSame(es, By(p), WrittenFor(p));
    if p !in Producers(es) { CountNever(es, By(p)); }
  }

  lemma PipelineStep(es: seq<Event>, e: Event)
    ensures forall t :: Writes(es + [e], t) == if e.eventType == t then Bumped(Writes(es, t), e.applied) else Writes(es, t)
    ensures Deletes(es + [e]) == if e.eventType == Delete then DeleteBumped(Deletes(es), e.applied) else Deletes(es)
  {
    forall t ensures Writes(es + [e], t) == if e.eventType == t then Bumped(Writes(es, t), e.applied) else Writes(es, t) {
      CountStep(es, e, OfType(t));
      CountStep(es, e, AppliedOfType(t));
    }
    CountStep(es, e, OfType(Delete));
    CountStep(es, e, AppliedOfType(Delete));
  }
}
