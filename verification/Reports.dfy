/** The State Integrity Report contract, its invariants and its diagnosis (reports.py). */
module Reports {
  import opened Text
  import opened Json

  type Report = Fields

  /** `datetime.fromisoformat` as an instant in milliseconds; `None` is its ValueError. */
  type Iso = string -> Option<int>

  const STATE_SCHEMA := "sourceos.state-integrity-report/v1alpha1"

  const REQUIRED_TOP_LEVEL: set<string> :=
    {"schema", "generated_at", "identity", "collection", "runtime", "stores", "lanes", "pipeline", "resources", "policy",
     "invariants", "diagnosis", "controls", "attestation"}
  const REQUIRED_IDENTITY: set<string> :=
    {"component", "repo", "pid", "process_name", "node_id_hash", "version", "platform", "service_manager"}
  const REQUIRED_COLLECTION: set<string> :=
    {"status", "errors", "redacted_fields", "permission_denied_fields", "timed_out_fields", "unavailable_fields"}
  const COLLECTION_LISTS: seq<string> :=
    ["errors", "redacted_fields", "permission_denied_fields", "timed_out_fields", "unavailable_fields"]
  const REQUIRED_STORE: set<string> :=
    {"name", "role", "backend", "schema_version", "runtime_version", "migration_state", "checksum_state"}
  const REQUIRED_LANE: set<string> := {"name", "status", "sla", "objects", "journal", "maintenance"}
  const REQUIRED_INVARIANT: set<string> := {"id", "status", "severity", "evidence", "remediation"}
  const JOURNAL_COUNTS: seq<string> :=
    ["segment_count", "total_bytes", "max_segment_bytes", "oldest_unapplied_event_age_ms", "replay_lag_events",
     "replay_lag_bytes", "replay_eta_ms"]

  const COLLECTION_STATUSES: set<string> := {"complete", "partial", "failed"}
  const STORE_ROLES: set<string> :=
    {"active", "shadow", "migration", "archive", "repair", "retired", "quarantined", "rebuilding"}
  const MIGRATION_STATES: set<string> := {"none", "pending", "lazy", "running", "complete", "failed", "rollback_available"}
  const CHECKSUM_STATES: set<string> := {"verified", "unverified", "mismatch", "unsupported"}
  const LANE_STATUSES: set<string> := {"active", "dormant", "degraded", "repairing", "retired", "unsafe"}
  const PRESSURE_STATES: set<string> := {"none", "watch", "warning", "critical", "unknown"}
  const INVARIANT_STATUSES: set<string> := {"pass", "warn", "fail"}
  const SEVERITIES: set<string> := {"info", "warning", "error", "critical"}

  // ---------- building blocks ----------

  /** Each error is named by the place it concerns; the wording of the messages is not modelled. */
  type Errors = seq<string>

  function FailIf(c: bool, place: string): Errors {
    if c then [place] else []
  }

  predicate OneOf(j: Json, names: set<string>) {
    j.Str? && j.s in names
  }

  function ParseInstant(iso: Iso, j: Json): Option<int> {
    if j.Str? && j.s != "" then iso(Zulu(j.s)) else None
  }

  function Zulu(s: string): string {
    if s != "" && s[|s| - 1] == 'Z' then s[..|s| - 1] + "+00:00" else s
  }

  function Prefixed(prefix: string, keys: seq<string>): Errors {
    if keys == [] then [] else [prefix + "." + keys[0]] + Prefixed(prefix, keys[1..])
  }

  lemma {:induction false} PrefixedLength(prefix: string, keys: seq<string>)
    ensures |Prefixed(prefix, keys)| == |keys|
  {
    if keys != [] { PrefixedLength(prefix, keys[1..]); }
  }

  function MissingKeys(prefix: string, d: Fields, required: set<string>): Errors {
    Prefixed(prefix, SortedSet(required - d.Keys))
  }

  lemma NothingMissing(prefix: string, d: Fields, required: set<string>)
    ensures MissingKeys(prefix, d, required) == [] <==> required <= d.Keys
    ensures |MissingKeys(prefix, d, required)| == |required - d.Keys|
  {
    var missing := required - d.Keys;
    PrefixedLength(prefix, SortedSet(missing));
    if k :| k in required && k !in d.Keys {
      assert k in missing;
    } else {
      assert missing == {};
    }
  }

  /** The keys of an object whose values are not non-negative integers. */
  function BadCounts(d: Fields): set<string> {
    set k | k in d && !IsNonNegative(d[k])
  }

  function CountErrors(prefix: string, d: Fields): Errors {
    Prefixed(prefix, SortedSet(BadCounts(d)))
  }

  lemma NoBadCounts(prefix: string, d: Fields)
    ensures CountErrors(prefix, d) == [] <==> forall k :: k in d ==> IsNonNegative(d[k])
  {
    PrefixedLength(prefix, SortedSet(BadCounts(d)));
    if exists k :: k in d && !IsNonNegative(d[k]) {
      var k :| k in d && !IsNonNegative(d[k]);
      assert k in BadCounts(d);
    } else {
      assert BadCounts(d) == {};
    }
  }

  // ---------- hexadecimal flags ----------

  predicate IsHexDigit(c: char) {
    '0' <= c <= '9' || 'a' <= c <= 'f' || 'A' <= c <= 'F'
  }

  function HexDigitValue(c: char): nat {
    if '0' <= c <= '9' then c as nat - '0' as nat
    else if 'a' <= c <= 'f' then c as nat - 'a' as nat + 10
    else if 'A' <= c <= 'F' then c as nat - 'A' as nat + 10
    else 0
  }

  /** `$` also matches before a final newline. */
  function HexBody(s: string): string {
    if s != "" && s[|s| - 1] == '\n' then s[..|s| - 1] else s
  }

  predicate IsHex(s: string) {
    var b := HexBody(s);
    |b| > 2 && b[0] == '0' && b[1] == 'x' && forall i :: 2 <= i < |b| ==> IsHexDigit(b[i])
  }

  function DigitsValue(digits: string): nat {
    if digits == [] then 0 else 16 * DigitsValue(digits[..|digits| - 1]) + HexDigitValue(digits[|digits| - 1])
  }

  function HexValue(s: string): nat
    requires IsHex(s)
  {
    DigitsValue(HexBody(s)[2..])
  }

  // ---------- validate_report ----------

  function ShapeErrors(r: Report): Errors {
    MissingKeys("report", r, REQUIRED_TOP_LEVEL) +
    FailIf(Get(r, "schema") != Str(STATE_SCHEMA), "schema") +
    FailIf(!Get(r, "lanes").Arr?, "lanes") +
    FailIf(!Get(r, "stores").Arr?, "stores")
  }

  function IdentityErrors(j: Json): Errors {
    if !j.Obj? then ["identity"]
    else
      MissingKeys("identity", j.fields, REQUIRED_IDENTITY) +
      FailIf(!IsNonNegative(Get(j.fields, "pid")), "identity.pid") +
      FailIf(!(Get(j.fields, "node_id_hash").Str? && "sha256:" <= Get(j.fields, "node_id_hash").s), "identity.node_id_hash")
  }

  function NotLists(d: Fields, keys: seq<string>): Errors {
    if keys == [] then [] else FailIf(!Get(d, keys[0]).Arr?, keys[0]) + NotLists(d, keys[1..])
  }

  function CollectionErrors(j: Json): Errors {
    if !j.Obj? then ["collection"]
    else
      MissingKeys("collection", j.fields, REQUIRED_COLLECTION) +
      FailIf(!OneOf(Get(j.fields, "status"), COLLECTION_STATUSES), "collection.status") +
      NotLists(j.fields, COLLECTION_LISTS)
  }

  predicate EndsWithAt(key: string) {
    |key| >= 3 && key[|key| - 3..] == "_at"
  }

  function BadInstants(iso: Iso, d: Fields): set<string> {
    set k | k in d && EndsWithAt(k) && d[k] != Null && ParseInstant(iso, d[k]).None?
  }

  function RuntimeErrors(iso: Iso, j: Json): Errors {
    if !j.Obj? then ["runtime"] else Prefixed("runtime", SortedSet(BadInstants(iso, j.fields)))
  }

  /** The name of a store or lane, when it has one that can be compared. */
  function NameOf(j: Json): Option<string> {
    if j.Obj? && Get(j.fields, "name").Str? then Some(Get(j.fields, "name").s) else None
  }

  /** An earlier item has the same name. */
  predicate Repeats(items: seq<Json>, i: nat)
    requires i < |items|
  {
    NameOf(items[i]).Some? && exists j :: 0 <= j < i && NameOf(items[j]) == NameOf(items[i])
  }

  function FlagErrors(d: Fields): Errors {
    FailIf("flags_raw" in d && !IsNonNegative(d["flags_raw"]), "flags_raw") +
    (if "flags_hex" !in d then []
     else if !d["flags_hex"].Str? || !IsHex(d["flags_hex"].s) then ["flags_hex"]
     else FailIf(IsNonNegative(Get(d, "flags_raw")) && HexValue(d["flags_hex"].s) != IntValue(Get(d, "flags_raw")), "flags_hex"))
  }

  function StoreErrors(j: Json, repeated: bool): Errors {
    if !j.Obj? then ["stores"]
    else
      MissingKeys("stores", j.fields, REQUIRED_STORE) +
      FailIf(repeated, "stores.name") +
      FailIf(!OneOf(Get(j.fields, "role"), STORE_ROLES), "stores.role") +
      FailIf(!OneOf(Get(j.fields, "migration_state"), MIGRATION_STATES), "stores.migration_state") +
      FailIf(!OneOf(Get(j.fields, "checksum_state"), CHECKSUM_STATES), "stores.checksum_state") +
      FlagErrors(j.fields)
  }

  function SectionErrors(d: Fields, section: string): Errors {
    var values := GetOr(d, section, Obj(map[]));
    if !values.Obj? then [section] else CountErrors(section, values.fields)
  }

  function BadJournal(d: Fields, keys: seq<string>): Errors {
    if keys == [] then []
    else FailIf(keys[0] in d && !IsNonNegative(d[keys[0]]), keys[0]) + BadJournal(d, keys[1..])
  }

  function JournalErrors(d: Fields): Errors {
    var journal := GetOr(d, "journal", Obj(map[]));
    if !journal.Obj? then ["journal"] else BadJournal(journal.fields, JOURNAL_COUNTS)
  }

  function LaneErrors(j: Json, repeated: bool): Errors {
    if !j.Obj? then ["lanes"]
    else
      MissingKeys("lanes", j.fields, REQUIRED_LANE) +
      FailIf(repeated, "lanes.name") +
      FailIf(!OneOf(Get(j.fields, "status"), LANE_STATUSES), "lanes.status") +
      SectionErrors(j.fields, "sla") +
      SectionErrors(j.fields, "objects") +
      JournalErrors(j.fields)
  }

  /** What one item of a list is checked for, given whether its name is taken already. */
  type ItemCheck = (Json, bool) -> Errors

  function ListErrors(items: seq<Json>, check: ItemCheck): Errors {
    if items == [] then []
    else ListErrors(items[..|items| - 1], check) + check(items[|items| - 1], Repeats(items, |items| - 1))
  }

  function LanesErrors(j: Json): Errors {
    if !j.Arr? || j.items == [] then ["lanes"] else ListErrors(j.items, LaneErrors)
  }

  predicate IsNumber(j: Json) {
    IsInt(j) || j.Num?
  }

  function NumberValue(j: Json): real {
    if j.Num? then j.x else IntValue(j) as real
  }

  /** `report.get("resources", {}).get("disk", {})`, which is empty when resources is no object. */
  function DiskOf(r: Report): Json {
    var resources := GetOr(r, "resources", Obj(map[]));
    if resources.Obj? then GetOr(resources.fields, "disk", Obj(map[])) else Obj(map[])
  }

  function DiskErrors(disk: Json): Errors {
    if !disk.Obj? then ["resources.disk"]
    else
      var d := disk.fields;
      var total, free, ratio := Get(d, "total_bytes"), Get(d, "free_bytes"), Get(d, "free_ratio");
      FailIf(!IsNonNegative(free), "free_bytes") +
      FailIf(!IsInt(total) || IntValue(total) <= 0, "total_bytes") +
      FailIf(IsInt(free) && IsInt(total) && IntValue(total) > 0 && IntValue(free) > IntValue(total), "free_bytes") +
      FailIf(!IsNumber(ratio) || NumberValue(ratio) < 0.0 || NumberValue(ratio) > 1.0, "free_ratio") +
      FailIf(!OneOf(Get(d, "pressure"), PRESSURE_STATES), "pressure")
  }

  function PolicyErrors(j: Json): Errors {
    if !j.Obj? then ["policy"]
    else
      var decisions := Get(j.fields, "policy_decisions");
      if !decisions.Obj? then ["policy.policy_decisions"] else CountErrors("policy.policy_decisions", decisions.fields)
  }

  function InvariantErrors(j: Json): Errors {
    if !j.Obj? then ["invariants"]
    else
      MissingKeys("invariants", j.fields, REQUIRED_INVARIANT) +
      FailIf(!OneOf(Get(j.fields, "status"), INVARIANT_STATUSES), "invariants.status") +
      FailIf(!OneOf(Get(j.fields, "severity"), SEVERITIES), "invariants.severity") +
      FailIf(!Get(j.fields, "evidence").Obj?, "invariants.evidence")
  }

  function InvariantListErrors(items: seq<Json>): Errors {
    if items == [] then [] else InvariantListErrors(items[..|items| - 1]) + InvariantErrors(items[|items| - 1])
  }

  function InvariantsErrors(j: Json): Errors {
    if !j.Arr? then ["invariants"] else InvariantListErrors(j.items)
  }

  /** Every check but those of the shape and of the invariants list. */
  function BodyErrors(iso: Iso, r: Report): Errors {
    FailIf(ParseInstant(iso, Get(r, "generated_at")).None?, "generated_at") +
    IdentityErrors(Get(r, "identity")) +
    CollectionErrors(Get(r, "collection")) +
    RuntimeErrors(iso, Get(r, "runtime")) +
    ListErrors(ItemsOf(Get(r, "stores")), StoreErrors) +
    LanesErrors(Get(r, "lanes")) +
    DiskErrors(DiskOf(r)) +
    PolicyErrors(Get(r, "policy"))
  }

  /** `validate_report`: a report of the wrong shape is not looked at any further. */
  function ReportErrors(iso: Iso, r: Report): Errors {
    if ShapeErrors(r) != [] then ShapeErrors(r) else BodyErrors(iso, r) + InvariantsErrors(Get(r, "invariants"))
  }

  /** The loops over stores and over lanes: one pass with the set of names seen so far. */
  method CheckList(items: seq<Json>, check: ItemCheck) returns (errors: Errors)
    ensures errors == ListErrors(items, check)
  {
    errors := [];
    var seen: set<string> := {};
    for i := 0 to |items|
      invariant errors == ListErrors(items[..i], check)
      invariant forall n :: n in seen <==> exists j :: 0 <= j < i && NameOf(items[j]) == Some(n)
    {
      var name := NameOf(items[i]);
      var repeated := name.Some? && name.value in seen;
      var before := items[..i + 1];
      assert before[..i] == items[..i];
      assert repeated <==> Repeats(before, i) by {
        if repeated {
          var j :| 0 <= j < i && NameOf(items[j]) == name;
          assert NameOf(before[j]) == name;
        }
      }
      errors := errors + check(items[i], repeated);
      if name.Some? { seen := seen + {name.value}; }
    }
    assert items[..|items|] == items;
  }

  // ---------- verify ----------

  datatype Level = Pass | Warn | Fail

  datatype Severity = Info | Warning | Error | Critical

  datatype InvariantId = ContractValid | Heartbeat | ReplayLag | Shadow | DiskPressure | DirtyOpen

  datatype Invariant = Invariant(id: InvariantId, status: Level, severity: Severity, evidence: Fields)

  /** Where Python does not raise: every section that is opened as an object is one or is absent, lag counts are numbers
      or null, and lane names are texts or absent. Elsewhere the functions below put "absent" for what Python would trip
      over, so that they are total. */
  predicate Readable(r: Report) {
    && GetOr(r, "runtime", Obj(map[])).Obj?
    && GetOr(r, "collection", Obj(map[])).Obj?
    && GetOr(r, "identity", Obj(map[])).Obj?
    && GetOr(r, "resources", Obj(map[])).Obj? && DiskOf(r).Obj?
    && GetOr(r, "stores", Arr([])).Arr?
    && GetOr(r, "lanes", Arr([])).Arr?
    && forall lane :: lane in LanesOf(r) && lane.Obj? ==> ReadableLane(lane.fields)
  }

  predicate ReadableLane(d: Fields) {
    && GetOr(d, "sla", Obj(map[])).Obj?
    && GetOr(d, "journal", Obj(map[])).Obj?
    && ("name" in d ==> d["name"].Str?)
    && CountLike(Get(GetOr(d, "journal", Obj(map[])).fields, "replay_lag_events"))
    && CountLike(Get(GetOr(d, "sla", Obj(map[])).fields, "max_replay_lag_events"))
  }

  predicate CountLike(j: Json) {
    j.Null? || IsNumber(j)
  }

  function LanesOf(r: Report): seq<Json> {
    ItemsOf(GetOr(r, "lanes", Arr([])))
  }

  function StoresOf(r: Report): seq<Json> {
    ItemsOf(GetOr(r, "stores", Arr([])))
  }

  function RuntimeOf(r: Report): Fields {
    FieldsOf(GetOr(r, "runtime", Obj(map[])))
  }

  function HeartbeatAge(iso: Iso, now: int, r: Report): Option<int> {
    var last := ParseInstant(iso, Get(RuntimeOf(r), "last_heartbeat_at"));
    var generated := ParseInstant(iso, Get(r, "generated_at"));
    if last.None? then None
    else
      var age := (if generated.Some? then generated.value else now) - last.value;
      Some(if age < 0 then 0 else age)
  }

  function SlaOf(lane: Json): Fields {
    FieldsOf(Get(FieldsOf(lane), "sla"))
  }

  function LagOf(lane: Json): int {
    Count(Get(FieldsOf(Get(FieldsOf(lane), "journal")), "replay_lag_events"))
  }

  function AllowanceOf(lane: Json): int {
    Count(Get(SlaOf(lane), "max_replay_lag_events"))
  }

  function MinAge(lanes: seq<Json>): Option<int> {
    if lanes == [] then None
    else
      var rest, own := MinAge(lanes[..|lanes| - 1]), Get(SlaOf(lanes[|lanes| - 1]), "max_heartbeat_age_ms");
      if !lanes[|lanes| - 1].Obj? || !IsInt(own) then rest
      else if rest.Some? && rest.value <= IntValue(own) then rest
      else Some(IntValue(own))
  }

  function MaxAge(r: Report): int {
    var least := MinAge(LanesOf(r));
    if least.Some? then least.value else 30000
  }

  function TotalLag(lanes: seq<Json>): int {
    if lanes == [] then 0 else TotalLag(lanes[..|lanes| - 1]) + LagOf(lanes[|lanes| - 1])
  }

  function AllowedLag(lanes: seq<Json>): int {
    if lanes == [] then 0 else AllowedLag(lanes[..|lanes| - 1]) + AllowanceOf(lanes[|lanes| - 1])
  }

  predicate ShadowFails(store: Json) {
    && store.Obj?
    && Get(store.fields, "role") == Str("active")
    && Truthy(Get(store.fields, "shadow_present"))
    && !OneOf(Get(store.fields, "checksum_state"), {"verified", "unsupported"})
  }

  function ShadowFailures(stores: seq<Json>): seq<Json> {
    if stores == [] then []
    else
      var last := stores[|stores| - 1];
      ShadowFailures(stores[..|stores| - 1]) +
      if ShadowFails(last) then [GetOr(last.fields, "name", Str("unknown"))] else []
  }

  /** `disk.get("pressure", "unknown")`. */
  function PressureOf(r: Report): Json {
    GetOr(FieldsOf(DiskOf(r)), "pressure", Str("unknown"))
  }

  function Judge(id: InvariantId, ok: bool, status: Level, severity: Severity, evidence: Fields): Invariant {
    Invariant(id, if ok then Pass else status, if ok then Info else severity, evidence)
  }

  function IntOrNull(n: Option<int>): Json {
    if n.Some? then Int(n.value) else Null
  }

  predicate HeartbeatOk(iso: Iso, now: int, r: Report) {
    var age := HeartbeatAge(iso, now, r);
    age.Some? && age.value <= MaxAge(r)
  }

  predicate LagOk(r: Report) {
    TotalLag(LanesOf(r)) <= AllowedLag(LanesOf(r))
  }

  predicate PressureOk(r: Report) {
    PressureOf(r) != Str("critical") && PressureOf(r) != Str("unknown")
  }

  predicate CleanOpen(r: Report) {
    !Truthy(Get(RuntimeOf(r), "last_dirty_open_at"))
  }

  /** The five invariants that do not depend on the contract. */
  function StateInvariants(iso: Iso, now: int, r: Report): seq<Invariant> {
    [Judge(Heartbeat, HeartbeatOk(iso, now, r), Fail, Error,
           map["age_ms" := IntOrNull(HeartbeatAge(iso, now, r)), "max_heartbeat_age_ms" := Int(MaxAge(r))]),
     Judge(ReplayLag, LagOk(r), Fail, Error,
           map["replay_lag_events" := Int(TotalLag(LanesOf(r))), "allowed_replay_lag_events" := Int(AllowedLag(LanesOf(r)))]),
     Judge(Shadow, ShadowFailures(StoresOf(r)) == [], Warn, Warning, map["stores" := Arr(ShadowFailures(StoresOf(r)))]),
     Judge(DiskPressure, PressureOk(r), Fail, Critical,
           map["pressure" := PressureOf(r), "free_ratio" := Get(FieldsOf(DiskOf(r)), "free_ratio")]),
     Judge(DirtyOpen, CleanOpen(r), Warn, Warning,
           map["last_dirty_open_at" := Get(RuntimeOf(r), "last_dirty_open_at")])]
  }

  function ContractInvariant(errors: Errors): Invariant {
    Judge(ContractValid, errors == [], Fail, Critical, map["errors" := Texts(errors)])
  }

  /** `verify(report)["invariants"]`, given what the contract check found. */
  function InvariantsWith(errors: Errors, iso: Iso, now: int, r: Report): seq<Invariant> {
    [ContractInvariant(errors)] + StateInvariants(iso, now, r)
  }

  /** `now` is read only when generated_at does not parse. */
  function Verify(iso: Iso, now: int, r: Report): seq<Invariant> {
    InvariantsWith(ReportErrors(iso, r), iso, now, r)
  }

  /** The loop of `verify` over the lanes. */
  method SumLags(r: Report) returns (total: int, allowed: int)
    ensures total == TotalLag(LanesOf(r)) && allowed == AllowedLag(LanesOf(r))
    ensures total <= allowed <==> LagOk(r)
  {
    total, allowed := 0, 0;
    var lanes := LanesOf(r);
    for i := 0 to |lanes|
      invariant total == TotalLag(lanes[..i]) && allowed == AllowedLag(lanes[..i])
    {
      assert lanes[..i + 1][..i] == lanes[..i];
      if lanes[i].Obj? {
        total := total + LagOf(lanes[i]);
        allowed := allowed + AllowanceOf(lanes[i]);
      }
    }
    assert lanes[..|lanes|] == lanes;
  }

  // ---------- diagnose ----------

  datatype Status = Healthy | Degraded | Unsafe

  datatype Cause = Broken(id: InvariantId) | CollectionPartial | CollectionFailed

  datatype SafeAction = Remedy(id: InvariantId) | PurgePreview

  datatype BlockedAction = DestructivePurge | FreshStateAction

  /** The sorted lists of the source are sets here. */
  datatype Diagnosis = Diagnosis(status: Status, severity: Severity, causes: set<Cause>, affectedLanes: set<string>,
                                 safeActions: set<SafeAction>, blockedActions: set<BlockedAction>)

  function NotPassing(invs: seq<Invariant>): set<InvariantId> {
    set v | v in invs && v.status != Pass :: v.id
  }

  function LaneName(lane: Json): string {
    var name := GetOr(FieldsOf(lane), "name", Str("unknown"));
    if name.Str? then name.s else "unknown"
  }

  predicate Affected(lane: Json) {
    lane.Obj? && (OneOf(Get(lane.fields, "status"), {"degraded", "repairing", "unsafe"}) || LagOf(lane) > AllowanceOf(lane))
  }

  function AffectedLanes(lanes: seq<Json>): set<string> {
    set lane | lane in lanes && Affected(lane) :: LaneName(lane)
  }

  function CollectionCauses(r: Report): set<Cause> {
    var status := Get(FieldsOf(GetOr(r, "collection", Obj(map[]))), "status");
    if status == Str("partial") then {CollectionPartial} else if status == Str("failed") then {CollectionFailed} else {}
  }

  /** `disk.get("pressure")`, without the default of `verify`. */
  predicate DiskTight(r: Report) {
    OneOf(Get(FieldsOf(DiskOf(r)), "pressure"), {"warning", "critical"})
  }

  predicate CriticalFailure(invs: seq<Invariant>) {
    exists v :: v in invs && v.severity == Critical && v.status == Fail
  }

  predicate AnyAt(invs: seq<Invariant>, level: Level) {
    exists v :: v in invs && v.status == level
  }

  function StatusOf(invs: seq<Invariant>): (Status, Severity) {
    if CriticalFailure(invs) then (Unsafe, Critical)
    else if AnyAt(invs, Fail) then (Degraded, Error)
    else if AnyAt(invs, Warn) then (Degraded, Warning)
    else (Healthy, Info)
  }

  function DiagnoseWith(invs: seq<Invariant>, r: Report): Diagnosis {
    var broken := NotPassing(invs);
    var verdict := StatusOf(invs);
    Diagnosis(verdict.0, verdict.1,
              (set id | id in broken :: Broken(id)) + CollectionCauses(r),
              AffectedLanes(LanesOf(r)),
              (set id | id in broken :: Remedy(id)) + (if DiskTight(r) then {PurgePreview} else {}),
              (if DiskTight(r) then {DestructivePurge} else {})
              + (if Heartbeat in broken || ReplayLag in broken then {FreshStateAction} else {}))
  }

  function Diagnose(iso: Iso, now: int, r: Report): Diagnosis {
    DiagnoseWith(Verify(iso, now, r), r)
  }

  /** The loop of `diagnose` over the lanes. */
  method CollectAffected(r: Report) returns (affected: set<string>)
    ensures affected == AffectedLanes(LanesOf(r))
  {
    affected := {};
    var lanes := LanesOf(r);
    for i := 0 to |lanes|
      invariant affected == AffectedLanes(lanes[..i])
    {
      assert forall x :: x in lanes[..i + 1] <==> x in lanes[..i] || x == lanes[i];
      var lane := lanes[i];
      if lane.Obj? && (OneOf(Get(lane.fields, "status"), {"degraded", "repairing", "unsafe"}) || LagOf(lane) > AllowanceOf(lane)) {
        affected := affected + {LaneName(lane)};
      }
    }
    assert lanes[..|lanes|] == lanes;
  }

  datatype Control = RunReplay | PurgePreviewControl | VerifyDirtyOpen

  function ControlsWith(d: Diagnosis, r: Report): seq<Control> {
    (if Broken(ReplayLag) in d.causes then [RunReplay] else []) +
    (if DiskTight(r) then [PurgePreviewControl] else []) +
    (if Broken(DirtyOpen) in d.causes then [VerifyDirtyOpen] else [])
  }

  function ControlsFor(iso: Iso, now: int, r: Report): seq<Control> {
    ControlsWith(Diagnose(iso, now, r), r)
  }
}
