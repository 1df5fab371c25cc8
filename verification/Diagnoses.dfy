/** What a diagnosis and the controls chosen from it say about a report (reports.py, `diagnose` and `controls_for`). */
module Diagnoses {
  import opened Text
  import opened Json
  import opened Reports

  /** Which invariants are causes. */
  lemma CausesExactly(errors: Errors, iso: Iso, now: int, r: Report)
    ensures var c := DiagnoseWith(InvariantsWith(errors, iso, now, r), r).causes;
            && (Broken(ContractValid) in c <==> errors != [])
            && (Broken(Heartbeat) in c <==> !HeartbeatOk(iso, now, r))
            && (Broken(ReplayLag) in c <==> !LagOk(r))
            && (Broken(Shadow) in c <==> ShadowFailures(StoresOf(r)) != [])
            && (Broken(DiskPressure) in c <==> !PressureOk(r))
            && (Broken(DirtyOpen) in c <==> !CleanOpen(r))
  {
    var invs := InvariantsWith(errors, iso, now, r);
    BrokenExactly(invs, r);
    SixIds(errors, iso, now, r);
    SixInvariants(invs);
  }

  lemma DiagnoseIs(iso: Iso, now: int, r: Report)
    ensures Verify(iso, now, r) == InvariantsWith(ReportErrors(iso, r), iso, now, r)
    ensures Diagnose(iso, now, r) == DiagnoseWith(InvariantsWith(ReportErrors(iso, r), iso, now, r), r)
  {
    hide DiagnoseWith, InvariantsWith, ReportErrors;
  }

  lemma SixIds(errors: Errors, iso: Iso, now: int, r: Report)
    ensures var invs := InvariantsWith(errors, iso, now, r);
            && |invs| == 6
            && invs[0].id == ContractValid && invs[1].id == Heartbeat && invs[2].id == ReplayLag && invs[3].id == Shadow
            && invs[4].id == DiskPressure && invs[5].id == DirtyOpen
            && (invs[0].status != Pass <==> errors != []) && (invs[1].status != Pass <==> !HeartbeatOk(iso, now, r))
            && (invs[2].status != Pass <==> !LagOk(r)) && (invs[3].status != Pass <==> ShadowFailures(StoresOf(r)) != [])
            && (invs[4].status != Pass <==> !PressureOk(r)) && (invs[5].status != Pass <==> !CleanOpen(r))
  {
  }

  lemma SixInvariants(invs: seq<Invariant>)
    requires |invs| == 6
    requires invs[0].id == ContractValid && invs[1].id == Heartbeat && invs[2].id == ReplayLag && invs[3].id == Shadow
             && invs[4].id == DiskPressure && invs[5].id == DirtyOpen
    ensures ContractValid in NotPassing(invs) <==> invs[0].status != Pass
    ensures Heartbeat in NotPassing(invs) <==> invs[1].status != Pass
    ensures ReplayLag in NotPassing(invs) <==> invs[2].status != Pass
    ensures Shadow in NotPassing(invs) <==> invs[3].status != Pass
    ensures DiskPressure in NotPassing(invs) <==> invs[4].status != Pass
    ensures DirtyOpen in NotPassing(invs) <==> invs[5].status != Pass
  {
    assert invs == [invs[0], invs[1], invs[2], invs[3], invs[4], invs[5]];
    assert forall v :: v in invs <==> v == invs[0] || v == invs[1] || v == invs[2] || v == invs[3] || v == invs[4] || v == invs[5];
  }

  lemma BrokenExactly(invs: seq<Invariant>, r: Report)
    ensures forall id :: Broken(id) in DiagnoseWith(invs, r).causes <==> id in NotPassing(invs)
  {
  }

  lemma ActionsFrom(invs: seq<Invariant>, r: Report)
    ensures var d := DiagnoseWith(invs, r);
            && (FreshStateAction in d.blockedActions <==> Heartbeat in NotPassing(invs) || ReplayLag in NotPassing(invs))
            && (DestructivePurge in d.blockedActions <==> DiskTight(r))
            && (PurgePreview in d.safeActions <==> DiskTight(r))
            && (forall id :: Remedy(id) in d.safeActions <==> id in NotPassing(invs))
  {
  }

  /** What is blocked and what is advised: acting on fresh state is blocked exactly when the heartbeat is stale or the lag
      too long, purging exactly when the disk is tight, and every broken invariant, no other, has its remedy listed. */
  lemma ActionsExactly(iso: Iso, now: int, r: Report)
    ensures var d := Diagnose(iso, now, r);
            && (FreshStateAction in d.blockedActions <==> !HeartbeatOk(iso, now, r) || !LagOk(r))
            && (DestructivePurge in d.blockedActions <==> DiskTight(r))
            && (PurgePreview in d.safeActions <==> DiskTight(r))
            && (forall id :: Remedy(id) in d.safeActions <==> Broken(id) in d.causes)
  {
    var invs := Verify(iso, now, r);
    ActionsFrom(invs, r);
    BrokenExactly(invs, r);
    CausesExactly(ReportErrors(iso, r), iso, now, r);
  }

  /** The status of the collection, read off the report. */
  function CollectionStatus(r: Report): Json {
    if "collection" in r && r["collection"].Obj? && "status" in r["collection"].fields then r["collection"].fields["status"]
    else Null
  }

  /** A partial and a failed collection are causes, each of its own, and no other status is. */
  lemma CollectionExactly(iso: Iso, now: int, r: Report)
    ensures var c := Diagnose(iso, now, r).causes;
            && (CollectionPartial in c <==> CollectionStatus(r) == Str("partial"))
            && (CollectionFailed in c <==> CollectionStatus(r) == Str("failed"))
  {
    hide Verify, NotPassing, StatusOf, AffectedLanes, DiskTight;
  }

  predicate Lags(lane: Json) {
    lane.Obj? && LagOf(lane) > AllowanceOf(lane)
  }

  /** If the total lag is over the total allowance, some lane is over its own. */
  lemma {:induction false} SomeLaneLags(lanes: seq<Json>) returns (lane: Json)
    requires TotalLag(lanes) > AllowedLag(lanes)
    ensures lane in lanes && Lags(lane)
  {
    var front, last := lanes[..|lanes| - 1], lanes[|lanes| - 1];
    if LagOf(last) > AllowanceOf(last) {
      lane := last;
    } else {
      lane := SomeLaneLags(front);
    }
  }

  /** A broken lag invariant always names a lane: when a replay is offered and acting on fresh state is blocked for it,
      the diagnosis lists a lane that is over its own allowance. */
  lemma BrokenLagNamesALane(iso: Iso, now: int, r: Report)
    requires !LagOk(r)
    ensures RunReplay in ControlsFor(iso, now, r)
    ensures exists lane :: lane in LanesOf(r) && Lags(lane) && LaneName(lane) in Diagnose(iso, now, r).affectedLanes
    ensures FreshStateAction in Diagnose(iso, now, r).blockedActions
  {
    ControlsExactly(iso, now, r);
    ActionsExactly(iso, now, r);
    var lane := SomeLaneLags(LanesOf(r));
    assert Affected(lane);
  }

  function LaneWith(name: string, status: string, lag: nat, allowed: nat): Json {
    Obj(map["name" := Str(name), "status" := Str(status), "journal" := Obj(map["replay_lag_events" := Int(lag)]),
            "sla" := Obj(map["max_replay_lag_events" := Int(allowed)])])
  }

  lemma LaneLags(name: string, status: string, lag: nat, allowed: nat)
    ensures var lane := LaneWith(name, status, lag, allowed);
            && LagOf(lane) == lag && AllowanceOf(lane) == allowed && LaneName(lane) == name
            && (Affected(lane) <==> status == "degraded" || status == "repairing" || status == "unsafe" || lag > allowed)
  {
  }

  lemma LanesInReport(lanes: seq<Json>)
    ensures LanesOf(map["lanes" := Arr(lanes)]) == lanes
  {
  }

  /** A lane that calls itself degraded, repairing or unsafe is affected however little it lags; of all others exactly those
      that lag behind their allowance are. */
  lemma LoneLaneExactly(iso: Iso, now: int, name: string, status: string, lag: nat, allowed: nat)
    ensures var r: Report := map["lanes" := Arr([LaneWith(name, status, lag, allowed)])];
            Diagnose(iso, now, r).affectedLanes ==
            if status == "degraded" || status == "repairing" || status == "unsafe" || lag > allowed then {name} else {}
  {
    hide LaneWith, LagOf, AllowanceOf, LaneName, Affected, Verify, NotPassing, StatusOf, CollectionCauses, DiskTight, LanesOf;
    var lane := LaneWith(name, status, lag, allowed);
    LaneLags(name, status, lag, allowed);
    LanesInReport([lane]);
    assert forall x :: x in [lane] <==> x == lane;
  }

  lemma TwoLanes(a: Json, b: Json)
    ensures TotalLag([a, b]) == LagOf(a) + LagOf(b) && AllowedLag([a, b]) == AllowanceOf(a) + AllowanceOf(b)
  {
    hide LagOf, AllowanceOf;
    assert [a, b][..1] == [a] && [a][..0] == [];
    assert TotalLag([a]) == LagOf(a) && AllowedLag([a]) == AllowanceOf(a);
  }

  /** The other way round it is not so: a lane that lags, by any amount, is listed as affected while another lane with
      enough slack makes the invariant hold, and no replay is offered. */
  lemma SlackHidesALag(iso: Iso, now: int, name: string, lag: nat, allowed: nat, other: string, slack: nat)
    requires allowed < lag <= allowed + slack
    ensures var r: Report := map["lanes" := Arr([LaneWith(name, "active", lag, allowed), LaneWith(other, "active", 0, slack)])];
            && name in Diagnose(iso, now, r).affectedLanes
            && LagOk(r) && RunReplay !in ControlsFor(iso, now, r)
  {
    hide LaneWith, LagOf, AllowanceOf, LaneName, Affected, ControlsFor, InvariantsWith, ReportErrors;
    var a, b := LaneWith(name, "active", lag, allowed), LaneWith(other, "active", 0, slack);
    var r: Report := map["lanes" := Arr([a, b])];
    LaneLags(name, "active", lag, allowed);
    LaneLags(other, "active", 0, slack);
    assert LanesOf(r) == [a, b];
    TwoLanes(a, b);
    assert a in LanesOf(r);
    ControlsExactly(iso, now, r);
  }

  lemma ControlsFrom(d: Diagnosis, r: Report)
    ensures var c := ControlsWith(d, r);
            && (RunReplay in c <==> Broken(ReplayLag) in d.causes)
            && (PurgePreviewControl in c <==> DiskTight(r))
            && (VerifyDirtyOpen in c <==> Broken(DirtyOpen) in d.causes)
            && forall i, j :: 0 <= i < j < |c| ==> c[i] != c[j]
  {
  }

  /** Each control is offered exactly for its own condition, and at most once. */
  lemma ControlsExactly(iso: Iso, now: int, r: Report)
    ensures var c := ControlsFor(iso, now, r);
            && (RunReplay in c <==> !LagOk(r)) && (PurgePreviewControl in c <==> DiskTight(r))
            && (VerifyDirtyOpen in c <==> !CleanOpen(r))
            && forall i, j :: 0 <= i < j < |c| ==> c[i] != c[j]
  {
    CausesExactly(ReportErrors(iso, r), iso, now, r);
    ControlsFrom(Diagnose(iso, now, r), r);
  }

  // ---------- the invariants, read off the report ----------

  /** An active store that claims a shadow without a checksum to show for it. */
  predicate UnprovenShadow(store: Json) {
    && store.Obj? && "role" in store.fields && store.fields["role"] == Str("active")
    && "shadow_present" in store.fields && Truthy(store.fields["shadow_present"])
    && ("checksum_state" in store.fields ==> store.fields["checksum_state"] !in {Str("verified"), Str("unsupported")})
  }

  lemma ShadowFailsExactly(store: Json)
    ensures ShadowFails(store) <==> UnprovenShadow(store)
  {
  }

  /** The shadow invariant holds exactly when no store is such a one. */
  lemma {:induction false} ShadowExactly(stores: seq<Json>)
    ensures ShadowFailures(stores) == [] <==> forall s :: s in stores ==> !UnprovenShadow(s)
  {
    hide ShadowFails, UnprovenShadow;
    if stores != [] {
      var front, last := stores[..|stores| - 1], stores[|stores| - 1];
      assert stores == front + [last];
      ShadowExactly(front);
      ShadowFailsExactly(last);
    }
  }

  /** The heartbeat limit a lane declares, if it declares a whole number. */
  function Limit(lane: Json): Option<int> {
    if !lane.Obj? then None
    else
      var limit := Get(SlaOf(lane), "max_heartbeat_age_ms");
      if limit.Int? then Some(limit.n) else if limit.Bool? then Some(if limit.b then 1 else 0) else None
  }

  lemma {:induction false} MinAgeExactly(lanes: seq<Json>)
    ensures MinAge(lanes).None? <==> forall l :: l in lanes ==> Limit(l).None?
    ensures MinAge(lanes).Some? ==> forall l :: l in lanes && Limit(l).Some? ==> MinAge(lanes).value <= Limit(l).value
    ensures MinAge(lanes).Some? ==> exists l :: l in lanes && Limit(l) == MinAge(lanes)
  {
    if lanes != [] {
      var front, last := lanes[..|lanes| - 1], lanes[|lanes| - 1];
      assert lanes == front + [last];
      MinAgeExactly(front);
      assert last in lanes;
      if l :| l in front && Limit(l) == MinAge(front) { assert l in lanes; }
    }
  }

  /** How long before the report the last heartbeat was, never less than nothing. */
  function Silence(iso: Iso, now: int, r: Report): Option<int> {
    var last := ParseInstant(iso, Get(RuntimeOf(r), "last_heartbeat_at"));
    var made := ParseInstant(iso, Get(r, "generated_at"));
    if last.None? then None
    else
      var age := (if made.Some? then made.value else now) - last.value;
      Some(if age < 0 then 0 else age)
  }

  /** The heartbeat invariant holds exactly when the last heartbeat has a readable time and lies no further back than any
      lane allows, or than half a minute when no lane says. */
  lemma HeartbeatExactly(iso: Iso, now: int, r: Report)
    ensures var age, lanes := Silence(iso, now, r), LanesOf(r);
            HeartbeatOk(iso, now, r) <==>
            && age.Some?
            && (if forall l :: l in lanes ==> Limit(l).None? then age.value <= 30000
                else forall l :: l in lanes && Limit(l).Some? ==> age.value <= Limit(l).value)
  {
    hide MinAge, Limit, ParseInstant;
    MinAgeExactly(LanesOf(r));
  }

  /** A verdict that anyone can check from the evidence it is given with. */
  predicate EvidenceDecides(v: Invariant) {
    var e := v.evidence;
    match v.id
    case ContractValid => v.status == Pass <==> Get(e, "errors") == Arr([])
    case Heartbeat =>
      v.status == Pass <==> Get(e, "age_ms").Int? && Get(e, "max_heartbeat_age_ms").Int?
                            && Get(e, "age_ms").n <= Get(e, "max_heartbeat_age_ms").n
    case ReplayLag =>
      && Get(e, "replay_lag_events").Int? && Get(e, "allowed_replay_lag_events").Int?
      && (v.status == Pass <==> Get(e, "replay_lag_events").n <= Get(e, "allowed_replay_lag_events").n)
    case Shadow => v.status == Pass <==> Get(e, "stores") == Arr([])
    case DiskPressure => v.status == Pass <==> Get(e, "pressure") !in {Str("critical"), Str("unknown")}
    case DirtyOpen => v.status == Pass <==> !Truthy(Get(e, "last_dirty_open_at"))
  }

  lemma EvidenceOfState(iso: Iso, now: int, r: Report)
    ensures var invs := StateInvariants(iso, now, r);
            |invs| == 5 && forall i :: 0 <= i < 5 ==> EvidenceDecides(invs[i]) && (invs[i].status == Pass <==> invs[i].severity == Info)
  {
    hide HeartbeatAge, MaxAge, TotalLag, AllowedLag, ShadowFailures, LanesOf, StoresOf, PressureOf, RuntimeOf, DiskOf;
  }

  /** Every verdict of every report can be checked from its own evidence, and only passing ones are mere information. */
  lemma EvidenceExactly(iso: Iso, now: int, r: Report, v: Invariant)
    requires v in Verify(iso, now, r)
    ensures EvidenceDecides(v) && (v.status == Pass <==> v.severity == Info)
  {
    hide StateInvariants, ReportErrors, EvidenceDecides;
    EvidenceOfState(iso, now, r);
    ContractEvidence(ReportErrors(iso, r));
    DiagnoseIs(iso, now, r);
  }

  lemma ContractEvidence(errors: Errors)
    ensures var v := ContractInvariant(errors); EvidenceDecides(v) && (v.status == Pass <==> v.severity == Info)
  {
    assert |Texts(errors).items| == |errors|;
  }
}
