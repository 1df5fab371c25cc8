/** The written diagnosis against the written invariants: what a reader of the report can check without the program. */
module DiagnosisTexts {
  import opened Text
  import opened Json
  import opened Reports
  import opened FreshDiagnosis
  import Causes = Diagnoses
  import Gates

  /** An item of the invariants list that did not pass. */
  predicate Fails(item: Json) {
    item.Obj? && Get(item.fields, "status") in {Str("warn"), Str("fail")}
  }

  /** Some failing item has this text under this key. */
  ghost predicate FailingWith(items: seq<Json>, key: string, text: string) {
    exists i :: 0 <= i < |items| && Fails(items[i]) && Get(items[i].fields, key) == Str(text)
  }

  /** The texts listed under a key of a written diagnosis. */
  predicate Lists(d: Fields, key: string, text: string) {
    Str(text) in ItemsOf(Get(d, key))
  }

  lemma TextsHas(names: seq<string>, text: string)
    ensures Texts(names).Arr? && (Str(text) in Texts(names).items <==> text in names)
  {
    var items := Texts(names).items;
    assert |items| == |names| && forall i :: 0 <= i < |names| ==> items[i] == Str(names[i]);
    if text in names {
      var i :| 0 <= i < |names| && names[i] == text;
      assert items[i] == Str(text);
    }
  }

  /** What an item shows of its invariant. */
  ghost predicate Shows(j: Json, v: Invariant) {
    && j.Obj? && Get(j.fields, "id") == Str(IdText(v.id)) && Get(j.fields, "remediation") == Str(RemedyText(v.id))
    && (Fails(j) <==> v.status != Pass)
    && (Get(j.fields, "status") == Str("fail") <==> v.status == Fail)
    && (Get(j.fields, "severity") == Str("critical") <==> v.severity == Critical)
  }

  lemma ItemShows(v: Invariant)
    ensures Shows(InvariantJson(v), v)
  {
  }

  lemma ItemsShow(invs: seq<Invariant>)
    ensures |InvariantItems(invs)| == |invs| && forall i :: 0 <= i < |invs| ==> Shows(InvariantItems(invs)[i], invs[i])
  {
    hide Shows, InvariantJson, InvariantItems;
    if invs == [] { NoItems(); } else { ItemsAt(invs, 0); }
    forall i | 0 <= i < |invs| ensures Shows(InvariantItems(invs)[i], invs[i]) {
      ItemsAt(invs, i);
      ItemShows(invs[i]);
    }
  }

  lemma NoItems()
    ensures InvariantItems([]) == []
  {
  }

  lemma FailingIds(invs: seq<Invariant>, text: string)
    ensures FailingWith(InvariantItems(invs), "id", text) <==> exists id :: id in NotPassing(invs) && IdText(id) == text
  {
    hide IdText, RemedyText, Fails, InvariantItems, Get;
    var items := InvariantItems(invs);
    ItemsShow(invs);
    if id :| id in NotPassing(invs) && IdText(id) == text {
      var v :| v in invs && v.status != Pass && v.id == id;
      var i :| 0 <= i < |invs| && invs[i] == v;
      assert Shows(items[i], invs[i]);
    }
    if i :| 0 <= i < |items| && Fails(items[i]) && Get(items[i].fields, "id") == Str(text) {
      assert Shows(items[i], invs[i]) && invs[i] in invs;
    }
  }

  lemma FailingRemedies(invs: seq<Invariant>, text: string)
    ensures FailingWith(InvariantItems(invs), "remediation", text) <==>
            exists id :: id in NotPassing(invs) && RemedyText(id) == text
  {
    hide IdText, RemedyText, Fails, InvariantItems, Get;
    var items := InvariantItems(invs);
    ItemsShow(invs);
    if id :| id in NotPassing(invs) && RemedyText(id) == text {
      var v :| v in invs && v.status != Pass && v.id == id;
      var i :| 0 <= i < |invs| && invs[i] == v;
      assert Shows(items[i], invs[i]);
    }
    if i :| 0 <= i < |items| && Fails(items[i]) && Get(items[i].fields, "remediation") == Str(text) {
      assert Shows(items[i], invs[i]) && invs[i] in invs;
    }
  }

  /** The lists of a written diagnosis, one by one. */
  lemma DiagnosisParts(d: Diagnosis)
    ensures var actions := set a | a in d.safeActions :: SafeActionText(a);
            && Get(DiagnosisFields(d), "causes") == Texts(SortedSet(set c | c in d.causes :: CauseText(c)))
            && Get(DiagnosisFields(d), "affected_lanes") == Texts(SortedSet(d.affectedLanes))
            && Get(DiagnosisFields(d), "safe_actions") ==
               Texts(if actions == {} then ["continue_normal_operation"] else SortedSet(actions))
            && Get(DiagnosisFields(d), "blocked_actions") == Texts(SortedSet(set a | a in d.blockedActions :: BlockedActionText(a)))
            && Get(DiagnosisFields(d), "status") == Str(StatusText(d.status))
            && Get(DiagnosisFields(d), "severity") == Str(SeverityText(d.severity))
            && Get(DiagnosisFields(d), "summary") == Str(SummaryText(d.status))
  {
    hide StatusText, SeverityText, SummaryText, CauseText, SafeActionText, BlockedActionText, SortedSet, Texts;
  }

  lemma SetLists(names: set<string>, text: string)
    ensures Texts(SortedSet(names)).Arr? && (Str(text) in Texts(SortedSet(names)).items <==> text in names)
  {
    hide SortedSet, Texts;
    TextsHas(SortedSet(names), text);
  }

  lemma CausesListed(d: Diagnosis, text: string)
    ensures Lists(DiagnosisFields(d), "causes", text) <==> exists c :: c in d.causes && CauseText(c) == text
  {
    hide DiagnosisFields, SortedSet, Texts, CauseText, Get;
    DiagnosisParts(d);
    SetLists(set c | c in d.causes :: CauseText(c), text);
  }

  /** The affected lanes are written each once, in order. */
  lemma AffectedListed(d: Diagnosis, text: string)
    ensures Lists(DiagnosisFields(d), "affected_lanes", text) <==> text in d.affectedLanes
    ensures Get(DiagnosisFields(d), "affected_lanes") == Texts(SortedSet(d.affectedLanes)) && Sorted(SortedSet(d.affectedLanes))
  {
    hide DiagnosisFields, SortedSet, Texts, Get, Sorted;
    DiagnosisParts(d);
    SetLists(d.affectedLanes, text);
    SortedSetSorted(d.affectedLanes);
  }

  lemma ActionsListed(d: Diagnosis, text: string)
    ensures Lists(DiagnosisFields(d), "safe_actions", text) <==>
            if d.safeActions == {} then text == "continue_normal_operation"
            else exists a :: a in d.safeActions && SafeActionText(a) == text
  {
    hide DiagnosisFields, SortedSet, Texts, SafeActionText, Get;
    DiagnosisParts(d);
    var actions := set a | a in d.safeActions :: SafeActionText(a);
    SetLists(actions, text);
    TextsHas(["continue_normal_operation"], text);
    if a :| a in d.safeActions { assert SafeActionText(a) in actions; }
  }

  /** The causes that are written down are the ids of the invariants that are written down as not passing, and the one that
      the collection may add. */
  lemma CausesMatchInvariants(iso: Iso, now: int, r: Report, text: string)
    ensures Lists(DiagnosisFields(Diagnose(iso, now, r)), "causes", text) <==>
            || FailingWith(InvariantItems(Verify(iso, now, r)), "id", text)
            || (exists c :: c in CollectionCauses(r) && CauseText(c) == text)
  {
    hide *;
    var d, invs := Diagnose(iso, now, r), Verify(iso, now, r);
    CausesListed(d, text);
    FailingIds(invs, text);
    CausesAre(iso, now, r);
    BrokenTexts();
    if c :| c in d.causes && CauseText(c) == text {
      if c.Broken? { assert c.id in NotPassing(invs); }
    }
    if id :| id in NotPassing(invs) && IdText(id) == text { assert Broken(id) in d.causes; }
  }

  lemma CausesAre(iso: Iso, now: int, r: Report)
    ensures forall c :: c in Diagnose(iso, now, r).causes <==>
              (if c.Broken? then c.id in NotPassing(Verify(iso, now, r)) else c in CollectionCauses(r))
    ensures forall c :: c in CollectionCauses(r) ==> !c.Broken?
    ensures forall a :: a in Diagnose(iso, now, r).safeActions <==>
              (if a.Remedy? then a.id in NotPassing(Verify(iso, now, r)) else DiskTight(r))
  {
    hide Verify, NotPassing, StatusOf, AffectedLanes, DiskTight;
  }

  lemma BrokenTexts()
    ensures forall id :: CauseText(Broken(id)) == IdText(id) && SafeActionText(Remedy(id)) == RemedyText(id)
    ensures SafeActionText(PurgePreview) == "purge_preview"
  {
  }

  /** The safe actions that are written down are the remediations of the invariants that are written down as not passing,
      and a purge preview on a tight disk; only when there is neither is normal operation advised. */
  lemma ActionsMatchInvariants(iso: Iso, now: int, r: Report, text: string)
    ensures var failing := exists other :: FailingWith(InvariantItems(Verify(iso, now, r)), "remediation", other);
            Lists(DiagnosisFields(Diagnose(iso, now, r)), "safe_actions", text) <==>
            || FailingWith(InvariantItems(Verify(iso, now, r)), "remediation", text)
            || (DiskTight(r) && text == "purge_preview")
            || (!failing && !DiskTight(r) && text == "continue_normal_operation")
  {
    hide *;
    var d, invs := Diagnose(iso, now, r), Verify(iso, now, r);
    ActionsListed(d, text);
    FailingRemedies(invs, text);
    CausesAre(iso, now, r);
    BrokenTexts();
    if d.safeActions == {} {
      forall other
        ensures FailingWith(InvariantItems(invs), "remediation", other) ==> exists id :: id in NotPassing(invs) && RemedyText(id) == other
      {
        FailingRemedies(invs, other);
      }
      assert forall id :: id in NotPassing(invs) ==> Remedy(id) in d.safeActions;
      assert DiskTight(r) ==> PurgePreview in d.safeActions;
    } else {
      var a :| a in d.safeActions;
      if a.Remedy? { FailingRemedies(invs, RemedyText(a.id)); }
    }
    if a :| a in d.safeActions && SafeActionText(a) == text {
      if a.Remedy? { assert a.id in NotPassing(invs); }
    }
    if id :| id in NotPassing(invs) && RemedyText(id) == text { assert Remedy(id) in d.safeActions; }
    if DiskTight(r) && text == "purge_preview" { assert PurgePreview in d.safeActions; }
  }

  ghost predicate AnyFails(items: seq<Json>) {
    exists i :: 0 <= i < |items| && Fails(items[i])
  }

  /** A critical item that failed. */
  ghost predicate AnyCritical(items: seq<Json>) {
    exists i :: 0 <= i < |items| && items[i].Obj? && Get(items[i].fields, "status") == Str("fail")
                && Get(items[i].fields, "severity") == Str("critical")
  }

  lemma ItemsTell(invs: seq<Invariant>)
    ensures AnyFails(InvariantItems(invs)) <==> exists v :: v in invs && v.status != Pass
    ensures AnyCritical(InvariantItems(invs)) <==> CriticalFailure(invs)
  {
    hide InvariantItems, Get, Fails, IdText, RemedyText;
    var items := InvariantItems(invs);
    ItemsShow(invs);
    forall i | 0 <= i < |items| ensures Shows(items[i], invs[i]) && invs[i] in invs {}
    if v :| v in invs && v.severity == Critical && v.status == Fail {
      var i :| 0 <= i < |invs| && invs[i] == v;
      assert Shows(items[i], invs[i]);
    }
    if v :| v in invs && v.status != Pass {
      var i :| 0 <= i < |invs| && invs[i] == v;
      assert Shows(items[i], invs[i]);
    }
  }

  /** The written status follows from the written invariants: unsafe when a critical one failed, degraded when any other did
      not pass, healthy otherwise. */
  lemma StatusMatchesInvariants(iso: Iso, now: int, r: Report)
    ensures var items, d := InvariantItems(Verify(iso, now, r)), DiagnosisFields(Diagnose(iso, now, r));
            && (Get(d, "status") == Str("unsafe") <==> AnyCritical(items))
            && (Get(d, "status") == Str("degraded") <==> AnyFails(items) && !AnyCritical(items))
            && (Get(d, "status") == Str("healthy") <==> !AnyFails(items))
  {
    hide *;
    ItemsTell(Verify(iso, now, r));
    DiagnosisParts(Diagnose(iso, now, r));
    StatusRead(iso, now, r);
    StatusFrom(Verify(iso, now, r));
    StatusNames(Diagnose(iso, now, r).status);
  }

  // ---------- every text by its own condition ----------

  lemma IdTexts(id: InvariantId)
    ensures IdText(id) == "report.contract_valid" <==> id == ContractValid
    ensures IdText(id) == "heartbeat.within_sla" <==> id == Heartbeat
    ensures IdText(id) == "journal.replay_lag_within_sla" <==> id == ReplayLag
    ensures IdText(id) == "store.shadow_verified_when_present" <==> id == Shadow
    ensures IdText(id) == "resources.disk_pressure_below_critical" <==> id == DiskPressure
    ensures IdText(id) == "runtime.no_unrecovered_dirty_open" <==> id == DirtyOpen
    ensures IdText(id)[0] != 'c'
  {
  }

  lemma CauseTexts(c: Cause)
    ensures c.Broken? ==> CauseText(c) == IdText(c.id)
    ensures CauseText(c) == "collection.partial" <==> c == CollectionPartial
    ensures CauseText(c) == "collection.failed" <==> c == CollectionFailed
  {
    if c.Broken? { IdTexts(c.id); }
  }

  /** Every cause by its text and its own condition. */
  lemma WrittenCausesExactly(iso: Iso, now: int, r: Report)
    ensures var d := DiagnosisFields(Diagnose(iso, now, r));
            && (Lists(d, "causes", "report.contract_valid") <==> ReportErrors(iso, r) != [])
            && (Lists(d, "causes", "heartbeat.within_sla") <==> !HeartbeatOk(iso, now, r))
            && (Lists(d, "causes", "journal.replay_lag_within_sla") <==> !LagOk(r))
            && (Lists(d, "causes", "store.shadow_verified_when_present") <==> ShadowFailures(StoresOf(r)) != [])
            && (Lists(d, "causes", "resources.disk_pressure_below_critical") <==> !PressureOk(r))
            && (Lists(d, "causes", "runtime.no_unrecovered_dirty_open") <==> !CleanOpen(r))
            && (Lists(d, "causes", "collection.partial") <==> Causes.CollectionStatus(r) == Str("partial"))
            && (Lists(d, "causes", "collection.failed") <==> Causes.CollectionStatus(r) == Str("failed"))
  {
    hide *;
    var d := Diagnose(iso, now, r);
    Causes.DiagnoseIs(iso, now, r);
    Causes.CausesExactly(ReportErrors(iso, r), iso, now, r);
    Causes.CollectionExactly(iso, now, r);
    CauseListed(d, Broken(ContractValid));
    CauseListed(d, Broken(Heartbeat));
    CauseListed(d, Broken(ReplayLag));
    CauseListed(d, Broken(Shadow));
    CauseListed(d, Broken(DiskPressure));
    CauseListed(d, Broken(DirtyOpen));
    CauseListed(d, CollectionPartial);
    CauseListed(d, CollectionFailed);
    TextsOfCauses();
  }

  lemma TextsOfCauses()
    ensures CauseText(Broken(ContractValid)) == "report.contract_valid" && CauseText(Broken(Heartbeat)) == "heartbeat.within_sla"
    ensures CauseText(Broken(ReplayLag)) == "journal.replay_lag_within_sla"
    ensures CauseText(Broken(Shadow)) == "store.shadow_verified_when_present"
    ensures CauseText(Broken(DiskPressure)) == "resources.disk_pressure_below_critical"
    ensures CauseText(Broken(DirtyOpen)) == "runtime.no_unrecovered_dirty_open"
    ensures CauseText(CollectionPartial) == "collection.partial" && CauseText(CollectionFailed) == "collection.failed"
  {
  }

  lemma CauseTextsDiffer(a: Cause, b: Cause)
    requires CauseText(a) == CauseText(b)
    ensures a == b
  {
    hide CauseText, IdText;
    CauseTexts(a);
    CauseTexts(b);
    if a.Broken? { IdTexts(a.id); }
    if b.Broken? { IdTexts(b.id); }
  }

  lemma CauseListed(d: Diagnosis, c: Cause)
    ensures Lists(DiagnosisFields(d), "causes", CauseText(c)) <==> c in d.causes
  {
    hide *;
    CausesListed(d, CauseText(c));
    if x :| x in d.causes && CauseText(x) == CauseText(c) { CauseTextsDiffer(x, c); }
  }

  lemma RemedyTexts(id: InvariantId)
    ensures RemedyText(id) == "fix_report_contract" <==> id == ContractValid
    ensures RemedyText(id) == "restart_or_mark_stale" <==> id == Heartbeat
    ensures RemedyText(id) == "run_replay" <==> id == ReplayLag
    ensures RemedyText(id) == "verify_or_rebuild_shadow" <==> id == Shadow
    ensures RemedyText(id) == "compact_or_purge_preview" <==> id == DiskPressure
    ensures RemedyText(id) == "verify_before_ready" <==> id == DirtyOpen
    ensures RemedyText(id) != "purge_preview" && RemedyText(id) != "continue_normal_operation"
  {
  }

  lemma ActionTextsDiffer(a: SafeAction, b: SafeAction)
    requires SafeActionText(a) == SafeActionText(b)
    ensures a == b
  {
    hide RemedyText;
    if a.Remedy? { RemedyTexts(a.id); }
    if b.Remedy? { RemedyTexts(b.id); }
  }

  lemma ActionListed(d: Diagnosis, a: SafeAction)
    ensures Lists(DiagnosisFields(d), "safe_actions", SafeActionText(a)) <==> a in d.safeActions
  {
    hide *;
    ActionsListed(d, SafeActionText(a));
    NoActionIsNormal(a);
    if x :| x in d.safeActions && SafeActionText(x) == SafeActionText(a) { ActionTextsDiffer(x, a); }
  }

  lemma NoActionIsNormal(a: SafeAction)
    ensures SafeActionText(a) != "continue_normal_operation"
  {
    hide RemedyText;
    if a.Remedy? { RemedyTexts(a.id); }
  }

  lemma TextsOfActions()
    ensures SafeActionText(Remedy(ContractValid)) == "fix_report_contract"
    ensures SafeActionText(Remedy(Heartbeat)) == "restart_or_mark_stale" && SafeActionText(Remedy(ReplayLag)) == "run_replay"
    ensures SafeActionText(Remedy(Shadow)) == "verify_or_rebuild_shadow"
    ensures SafeActionText(Remedy(DiskPressure)) == "compact_or_purge_preview"
    ensures SafeActionText(Remedy(DirtyOpen)) == "verify_before_ready" && SafeActionText(PurgePreview) == "purge_preview"
  {
  }

  /** Every safe action by its text and its own condition. */
  lemma WrittenActionsExactly(iso: Iso, now: int, r: Report)
    ensures var d := DiagnosisFields(Diagnose(iso, now, r));
            && (Lists(d, "safe_actions", "fix_report_contract") <==> ReportErrors(iso, r) != [])
            && (Lists(d, "safe_actions", "restart_or_mark_stale") <==> !HeartbeatOk(iso, now, r))
            && (Lists(d, "safe_actions", "run_replay") <==> !LagOk(r))
            && (Lists(d, "safe_actions", "verify_or_rebuild_shadow") <==> ShadowFailures(StoresOf(r)) != [])
            && (Lists(d, "safe_actions", "compact_or_purge_preview") <==> !PressureOk(r))
            && (Lists(d, "safe_actions", "verify_before_ready") <==> !CleanOpen(r))
            && (Lists(d, "safe_actions", "purge_preview") <==> DiskTight(r))
  {
    hide *;
    var d := Diagnose(iso, now, r);
    Causes.DiagnoseIs(iso, now, r);
    Causes.CausesExactly(ReportErrors(iso, r), iso, now, r);
    Causes.ActionsExactly(iso, now, r);
    ActionListed(d, Remedy(ContractValid));
    ActionListed(d, Remedy(Heartbeat));
    ActionListed(d, Remedy(ReplayLag));
    ActionListed(d, Remedy(Shadow));
    ActionListed(d, Remedy(DiskPressure));
    ActionListed(d, Remedy(DirtyOpen));
    ActionListed(d, PurgePreview);
    TextsOfActions();
  }

  lemma BlockedListed(d: Diagnosis, text: string)
    ensures Lists(DiagnosisFields(d), "blocked_actions", text) <==>
            exists a :: a in d.blockedActions && BlockedActionText(a) == text
  {
    hide DiagnosisFields, SortedSet, Texts, BlockedActionText, Get;
    DiagnosisParts(d);
    SetLists(set a | a in d.blockedActions :: BlockedActionText(a), text);
  }

  lemma BlockedTexts(a: BlockedAction)
    ensures BlockedActionText(a) == "agent_action_requiring_fresh_state" <==> a == FreshStateAction
    ensures BlockedActionText(a) == "destructive_purge_without_policy_grant" <==> a == DestructivePurge
  {
  }

  /** The two blocked actions, each by its own condition. */
  lemma WrittenBlocksExactly(iso: Iso, now: int, r: Report)
    ensures var d := DiagnosisFields(Diagnose(iso, now, r));
            && (Lists(d, "blocked_actions", "agent_action_requiring_fresh_state") <==> !HeartbeatOk(iso, now, r) || !LagOk(r))
            && (Lists(d, "blocked_actions", "destructive_purge_without_policy_grant") <==> DiskTight(r))
  {
    hide *;
    var d := Diagnose(iso, now, r);
    BlockedListed(d, "agent_action_requiring_fresh_state");
    BlockedListed(d, "destructive_purge_without_policy_grant");
    forall a ensures BlockedActionText(a) == "agent_action_requiring_fresh_state" <==> a == FreshStateAction { BlockedTexts(a); }
    forall a ensures BlockedActionText(a) == "destructive_purge_without_policy_grant" <==> a == DestructivePurge { BlockedTexts(a); }
    Causes.ActionsExactly(iso, now, r);
  }

  /** The severity and the summary of a written diagnosis. */
  lemma WrittenVerdictExactly(iso: Iso, now: int, r: Report)
    ensures var d := DiagnosisFields(Diagnose(iso, now, r));
            var unsafe, failing := ReportErrors(iso, r) != [] || !PressureOk(r), !HeartbeatOk(iso, now, r) || !LagOk(r);
            var warning := ShadowFailures(StoresOf(r)) != [] || !CleanOpen(r);
            && Get(d, "severity") == Str(if unsafe then "critical" else if failing then "error" else if warning then "warning" else "info")
            && Get(d, "summary") == Str(SummaryFor(unsafe, failing || warning))
  {
    hide *;
    var d := Diagnose(iso, now, r);
    DiagnosisParts(d);
    VerdictRead(iso, now, r);
    Causes.DiagnoseIs(iso, now, r);
    Gates.VerifyGivesSix(ReportErrors(iso, r), iso, now, r);
    Gates.SixStatus(Verify(iso, now, r), ReportErrors(iso, r) == [], HeartbeatOk(iso, now, r), LagOk(r),
                    ShadowFailures(StoresOf(r)) == [], PressureOk(r), CleanOpen(r));
    SeverityTexts();
    SummaryTexts();
  }

  function SummaryFor(unsafe: bool, troubled: bool): string {
    if unsafe then "Critical state integrity invariant failed; restrict mutation and require repair planning."
    else if troubled then "One or more state integrity invariants need attention before full trust."
    else "All required state integrity invariants pass."
  }

  lemma VerdictRead(iso: Iso, now: int, r: Report)
    ensures (Diagnose(iso, now, r).status, Diagnose(iso, now, r).severity) == StatusOf(Verify(iso, now, r))
  {
    hide Verify, NotPassing, StatusOf, AffectedLanes, DiskTight, CollectionCauses;
  }

  lemma SeverityTexts()
    ensures SeverityText(Critical) == "critical" && SeverityText(Error) == "error" && SeverityText(Warning) == "warning"
    ensures SeverityText(Info) == "info"
  {
  }

  lemma SummaryTexts()
    ensures forall troubled :: SummaryFor(true, troubled) == SummaryText(Unsafe)
    ensures SummaryFor(false, true) == SummaryText(Degraded) && SummaryFor(false, false) == SummaryText(Healthy)
  {
    hide SummaryFor, SummaryText;
    UnsafeText(true);
    UnsafeText(false);
    DegradedText();
    HealthyText();
  }

  lemma UnsafeText(troubled: bool)
    ensures SummaryFor(true, troubled) == SummaryText(Unsafe)
  {
  }

  lemma DegradedText()
    ensures SummaryFor(false, true) == SummaryText(Degraded)
  {
  }

  lemma HealthyText()
    ensures SummaryFor(false, false) == SummaryText(Healthy)
  {
  }

  // ---------- controls ----------

  /** The controls list offers this id in this mode. */
  ghost predicate Offers(items: seq<Json>, id: string, action: string, mode: string) {
    exists i :: 0 <= i < |items| && items[i].Obj? && Get(items[i].fields, "id") == Str(id)
                && Get(items[i].fields, "action") == Str(action) && Get(items[i].fields, "mode") == Str(mode)
  }

  lemma {:induction false} ControlAt(cs: seq<Control>, i: nat)
    requires i < |cs|
    ensures |ControlItems(cs)| == |cs| && ControlItems(cs)[i] == ControlJson(cs[i])
  {
    if i < |cs| - 1 {
      ControlAt(cs[..|cs| - 1], i);
    } else if |cs| > 1 {
      ControlAt(cs[..|cs| - 1], 0);
    }
  }

  lemma ControlShows(c: Control)
    ensures ControlJson(c).Obj?
    ensures var d := ControlJson(c).fields;
            && (Get(d, "id") == Str("run_replay") <==> c == RunReplay)
            && (Get(d, "id") == Str("disk_pressure_purge_preview") <==> c == PurgePreviewControl)
            && (Get(d, "id") == Str("verify_dirty_open") <==> c == VerifyDirtyOpen)
            && Get(d, "action") == Str(match c case RunReplay => "run_replay" case PurgePreviewControl => "purge_preview"
                                               case VerifyDirtyOpen => "verify_before_ready")
            && Get(d, "mode") == Str(if c == PurgePreviewControl then "manual_approval_required" else "automatic_allowed")
  {
  }

  /** The controls as they are written: each for its own trouble, and only the one that looks for something to delete waits
      for approval. */
  lemma ControlsTell(iso: Iso, now: int, r: Report)
    ensures var items := ControlItems(ControlsFor(iso, now, r));
            && (Offers(items, "run_replay", "run_replay", "automatic_allowed") <==> !LagOk(r))
            && (Offers(items, "disk_pressure_purge_preview", "purge_preview", "manual_approval_required") <==>
                Get(FieldsOf(DiskOf(r)), "pressure") in {Str("warning"), Str("critical")})
            && (Offers(items, "verify_dirty_open", "verify_before_ready", "automatic_allowed") <==> !CleanOpen(r))
  {
    hide ControlItems, ControlJson, ControlsFor, LagOk, CleanOpen, Get;
    var cs := ControlsFor(iso, now, r);
    var items := ControlItems(cs);
    Causes.ControlsExactly(iso, now, r);
    TightExactly(r);
    if cs == [] { NoControls(); } else { ControlAt(cs, 0); }
    forall i | 0 <= i < |cs| ensures items[i] == ControlJson(cs[i]) && items[i].Obj? {
      ControlAt(cs, i);
      ControlShows(cs[i]);
    }
    ControlShows(RunReplay);
    ControlShows(PurgePreviewControl);
    ControlShows(VerifyDirtyOpen);
    forall i | 0 <= i < |cs|
      ensures (Get(items[i].fields, "id") == Str("run_replay") <==> cs[i] == RunReplay)
      ensures (Get(items[i].fields, "id") == Str("disk_pressure_purge_preview") <==> cs[i] == PurgePreviewControl)
      ensures (Get(items[i].fields, "id") == Str("verify_dirty_open") <==> cs[i] == VerifyDirtyOpen)
    {
      ControlShows(cs[i]);
    }
  }

  lemma NoControls()
    ensures ControlItems([]) == []
  {
  }

  lemma TightExactly(r: Report)
    ensures DiskTight(r) <==> Get(FieldsOf(DiskOf(r)), "pressure") in {Str("warning"), Str("critical")}
  {
  }

  lemma StatusNames(s: Status)
    ensures StatusText(s) == "unsafe" <==> s == Unsafe
    ensures StatusText(s) == "degraded" <==> s == Degraded
    ensures StatusText(s) == "healthy" <==> s == Healthy
  {
  }

  lemma StatusFrom(invs: seq<Invariant>)
    ensures var failing := exists v :: v in invs && v.status != Pass;
            && (StatusOf(invs).0 == Unsafe <==> CriticalFailure(invs))
            && (StatusOf(invs).0 == Healthy <==> !failing)
  {
    if v :| v in invs && v.status != Pass {
      if v.status == Fail { assert AnyAt(invs, Fail); } else { assert AnyAt(invs, Warn); }
    }
  }

  lemma StatusRead(iso: Iso, now: int, r: Report)
    ensures Diagnose(iso, now, r).status == StatusOf(Verify(iso, now, r)).0
  {
    hide Verify, NotPassing, StatusOf, AffectedLanes, DiskTight, CollectionCauses;
  }
}
