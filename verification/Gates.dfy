/** The scorecard (scorecard.py) and the trust gate (trust.py) over one report. */
module Gates {
  import opened Text
  import opened Sums
  import opened Json
  import opened Reports

  // ---------- scorecard ----------

  datatype ScoreStatus = Ready | Watch | DegradedScore | BlockedScore

  datatype Gate = ContractGate | NotUnsafe | NoCriticalInvariants | DiskNotCritical

  datatype Scorecard = Scorecard(status: ScoreStatus, score: int, failing: set<Gate>, failCount: nat, warnCount: nat,
                                 criticalCount: nat)

  function CountLevel(invs: seq<Invariant>, level: Level): nat {
    if invs == [] then 0 else CountLevel(invs[..|invs| - 1], level) + if invs[|invs| - 1].status == level then 1 else 0
  }

  function CountCritical(invs: seq<Invariant>): nat {
    if invs == [] then 0
    else
      var last := invs[|invs| - 1];
      CountCritical(invs[..|invs| - 1]) + if last.severity == Critical && last.status == Fail then 1 else 0
  }

  predicate Attested(r: Report) {
    Truthy(Get(FieldsOf(Get(r, "attestation")), "signed"))
  }

  function FailingGates(errors: Errors, status: Status, critical: nat, pressure: Json): set<Gate> {
    (if errors != [] then {ContractGate} else {}) +
    (if status == Unsafe then {NotUnsafe} else {}) +
    (if critical > 0 then {NoCriticalInvariants} else {}) +
    (if pressure == Str("critical") then {DiskNotCritical} else {})
  }

  function RawScore(critical: nat, fails: nat, warns: nat, lagging: bool, pressure: Json, attested: bool): int {
    100 - Min(critical * 20, 40) - Min(fails * 10, 30) - Min(warns * 5, 15)
    - (if lagging then 10 else 0)
    - (if pressure == Str("warning") then 10 else 0) - (if pressure == Str("critical") then 20 else 0)
    - (if attested then 0 else 5)
  }

  function ScoreOf(critical: nat, fails: nat, warns: nat, lagging: bool, pressure: Json, attested: bool): int {
    var raw := RawScore(critical, fails, warns, lagging, pressure, attested);
    Min(if raw < 0 then 0 else raw, 100)
  }

  /** The sequence of deductions of the source: never below 0 or above 100, and all hundred points exactly when there is
      nothing at all to deduct. */
  method Score(critical: nat, fails: nat, warns: nat, lagging: bool, pressure: Json, attested: bool) returns (score: int)
    ensures score == ScoreOf(critical, fails, warns, lagging, pressure, attested)
    ensures 0 <= score <= 100
    ensures score == 100 <==>
            critical == 0 && fails == 0 && warns == 0 && !lagging && !TightText(pressure) && attested
  {
    score := 100;
    score := score - Min(critical * 20, 40);
    score := score - Min(fails * 10, 30);
    score := score - Min(warns * 5, 15);
    if lagging { score := score - 10; }
    if pressure == Str("warning") { score := score - 10; }
    if pressure == Str("critical") { score := score - 20; }
    if !attested { score := score - 5; }
    if score > 100 { score := 100; }
    if score < 0 { score := 0; }
  }

  predicate TightText(pressure: Json) {
    pressure == Str("warning") || pressure == Str("critical")
  }

  function Strain(pressure: Json): nat {
    if pressure == Str("critical") then 2 else if pressure == Str("warning") then 1 else 0
  }

  /** The formula falls with every count and every fault. */
  lemma WorseNeverScoresMore(critical: nat, fails: nat, warns: nat, lagging: bool, pressure: Json, attested: bool,
                             critical': nat, fails': nat, warns': nat, lagging': bool, pressure': Json, attested': bool)
    requires critical <= critical' && fails <= fails' && warns <= warns' && (lagging ==> lagging')
    requires Strain(pressure) <= Strain(pressure') && (attested' ==> attested)
    ensures ScoreOf(critical', fails', warns', lagging', pressure', attested')
            <= ScoreOf(critical, fails, warns, lagging, pressure, attested)
  {
    MinGrows(critical * 20, critical' * 20, 40);
    MinGrows(fails * 10, fails' * 10, 30);
    MinGrows(warns * 5, warns' * 5, 15);
  }

  lemma MinGrows(a: int, b: int, cap: int)
    requires a <= b
    ensures Min(a, cap) <= Min(b, cap)
  {
  }

  function ScorecardWith(errors: Errors, invs: seq<Invariant>, r: Report): Scorecard {
    var status := StatusOf(invs).0;
    var fails, warns, critical := CountLevel(invs, Fail), CountLevel(invs, Warn), CountCritical(invs);
    var score := ScoreOf(critical, fails, warns, TotalLag(LanesOf(r)) != 0, PressureOf(r), Attested(r));
    var failing := FailingGates(errors, status, critical, PressureOf(r));
    Scorecard(if failing != {} then BlockedScore else if score >= 90 then Ready else if score >= 70 then Watch else DegradedScore,
              score, failing, fails, warns, critical)
  }

  function EvaluateScorecard(iso: Iso, now: int, r: Report): Scorecard {
    ScorecardWith(ReportErrors(iso, r), Verify(iso, now, r), r)
  }

  lemma ScorecardIs(iso: Iso, now: int, r: Report)
    ensures EvaluateScorecard(iso, now, r) == ScorecardWith(ReportErrors(iso, r), Verify(iso, now, r), r)
    ensures Diagnose(iso, now, r).status == StatusOf(Verify(iso, now, r)).0
  {
    hide ScorecardWith, Verify, ReportErrors, StatusOf;
  }

  /** `evaluate_scorecard`: the three counts, the deductions and the gates. */
  method MakeScorecard(iso: Iso, now: int, r: Report) returns (card: Scorecard)
    ensures card == EvaluateScorecard(iso, now, r)
  {
    hide ReportErrors, Verify, Diagnose, StatusOf, FailingGates, ScoreOf, EvaluateScorecard;
    var errors, invs, status := ReportErrors(iso, r), Verify(iso, now, r), Diagnose(iso, now, r).status;
    var fails, warns, critical := 0, 0, 0;
    for i := 0 to |invs|
      invariant fails == CountLevel(invs[..i], Fail) && warns == CountLevel(invs[..i], Warn)
      invariant critical == CountCritical(invs[..i])
    {
      assert invs[..i + 1][..i] == invs[..i];
      if invs[i].status == Fail { fails := fails + 1; }
      if invs[i].status == Warn { warns := warns + 1; }
      if invs[i].severity == Critical && invs[i].status == Fail { critical := critical + 1; }
    }
    assert invs[..|invs|] == invs;
    var lag, _ := SumLags(r);
    var score := Score(critical, fails, warns, lag != 0, PressureOf(r), Attested(r));
    var failing := FailingGates(errors, status, critical, PressureOf(r));
    card := Scorecard(if failing != {} then BlockedScore else if score >= 90 then Ready else if score >= 70 then Watch
                      else DegradedScore, score, failing, fails, warns, critical);
    ScorecardIs(iso, now, r);
  }

  lemma ScorecardOfValid(iso: Iso, now: int, r: Report)
    requires ReportErrors(iso, r) == []
    ensures EvaluateScorecard(iso, now, r) == ScorecardWith([], InvariantsWith([], iso, now, r), r)
  {
    hide ScorecardWith, InvariantsWith, ReportErrors;
  }

  // ---------- trust ----------

  datatype TrustRequest = TrustRequest(lane: string, allowDegraded: bool, requireAttestation: bool)

  datatype TrustStatus = TrustAllowed | DegradedAllowed | TrustBlocked

  datatype TrustReason = StateAllows | ContractInvalid | LaneMissing | AttestationMissing | StatusUnsafe
                       | DegradedAllowance | DegradedNeedsAllowance | LaneRestricted

  datatype TrustDecision = TrustDecision(status: TrustStatus, reason: TrustReason)

  predicate HasLane(r: Report, name: string) {
    exists lane :: lane in LanesOf(r) && lane.Obj? && Get(lane.fields, "name") == Str(name)
  }

  /** `policy_counts.get("denied", 0) > 0`. */
  predicate Denials(r: Report) {
    var denied := GetOr(FieldsOf(GetOr(FieldsOf(Get(r, "policy")), "policy_decisions", Obj(map[]))), "denied", Int(0));
    IsNumber(denied) && NumberValue(denied) > 0.0
  }

  function FirstStage(errors: Errors, status: Status, r: Report, q: TrustRequest): TrustDecision {
    if errors != [] then TrustDecision(TrustBlocked, ContractInvalid)
    else if !HasLane(r, q.lane) then TrustDecision(TrustBlocked, LaneMissing)
    else if q.requireAttestation && !Attested(r) then TrustDecision(TrustBlocked, AttestationMissing)
    else match status
      case Unsafe => TrustDecision(TrustBlocked, StatusUnsafe)
      case Degraded => if q.allowDegraded then TrustDecision(DegradedAllowed, DegradedAllowance)
                       else TrustDecision(TrustBlocked, DegradedNeedsAllowance)
      case Healthy => TrustDecision(TrustAllowed, StateAllows)
  }

  function TrustWith(errors: Errors, status: Status, r: Report, q: TrustRequest): TrustDecision {
    var first := FirstStage(errors, status, r, q);
    if first.status != TrustBlocked && (q.lane == "secure" || q.lane == "repair") && Denials(r)
    then TrustDecision(TrustBlocked, LaneRestricted) else first
  }

  /** A restricted lane with denials. */
  predicate Restricted(r: Report, q: TrustRequest) {
    (q.lane == "secure" || q.lane == "repair") && Denials(r)
  }

  /** What the request asks of the report before its status is looked at. */
  predicate Eligible(errors: Errors, r: Report, q: TrustRequest) {
    errors == [] && HasLane(r, q.lane) && (q.requireAttestation ==> Attested(r))
  }

  /** The two stages of the source, each overwriting status and reason. Which requests pass, and why any other is blocked,
      does not depend on their order except where several faults meet: then the first one listed is named. */
  method DecideTrust(errors: Errors, status: Status, r: Report, q: TrustRequest) returns (d: TrustDecision)
    ensures d == TrustWith(errors, status, r, q)
    ensures d.status == TrustAllowed <==> Eligible(errors, r, q) && status == Healthy && !Restricted(r, q)
    ensures d.status == DegradedAllowed <==> Eligible(errors, r, q) && status == Degraded && q.allowDegraded && !Restricted(r, q)
    ensures d.reason == ContractInvalid <==> errors != []
    ensures d.reason == LaneMissing <==> errors == [] && !HasLane(r, q.lane)
    ensures d.reason == AttestationMissing <==>
            errors == [] && HasLane(r, q.lane) && q.requireAttestation && !Attested(r)
    ensures d.reason == StatusUnsafe <==> Eligible(errors, r, q) && status == Unsafe
    ensures d.reason == DegradedNeedsAllowance <==> Eligible(errors, r, q) && status == Degraded && !q.allowDegraded
    ensures d.reason == LaneRestricted <==>
            Eligible(errors, r, q) && (status == Healthy || (status == Degraded && q.allowDegraded)) && Restricted(r, q)
  {
    d := TrustDecision(TrustAllowed, StateAllows);
    if errors != [] {
      d := TrustDecision(TrustBlocked, ContractInvalid);
    } else if !HasLane(r, q.lane) {
      d := TrustDecision(TrustBlocked, LaneMissing);
    } else if q.requireAttestation && !Attested(r) {
      d := TrustDecision(TrustBlocked, AttestationMissing);
    } else if status == Unsafe {
      d := TrustDecision(TrustBlocked, StatusUnsafe);
    } else if status == Degraded && q.allowDegraded {
      d := TrustDecision(DegradedAllowed, DegradedAllowance);
    } else if status == Degraded {
      d := TrustDecision(TrustBlocked, DegradedNeedsAllowance);
    }
    if d.status != TrustBlocked && (q.lane == "secure" || q.lane == "repair") {
      if Denials(r) {
        d := TrustDecision(TrustBlocked, LaneRestricted);
      }
    }
  }

  function EvaluateTrust(iso: Iso, now: int, r: Report, q: TrustRequest): TrustDecision {
    TrustWith(ReportErrors(iso, r), Diagnose(iso, now, r).status, r, q)
  }

  // ---------- the six invariants ----------

  /** What a list of six invariants can be, given which of them hold. */
  ghost predicate Six(invs: seq<Invariant>, contract: bool, heartbeat: bool, lag: bool, shadow: bool, disk: bool, clean: bool) {
    && |invs| == 6
    && invs[0].status == (if contract then Pass else Fail) && invs[0].severity == (if contract then Info else Critical)
    && invs[1].status == (if heartbeat then Pass else Fail) && invs[1].severity == (if heartbeat then Info else Error)
    && invs[2].status == (if lag then Pass else Fail) && invs[2].severity == (if lag then Info else Error)
    && invs[3].status == (if shadow then Pass else Warn) && invs[3].severity == (if shadow then Info else Warning)
    && invs[4].status == (if disk then Pass else Fail) && invs[4].severity == (if disk then Info else Critical)
    && invs[5].status == (if clean then Pass else Warn) && invs[5].severity == (if clean then Info else Warning)
  }

  lemma VerifyGivesSix(errors: Errors, iso: Iso, now: int, r: Report)
    ensures Six(InvariantsWith(errors, iso, now, r), errors == [], HeartbeatOk(iso, now, r), LagOk(r),
                ShadowFailures(StoresOf(r)) == [], PressureOk(r), CleanOpen(r))
  {
  }

  function N(c: bool): nat {
    if c then 1 else 0
  }

  lemma SixStatus(invs: seq<Invariant>, contract: bool, heartbeat: bool, lag: bool, shadow: bool, disk: bool, clean: bool)
    requires Six(invs, contract, heartbeat, lag, shadow, disk, clean)
    ensures StatusOf(invs) == if !contract || !disk then (Unsafe, Critical)
                              else if !heartbeat || !lag then (Degraded, Error)
                              else if !shadow || !clean then (Degraded, Warning) else (Healthy, Info)
  {
    assert invs == [invs[0], invs[1], invs[2], invs[3], invs[4], invs[5]];
    assert forall v :: v in invs <==> v == invs[0] || v == invs[1] || v == invs[2] || v == invs[3] || v == invs[4] || v == invs[5];
    assert invs[0] in invs && invs[1] in invs && invs[2] in invs && invs[3] in invs && invs[4] in invs && invs[5] in invs;
  }

  lemma SixCounts(invs: seq<Invariant>, contract: bool, heartbeat: bool, lag: bool, shadow: bool, disk: bool, clean: bool)
    requires Six(invs, contract, heartbeat, lag, shadow, disk, clean)
    ensures CountCritical(invs) == N(!contract) + N(!disk)
    ensures CountLevel(invs, Fail) == N(!contract) + N(!heartbeat) + N(!lag) + N(!disk)
    ensures CountLevel(invs, Warn) == N(!shadow) + N(!clean)
  {
    hide CountCritical, CountLevel;
    SixCountsUnfold(invs);
  }

  lemma SixCountsUnfold(invs: seq<Invariant>)
    requires |invs| == 6
    ensures CountCritical(invs) == CriticalAt(invs[0]) + CriticalAt(invs[1]) + CriticalAt(invs[2]) + CriticalAt(invs[3])
                                 + CriticalAt(invs[4]) + CriticalAt(invs[5])
    ensures forall l :: CountLevel(invs, l) == LevelAt(invs[0], l) + LevelAt(invs[1], l) + LevelAt(invs[2], l)
                                             + LevelAt(invs[3], l) + LevelAt(invs[4], l) + LevelAt(invs[5], l)
  {
    hide *;
    CountsUnfold(invs, 1);
    CountsUnfold(invs, 2);
    CountsUnfold(invs, 3);
    CountsUnfold(invs, 4);
    CountsUnfold(invs, 5);
    CountsUnfold(invs, 6);
    assert invs[..6] == invs && invs[..0] == [];
    NoneCounted();
  }

  lemma NoneCounted()
    ensures CountCritical([]) == 0 && forall l :: CountLevel([], l) == 0
  {
  }

  function CriticalAt(v: Invariant): nat {
    N(v.severity == Critical && v.status == Fail)
  }

  function LevelAt(v: Invariant, l: Level): nat {
    N(v.status == l)
  }

  lemma CountsUnfold(invs: seq<Invariant>, n: nat)
    requires 0 < n <= |invs|
    ensures CountCritical(invs[..n]) == CountCritical(invs[..n - 1]) + CriticalAt(invs[n - 1])
    ensures forall l :: CountLevel(invs[..n], l) == CountLevel(invs[..n - 1], l) + LevelAt(invs[n - 1], l)
  {
    assert invs[..n][..n - 1] == invs[..n - 1];
  }

  /** The value under a key of a section of the report, or null. */
  function At(r: Report, section: string, key: string): Json {
    if section in r && r[section].Obj? && key in r[section].fields then r[section].fields[key] else Null
  }

  /** What the two gates read of a report besides its invariants: the signature of its attestation, the names of its lanes,
      and whether its policy section counts a denial. */
  lemma ReadingsExactly(r: Report, name: string)
    ensures Attested(r) <==> Truthy(At(r, "attestation", "signed"))
    ensures HasLane(r, name) <==>
            "lanes" in r && r["lanes"].Arr? && exists lane :: lane in r["lanes"].items && lane.Obj? && "name" in lane.fields
                                                              && lane.fields["name"] == Str(name)
    ensures var decisions := At(r, "policy", "policy_decisions");
            Denials(r) <==> decisions.Obj? && "denied" in decisions.fields && IsNumber(decisions.fields["denied"])
                            && NumberValue(decisions.fields["denied"]) > 0.0
  {
  }

  // ---------- the gates agree ----------

  /** Three independent-looking verdicts are one: the scorecard is blocked exactly when the diagnosis is unsafe, which is
      exactly when the contract is broken or the disk pressure is critical or unknown. */
  lemma BlockedIsUnsafe(iso: Iso, now: int, r: Report)
    ensures EvaluateScorecard(iso, now, r).status == BlockedScore <==> Diagnose(iso, now, r).status == Unsafe
    ensures Diagnose(iso, now, r).status == Unsafe <==>
            ReportErrors(iso, r) != [] || PressureOf(r) == Str("critical") || PressureOf(r) == Str("unknown")
  {
    BlockedIsUnsafeWith(ReportErrors(iso, r), iso, now, r);
  }

  lemma BlockedIsUnsafeWith(errors: Errors, iso: Iso, now: int, r: Report)
    ensures var invs := InvariantsWith(errors, iso, now, r);
            && (ScorecardWith(errors, invs, r).status == BlockedScore <==> StatusOf(invs).0 == Unsafe)
            && (StatusOf(invs).0 == Unsafe <==> errors != [] || !PressureOk(r))
  {
    VerifyGivesSix(errors, iso, now, r);
    SixVerdict(errors, InvariantsWith(errors, iso, now, r), r, HeartbeatOk(iso, now, r), LagOk(r),
               ShadowFailures(StoresOf(r)) == [], CleanOpen(r));
  }

  /** The scorecard and the diagnosis of six invariants of which the contract and the disk are the critical ones. */
  lemma SixVerdict(errors: Errors, invs: seq<Invariant>, r: Report, heartbeat: bool, lag: bool, shadow: bool, clean: bool)
    requires Six(invs, errors == [], heartbeat, lag, shadow, PressureOk(r), clean)
    ensures ScorecardWith(errors, invs, r).status == BlockedScore <==> errors != [] || !PressureOk(r)
    ensures StatusOf(invs).0 == Unsafe <==> errors != [] || !PressureOk(r)
  {
    SixStatus(invs, errors == [], heartbeat, lag, shadow, PressureOk(r), clean);
    SixCounts(invs, errors == [], heartbeat, lag, shadow, PressureOk(r), clean);
    GatesExactly(errors, StatusOf(invs).0, CountCritical(invs), PressureOf(r));
  }

  lemma GatesExactly(errors: Errors, status: Status, critical: nat, pressure: Json)
    ensures FailingGates(errors, status, critical, pressure) != {} <==>
            errors != [] || status == Unsafe || critical > 0 || pressure == Str("critical")
    ensures var f := FailingGates(errors, status, critical, pressure);
            && (ContractGate in f <==> errors != []) && (NotUnsafe in f <==> status == Unsafe)
            && (NoCriticalInvariants in f <==> critical > 0) && (DiskNotCritical in f <==> pressure == Str("critical"))
  {
    var f := FailingGates(errors, status, critical, pressure);
    assert ContractGate in f <==> errors != [];
    assert NotUnsafe in f <==> status == Unsafe;
    assert NoCriticalInvariants in f <==> critical > 0;
    assert DiskNotCritical in f <==> pressure == Str("critical");
    if f != {} {
      var g :| g in f;
    }
  }

  /** Report `x`, looked at `later`, is in no respect better off than report `r`, looked at `now`: no invariant that fails
      for `r` holds for `x`, and lag, disk pressure and attestation are no better. */
  predicate NoBetter(iso: Iso, now: int, r: Report, later: int, x: Report) {
    && (ReportErrors(iso, x) == [] ==> ReportErrors(iso, r) == [])
    && (HeartbeatOk(iso, later, x) ==> HeartbeatOk(iso, now, r)) && (LagOk(x) ==> LagOk(r))
    && (ShadowFailures(StoresOf(x)) == [] ==> ShadowFailures(StoresOf(r)) == [])
    && (PressureOk(x) ==> PressureOk(r)) && (CleanOpen(x) ==> CleanOpen(r))
    && (TotalLag(LanesOf(r)) != 0 ==> TotalLag(LanesOf(x)) != 0)
    && Strain(PressureOf(r)) <= Strain(PressureOf(x)) && (Attested(x) ==> Attested(r))
  }

  function Rank(s: ScoreStatus): nat {
    match s case Ready => 3 case Watch => 2 case DegradedScore => 1 case BlockedScore => 0
  }

  /** A report that is nowhere better off gets no better card: no more points, no fewer failing gates, no higher status. */
  lemma WorseReportNeverRanksHigher(iso: Iso, now: int, r: Report, later: int, x: Report)
    requires NoBetter(iso, now, r, later, x)
    ensures var a, b := EvaluateScorecard(iso, now, r), EvaluateScorecard(iso, later, x);
            b.score <= a.score && a.failing <= b.failing && Rank(b.status) <= Rank(a.status)
  {
    hide ReportErrors, InvariantsWith, HeartbeatOk, LagOk, ShadowFailures, PressureOk, CleanOpen, TotalLag, PressureOf, Attested,
         StatusOf, CountLevel, CountCritical, ScoreOf, FailingGates, Six, EvaluateScorecard, Strain;
    ScorecardIs(iso, now, r);
    ScorecardIs(iso, later, x);
    CountsOfReport(iso, now, r);
    CountsOfReport(iso, later, x);
    var a, b := Verify(iso, now, r), Verify(iso, later, x);
    WorseNeverScoresMore(CountCritical(a), CountLevel(a, Fail), CountLevel(a, Warn), TotalLag(LanesOf(r)) != 0, PressureOf(r),
                         Attested(r), CountCritical(b), CountLevel(b, Fail), CountLevel(b, Warn),
                         TotalLag(LanesOf(x)) != 0, PressureOf(x), Attested(x));
    GatesGrow(ReportErrors(iso, r), StatusOf(a).0, CountCritical(a), PressureOf(r),
              ReportErrors(iso, x), StatusOf(b).0, CountCritical(b), PressureOf(x));
  }

  lemma CountsOfReport(iso: Iso, now: int, r: Report)
    ensures var invs := Verify(iso, now, r);
            && CountCritical(invs) == N(ReportErrors(iso, r) != []) + N(!PressureOk(r))
            && CountLevel(invs, Fail) == N(ReportErrors(iso, r) != []) + N(!HeartbeatOk(iso, now, r)) + N(!LagOk(r))
                                         + N(!PressureOk(r))
            && CountLevel(invs, Warn) == N(ShadowFailures(StoresOf(r)) != []) + N(!CleanOpen(r))
            && (StatusOf(invs).0 == Unsafe <==> ReportErrors(iso, r) != [] || !PressureOk(r))
  {
    hide *;
    var errors := ReportErrors(iso, r);
    VerifyIs(iso, now, r);
    VerifyGivesSix(errors, iso, now, r);
    SixCounts(Verify(iso, now, r), errors == [], HeartbeatOk(iso, now, r), LagOk(r), ShadowFailures(StoresOf(r)) == [],
              PressureOk(r), CleanOpen(r));
    SixStatus(Verify(iso, now, r), errors == [], HeartbeatOk(iso, now, r), LagOk(r), ShadowFailures(StoresOf(r)) == [],
              PressureOk(r), CleanOpen(r));
  }

  /** The score of every report in closed form: twenty for each of the contract and the disk, ten for each failing invariant
      but at most thirty, five for each warning, ten for any lag, ten or twenty for a tight disk, five for want of a
      signature; the other two caps of the formula never bind. */
  lemma ScoreExactly(iso: Iso, now: int, r: Report)
    ensures var contract, disk := ReportErrors(iso, r) != [], !PressureOk(r);
            var fails := N(contract) + N(!HeartbeatOk(iso, now, r)) + N(!LagOk(r)) + N(disk);
            var raw := 100 - 20 * N(contract) - 20 * N(disk) - (if fails == 4 then 30 else 10 * fails)
                       - 5 * N(ShadowFailures(StoresOf(r)) != []) - 5 * N(!CleanOpen(r))
                       - 10 * N(TotalLag(LanesOf(r)) != 0)
                       - 10 * N(PressureOf(r) == Str("warning")) - 20 * N(PressureOf(r) == Str("critical"))
                       - 5 * N(!Attested(r));
            EvaluateScorecard(iso, now, r).score == if raw < 0 then 0 else raw
  {
    hide ReportErrors, InvariantsWith, HeartbeatOk, LagOk, ShadowFailures, PressureOk, CleanOpen, TotalLag, PressureOf, Attested,
         StatusOf, CountLevel, CountCritical, FailingGates, Six, EvaluateScorecard, Verify;
    ScorecardIs(iso, now, r);
    CountsOfReport(iso, now, r);
  }

  lemma VerifyIs(iso: Iso, now: int, r: Report)
    ensures Verify(iso, now, r) == InvariantsWith(ReportErrors(iso, r), iso, now, r)
  {
    hide InvariantsWith, ReportErrors;
  }

  lemma GatesGrow(errors: Errors, status: Status, critical: nat, pressure: Json,
                  errors': Errors, status': Status, critical': nat, pressure': Json)
    requires (errors' == [] ==> errors == []) && (status == Unsafe ==> status' == Unsafe) && critical <= critical'
    requires Strain(pressure) <= Strain(pressure')
    ensures FailingGates(errors, status, critical, pressure) <= FailingGates(errors', status', critical', pressure')
  {
  }

  /** Trust never outruns the scorecard: an allowed report scores at least 75 and is ready or under watch, one allowed in
      degraded mode scores at least 45 and is not blocked. */
  lemma TrustImpliesScore(iso: Iso, now: int, r: Report, q: TrustRequest)
    ensures var card, trust := EvaluateScorecard(iso, now, r), EvaluateTrust(iso, now, r, q).status;
            && (trust == TrustAllowed ==> card.status in {Ready, Watch} && card.score >= 75)
            && (trust == DegradedAllowed ==> card.status != BlockedScore && card.score >= 45)
  {
    TrustImpliesScoreWith(ReportErrors(iso, r), iso, now, r, q);
  }

  lemma TrustImpliesScoreWith(errors: Errors, iso: Iso, now: int, r: Report, q: TrustRequest)
    ensures var invs := InvariantsWith(errors, iso, now, r);
            var card, trust := ScorecardWith(errors, invs, r), TrustWith(errors, StatusOf(invs).0, r, q).status;
            && (trust == TrustAllowed ==> card.status in {Ready, Watch} && card.score >= 75)
            && (trust == DegradedAllowed ==> card.status != BlockedScore && card.score >= 45)
  {
    VerifyGivesSix(errors, iso, now, r);
    SixScores(errors, InvariantsWith(errors, iso, now, r), r, HeartbeatOk(iso, now, r), LagOk(r),
              ShadowFailures(StoresOf(r)) == [], CleanOpen(r));
    StageNeeds(errors, StatusOf(InvariantsWith(errors, iso, now, r)).0, r, q);
  }

  /** What each verdict leaves of the hundred points. */
  lemma SixScores(errors: Errors, invs: seq<Invariant>, r: Report, heartbeat: bool, lag: bool, shadow: bool, clean: bool)
    requires Six(invs, errors == [], heartbeat, lag, shadow, PressureOk(r), clean)
    ensures StatusOf(invs).0 == Healthy ==>
              ScorecardWith(errors, invs, r).status in {Ready, Watch} && ScorecardWith(errors, invs, r).score >= 75
    ensures StatusOf(invs).0 == Degraded ==>
              ScorecardWith(errors, invs, r).status != BlockedScore && ScorecardWith(errors, invs, r).score >= 45
  {
    SixVerdict(errors, invs, r, heartbeat, lag, shadow, clean);
    SixStatus(invs, errors == [], heartbeat, lag, shadow, PressureOk(r), clean);
    SixCounts(invs, errors == [], heartbeat, lag, shadow, PressureOk(r), clean);
    if StatusOf(invs).0 != Unsafe {
      ScoreFloor(N(!heartbeat) + N(!lag), N(!shadow) + N(!clean), TotalLag(LanesOf(r)) != 0, PressureOf(r), Attested(r));
    }
  }

  lemma ScoreFloor(fails: nat, warns: nat, lagging: bool, pressure: Json, attested: bool)
    requires fails <= 2 && warns <= 2 && pressure != Str("critical")
    ensures RawScore(0, fails, warns, lagging, pressure, attested) >= 75 - 10 * fails - 5 * warns
    ensures RawScore(0, fails, warns, lagging, pressure, attested) <= 100
  {
  }

  lemma StageNeeds(errors: Errors, status: Status, r: Report, q: TrustRequest)
    ensures TrustWith(errors, status, r, q).status == TrustAllowed ==> status == Healthy
    ensures TrustWith(errors, status, r, q).status == DegradedAllowed ==> status == Degraded
    ensures TrustWith(errors, status, r, q).status != TrustBlocked <==>
            && errors == [] && HasLane(r, q.lane) && (q.requireAttestation ==> Attested(r))
            && (status == Healthy || (status == Degraded && q.allowDegraded))
            && !((q.lane == "secure" || q.lane == "repair") && Denials(r))
  {
  }

  /** Which requests pass, in full: the lane is there, nothing is unsafe, degradation and missing attestation are covered
      by the request, and the lane is not a restricted one with denials. */
  lemma TrustPassesExactly(iso: Iso, now: int, r: Report, q: TrustRequest)
    ensures EvaluateTrust(iso, now, r, q).status != TrustBlocked <==>
            && ReportErrors(iso, r) == [] && HasLane(r, q.lane) && PressureOk(r)
            && (q.requireAttestation ==> Attested(r))
            && (q.allowDegraded || (HeartbeatOk(iso, now, r) && LagOk(r) && ShadowFailures(StoresOf(r)) == [] && CleanOpen(r)))
            && !((q.lane == "secure" || q.lane == "repair") && Denials(r))
  {
    TrustPassesWith(ReportErrors(iso, r), iso, now, r, q);
  }

  lemma TrustPassesWith(errors: Errors, iso: Iso, now: int, r: Report, q: TrustRequest)
    ensures TrustWith(errors, StatusOf(InvariantsWith(errors, iso, now, r)).0, r, q).status != TrustBlocked <==>
            && errors == [] && HasLane(r, q.lane) && PressureOk(r)
            && (q.requireAttestation ==> Attested(r))
            && (q.allowDegraded || (HeartbeatOk(iso, now, r) && LagOk(r) && ShadowFailures(StoresOf(r)) == [] && CleanOpen(r)))
            && !((q.lane == "secure" || q.lane == "repair") && Denials(r))
  {
    VerifyGivesSix(errors, iso, now, r);
    SixStatus(InvariantsWith(errors, iso, now, r), errors == [], HeartbeatOk(iso, now, r), LagOk(r),
              ShadowFailures(StoresOf(r)) == [], PressureOk(r), CleanOpen(r));
    StageNeeds(errors, StatusOf(InvariantsWith(errors, iso, now, r)).0, r, q);
  }
}
