/** The local branch of the policy evaluator and its decision counts (policy.py). */
module Policies {
  import opened Text
  import opened Sums

  datatype PolicyStatus = Allowed | Denied | Redacted | Deferred

  datatype Action = Index | Retain | Replicate | AgentAccess | RepairPreview | PurgePreview | Read | Write | UnknownAction

  datatype Request = Request(action: Action, lane: string, dataClass: string)

  function Decide(q: Request): PolicyStatus {
    if q.action == UnknownAction then Deferred
    else if q.lane == "secure" && (q.action == AgentAccess || q.action == Replicate) then Denied
    else if q.lane == "secure" && q.action == Index then Redacted
    else if q.lane == "repair" && (q.action == AgentAccess || q.action == Write) then Denied
    else if q.lane == "ephemeral" && q.action == Retain then Deferred
    else if (q.dataClass == "secret" || q.dataClass == "credential") && (q.action == Replicate || q.action == AgentAccess) then Denied
    else Allowed
  }

  /** The reason of a local decision: it names the rule, so it fixes the status. */
  function Reason(q: Request): string {
    if q.action == UnknownAction then "unknown_action"
    else if q.lane == "secure" && (q.action == AgentAccess || q.action == Replicate) then "secure_lane_requires_explicit_grant"
    else if q.lane == "secure" && q.action == Index then "secure_lane_indexing_requires_redaction"
    else if q.lane == "repair" && (q.action == AgentAccess || q.action == Write) then "repair_lane_is_quarantine_scoped"
    else if q.lane == "ephemeral" && q.action == Retain then "ephemeral_retention_requires_ttl"
    else if Decide(q) == Denied then "sensitive_data_requires_explicit_grant"
    else "default_local_policy_allows"
  }

  /** The decision table without its order: who is denied, redacted and deferred. */
  lemma DecisionsExactly(q: Request)
    ensures Decide(q) == Denied <==>
            || (q.action == Replicate && (q.lane == "secure" || q.dataClass in {"secret", "credential"}))
            || (q.action == AgentAccess && (q.lane in {"secure", "repair"} || q.dataClass in {"secret", "credential"}))
            || (q.action == Write && q.lane == "repair")
    ensures Decide(q) == Redacted <==> q.action == Index && q.lane == "secure"
    ensures Decide(q) == Deferred <==> q.action == UnknownAction || (q.action == Retain && q.lane == "ephemeral")
  {
  }

  /** Each reason by its own condition, without the order of the rules; in particular a reason fixes its status. */
  lemma ReasonsExactly(q: Request)
    ensures var sensitive, shared := q.dataClass in {"secret", "credential"}, q.action in {Replicate, AgentAccess};
            && (Reason(q) == "unknown_action" <==> q.action == UnknownAction)
            && (Reason(q) == "secure_lane_requires_explicit_grant" <==> q.lane == "secure" && shared)
            && (Reason(q) == "secure_lane_indexing_requires_redaction" <==> q.lane == "secure" && q.action == Index)
            && (Reason(q) == "repair_lane_is_quarantine_scoped" <==> q.lane == "repair" && q.action in {AgentAccess, Write})
            && (Reason(q) == "ephemeral_retention_requires_ttl" <==> q.lane == "ephemeral" && q.action == Retain)
            && (Reason(q) == "sensitive_data_requires_explicit_grant" <==>
                sensitive && shared && q.lane != "secure" && !(q.lane == "repair" && q.action == AgentAccess))
            && (Reason(q) == "default_local_policy_allows" <==> Decide(q) == Allowed)
  {
    HeadsOfReasons();
    SecureReasons();
  }

  /** No two reasons begin alike, but for three that begin with "se". */
  lemma HeadsOfReasons()
    ensures "unknown_action"[0] == 'u' && "repair_lane_is_quarantine_scoped"[0] == 'r' && "ephemeral_retention_requires_ttl"[0] == 'e'
    ensures "default_local_policy_allows"[0] == 'd' && "sensitive_data_requires_explicit_grant"[2] == 'n'
  {
  }

  lemma SecureReasons()
    ensures "secure_lane_requires_explicit_grant"[12] == 'r' && "secure_lane_indexing_requires_redaction"[12] == 'i'
  {
  }

  const REPORTED: seq<Action> := [Index, Retain, Replicate, AgentAccess]

  /** `PolicyRequest`'s default data class is "internal". */
  function LaneRequests(lane: string): seq<Request> {
    [Request(Index, lane, "internal"), Request(Retain, lane, "internal"), Request(Replicate, lane, "internal"),
     Request(AgentAccess, lane, "internal")]
  }

  function ReportRequests(lanes: seq<string>): seq<Request> {
    if lanes == [] then [] else ReportRequests(lanes[..|lanes| - 1]) + LaneRequests(lanes[|lanes| - 1])
  }

  const SAMPLE_LIMIT: nat := 12

  /** The requests whose decisions `policy_summary` shows. */
  function Sampled(lanes: seq<string>): seq<Request> {
    ReportRequests(lanes)[..Min(SAMPLE_LIMIT, |ReportRequests(lanes)|)]
  }

  function LaneDecisions(lane: string): seq<PolicyStatus> {
    [Decide(Request(Index, lane, "internal")), Decide(Request(Retain, lane, "internal")),
     Decide(Request(Replicate, lane, "internal")), Decide(Request(AgentAccess, lane, "internal"))]
  }

  function ReportDecisions(lanes: seq<string>): seq<PolicyStatus> {
    if lanes == [] then [] else ReportDecisions(lanes[..|lanes| - 1]) + LaneDecisions(lanes[|lanes| - 1])
  }

  /** `evaluate_report_policy`: the four representative actions on every lane. */
  method EvaluateReportPolicy(lanes: seq<string>) returns (decisions: seq<PolicyStatus>)
    ensures decisions == ReportDecisions(lanes)
  {
    decisions := [];
    for i := 0 to |lanes|
      invariant decisions == ReportDecisions(lanes[..i])
    {
      assert lanes[..i + 1][..i] == lanes[..i];
      ghost var before := decisions;
      for j := 0 to 4
        invariant decisions == before + LaneDecisions(lanes[i])[..j]
      {
        decisions := decisions + [Decide(Request(REPORTED[j], lanes[i], "internal"))];
      }
    }
    assert lanes[..|lanes|] == lanes;
  }

  lemma {:induction false} DecisionsOfRequests(lanes: seq<string>)
    ensures ReportDecisions(lanes) == Mapped(ReportRequests(lanes), Decide) && |ReportRequests(lanes)| == 4 * |lanes|
  {
    hide Decide, LaneDecisions;
    if lanes != [] {
      var front, last := lanes[..|lanes| - 1], lanes[|lanes| - 1];
      DecisionsOfRequests(front);
      LaneByLane(last);
      MappedAppend(ReportRequests(front), LaneRequests(last), Decide);
    }
  }

  lemma LaneByLane(lane: string)
    ensures LaneDecisions(lane) == Mapped(LaneRequests(lane), Decide)
  {
    hide Decide;
    MappedAt(LaneRequests(lane), Decide);
  }

  datatype Counts = Counts(allowed: nat, denied: nat, redacted: nat, deferred: nat)

  function Is(s: PolicyStatus): PolicyStatus -> bool {
    (d: PolicyStatus) => d == s
  }

  function CountsOf(decisions: seq<PolicyStatus>): Counts {
    Counts(CountIf(decisions, Is(Allowed)), CountIf(decisions, Is(Denied)), CountIf(decisions, Is(Redacted)),
           CountIf(decisions, Is(Deferred)))
  }

  function Bump(c: Counts, s: PolicyStatus): Counts {
    match s
    case Allowed => c.(allowed := c.allowed + 1)
    case Denied => c.(denied := c.denied + 1)
    case Redacted => c.(redacted := c.redacted + 1)
    case Deferred => c.(deferred := c.deferred + 1)
  }

  /** `decision_counts`. */
  method CountDecisions(decisions: seq<PolicyStatus>) returns (c: Counts)
    ensures c == CountsOf(decisions)
  {
    c := Counts(0, 0, 0, 0);
    for i := 0 to |decisions|
      invariant c == CountsOf(decisions[..i])
    {
      assert decisions[..i + 1][..i] == decisions[..i];
      c := Bump(c, decisions[i]);
    }
    assert decisions[..|decisions|] == decisions;
  }

  function LaneIs(name: string): string -> bool {
    (lane: string) => lane == name
  }

  lemma CountFour(a: PolicyStatus, b: PolicyStatus, c: PolicyStatus, d: PolicyStatus, s: PolicyStatus)
    ensures CountIf([a, b, c, d], Is(s)) == (if a == s then 1 else 0) + (if b == s then 1 else 0)
                                          + (if c == s then 1 else 0) + (if d == s then 1 else 0)
  {
    var p := Is(s);
    assert [a][..0] == [] && CountIf([a], p) == (if a == s then 1 else 0);
    assert [a, b][..1] == [a] && CountIf([a, b], p) == CountIf([a], p) + (if b == s then 1 else 0);
    assert [a, b, c][..2] == [a, b] && CountIf([a, b, c], p) == CountIf([a, b], p) + (if c == s then 1 else 0);
    assert [a, b, c, d][..3] == [a, b, c];
  }

  function One(c: bool): nat {
    if c then 1 else 0
  }

  lemma LaneCounts(lane: string)
    ensures CountsOf(LaneDecisions(lane)) ==
            Counts(4 - 3 * One(lane == "secure") - One(lane == "repair") - One(lane == "ephemeral"),
                   2 * One(lane == "secure") + One(lane == "repair"), One(lane == "secure"), One(lane == "ephemeral"))
  {
    var l := LaneDecisions(lane);
    CountFour(l[0], l[1], l[2], l[3], Allowed);
    CountFour(l[0], l[1], l[2], l[3], Denied);
    CountFour(l[0], l[1], l[2], l[3], Redacted);
    CountFour(l[0], l[1], l[2], l[3], Deferred);
    assert l == [l[0], l[1], l[2], l[3]];
  }

  /** The exact counts for any list of lanes: a secure lane costs two denials and a redaction, a repair lane one
      denial, an ephemeral one a deferral, and every lane gives four decisions in all. */
  lemma {:induction false} ReportCounts(lanes: seq<string>)
    ensures var c := CountsOf(ReportDecisions(lanes));
            && c.denied == 2 * CountIf(lanes, LaneIs("secure")) + CountIf(lanes, LaneIs("repair"))
            && c.redacted == CountIf(lanes, LaneIs("secure"))
            && c.deferred == CountIf(lanes, LaneIs("ephemeral"))
            && c.allowed + c.denied + c.redacted + c.deferred == 4 * |lanes|
  {
    if lanes != [] {
      var front, last := lanes[..|lanes| - 1], lanes[|lanes| - 1];
      ReportCounts(front);
      LaneCounts(last);
      var a, b := ReportDecisions(front), LaneDecisions(last);
      CountAppend(a, b, Is(Allowed));
      CountAppend(a, b, Is(Denied));
      CountAppend(a, b, Is(Redacted));
      CountAppend(a, b, Is(Deferred));
    }
  }

  lemma {:induction false} PresentCounts(lanes: seq<string>, name: string)
    requires name in lanes
    ensures CountIf(lanes, LaneIs(name)) >= 1
  {
    if lanes[|lanes| - 1] != name {
      assert lanes == lanes[..|lanes| - 1] + [lanes[|lanes| - 1]];
      PresentCounts(lanes[..|lanes| - 1], name);
    }
  }

  /** Reporting a secure or a repair lane always leaves a denial behind. */
  lemma RestrictedLaneIsDenied(lanes: seq<string>)
    requires "secure" in lanes || "repair" in lanes
    ensures CountsOf(ReportDecisions(lanes)).denied >= 1
  {
    ReportCounts(lanes);
    if "secure" in lanes { PresentCounts(lanes, "secure"); } else { PresentCounts(lanes, "repair"); }
  }
}
