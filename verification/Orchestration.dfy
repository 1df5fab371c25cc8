/** The event-capability queue (orchestration_events.py). */
module Orchestration {
  import opened Text
  import opened Sums

  /** A record as the validator reads it: each text is what `str(section.get(key, ""))` gives, so an absent field and
      an empty one are both "". */
  datatype Record = Record(recordId: Option<string>, eventId: string, idempotencyKey: string, capabilityId: string,
                           effectClass: string, approvalMode: string, requiredOutcome: string, policyOutcome: string,
                           deadLetterOnFailure: bool, evidenceRefs: seq<string>, reactionRefs: seq<string>)

  datatype State = Pending | Waiting | Blocked | DeadLetter

  datatype Problem = NoEventId | NoCapabilityId | NoIdempotencyKey | NoReceipts | NotDeadLettered | OutcomeMismatch
                   | HighRiskAllowed | LaxApproval

  datatype Decision = Decision(state: State, errors: seq<Problem>, highRiskDenial: bool)

  predicate HighRisk(r: Record) {
    r.effectClass == "high_risk_actuation" || r.effectClass == "irreversible_action"
  }

  predicate StrictApproval(r: Record) {
    r.approvalMode in {"explicit_user_approval", "two_party_approval", "admin_approval"}
  }

  function When(c: bool, p: Problem): seq<Problem> {
    if c then [p] else []
  }

  function Problems(r: Record): seq<Problem> {
    When(r.eventId == "", NoEventId) +
    When(r.capabilityId == "", NoCapabilityId) +
    When(r.idempotencyKey == "", NoIdempotencyKey) +
    When(r.evidenceRefs == [] && r.reactionRefs == [], NoReceipts) +
    When(!r.deadLetterOnFailure, NotDeadLettered) +
    When(r.policyOutcome != r.requiredOutcome, OutcomeMismatch) +
    When(HighRisk(r) && r.policyOutcome == "allowed", HighRiskAllowed) +
    When(HighRisk(r) && r.policyOutcome == "requires_approval" && !StrictApproval(r), LaxApproval)
  }

  /** Where an error-free record with this outcome goes. */
  function Destination(outcome: string): State {
    if outcome == "allowed" || outcome == "redacted" then Pending
    else if outcome == "requires_approval" then Waiting
    else if outcome == "denied" || outcome == "degraded" || outcome == "requires_local_only" then Blocked
    else DeadLetter
  }

  function ValidateRecord(r: Record): Decision {
    var errors := Problems(r);
    Decision(if errors == [] then Destination(r.policyOutcome) else DeadLetter, errors,
             HighRisk(r) && r.policyOutcome == "denied")
  }

  function QueueKey(r: Record): string {
    if r.idempotencyKey != "" then r.idempotencyKey else OrElse(r.recordId, "missing-id")
  }

  datatype Envelope = Envelope(queuedAt: string, decision: Decision, record: Record)

  datatype Action = Queued | Deduped

  datatype Audit = Audit(action: Action, state: State, key: string, eventId: string, capabilityId: string)

  type Files = map<(State, string), Envelope>

  /** A line of a listing: the file, the state it was asked for, and what the file holds. */
  datatype Listed = Listed(path: string, state: string, envelope: Envelope)

  /** The four state directories as one map, the audit log, and the replay directory. */
  datatype Queue = Queue(files: Files, audit: seq<Audit>, replays: map<string, seq<Listed>>)

  const EmptyQueue := Queue(map[], [], map[])

  /** How keys become file names (`None` is the ValueError on a key with nothing left) and how records are classified. */
  datatype Routing = Routing(names: string -> Option<string>, decide: Record -> Decision)

  function Standard(alnum: AlnumClass): Routing {
    Routing((key: string) => SafeId(alnum, key), (r: Record) => ValidateRecord(r))
  }

  /** The file a record goes to. */
  function Target(route: Routing, r: Record): Option<(State, string)> {
    match route.names(QueueKey(r))
    case None => None
    case Some(name) => Some((route.decide(r).state, name))
  }

  function EnqueueOne(route: Routing, q: Queue, r: Record, now: string): Queue
    requires Target(route, r).Some?
  {
    var at := Target(route, r).value;
    var action := if at in q.files then Deduped else Queued;
    q.(files := if action == Queued then q.files[at := Envelope(now, route.decide(r), r)] else q.files,
       audit := q.audit + [Audit(action, at.0, QueueKey(r), r.eventId, r.capabilityId)])
  }

  /** How many records of a batch are processed before one of them raises. */
  function Reach(route: Routing, batch: seq<Record>): nat {
    if batch == [] || Target(route, batch[0]).None? then 0 else 1 + Reach(route, batch[1..])
  }

  lemma {:induction false} ReachIsFirstRefusal(route: Routing, batch: seq<Record>)
    ensures var n := Reach(route, batch);
            && n <= |batch|
            && (forall i :: 0 <= i < n ==> Target(route, batch[i]).Some?)
            && (n < |batch| ==> Target(route, batch[n]).None?)
  {
    if batch != [] && Target(route, batch[0]).Some? { ReachIsFirstRefusal(route, batch[1..]); }
  }

  /** Enqueue a list of records that all have a target. */
  function EnqueueAll(route: Routing, q: Queue, records: seq<Record>, now: string): Queue
    requires forall i :: 0 <= i < |records| ==> Target(route, records[i]).Some?
  {
    if records == [] then q
    else EnqueueOne(route, EnqueueAll(route, q, records[..|records| - 1], now), records[|records| - 1], now)
  }

  /** A batch takes effect up to the first record that raises; what was processed before stays. */
  function EnqueueBatch(route: Routing, q: Queue, batch: seq<Record>, now: string): Queue {
    ReachIsFirstRefusal(route, batch);
    EnqueueAll(route, q, batch[..Reach(route, batch)], now)
  }

  lemma EnqueueNext(route: Routing, q: Queue, batch: seq<Record>, i: nat, now: string)
    requires i < |batch| && forall j :: 0 <= j <= i ==> Target(route, batch[j]).Some?
    ensures EnqueueAll(route, q, batch[..i + 1], now) == EnqueueOne(route, EnqueueAll(route, q, batch[..i], now), batch[i], now)
  {
    assert batch[..i + 1][..i] == batch[..i];
  }

  datatype Batch = Batch(records: seq<Record>, now: string)

  function After(route: Routing, q: Queue, batches: seq<Batch>): Queue {
    if batches == [] then q
    else
      var last := batches[|batches| - 1];
      EnqueueBatch(route, After(route, q, batches[..|batches| - 1]), last.records, last.now)
  }

  function Names(files: Files, s: State): set<string> {
    set at | at in files && at.0 == s :: at.1
  }

  // ---------- what a batch answers ----------

  datatype Item = Item(key: string, action: Action, state: State, errors: seq<Problem>)

  /** The i-th record of a batch goes to a file that was not there before the batch and that no earlier record of the batch
      goes to. */
  ghost predicate NewHere(route: Routing, files: Files, batch: seq<Record>, i: nat)
    requires i < |batch|
  {
    && Target(route, batch[i]).Some? && Target(route, batch[i]).value !in files
    && forall j :: 0 <= j < i ==> Target(route, batch[j]) != Target(route, batch[i])
  }

  /** What the answer for the i-th record says: its key, where it validates to and why, and whether it was queued. */
  ghost predicate Answers(route: Routing, files: Files, batch: seq<Record>, i: nat, item: Item)
    requires i < |batch|
  {
    && item.key == QueueKey(batch[i]) && item.state == route.decide(batch[i]).state
    && item.errors == route.decide(batch[i]).errors
    && (item.action == Queued <==> NewHere(route, files, batch, i))
  }

  ghost predicate AnswersAll(route: Routing, files: Files, batch: seq<Record>, items: seq<Item>) {
    |items| <= |batch| && forall i :: 0 <= i < |items| ==> Answers(route, files, batch, i, items[i])
  }

  /** The audit entry that goes with an answer. */
  ghost predicate AuditedAs(a: Audit, r: Record, item: Item) {
    a == Audit(item.action, item.state, item.key, r.eventId, r.capabilityId)
  }

  /** The log has grown by one entry per answer. */
  ghost predicate AuditsAll(before: seq<Audit>, after: seq<Audit>, batch: seq<Record>, items: seq<Item>) {
    && |after| == |before| + |items| && |items| <= |batch| && before <= after
    && forall i :: 0 <= i < |items| ==> AuditedAs(after[|before| + i], batch[i], items[i])
  }

  /** One of the first `n` records goes to this file. */
  ghost predicate Goes(route: Routing, batch: seq<Record>, n: nat, at: (State, string))
    requires n <= |batch|
  {
    exists j :: 0 <= j < n && Target(route, batch[j]) == Some(at)
  }

  lemma GoesNext(route: Routing, batch: seq<Record>, n: nat, at: (State, string))
    requires 0 < n <= |batch|
    ensures Goes(route, batch, n, at) <==> Goes(route, batch, n - 1, at) || Target(route, batch[n - 1]) == Some(at)
  {
    hide Target;
  }

  lemma {:induction false} FilesOfBatch(route: Routing, q: Queue, batch: seq<Record>, n: nat, now: string, at: (State, string))
    requires n <= |batch| && forall j :: 0 <= j < n ==> Target(route, batch[j]).Some?
    ensures at in EnqueueAll(route, q, batch[..n], now).files <==> at in q.files || Goes(route, batch, n, at)
  {
    hide EnqueueOne, Target, Goes;
    if n > 0 {
      EnqueueNext(route, q, batch, n - 1, now);
      FilesOfBatch(route, q, batch, n - 1, now, at);
      OneAddsItsFile(route, EnqueueAll(route, q, batch[..n - 1], now), batch[n - 1], now);
      GoesNext(route, batch, n, at);
    } else {
      assert batch[..0] == [];
      NobodyGoes(route, batch, at);
    }
  }

  lemma NobodyGoes(route: Routing, batch: seq<Record>, at: (State, string))
    ensures !Goes(route, batch, 0, at)
  {
  }

  /** The answer for the next record, given the files there are by then. */
  lemma AnswersNext(route: Routing, q: Queue, batch: seq<Record>, now: string, items: seq<Item>, item: Item)
    requires |items| < |batch| && AnswersAll(route, q.files, batch, items)
    requires forall j :: 0 <= j <= |items| ==> Target(route, batch[j]).Some?
    requires var r := batch[|items|];
             item == Item(QueueKey(r), if Target(route, r).value in EnqueueAll(route, q, batch[..|items|], now).files then Deduped
                                       else Queued, Target(route, r).value.0, route.decide(r).errors)
    ensures AnswersAll(route, q.files, batch, items + [item])
  {
    hide EnqueueAll, QueueKey;
    FilesOfBatch(route, q, batch, |items|, now, Target(route, batch[|items|]).value);
    assert Answers(route, q.files, batch, |items|, item);
  }

  lemma AuditsNext(before: seq<Audit>, after: seq<Audit>, batch: seq<Record>, items: seq<Item>, item: Item)
    requires AuditsAll(before, after, batch, items) && |items| < |batch|
    ensures var r := batch[|items|];
            AuditsAll(before, after + [Audit(item.action, item.state, item.key, r.eventId, r.capabilityId)], batch, items + [item])
  {
    hide AuditedAs;
    forall a, r: Record | a == Audit(item.action, item.state, item.key, r.eventId, r.capabilityId) ensures AuditedAs(a, r, item) {
      AuditIs(a, r, item);
    }
  }

  lemma AuditIs(a: Audit, r: Record, item: Item)
    ensures AuditedAs(a, r, item) <==> a == Audit(item.action, item.state, item.key, r.eventId, r.capabilityId)
  {
  }

  // ---------- listing and replaying ----------

  const STATES: seq<string> := ["pending", "waiting-approval", "blocked", "dead-letter"]

  /** Any other text names the dead-letter directory. */
  function StateOf(text: string): State {
    if text == "pending" then Pending
    else if text == "waiting-approval" then Waiting
    else if text == "blocked" then Blocked
    else DeadLetter
  }

  function Path(name: string): string {
    name + ".json"
  }

  function Stem(path: string): string {
    if |path| < 5 then path else path[..|path| - 5]
  }

  /** The file names of a directory; they are sorted with their suffix. */
  function Paths(files: Files, s: State): set<string> {
    set n | n in Names(files, s) :: Path(n)
  }

  lemma StemOfPath(name: string)
    ensures Stem(Path(name)) == name
  {
  }

  lemma PathsAreFiles(files: Files, s: State, paths: seq<string>)
    requires forall p :: p in paths ==> p in Paths(files, s)
    ensures forall p :: p in paths ==> (s, Stem(p)) in files
  {
    forall p | p in paths ensures (s, Stem(p)) in files {
      var n :| n in Names(files, s) && p == Path(n);
      StemOfPath(n);
    }
  }

  function ListPaths(files: Files, text: string, paths: seq<string>): seq<Listed>
    requires forall p :: p in paths ==> (StateOf(text), Stem(p)) in files
  {
    if paths == [] then []
    else
      var last := paths[|paths| - 1];
      ListPaths(files, text, paths[..|paths| - 1]) + [Listed(last, text, files[(StateOf(text), Stem(last))])]
  }

  function StateListing(files: Files, text: string): seq<Listed> {
    var paths := SortedSet(Paths(files, StateOf(text)));
    PathsAreFiles(files, StateOf(text), paths);
    ListPaths(files, text, paths)
  }

  function ListStates(files: Files, texts: seq<string>): seq<Listed> {
    if texts == [] then [] else ListStates(files, texts[..|texts| - 1]) + StateListing(files, texts[|texts| - 1])
  }

  /** `list_event_queue`; no state, or an empty one, stands for all four. */
  function Listing(files: Files, state: Option<string>): seq<Listed> {
    ListStates(files, if state.Some? && state.value != "" then [state.value] else STATES)
  }

  function ReplayPath(name: string, clock: string): string {
    "replay-" + name + "-" + clock + ".json"
  }

  /** `replay_event_queue`: `None` is the ValueError on a state that makes no file name. */
  function Replayed(route: Routing, q: Queue, state: string, clock: string): Option<Queue> {
    match route.names(state)
    case None => None
    case Some(name) =>
      Some(q.(replays := q.replays[ReplayPath(name, clock) := Listing(q.files, Some(state))]))
  }

  /** The stored replay of a directory is its listing, and a later replay of the same state under another clock is stored
      beside it. */
  lemma LaterReplayKeepsEarlier(route: Routing, q: Queue, state: string, clock: string, later: string)
    requires route.names(state).Some? && clock != later
    ensures Replayed(route, q, state, clock).Some?
    ensures var p := Replayed(route, q, state, clock).value;
            var path := "replay-" + route.names(state).value + "-" + clock + ".json";
            && path in p.replays && p.replays[path] == Listing(q.files, Some(state))
            && p.files == q.files && p.audit == q.audit
            && var r := Replayed(route, p, state, later);
            && r.Some? && path in r.value.replays && r.value.replays[path] == p.replays[path]
  {
    hide Listing;
    var name := route.names(state).value;
    ReplayPathsDiffer(name, clock, later);
  }

  lemma ReplayPathsDiffer(name: string, clock: string, later: string)
    requires clock != later
    ensures ReplayPath(name, clock) != ReplayPath(name, later)
  {
    var n := 7 + |name| + 1;
    var a, b := ReplayPath(name, clock), ReplayPath(name, later);
    assert a[n..|a| - 5] == clock && b[n..|b| - 5] == later;
  }

  // ---------- the class ----------

  class EventQueue {
    const route: Routing
    var files: Files
    var audit: seq<Audit>
    var replays: map<string, seq<Listed>>

    constructor (alnum: AlnumClass, q: Queue)
      ensures Contents() == q && route == Standard(alnum)
    {
      route := Standard(alnum);
      files, audit, replays := q.files, q.audit, q.replays;
    }

    function Contents(): Queue
      reads this
    {
      Queue(files, audit, replays)
    }

    method EnqueueRecord(r: Record, now: string) returns (item: Item)
      requires Target(route, r).Some?
      modifies `files, `audit
      ensures Contents() == EnqueueOne(route, old(Contents()), r, now)
      ensures item == Item(QueueKey(r), if Target(route, r).value in old(files) then Deduped else Queued,
                           Target(route, r).value.0, route.decide(r).errors)
      ensures audit == old(audit) + [Audit(item.action, item.state, item.key, r.eventId, r.capabilityId)]
    {
      var d, at := route.decide(r), Target(route, r).value;
      var action := if at in files then Deduped else Queued;
      if action == Queued {
        files := files[at := Envelope(now, d, r)];
      }
      audit := audit + [Audit(action, d.state, QueueKey(r), r.eventId, r.capabilityId)];
      item := Item(QueueKey(r), action, d.state, d.errors);
    }

    /** `raised` is the ValueError of the first record whose key cannot be made a file name. */
    method EnqueueRecords(batch: seq<Record>, now: string) returns (items: seq<Item>, raised: bool)
      modifies `files, `audit
      ensures Contents() == EnqueueBatch(route, old(Contents()), batch, now)
      ensures raised <==> Reach(route, batch) < |batch|
      ensures |items| == Reach(route, batch) && AnswersAll(route, old(files), batch, items)
      ensures AuditsAll(old(audit), audit, batch, items)
    {
      hide QueueKey, Target, EnqueueOne, Answers, AuditedAs;
      items := [];
      ReachIsFirstRefusal(route, batch);
      ghost var n := Reach(route, batch);
      ghost var q := Contents();
      for i := 0 to |batch|
        invariant i <= n && |items| == i
        invariant Contents() == EnqueueAll(route, q, batch[..i], now)
        invariant AnswersAll(route, q.files, batch, items)
        invariant AuditsAll(q.audit, audit, batch, items)
      {
        if Target(route, batch[i]).None? {
          return items, true;
        }
        EnqueueNext(route, q, batch, i, now);
        AuditsNext(q.audit, audit, batch, items,
                   Item(QueueKey(batch[i]), if Target(route, batch[i]).value in files then Deduped else Queued,
                        Target(route, batch[i]).value.0, route.decide(batch[i]).errors));
        var item := EnqueueRecord(batch[i], now);
        AnswersNext(route, q, batch, now, items, item);
        items := items + [item];
      }
      return items, false;
    }

    method ListState(text: string) returns (records: seq<Listed>)
      ensures records == StateListing(files, text)
    {
      records := [];
      var s := StateOf(text);
      var paths := SortedSet(Paths(files, s));
      PathsAreFiles(files, s, paths);
      for i := 0 to |paths|
        invariant records == ListPaths(files, text, paths[..i])
      {
        assert paths[..i + 1][..i] == paths[..i];
        assert paths[i] in paths;
        records := records + [Listed(paths[i], text, files[(s, Stem(paths[i]))])];
      }
      assert paths[..|paths|] == paths;
    }

    method List(state: Option<string>) returns (records: seq<Listed>)
      ensures records == Listing(files, state)
    {
      records := [];
      var texts := if state.Some? && state.value != "" then [state.value] else STATES;
      for i := 0 to |texts|
        invariant records == ListStates(files, texts[..i])
      {
        assert texts[..i + 1][..i] == texts[..i];
        var more := ListState(texts[i]);
        records := records + more;
      }
      assert texts[..|texts|] == texts;
    }

    /** `clock` is the time with its colons removed. */
    method Replay(state: string, clock: string) returns (raised: bool)
      modifies `replays
      ensures var r := Replayed(route, old(Contents()), state, clock);
              raised == r.None? && Contents() == if raised then old(Contents()) else r.value
    {
      var records := List(Some(state));
      var name := route.names(state);
      if name.None? { return true; }
      replays := replays[ReplayPath(name.value, clock) := records];
      return false;
    }

    method Summarize() returns (pending: nat, waiting: nat, blocked: nat, deadLetter: nat)
      ensures pending == |Names(files, Pending)| && waiting == |Names(files, Waiting)|
      ensures blocked == |Names(files, Blocked)| && deadLetter == |Names(files, DeadLetter)|
      ensures pending + waiting + blocked + deadLetter == |files|
    {
      pending, waiting := |Names(files, Pending)|, |Names(files, Waiting)|;
      blocked, deadLetter := |Names(files, Blocked)|, |Names(files, DeadLetter)|;
      DirectoriesPartition(files);
    }
  }

  // ---------- the decision ----------

  /** A record nothing is wrong with: complete, receipted, dead-lettered on failure, with the outcome its capability
      requires, and for a high-risk effect neither allowed outright nor approved loosely. */
  predicate Acceptable(r: Record) {
    && r.eventId != "" && r.capabilityId != "" && r.idempotencyKey != "" && r.deadLetterOnFailure
    && (r.evidenceRefs != [] || r.reactionRefs != [])
    && r.policyOutcome == r.requiredOutcome
    && (HighRisk(r) ==> r.policyOutcome != "allowed")
    && (HighRisk(r) && r.policyOutcome == "requires_approval" ==> StrictApproval(r))
  }

  /** Each problem is reported exactly for its own fault. */
  lemma ProblemsExactly(r: Record)
    ensures var p := Problems(r);
            && (NoEventId in p <==> r.eventId == "") && (NoCapabilityId in p <==> r.capabilityId == "")
            && (NoIdempotencyKey in p <==> r.idempotencyKey == "")
            && (NoReceipts in p <==> r.evidenceRefs == [] && r.reactionRefs == [])
            && (NotDeadLettered in p <==> !r.deadLetterOnFailure)
            && (OutcomeMismatch in p <==> r.policyOutcome != r.requiredOutcome)
            && (HighRiskAllowed in p <==> HighRisk(r) && r.policyOutcome == "allowed")
            && (LaxApproval in p <==> HighRisk(r) && r.policyOutcome == "requires_approval" && !StrictApproval(r))
  {
    hide *;
    var a, b, c := r.eventId == "", r.capabilityId == "", r.idempotencyKey == "";
    var d, e, f := r.evidenceRefs == [] && r.reactionRefs == [], !r.deadLetterOnFailure, r.policyOutcome != r.requiredOutcome;
    var g := HighRisk(r) && r.policyOutcome == "allowed";
    var h := HighRisk(r) && r.policyOutcome == "requires_approval" && !StrictApproval(r);
    ProblemsAre(r, a, b, c, d, e, f, g, h);
    EightProblems(a, b, c, d, e, f, g, h);
  }

  lemma ProblemsAre(r: Record, a: bool, b: bool, c: bool, d: bool, e: bool, f: bool, g: bool, h: bool)
    requires a == (r.eventId == "") && b == (r.capabilityId == "") && c == (r.idempotencyKey == "")
    requires d == (r.evidenceRefs == [] && r.reactionRefs == []) && e == !r.deadLetterOnFailure
    requires f == (r.policyOutcome != r.requiredOutcome) && g == (HighRisk(r) && r.policyOutcome == "allowed")
    requires h == (HighRisk(r) && r.policyOutcome == "requires_approval" && !StrictApproval(r))
    ensures Problems(r) ==
            When(a, NoEventId) + When(b, NoCapabilityId) + When(c, NoIdempotencyKey) + When(d, NoReceipts)
            + When(e, NotDeadLettered) + When(f, OutcomeMismatch) + When(g, HighRiskAllowed) + When(h, LaxApproval)
  {
    hide When, HighRisk, StrictApproval;
  }

  lemma EightProblems(a: bool, b: bool, c: bool, d: bool, e: bool, f: bool, g: bool, h: bool)
    ensures var p := When(a, NoEventId) + When(b, NoCapabilityId) + When(c, NoIdempotencyKey) + When(d, NoReceipts)
                     + When(e, NotDeadLettered) + When(f, OutcomeMismatch) + When(g, HighRiskAllowed) + When(h, LaxApproval);
            && (NoEventId in p <==> a) && (NoCapabilityId in p <==> b) && (NoIdempotencyKey in p <==> c)
            && (NoReceipts in p <==> d) && (NotDeadLettered in p <==> e) && (OutcomeMismatch in p <==> f)
            && (HighRiskAllowed in p <==> g) && (LaxApproval in p <==> h)
  {
    hide When;
    var p2 := When(a, NoEventId) + When(b, NoCapabilityId);
    var p3 := p2 + When(c, NoIdempotencyKey);
    var p4 := p3 + When(d, NoReceipts);
    var p5 := p4 + When(e, NotDeadLettered);
    var p6 := p5 + When(f, OutcomeMismatch);
    var p7 := p6 + When(g, HighRiskAllowed);
    OneMore([], a, NoEventId);
    assert [] + When(a, NoEventId) == When(a, NoEventId);
    OneMore(When(a, NoEventId), b, NoCapabilityId);
    OneMore(p2, c, NoIdempotencyKey);
    OneMore(p3, d, NoReceipts);
    OneMore(p4, e, NotDeadLettered);
    OneMore(p5, f, OutcomeMismatch);
    OneMore(p6, g, HighRiskAllowed);
    OneMore(p7, h, LaxApproval);
  }

  lemma OneMore(ps: seq<Problem>, c: bool, x: Problem)
    ensures forall y :: y in ps + When(c, x) <==> y in ps || (c && y == x)
  {
  }


  lemma NoProblemsExactly(r: Record)
    ensures Problems(r) == [] <==> Acceptable(r)
  {
    var a := When(r.eventId == "", NoEventId);
    var b := When(r.capabilityId == "", NoCapabilityId);
    var c := When(r.idempotencyKey == "", NoIdempotencyKey);
    var d := When(r.evidenceRefs == [] && r.reactionRefs == [], NoReceipts);
    var e := When(!r.deadLetterOnFailure, NotDeadLettered);
    var f := When(r.policyOutcome != r.requiredOutcome, OutcomeMismatch);
    var g := When(HighRisk(r) && r.policyOutcome == "allowed", HighRiskAllowed);
    var h := When(HighRisk(r) && r.policyOutcome == "requires_approval" && !StrictApproval(r), LaxApproval);
    assert |Problems(r)| == |a| + |b| + |c| + |d| + |e| + |f| + |g| + |h|;
  }

  /** Where a record goes: to the directory of its outcome when it is acceptable, to the dead letters otherwise. */
  lemma StateExactly(r: Record)
    ensures var s := ValidateRecord(r).state;
            && (s == Pending <==> Acceptable(r) && r.policyOutcome in {"allowed", "redacted"})
            && (s == Waiting <==> Acceptable(r) && r.policyOutcome == "requires_approval")
            && (s == Blocked <==> Acceptable(r) && r.policyOutcome in {"denied", "degraded", "requires_local_only"})
  {
    NoProblemsExactly(r);
  }

  // ---------- every run ----------

  predicate WasQueued(a: Audit) {
    a.action == Queued
  }

  /** Every file holds a record that validates to its directory and whose sanitised key is its name. */
  ghost predicate FilesBelong(route: Routing, files: Files) {
    forall at :: at in files ==>
      Target(route, files[at].record) == Some(at) && files[at].decision == route.decide(files[at].record)
  }

  function AuditTarget(route: Routing, a: Audit): Option<(State, string)> {
    match route.names(a.key)
    case None => None
    case Some(name) => Some((a.state, name))
  }

  /** Every audited key has its file. */
  ghost predicate AuditIsFiled(route: Routing, q: Queue) {
    forall a :: a in q.audit ==> AuditTarget(route, a).Some? && AuditTarget(route, a).value in q.files
  }

  /** Every file was audited. */
  ghost predicate FilesAreAudited(route: Routing, q: Queue) {
    forall at :: at in q.files ==> exists a :: a in q.audit && AuditTarget(route, a) == Some(at)
  }

  /** ... and there are as many files as "queued" entries. */
  ghost predicate Consistent(route: Routing, q: Queue) {
    && FilesBelong(route, q.files)
    && AuditIsFiled(route, q)
    && FilesAreAudited(route, q)
    && |q.files| == CountIf(q.audit, WasQueued)
  }

  ghost predicate FilesKept(files: Files, files': Files) {
    forall at :: at in files ==> at in files' && files'[at] == files[at]
  }

  /** Files are never changed or removed, the audit log is only appended to. */
  ghost predicate Extends(q: Queue, p: Queue) {
    q.audit <= p.audit && FilesKept(q.files, p.files)
  }

  lemma OneKeepsFiles(route: Routing, q: Queue, r: Record, now: string)
    requires FilesBelong(route, q.files) && Target(route, r).Some?
    ensures FilesBelong(route, EnqueueOne(route, q, r, now).files)
  {
  }

  lemma OneAddsItsFile(route: Routing, q: Queue, r: Record, now: string)
    requires Target(route, r).Some?
    ensures var files := EnqueueOne(route, q, r, now).files;
            && FilesKept(q.files, files)
            && files.Keys == q.files.Keys + {Target(route, r).value}
            && |files| == |q.files| + if Target(route, r).value in q.files then 0 else 1
  {
    hide Target, QueueKey;
  }

  lemma OneIsAudited(route: Routing, q: Queue, r: Record, now: string)
    requires Target(route, r).Some?
    ensures var p := EnqueueOne(route, q, r, now);
            var last := p.audit[|q.audit|];
            && p.audit == q.audit + [last]
            && AuditTarget(route, last) == Target(route, r)
            && CountIf(p.audit, WasQueued) == CountIf(q.audit, WasQueued) + if Target(route, r).value in q.files then 0 else 1
  {
    var p := EnqueueOne(route, q, r, now);
    assert p.audit[..|q.audit|] == q.audit;
  }

  lemma AuditKept(route: Routing, q: Queue, p: Queue, last: Audit)
    requires AuditIsFiled(route, q) && FilesAreAudited(route, q)
    requires p.audit == q.audit + [last] && AuditTarget(route, last).Some?
    requires p.files.Keys == q.files.Keys + {AuditTarget(route, last).value}
    ensures AuditIsFiled(route, p) && FilesAreAudited(route, p)
  {
    forall at | at in p.files ensures exists a :: a in p.audit && AuditTarget(route, a) == Some(at) {
      if at in q.files {
        var a :| a in q.audit && AuditTarget(route, a) == Some(at);
        assert a in p.audit;
      } else {
        assert last in p.audit;
      }
    }
  }

  lemma OneKeepsConsistent(route: Routing, q: Queue, r: Record, now: string)
    requires Consistent(route, q) && Target(route, r).Some?
    ensures var p := EnqueueOne(route, q, r, now);
            Consistent(route, p) && Extends(q, p) && |p.audit| == |q.audit| + 1 && Target(route, r).value in p.files
  {
    var p := EnqueueOne(route, q, r, now);
    OneKeepsFiles(route, q, r, now);
    OneAddsItsFile(route, q, r, now);
    OneIsAudited(route, q, r, now);
    AuditKept(route, q, p, p.audit[|q.audit|]);
  }

  ghost predicate AllFiled(route: Routing, q: Queue, records: seq<Record>) {
    forall i :: 0 <= i < |records| ==> Target(route, records[i]).Some? && Target(route, records[i]).value in q.files
  }

  lemma AllFiledStep(route: Routing, q: Queue, p: Queue, records: seq<Record>, last: Record)
    requires AllFiled(route, q, records) && FilesKept(q.files, p.files)
    requires Target(route, last).Some? && Target(route, last).value in p.files
    ensures AllFiled(route, p, records + [last])
  {
  }

  lemma {:induction false} AllAreFiled(route: Routing, q: Queue, records: seq<Record>, now: string)
    requires forall i :: 0 <= i < |records| ==> Target(route, records[i]).Some?
    ensures var p := EnqueueAll(route, q, records, now);
            FilesKept(q.files, p.files) && AllFiled(route, p, records)
  {
    if records != [] {
      var front, last := records[..|records| - 1], records[|records| - 1];
      AllAreFiled(route, q, front, now);
      var mid := EnqueueAll(route, q, front, now);
      OneAddsItsFile(route, mid, last, now);
      AllFiledStep(route, mid, EnqueueOne(route, mid, last, now), front, last);
      assert records == front + [last];
    }
  }

  lemma {:induction false} AllKeepConsistent(route: Routing, q: Queue, records: seq<Record>, now: string)
    requires Consistent(route, q)
    requires forall i :: 0 <= i < |records| ==> Target(route, records[i]).Some?
    ensures var p := EnqueueAll(route, q, records, now);
            Consistent(route, p) && q.audit <= p.audit && |p.audit| == |q.audit| + |records|
  {
    if records != [] {
      var front, last := records[..|records| - 1], records[|records| - 1];
      AllKeepConsistent(route, q, front, now);
      OneKeepsConsistent(route, EnqueueAll(route, q, front, now), last, now);
    }
  }

  lemma {:induction false} RunsAreConsistent(route: Routing, batches: seq<Batch>)
    ensures Consistent(route, After(route, EmptyQueue, batches))
  {
    if batches != [] {
      var front, last := batches[..|batches| - 1], batches[|batches| - 1];
      RunsAreConsistent(route, front);
      ReachIsFirstRefusal(route, last.records);
      AllKeepConsistent(route, After(route, EmptyQueue, front), last.records[..Reach(route, last.records)], last.now);
    }
  }

  lemma ExtendsTransitive(a: Queue, b: Queue, c: Queue)
    requires Extends(a, b) && Extends(b, c)
    ensures Extends(a, c)
  {
  }

  /** What a later batch leaves of an earlier state: everything. */
  lemma {:induction false} RunsOnlyExtend(route: Routing, before: seq<Batch>, later: seq<Batch>)
    ensures Extends(After(route, EmptyQueue, before), After(route, EmptyQueue, before + later))
  {
    if later == [] {
      assert before + later == before;
    } else {
      var front, last := later[..|later| - 1], later[|later| - 1];
      assert (before + later)[..|before + later| - 1] == before + front;
      RunsOnlyExtend(route, before, front);
      RunsAreConsistent(route, before + front);
      ReachIsFirstRefusal(route, last.records);
      AllKeepConsistent(route, After(route, EmptyQueue, before + front), last.records[..Reach(route, last.records)], last.now);
      AllAreFiled(route, After(route, EmptyQueue, before + front), last.records[..Reach(route, last.records)], last.now);
      ExtendsTransitive(After(route, EmptyQueue, before), After(route, EmptyQueue, before + front),
                        After(route, EmptyQueue, before + later));
    }
  }

  /** In every run, the file `name` in directory `s` holds a record that validates to `s` and whose sanitised key is
      `name`; sanitising `name` again changes nothing. */
  lemma FilesAreWhereTheyBelong(alnum: AlnumClass, batches: seq<Batch>, s: State, name: string)
    requires (s, name) in After(Standard(alnum), EmptyQueue, batches).files
    ensures var r := After(Standard(alnum), EmptyQueue, batches).files[(s, name)].record;
            ValidateRecord(r).state == s && SafeId(alnum, QueueKey(r)) == Some(name) && SafeId(alnum, name) == Some(name)
  {
    var route := Standard(alnum);
    RunsAreConsistent(route, batches);
    var r := After(route, EmptyQueue, batches).files[(s, name)].record;
    assert Target(route, r) == Some((s, name));
    TargetIsPlain(alnum, r, s, name);
  }

  lemma TargetIsPlain(alnum: AlnumClass, r: Record, s: State, name: string)
    requires Target(Standard(alnum), r) == Some((s, name))
    ensures ValidateRecord(r).state == s && SafeId(alnum, QueueKey(r)) == Some(name) && SafeId(alnum, name) == Some(name)
  {
    SafeIdIdempotent(alnum, QueueKey(r));
  }

  /** In every run, "pending" never holds a high-risk record whose outcome is "allowed", and holds nothing invalid. */
  lemma PendingIsSafe(alnum: AlnumClass, batches: seq<Batch>, name: string)
    requires (Pending, name) in After(Standard(alnum), EmptyQueue, batches).files
    ensures var r := After(Standard(alnum), EmptyQueue, batches).files[(Pending, name)].record;
            && Acceptable(r)
            && r.policyOutcome in {"allowed", "redacted"}
            && (HighRisk(r) ==> r.policyOutcome == "redacted")
            && SafeId(alnum, r.idempotencyKey) == Some(name)
  {
    FilesAreWhereTheyBelong(alnum, batches, Pending, name);
    StateExactly(After(Standard(alnum), EmptyQueue, batches).files[(Pending, name)].record);
  }

  lemma {:induction false} KnownRecordsChangeNothing(route: Routing, q: Queue, records: seq<Record>, now: string)
    requires AllFiled(route, q, records)
    ensures var p := EnqueueAll(route, q, records, now);
            && p.files == q.files
            && CountIf(p.audit, WasQueued) == CountIf(q.audit, WasQueued)
            && |p.audit| == |q.audit| + |records|
  {
    if records != [] {
      var front := records[..|records| - 1];
      KnownRecordsChangeNothing(route, q, front, now);
      var p := EnqueueAll(route, q, records, now);
      assert p.audit[..|p.audit| - 1] == EnqueueAll(route, q, front, now).audit;
    }
  }

  /** Enqueuing a batch again, even one that raises half-way, changes no state directory and queues nothing. */
  lemma ReenqueueIsIdle(route: Routing, batches: seq<Batch>, batch: seq<Record>, now: string, later: string)
    ensures var q := EnqueueBatch(route, After(route, EmptyQueue, batches), batch, now);
            var p := EnqueueBatch(route, q, batch, later);
            && p.files == q.files
            && CountIf(p.audit, WasQueued) == CountIf(q.audit, WasQueued)
            && |p.audit| == |q.audit| + Reach(route, batch)
  {
    RunsAreConsistent(route, batches);
    ReachIsFirstRefusal(route, batch);
    var done := batch[..Reach(route, batch)];
    AllAreFiled(route, After(route, EmptyQueue, batches), done, now);
    KnownRecordsChangeNothing(route, EnqueueBatch(route, After(route, EmptyQueue, batches), batch, now), done, later);
  }

  // ---------- the run, record by record ----------

  /** A record that was processed, and the time of its batch. */
  datatype Taken = Taken(record: Record, now: string)

  function Stamped(records: seq<Record>, now: string): seq<Taken> {
    if records == [] then []
    else Stamped(records[..|records| - 1], now) + [Taken(records[|records| - 1], now)]
  }

  /** The records a run processes, in order: of each batch those before the first whose key makes no file name. */
  function Processed(route: Routing, batches: seq<Batch>): seq<Taken> {
    if batches == [] then []
    else
      var last := batches[|batches| - 1];
      ReachIsFirstRefusal(route, last.records);
      Processed(route, batches[..|batches| - 1]) + Stamped(last.records[..Reach(route, last.records)], last.now)
  }

  predicate SameTarget(route: Routing, t: Taken, u: Taken) {
    Target(route, t.record) == Target(route, u.record)
  }

  /** No earlier record went to the same file. */
  ghost predicate First(route: Routing, taken: seq<Taken>, i: nat)
    requires i < |taken|
  {
    forall j :: 0 <= j < i ==> !SameTarget(route, taken[j], taken[i])
  }

  ghost function Targets(route: Routing, taken: seq<Taken>): set<(State, string)> {
    set t | t in taken && Target(route, t.record).Some? :: Target(route, t.record).value
  }

  /** The audit entry of a processed record. */
  predicate Audits(route: Routing, a: Audit, t: Taken) {
    && a.key == QueueKey(t.record) && a.state == route.decide(t.record).state
    && a.eventId == t.record.eventId && a.capabilityId == t.record.capabilityId
  }

  /** The i-th audit entry is that of the i-th record; it says "queued" exactly for the first record of its file, and
      then the file holds that very record with the time and the decision it was queued with. */
  ghost predicate TracedAt(route: Routing, q: Queue, taken: seq<Taken>, i: nat)
    requires i < |taken| == |q.audit|
  {
    var t := taken[i];
    && Target(route, t.record).Some? && Audits(route, q.audit[i], t)
    && (q.audit[i].action == Queued <==> First(route, taken, i))
    && Target(route, t.record).value in q.files
    && (First(route, taken, i) ==> q.files[Target(route, t.record).value] == Envelope(t.now, route.decide(t.record), t.record))
  }

  /** The whole queue, read off the records it was given. */
  ghost predicate Traced(route: Routing, q: Queue, taken: seq<Taken>) {
    && |q.audit| == |taken|
    && (forall i :: 0 <= i < |taken| ==> TracedAt(route, q, taken, i))
    && q.files.Keys == Targets(route, taken)
  }

  lemma TargetsStep(route: Routing, taken: seq<Taken>, t: Taken)
    requires Target(route, t.record).Some?
    ensures Targets(route, taken + [t]) == Targets(route, taken) + {Target(route, t.record).value}
  {
    assert forall x :: x in taken + [t] <==> x in taken || x == t;
  }

  lemma FirstStep(route: Routing, taken: seq<Taken>, t: Taken)
    requires forall x :: x in taken ==> Target(route, x.record).Some?
    requires Target(route, t.record).Some?
    ensures forall i :: 0 <= i < |taken| ==> (First(route, taken + [t], i) <==> First(route, taken, i))
    ensures First(route, taken + [t], |taken|) <==> Target(route, t.record).value !in Targets(route, taken)
  {
    var longer, at := taken + [t], Target(route, t.record).value;
    forall i | 0 <= i < |taken| ensures First(route, longer, i) <==> First(route, taken, i) {
      assert longer[i] == taken[i] && forall j :: 0 <= j < i ==> longer[j] == taken[j];
    }
    if at in Targets(route, taken) {
      var x :| x in taken && Target(route, x.record).Some? && Target(route, x.record).value == at;
      var j :| 0 <= j < |taken| && taken[j] == x;
      assert SameTarget(route, longer[j], longer[|taken|]);
    } else {
      forall j | 0 <= j < |taken| ensures !SameTarget(route, longer[j], longer[|taken|]) {
        assert longer[j] == taken[j] && taken[j] in taken;
      }
    }
  }

  /** What enqueuing one record does, in the words of the trace. */
  lemma OneAdded(route: Routing, q: Queue, t: Taken)
    requires Target(route, t.record).Some?
    ensures var p, at := EnqueueOne(route, q, t.record, t.now), Target(route, t.record).value;
            && |p.audit| == |q.audit| + 1 && p.audit[..|q.audit|] == q.audit && Audits(route, p.audit[|q.audit|], t)
            && (p.audit[|q.audit|].action == Queued <==> at !in q.files)
            && p.files.Keys == q.files.Keys + {at}
            && (forall x :: x in q.files ==> p.files[x] == q.files[x])
            && (at !in q.files ==> p.files[at] == Envelope(t.now, route.decide(t.record), t.record))
  {
  }

  lemma TracedOne(route: Routing, q: Queue, taken: seq<Taken>, t: Taken)
    requires Traced(route, q, taken) && Target(route, t.record).Some?
    ensures Traced(route, EnqueueOne(route, q, t.record, t.now), taken + [t])
  {
    var p, longer := EnqueueOne(route, q, t.record, t.now), taken + [t];
    OneAdded(route, q, t);
    TargetsStep(route, taken, t);
    assert forall x :: x in taken ==> Target(route, x.record).Some? by {
      forall x | x in taken ensures Target(route, x.record).Some? {
        var i :| 0 <= i < |taken| && taken[i] == x;
        assert TracedAt(route, q, taken, i);
      }
    }
    FirstStep(route, taken, t);
    forall i | 0 <= i < |longer| ensures TracedAt(route, p, longer, i) {
      if i < |taken| {
        assert TracedAt(route, q, taken, i);
        assert longer[i] == taken[i] && p.audit[i] == q.audit[i];
      }
    }
  }

  lemma {:induction false} TracedAll(route: Routing, q: Queue, taken: seq<Taken>, records: seq<Record>, now: string)
    requires Traced(route, q, taken)
    requires forall i :: 0 <= i < |records| ==> Target(route, records[i]).Some?
    ensures Traced(route, EnqueueAll(route, q, records, now), taken + Stamped(records, now))
  {
    hide *;
    if records == [] {
      NothingStamped(route, q, now);
      assert taken + [] == taken;
    } else {
      var front, last := records[..|records| - 1], records[|records| - 1];
      TracedAll(route, q, taken, front, now);
      TracedOne(route, EnqueueAll(route, q, front, now), taken + Stamped(front, now), Taken(last, now));
      LastStamped(route, q, records, now);
      assert taken + Stamped(front, now) + [Taken(last, now)] == taken + (Stamped(front, now) + [Taken(last, now)]);
    }
  }

  lemma NothingStamped(route: Routing, q: Queue, now: string)
    ensures Stamped([], now) == [] && EnqueueAll(route, q, [], now) == q
  {
  }

  lemma LastStamped(route: Routing, q: Queue, records: seq<Record>, now: string)
    requires records != [] && forall i :: 0 <= i < |records| ==> Target(route, records[i]).Some?
    ensures var front, last := records[..|records| - 1], records[|records| - 1];
            && Stamped(records, now) == Stamped(front, now) + [Taken(last, now)]
            && EnqueueAll(route, q, records, now) == EnqueueOne(route, EnqueueAll(route, q, front, now), last, now)
  {
  }

  lemma NothingTraced(route: Routing)
    ensures Traced(route, EmptyQueue, [])
  {
  }

  /** Every run, record by record: the i-th audit entry is that of the i-th processed record, "queued" exactly when no
      earlier record went to the same file, and the files are exactly the targets of the processed records, each with the
      first record that went there. */
  lemma {:induction false} RunsAreTraced(route: Routing, batches: seq<Batch>)
    ensures Traced(route, After(route, EmptyQueue, batches), Processed(route, batches))
  {
    if batches == [] {
      NothingTraced(route);
    } else {
      var front, last := batches[..|batches| - 1], batches[|batches| - 1];
      RunsAreTraced(route, front);
      ReachIsFirstRefusal(route, last.records);
      TracedAll(route, After(route, EmptyQueue, front), Processed(route, front),
                last.records[..Reach(route, last.records)], last.now);
    }
  }

  /** What a caller is told after any run: the errors of a record are empty exactly when it is acceptable, and "queued" means
      that no record processed so far, in this batch or before it, went to the same file. */
  lemma AnswersAreTrue(alnum: AlnumClass, batches: seq<Batch>, batch: seq<Record>, i: nat, item: Item)
    requires i < |batch| && Target(Standard(alnum), batch[i]).Some?
    requires Answers(Standard(alnum), After(Standard(alnum), EmptyQueue, batches).files, batch, i, item)
    ensures item.errors == [] <==> Acceptable(batch[i])
    ensures item.errors != [] ==> item.state == DeadLetter
    ensures var route := Standard(alnum);
            item.action == Queued <==>
              && (forall t :: t in Processed(route, batches) ==> Target(route, t.record) != Target(route, batch[i]))
              && (forall j :: 0 <= j < i ==> Target(route, batch[j]) != Target(route, batch[i]))
  {
    hide Target, After, Processed, Problems;
    var route := Standard(alnum);
    var q, taken, at := After(route, EmptyQueue, batches), Processed(route, batches), Target(route, batch[i]).value;
    RunsAreTraced(route, batches);
    NoProblemsExactly(batch[i]);
    if at in q.files {
      var t := FileHasRecord(route, taken, at);
    } else if t :| t in taken && Target(route, t.record) == Some(at) {
      var b := RecordHasFile(route, q, taken, t);
    }
  }

  /** A record with neither an idempotency key nor an id of its own. */
  predicate Nameless(r: Record) {
    r.idempotencyKey == "" && r.recordId.None?
  }

  lemma NamelessTarget(alnum: AlnumClass, r: Record)
    requires (forall c :: 'a' <= c <= 'z' ==> alnum(c)) && Nameless(r)
    ensures Target(Standard(alnum), r) == Some((DeadLetter, "missing-id"))
  {
    hide Problems;
    NoProblemsExactly(r);
    PortableFixed(alnum, "missing-id");
  }

  /** All nameless records share one dead letter: in every run only the first of them is kept, and each later one is audited
      as its duplicate, whatever they hold. */
  lemma NamelessRecordsShareAFile(alnum: AlnumClass, batches: seq<Batch>, i: nat, j: nat)
    requires forall c :: 'a' <= c <= 'z' ==> alnum(c)
    requires var taken := Processed(Standard(alnum), batches);
             i < j < |taken| && Nameless(taken[i].record) && Nameless(taken[j].record)
    ensures var q := After(Standard(alnum), EmptyQueue, batches);
            && j < |q.audit| && q.audit[j].action == Deduped && q.audit[j].state == DeadLetter
            && (DeadLetter, "missing-id") in q.files
  {
    hide Target, After, Processed, Problems, Standard;
    var route := Standard(alnum);
    var q, taken := After(route, EmptyQueue, batches), Processed(route, batches);
    RunsAreTraced(route, batches);
    NamelessTarget(alnum, taken[i].record);
    NamelessTarget(alnum, taken[j].record);
    assert TracedAt(route, q, taken, j) && SameTarget(route, taken[i], taken[j]);
    TargetState(route, taken[j].record);
  }

  lemma TargetState(route: Routing, r: Record)
    requires Target(route, r).Some?
    ensures Target(route, r).value.0 == route.decide(r).state
  {
  }

  // ---------- exactly once? ----------

  /** The file at `at` holds a record with this key. */
  predicate HoldsKey(q: Queue, at: (State, string), key: string) {
    at in q.files && QueueKey(q.files[at].record) == key
  }

  /** Every processed record finds its own key in the file it goes to: it was put there itself, or it was dropped for a
      record with the same key. */
  ghost predicate NoKeyIsLost(route: Routing, q: Queue, taken: seq<Taken>) {
    forall t :: t in taken && Target(route, t.record).Some? ==> HoldsKey(q, Target(route, t.record).value, QueueKey(t.record))
  }

  ghost predicate NoKeyHasTwoFiles(q: Queue) {
    forall a, b, key :: HoldsKey(q, a, key) && HoldsKey(q, b, key) ==> a == b
  }

  predicate SameKey(t: Taken, u: Taken) {
    QueueKey(t.record) == QueueKey(u.record)
  }

  /** Records go to the same file exactly when they have the same key. */
  ghost predicate KeysDecideFiles(route: Routing, taken: seq<Taken>) {
    forall t, u :: t in taken && u in taken ==> (SameKey(t, u) <==> SameTarget(route, t, u))
  }

  lemma FileHasRecord(route: Routing, taken: seq<Taken>, at: (State, string)) returns (t: Taken)
    requires at in Targets(route, taken)
    ensures t in taken && Target(route, t.record) == Some(at)
    ensures route.names(QueueKey(t.record)) == Some(at.1) && route.decide(t.record).state == at.0
  {
    t :| t in taken && Target(route, t.record).Some? && Target(route, t.record).value == at;
  }

  lemma RecordHasFile(route: Routing, q: Queue, taken: seq<Taken>, t: Taken) returns (at: (State, string))
    requires Traced(route, q, taken) && t in taken
    ensures Target(route, t.record) == Some(at)
    ensures at in q.files && route.names(QueueKey(t.record)) == Some(at.1) && at.0 == route.decide(t.record).state
  {
    var i :| 0 <= i < |taken| && taken[i] == t;
    assert TracedAt(route, q, taken, i);
    at := Target(route, t.record).value;
  }

  lemma {:induction false} FirstOfItsFile(route: Routing, taken: seq<Taken>, i: nat) returns (j: nat)
    requires i < |taken|
    ensures j <= i && First(route, taken, j) && SameTarget(route, taken[j], taken[i])
  {
    if First(route, taken, i) {
      j := i;
    } else {
      var k :| 0 <= k < i && SameTarget(route, taken[k], taken[i]);
      j := FirstOfItsFile(route, taken, k);
    }
  }

  /** Each file holds the record of one of the records that went there. */
  lemma FileIsOfRecord(route: Routing, q: Queue, taken: seq<Taken>, at: (State, string)) returns (t: Taken)
    requires Traced(route, q, taken) && at in q.files
    ensures t in taken && Target(route, t.record) == Some(at) && q.files[at].record == t.record
  {
    var u := FileHasRecord(route, taken, at);
    var i :| 0 <= i < |taken| && taken[i] == u;
    var j := FirstOfItsFile(route, taken, i);
    assert TracedAt(route, q, taken, j);
    t := taken[j];
  }

  lemma PromiseDecides(route: Routing, q: Queue, taken: seq<Taken>, t: Taken, u: Taken)
    requires Traced(route, q, taken) && NoKeyIsLost(route, q, taken) && NoKeyHasTwoFiles(q)
    requires t in taken && u in taken
    ensures SameKey(t, u) <==> SameTarget(route, t, u)
  {
    hide Traced, Target;
    var a := RecordHasFile(route, q, taken, t);
    var b := RecordHasFile(route, q, taken, u);
    assert HoldsKey(q, a, QueueKey(t.record)) && HoldsKey(q, b, QueueKey(u.record));
  }

  lemma DecidedMeansPromise(route: Routing, q: Queue, taken: seq<Taken>)
    requires Traced(route, q, taken) && KeysDecideFiles(route, taken)
    ensures NoKeyIsLost(route, q, taken) && NoKeyHasTwoFiles(q)
  {
    hide Traced, Target;
    forall t | t in taken && Target(route, t.record).Some?
      ensures HoldsKey(q, Target(route, t.record).value, QueueKey(t.record))
    {
      var at := RecordHasFile(route, q, taken, t);
      var u := FileIsOfRecord(route, q, taken, at);
      assert SameTarget(route, t, u);
    }
    forall a, b, key | HoldsKey(q, a, key) && HoldsKey(q, b, key) ensures a == b {
      var t := FileIsOfRecord(route, q, taken, a);
      var u := FileIsOfRecord(route, q, taken, b);
      assert SameKey(t, u);
    }
  }

  /** The manifest promises delivery exactly once by idempotency key. A run keeps that promise - no key is lost to
      another key's file, and none has two files - exactly when the records it processes go to the same file exactly when
      they have the same key. */
  lemma ExactlyOnceByKey(route: Routing, batches: seq<Batch>)
    ensures var q, taken := After(route, EmptyQueue, batches), Processed(route, batches);
            NoKeyIsLost(route, q, taken) && NoKeyHasTwoFiles(q) <==> KeysDecideFiles(route, taken)
  {
    var q, taken := After(route, EmptyQueue, batches), Processed(route, batches);
    RunsAreTraced(route, batches);
    if NoKeyIsLost(route, q, taken) && NoKeyHasTwoFiles(q) {
      forall t, u | t in taken && u in taken ensures SameKey(t, u) <==> SameTarget(route, t, u) {
        PromiseDecides(route, q, taken, t, u);
      }
    }
    if KeysDecideFiles(route, taken) {
      DecidedMeansPromise(route, q, taken);
    }
  }

  /** Some name has a file in two directories. */
  ghost predicate NameTwice(q: Queue) {
    exists a, b :: a in q.files && b in q.files && a.1 == b.1 && a.0 != b.0
  }

  /** Two records whose keys sanitise to one name, and which are classified differently. */
  predicate Disagree(route: Routing, t: Taken, u: Taken) {
    && route.names(QueueKey(t.record)) == route.names(QueueKey(u.record))
    && route.decide(t.record).state != route.decide(u.record).state
  }

  ghost predicate Reclassified(route: Routing, taken: seq<Taken>) {
    exists t, u :: t in taken && u in taken && Disagree(route, t, u)
  }

  lemma TwiceMeansReclassified(route: Routing, q: Queue, taken: seq<Taken>)
    requires Traced(route, q, taken)
    ensures NameTwice(q) <==> Reclassified(route, taken)
  {
    if NameTwice(q) {
      var a, b :| a in q.files && b in q.files && a.1 == b.1 && a.0 != b.0;
      var t := FileHasRecord(route, taken, a);
      var u := FileHasRecord(route, taken, b);
      assert Disagree(route, t, u);
    }
    if Reclassified(route, taken) {
      var t, u :| t in taken && u in taken && Disagree(route, t, u);
      var a := RecordHasFile(route, q, taken, t);
      var b := RecordHasFile(route, q, taken, u);
    }
  }

  /** A file name alone is another matter: it is in two directories exactly when two records whose keys sanitise to it are
      classified differently. */
  lemma NamesRepeatExactly(route: Routing, batches: seq<Batch>)
    ensures NameTwice(After(route, EmptyQueue, batches)) <==> Reclassified(route, Processed(route, batches))
  {
    RunsAreTraced(route, batches);
    TwiceMeansReclassified(route, After(route, EmptyQueue, batches), Processed(route, batches));
  }

  // ---------- runs that break the promise ----------

  /** A harmless record with this key whose policy gave, and required, this outcome. */
  function Plain(key: string, outcome: string): Record {
    Record(None, "e", key, "c", "observe", "", outcome, outcome, true, ["r"], [])
  }

  /** The run of a batch of two such records. */
  function Pair(alnum: AlnumClass, now: string, key: string, outcome: string, key': string, outcome': string): Queue {
    After(Standard(alnum), EmptyQueue, [Batch([Plain(key, outcome), Plain(key', outcome')], now)])
  }

  lemma PlainTarget(alnum: AlnumClass, key: string, outcome: string)
    requires key != ""
    ensures QueueKey(Plain(key, outcome)) == key
    ensures Target(Standard(alnum), Plain(key, outcome)) ==
            match SafeId(alnum, key) case None => None case Some(name) => Some((Destination(outcome), name))
  {
    hide Problems;
    NoProblemsExactly(Plain(key, outcome));
  }

  /** "k" and "k " are two keys and one file name. */
  lemma KeysOfOneName(alnum: AlnumClass)
    requires alnum('k')
    ensures SafeId(alnum, "k") == Some("k") && SafeId(alnum, "k ") == Some("k")
    ensures "k" != "k "
  {
    PortableFixed(alnum, "k");
    DropWhileAppend(IsSpace, "k", ' ');
    assert "k" + [' '] == "k ";
  }

  lemma TwoAreProcessed(route: Routing, r: Record, s: Record, now: string)
    requires Target(route, r).Some? && Target(route, s).Some?
    ensures Processed(route, [Batch([r, s], now)]) == [Taken(r, now), Taken(s, now)]
  {
    var batch := [r, s];
    assert batch[1..] == [s] && [s][1..] == [];
    assert Reach(route, [s]) == 1 && Reach(route, batch) == 2;
    assert batch[..2] == batch && batch[..1] == [r] && [r][..0] == [];
    assert Stamped([r], now) == [Taken(r, now)];
    assert [Batch(batch, now)][..0] == [];
  }

  lemma PairIsTraced(alnum: AlnumClass, now: string, key: string, outcome: string, key': string, outcome': string)
    requires alnum('k') && key in {"k", "k "} && key' in {"k", "k "}
    ensures var t, u := Taken(Plain(key, outcome), now), Taken(Plain(key', outcome'), now);
            && Traced(Standard(alnum), Pair(alnum, now, key, outcome, key', outcome'), [t, u])
            && Processed(Standard(alnum), [Batch([t.record, u.record], now)]) == [t, u]
            && Target(Standard(alnum), t.record) == Some((Destination(outcome), "k"))
            && Target(Standard(alnum), u.record) == Some((Destination(outcome'), "k"))
            && QueueKey(t.record) == key && QueueKey(u.record) == key'
  {
    hide Traced, Processed, After, Standard, SafeId, Destination, QueueKey, Plain, Target;
    KeysOfOneName(alnum);
    PlainTarget(alnum, key, outcome);
    PlainTarget(alnum, key', outcome');
    TwoAreProcessed(Standard(alnum), Plain(key, outcome), Plain(key', outcome'), now);
    RunsAreTraced(Standard(alnum), [Batch([Plain(key, outcome), Plain(key', outcome')], now)]);
  }

  /** One key, two files: a batch with the same key first allowed, then denied, leaves a file in "pending" and one in
      "blocked", and both hold that key. */
  lemma OneKeyCanBeQueuedTwice(alnum: AlnumClass, now: string)
    requires alnum('k')
    ensures var q := Pair(alnum, now, "k", "allowed", "k", "denied");
            && q.files.Keys == {(Pending, "k"), (Blocked, "k")}
            && HoldsKey(q, (Pending, "k"), "k") && HoldsKey(q, (Blocked, "k"), "k")
            && !NoKeyHasTwoFiles(q)
  {
    hide Traced, Processed, After, Standard, Plain, Target, QueueKey;
    PairIsTraced(alnum, now, "k", "allowed", "k", "denied");
    TwoFiles(Standard(alnum), Pair(alnum, now, "k", "allowed", "k", "denied"), Taken(Plain("k", "allowed"), now),
             Taken(Plain("k", "denied"), now), (Pending, "k"), (Blocked, "k"));
  }

  /** A key that is never delivered: "k " and then "k", both allowed, leave one file, and it is that of "k "; the audit
      log calls the record with key "k" a duplicate, although no record with that key came before it. */
  lemma OneKeyCanBeLost(alnum: AlnumClass, now: string)
    requires alnum('k')
    ensures var q := Pair(alnum, now, "k ", "allowed", "k", "allowed");
            && q.files.Keys == {(Pending, "k")}
            && HoldsKey(q, (Pending, "k"), "k ") && !(exists at :: HoldsKey(q, at, "k"))
            && |q.audit| == 2 && q.audit[1].action == Deduped && q.audit[1].key == "k" && q.audit[0].key == "k "
            && !NameTwice(q)
  {
    hide Traced, Processed, After, Standard, Plain, Target, QueueKey;
    PairIsTraced(alnum, now, "k ", "allowed", "k", "allowed");
    KeysOfOneName(alnum);
    var q := Pair(alnum, now, "k ", "allowed", "k", "allowed");
    OneFile(Standard(alnum), q, Taken(Plain("k ", "allowed"), now), Taken(Plain("k", "allowed"), now), (Pending, "k"));
    forall at | at in q.files ensures at == (Pending, "k") {
      assert at in q.files.Keys;
    }
  }

  /** And a name in two directories need not break it: "k " allowed and "k" denied have one file each. */
  lemma TwoKeysCanShareAName(alnum: AlnumClass, now: string)
    requires alnum('k')
    ensures var q := Pair(alnum, now, "k ", "allowed", "k", "denied");
            && NameTwice(q) && NoKeyHasTwoFiles(q)
            && HoldsKey(q, (Pending, "k"), "k ") && HoldsKey(q, (Blocked, "k"), "k")
  {
    hide Traced, Processed, After, Standard, Plain, Target, QueueKey;
    PairIsTraced(alnum, now, "k ", "allowed", "k", "denied");
    KeysOfOneName(alnum);
    var q := Pair(alnum, now, "k ", "allowed", "k", "denied");
    TwoFiles(Standard(alnum), q, Taken(Plain("k ", "allowed"), now), Taken(Plain("k", "denied"), now), (Pending, "k"),
             (Blocked, "k"));
    forall a, b, key | HoldsKey(q, a, key) && HoldsKey(q, b, key) ensures a == b {
      assert a in q.files.Keys && b in q.files.Keys;
    }
  }

  lemma TwoFiles(route: Routing, q: Queue, t: Taken, u: Taken, a: (State, string), b: (State, string))
    requires Traced(route, q, [t, u]) && Target(route, t.record) == Some(a) && Target(route, u.record) == Some(b)
    requires a.1 == b.1 && a.0 != b.0
    ensures NameTwice(q) && q.files.Keys == {a, b}
    ensures HoldsKey(q, a, QueueKey(t.record)) && HoldsKey(q, b, QueueKey(u.record))
  {
    TwoTargets(route, t, u, a, b);
    assert a in q.files && b in q.files;
    assert TracedAt(route, q, [t, u], 0) && TracedAt(route, q, [t, u], 1);
    assert !SameTarget(route, t, u);
    assert First(route, [t, u], 0) && First(route, [t, u], 1);
  }

  lemma OneFile(route: Routing, q: Queue, t: Taken, u: Taken, a: (State, string))
    requires Traced(route, q, [t, u]) && Target(route, t.record) == Some(a) == Target(route, u.record)
    ensures q.files.Keys == {a} && HoldsKey(q, a, QueueKey(t.record))
    ensures |q.audit| == 2 && q.audit[0].key == QueueKey(t.record) && q.audit[1].key == QueueKey(u.record)
    ensures q.audit[1].action == Deduped
  {
    TwoTargets(route, t, u, a, a);
    assert TracedAt(route, q, [t, u], 0) && TracedAt(route, q, [t, u], 1);
    assert SameTarget(route, [t, u][0], [t, u][1]);
    assert First(route, [t, u], 0) && !First(route, [t, u], 1);
  }

  lemma TwoTargets(route: Routing, t: Taken, u: Taken, a: (State, string), b: (State, string))
    requires Target(route, t.record) == Some(a) && Target(route, u.record) == Some(b)
    ensures Targets(route, [t, u]) == {a, b}
  {
    assert forall x :: x in [t, u] <==> x == t || x == u;
  }

  // ---------- what a listing shows ----------

  lemma {:induction false} ListPathsAt(files: Files, text: string, paths: seq<string>)
    requires forall p :: p in paths ==> (StateOf(text), Stem(p)) in files
    ensures |ListPaths(files, text, paths)| == |paths|
    ensures forall i :: 0 <= i < |paths| ==>
              ListPaths(files, text, paths)[i] == Listed(paths[i], text, files[(StateOf(text), Stem(paths[i]))])
  {
    if paths != [] {
      assert forall p :: p in paths[..|paths| - 1] ==> p in paths;
      ListPathsAt(files, text, paths[..|paths| - 1]);
    }
  }

  /** The listed line shows the file of this name in the directory the text stands for. */
  predicate Shows(files: Files, text: string, x: Listed, name: string) {
    (StateOf(text), name) in files && x == Listed(Path(name), text, files[(StateOf(text), name)])
  }

  /** Line by line, in the order of the file names: each line shows its file. */
  lemma ListedLines(files: Files, text: string)
    ensures var paths, lines := SortedSet(Paths(files, StateOf(text))), StateListing(files, text);
            && |lines| == |paths| && Sorted(paths)
            && forall i :: 0 <= i < |lines| ==> lines[i].path == paths[i] && Shows(files, text, lines[i], Stem(paths[i]))
  {
    var s, paths := StateOf(text), SortedSet(Paths(files, StateOf(text)));
    SortedSetSorted(Paths(files, s));
    PathsAreFiles(files, s, paths);
    ListPathsAt(files, text, paths);
    forall i | 0 <= i < |paths| ensures Path(Stem(paths[i])) == paths[i] {
      assert paths[i] in paths;
      var n :| n in Names(files, s) && paths[i] == Path(n);
      StemOfPath(n);
    }
  }

  lemma FileIsListed(files: Files, text: string, x: Listed, name: string)
    requires Shows(files, text, x, name)
    ensures x in StateListing(files, text)
  {
    var paths := SortedSet(Paths(files, StateOf(text)));
    ListedLines(files, text);
    assert name in Names(files, StateOf(text)) && Path(name) in paths;
    var i :| 0 <= i < |paths| && paths[i] == Path(name);
    StemOfPath(name);
    assert StateListing(files, text)[i] == x;
  }

  /** A listing of one state shows exactly the files of that state's directory, each with its own content; a text that
      names no state shows the dead letters under that text. */
  lemma ListingIsExact(files: Files, text: string, x: Listed)
    ensures x in StateListing(files, text) <==> exists name :: Shows(files, text, x, name)
  {
    if x in StateListing(files, text) {
      ListedLines(files, text);
      var i :| 0 <= i < |StateListing(files, text)| && StateListing(files, text)[i] == x;
      assert Shows(files, text, x, Stem(x.path));
    }
    if name :| Shows(files, text, x, name) {
      FileIsListed(files, text, x, name);
    }
  }

  lemma ListingOne(files: Files, text: string)
    requires text != ""
    ensures Listing(files, Some(text)) == StateListing(files, text)
  {
    assert [text][..0] == [];
    assert ListStates(files, [text]) == ListStates(files, []) + StateListing(files, text);
  }

  /** What the line of a listing must hold, by the text it was asked for. */
  predicate BelongsUnder(text: string, r: Record) {
    if text == "pending" then Acceptable(r) && r.policyOutcome in {"allowed", "redacted"}
    else if text == "waiting-approval" then Acceptable(r) && r.policyOutcome == "requires_approval"
    else if text == "blocked" then Acceptable(r) && r.policyOutcome in {"denied", "degraded", "requires_local_only"}
    else !Acceptable(r) || r.policyOutcome !in {"allowed", "redacted", "requires_approval", "denied", "degraded", "requires_local_only"}
  }

  /** After any run each line of a listing holds a record that belongs under the text it was asked for, whatever the text. */
  lemma ListedRecordsBelong(alnum: AlnumClass, batches: seq<Batch>, text: string, x: Listed)
    requires text != "" && x in Listing(After(Standard(alnum), EmptyQueue, batches).files, Some(text))
    ensures BelongsUnder(text, x.envelope.record) && x.state == text
  {
    hide Problems, After, Standard, Acceptable;
    var files := After(Standard(alnum), EmptyQueue, batches).files;
    ListingOne(files, text);
    ListingIsExact(files, text, x);
    var n :| Shows(files, text, x, n);
    FilesAreWhereTheyBelong(alnum, batches, StateOf(text), n);
    StateExactly(x.envelope.record);
  }

  /** A replay moves nothing, and the file it writes for "pending" after any run is safe to act on. */
  lemma PendingReplayIsSafe(alnum: AlnumClass, batches: seq<Batch>, clock: string, name: string, x: Listed)
    requires SafeId(alnum, "pending") == Some(name)
    requires x in Listing(After(Standard(alnum), EmptyQueue, batches).files, Some("pending"))
    ensures var before := After(Standard(alnum), EmptyQueue, batches);
            var after := Replayed(Standard(alnum), before, "pending", clock);
            && after.Some? && x in after.value.replays[ReplayPath(name, clock)]
            && after.value.files == before.files && after.value.audit == before.audit
    ensures var r := x.envelope.record;
            && Acceptable(r) && r.policyOutcome in {"allowed", "redacted"}
            && (HighRisk(r) ==> r.policyOutcome == "redacted")
  {
    var files := After(Standard(alnum), EmptyQueue, batches).files;
    ListingOne(files, "pending");
    ListingIsExact(files, "pending", x);
    var n :| Shows(files, "pending", x, n);
    PendingIsSafe(alnum, batches, n);
  }

  // ---------- counting directories ----------

  function InState(files: Files, s: State): set<(State, string)> {
    set at | at in files && at.0 == s
  }

  lemma {:induction false} NamesCount(files: Files, s: State)
    ensures |Names(files, s)| == |InState(files, s)|
  {
    PairsCount(Names(files, s), s);
    assert InState(files, s) == Pairs(Names(files, s), s);
  }

  function Pairs(names: set<string>, s: State): set<(State, string)> {
    set n | n in names :: (s, n)
  }

  lemma {:induction false} PairsCount(names: set<string>, s: State)
    ensures |Pairs(names, s)| == |names|
    decreases names
  {
    if names != {} {
      var n :| n in names;
      PairsCount(names - {n}, s);
      assert Pairs(names, s) == Pairs(names - {n}, s) + {(s, n)};
    }
  }

  /** Each file is in exactly one of the four directories: what makes the counts of `Summarize` add up. */
  lemma DirectoriesPartition(files: Files)
    ensures |Names(files, Pending)| + |Names(files, Waiting)| + |Names(files, Blocked)| + |Names(files, DeadLetter)|
            == |files|
  {
    NamesCount(files, Pending);
    NamesCount(files, Waiting);
    NamesCount(files, Blocked);
    NamesCount(files, DeadLetter);
    var a, b := InState(files, Pending) + InState(files, Waiting), InState(files, Blocked) + InState(files, DeadLetter);
    assert files.Keys == a + b;
    assert |a + b| == |a| + |b|;
  }
}
