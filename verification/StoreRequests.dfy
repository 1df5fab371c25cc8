/** What the journal and the summary of a run say, read off the requests that were made and nothing else. */
module StoreRequests {
  import opened Text
  import opened Sums
  import opened LocalStore
  import opened StoreRuns

  /** An accepted request, and whether its line was damaged afterwards. */
  datatype Written = Written(request: Request, damaged: bool)

  function WrittenStep(before: seq<Written>, op: Op): seq<Written> {
    match op
    case Damage(j) => if j < |before| then before[j := before[j].(damaged := true)] else before
    case Append(q) => if Accepted(q) then before + [Written(q, false)] else before
    case AppendCut(q) => if Accepted(q) then before + [Written(q, false)] else before
  }

  /** What a run of operations wrote. */
  function WrittenBy(ops: seq<Op>): seq<Written> {
    if ops == [] then [] else WrittenStep(WrittenBy(ops[..|ops| - 1]), ops[|ops| - 1])
  }

  /** The object of the i-th request: the one it names, or one named after its own event. */
  function ObjectNamed(q: Request, i: nat): string {
    if q.objectId.Some? && q.objectId.value != "" then q.objectId.value else "object-" + ("evt-" + Padded(i + 1))
  }

  /** A line that still holds what was requested, or was damaged. */
  predicate Holds(line: Line, w: Written, i: nat) {
    if w.damaged then line == Corrupt
    else
      && line.Json?
      && line.event.eventId == "evt-" + Padded(i + 1) && line.event.eventType == w.request.eventType
      && line.event.lane == Some(w.request.lane) && line.event.producer == Some(w.request.producer)
      && line.event.objectId == Some(ObjectNamed(w.request, i)) && line.event.applied
  }

  ghost predicate HoldsAll(lines: seq<Line>, written: seq<Written>) {
    |lines| == |written| && forall i :: 0 <= i < |lines| ==> Holds(lines[i], written[i], i)
  }

  lemma NewEventHolds(q: Request, i: nat)
    ensures Holds(Json(NewEvent(q, EventId(i + 1))), Written(q, false), i)
  {
  }

  lemma NoneBlank(lines: seq<Line>, written: seq<Written>)
    requires HoldsAll(lines, written)
    ensures |EventsOf(lines)| == |lines| && forall i :: 0 <= i < |lines| ==> EventsOf(lines)[i] == LineEvent(lines, i)
  {
    assert forall i :: 0 <= i < |lines| ==> lines[i] != Blank by {
      forall i | 0 <= i < |lines| ensures lines[i] != Blank { assert Holds(lines[i], written[i], i); }
    }
    EventsByLine(lines);
  }

  lemma AppendHolds(f: Files, written: seq<Written>, q: Request)
    requires HoldsAll(Journal(f), written)
    ensures HoldsAll(Journal(f) + [Json(NextEvent(f, q))], written + [Written(q, false)])
  {
    NoneBlank(Journal(f), written);
    NewEventHolds(q, |Journal(f)|);
  }

  lemma DamageHolds(lines: seq<Line>, written: seq<Written>, j: nat)
    requires HoldsAll(lines, written) && j < |lines|
    ensures lines[j] != Blank && HoldsAll(lines[j := Corrupt], written[j := written[j].(damaged := true)])
  {
    assert Holds(lines[j], written[j], j);
  }

  lemma RefusedUnlessAccepted(r: Run, q: Request)
    requires Sound(r)
    ensures Refusal(r.files, q).None? <==> Accepted(q)
  {
  }

  /** In every run, cuts and damage included, the journal has one line for each accepted request in order: the i-th holds
      the type, lane, producer and object of the i-th request unless it was damaged since. */
  lemma {:induction false} JournalHoldsRequests(ops: seq<Op>)
    ensures HoldsAll(Journal(After(Fresh, ops).files), WrittenBy(ops))
  {
    if ops != [] {
      var front, op := ops[..|ops| - 1], ops[|ops| - 1];
      JournalHoldsRequests(front);
      IdsCountAppends(front);
      HoldsStep(After(Fresh, front), WrittenBy(front), op);
    }
  }

  lemma HoldsStep(r: Run, written: seq<Written>, op: Op)
    requires Sound(r) && HoldsAll(Journal(r.files), written)
    ensures HoldsAll(Journal(Step(r, op).files), WrittenStep(written, op))
  {
    hide HoldsAll, Sound, NextEvent, Refusal, Accepted;
    SameLength(Journal(r.files), written);
    match op
    case Damage(j) => if j < |written| { DamageHolds(Journal(r.files), written, j); }
    case Append(q) => RefusedUnlessAccepted(r, q); AppendHolds(r.files, written, q);
    case AppendCut(q) => RefusedUnlessAccepted(r, q); AppendHolds(r.files, written, q);
  }

  lemma SameLength(lines: seq<Line>, written: seq<Written>)
    requires HoldsAll(lines, written)
    ensures |lines| == |written|
  {
  }

  // ---------- the counters ----------

  /** The event a reader sees for the i-th request. */
  predicate Shows(e: Event, w: Written, i: nat) {
    if w.damaged then
      e.eventType == CorruptType && e.lane == Some("repair") && e.producer == Some("local-store-reader") && e.objectId == None
    else
      && e.eventType == w.request.eventType && e.lane == Some(w.request.lane) && e.producer == Some(w.request.producer)
      && e.objectId == Some(ObjectNamed(w.request, i)) && e.applied
  }

  ghost predicate ShowsAll(es: seq<Event>, written: seq<Written>) {
    |es| == |written| && forall i :: 0 <= i < |es| ==> Shows(es[i], written[i], i)
  }

  lemma EventsShowRequests(ops: seq<Op>)
    ensures ShowsAll(SummaryEvents(After(Fresh, ops).files), WrittenBy(ops))
  {
    var lines, written := Journal(After(Fresh, ops).files), WrittenBy(ops);
    IdsCountAppends(ops);
    JournalHoldsRequests(ops);
    NoneBlank(lines, written);
    forall i | 0 <= i < |lines| ensures Shows(EventsOf(lines)[i], written[i], i) {
      assert Holds(lines[i], written[i], i);
    }
  }

  /** An intact request of one of these types for this lane. */
  function For(types: set<EventType>, lane: string): Written -> bool {
    (w: Written) => !w.damaged && w.request.eventType in types && w.request.lane == lane
  }

  function OfAnyLane(t: EventType): Written -> bool {
    (w: Written) => !w.damaged && w.request.eventType == t
  }

  function Lost(): Written -> bool {
    (w: Written) => w.damaged
  }

  /** A damaged line counts as the reader's own. */
  function From(producer: string): Written -> bool {
    (w: Written) => (if w.damaged then "local-store-reader" else w.request.producer) == producer
  }

  function Objects(written: seq<Written>): set<string> {
    set i | 0 <= i < |written| && !written[i].damaged :: ObjectNamed(written[i].request, i)
  }

  function Removed(written: seq<Written>): set<string> {
    set i | 0 <= i < |written| && !written[i].damaged && written[i].request.eventType == Delete ::
      ObjectNamed(written[i].request, i)
  }

  lemma {:induction false} CountAlike<T, U>(s: seq<T>, t: seq<U>, p: T -> bool, q: U -> bool)
    requires |s| == |t| && forall i :: 0 <= i < |s| ==> (p(s[i]) <==> q(t[i]))
    ensures CountIf(s, p) == CountIf(t, q)
  {
    if s != [] {
      CountAlike(s[..|s| - 1], t[..|t| - 1], p, q);
    }
  }

  /** One event and its request, counter by counter. */
  ghost predicate CountsLike(e: Event, w: Written) {
    && (IsCorrupt(e) <==> w.damaged) && (NamesObject(e) <==> !w.damaged)
    && (forall l :: InLane(l, Tombstones)(e) <==> For({Delete}, l)(w))
    && (forall l :: InLane(l, Maintains)(e) <==> For({Checkpoint, Repair, Policy}, l)(w))
    && (forall l :: InLane(l, IsCorrupt)(e) <==> w.damaged && l == "repair")
    && (forall t :: t in {Add, Update, Delete} ==>
          (OfType(t)(e) <==> OfAnyLane(t)(w)) && (AppliedOfType(t)(e) <==> OfAnyLane(t)(w)))
    && (forall p :: By(p)(e) <==> From(p)(w))
  }

  lemma ShownCounts(e: Event, w: Written, i: nat)
    requires Shows(e, w, i) && Accepted(w.request)
    ensures CountsLike(e, w)
  {
    NamesSomething(w.request, i);
    forall l
      ensures InLane(l, Tombstones)(e) <==> For({Delete}, l)(w)
      ensures InLane(l, Maintains)(e) <==> For({Checkpoint, Repair, Policy}, l)(w)
      ensures InLane(l, IsCorrupt)(e) <==> w.damaged && l == "repair"
    {
      assert InLane(l, Tombstones)(e) <==> LaneOf(e) == l && Tombstones(e);
      assert InLane(l, Maintains)(e) <==> LaneOf(e) == l && Maintains(e);
      assert InLane(l, IsCorrupt)(e) <==> LaneOf(e) == l && IsCorrupt(e);
    }
  }

  lemma NamesSomething(q: Request, i: nat)
    ensures ObjectNamed(q, i) != ""
  {
  }

  lemma {:induction false} WrittenAccepted(ops: seq<Op>)
    ensures AllAccepted(WrittenBy(ops))
  {
    if ops != [] { WrittenAccepted(ops[..|ops| - 1]); }
  }

  ghost predicate AllAccepted(written: seq<Written>) {
    forall i :: 0 <= i < |written| ==> Accepted(written[i].request)
  }

  function LostIn(l: string): Written -> bool {
    (w: Written) => w.damaged && l == "repair"
  }

  /** Every counter that the summary takes from the events, from the requests instead. */
  ghost predicate CountsAgree(es: seq<Event>, written: seq<Written>) {
    && CountIf(es, IsCorrupt) == CountIf(written, Lost())
    && (forall l :: CountIf(es, InLane(l, Tombstones)) == CountIf(written, For({Delete}, l)))
    && (forall l :: CountIf(es, InLane(l, Maintains)) == CountIf(written, For({Checkpoint, Repair, Policy}, l)))
    && (forall l :: CountIf(es, InLane(l, IsCorrupt)) == CountIf(written, LostIn(l)))
    && (forall t :: t in {Add, Update, Delete} ==>
          CountIf(es, OfType(t)) == CountIf(es, AppliedOfType(t)) == CountIf(written, OfAnyLane(t)))
    && (forall p :: CountIf(es, By(p)) == CountIf(written, From(p)))
  }

  lemma EventsCountRequests(es: seq<Event>, written: seq<Written>)
    requires ShowsAll(es, written) && AllAccepted(written)
    ensures CountsAgree(es, written)
  {
    hide Shows, Accepted, CountIf, InLane, OfType, AppliedOfType, By, From, For, OfAnyLane;
    forall i | 0 <= i < |es| ensures CountsLike(es[i], written[i]) {
      ShownCounts(es[i], written[i], i);
    }
    CountAlike(es, written, IsCorrupt, Lost());
    forall l ensures CountIf(es, InLane(l, Tombstones)) == CountIf(written, For({Delete}, l)) {
      CountAlike(es, written, InLane(l, Tombstones), For({Delete}, l));
    }
    forall l ensures CountIf(es, InLane(l, Maintains)) == CountIf(written, For({Checkpoint, Repair, Policy}, l)) {
      CountAlike(es, written, InLane(l, Maintains), For({Checkpoint, Repair, Policy}, l));
    }
    forall l ensures CountIf(es, InLane(l, IsCorrupt)) == CountIf(written, LostIn(l)) {
      CountAlike(es, written, InLane(l, IsCorrupt), LostIn(l));
    }
    forall t | t in {Add, Update, Delete}
      ensures CountIf(es, OfType(t)) == CountIf(es, AppliedOfType(t)) == CountIf(written, OfAnyLane(t))
    {
      CountAlike(es, written, OfType(t), OfAnyLane(t));
      CountAlike(es, written, AppliedOfType(t), OfAnyLane(t));
    }
    forall p ensures CountIf(es, By(p)) == CountIf(written, From(p)) {
      CountAlike(es, written, By(p), From(p));
    }
  }

  lemma ObjectsAgree(es: seq<Event>, written: seq<Written>)
    requires ShowsAll(es, written) && AllAccepted(written)
    ensures SeenObjects(es) == Objects(written) && DeletedObjects(es) == Removed(written)
  {
    hide Accepted, ObjectNamed;
    forall i | 0 <= i < |es| ensures NamesObject(es[i]) <==> !written[i].damaged {
      ShownCounts(es[i], written[i], i);
    }
    forall i | 0 <= i < |es| ensures Shows(es[i], written[i], i) {}
    forall x ensures x in SeenObjects(es) <==> x in Objects(written) {
      if x in SeenObjects(es) {
        var i :| 0 <= i < |es| && NamesObject(es[i]) && es[i].objectId.value == x;
        assert x == ObjectNamed(written[i].request, i);
      }
      if x in Objects(written) {
        var i :| 0 <= i < |written| && !written[i].damaged && x == ObjectNamed(written[i].request, i);
        assert es[i] in es;
      }
    }
    forall x ensures x in DeletedObjects(es) <==> x in Removed(written) {
      if x in DeletedObjects(es) {
        var i :| 0 <= i < |es| && Tombstones(es[i]) && es[i].objectId.value == x;
        assert x == ObjectNamed(written[i].request, i);
      }
      if x in Removed(written) {
        var i :| 0 <= i < |written| && !written[i].damaged && written[i].request.eventType == Delete
                 && x == ObjectNamed(written[i].request, i);
        assert es[i] in es && Tombstones(es[i]);
      }
    }
  }

  // ---------- the summary ----------

  /** What one lane of the summary says, in terms of the requests. */
  ghost predicate LaneTells(lane: LaneSummary, written: seq<Written>, bytes: nat) {
    var lost := CountIf(written, Lost());
    && lane.journalBytes == bytes
    && lane.maxReplayLag == (if lane.name == "priority" then 0 else 100)
    && lane.maxReplayLagMs == (if lane.name == "priority" then 1000 else 10000)
    && lane.tombstones == CountIf(written, For({Delete}, lane.name))
    && lane.corrupted == (if lane.name == "repair" then 2 * lost else 0)
    && lane.total == (if lane.name == "normal" then |Objects(written) - Removed(written)|
                      else CountIf(written, For({Checkpoint, Repair, Policy}, lane.name)))
    && lane.replayLag == 0
    && lane.status == (if lane.name == "repair" && lost > 0 then "degraded" else "active")
    && lane.checksum == (if lost == 0 then "verified" else "mismatch")
  }

  ghost predicate PipelineTells(p: Pipeline, written: seq<Written>) {
    var adds, updates, deletes := CountIf(written, OfAnyLane(Add)), CountIf(written, OfAnyLane(Update)),
                                  CountIf(written, OfAnyLane(Delete));
    && p.add == WriteCounts(adds, adds, adds, adds) && p.update == WriteCounts(updates, updates, updates, updates)
    && p.delete == DeleteCounts(deletes, deletes, deletes, deletes, deletes)
  }

  lemma LostInLane(written: seq<Written>, l: string)
    ensures CountIf(written, LostIn(l)) == if l == "repair" then CountIf(written, Lost()) else 0
  {
    if l == "repair" {
      CountAlike(written, written, LostIn(l), Lost());
    } else {
      CountNever(written, LostIn(l));
    }
  }

  lemma FinalLaneTells(l: string, es: seq<Event>, bytes: nat, written: seq<Written>)
    requires CountsAgree(es, written) && CountIf(es, Unapplied) == 0
    requires SeenObjects(es) == Objects(written) && DeletedObjects(es) == Removed(written)
    ensures LaneTells(FinalLane(l, true, es, bytes), written, bytes)
  {
    hide CountIf, SeenObjects, DeletedObjects, Objects, Removed, InLane, For, LostIn, Lost;
    LostInLane(written, l);
  }

  lemma {:induction false} DedupeDistinct(lanes: seq<string>)
    requires Distinct(lanes)
    ensures Dedupe(lanes) == lanes
  {
    if lanes != [] {
      DedupeDistinct(lanes[..|lanes| - 1]);
      assert lanes == lanes[..|lanes| - 1] + [lanes[|lanes| - 1]];
    }
  }

  lemma DefaultsDiffer()
    ensures Distinct(DEFAULT_LANES) && "repair" in DEFAULT_LANES
  {
    assert DEFAULT_LANES[8] == "repair";
  }

  /** The lanes of a run's store are the default ones, in their order. */
  lemma {:induction false} OnlyDefaultLanes(es: seq<Event>, written: seq<Written>)
    requires ShowsAll(es, written) && AllAccepted(written)
    ensures LaneOrder(DEFAULT_LANES, es) == DEFAULT_LANES
  {
    DefaultsDiffer();
    if es == [] {
      DedupeDistinct(DEFAULT_LANES);
    } else {
      OnlyDefaultLanes(es[..|es| - 1], written[..|es| - 1]);
      assert Shows(es[|es| - 1], written[|es| - 1], |es| - 1);
    }
  }

  lemma RunSummary(ops: seq<Op>, bytes: nat)
    ensures var f := After(Fresh, ops).files;
            var s, es := Summarized(f, bytes), SummaryEvents(f);
            && s.lanes == FinalLanes(LaneOrder(DEFAULT_LANES, es), true, es, bytes)
            && s.pipeline == Pipeline(Writes(es, Add), Writes(es, Update), Deletes(es))
            && s.producers == Producers(es) && es == EventsOf(Journal(f))
  {
    hide EventsOf, LaneOrder, FinalLanes, Writes, Deletes, Producers, Ranked, ProducerOrder, RegistryCounts, CountIf;
    IdsCountAppends(ops);
  }

  lemma PipelineFromCounts(es: seq<Event>, written: seq<Written>)
    requires CountsAgree(es, written)
    ensures PipelineTells(Pipeline(Writes(es, Add), Writes(es, Update), Deletes(es)), written)
  {
    hide CountIf, OfType, AppliedOfType, OfAnyLane;
  }

  lemma NeverSeen(es: seq<Event>, p: string)
    ensures EventsBy(Producers(es), p) == CountIf(es, By(p))
  {
    if p !in Producers(es) { CountNever(es, By(p)); }
  }

  lemma ProducersFromCounts(es: seq<Event>, written: seq<Written>)
    requires CountsAgree(es, written)
    ensures forall p :: EventsBy(Producers(es), p) == CountIf(written, From(p))
  {
    hide CountIf, By, From, Producers, EventsBy;
    forall p ensures EventsBy(Producers(es), p) == CountIf(written, From(p)) { NeverSeen(es, p); }
  }

  lemma LanesFromCounts(order: seq<string>, es: seq<Event>, bytes: nat, written: seq<Written>)
    requires CountsAgree(es, written) && CountIf(es, Unapplied) == 0
    requires SeenObjects(es) == Objects(written) && DeletedObjects(es) == Removed(written)
    ensures var lanes := FinalLanes(order, true, es, bytes);
            && |lanes| == |order|
            && forall i :: 0 <= i < |lanes| ==> lanes[i].name == order[i] && LaneTells(lanes[i], written, bytes)
  {
    hide CountsAgree, LaneTells, CountIf, SeenObjects, DeletedObjects, Objects, Removed;
    FinalLanesAt(order, true, es, bytes);
    forall i | 0 <= i < |order| ensures LaneTells(FinalLane(order[i], true, es, bytes), written, bytes) {
      FinalLaneTells(order[i], es, bytes, written);
    }
  }

  /** The summary after any run of appends, cuts and damage, read off the requests: the lanes are the default ones, each
      with the deletes and the maintenance requests made for it, lane "normal" with the objects that were named and never
      deleted; the pipeline has the adds, updates and deletes, and each producer what it wrote. A damaged line counts for
      none of them but as corruption. */
  lemma SummaryTellsRequests(ops: seq<Op>, bytes: nat)
    ensures var s, written := Summarized(After(Fresh, ops).files, bytes), WrittenBy(ops);
            && |s.lanes| == |DEFAULT_LANES|
            && (forall i :: 0 <= i < |s.lanes| ==> s.lanes[i].name == DEFAULT_LANES[i] && LaneTells(s.lanes[i], written, bytes))
            && PipelineTells(s.pipeline, written)
            && (forall p :: EventsBy(s.producers, p) == CountIf(written, From(p)))
  {
    hide *;
    var f := After(Fresh, ops).files;
    var es, written := SummaryEvents(f), WrittenBy(ops);
    RunSummary(ops, bytes);
    EventsShowRequests(ops);
    WrittenAccepted(ops);
    EventsCountRequests(es, written);
    ObjectsAgree(es, written);
    RunsLeaveNothingUnapplied(ops);
    OnlyDefaultLanes(es, written);
    LanesFromCounts(DEFAULT_LANES, es, bytes, written);
    PipelineFromCounts(es, written);
    ProducersFromCounts(es, written);
  }

  /** An object that is added and then deleted by name is not live any more, whoever deletes it. */
  lemma AddThenDelete(id: string, lane: string, producer: string, other: string, bytes: nat)
    requires id != "" && lane in DEFAULT_LANES
    ensures var ops := [Append(Request(Add, lane, Some(id), producer)), Append(Request(Delete, lane, Some(id), other))];
            var lanes := Summarized(After(Fresh, ops).files, bytes).lanes;
            |lanes| == |DEFAULT_LANES| && lanes[0].name == "normal" && lanes[0].total == 0
  {
    hide After, Summarized, LaneTells, PipelineTells, CountIf, WrittenBy;
    var a, b := Append(Request(Add, lane, Some(id), producer)), Append(Request(Delete, lane, Some(id), other));
    SummaryTellsRequests([a, b], bytes);
    TwoWritten(a, b);
    var written := WrittenBy([a, b]);
    assert ObjectNamed(written[0].request, 0) == id && ObjectNamed(written[1].request, 1) == id;
    assert Objects(written) == {id} && Removed(written) == {id};
    NormalIsLive(Summarized(After(Fresh, [a, b]).files, bytes).lanes[0], written, bytes);
  }

  lemma NormalIsLive(lane: LaneSummary, written: seq<Written>, bytes: nat)
    requires LaneTells(lane, written, bytes) && lane.name == "normal"
    ensures lane.total == |Objects(written) - Removed(written)|
  {
  }

  lemma TwoWritten(a: Op, b: Op)
    requires a.Append? && b.Append? && Accepted(a.request) && Accepted(b.request)
    ensures WrittenBy([a, b]) == [Written(a.request, false), Written(b.request, false)]
  {
    assert [a, b][..1] == [a] && [a][..0] == [];
    assert WrittenBy([a]) == [Written(a.request, false)];
  }
}
