/** What holds over every run of appends, and what the summary's counters add up to. */
module StoreRuns {
  import opened Text
  import opened Sums
  import opened LocalStore

  // ---------- runs of appends ----------

  /** An append, an append cut short between its two writes, or damage that turns a line into unparsable text. */
  datatype Op = Append(request: Request) | AppendCut(request: Request) | Damage(line: nat)

  /** The files, the ids handed out so far, and how many appends were cut short. */
  datatype Run = Run(files: Files, issued: seq<string>, cuts: nat)

  function Step(r: Run, op: Op): Run {
    match op
    case Damage(j) =>
      var lines := Journal(r.files);
      if j < |lines| && lines[j] != Blank then r.(files := r.files.(journal := Some(lines[j := Corrupt]))) else r
    case Append(q) =>
      if Refusal(r.files, q).Some? then r
      else Run(Appended(r.files, q), r.issued + [NextEvent(r.files, q).eventId], r.cuts)
    case AppendCut(q) =>
      if Refusal(r.files, q).Some? then r
      else Run(JournalWritten(r.files, q), r.issued + [NextEvent(r.files, q).eventId], r.cuts + 1)
  }

  function After(r: Run, ops: seq<Op>): Run {
    if ops == [] then r else Step(After(r, ops[..|ops| - 1]), ops[|ops| - 1])
  }

  const Fresh := Run(Initialized(Files(None, None, map[], false)), [], 0)

  /** What the reader makes of a line that is not blank. */
  function LineEvent(lines: seq<Line>, i: nat): Event
    requires i < |lines| && lines[i] != Blank
  {
    if lines[i] == Corrupt then CorruptEvent(i + 1) else lines[i].event
  }

  lemma {:induction false} EventsByLine(lines: seq<Line>)
    requires forall i :: 0 <= i < |lines| ==> lines[i] != Blank
    ensures |EventsOf(lines)| == |lines|
    ensures forall i :: 0 <= i < |lines| ==> EventsOf(lines)[i] == LineEvent(lines, i)
  {
    if lines != [] { EventsByLine(lines[..|lines| - 1]); }
  }

  /** The i-th id is "evt-" with i padded to eight digits. */
  ghost predicate Numbered(ids: seq<string>) {
    forall i :: 0 <= i < |ids| ==> ids[i] == EventId(i + 1)
  }

  /** The line still holds the event it was written with, or is damaged. */
  predicate WrittenAs(line: Line, id: string) {
    line != Blank && (line.Json? ==> line.event.eventId == id && line.event.applied && !IsCorrupt(line.event))
  }

  /** The journal has one line for each id handed out, in order, and no id was skipped. */
  ghost predicate Faithful(lines: seq<Line>, issued: seq<string>) {
    && |lines| == |issued| && Numbered(issued)
    && forall i :: 0 <= i < |lines| ==> WrittenAs(lines[i], issued[i])
  }

  /** What every run keeps: a faithful journal, and a manifest that only its generation tells from a new one. */
  ghost predicate Sound(r: Run) {
    && Faithful(Journal(r.files), r.issued)
    && r.files.manifest.Some?
    && r.files.manifest.value.activeGeneration + r.cuts == 1 + |r.issued|
    && r.files.manifest.value.lanes == DEFAULT_LANES
    && r.files.manifest.value.migrationState == "none"
    && r.files.directories
  }

  lemma NumberedNext(ids: seq<string>)
    requires Numbered(ids)
    ensures Numbered(ids + [EventId(|ids| + 1)])
  {
  }

  lemma FaithfulNext(lines: seq<Line>, issued: seq<string>, e: Event)
    requires Faithful(lines, issued) && e.eventId == EventId(|issued| + 1) && e.applied && !IsCorrupt(e)
    ensures Faithful(lines + [Json(e)], issued + [e.eventId])
  {
    NumberedNext(issued);
    assert WrittenAs(Json(e), e.eventId);
  }

  lemma NextIdCounts(f: Files, q: Request, issued: seq<string>)
    requires Faithful(Journal(f), issued) && Refusal(f, q).None?
    ensures NextEvent(f, q).eventId == EventId(|issued| + 1)
    ensures Faithful(Journal(f) + [Json(NextEvent(f, q))], issued + [EventId(|issued| + 1)])
  {
    EventsByLine(Journal(f));
    FaithfulNext(Journal(f), issued, NextEvent(f, q));
  }

  lemma StepIsSound(r: Run, op: Op)
    requires Sound(r)
    ensures Sound(Step(r, op))
  {
    match op
    case Damage(j) =>
    case Append(q) => if Refusal(r.files, q).None? { NextIdCounts(r.files, q, r.issued); }
    case AppendCut(q) => if Refusal(r.files, q).None? { NextIdCounts(r.files, q, r.issued); }
  }

  /** In every run the i-th append gets the id "evt-" with i padded to eight digits, damage or not, and the
      generation is one more than the appends that reached the manifest. */
  lemma {:induction false} IdsCountAppends(ops: seq<Op>)
    ensures Sound(After(Fresh, ops))
    ensures var r := After(Fresh, ops);
            forall i :: 0 <= i < |r.issued| ==> r.issued[i] == EventId(i + 1)
  {
    if ops != [] {
      IdsCountAppends(ops[..|ops| - 1]);
      StepIsSound(After(Fresh, ops[..|ops| - 1]), ops[|ops| - 1]);
    }
  }

  /** Some line of the journal has been damaged. */
  predicate Damaged(r: Run) {
    exists i :: 0 <= i < |Journal(r.files)| && Journal(r.files)[i] == Corrupt
  }

  lemma NothingUnapplied(lines: seq<Line>, issued: seq<string>)
    requires Faithful(lines, issued)
    ensures CountIf(EventsOf(lines), Unapplied) == 0
  {
    EventsByLine(lines);
    CountNever(EventsOf(lines), Unapplied);
  }

  lemma CorruptEvents(lines: seq<Line>, issued: seq<string>, i: nat)
    requires Faithful(lines, issued) && i < |lines| == |EventsOf(lines)| && EventsOf(lines)[i] == LineEvent(lines, i)
    ensures IsCorrupt(EventsOf(lines)[i]) <==> lines[i] == Corrupt
  {
  }

  lemma CorruptMatch(es: seq<Event>, lines: seq<Line>)
    requires |es| == |lines| && forall i :: 0 <= i < |es| ==> (IsCorrupt(es[i]) <==> lines[i] == Corrupt)
    ensures CountIf(es, IsCorrupt) > 0 <==> exists i :: 0 <= i < |lines| && lines[i] == Corrupt
  {
    CountSome(es, IsCorrupt);
    if i :| 0 <= i < |lines| && lines[i] == Corrupt {
      assert es[i] in es;
    }
  }

  lemma CorruptLines(lines: seq<Line>, issued: seq<string>)
    requires Faithful(lines, issued)
    ensures CountIf(EventsOf(lines), IsCorrupt) > 0 <==> exists i :: 0 <= i < |lines| && lines[i] == Corrupt
  {
    EventsByLine(lines);
    forall i | 0 <= i < |lines| ensures IsCorrupt(EventsOf(lines)[i]) <==> lines[i] == Corrupt {
      CorruptEvents(lines, issued, i);
    }
    CorruptMatch(EventsOf(lines), lines);
  }

  /** Appended events are applied at once, so a run leaves nothing unapplied; damage is all the summary can find wrong. */
  lemma RunsLeaveNothingUnapplied(ops: seq<Op>)
    ensures var r := After(Fresh, ops);
            && CountIf(EventsOf(Journal(r.files)), Unapplied) == 0
            && (CountIf(EventsOf(Journal(r.files)), IsCorrupt) > 0 <==> Damaged(r))
  {
    IdsCountAppends(ops);
    var r := After(Fresh, ops);
    NothingUnapplied(Journal(r.files), r.issued);
    CorruptLines(Journal(r.files), r.issued);
  }

  lemma EventIdInjective(m: nat, n: nat)
    requires EventId(m) == EventId(n)
    ensures m == n
  {
    assert EventId(m)[4..] == Padded(m) && EventId(n)[4..] == Padded(n);
    PaddedInjective(m, n);
  }

  lemma NumberedIsDistinct(ids: seq<string>)
    requires Numbered(ids)
    ensures Distinct(ids)
  {
    forall i, j | 0 <= i < j < |ids| ensures ids[i] != ids[j] {
      if ids[i] == ids[j] { EventIdInjective(i + 1, j + 1); }
    }
  }

  /** No id is ever handed out twice, past eight digits too. */
  lemma IdsAreDistinct(ops: seq<Op>)
    ensures Distinct(After(Fresh, ops).issued)
  {
    IdsCountAppends(ops);
    NumberedIsDistinct(After(Fresh, ops).issued);
  }

  /** Undamaged events in the journal have pairwise distinct ids: the reader sees no id twice. */
  lemma JournalIdsAreDistinct(ops: seq<Op>, i: nat, j: nat)
    requires var lines := Journal(After(Fresh, ops).files);
             i < j < |lines| && lines[i].Json? && lines[j].Json?
    ensures var lines := Journal(After(Fresh, ops).files);
            lines[i].event.eventId != lines[j].event.eventId
  {
    IdsCountAppends(ops);
    IdsAreDistinct(ops);
  }

  /** Appending never touches an earlier line, and a run without damage only ever grows the journal. */
  lemma {:induction false} JournalGrows(r: Run, ops: seq<Op>)
    requires forall op :: op in ops ==> !op.Damage?
    ensures Journal(r.files) <= Journal(After(r, ops).files)
    ensures r.issued <= After(r, ops).issued
  {
    if ops != [] {
      assert ops[|ops| - 1] in ops;
      JournalGrows(r, ops[..|ops| - 1]);
    }
  }

  // ---------- lost lines ----------

  /** A step of a run, or a line of the journal made blank or taken out, which no part of the program does. */
  datatype Edit = Usual(op: Op) | Blanking(line: nat) | Removing(line: nat)

  function EditStep(r: Run, e: Edit): Run {
    var lines := Journal(r.files);
    match e
    case Usual(op) => Step(r, op)
    case Blanking(j) => if j < |lines| then r.(files := r.files.(journal := Some(lines[j := Blank]))) else r
    case Removing(j) => if j < |lines| then r.(files := r.files.(journal := Some(lines[..j] + lines[j + 1..]))) else r
  }

  function Edited(r: Run, edits: seq<Edit>): Run {
    if edits == [] then r else EditStep(Edited(r, edits[..|edits| - 1]), edits[|edits| - 1])
  }

  /** The store under the default lanes takes this request. */
  predicate Accepted(q: Request) {
    q.lane in DEFAULT_LANES && q.eventType !in {CorruptType, OtherType}
  }

  /** The edit adds a line. */
  predicate Adds(e: Edit) {
    e.Usual? && (e.op.Append? || e.op.AppendCut?) && Accepted(e.op.request)
  }

  /** The edit blanks or removes one of `lines` lines. */
  predicate Loses(e: Edit, lines: nat) {
    !e.Usual? && e.line < lines
  }

  /** The lines there are after these edits. */
  function LinesAfter(edits: seq<Edit>): nat {
    if edits == [] then 0
    else
      var before, e := LinesAfter(edits[..|edits| - 1]), edits[|edits| - 1];
      if Adds(e) then before + 1 else if e.Removing? && Loses(e, before) then before - 1 else before
  }

  /** Some edit blanked or removed a line that was there. */
  ghost predicate LostSome(edits: seq<Edit>) {
    exists i :: 0 <= i < |edits| && Loses(edits[i], LinesAfter(edits[..i]))
  }

  /** An append was accepted after a line had been lost. Nothing but the list of edits is looked at. */
  ghost predicate AddedAfterLoss(edits: seq<Edit>) {
    exists j :: 0 <= j < |edits| && Adds(edits[j]) && LostSome(edits[..j])
  }

  lemma {:induction false} EventsBounded(lines: seq<Line>)
    ensures |EventsOf(lines)| <= |lines|
    ensures |EventsOf(lines)| == |lines| <==> Blank !in lines
  {
    if lines != [] {
      EventsBounded(lines[..|lines| - 1]);
      assert lines == lines[..|lines| - 1] + [lines[|lines| - 1]];
    }
  }

  /** Ids are counted from the events the reader finds: as long as ids were handed out in order, and whatever was done to
      the journal since, the next append repeats one exactly when it finds fewer events than ids were handed out. */
  lemma NextIdRepeatsExactly(f: Files, q: Request, issued: seq<string>)
    requires Numbered(issued)
    ensures NextEvent(f, q).eventId in issued <==> |EventsOf(Journal(f))| < |issued|
  {
    var n := |EventsOf(Journal(f))|;
    if n < |issued| {
      assert issued[n] == EventId(n + 1);
    } else {
      forall i | 0 <= i < |issued| ensures issued[i] != EventId(n + 1) {
        if issued[i] == EventId(n + 1) { EventIdInjective(i + 1, n + 1); }
      }
    }
  }

  lemma LinesPrefix(edits: seq<Edit>, e: Edit)
    ensures LinesAfter(edits + [e]) ==
            LinesAfter(edits) + if Adds(e) then 1 else if e.Removing? && Loses(e, LinesAfter(edits)) then -1 else 0
    ensures LostSome(edits + [e]) <==> LostSome(edits) || Loses(e, LinesAfter(edits))
    ensures AddedAfterLoss(edits + [e]) <==> AddedAfterLoss(edits) || (Adds(e) && LostSome(edits))
  {
    var all := edits + [e];
    assert all[..|edits|] == edits && all[|edits|] == e;
    forall i | 0 <= i < |edits| ensures all[..i] == edits[..i] && all[i] == edits[i] {}
  }

  /** What the files of an edited run and the edits have in common, repeated ids or not. */
  ghost predicate Tracked(r: Run, edits: seq<Edit>) {
    && |Journal(r.files)| == LinesAfter(edits) <= |r.issued|
    && (|EventsOf(Journal(r.files))| < |r.issued| <==> LostSome(edits))
    && r.files.manifest.Some? && r.files.manifest.value.lanes == DEFAULT_LANES
  }

  lemma RefusedExactly(r: Run, edits: seq<Edit>, q: Request)
    requires Tracked(r, edits)
    ensures Refusal(r.files, q).None? <==> Accepted(q)
  {
  }

  lemma {:induction false} DamageKeepsCount(lines: seq<Line>, j: nat)
    requires j < |lines| && lines[j] != Blank
    ensures |EventsOf(lines[j := Corrupt])| == |EventsOf(lines)|
  {
    var after := lines[j := Corrupt];
    if j < |lines| - 1 {
      assert after[..|after| - 1] == lines[..|lines| - 1][j := Corrupt];
      DamageKeepsCount(lines[..|lines| - 1], j);
    } else {
      assert after[..|after| - 1] == lines[..|lines| - 1];
    }
  }

  /** A step that adds a line adds an id and an event. */
  lemma AddMoves(r: Run, edits: seq<Edit>, e: Edit)
    requires Tracked(r, edits) && Adds(e)
    ensures var t := EditStep(r, e);
            && t.issued == r.issued + [NextEvent(r.files, e.op.request).eventId]
            && Journal(t.files) == Journal(r.files) + [Json(NextEvent(r.files, e.op.request))]
            && |EventsOf(Journal(t.files))| == |EventsOf(Journal(r.files))| + 1
            && t.files.manifest.Some? && t.files.manifest.value.lanes == DEFAULT_LANES
  {
    RefusedExactly(r, edits, e.op.request);
    var t := EditStep(r, e);
    assert Journal(t.files)[..|Journal(t.files)| - 1] == Journal(r.files);
  }

  /** Any other step keeps all ids; unless it loses a line, it keeps the number of events too. */
  lemma OtherMoves(r: Run, edits: seq<Edit>, e: Edit)
    requires Tracked(r, edits) && !Adds(e)
    ensures var t, lines := EditStep(r, e), Journal(r.files);
            && t.issued == r.issued
            && t.files.manifest == r.files.manifest
            && |Journal(t.files)| == |lines| - (if e.Removing? && Loses(e, |lines|) then 1 else 0)
            && (Loses(e, |lines|) ==> |EventsOf(Journal(t.files))| < |lines|)
            && (!Loses(e, |lines|) ==> |EventsOf(Journal(t.files))| == |EventsOf(lines)|)
  {
    var lines, after := Journal(r.files), Journal(EditStep(r, e).files);
    EventsBounded(after);
    match e
    case Blanking(j) => if j < |lines| { assert after[j] == Blank; }
    case Removing(_) =>
    case Usual(op) =>
      match op
      case Damage(j) => if j < |lines| && lines[j] != Blank { DamageKeepsCount(lines, j); }
      case Append(q) => RefusedExactly(r, edits, q);
      case AppendCut(q) => RefusedExactly(r, edits, q);
  }

  lemma TrackedStep(r: Run, edits: seq<Edit>, e: Edit)
    requires Tracked(r, edits)
    ensures Tracked(EditStep(r, e), edits + [e])
  {
    hide EditStep, EventsOf, LostSome, LinesAfter, Loses;
    LinesPrefix(edits, e);
    if Adds(e) {
      AddMoves(r, edits, e);
      AddsNoLoss(e, LinesAfter(edits));
    } else {
      OtherMoves(r, edits, e);
    }
  }

  lemma AddsNoLoss(e: Edit, lines: nat)
    requires Adds(e)
    ensures !Loses(e, lines)
  {
  }

  lemma {:induction false} EditsAreTracked(edits: seq<Edit>)
    ensures Tracked(Edited(Fresh, edits), edits)
  {
    if edits != [] {
      EditsAreTracked(edits[..|edits| - 1]);
      TrackedStep(Edited(Fresh, edits[..|edits| - 1]), edits[..|edits| - 1], edits[|edits| - 1]);
      assert edits == edits[..|edits| - 1] + [edits[|edits| - 1]];
    }
  }

  lemma DistinctNext(ids: seq<string>, id: string)
    ensures Distinct(ids + [id]) <==> Distinct(ids) && id !in ids
  {
    var longer := ids + [id];
    assert forall i :: 0 <= i < |ids| ==> longer[i] == ids[i];
    if Distinct(longer) {
      forall i | 0 <= i < |ids| ensures ids[i] != id {
        assert longer[i] != longer[|ids|];
      }
      assert forall i, j :: 0 <= i < j < |ids| ==> longer[i] != longer[j];
    }
  }

  /** Until an id repeats, the ids are numbered in order. */
  lemma NumberedStep(r: Run, edits: seq<Edit>, e: Edit)
    requires Tracked(r, edits) && Adds(e)
    requires Distinct(r.issued) ==> Numbered(r.issued)
    ensures var t := EditStep(r, e);
            && (Distinct(t.issued) ==> Numbered(t.issued))
            && (Distinct(t.issued) <==> Distinct(r.issued) && !LostSome(edits))
  {
    hide EditStep, EventsOf, LostSome, LinesAfter, Distinct, Numbered, NextEvent, EventId;
    AddMoves(r, edits, e);
    var q := e.op.request;
    DistinctNext(r.issued, NextEvent(r.files, q).eventId);
    if Distinct(r.issued) {
      NextIdRepeatsExactly(r.files, q, r.issued);
      EventsBounded(Journal(r.files));
      NextId(r.files, q);
      NumberedNext(r.issued);
    }
  }

  /** In every run in which lines are blanked and removed as well, an id is handed out twice exactly when an append was
      accepted after a line had been lost. */
  lemma {:induction false} IdsRepeatExactly(edits: seq<Edit>)
    ensures Distinct(Edited(Fresh, edits).issued) <==> !AddedAfterLoss(edits)
    ensures Distinct(Edited(Fresh, edits).issued) ==> Numbered(Edited(Fresh, edits).issued)
  {
    hide *;
    if edits == [] {
      NoEdits();
    } else {
      var front, e := edits[..|edits| - 1], edits[|edits| - 1];
      assert edits == front + [e];
      EditedNext(Fresh, front, e);
      IdsRepeatExactly(front);
      EditsAreTracked(front);
      LinesPrefix(front, e);
      if Adds(e) { NumberedStep(Edited(Fresh, front), front, e); } else { OtherMoves(Edited(Fresh, front), front, e); }
    }
  }

  lemma EditedNext(r: Run, edits: seq<Edit>, e: Edit)
    ensures Edited(r, edits + [e]) == EditStep(Edited(r, edits), e)
  {
    assert (edits + [e])[..|edits|] == edits;
  }

  lemma NoEdits()
    ensures Edited(Fresh, []) == Fresh && Fresh.issued == [] && Journal(Fresh.files) == []
    ensures Distinct(Fresh.issued) && Numbered(Fresh.issued) && !AddedAfterLoss([])
    ensures EventsOf([]) == [] && EventsOf([Blank]) == []
  {
    assert [Blank][..0] == [];
  }

  /** The shortest such runs: append, blank or remove the line, append again. */
  lemma LostLineRepeatsAnId(q: Request, lose: Edit)
    requires Accepted(q) && lose in {Blanking(0), Removing(0)}
    ensures Edited(Fresh, [Usual(Append(q)), lose, Usual(Append(q))]).issued == [EventId(1), EventId(1)]
  {
    hide *;
    var a := Usual(Append(q));
    var r1, r2 := Edited(Fresh, [a]), Edited(Fresh, [a] + [lose]);
    NoEdits();
    AppendAdds(q);
    EditsAreTracked([]);
    EditsAreTracked([a]);
    EditsAreTracked([a] + [lose]);
    EditedNext(Fresh, [], a);
    EditedNext(Fresh, [a], lose);
    EditedNext(Fresh, [a] + [lose], a);
    assert [] + [a] == [a] && [a] + [lose] + [a] == [a, lose, a];
    AddMoves(Fresh, [], a);
    OtherMoves(r1, [a], lose);
    AddMoves(r2, [a] + [lose], a);
    NextId(Fresh.files, q);
    NextId(r2.files, q);
  }

  lemma AppendAdds(q: Request)
    requires Accepted(q)
    ensures Adds(Usual(Append(q))) && !Adds(Blanking(0)) && !Adds(Removing(0))
    ensures Loses(Blanking(0), 1) && Loses(Removing(0), 1)
  {
  }

  lemma NextId(f: Files, q: Request)
    ensures NextEvent(f, q).eventId == EventId(|EventsOf(Journal(f))| + 1)
  {
  }

  // ---------- what the counters add up to ----------

  function LaneCount(es: seq<Event>, p: Event -> bool): string -> nat {
    l => CountIf(es, InLane(l, p))
  }

  /** Counting lane by lane over a list of distinct lanes that has them all misses nothing and repeats nothing. */
  lemma {:induction false} LanesPartition(order: seq<string>, es: seq<Event>, p: Event -> bool)
    requires Distinct(order) && forall e :: e in es ==> LaneOf(e) in order
    ensures SumSeq(order, LaneCount(es, p)) == CountIf(es, p)
  {
    if es == [] {
      SumSeqZero(order, LaneCount(es, p));
    } else {
      var before, e := es[..|es| - 1], es[|es| - 1];
      assert e in es;
      LanesPartition(order, before, p);
      if p(e) {
        SumSeqRaise(order, LaneCount(before, p), LaneCount(es, p), LaneOf(e), 1);
      } else {
        SumSeqCongruent(order, LaneCount(before, p), LaneCount(es, p));
      }
    }
  }

  function TombstonesOf(): LaneSummary -> nat {
    (l: LaneSummary) => l.tombstones
  }

  function CorruptedOf(): LaneSummary -> nat {
    (l: LaneSummary) => l.corrupted
  }

  /** A counter of the lane reported under a name. */
  function FinalOf(initialized: bool, es: seq<Event>, bytes: nat, f: LaneSummary -> nat): string -> nat {
    l => f(FinalLane(l, initialized, es, bytes))
  }

  lemma FinalLanesAt(order: seq<string>, initialized: bool, es: seq<Event>, bytes: nat)
    ensures var lanes := FinalLanes(order, initialized, es, bytes);
            && |lanes| == |order|
            && forall i :: 0 <= i < |order| ==> lanes[i] == FinalLane(order[i], initialized, es, bytes)
  {
    MappedAt(order, Reported(initialized, es, bytes));
  }

  lemma FinalLanesSum(order: seq<string>, initialized: bool, es: seq<Event>, bytes: nat, f: LaneSummary -> nat)
    ensures SumSeq(FinalLanes(order, initialized, es, bytes), f) == SumSeq(order, FinalOf(initialized, es, bytes, f))
  {
    MappedSum(order, Reported(initialized, es, bytes), f, FinalOf(initialized, es, bytes, f));
  }

  lemma FinalCounters(l: string, initialized: bool, es: seq<Event>, bytes: nat)
    ensures var lane := FinalLane(l, initialized, es, bytes);
            && lane.tombstones == CountIf(es, InLane(l, Tombstones))
            && lane.corrupted == CountIf(es, InLane(l, IsCorrupt)) + (if l == "repair" then CountIf(es, IsCorrupt) else 0)
            && lane.replayLag == CountIf(es, Unapplied)
  {
  }

  lemma SummaryLanes(f: Files)
    ensures Distinct(SummaryOrder(f))
    ensures forall e :: e in SummaryEvents(f) ==> LaneOf(e) in SummaryOrder(f)
    ensures forall l :: l in SummaryManifest(f).lanes ==> l in SummaryOrder(f)
  {
    LaneOrderFacts(SummaryManifest(f).lanes, SummaryEvents(f));
  }

  /** The lanes' tombstones add up to the deletes that name an object. */
  lemma TombstonesAddUp(f: Files, bytes: nat)
    ensures SumSeq(Summarized(f, bytes).lanes, TombstonesOf()) == CountIf(SummaryEvents(f), Tombstones)
  {
    var es, order := SummaryEvents(f), SummaryOrder(f);
    SummaryLanes(f);
    FinalLanesSum(order, f.manifest.Some?, es, bytes, TombstonesOf());
    LanesPartition(order, es, Tombstones);
    forall l ensures FinalOf(f.manifest.Some?, es, bytes, TombstonesOf())(l) == LaneCount(es, Tombstones)(l) {
      FinalCounters(l, f.manifest.Some?, es, bytes);
    }
    SumSeqCongruent(order, FinalOf(f.manifest.Some?, es, bytes, TombstonesOf()), LaneCount(es, Tombstones));
  }

  lemma CorruptedWithRepair(order: seq<string>, initialized: bool, es: seq<Event>, bytes: nat)
    requires Distinct(order) && forall e :: e in es ==> LaneOf(e) in order
    ensures SumSeq(order, FinalOf(initialized, es, bytes, CorruptedOf()))
            == CountIf(es, IsCorrupt) + if "repair" in order then CountIf(es, IsCorrupt) else 0
  {
    var corrupt, final := CountIf(es, IsCorrupt), FinalOf(initialized, es, bytes, CorruptedOf());
    LanesPartition(order, es, IsCorrupt);
    forall l ensures final(l) == LaneCount(es, IsCorrupt)(l) + if l == "repair" then corrupt else 0 {
      FinalCounters(l, initialized, es, bytes);
    }
    if "repair" in order {
      SumSeqRaise(order, LaneCount(es, IsCorrupt), final, "repair", corrupt);
    } else {
      SumSeqCongruent(order, LaneCount(es, IsCorrupt), final);
    }
  }

  /** Corrupt events are counted once where they are met and once more in lane "repair": twice in all whenever
      that lane is reported, which it is under the default lanes. */
  lemma CorruptionIsCountedTwice(f: Files, bytes: nat)
    ensures var corrupt := CountIf(SummaryEvents(f), IsCorrupt);
            SumSeq(Summarized(f, bytes).lanes, CorruptedOf())
            == corrupt + if "repair" in SummaryOrder(f) then corrupt else 0
    ensures "repair" in SummaryManifest(f).lanes ==>
              SumSeq(Summarized(f, bytes).lanes, CorruptedOf()) == 2 * CountIf(SummaryEvents(f), IsCorrupt)
  {
    SummaryLanes(f);
    FinalLanesSum(SummaryOrder(f), f.manifest.Some?, SummaryEvents(f), bytes, CorruptedOf());
    CorruptedWithRepair(SummaryOrder(f), f.manifest.Some?, SummaryEvents(f), bytes);
  }

  function ProducerCount(es: seq<Event>): string -> nat {
    p => CountIf(es, By(p))
  }

  /** Every event has exactly one producer, so the producer counts add up to the events. */
  lemma {:induction false} ProducersAddUp(es: seq<Event>)
    ensures SumOver(Producers(es).Keys, ProducerCount(es)) == |es|
  {
    if es != [] {
      var before, e := es[..|es| - 1], es[|es| - 1];
      assert es == before + [e];
      ProducersAddUp(before);
      ProducersStep(before, e);
      var p := ProducerOf(e);
      if p !in Producers(before) { CountNever(before, By(p)); }
      assert Producers(es).Keys == Producers(before).Keys + {p};
      SumRaise(Producers(before).Keys, ProducerCount(before), ProducerCount(es), p, 1);
    }
  }

  /** Some delete names the object. */
  ghost predicate EverDeleted(es: seq<Event>, o: string) {
    exists e :: e in es && Tombstones(e) && e.objectId == Some(o)
  }

  lemma FinalNormal(l: string, initialized: bool, es: seq<Event>, bytes: nat)
    requires FinalLane(l, initialized, es, bytes).name == "normal"
    ensures FinalLane(l, initialized, es, bytes).total == |SeenObjects(es) - DeletedObjects(es)|
  {
  }

  lemma LiveObjects(es: seq<Event>)
    ensures SeenObjects(es) - DeletedObjects(es) == set o | o in SeenObjects(es) && !EverDeleted(es, o)
  {
  }

  /** Lane "normal" reports the objects that an intact event names and no delete ever named. */
  lemma NormalCountsLiveObjects(f: Files, bytes: nat, i: nat)
    requires i < |Summarized(f, bytes).lanes| && Summarized(f, bytes).lanes[i].name == "normal"
    ensures var live := set o | o in SeenObjects(SummaryEvents(f)) && !EverDeleted(SummaryEvents(f), o);
            Summarized(f, bytes).lanes[i].total == |live|
  {
    var es := SummaryEvents(f);
    FinalLanesAt(SummaryOrder(f), f.manifest.Some?, es, bytes);
    FinalNormal(SummaryOrder(f)[i], f.manifest.Some?, es, bytes);
    LiveObjects(es);
  }
}
