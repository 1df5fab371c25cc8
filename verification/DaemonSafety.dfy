/** What holds over every run of the daemon: restarts, crashes, failures and signals in any order. */
module DaemonSafety {
  import opened Text
  import opened Sums
  import opened Attestation
  import opened ContentSync
  import opened ReceiptStores
  import opened Daemon

  // ---------- reading a history ----------

  /** The receipts written, oldest first. */
  function Log(h: seq<Entry>): seq<Receipt> {
    if h == [] then []
    else
      var last := h[|h| - 1];
      Log(h[..|h| - 1]) + if last.Polled? && last.poll.receipt.Some? then [last.poll.receipt.value] else []
  }

  /** The receipts with outcome "applied", oldest first. */
  function Applied(h: seq<Entry>): seq<Receipt> {
    if h == [] then []
    else
      var last := h[|h| - 1];
      Applied(h[..|h| - 1]) +
      if last.Polled? && last.poll.receipt.Some? && last.poll.receipt.value.outcome == OutcomeApplied
      then [last.poll.receipt.value] else []
  }

  lemma {:induction false} AppliedAreLogged(h: seq<Entry>, r: Receipt)
    ensures r in Applied(h) <==> r in Log(h) && r.outcome == OutcomeApplied
  {
    if h != [] { AppliedAreLogged(h[..|h| - 1], r); }
  }

  ghost function StampsOf(es: seq<Event>): set<string> {
    set e | e in es && e.Poll? :: FileName(e.world.stamp)
  }

  /** Receipt ids are fresh: no poll's receipt file exists already or belongs to an earlier poll. */
  ghost predicate Fresh(disk: Disk, es: seq<Event>) {
    forall i :: 0 <= i < |es| && es[i].Poll? ==>
      && FileName(es[i].world.stamp) !in disk.receipts
      && FileName(es[i].world.stamp) !in StampsOf(es[..i])
  }

  // ---------- safety of the version file ----------

  /** How a poll's record hangs together: its receipt carries its stamp and the version it read, and it writes the
      receipt's version exactly when the receipt says "applied" and there was no crash. */
  ghost predicate Coherent(p: PollRecord, w: World, current: Option<string>) {
    && p.world == w && p.current == current
    && (p.receipt.Some? ==> p.receipt.value.stamp == w.stamp && p.receipt.value.fromVersion == current)
    && (p.wrote.Some? <==> p.receipt.Some? && p.receipt.value.outcome == OutcomeApplied && !p.crashed)
    && (p.wrote.Some? ==> p.wrote == Some(p.receipt.value.toVersion))
  }

  lemma ConcludedPoll(w: World, current: Option<string>, version: string, cycle: Cycle)
    requires cycle.receipt.Some? ==> cycle.receipt.value.stamp == w.stamp && cycle.receipt.value.fromVersion == current
                                     && cycle.receipt.value.toVersion == version
    ensures Coherent(Conclude(w, current, version, cycle), w, current)
  {
  }

  lemma PollIsCoherent(cfg: Config, disk: Disk, w: World)
    ensures Coherent(PollOutcome(cfg, disk, w), w, ParseVersion(disk.versionFile))
  {
    if w.api.Some? {
      var current := ParseVersion(disk.versionFile);
      var plan := PlanFor(cfg, current, w, w.api.value);
      ConcludedPoll(w, current, w.api.value.version, ExecuteResult(SyncerFor(cfg, current), plan, false, w.machine, w.stamp));
    }
  }

  ghost predicate Durable(disk: Disk, h: seq<Entry>) {
    forall r :: r in Log(h) ==> FileName(r.stamp) in disk.receipts && disk.receipts[FileName(r.stamp)] == r
  }

  lemma DurableStep(disk: Disk, h: seq<Entry>, p: PollRecord)
    requires Durable(disk, h)
    requires p.receipt.Some? ==> FileName(p.receipt.value.stamp) !in disk.receipts
    ensures Durable(AfterPoll(disk, p), h + [Polled(p)])
    ensures disk.receipts.Keys <= AfterPoll(disk, p).receipts.Keys
    ensures forall f :: f in disk.receipts ==> AfterPoll(disk, p).receipts[f] == disk.receipts[f]
  {
    assert (h + [Polled(p)])[..|h|] == h;
    forall x | x in Log(h + [Polled(p)])
      ensures FileName(x.stamp) in AfterPoll(disk, p).receipts && AfterPoll(disk, p).receipts[FileName(x.stamp)] == x
    {
      assert x in Log(h) || p.receipt == Some(x);
    }
  }

  lemma FreshPrefix(disk: Disk, es: seq<Event>, e: Event)
    requires Fresh(disk, es + [e])
    ensures Fresh(disk, es)
    ensures e.Poll? ==> FileName(e.world.stamp) !in disk.receipts && FileName(e.world.stamp) !in StampsOf(es)
  {
    forall i | 0 <= i < |es| ensures (es + [e])[..i] == es[..i] {}
    assert (es + [e])[..|es|] == es && (es + [e])[|es|] == e;
  }

  /** No receipt is ever lost: each one ever written is still on disk, next to everything that was there before. */
  lemma {:induction false} ReceiptsAreDurable(cfg: Config, disk: Disk, es: seq<Event>)
    requires Fresh(disk, es)
    ensures var s := Run(cfg, Started(disk), es);
            && Durable(s.disk, s.history)
            && (forall f :: f in disk.receipts ==> f in s.disk.receipts && s.disk.receipts[f] == disk.receipts[f])
            && s.disk.receipts.Keys <= disk.receipts.Keys + StampsOf(es)
  {
    if es != [] {
      hide Durable, Fresh, StampsOf, Step, PollOutcome;
      var prefix, e := es[..|es| - 1], es[|es| - 1];
      assert es == prefix + [e];
      FreshPrefix(disk, prefix, e);
      ReceiptsAreDurable(cfg, disk, prefix);
      StampsGrow(prefix, e);
      ReceiptsStep(cfg, Run(cfg, Started(disk), prefix), e);
    }
  }

  /** One event loses no receipt and adds at most the one of its own stamp. */
  lemma ReceiptsStep(cfg: Config, s: State, e: Event)
    requires Durable(s.disk, s.history) && (e.Poll? ==> FileName(e.world.stamp) !in s.disk.receipts)
    ensures var t := Step(cfg, s, e);
            && Durable(t.disk, t.history)
            && (forall f :: f in s.disk.receipts ==> f in t.disk.receipts && t.disk.receipts[f] == s.disk.receipts[f])
            && t.disk.receipts.Keys <= s.disk.receipts.Keys + if e.Poll? then {FileName(e.world.stamp)} else {}
  {
    match e
    case Restart =>
      assert (s.history + [Restarted])[..|s.history|] == s.history;
    case Poll(w) =>
      if s.running {
        hide FileName;
        PollIsCoherent(cfg, s.disk, w);
        DurableStep(s.disk, s.history, PollOutcome(cfg, s.disk, w));
      }
  }

  lemma StampsGrow(es: seq<Event>, e: Event)
    ensures StampsOf(es + [e]) == StampsOf(es) + if e.Poll? then {FileName(e.world.stamp)} else {}
  {
    assert forall x :: x in es + [e] <==> x in es || x == e;
  }

  lemma {:induction false} VersionWasApplied(cfg: Config, disk: Disk, es: seq<Event>)
    ensures var s := Run(cfg, Started(disk), es);
            s.disk.versionFile == disk.versionFile
            || exists r :: r in Applied(s.history) && s.disk.versionFile == Some(VersionText(r.toVersion))
  {
    if es != [] {
      var prefix, e := es[..|es| - 1], es[|es| - 1];
      VersionWasApplied(cfg, disk, prefix);
      var before := Run(cfg, Started(disk), prefix);
      var after := Step(cfg, before, e);
      if e.Poll? && !before.running {
        assert after == before;
      } else {
        assert after.history[..|before.history|] == before.history;
        if e.Poll? {
          var r := PollOutcome(cfg, before.disk, e.world);
          PollIsCoherent(cfg, before.disk, e.world);
          if r.wrote.Some? {
            assert r.receipt.value in Applied(after.history);
          }
        }
        assert forall x :: x in Applied(before.history) ==> x in Applied(after.history);
      }
    }
  }

  /** In every run, crashes between the two writes included, the version file is what it was at the start or
      names the version of an "applied" receipt that is on disk. */
  lemma VersionFileIsExplained(cfg: Config, disk: Disk, es: seq<Event>)
    requires Fresh(disk, es)
    ensures var d := Run(cfg, Started(disk), es).disk;
            d.versionFile == disk.versionFile
            || exists f :: f in d.receipts && d.receipts[f].outcome == OutcomeApplied
                           && d.versionFile == Some(VersionText(d.receipts[f].toVersion))
  {
    var s := Run(cfg, Started(disk), es);
    VersionWasApplied(cfg, disk, es);
    ReceiptsAreDurable(cfg, disk, es);
    if s.disk.versionFile != disk.versionFile {
      var r :| r in Applied(s.history) && s.disk.versionFile == Some(VersionText(r.toVersion));
      AppliedAreLogged(s.history, r);
      assert FileName(r.stamp) in s.disk.receipts;
    }
  }

  // ---------- the chain ----------

  /** The version a poll would read after this history. */
  function VersionAfter(initial: Option<string>, h: seq<Entry>): Option<string> {
    if h == [] then initial
    else
      var last := h[|h| - 1];
      if last.Polled? && last.poll.wrote.Some? then ReadBack(last.poll.wrote.value)
      else VersionAfter(initial, h[..|h| - 1])
  }

  /** Each poll read what the last version write before it left, and its receipt says so. A version is written
      exactly for an applied receipt whose poll did not crash. */
  ghost predicate Linked(initial: Option<string>, h: seq<Entry>) {
    forall i :: 0 <= i < |h| && h[i].Polled? ==>
      var p := h[i].poll;
      && p.current == VersionAfter(initial, h[..i])
      && (p.receipt.Some? ==> p.receipt.value.fromVersion == p.current)
      && (p.wrote.Some? <==> p.receipt.Some? && p.receipt.value.outcome == OutcomeApplied && !p.crashed)
      && (p.wrote.Some? ==> p.wrote == Some(p.receipt.value.toVersion))
  }

  lemma VersionAfterPoll(disk: Disk, p: PollRecord)
    requires p.current == ParseVersion(disk.versionFile)
    ensures ParseVersion(AfterPoll(disk, p).versionFile) == if p.wrote.Some? then ReadBack(p.wrote.value) else p.current
  {
  }

  lemma {:induction false} RunsAreLinked(cfg: Config, disk: Disk, es: seq<Event>)
    ensures var s := Run(cfg, Started(disk), es);
            && Linked(ParseVersion(disk.versionFile), s.history)
            && ParseVersion(s.disk.versionFile) == VersionAfter(ParseVersion(disk.versionFile), s.history)
  {
    if es != [] {
      var initial := ParseVersion(disk.versionFile);
      var prefix, e := es[..|es| - 1], es[|es| - 1];
      RunsAreLinked(cfg, disk, prefix);
      var before := Run(cfg, Started(disk), prefix);
      var after := Step(cfg, before, e);
      if e.Poll? && before.running {
        PollIsCoherent(cfg, before.disk, e.world);
        VersionAfterPoll(before.disk, PollOutcome(cfg, before.disk, e.world));
      }
      if after.history != before.history {
        assert |after.history| == |before.history| + 1;
        assert after.history[..|before.history|] == before.history;
        forall i | 0 <= i < |before.history| ensures after.history[..i] == before.history[..i] {}
      }
    }
  }

  /** A power cut came between an "applied" receipt and the version file, and the file would have read differently. */
  predicate LostVersion(e: Entry) {
    && HasApplied(e) && e.poll.crashed
    && ReadBack(e.poll.receipt.value.toVersion) != e.poll.current
  }

  /** No poll of the history lost its version; crashes at any other moment are allowed. */
  predicate NothingLost(h: seq<Entry>) {
    forall i :: 0 <= i < |h| ==> !LostVersion(h[i])
  }

  function ChainEnd(initial: Option<string>, receipts: seq<Receipt>): Option<string> {
    if receipts == [] then initial else ReadBack(receipts[|receipts| - 1].toVersion)
  }

  ghost predicate Chained(initial: Option<string>, receipts: seq<Receipt>) {
    forall i :: 0 <= i < |receipts| ==> receipts[i].fromVersion == ChainEnd(initial, receipts[..i])
  }

  /** The applied receipts form a chain from the initial version to the one a poll would read now. */
  ghost predicate Intact(initial: Option<string>, h: seq<Entry>) {
    Chained(initial, Applied(h)) && ChainEnd(initial, Applied(h)) == VersionAfter(initial, h)
  }

  lemma ChainedStep(initial: Option<string>, receipts: seq<Receipt>, r: Receipt)
    ensures Chained(initial, receipts + [r]) <==> Chained(initial, receipts) && r.fromVersion == ChainEnd(initial, receipts)
  {
    var longer := receipts + [r];
    assert longer[..|receipts|] == receipts && longer[|receipts|] == r;
    forall i | 0 <= i < |receipts| ensures longer[..i] == receipts[..i] && longer[i] == receipts[i] {}
  }

  lemma LinkedPrefix(initial: Option<string>, h: seq<Entry>)
    requires Linked(initial, h) && h != []
    ensures Linked(initial, h[..|h| - 1])
  {
    var g := h[..|h| - 1];
    forall i | 0 <= i < |g| ensures g[..i] == h[..i] {}
  }

  predicate HasApplied(e: Entry) {
    e.Polled? && e.poll.receipt.Some? && e.poll.receipt.value.outcome == OutcomeApplied
  }

  lemma IntactIs(initial: Option<string>, h: seq<Entry>)
    ensures Intact(initial, h) <==>
            Chained(initial, Applied(h)) && ChainEnd(initial, Applied(h)) == VersionAfter(initial, h)
  {
  }

  lemma LostExactly(e: Entry)
    ensures LostVersion(e) <==>
            HasApplied(e) && e.poll.crashed && ReadBack(e.poll.receipt.value.toVersion) != e.poll.current
    ensures HasApplied(e) ==> e.Polled? && e.poll.receipt.Some?
  {
  }

  /** What the last entry adds to the applied receipts and to the version a poll would read. */
  lemma HistoryStep(initial: Option<string>, h: seq<Entry>)
    requires h != []
    ensures var g, e := h[..|h| - 1], h[|h| - 1];
            && (HasApplied(e) ==> e.Polled? && e.poll.receipt.Some? && Applied(h) == Applied(g) + [e.poll.receipt.value])
            && (!HasApplied(e) ==> Applied(h) == Applied(g))
            && VersionAfter(initial, h) == if e.Polled? && e.poll.wrote.Some? then ReadBack(e.poll.wrote.value)
                                           else VersionAfter(initial, g)
  {
  }

  /** An applied receipt at the end of a linked history starts at the version of the history before; the version it names
      was written unless there was a crash. */
  lemma LastLinked(initial: Option<string>, h: seq<Entry>)
    requires Linked(initial, h) && h != [] && HasApplied(h[|h| - 1])
    ensures var g, p := h[..|h| - 1], h[|h| - 1].poll;
            && p.receipt.Some?
            && p.receipt.value.fromVersion == p.current == VersionAfter(initial, g)
            && (if p.crashed then p.wrote.None? else p.wrote == Some(p.receipt.value.toVersion))
            && ChainEnd(initial, Applied(g) + [p.receipt.value]) == ReadBack(p.receipt.value.toVersion)
  {
  }

  lemma UnappliedLast(initial: Option<string>, h: seq<Entry>)
    requires Linked(initial, h) && h != [] && !HasApplied(h[|h| - 1])
    ensures h[|h| - 1].Polled? ==> h[|h| - 1].poll.wrote.None?
  {
  }

  lemma IntactStep(initial: Option<string>, h: seq<Entry>)
    requires Linked(initial, h) && h != []
    ensures Intact(initial, h) <==> Intact(initial, h[..|h| - 1]) && !LostVersion(h[|h| - 1])
  {
    hide *;
    var g, e := h[..|h| - 1], h[|h| - 1];
    HistoryStep(initial, h);
    if HasApplied(e) {
      var r := e.poll.receipt.value;
      LastLinked(initial, h);
      ChainedStep(initial, Applied(g), r);
      IntactIs(initial, g);
      IntactIs(initial, h);
      LostExactly(e);
    } else {
      IntactIs(initial, g);
      IntactIs(initial, h);
      LostExactly(e);
      UnappliedLast(initial, h);
    }
  }

  lemma {:induction false} LinkedChains(initial: Option<string>, h: seq<Entry>)
    requires Linked(initial, h)
    ensures Intact(initial, h) <==> NothingLost(h)
  {
    hide *;
    if h == [] {
      NothingYet(initial);
    } else {
      IntactStep(initial, h);
      LinkedPrefix(initial, h);
      LinkedChains(initial, h[..|h| - 1]);
      LostStep(h);
    }
  }

  lemma NothingYet(initial: Option<string>)
    ensures Intact(initial, []) && NothingLost([])
  {
  }

  lemma LostStep(h: seq<Entry>)
    requires h != []
    ensures NothingLost(h) <==> NothingLost(h[..|h| - 1]) && !LostVersion(h[|h| - 1])
  {
    hide LostVersion;
  }

  /** In every run the applied receipts form a chain that ends at the current version exactly when no power cut lost a
      version. */
  lemma ChainIntactExactly(cfg: Config, disk: Disk, es: seq<Event>)
    ensures var s, initial := Run(cfg, Started(disk), es), ParseVersion(disk.versionFile);
            Chained(initial, Applied(s.history)) && ChainEnd(initial, Applied(s.history)) == ParseVersion(s.disk.versionFile)
            <==> NothingLost(s.history)
  {
    RunsAreLinked(cfg, disk, es);
    LinkedChains(ParseVersion(disk.versionFile), Run(cfg, Started(disk), es).history);
  }

  /** Link by link: the first applied receipt starts at the initial version, each next one at what the previous one reads
      back as, and the last one is the current version. */
  lemma AppliedReceiptsChain(cfg: Config, disk: Disk, es: seq<Event>)
    requires NothingLost(Run(cfg, Started(disk), es).history)
    ensures var s := Run(cfg, Started(disk), es);
            var a := Applied(s.history);
            && (a == [] ==> ParseVersion(s.disk.versionFile) == ParseVersion(disk.versionFile))
            && (a != [] ==> a[0].fromVersion == ParseVersion(disk.versionFile))
            && (a != [] ==> ParseVersion(s.disk.versionFile) == ReadBack(a[|a| - 1].toVersion))
            && (forall i :: 0 < i < |a| ==> a[i].fromVersion == ReadBack(a[i - 1].toVersion))
            && (forall i :: 0 < i < |a| && Stable(a[i - 1].toVersion) ==> a[i].fromVersion == Some(a[i - 1].toVersion))
  {
    var a := Applied(Run(cfg, Started(disk), es).history);
    ChainIntactExactly(cfg, disk, es);
    forall i | 0 < i < |a|
      ensures a[i].fromVersion == ReadBack(a[i - 1].toVersion)
      ensures Stable(a[i - 1].toVersion) ==> a[i].fromVersion == Some(a[i - 1].toVersion)
    {
      assert a[..i][i - 1] == a[i - 1];
      VersionRoundTrip(a[i - 1].toVersion);
    }
  }

  /** After a crash the version file is as it was, so the next process reads the old version again. Between the two writes
      the receipt of that poll is on disk; before the receipt nothing tells of the commands that were launched. */
  lemma CrashForgetsTheVersion(cfg: Config, s: State, w: World)
    requires s.running && PollOutcome(cfg, s.disk, w).crashed
    ensures var t := Step(cfg, Step(cfg, s, Poll(w)), Restart);
            && t.disk.versionFile == s.disk.versionFile
            && (w.crash.BeforeVersion? ==> FileName(w.stamp) in t.disk.receipts
                                           && PollOutcome(cfg, s.disk, w).receipt == Some(t.disk.receipts[FileName(w.stamp)]))
            && (w.crash.BeforeReceipt? ==> t.disk == s.disk && |PollOutcome(cfg, s.disk, w).commands| == w.crash.launched)
            && t.running && t.backoff == 0
  {
    PollIsCoherent(cfg, s.disk, w);
    CrashesByKind(cfg, s.disk, w);
  }

  lemma CrashesByKind(cfg: Config, disk: Disk, w: World)
    ensures var p := PollOutcome(cfg, disk, w);
            p.crashed ==> !w.crash.NoCrash? && (if w.crash.BeforeVersion? then p.receipt.Some?
                                                else p.receipt.None? && |p.commands| == w.crash.launched)
  {
  }

  // ---------- a receipt for every cycle? ----------

  /** The poll was offered a version and its plan was not the no-op: a cycle was begun. */
  predicate Cycled(cfg: Config, p: PollRecord) {
    p.world.api.Some? && PlanFor(cfg, p.current, p.world, p.world.api.value).gate != NoOp
  }

  /** A step of the cycle was reached with the gate open and ended in an exception other than the time-out. */
  ghost predicate Escapes(cfg: Config, p: PollRecord)
    requires p.world.api.Some?
  {
    var plan := PlanFor(cfg, p.current, p.world, p.world.api.value);
    plan.gate == ContentSync.Allowed && exists j :: RaisesAt(plan.steps, p.world.machine, j)
  }

  /** The commands that the cycle of the poll launches when it is left alone. */
  function Launched(cfg: Config, p: PollRecord): seq<string>
    requires p.world.api.Some?
  {
    ExecuteResult(SyncerFor(cfg, p.current), PlanFor(cfg, p.current, p.world, p.world.api.value), false, p.world.machine,
                  p.world.stamp).commands
  }

  /** The power was cut before the receipt. */
  predicate DiedEarly(cfg: Config, p: PollRecord)
    requires p.world.api.Some?
  {
    p.world.crash.BeforeReceipt? && p.world.crash.launched <= |Launched(cfg, p)|
  }

  /** What a poll leaves of its cycle. */
  ghost predicate Receipted(cfg: Config, p: PollRecord) {
    if Cycled(cfg, p) then
      && (p.receipt.None? <==> DiedEarly(cfg, p) || Escapes(cfg, p))
      && (p.receipt.None? ==> p.wrote.None?)
      && (DiedEarly(cfg, p) ==> p.crashed && p.commands == Launched(cfg, p)[..p.world.crash.launched])
      && (!DiedEarly(cfg, p) ==> p.commands == Launched(cfg, p) && (p.receipt.None? ==> p.commands != [] && p.raised))
    else p.receipt.None? && p.commands == [] && p.wrote.None?
  }

  lemma PollIsReceipted(cfg: Config, disk: Disk, w: World)
    ensures Receipted(cfg, PollOutcome(cfg, disk, w))
  {
    hide PlanFor, ExecuteResult, SyncerFor, Conclude, RaisesAt;
    PollIsCoherent(cfg, disk, w);
    if w.api.Some? {
      var current := ParseVersion(disk.versionFile);
      var plan := PlanFor(cfg, current, w, w.api.value);
      var cycle := ExecuteResult(SyncerFor(cfg, current), plan, false, w.machine, w.stamp);
      ReceiptMissingExactly(SyncerFor(cfg, current), plan, false, w.machine, w.stamp);
      ConcludedParts(w, current, w.api.value.version, cycle);
    }
  }

  lemma ConcludedParts(w: World, current: Option<string>, version: string, cycle: Cycle)
    ensures var p := Conclude(w, current, version, cycle);
            && p.world == w && p.current == current
            && (CutShort(w, cycle) ==> p.crashed && p.receipt.None? && p.wrote.None?
                                       && p.commands == cycle.commands[..w.crash.launched])
            && (!CutShort(w, cycle) ==> p.receipt == cycle.receipt && p.commands == cycle.commands
                                        && (p.receipt.None? ==> p.raised && p.wrote.None?))
  {
  }

  /** In every run a cycle has no receipt exactly when the power was cut before it was written, or an exception other than
      the time-out escaped from one of its commands. In the second case something was launched by then and the poll counts
      as failed; in both the version file stays. */
  lemma {:induction false} CyclesAreReceipted(cfg: Config, disk: Disk, es: seq<Event>)
    ensures forall e :: e in Run(cfg, Started(disk), es).history && e.Polled? ==> Receipted(cfg, e.poll)
  {
    if es != [] {
      var prefix, e := es[..|es| - 1], es[|es| - 1];
      CyclesAreReceipted(cfg, disk, prefix);
      var before := Run(cfg, Started(disk), prefix);
      if e.Poll? { PollIsReceipted(cfg, before.disk, e.world); }
    }
  }

  // ---------- convergence ----------

  /** The environment keeps offering `v`, or the API fails; restarts are allowed. */
  ghost predicate Offers(es: seq<Event>, v: string) {
    forall e :: e in es && e.Poll? && e.world.api.Some? ==> e.world.api.value.version == v
  }

  ghost predicate Quiet(h: seq<Entry>) {
    forall e :: e in h && e.Polled? ==> e.poll.commands == [] && e.poll.receipt.None? && e.poll.wrote.None?
  }

  lemma SettledPoll(cfg: Config, disk: Disk, w: World, v: string)
    requires cfg.locus in ALLOWED_LOCI && v != "" && ParseVersion(disk.versionFile) == Some(v)
    requires w.api.Some? ==> w.api.value.version == v
    ensures var p := PollOutcome(cfg, disk, w);
            p.commands == [] && p.receipt.None? && p.wrote.None? && AfterPoll(disk, p) == disk
  {
  }

  lemma {:induction false} SettledStaysQuiet(cfg: Config, s: State, es: seq<Event>, v: string)
    requires Offers(es, v) && cfg.locus in ALLOWED_LOCI && v != "" && ParseVersion(s.disk.versionFile) == Some(v)
    ensures var t := Run(cfg, s, es);
            && t.disk == s.disk
            && s.history <= t.history
            && Quiet(t.history[|s.history|..])
  {
    if es != [] {
      var prefix, e := es[..|es| - 1], es[|es| - 1];
      SettledStaysQuiet(cfg, s, prefix, v);
      var mid := Run(cfg, s, prefix);
      assert e in es;
      var entry := if e.Restart? then Restarted else Polled(PollOutcome(cfg, mid.disk, e.world));
      if e.Poll? { SettledPoll(cfg, mid.disk, e.world, v); }
      assert (mid.history + [entry])[|s.history|..] == mid.history[|s.history|..] + [entry];
    }
  }

  /** Once `v` has been applied, every later run that is only ever offered `v` launches no command and writes
      nothing; for a version that does not survive its file the very next such poll is no no-op. */
  lemma AppliedVersionSettles(cfg: Config, disk: Disk, before: seq<Event>, w: World, after: seq<Event>)
    requires var s := Run(cfg, Started(disk), before);
             s.running && PollOutcome(cfg, s.disk, w).wrote.Some?
    requires Offers(after, w.api.value.version)
    ensures var v := w.api.value.version;
            var s := Run(cfg, Started(disk), before + [Poll(w)]);
            var t := Run(cfg, Started(disk), before + [Poll(w)] + after);
            && (Stable(v) ==> t.disk == s.disk && s.history <= t.history && Quiet(t.history[|s.history|..]))
            && (forall w' :: PlanFor(cfg, ParseVersion(s.disk.versionFile), w', w.api.value).gate == NoOp <==> Stable(v))
  {
    hide PlanFor, Conclude, Run, Stable, ParseVersion, VersionText, ReadBack;
    var v := w.api.value.version;
    var s0 := Run(cfg, Started(disk), before);
    RunAppend(cfg, Started(disk), before, Poll(w));
    var s := Run(cfg, Started(disk), before + [Poll(w)]);
    WroteMeansLocus(cfg, s0.disk, w);
    assert s.disk.versionFile == Some(VersionText(v));
    ReadBackIs(v);
    VersionRoundTrip(v);
    if Stable(v) {
      SettledStaysQuiet(cfg, s, after, v);
      RunConcat(cfg, Started(disk), before + [Poll(w)], after);
    }
    var current := ParseVersion(s.disk.versionFile);
    forall w' ensures PlanFor(cfg, current, w', w.api.value).gate == NoOp <==> Stable(v) {
      NoOpExactly(cfg, current, w', w.api.value);
    }
  }

  lemma NoOpExactly(cfg: Config, current: Option<string>, w: World, m: Manifest)
    ensures PlanFor(cfg, current, w, m).gate == NoOp <==>
            cfg.locus in ALLOWED_LOCI && m.version != "" && current == Some(m.version)
  {
  }

  lemma ReadBackIs(v: string)
    ensures ReadBack(v) == ParseVersion(Some(VersionText(v)))
    ensures Stable(v) ==> v != ""
  {
  }

  lemma WroteMeansLocus(cfg: Config, disk: Disk, w: World)
    requires PollOutcome(cfg, disk, w).wrote.Some?
    ensures w.api.Some? && cfg.locus in ALLOWED_LOCI && PollOutcome(cfg, disk, w).wrote == Some(w.api.value.version)
  {
    hide PlanFor, ExecuteResult, SyncerFor, Conclude, Acts;
    var current := ParseVersion(disk.versionFile);
    var plan := PlanFor(cfg, current, w, w.api.value);
    PollIsCoherent(cfg, disk, w);
    CycleNeedsGate(SyncerFor(cfg, current), plan, w.machine, w.stamp);
    ConcludedActs(w, current, w.api.value.version, ExecuteResult(SyncerFor(cfg, current), plan, false, w.machine, w.stamp));
    OpenMeansLocus(cfg, current, w, w.api.value);
  }

  lemma OpenMeansLocus(cfg: Config, current: Option<string>, w: World, m: Manifest)
    requires PlanFor(cfg, current, w, m).gate == ContentSync.Allowed
    ensures cfg.locus in ALLOWED_LOCI
  {
  }

  // ---------- the deploy gate over runs ----------

  /** The poll switched, or tried to, or recorded a version as applied. */
  predicate Acts(p: PollRecord) {
    || (exists c :: c in p.commands && NeedsRebuild(c))
    || p.wrote.Some?
    || (p.receipt.Some? && p.receipt.value.outcome == OutcomeApplied)
  }

  /** The attestation directory holds a file named after the offered content view and version, and the record in it
      authorises exactly that offer. */
  predicate Authorised(cfg: Config, w: World) {
    && w.api.Some? && Given(cfg.attestationDir)
    && var m := w.api.value;
       var file := m.contentView + "-" + m.version + ".json";
    && file in w.attestations
    && Authorises(w.attestations[file], m.org, m.contentView, m.version, cfg.attestationKey, w.verify)
  }

  /** In this very poll the offer was authorised, and what the poll wrote names it. */
  predicate Attested(cfg: Config, p: PollRecord) {
    && Authorised(cfg, p.world)
    && var m := p.world.api.value;
    && (p.wrote.Some? ==> p.wrote == Some(m.version))
    && (p.receipt.Some? ==> p.receipt.value.level == Proved && p.receipt.value.toVersion == m.version)
  }

  lemma PlanGate(cfg: Config, current: Option<string>, w: World, m: Manifest)
    requires cfg.requireAttestation
    ensures var att, plan := LoadAttestation(cfg, w, m), PlanFor(cfg, current, w, m);
            plan.gate == Allowed ==>
              att.Some? && Authorises(att.value, m.org, m.contentView, m.version, cfg.attestationKey, w.verify)
              && plan.level == Proved && (w.api == Some(m) ==> Authorised(cfg, w))
  {
    GateOpensExactlyWhenAuthorised(LoadAttestation(cfg, w, m), m.org, m.contentView, m.version, cfg.attestationKey, w.verify);
  }

  /** A cycle that launched a command or was applied came from an open gate and carries its level. */
  lemma CycleNeedsGate(s: Syncer, plan: SyncPlan, machine: Machine, stamp: Stamp)
    ensures var c := ExecuteResult(s, plan, false, machine, stamp);
            && (c.commands != [] || (c.receipt.Some? && c.receipt.value.outcome == OutcomeApplied) ==> plan.gate == Allowed)
            && (c.receipt.Some? ==> c.receipt.value.level == plan.level && c.receipt.value.toVersion == plan.manifest.version)
  {
  }

  lemma ConcludedActs(w: World, current: Option<string>, version: string, cycle: Cycle)
    ensures var p := Conclude(w, current, version, cycle);
            && p.commands <= cycle.commands
            && (Acts(p) ==> cycle.commands != [] || (cycle.receipt.Some? && cycle.receipt.value.outcome == OutcomeApplied))
            && (p.wrote.Some? ==> p.wrote == Some(version))
            && (p.receipt.Some? ==> p.receipt == cycle.receipt)
  {
  }

  lemma PollGate(cfg: Config, disk: Disk, w: World)
    requires cfg.requireAttestation
    ensures var p := PollOutcome(cfg, disk, w);
            p.commands != [] || Acts(p) ==> Attested(cfg, p)
  {
    if w.api.Some? {
      var m := w.api.value;
      var current := ParseVersion(disk.versionFile);
      var plan := PlanFor(cfg, current, w, m);
      PlanGate(cfg, current, w, m);
      CycleNeedsGate(SyncerFor(cfg, current), plan, w.machine, w.stamp);
      ConcludedActs(w, current, m.version, ExecuteResult(SyncerFor(cfg, current), plan, false, w.machine, w.stamp));
      PollIsCoherent(cfg, disk, w);
    }
  }

  /** With attestation required, in every run each launched command, each version write and each applied receipt
      belongs to a poll that accepted an attestation of exactly that version; applied receipts are Proved. */
  lemma {:induction false} EveryActIsAttested(cfg: Config, disk: Disk, es: seq<Event>)
    requires cfg.requireAttestation
    ensures forall e :: e in Run(cfg, Started(disk), es).history && e.Polled? && (e.poll.commands != [] || Acts(e.poll)) ==>
              Attested(cfg, e.poll)
  {
    if es != [] {
      var prefix, e := es[..|es| - 1], es[|es| - 1];
      EveryActIsAttested(cfg, disk, prefix);
      var before := Run(cfg, Started(disk), prefix);
      if e.Poll? && before.running { PollGate(cfg, before.disk, e.world); }
    }
  }

  predicate AllColonFree(m: Manifest) {
    ColonFree(m.org) && ColonFree(m.contentView) && ColonFree(m.version)
  }

  predicate NamesColonFree(m: Manifest) {
    ColonFree(m.org) && ColonFree(m.contentView)
  }

  /** One of the two offers has no colon at all, or neither has one in its organisation or content view. */
  predicate ToldApart(m: Manifest, n: Manifest) {
    AllColonFree(m) || AllColonFree(n) || (NamesColonFree(m) && NamesColonFree(n))
  }

  lemma ToldApartById(m: Manifest, n: Manifest)
    requires ToldApart(m, n)
    requires ExpectedArtifactId(m.org, m.contentView, m.version) == ExpectedArtifactId(n.org, n.contentView, n.version)
    ensures m.org == n.org && m.contentView == n.contentView && m.version == n.version
  {
    ArtifactIdInjective(m.org, m.contentView, m.version);
    ArtifactIdInjective(n.org, n.contentView, n.version);
    if NamesColonFree(m) && NamesColonFree(n) {
      NamesDecide(m.org, m.contentView, m.version, n.org, n.contentView, n.version);
    }
  }

  /** Two acting polls that loaded the same attestation acted on offers with one and the same artifact id; so one record
      cannot serve two versions where the id tells the offers apart, and otherwise serves two exactly when it is cut at
      different places. */
  lemma OneAttestationOneVersion(cfg: Config, disk: Disk, es: seq<Event>, p: PollRecord, q: PollRecord)
    requires cfg.requireAttestation
    requires Polled(p) in Run(cfg, Started(disk), es).history && Polled(q) in Run(cfg, Started(disk), es).history
    requires Acts(p) && Acts(q) && p.world.api.Some? && q.world.api.Some?
    requires LoadAttestation(cfg, p.world, p.world.api.value) == LoadAttestation(cfg, q.world, q.world.api.value)
    ensures var m, n := p.world.api.value, q.world.api.value;
            && ExpectedArtifactId(m.org, m.contentView, m.version) == ExpectedArtifactId(n.org, n.contentView, n.version)
            && (|m.org| == |n.org| && |m.contentView| == |n.contentView| <==>
                m.org == n.org && m.contentView == n.contentView && m.version == n.version)
            && (ToldApart(m, n) ==> m.org == n.org && m.contentView == n.contentView && m.version == n.version)
  {
    EveryActIsAttested(cfg, disk, es);
    assert Attested(cfg, Polled(p).poll) && Attested(cfg, Polled(q).poll);
    var m, n := p.world.api.value, q.world.api.value;
    if |m.org| == |n.org| && |m.contentView| == |n.contentView| {
      IdsJoin(m.org, m.contentView, m.version, n.org, n.contentView, n.version);
      SameCuts(m.org, m.contentView, m.version, n.org, n.contentView, n.version);
    }
    if ToldApart(m, n) { ToldApartById(m, n); }
  }

  /** Every poll of the run verifies with minisign itself. */
  ghost predicate MinisignOnly(es: seq<Event>) {
    forall e :: e in es && e.Poll? ==> exists tool :: e.world.verify == DefaultVerifier(tool)
  }

  lemma {:induction false} HistoryWorlds(cfg: Config, disk: Disk, es: seq<Event>, i: nat)
    requires i < |Run(cfg, Started(disk), es).history| && Run(cfg, Started(disk), es).history[i].Polled?
    ensures Poll(Run(cfg, Started(disk), es).history[i].poll.world) in es
  {
    if es != [] {
      var prefix, e := es[..|es| - 1], es[|es| - 1];
      var before := Run(cfg, Started(disk), prefix);
      assert e in es;
      if i < |before.history| {
        HistoryWorlds(cfg, disk, prefix, i);
      } else if e.Poll? {
        PollIsCoherent(cfg, before.disk, e.world);
      }
    }
  }

  lemma ShutGate(cfg: Config, p: PollRecord)
    requires !Given(cfg.attestationDir) || (!Given(cfg.attestationKey) && exists tool :: p.world.verify == DefaultVerifier(tool))
    ensures !Attested(cfg, p)
  {
  }

  /** A daemon that requires attestation but was given no attestation directory, or no key for the default
      verifier, never launches anything and never moves the version file. */
  lemma UnconfiguredGateStaysShut(cfg: Config, disk: Disk, es: seq<Event>)
    requires cfg.requireAttestation
    requires !Given(cfg.attestationDir) || (!Given(cfg.attestationKey) && MinisignOnly(es))
    ensures var s := Run(cfg, Started(disk), es);
            && (forall e :: e in s.history && e.Polled? ==> e.poll.commands == [] && !Acts(e.poll))
            && s.disk.versionFile == disk.versionFile
  {
    var h := Run(cfg, Started(disk), es).history;
    EveryActIsAttested(cfg, disk, es);
    forall i | 0 <= i < |h| && h[i].Polled? ensures !Attested(cfg, h[i].poll) {
      HistoryWorlds(cfg, disk, es, i);
      ShutGate(cfg, h[i].poll);
    }
    NoWriteNoChange(cfg, disk, es);
  }

  /** The start-up from the environment gives no directory and asks for attestation, so whatever the variables say, such
      a daemon never launches anything and never moves the version file. */
  lemma EnvironmentDaemonNeverActs(env: map<string, string>, parseInt: string -> Option<int>, disk: Disk, es: seq<Event>)
    requires ConfigFromEnv(env, parseInt).Some?
    ensures var s := Run(ConfigFromEnv(env, parseInt).value, Started(disk), es);
            && (forall e :: e in s.history && e.Polled? ==> e.poll.commands == [] && !Acts(e.poll))
            && s.disk.versionFile == disk.versionFile
  {
    UnconfiguredGateStaysShut(ConfigFromEnv(env, parseInt).value, disk, es);
  }

  lemma DeniedPoll(cfg: Config, disk: Disk, w: World)
    requires cfg.locus !in ALLOWED_LOCI
    ensures RefusedEachTime(PollOutcome(cfg, disk, w))
  {
  }

  /** Nothing was launched or recorded as applied, and the refusal was receipted if there was an offer at all and the power
      stayed on. */
  ghost predicate RefusedEachTime(p: PollRecord) {
    && p.commands == [] && p.wrote.None?
    && (p.receipt.Some? <==> p.world.api.Some? && p.world.crash != BeforeReceipt(0))
    && (p.receipt.Some? ==> p.receipt.value.outcome == OutcomeDenied && p.receipt.value.level == Speculative)
  }

  /** Outside the allowed loci no run ever launches anything or moves the version file. A refusal is not remembered,
      either: every poll that is offered a version, the same one or not, writes one more "denied" receipt. */
  lemma {:induction false} DeniedLocusNeverActs(cfg: Config, disk: Disk, es: seq<Event>)
    requires cfg.locus !in ALLOWED_LOCI
    ensures var s := Run(cfg, Started(disk), es);
            && (forall e :: e in s.history && e.Polled? ==> RefusedEachTime(e.poll))
            && s.disk.versionFile == disk.versionFile
  {
    if es != [] {
      var prefix, e := es[..|es| - 1], es[|es| - 1];
      DeniedLocusNeverActs(cfg, disk, prefix);
      var before := Run(cfg, Started(disk), prefix);
      if e.Poll? && before.running { DeniedPoll(cfg, before.disk, e.world); }
    }
  }

  lemma {:induction false} NoWriteNoChange(cfg: Config, disk: Disk, es: seq<Event>)
    requires forall e :: e in Run(cfg, Started(disk), es).history && e.Polled? ==> e.poll.wrote.None?
    ensures Run(cfg, Started(disk), es).disk.versionFile == disk.versionFile
  {
    if es != [] {
      var prefix, e := es[..|es| - 1], es[|es| - 1];
      var before, after := Run(cfg, Started(disk), prefix), Run(cfg, Started(disk), es);
      assert before.history <= after.history;
      NoWriteNoChange(cfg, disk, prefix);
      if e.Poll? && before.running {
        assert after.history[|before.history|] in after.history;
      }
    }
  }

  // ---------- backoff ----------

  /** How many polls in a row, up to the end of the history, let an exception escape. */
  function FailureStreak(h: seq<Entry>): nat {
    if h != [] && h[|h| - 1].Polled? && h[|h| - 1].poll.raised then 1 + FailureStreak(h[..|h| - 1]) else 0
  }

  function Pow2(n: nat): nat {
    if n == 0 then 1 else 2 * Pow2(n - 1)
  }

  function BackoffFor(k: nat): nat {
    if k == 0 then 0 else if MIN_BACKOFF_S * Pow2(k - 1) < MAX_BACKOFF_S then MIN_BACKOFF_S * Pow2(k - 1) else MAX_BACKOFF_S
  }

  lemma BackoffDoubles(k: nat)
    ensures NextBackoff(BackoffFor(k)) == BackoffFor(k + 1)
  {
    if k > 0 { Pow2Positive(k - 1); }
  }

  lemma StreakStep(h: seq<Entry>, e: Entry)
    ensures FailureStreak(h + [e]) == if e.Polled? && e.poll.raised then FailureStreak(h) + 1 else 0
  {
    assert (h + [e])[..|h|] == h;
  }

  /** What one event does to the history and the backoff. */
  lemma StepLogs(cfg: Config, s: State, e: Event) returns (entry: Entry)
    ensures var t := Step(cfg, s, e);
            || t == s
            || (t.history == s.history + [entry]
                && t.backoff == if entry.Polled? && entry.poll.raised then NextBackoff(s.backoff) else 0)
  {
    entry := if e.Restart? then Restarted else Polled(PollOutcome(cfg, s.disk, e.world));
  }

  lemma {:induction false} BackoffCounts(cfg: Config, disk: Disk, es: seq<Event>)
    ensures var s := Run(cfg, Started(disk), es);
            s.backoff == BackoffFor(FailureStreak(s.history))
  {
    if es != [] {
      var prefix, e := es[..|es| - 1], es[|es| - 1];
      BackoffCounts(cfg, disk, prefix);
      var before := Run(cfg, Started(disk), prefix);
      var entry := StepLogs(cfg, before, e);
      StreakStep(before.history, entry);
      BackoffDoubles(FailureStreak(before.history));
    }
  }

  /** After k failures in a row the backoff is min(1800, 30 * 2^(k-1)); after any other poll or a restart it is 0. */
  lemma BackoffIsExponential(cfg: Config, disk: Disk, es: seq<Event>)
    ensures var s := Run(cfg, Started(disk), es);
            var k := FailureStreak(s.history);
            s.backoff == if k == 0 then 0 else Min(MAX_BACKOFF_S, MIN_BACKOFF_S * Pow2(k - 1))
  {
    BackoffCounts(cfg, disk, es);
  }

  lemma Pow2Positive(n: nat)
    ensures Pow2(n) >= 1
  {
  }

  /** Every sleep is the poll interval or a backoff between half a minute and half an hour. */
  lemma {:induction false} SleepsAreBounded(cfg: Config, disk: Disk, es: seq<Event>)
    ensures forall nap :: nap in Run(cfg, Started(disk), es).sleeps ==>
              nap == cfg.pollInterval || MIN_BACKOFF_S <= nap <= MAX_BACKOFF_S
  {
    if es != [] {
      SleepsAreBounded(cfg, disk, es[..|es| - 1]);
      BackoffIsExponential(cfg, disk, es);
      var k := FailureStreak(Run(cfg, Started(disk), es).history);
      if k > 0 { Pow2Positive(k - 1); }
    }
  }
}
