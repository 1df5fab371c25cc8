/** Runs on single inputs that show where the daemon does not do what its documentation promises. */
module DaemonExamples {
  import opened Text
  import opened Attestation
  import opened ContentSync
  import opened ReceiptStores
  import opened Daemon
  import opened DaemonSafety

  /** A local daemon that asks for no attestation and checks no signature, on a host where nothing was ever applied. */
  const Local := Config("cv", "stable", "local", "flake", None, None, false, None, None, 300)
  const EmptyDisk := Disk(None, map[])

  function Offered(version: string): Manifest {
    Manifest("org", "cv", version, "stable", "http://cache")
  }

  function Offer(version: string, machine: Machine): World {
    World(Some(Offered(version)), map[], (r: Record, key: Option<string>) => false, machine, Stamp("1", "now"), NoSignal, NoCrash)
  }

  /** Neither `nix` nor `nixos-rebuild` is on the PATH. */
  function BareMachine(): Machine {
    (j: nat) => StepEnv(false, false, Exit(0))
  }

  /** The closure copy succeeds, then starting the switch raises. */
  function RaisingMachine(): Machine {
    (j: nat) => StepEnv(true, true, if j == 0 then Exit(0) else Raised)
  }

  function Steps(version: string): seq<string> {
    [CopyClosure(Offered(version), "flake"), Switch("flake")]
  }

  function PlanOf(version: string, machine: Machine): SyncPlan {
    PlanFor(Local, None, Offer(version, machine), Offered(version))
  }

  function CycleOf(version: string, machine: Machine): Cycle {
    ExecuteResult(SyncerFor(Local, None), PlanOf(version, machine), false, machine, Stamp("1", "now"))
  }

  lemma OpenPlan(version: string, machine: Machine)
    ensures PlanOf(version, machine).gate == ContentSync.Allowed && PlanOf(version, machine).steps == Steps(version)
    ensures PlanOf(version, machine).manifest.version == version
  {
    assert "local" in ALLOWED_LOCI;
    assert PlanOf(version, machine).steps == [] + Steps(version);
  }

  /** The poll gets past planning and ends as its cycle does. */
  lemma PollOf(version: string, machine: Machine)
    ensures PollOutcome(Local, EmptyDisk, Offer(version, machine))
            == Conclude(Offer(version, machine), None, version, CycleOf(version, machine))
  {
    OpenPlan(version, machine);
  }

  lemma CycleExecutes(version: string, machine: Machine)
    ensures var x, c := Executed(Steps(version), false, machine), CycleOf(version, machine);
            && c.commands == x.commands && (c.receipt.None? <==> x.raised)
            && (c.receipt.Some? ==> (c.receipt.value.outcome == OutcomeApplied <==> Cut(Steps(version), false, machine, 0) == 2))
  {
    OpenPlan(version, machine);
  }

  /** What the two planned steps launch. */
  lemma TwoSteps(version: string, machine: Machine)
    ensures var steps := Steps(version);
            && Commands(steps, false, machine, 1) == (if machine(0).nixOnPath then [steps[0]] else [])
            && Commands(steps, false, machine, 2)
               == Commands(steps, false, machine, 1) + (if machine(1).rebuildOnPath then [steps[1]] else [])
            && (Stops(steps[0], false, machine(0)) <==> machine(0).nixOnPath && machine(0).tool != Exit(0))
            && (Stops(steps[1], false, machine(1)) <==> machine(1).rebuildOnPath && machine(1).tool != Exit(0))
  {
    Prefixes(Offered(version), "flake", "");
    assert Commands(Steps(version), false, machine, 0) == [];
  }

  /** Without either tool on the PATH nothing is launched at all, yet the cycle is applied and the version recorded. */
  lemma AppliedWithNothingLaunched(version: string)
    ensures var p := PollOutcome(Local, EmptyDisk, Offer(version, BareMachine()));
            && p.commands == [] && p.wrote == Some(version)
            && p.receipt.Some? && p.receipt.value.outcome == OutcomeApplied
            && ParseVersion(AfterPoll(EmptyDisk, p).versionFile) == ReadBack(version)
  {
    PollOf(version, BareMachine());
    TwoSteps(version, BareMachine());
    CycleExecutes(version, BareMachine());
    assert Cut(Steps(version), false, BareMachine(), 0) == 2;
    AppliedConcludes(EmptyDisk, Offer(version, BareMachine()), version, CycleOf(version, BareMachine()));
  }

  lemma AppliedConcludes(disk: Disk, w: World, version: string, cycle: Cycle)
    requires cycle.receipt.Some? && cycle.receipt.value.outcome == OutcomeApplied && w.crash.NoCrash?
    ensures var p := Conclude(w, None, version, cycle);
            && p.commands == cycle.commands && p.wrote == Some(version) && p.receipt == cycle.receipt
            && ParseVersion(AfterPoll(disk, p).versionFile) == ReadBack(version)
  {
  }

  /** ... and from then on every poll that is offered the version is quiet: the host counts as up to date, for ever,
      without a single command ever having been launched. */
  lemma NeverLaunchedAndSettled(version: string, after: seq<Event>)
    requires Stable(version) && Offers(after, version)
    ensures var t := Run(Local, Started(EmptyDisk), [Poll(Offer(version, BareMachine()))] + after);
            && ParseVersion(t.disk.versionFile) == Some(version)
            && forall e :: e in t.history && e.Polled? ==> e.poll.commands == []
  {
    var w := Offer(version, BareMachine());
    var first := Run(Local, Started(EmptyDisk), [] + [Poll(w)]);
    AppliedWithNothingLaunched(version);
    VersionRoundTrip(version);
    RunAppend(Local, Started(EmptyDisk), [], Poll(w));
    assert [] + [Poll(w)] == [Poll(w)];
    RunConcat(Local, Started(EmptyDisk), [Poll(w)], after);
    SettledStaysQuiet(Local, first, after, version);
    var t := Run(Local, first, after);
    forall e | e in t.history && e.Polled? ensures e.poll.commands == [] {
      assert t.history == t.history[..1] + t.history[1..];
    }
  }

  /** A version with a blank at its end is applied, and the very next poll that is offered it applies it again. */
  lemma UnstableVersionIsAppliedAgain()
    ensures !Stable("1 ")
    ensures var w := Offer("1 ", BareMachine());
            var disk := AfterPoll(EmptyDisk, PollOutcome(Local, EmptyDisk, w));
            && PollOutcome(Local, EmptyDisk, w).wrote == Some("1 ")
            && PlanFor(Local, ParseVersion(disk.versionFile), w, Offered("1 ")).gate == ContentSync.Allowed
  {
    var w := Offer("1 ", BareMachine());
    var disk := AfterPoll(EmptyDisk, PollOutcome(Local, EmptyDisk, w));
    assert "1 "[1] == ' ';
    AppliedWithNothingLaunched("1 ");
    VersionRoundTrip("1 ");
    GateExactly(SyncerFor(Local, ParseVersion(disk.versionFile)), w.verify, Offered("1 "),
                LoadAttestation(Local, w, Offered("1 ")));
  }

  /** The switch itself is launched and raises: the copy and the switch were launched, and there is neither a receipt nor
      a version write. */
  lemma SwitchWithoutReceipt(version: string)
    ensures var p := PollOutcome(Local, EmptyDisk, Offer(version, RaisingMachine()));
            && p.commands == [CopyClosure(Offered(version), "flake"), Switch("flake")]
            && p.receipt.None? && p.wrote.None? && p.raised
            && AfterPoll(EmptyDisk, p) == EmptyDisk
  {
    var steps := Steps(version);
    PollOf(version, RaisingMachine());
    TwoSteps(version, RaisingMachine());
    CycleExecutes(version, RaisingMachine());
    assert Cut(steps, false, RaisingMachine(), 0) == 1;
    assert Commands(steps, false, RaisingMachine(), 2) == [steps[0]] + [steps[1]];
    RaisedConcludes(EmptyDisk, Offer(version, RaisingMachine()), version, CycleOf(version, RaisingMachine()));
  }

  lemma RaisedConcludes(disk: Disk, w: World, version: string, cycle: Cycle)
    requires cycle.receipt.None? && w.crash.NoCrash?
    ensures var p := Conclude(w, None, version, cycle);
            p.commands == cycle.commands && p.receipt.None? && p.wrote.None? && p.raised && AfterPoll(disk, p) == disk
  {
  }
}
