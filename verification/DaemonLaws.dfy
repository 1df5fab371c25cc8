/** What every poll of every run does, read off the configuration, the offer and the answers of the machine. */
module DaemonLaws {
  import opened Text
  import opened Sums
  import opened Attestation
  import opened ContentSync
  import opened ReceiptStores
  import opened Daemon
  import opened DaemonSafety

  // ---------- polls of a history ----------

  /** The record of a poll made on some disk. */
  ghost predicate IsPoll(cfg: Config, p: PollRecord) {
    exists disk: Disk :: p == PollOutcome(cfg, disk, p.world)
  }

  /** Whatever every poll is, every poll of every run is. */
  lemma {:induction false} PollsOfRuns(cfg: Config, disk: Disk, es: seq<Event>)
    ensures forall e :: e in Run(cfg, Started(disk), es).history && e.Polled? ==> IsPoll(cfg, e.poll)
  {
    if es != [] {
      var prefix, e := es[..|es| - 1], es[|es| - 1];
      PollsOfRuns(cfg, disk, prefix);
      var before := Run(cfg, Started(disk), prefix);
      if e.Poll? && before.running {
        PollIsCoherent(cfg, before.disk, e.world);
        assert IsPoll(cfg, PollOutcome(cfg, before.disk, e.world));
      }
    }
  }

  /** The gate is open for this offer: an allowed locus, a version other than the current one, and an authorisation if one
      is required. */
  predicate Open(cfg: Config, w: World, current: Option<string>) {
    && w.api.Some? && cfg.locus in {"local", "trusted_private"}
    && !(w.api.value.version != "" && current == Some(w.api.value.version))
    && (cfg.requireAttestation ==> Authorised(cfg, w))
  }

  /** The offer is the version the host has already. */
  predicate UpToDate(cfg: Config, w: World, current: Option<string>) {
    && w.api.Some? && cfg.locus in {"local", "trusted_private"}
    && w.api.value.version != "" && current == Some(w.api.value.version)
  }

  /** The steps of an open gate: with a signing key the three of the signature check, then the copy and the switch. */
  function Script(cfg: Config, m: Manifest): seq<string> {
    (if Given(cfg.signingKey) then [FetchInfo(m), FetchSignature(m), CheckSignature(cfg.signingKey.value)] else [])
    + [CopyClosure(m, cfg.flakeRef), Switch(cfg.flakeRef)]
  }

  /** What a daemon plans for an offer, in terms of its own configuration. */
  lemma PlanOfConfig(cfg: Config, current: Option<string>, w: World)
    requires w.api.Some?
    ensures var p, m := PlanFor(cfg, current, w, w.api.value), w.api.value;
            && p.manifest == m && p.fromVersion == current && p.flakeRef == cfg.flakeRef
            && (p.gate == Denied <==> cfg.locus !in {"local", "trusted_private"})
            && (p.gate == NoOp <==> UpToDate(cfg, w, current))
            && (p.gate == ContentSync.Allowed <==> Open(cfg, w, current))
            && (p.level == Proved <==> p.gate == ContentSync.Allowed && cfg.requireAttestation)
            && p.steps == (if p.gate == ContentSync.Allowed then Script(cfg, m) else [])
            && (p.decision.Some? <==> p.gate in {Blocked, ContentSync.Allowed} && cfg.requireAttestation)
            && (p.decision.Some? ==> (p.decision.value.ok <==> p.gate == ContentSync.Allowed))
  {
    hide *;
    var s, m := SyncerFor(cfg, current), w.api.value;
    SyncerIs(cfg, current);
    PlanIs(cfg, current, w, m);
    AuthorisedExactly(cfg, w);
    GateExactly(s, w.verify, m, LoadAttestation(cfg, w, m));
    PlanCases(s, w.verify, m, LoadAttestation(cfg, w, m));
    PlanDecides(s, w.verify, m, LoadAttestation(cfg, w, m));
    ClearedExactly(cfg, current, w);
    OpenIs(cfg, w, current);
    ScriptIs(cfg, m);
  }

  lemma SyncerIs(cfg: Config, current: Option<string>)
    ensures var s := SyncerFor(cfg, current);
            && s.flakeRef == cfg.flakeRef && s.locus == cfg.locus && s.currentVersion == current
            && s.signingKey == cfg.signingKey && s.runRef == cfg.runRef && s.requireAttestation == cfg.requireAttestation
            && s.attestationKey == cfg.attestationKey
  {
  }

  lemma PlanIs(cfg: Config, current: Option<string>, w: World, m: Manifest)
    ensures PlanFor(cfg, current, w, m) == Plan(SyncerFor(cfg, current), w.verify, m, LoadAttestation(cfg, w, m))
  {
  }

  lemma AuthorisedExactly(cfg: Config, w: World)
    requires w.api.Some?
    ensures var m := w.api.value;
            var att := LoadAttestation(cfg, w, m);
            Authorised(cfg, w) <==>
            att.Some? && Authorises(att.value, m.org, m.contentView, m.version, cfg.attestationKey, w.verify)
  {
    hide Authorises;
  }

  lemma ClearedExactly(cfg: Config, current: Option<string>, w: World)
    requires w.api.Some?
    ensures Cleared(SyncerFor(cfg, current), w.verify, w.api.value, LoadAttestation(cfg, w, w.api.value)) <==>
            (cfg.requireAttestation ==> Authorised(cfg, w))
  {
    hide Authorises;
    AuthorisedExactly(cfg, w);
  }

  lemma OpenIs(cfg: Config, w: World, current: Option<string>)
    requires w.api.Some?
    ensures ALLOWED_LOCI == {"local", "trusted_private"}
    ensures var held := w.api.value.version != "" && current == Some(w.api.value.version);
            && (UpToDate(cfg, w, current) <==> cfg.locus in ALLOWED_LOCI && held)
            && (Open(cfg, w, current) <==> cfg.locus in ALLOWED_LOCI && !held && (cfg.requireAttestation ==> Authorised(cfg, w)))
  {
    hide Authorised;
  }

  lemma ScriptIs(cfg: Config, m: Manifest)
    ensures Script(cfg, m) == VerifySteps(cfg.signingKey, m) + [CopyClosure(m, cfg.flakeRef), Switch(cfg.flakeRef)]
  {
    hide FetchInfo, FetchSignature, CheckSignature, CopyClosure, Switch;
  }

  /** The decision that travels with a plan: there is one when an offer got as far as a required attestation. */
  lemma PlanDecides(s: Syncer, verify: Verifier, m: Manifest, att: Option<Record>)
    ensures var p := Plan(s, verify, m, att);
            && p.flakeRef == s.flakeRef
            && (p.decision.Some? <==> p.gate in {Blocked, ContentSync.Allowed} && s.requireAttestation)
            && (p.decision.Some? ==> (p.decision.value.ok <==> p.gate == ContentSync.Allowed))
  {
    hide VerifyRelease, VerifySteps, CopyClosure, Switch;
  }

  // ---------- what is launched ----------

  /** The launched commands of a whole signed script, one after another. */
  lemma SignedCommands(cfg: Config, m: Manifest, machine: Machine)
    requires Given(cfg.signingKey)
    ensures |Script(cfg, m)| == 5 && Script(cfg, m)[4] == Switch(cfg.flakeRef)
    ensures Commands(Script(cfg, m), false, machine, 5) ==
            [FetchInfo(m), FetchSignature(m), CheckSignature(cfg.signingKey.value)]
            + (if machine(3).nixOnPath then [CopyClosure(m, cfg.flakeRef)] else [])
            + (if machine(4).rebuildOnPath then [Switch(cfg.flakeRef)] else [])
  {
    hide NeedsNix, NeedsRebuild, FetchInfo, FetchSignature, CheckSignature, CopyClosure, Switch;
    var steps := Script(cfg, m);
    Prefixes(m, cfg.flakeRef, cfg.signingKey.value);
    assert steps == [FetchInfo(m), FetchSignature(m), CheckSignature(cfg.signingKey.value), CopyClosure(m, cfg.flakeRef),
                     Switch(cfg.flakeRef)];
    assert Commands(steps, false, machine, 1) == Commands(steps, false, machine, 0) + [steps[0]] == [steps[0]];
    assert Commands(steps, false, machine, 2) == [steps[0], steps[1]];
    assert Commands(steps, false, machine, 3) == [steps[0], steps[1], steps[2]];
  }

  /** The unhindered cycle of an open gate. */
  function LaunchList(cfg: Config, w: World): seq<string>
    requires w.api.Some?
  {
    Executed(Script(cfg, w.api.value), false, w.machine).commands
  }

  /** A poll launches what its cycle launches as far as the power lasts, and nothing when the gate is shut. */
  lemma PollLaunches(cfg: Config, p: PollRecord)
    requires IsPoll(cfg, p)
    ensures p.commands != [] ==> Open(cfg, p.world, p.current)
    ensures Open(cfg, p.world, p.current) ==>
              if p.world.crash.BeforeReceipt? && p.world.crash.launched <= |LaunchList(cfg, p.world)|
              then p.crashed && p.commands == LaunchList(cfg, p.world)[..p.world.crash.launched]
              else p.commands == LaunchList(cfg, p.world)
  {
    hide *;
    var disk: Disk := PollDisk(cfg, p);
    var w := p.world;
    PollIs(cfg, disk, w);
    OpenOffers(cfg, w, p.current);
    if w.api.Some? {
      var plan := PlanFor(cfg, p.current, w, w.api.value);
      var cycle := ExecuteResult(SyncerFor(cfg, p.current), plan, false, w.machine, w.stamp);
      PlanOfConfig(cfg, p.current, w);
      NeverBoth(cfg, w, p.current);
      CycleLaunches(SyncerFor(cfg, p.current), plan, w.machine, w.stamp);
      ConcludedParts(w, p.current, w.api.value.version, cycle);
      CutIs(w, cycle);
      LaunchListIs(cfg, w);
    }
  }

  lemma PollDisk(cfg: Config, p: PollRecord) returns (disk: Disk)
    requires IsPoll(cfg, p)
    ensures p == PollOutcome(cfg, disk, p.world)
  {
    disk :| p == PollOutcome(cfg, disk, p.world);
  }

  lemma OpenOffers(cfg: Config, w: World, current: Option<string>)
    ensures Open(cfg, w, current) || UpToDate(cfg, w, current) ==> w.api.Some?
  {
  }

  lemma NeverBoth(cfg: Config, w: World, current: Option<string>)
    ensures !(Open(cfg, w, current) && UpToDate(cfg, w, current))
  {
  }

  lemma CutIs(w: World, cycle: Cycle)
    ensures CutShort(w, cycle) <==> w.crash.BeforeReceipt? && w.crash.launched <= |cycle.commands|
  {
  }

  lemma LaunchListIs(cfg: Config, w: World)
    requires w.api.Some?
    ensures LaunchList(cfg, w) == Executed(Script(cfg, w.api.value), false, w.machine).commands
  {
  }

  lemma PollIs(cfg: Config, disk: Disk, w: World)
    ensures var p := PollOutcome(cfg, disk, w);
            && p.world == w && p.current == ParseVersion(disk.versionFile)
            && (w.api.None? ==> p == PollRecord(w, p.current, [], None, None, true, false))
            && (w.api.Some? ==>
                  var plan := PlanFor(cfg, p.current, w, w.api.value);
                  p == if plan.gate == NoOp then PollRecord(w, p.current, [], None, None, false, false)
                       else Conclude(w, p.current, w.api.value.version,
                                     ExecuteResult(SyncerFor(cfg, p.current), plan, false, w.machine, w.stamp)))
  {
    hide PlanFor, ExecuteResult, SyncerFor, ParseVersion;
    PollIsCoherent(cfg, disk, w);
  }

  lemma CycleLaunches(s: Syncer, plan: SyncPlan, machine: Machine, stamp: Stamp)
    ensures ExecuteResult(s, plan, false, machine, stamp).commands ==
            if plan.gate == ContentSync.Allowed then Executed(plan.steps, false, machine).commands else []
  {
    hide Executed;
  }

  /** With a signing key in the configuration, in every run a poll that launched a `nixos-rebuild` had launched the two
      downloads and the signature check with that key before it, for the very cache it was offered, and all three exited
      0; the `nixos-rebuild` is the switch to the configured flake and the last command. */
  lemma SwitchIsVerified(cfg: Config, disk: Disk, es: seq<Event>, p: PollRecord, i: nat)
    requires Given(cfg.signingKey)
    requires Polled(p) in Run(cfg, Started(disk), es).history && i < |p.commands| && NeedsRebuild(p.commands[i])
    ensures p.world.api.Some?
    ensures var m := p.world.api.value;
            && 3 <= i == |p.commands| - 1
            && p.commands[..3] == [FetchInfo(m), FetchSignature(m), CheckSignature(cfg.signingKey.value)]
            && p.commands[i] == Switch(cfg.flakeRef)
            && (forall j :: 0 <= j < 3 ==> p.world.machine(j).tool == Exit(0))
            && (p.world.machine(3).nixOnPath ==> p.world.machine(3).tool == Exit(0))
  {
    hide *;
    PollsOfRuns(cfg, disk, es);
    assert Polled(p).poll == p;
    PollLaunches(cfg, p);
    OpenOffers(cfg, p.world, p.current);
    VerifiedLaunches(cfg, p.world, i);
    var list := LaunchList(cfg, p.world);
    assert p.commands[i] == list[i];
    assert p.commands[..3] == list[..3];
  }

  /** Where the switch is in the launch list of a signed script, and what came before it. */
  lemma VerifiedLaunches(cfg: Config, w: World, i: nat)
    requires Given(cfg.signingKey) && w.api.Some? && i < |LaunchList(cfg, w)| && NeedsRebuild(LaunchList(cfg, w)[i])
    ensures var m, list := w.api.value, LaunchList(cfg, w);
            && 3 <= i == |list| - 1
            && list[..3] == [FetchInfo(m), FetchSignature(m), CheckSignature(cfg.signingKey.value)]
            && list[i] == Switch(cfg.flakeRef)
            && (forall j :: 0 <= j < 3 ==> w.machine(j).tool == Exit(0))
            && (w.machine(3).nixOnPath ==> w.machine(3).tool == Exit(0))
  {
    hide *;
    var m, steps, list := w.api.value, Script(cfg, w.api.value), LaunchList(cfg, w);
    LaunchListIs(cfg, w);
    SignedScript(cfg, m);
    Prefixes(m, cfg.flakeRef, cfg.signingKey.value);
    assert list[i] in list;
    var at := EarlierStepsSucceeded(steps, w.machine, list[i]);
    assert at == 4;
    SignedLaunches(steps, m, cfg.flakeRef, cfg.signingKey.value, w.machine);
    LastStepLaunched(steps, w.machine);
    SignedCommands(cfg, m, w.machine);
  }

  lemma SignedScript(cfg: Config, m: Manifest)
    requires Given(cfg.signingKey)
    ensures cfg.signingKey.Some?
    ensures Script(cfg, m) == [FetchInfo(m), FetchSignature(m), CheckSignature(cfg.signingKey.value),
                               CopyClosure(m, cfg.flakeRef), Switch(cfg.flakeRef)]
  {
    hide FetchInfo, FetchSignature, CheckSignature, CopyClosure, Switch;
  }

  /** When the last step was launched, nothing cut the sequence short of it. */
  lemma LastStepLaunched(steps: seq<string>, machine: Machine)
    requires steps != [] && steps[|steps| - 1] in Executed(steps, false, machine).commands
    requires forall j :: 0 <= j < |steps| - 1 ==> steps[j] != steps[|steps| - 1]
    ensures Executed(steps, false, machine).commands == Commands(steps, false, machine, |steps|)
  {
    hide *;
    var c := Cut(steps, false, machine, 0);
    ExecutedCommands(steps, machine);
    var j := LaunchedAt(steps, false, machine, if c < |steps| then c + 1 else c, steps[|steps| - 1]);
  }

  // ---------- each command by its own condition ----------

  /** The signature check, if there is one, was launched to its end and exited 0. */
  predicate Verified(cfg: Config, machine: Machine) {
    Given(cfg.signingKey) ==> machine(0).tool == Exit(0) && machine(1).tool == Exit(0) && machine(2).tool == Exit(0)
  }

  /** How many steps come before the copy. */
  function Checks(cfg: Config): nat {
    if Given(cfg.signingKey) then 3 else 0
  }

  /** Which commands a cycle left alone launches. */
  ghost predicate TellsCommands(cfg: Config, w: World, list: seq<string>)
    requires w.api.Some?
  {
    var m, b := w.api.value, Checks(cfg);
    && (forall c :: c in list ==> c in Script(cfg, m))
    && (Given(cfg.signingKey) ==>
          && FetchInfo(m) in list
          && (FetchSignature(m) in list <==> w.machine(0).tool == Exit(0))
          && (CheckSignature(cfg.signingKey.value) in list <==> w.machine(0).tool == Exit(0) && w.machine(1).tool == Exit(0)))
    && (CopyClosure(m, cfg.flakeRef) in list <==> Verified(cfg, w.machine) && w.machine(b).nixOnPath)
    && (Switch(cfg.flakeRef) in list <==>
          && Verified(cfg, w.machine) && (w.machine(b).nixOnPath ==> w.machine(b).tool == Exit(0))
          && w.machine(b + 1).rebuildOnPath)
  }

  /** The steps of a script need what they need and are told apart by their texts. */
  lemma ScriptSteps(cfg: Config, m: Manifest, machine: Machine)
    ensures var steps, b := Script(cfg, m), Checks(cfg);
            && |steps| == b + 2 && steps[b] == CopyClosure(m, cfg.flakeRef) && steps[b + 1] == Switch(cfg.flakeRef)
            && (forall i, j :: 0 <= i < j < |steps| ==> steps[i] != steps[j])
            && (forall j :: 0 <= j < b ==> Launches(steps[j], false, machine(j)))
            && (Launches(steps[b], false, machine(b)) <==> machine(b).nixOnPath)
            && (Launches(steps[b + 1], false, machine(b + 1)) <==> machine(b + 1).rebuildOnPath)
  {
    hide NeedsNix, NeedsRebuild, FetchInfo, FetchSignature, CheckSignature, CopyClosure, Switch;
    Prefixes(m, cfg.flakeRef, if Given(cfg.signingKey) then cfg.signingKey.value else "");
    TextsDiffer(m, if Given(cfg.signingKey) then cfg.signingKey.value else "");
    if Given(cfg.signingKey) { SignedScript(cfg, m); }
  }

  lemma TextsDiffer(m: Manifest, key: string)
    ensures FetchInfo(m) != FetchSignature(m) && FetchInfo(m) != CheckSignature(key) && FetchSignature(m) != CheckSignature(key)
  {
    assert |FetchInfo(m)| < |FetchSignature(m)|;
    assert FetchInfo(m)[0] == 'c' && FetchSignature(m)[0] == 'c' && CheckSignature(key)[0] == 'm';
  }

  lemma StepLaunched(steps: seq<string>, machine: Machine, j: nat)
    requires j < |steps| && forall i, k :: 0 <= i < k < |steps| ==> steps[i] != steps[k]
    ensures steps[j] in Executed(steps, false, machine).commands <==>
            Reached(steps, machine, j) && Launches(steps[j], false, machine(j))
  {
    hide *;
    LaunchedExactly(steps, machine, steps[j]);
  }

  lemma ReachedStep(steps: seq<string>, machine: Machine, j: nat)
    requires 0 < j <= |steps|
    ensures Reached(steps, machine, 0)
    ensures Reached(steps, machine, j) <==>
            Reached(steps, machine, j - 1) && (Launches(steps[j - 1], false, machine(j - 1)) ==> machine(j - 1).tool == Exit(0))
  {
    hide Launches;
  }

  lemma LaunchListTells(cfg: Config, w: World)
    requires w.api.Some?
    ensures TellsCommands(cfg, w, LaunchList(cfg, w))
  {
    hide Executed, Launches, Reached, Script, LaunchList, FetchInfo, FetchSignature, CheckSignature, CopyClosure, Switch;
    var m, steps, b := w.api.value, Script(cfg, w.api.value), Checks(cfg);
    ScriptSteps(cfg, m, w.machine);
    LaunchListIs(cfg, w);
    forall j | 0 <= j < |steps|
      ensures steps[j] in LaunchList(cfg, w) <==> Reached(steps, w.machine, j) && Launches(steps[j], false, w.machine(j))
    {
      StepLaunched(steps, w.machine, j);
    }
    forall c | c in LaunchList(cfg, w) ensures c in steps {
      LaunchedExactly(steps, w.machine, c);
    }
    ReachedStep(steps, w.machine, b + 1);
    if Given(cfg.signingKey) {
      SignedScript(cfg, m);
      ReachedStep(steps, w.machine, 1);
      ReachedStep(steps, w.machine, 2);
      ReachedStep(steps, w.machine, 3);
    }
  }

  /** In every run, what each poll launches: nothing when the gate is shut; when it is open, each of the commands exactly
      under its own condition, as far as the power lasts. */
  lemma CommandsExactly(cfg: Config, disk: Disk, es: seq<Event>, p: PollRecord)
    requires Polled(p) in Run(cfg, Started(disk), es).history
    ensures !Open(cfg, p.world, p.current) ==> p.commands == []
    ensures Open(cfg, p.world, p.current) ==>
              && TellsCommands(cfg, p.world, LaunchList(cfg, p.world))
              && p.commands <= LaunchList(cfg, p.world)
              && (p.commands != LaunchList(cfg, p.world) ==>
                    p.crashed && p.world.crash.BeforeReceipt? && |p.commands| == p.world.crash.launched)
  {
    hide *;
    PollsOfRuns(cfg, disk, es);
    assert Polled(p).poll == p;
    PollLaunches(cfg, p);
    OpenOffers(cfg, p.world, p.current);
    if Open(cfg, p.world, p.current) { LaunchListTells(cfg, p.world); }
  }

  // ---------- what a receipt says ----------

  /** The names on a receipt are those of the offer, the configuration and the version that was read. */
  predicate Names(cfg: Config, p: PollRecord, r: Receipt)
    requires p.world.api.Some?
  {
    var m := p.world.api.value;
    && r.stamp == p.world.stamp
    && r.org == m.org && r.contentView == m.contentView && r.lifecycleEnv == m.lifecycleEnv && r.nixCacheUrl == m.nixCacheUrl
    && r.fromVersion == p.current && r.toVersion == m.version
    && r.locus == cfg.locus && r.flakeRef == cfg.flakeRef && r.runRef == cfg.runRef
  }

  /** The gate it met, its level and the decision it carries. */
  predicate Judged(cfg: Config, p: PollRecord, r: Receipt) {
    && (r.gate == Denied <==> cfg.locus !in {"local", "trusted_private"})
    && (r.gate == ContentSync.Allowed <==> Open(cfg, p.world, p.current))
    && (r.gate == Blocked <==> cfg.locus in {"local", "trusted_private"} && cfg.requireAttestation && !Authorised(cfg, p.world))
    && (r.outcome == OutcomeDenied <==> r.gate == Denied) && (r.outcome == OutcomeBlocked <==> r.gate == Blocked)
    && (r.level == Proved <==> Open(cfg, p.world, p.current) && cfg.requireAttestation)
    && (r.decision.Some? <==> cfg.locus in {"local", "trusted_private"} && cfg.requireAttestation)
    && (r.decision.Some? ==> (r.decision.value.ok <==> Authorised(cfg, p.world)))
  }

  /** Its steps: none when the gate was shut; otherwise one per step of the script, each with the status it ended in, and
      "applied" exactly when nothing that was launched failed. */
  ghost predicate Accounts(cfg: Config, p: PollRecord, r: Receipt)
    requires p.world.api.Some?
  {
    var script := Script(cfg, p.world.api.value);
    if Open(cfg, p.world, p.current) then
      && |r.steps| == |script|
      && (forall j :: 0 <= j < |script| ==> AccountsFor(script, p.world.machine, j, r.steps[j]))
      && r.outcome in {OutcomeApplied, OutcomeFailed}
      && (r.outcome == OutcomeApplied <==> Reached(script, p.world.machine, |script|))
    else r.steps == []
  }

  ghost predicate AccountsFor(script: seq<string>, machine: Machine, j: nat, x: StepResult)
    requires j < |script|
  {
    x.step == script[j]
    && EndsAs(x.status, Reached(script, machine, j), Launches(script[j], false, machine(j)), machine(j).tool)
  }

  lemma ReceiptOfCycle(s: Syncer, plan: SyncPlan, machine: Machine, stamp: Stamp)
    requires ExecuteResult(s, plan, false, machine, stamp).receipt.Some? && plan.gate != NoOp
    ensures var r, m := ExecuteResult(s, plan, false, machine, stamp).receipt.value, plan.manifest;
            && r.stamp == stamp && r.org == m.org && r.contentView == m.contentView && r.lifecycleEnv == m.lifecycleEnv
            && r.nixCacheUrl == m.nixCacheUrl && r.fromVersion == plan.fromVersion && r.toVersion == m.version
            && r.locus == s.locus && r.flakeRef == plan.flakeRef && r.runRef == s.runRef
            && r.gate == plan.gate && r.level == plan.level && r.decision == plan.decision
            && (r.outcome == OutcomeDenied <==> plan.gate == Denied) && (r.outcome == OutcomeBlocked <==> plan.gate == Blocked)
            && (plan.gate != ContentSync.Allowed ==> r.steps == [])
            && (plan.gate == ContentSync.Allowed ==>
                  && r.outcome in {OutcomeApplied, OutcomeFailed}
                  && (r.outcome == OutcomeApplied <==> Cut(plan.steps, false, machine, 0) == |plan.steps|)
                  && !Raises(plan.steps, false, machine)
                  && r.steps == Executed(plan.steps, false, machine).results)
  {
    hide Cut, Commands, StatusAt;
  }

  lemma StepsAccounted(steps: seq<string>, machine: Machine)
    requires !Raises(steps, false, machine)
    ensures |Executed(steps, false, machine).results| == |steps|
    ensures forall j :: 0 <= j < |steps| ==> AccountsFor(steps, machine, j, Executed(steps, false, machine).results[j])
    ensures Cut(steps, false, machine, 0) == |steps| <==> Reached(steps, machine, |steps|)
  {
    hide Raises, Executed, Cut, Reached, Launches, EndsAs;
    ReachedExactly(steps, machine, |steps|);
    OneResultEach(steps, machine);
    forall j | 0 <= j < |steps| ensures AccountsFor(steps, machine, j, Executed(steps, false, machine).results[j]) {
      StatusesExactly(steps, machine, j);
    }
  }

  lemma {:induction false} OneResultEach(steps: seq<string>, machine: Machine)
    ensures |Executed(steps, false, machine).results| == |steps|
  {
  }

  /** Over every run: what the receipt of a poll says about it. */
  lemma ReceiptsTell(cfg: Config, disk: Disk, es: seq<Event>, p: PollRecord)
    requires Polled(p) in Run(cfg, Started(disk), es).history && p.receipt.Some?
    ensures p.world.api.Some?
    ensures Names(cfg, p, p.receipt.value) && Judged(cfg, p, p.receipt.value) && Accounts(cfg, p, p.receipt.value)
  {
    hide *;
    PollsOfRuns(cfg, disk, es);
    assert Polled(p).poll == p;
    ReceiptTells(cfg, p);
  }

  lemma ReceiptTells(cfg: Config, p: PollRecord)
    requires IsPoll(cfg, p) && p.receipt.Some?
    ensures p.world.api.Some?
    ensures Names(cfg, p, p.receipt.value) && Judged(cfg, p, p.receipt.value) && Accounts(cfg, p, p.receipt.value)
  {
    hide IsPoll, PollOutcome, PlanFor, ExecuteResult, SyncerFor, Conclude, Open, UpToDate, Authorised, Script, Raises, Executed,
         Cut, Reached, AccountsFor, Given;
    var disk: Disk := PollDisk(cfg, p);
    PollIs(cfg, disk, p.world);
    var w := p.world;
    var plan := PlanFor(cfg, p.current, w, w.api.value);
    var cycle := ExecuteResult(SyncerFor(cfg, p.current), plan, false, w.machine, w.stamp);
    PlanOfConfig(cfg, p.current, w);
    ConcludedParts(w, p.current, w.api.value.version, cycle);
    ReceiptOfCycle(SyncerFor(cfg, p.current), plan, w.machine, w.stamp);
    SyncerIs(cfg, p.current);
    ShutExactly(cfg, w, p.current);
    if plan.gate == ContentSync.Allowed { StepsAccounted(plan.steps, w.machine); }
  }

  /** An offer of a new version is open, blocked or denied. */
  lemma ShutExactly(cfg: Config, w: World, current: Option<string>)
    requires w.api.Some? && !UpToDate(cfg, w, current)
    ensures Open(cfg, w, current) <==>
            cfg.locus in {"local", "trusted_private"} && (cfg.requireAttestation ==> Authorised(cfg, w))
  {
  }

  // ---------- how a poll ends ----------

  /** A poll raises exactly when the API failed, a command's exception escaped or a step failed, and the power lasted. */
  ghost predicate Ends(cfg: Config, p: PollRecord) {
    && (p.raised <==> !p.crashed && (if p.receipt.Some? then p.receipt.value.outcome == OutcomeFailed
                                     else p.world.api.None? || Begun(cfg, p)))
    && (p.wrote.Some? <==> !p.crashed && p.receipt.Some? && p.receipt.value.outcome == OutcomeApplied)
    && (p.wrote.Some? ==> p.world.api.Some? && p.wrote == Some(p.world.api.value.version))
    && (p.crashed <==> Begun(cfg, p) && (if p.receipt.Some? then p.world.crash.BeforeVersion?
                                         else p.world.crash == BeforeReceipt(|p.commands|)))
  }

  /** The poll was offered something new. */
  predicate Begun(cfg: Config, p: PollRecord) {
    p.world.api.Some? && !UpToDate(cfg, p.world, p.current)
  }

  lemma PollEnds(cfg: Config, p: PollRecord)
    requires IsPoll(cfg, p)
    ensures Ends(cfg, p)
  {
    hide IsPoll, PollOutcome, PlanFor, ExecuteResult, SyncerFor, Open, UpToDate, Authorised, Script;
    var disk: Disk := PollDisk(cfg, p);
    PollIs(cfg, disk, p.world);
    if p.world.api.Some? { PlanOfConfig(cfg, p.current, p.world); }
  }

  lemma PollsEnd(cfg: Config, disk: Disk, es: seq<Event>, p: PollRecord)
    requires Polled(p) in Run(cfg, Started(disk), es).history
    ensures Ends(cfg, p)
  {
    hide *;
    PollsOfRuns(cfg, disk, es);
    assert Polled(p).poll == p;
    PollEnds(cfg, p);
  }

  // ---------- sleeping and stopping ----------

  /** The process was not told to stop during the poll and kept its power. */
  predicate Sleeps(e: Entry) {
    e.Polled? && e.poll.world.signal != DuringPoll && !e.poll.crashed
  }

  /** The process goes on to another poll. */
  predicate GoesOn(e: Entry) {
    e.Restarted? || (e.poll.world.signal == NoSignal && !e.poll.crashed)
  }

  /** How long to sleep after this history: the poll interval after a poll without an exception, and half a minute doubled
      for each further failure in a row, up to half an hour. */
  function Nap(cfg: Config, h: seq<Entry>): int {
    var k := FailureStreak(h);
    if k == 0 then cfg.pollInterval else Min(1800, 30 * Pow2(k - 1))
  }

  function Naps(cfg: Config, h: seq<Entry>): seq<int> {
    if h == [] then [] else Naps(cfg, h[..|h| - 1]) + if Sleeps(h[|h| - 1]) then [Nap(cfg, h)] else []
  }

  /** In every run the sleeps are those of the history, one after each poll that was not cut off. */
  lemma {:induction false} SleepsExactly(cfg: Config, disk: Disk, es: seq<Event>)
    ensures var s := Run(cfg, Started(disk), es); s.sleeps == Naps(cfg, s.history)
  {
    hide *;
    if es != [] {
      var prefix, e := es[..|es| - 1], es[|es| - 1];
      SleepsExactly(cfg, disk, prefix);
      BackoffIsExponential(cfg, disk, es);
      var before, after := Run(cfg, Started(disk), prefix), Run(cfg, Started(disk), es);
      assert es == prefix + [e];
      RunAppend(cfg, Started(disk), prefix, e);
      SleepStep(cfg, before, e);
      if after.history != before.history {
        NapsStep(cfg, before.history, after.history[|before.history|]);
        NapIs(cfg, after.history, after.backoff);
      }
    } else {
      NothingSlept(cfg, disk);
    }
  }

  lemma NothingSlept(cfg: Config, disk: Disk)
    ensures var s := Run(cfg, Started(disk), []); s.sleeps == Naps(cfg, s.history)
  {
  }

  lemma NapsStep(cfg: Config, h: seq<Entry>, e: Entry)
    ensures Naps(cfg, h + [e]) == Naps(cfg, h) + if Sleeps(e) then [Nap(cfg, h + [e])] else []
  {
    assert (h + [e])[..|h|] == h;
  }

  lemma SleepStep(cfg: Config, s: State, e: Event)
    ensures var t := Step(cfg, s, e);
            || (t.sleeps == s.sleeps && t.history == s.history)
            || (|t.history| == |s.history| + 1 && t.history == s.history + [t.history[|s.history|]]
                && t.sleeps == s.sleeps + if Sleeps(t.history[|s.history|]) then [if t.backoff != 0 then t.backoff else cfg.pollInterval]
                                          else [])
  {
    hide PollOutcome;
    if e.Poll? && s.running { PollIsCoherent(cfg, s.disk, e.world); }
  }

  lemma NapIs(cfg: Config, h: seq<Entry>, backoff: nat)
    requires backoff == if FailureStreak(h) == 0 then 0 else Min(MAX_BACKOFF_S, MIN_BACKOFF_S * Pow2(FailureStreak(h) - 1))
    ensures Nap(cfg, h) == if backoff != 0 then backoff else cfg.pollInterval
  {
    if FailureStreak(h) != 0 { Pow2Positive(FailureStreak(h) - 1); }
  }

  /** In every run the process is alive exactly when it was just started or its last poll ended with neither a signal nor
      a power cut, and no poll was ever made by a process that was not. */
  lemma {:induction false} RunningExactly(cfg: Config, disk: Disk, es: seq<Event>)
    ensures var s := Run(cfg, Started(disk), es);
            && (s.running <==> s.history == [] || GoesOn(s.history[|s.history| - 1]))
            && (forall i :: 0 < i < |s.history| && s.history[i].Polled? ==> GoesOn(s.history[i - 1]))
  {
    if es != [] {
      hide PollOutcome;
      var prefix, e := es[..|es| - 1], es[|es| - 1];
      RunningExactly(cfg, disk, prefix);
      var before := Run(cfg, Started(disk), prefix);
      if e.Poll? && before.running { PollIsCoherent(cfg, before.disk, e.world); }
    }
  }

  // ---------- started from the environment ----------

  function Variable(env: map<string, string>, name: string, default: string): string {
    if name in env then env[name] else default
  }

  /** The configuration that the variables make: five texts with defaults, a key that counts only when it is not empty, and
      attestation required without a place to find one. */
  lemma EnvironmentIsRead(env: map<string, string>, parseInt: string -> Option<int>)
    ensures ConfigFromEnv(env, parseInt).Some? <==> parseInt(Variable(env, "SOURCEOS_POLL_INTERVAL", "300")).Some?
    ensures ConfigFromEnv(env, parseInt).Some? ==>
              var cfg := ConfigFromEnv(env, parseInt).value;
              && cfg.locus == Variable(env, "SOURCEOS_LOCUS", "local")
              && cfg.contentView == Variable(env, "KATELLO_CONTENT_VIEW", "sourceos-builder-aarch64")
              && cfg.lifecycleEnv == Variable(env, "KATELLO_LIFECYCLE_ENV", "stable")
              && cfg.flakeRef == Variable(env, "SOURCEOS_FLAKE_REF", "github:SociOS-Linux/source-os#builder-aarch64")
              && (Given(cfg.signingKey) <==> Variable(env, "SOURCEOS_SIGNING_PUBLIC_KEY", "") != "")
              && (Given(cfg.signingKey) ==> cfg.signingKey == Some(Variable(env, "SOURCEOS_SIGNING_PUBLIC_KEY", "")))
              && Some(cfg.pollInterval) == parseInt(Variable(env, "SOURCEOS_POLL_INTERVAL", "300"))
              && cfg.requireAttestation && !Given(cfg.attestationDir)
  {
  }

  /** What such a daemon writes, in every run: each receipt is a refusal without a single step, "denied" when the variable
      names another locus than the two allowed ones, and otherwise "blocked" for want of an attestation. */
  lemma EnvironmentReceipts(env: map<string, string>, parseInt: string -> Option<int>, disk: Disk, es: seq<Event>, p: PollRecord)
    requires ConfigFromEnv(env, parseInt).Some?
    requires Polled(p) in Run(ConfigFromEnv(env, parseInt).value, Started(disk), es).history && p.receipt.Some?
    ensures var r, locus := p.receipt.value, Variable(env, "SOURCEOS_LOCUS", "local");
            && r.outcome == (if locus in {"local", "trusted_private"} then OutcomeBlocked else OutcomeDenied)
            && r.locus == locus && r.steps == [] && r.level == Speculative
            && r.flakeRef == Variable(env, "SOURCEOS_FLAKE_REF", "github:SociOS-Linux/source-os#builder-aarch64")
  {
    hide ConfigFromEnv, Run, Variable, Script, AccountsFor, Reached;
    var cfg := ConfigFromEnv(env, parseInt).value;
    EnvironmentIsRead(env, parseInt);
    ReceiptsTell(cfg, disk, es, p);
  }

  // ---------- whose signature ----------

  /** With minisign as the verifier, in every run each poll that launched or recorded anything had minisign accept, under
      the configured key, the line that names the organisation, content view and version of its offer. */
  lemma EveryActIsSigned(cfg: Config, disk: Disk, es: seq<Event>, p: PollRecord, minisign: Option<(string, string, string) -> bool>)
    requires cfg.requireAttestation
    requires Polled(p) in Run(cfg, Started(disk), es).history && (p.commands != [] || Acts(p))
    requires p.world.verify == DefaultVerifier(minisign)
    ensures p.world.api.Some? && Given(cfg.attestationKey) && minisign.Some?
    ensures var m := p.world.api.value;
            var file := m.contentView + "-" + m.version + ".json";
            && file in p.world.attestations && "signatureRef" in p.world.attestations[file]
            && var signature := p.world.attestations[file]["signatureRef"];
            && signature != ""
            && minisign.value(cfg.attestationKey.value,
                              "urn:srcos:content-view:" + m.org + ":" + m.contentView + ":" + m.version + "\n",
                              if signature[|signature| - 1] == '\n' then signature else signature + "\n")
  {
    EveryActIsAttested(cfg, disk, es);
    assert Polled(p).poll == p;
    var m := p.world.api.value;
    var r := p.world.attestations[m.contentView + "-" + m.version + ".json"];
    assert Usable(r, "signatureRef") && Usable(r, "artifactId");
  }
}
