/** Planning and executing one content-view sync (content_sync.py). */
module ContentSync {
  import opened Text
  import opened Attestation

  datatype Manifest = Manifest(org: string, contentView: string, version: string, lifecycleEnv: string, nixCacheUrl: string)

  datatype Gate = Denied | NoOp | Blocked | Allowed

  datatype SyncPlan = SyncPlan(manifest: Manifest, fromVersion: Option<string>, flakeRef: string, gate: Gate,
                               steps: seq<string>, level: Level, decision: Option<Decision>)

  datatype Syncer = Syncer(flakeRef: string, locus: string, currentVersion: Option<string>, signingKey: Option<string>,
                           runRef: Option<string>, requireAttestation: bool, attestationKey: Option<string>)

  const ALLOWED_LOCI: set<string> := {"local", "trusted_private"}

  /** Python truthiness of an optional string. */
  predicate Given(s: Option<string>) {
    s.Some? && s.value != ""
  }

  // ---------- the command lines ----------

  function CacheInfoUrl(m: Manifest): string {
    m.nixCacheUrl + "/nix-cache-info"
  }

  function FetchInfo(m: Manifest): string {
    "curl -fsSL '" + (CacheInfoUrl(m) + "' -o /tmp/sourceos-nix-cache-info")
  }

  function FetchSignature(m: Manifest): string {
    "curl -fsSL '" + (CacheInfoUrl(m) + ".minisig' -o /tmp/sourceos-nix-cache-info.minisig")
  }

  function CheckSignature(key: string): string {
    "minisign -V -P '" + (key + "' -m /tmp/sourceos-nix-cache-info -x /tmp/sourceos-nix-cache-info.minisig")
  }

  function CopyClosure(m: Manifest, flakeRef: string): string {
    "nix copy --from '" + (m.nixCacheUrl + "' '" + flakeRef + "'")
  }

  function Switch(flakeRef: string): string {
    "nixos-rebuild switch --flake '" + (flakeRef + "'")
  }

  predicate NeedsNix(step: string) {
    "nix " <= step
  }

  predicate NeedsRebuild(step: string) {
    "nixos-rebuild " <= step
  }

  function VerifySteps(key: Option<string>, m: Manifest): seq<string> {
    if Given(key) then [FetchInfo(m), FetchSignature(m), CheckSignature(key.value)] else []
  }

  function Plan(s: Syncer, verify: Verifier, m: Manifest, att: Option<Record>): (p: SyncPlan)
    ensures p.manifest == m && p.fromVersion == s.currentVersion
  {
    if s.locus !in ALLOWED_LOCI then
      SyncPlan(m, s.currentVersion, s.flakeRef, Denied, [], Speculative, None)
    else if Given(s.currentVersion) && s.currentVersion == Some(m.version) then
      SyncPlan(m, s.currentVersion, s.flakeRef, NoOp, [], Speculative, None)
    else
      var decision := if s.requireAttestation
                      then Some(VerifyRelease(att, m.org, m.contentView, m.version, s.attestationKey, verify))
                      else None;
      if decision.Some? && !decision.value.ok then
        SyncPlan(m, s.currentVersion, s.flakeRef, Blocked, [], decision.value.level, decision)
      else
        SyncPlan(m, s.currentVersion, s.flakeRef, Allowed,
                 VerifySteps(s.signingKey, m) + [CopyClosure(m, s.flakeRef), Switch(s.flakeRef)],
                 if decision.Some? then decision.value.level else Speculative, decision)
  }

  /** The attestation requirement is met: none was made, or this very version was authorised. */
  predicate Cleared(s: Syncer, verify: Verifier, m: Manifest, att: Option<Record>) {
    s.requireAttestation ==> att.Some? && Authorises(att.value, m.org, m.contentView, m.version, s.attestationKey, verify)
  }

  /** Which gate a plan meets: the locus first, then the version, then the attestation. Only an attested plan is Proved. */
  lemma GateExactly(s: Syncer, verify: Verifier, m: Manifest, att: Option<Record>)
    ensures var p := Plan(s, verify, m, att);
            var current := m.version != "" && s.currentVersion == Some(m.version);
            && (p.gate == Denied <==> s.locus !in ALLOWED_LOCI)
            && (p.gate == NoOp <==> s.locus in ALLOWED_LOCI && current)
            && (p.gate == Blocked <==> s.locus in ALLOWED_LOCI && !current && !Cleared(s, verify, m, att))
            && (p.gate == Allowed <==> s.locus in ALLOWED_LOCI && !current && Cleared(s, verify, m, att))
            && (p.level == Proved <==> p.gate == Allowed && s.requireAttestation)
  {
    GateOpensExactlyWhenAuthorised(att, m.org, m.contentView, m.version, s.attestationKey, verify);
  }

  // ---------- execution ----------

  /** How running one command ends; `Raised` is any exception other than the time-out. */
  datatype ToolResult = Exit(code: int) | TimedOut | Raised

  /** What the machine answers at one step. */
  datatype StepEnv = StepEnv(nixOnPath: bool, rebuildOnPath: bool, tool: ToolResult)

  type Machine = nat -> StepEnv

  datatype Status = Ok | Failed | Timeout | Skipped | DryRun | NotRun

  datatype StepResult = StepResult(step: string, status: Status)

  /** Results so far, the commands actually launched, and whether an exception escaped. */
  datatype Execution = Execution(results: seq<StepResult>, commands: seq<string>, raised: bool)

  predicate Launches(step: string, dryRun: bool, e: StepEnv) {
    && !dryRun
    && (NeedsNix(step) ==> e.nixOnPath)
    && (NeedsRebuild(step) ==> e.rebuildOnPath)
  }

  /** The step is launched and does not end well. */
  predicate Stops(step: string, dryRun: bool, e: StepEnv) {
    Launches(step, dryRun, e) && e.tool != Exit(0)
  }

  function OwnStatus(step: string, dryRun: bool, e: StepEnv): Status {
    if dryRun then DryRun
    else if !Launches(step, dryRun, e) then Skipped
    else match e.tool
      case Exit(code) => if code == 0 then Ok else Failed
      case TimedOut => Timeout
      case Raised => NotRun
  }

  /** The position of the first step that stops the sequence, or its length. */
  function Cut(steps: seq<string>, dryRun: bool, machine: Machine, i: nat): (c: nat)
    requires i <= |steps|
    ensures i <= c <= |steps|
    ensures forall j :: i <= j < c ==> !Stops(steps[j], dryRun, machine(j))
    ensures c < |steps| ==> Stops(steps[c], dryRun, machine(c))
    decreases |steps| - i
  {
    if i == |steps| || Stops(steps[i], dryRun, machine(i)) then i else Cut(steps, dryRun, machine, i + 1)
  }

  function StatusAt(steps: seq<string>, dryRun: bool, machine: Machine, j: nat): Status
    requires j < |steps|
  {
    if j <= Cut(steps, dryRun, machine, 0) then OwnStatus(steps[j], dryRun, machine(j)) else NotRun
  }

  /** The launched commands among the first `n` steps. */
  function Commands(steps: seq<string>, dryRun: bool, machine: Machine, n: nat): seq<string>
    requires n <= |steps|
  {
    if n == 0 then []
    else
      Commands(steps, dryRun, machine, n - 1) +
      if Launches(steps[n - 1], dryRun, machine(n - 1)) then [steps[n - 1]] else []
  }

  predicate Raises(steps: seq<string>, dryRun: bool, machine: Machine) {
    var c := Cut(steps, dryRun, machine, 0);
    c < |steps| && machine(c).tool == Raised
  }

  /** The whole execution in closed form: everything is decided by the position of the cut. */
  function Executed(steps: seq<string>, dryRun: bool, machine: Machine): Execution {
    var c := Cut(steps, dryRun, machine, 0);
    Execution(
      seq(|steps|, j requires 0 <= j < |steps| => StepResult(steps[j], StatusAt(steps, dryRun, machine, j))),
      Commands(steps, dryRun, machine, if c < |steps| then c + 1 else c),
      Raises(steps, dryRun, machine))
  }

  lemma {:induction false} ExecutedCommands(steps: seq<string>, machine: Machine)
    ensures var c := Cut(steps, false, machine, 0);
            Executed(steps, false, machine).commands == Commands(steps, false, machine, if c < |steps| then c + 1 else c)
  {
  }

  lemma ResultAt(steps: seq<string>, dryRun: bool, machine: Machine, i: nat)
    requires i < |steps|
    ensures var r := Executed(steps, dryRun, machine).results;
            && |r| == |steps|
            && r[..i + 1] == r[..i] + [StepResult(steps[i], StatusAt(steps, dryRun, machine, i))]
  {
  }

  /** The loop of `execute`. Its results are only returned when no exception escapes. */
  method RunSteps(steps: seq<string>, dryRun: bool, machine: Machine) returns (x: Execution)
    ensures x.raised == Executed(steps, dryRun, machine).raised
    ensures x.commands == Executed(steps, dryRun, machine).commands
    ensures !x.raised ==> x.results == Executed(steps, dryRun, machine).results
  {
    var results: seq<StepResult> := [];
    var commands: seq<string> := [];
    var aborted := false;
    var i := 0;
    ghost var c := Cut(steps, dryRun, machine, 0);
    ghost var goal := Executed(steps, dryRun, machine).results;
    while i < |steps|
      invariant i <= |steps| == |goal|
      invariant aborted <==> c < i
      invariant aborted ==> machine(c).tool != Raised
      invariant results == goal[..i]
      invariant commands == Commands(steps, dryRun, machine, if c < i then c + 1 else i)
    {
      var step, e := steps[i], machine(i);
      ResultAt(steps, dryRun, machine, i);
      if aborted {
        results := results + [StepResult(step, NotRun)];
      } else if dryRun {
        results := results + [StepResult(step, DryRun)];
      } else if (NeedsNix(step) && !e.nixOnPath) || (NeedsRebuild(step) && !e.rebuildOnPath) {
        results := results + [StepResult(step, Skipped)];
      } else {
        commands := commands + [step];
        match e.tool
        case Raised =>
          return Execution(results, commands, true);
        case TimedOut =>
          results := results + [StepResult(step, Timeout)];
          aborted := true;
        case Exit(code) =>
          results := results + [StepResult(step, if code == 0 then Ok else Failed)];
          aborted := code != 0;
      }
      i := i + 1;
    }
    return Execution(results, commands, false);
  }

  /** One result per step in order, with a single cut: before it only ok or skipped, at it a failure,
      after it nothing was run. */
  lemma SingleCut(steps: seq<string>, machine: Machine)
    requires !Raises(steps, false, machine)
    ensures var r, c := Executed(steps, false, machine).results, Cut(steps, false, machine, 0);
            && |r| == |steps|
            && (forall j :: 0 <= j < |r| ==> r[j].step == steps[j])
            && (forall j :: 0 <= j < c ==> r[j].status in {Ok, Skipped})
            && (c < |r| ==> r[c].status in {Failed, Timeout})
            && (forall j :: c < j < |r| ==> r[j].status == NotRun)
  {
    var c := Cut(steps, false, machine, 0);
    forall j | 0 <= j < c ensures OwnStatus(steps[j], false, machine(j)) in {Ok, Skipped} {
      assert !Stops(steps[j], false, machine(j));
    }
  }

  /** Every step before `j` that was launched exited 0. */
  ghost predicate Reached(steps: seq<string>, machine: Machine, j: nat)
    requires j <= |steps|
  {
    forall i :: 0 <= i < j && Launches(steps[i], false, machine(i)) ==> machine(i).tool == Exit(0)
  }

  lemma ReachedExactly(steps: seq<string>, machine: Machine, j: nat)
    requires j <= |steps|
    ensures Reached(steps, machine, j) <==> j <= Cut(steps, false, machine, 0)
  {
    var c := Cut(steps, false, machine, 0);
    if j <= c {
      forall i | 0 <= i < j && Launches(steps[i], false, machine(i)) ensures machine(i).tool == Exit(0) {
        assert !Stops(steps[i], false, machine(i));
      }
    } else {
      assert Stops(steps[c], false, machine(c));
    }
  }

  /** What one step that may be launched or not ends as. */
  ghost predicate EndsAs(status: Status, reached: bool, launched: bool, tool: ToolResult) {
    && (status == Ok <==> reached && launched && tool == Exit(0))
    && (status == Failed <==> reached && launched && tool.Exit? && tool.code != 0)
    && (status == Timeout <==> reached && launched && tool == TimedOut)
    && (status == Skipped <==> reached && !launched)
    && (status == NotRun <==> !reached)
  }

  /** The status of every step, unless an exception escapes: a step counts only when everything launched before it exited
      0; then it is skipped if its tool is missing, and otherwise its status says how it ended. */
  lemma StatusesExactly(steps: seq<string>, machine: Machine, j: nat)
    requires !Raises(steps, false, machine) && j < |steps|
    ensures |Executed(steps, false, machine).results| == |steps|
    ensures var r := Executed(steps, false, machine).results[j];
            r.step == steps[j]
            && EndsAs(r.status, Reached(steps, machine, j), Launches(steps[j], false, machine(j)), machine(j).tool)
  {
    hide Launches;
    ReachedExactly(steps, machine, j);
    var c := Cut(steps, false, machine, 0);
    if j < c { assert !Stops(steps[j], false, machine(j)); }
  }

  /** A command is launched exactly at the steps that are reached and whose tool is there. */
  lemma LaunchedExactly(steps: seq<string>, machine: Machine, cmd: string)
    ensures cmd in Executed(steps, false, machine).commands <==>
            exists j :: 0 <= j < |steps| && steps[j] == cmd && Reached(steps, machine, j) && Launches(cmd, false, machine(j))
  {
    var c := Cut(steps, false, machine, 0);
    var n := if c < |steps| then c + 1 else c;
    if cmd in Executed(steps, false, machine).commands {
      var j := LaunchedAt(steps, false, machine, n, cmd);
      ReachedExactly(steps, machine, j);
    }
    if j :| 0 <= j < |steps| && steps[j] == cmd && Reached(steps, machine, j) && Launches(cmd, false, machine(j)) {
      ReachedExactly(steps, machine, j);
      CommandsContain(steps, false, machine, n, j);
    }
  }

  /** A command in the launch list was launched at a position no later than the cut. */
  lemma {:induction false} LaunchedAt(steps: seq<string>, dryRun: bool, machine: Machine, n: nat, cmd: string) returns (j: nat)
    requires n <= |steps| && cmd in Commands(steps, dryRun, machine, n)
    ensures j < n && steps[j] == cmd && Launches(cmd, dryRun, machine(j))
  {
    if Launches(steps[n - 1], dryRun, machine(n - 1)) && steps[n - 1] == cmd {
      j := n - 1;
    } else {
      j := LaunchedAt(steps, dryRun, machine, n - 1, cmd);
    }
  }

  lemma {:induction false} CommandsContain(steps: seq<string>, dryRun: bool, machine: Machine, n: nat, j: nat)
    requires j < n <= |steps| && Launches(steps[j], dryRun, machine(j))
    ensures steps[j] in Commands(steps, dryRun, machine, n)
  {
    if j < n - 1 { CommandsContain(steps, dryRun, machine, n - 1, j); }
  }

  /** A dry run launches nothing. */
  lemma {:induction false} DryRunIsPure(steps: seq<string>, machine: Machine, n: nat)
    requires n <= |steps|
    ensures Commands(steps, true, machine, n) == [] && Cut(steps, true, machine, 0) == |steps|
  {
    if n > 0 { DryRunIsPure(steps, machine, n - 1); }
  }

  // ---------- what the planned steps look like ----------

  lemma HeadDecides(head: string, tail: string, prefix: string)
    requires |prefix| <= |head|
    ensures prefix <= head + tail <==> prefix <= head
  {
    assert forall i :: 0 <= i < |head| ==> (head + tail)[i] == head[i];
    assert (head + tail)[..|prefix|] == head[..|prefix|];
  }

  lemma CommandPrefix(head: string, tail: string)
    requires |head| >= 14
    ensures NeedsNix(head + tail) <==> NeedsNix(head)
    ensures NeedsRebuild(head + tail) <==> NeedsRebuild(head)
  {
    HeadDecides(head, tail, "nix ");
    HeadDecides(head, tail, "nixos-rebuild ");
  }

  lemma FetchesNeedNothing(m: Manifest)
    ensures !NeedsNix(FetchInfo(m)) && !NeedsRebuild(FetchInfo(m))
    ensures !NeedsNix(FetchSignature(m)) && !NeedsRebuild(FetchSignature(m))
  {
    assert FetchInfo(m)[0] == 'c';
    assert FetchSignature(m)[0] == 'c';
  }

  lemma CheckNeedsNothing(key: string)
    ensures !NeedsNix(CheckSignature(key)) && !NeedsRebuild(CheckSignature(key))
  {
    assert CheckSignature(key)[0] == 'm';
  }

  lemma CopyNeedsNix(m: Manifest, flakeRef: string)
    ensures NeedsNix(CopyClosure(m, flakeRef)) && !NeedsRebuild(CopyClosure(m, flakeRef))
  {
    var head := "nix copy --from '";
    CommandPrefix(head, m.nixCacheUrl + "' '" + flakeRef + "'");
    assert head[3] == ' ';
  }

  lemma SwitchNeedsRebuild(flakeRef: string)
    ensures !NeedsNix(Switch(flakeRef)) && NeedsRebuild(Switch(flakeRef))
  {
    var head := "nixos-rebuild switch --flake '";
    CommandPrefix(head, flakeRef + "'");
    assert head[3] == 'o';
  }

  lemma Prefixes(m: Manifest, flakeRef: string, key: string)
    ensures !NeedsNix(FetchInfo(m)) && !NeedsRebuild(FetchInfo(m))
    ensures !NeedsNix(FetchSignature(m)) && !NeedsRebuild(FetchSignature(m))
    ensures !NeedsNix(CheckSignature(key)) && !NeedsRebuild(CheckSignature(key))
    ensures NeedsNix(CopyClosure(m, flakeRef)) && !NeedsRebuild(CopyClosure(m, flakeRef))
    ensures !NeedsNix(Switch(flakeRef)) && NeedsRebuild(Switch(flakeRef))
  {
    FetchesNeedNothing(m);
    CheckNeedsNothing(key);
    CopyNeedsNix(m, flakeRef);
    SwitchNeedsRebuild(flakeRef);
  }

  lemma LastStepSwitches(m: Manifest, flakeRef: string, key: Option<string>)
    ensures var steps := VerifySteps(key, m) + [CopyClosure(m, flakeRef), Switch(flakeRef)];
            && (forall j :: 0 <= j < |steps| ==> (NeedsRebuild(steps[j]) <==> j == |steps| - 1))
            && steps[|steps| - 1] == Switch(flakeRef)
  {
    Prefixes(m, flakeRef, if Given(key) then key.value else "");
    assert |VerifySteps(key, m)| == if Given(key) then 3 else 0;
  }

  lemma PlanCases(s: Syncer, verify: Verifier, m: Manifest, att: Option<Record>)
    ensures var p := Plan(s, verify, m, att);
            p.steps == if p.gate == Allowed then VerifySteps(s.signingKey, m) + [CopyClosure(m, s.flakeRef), Switch(s.flakeRef)]
                       else []
  {
  }

  /** Only an allowed plan has steps, and its only `nixos-rebuild` step is the last one. */
  lemma OnlyLastStepSwitches(s: Syncer, verify: Verifier, m: Manifest, att: Option<Record>)
    ensures var p := Plan(s, verify, m, att);
            && (p.steps != [] <==> p.gate == Allowed)
            && (forall j :: 0 <= j < |p.steps| ==> (NeedsRebuild(p.steps[j]) <==> j == |p.steps| - 1))
            && (p.gate == Allowed ==> p.steps[|p.steps| - 1] == Switch(s.flakeRef))
  {
    hide *;
    PlanCases(s, verify, m, att);
    LastStepSwitches(m, s.flakeRef, s.signingKey);
    SwitchesLast(Plan(s, verify, m, att), VerifySteps(s.signingKey, m) + [CopyClosure(m, s.flakeRef), Switch(s.flakeRef)],
                 s.flakeRef);
  }

  lemma SwitchesLast(p: SyncPlan, steps: seq<string>, flakeRef: string)
    requires steps != [] && p.steps == if p.gate == Allowed then steps else []
    requires forall j :: 0 <= j < |steps| ==> (NeedsRebuild(steps[j]) <==> j == |steps| - 1)
    requires steps[|steps| - 1] == Switch(flakeRef)
    ensures p.steps != [] <==> p.gate == Allowed
    ensures forall j :: 0 <= j < |p.steps| ==> (NeedsRebuild(p.steps[j]) <==> j == |p.steps| - 1)
    ensures p.gate == Allowed ==> p.steps[|p.steps| - 1] == Switch(flakeRef)
  {
  }

  /** When a command was launched, every earlier step that was launched exited 0. */
  lemma EarlierStepsSucceeded(steps: seq<string>, machine: Machine, cmd: string) returns (at: nat)
    requires cmd in Executed(steps, false, machine).commands
    ensures at < |steps| && steps[at] == cmd
    ensures forall j :: 0 <= j < at && Launches(steps[j], false, machine(j)) ==>
              machine(j).tool == Exit(0) && steps[j] in Executed(steps, false, machine).commands
  {
    var c := Cut(steps, false, machine, 0);
    var n := if c < |steps| then c + 1 else c;
    at := LaunchedAt(steps, false, machine, n, cmd);
    forall j | 0 <= j < at && Launches(steps[j], false, machine(j))
      ensures machine(j).tool == Exit(0) && steps[j] in Executed(steps, false, machine).commands
    {
      assert !Stops(steps[j], false, machine(j));
      CommandsContain(steps, false, machine, n, j);
    }
  }

  lemma SignedSteps(s: Syncer, verify: Verifier, m: Manifest, att: Option<Record>)
    requires Given(s.signingKey) && Plan(s, verify, m, att).gate == Allowed
    ensures Plan(s, verify, m, att).steps ==
            [FetchInfo(m), FetchSignature(m), CheckSignature(s.signingKey.value),
             CopyClosure(m, s.flakeRef), Switch(s.flakeRef)]
  {
  }

  /** With a signing key, the switch is launched only after both downloads and the signature check of the
      same cycle were launched and exited 0, and the closure copy did too unless nix is missing. */
  lemma SwitchNeedsSignature(s: Syncer, verify: Verifier, m: Manifest, att: Option<Record>, machine: Machine, cmd: string)
    requires Given(s.signingKey)
    requires cmd in Executed(Plan(s, verify, m, att).steps, false, machine).commands && NeedsRebuild(cmd)
    ensures var steps := Plan(s, verify, m, att).steps;
            && |steps| == 5
            && steps[..3] == [FetchInfo(m), FetchSignature(m), CheckSignature(s.signingKey.value)]
            && (forall j :: 0 <= j < 3 ==>
                  machine(j).tool == Exit(0) && steps[j] in Executed(steps, false, machine).commands)
            && (machine(3).nixOnPath ==> machine(3).tool == Exit(0))
  {
    var p := Plan(s, verify, m, att);
    var at := EarlierStepsSucceeded(p.steps, machine, cmd);
    OnlyLastStepSwitches(s, verify, m, att);
    SignedSteps(s, verify, m, att);
    Prefixes(m, s.flakeRef, s.signingKey.value);
    assert at == 4;
    SignedLaunches(p.steps, m, s.flakeRef, s.signingKey.value, machine);
  }

  lemma SignedLaunches(steps: seq<string>, m: Manifest, flakeRef: string, key: string, machine: Machine)
    requires steps == [FetchInfo(m), FetchSignature(m), CheckSignature(key), CopyClosure(m, flakeRef), Switch(flakeRef)]
    ensures forall j :: 0 <= j < 3 ==> Launches(steps[j], false, machine(j))
    ensures machine(3).nixOnPath ==> Launches(steps[3], false, machine(3))
  {
    Prefixes(m, flakeRef, key);
  }

  // ---------- outcomes and receipts ----------

  datatype Outcome = OutcomeDenied | OutcomeBlocked | OutcomeSkipped | OutcomeDryRun | OutcomeApplied | OutcomeFailed

  /** What the environment supplies for one receipt: a fresh id and the time of issue. */
  datatype Stamp = Stamp(id: string, issuedAt: string)

  datatype Receipt = Receipt(stamp: Stamp, org: string, contentView: string, fromVersion: Option<string>, toVersion: string,
                             lifecycleEnv: string, locus: string, outcome: Outcome, gate: Gate, level: Level,
                             decision: Option<Decision>, steps: seq<StepResult>, nixCacheUrl: string, flakeRef: string,
                             runRef: Option<string>)

  function BuildReceipt(s: Syncer, plan: SyncPlan, outcome: Outcome, steps: seq<StepResult>, stamp: Stamp): Receipt {
    var m := plan.manifest;
    Receipt(stamp, m.org, m.contentView, plan.fromVersion, m.version, m.lifecycleEnv, s.locus, outcome, plan.gate,
            plan.level, plan.decision, steps, m.nixCacheUrl, plan.flakeRef, s.runRef)
  }

  predicate Clean(results: seq<StepResult>) {
    forall r :: r in results ==> r.status in {Ok, DryRun, Skipped}
  }

  /** What `execute` gives back: the launched commands and, unless an exception escaped, a receipt. */
  datatype Cycle = Cycle(commands: seq<string>, receipt: Option<Receipt>)

  function RefusalOutcome(gate: Gate): Outcome {
    match gate
    case Denied => OutcomeDenied
    case Blocked => OutcomeBlocked
    case _ => OutcomeSkipped
  }

  function ExecuteResult(s: Syncer, plan: SyncPlan, dryRun: bool, machine: Machine, stamp: Stamp): (cycle: Cycle)
    ensures cycle.receipt.Some? ==>
              var r := cycle.receipt.value;
              r.stamp == stamp && r.fromVersion == plan.fromVersion && r.toVersion == plan.manifest.version
  {
    if plan.gate != Allowed then
      Cycle([], Some(BuildReceipt(s, plan, RefusalOutcome(plan.gate), [], stamp)))
    else
      var x := Executed(plan.steps, dryRun, machine);
      if x.raised then Cycle(x.commands, None)
      else
        var outcome := if dryRun then OutcomeDryRun
                       else if Cut(plan.steps, dryRun, machine, 0) == |plan.steps| then OutcomeApplied
                       else OutcomeFailed;
        Cycle(x.commands, Some(BuildReceipt(s, plan, outcome, x.results, stamp)))
  }

  method Execute(s: Syncer, plan: SyncPlan, dryRun: bool, machine: Machine, stamp: Stamp) returns (cycle: Cycle)
    ensures cycle == ExecuteResult(s, plan, dryRun, machine, stamp)
  {
    if plan.gate != Allowed {
      return Cycle([], Some(BuildReceipt(s, plan, RefusalOutcome(plan.gate), [], stamp)));
    }
    var x := RunSteps(plan.steps, dryRun, machine);
    if x.raised {
      return Cycle(x.commands, None);
    }
    CleanMeansUncut(plan.steps, dryRun, machine);
    var aborted := exists r :: r in x.results && r.status in {Failed, Timeout};
    var outcome := if dryRun then OutcomeDryRun
                   else if !aborted && Clean(x.results) then OutcomeApplied else OutcomeFailed;
    return Cycle(x.commands, Some(BuildReceipt(s, plan, outcome, x.results, stamp)));
  }

  /** Every status is clean exactly when no step stopped the sequence. */
  lemma CleanMeansUncut(steps: seq<string>, dryRun: bool, machine: Machine)
    requires !Raises(steps, dryRun, machine)
    ensures var r := Executed(steps, dryRun, machine).results;
            Clean(r) <==> Cut(steps, dryRun, machine, 0) == |steps|
  {
    var r, c := Executed(steps, dryRun, machine).results, Cut(steps, dryRun, machine, 0);
    if c < |steps| {
      assert r[c].status in {Failed, Timeout} && r[c] in r;
    } else {
      forall x | x in r ensures x.status in {Ok, DryRun, Skipped} {
        var j :| 0 <= j < |r| && r[j] == x;
        assert !Stops(steps[j], dryRun, machine(j));
      }
    }
  }

  // ---------- which cycles leave a receipt ----------

  /** Step `j` is launched after every earlier launched step exited 0, and ends in an exception other than the time-out. */
  ghost predicate RaisesAt(steps: seq<string>, machine: Machine, j: nat) {
    && j < |steps| && Launches(steps[j], false, machine(j)) && machine(j).tool == Raised
    && forall i :: 0 <= i < j && Launches(steps[i], false, machine(i)) ==> machine(i).tool == Exit(0)
  }

  lemma CutAt(steps: seq<string>, machine: Machine, j: nat)
    requires j < |steps| && Stops(steps[j], false, machine(j))
    requires forall i :: 0 <= i < j && Launches(steps[i], false, machine(i)) ==> machine(i).tool == Exit(0)
    ensures Cut(steps, false, machine, 0) == j
  {
    assert forall i :: 0 <= i < j ==> !Stops(steps[i], false, machine(i));
  }

  lemma RaisesExactly(steps: seq<string>, machine: Machine)
    ensures Raises(steps, false, machine) <==> exists j :: RaisesAt(steps, machine, j)
  {
    var c := Cut(steps, false, machine, 0);
    if Raises(steps, false, machine) {
      forall i | 0 <= i < c && Launches(steps[i], false, machine(i)) ensures machine(i).tool == Exit(0) {
        assert !Stops(steps[i], false, machine(i));
      }
      assert RaisesAt(steps, machine, c);
    }
    if j: nat :| RaisesAt(steps, machine, j) {
      CutAt(steps, machine, j);
    }
  }

  /** A receipt is promised for every cycle. It is missing exactly when the gate was open and a step that was reached
      ended in an exception other than the time-out; by then that step, at least, had been launched. A dry run always
      has its receipt. */
  lemma ReceiptMissingExactly(s: Syncer, plan: SyncPlan, dryRun: bool, machine: Machine, stamp: Stamp)
    ensures var c := ExecuteResult(s, plan, dryRun, machine, stamp);
            && (c.receipt.None? <==> plan.gate == Allowed && !dryRun && exists j :: RaisesAt(plan.steps, machine, j))
            && (c.receipt.None? ==> c.commands != [])
  {
    if dryRun {
      DryRunIsPure(plan.steps, machine, 0);
    } else {
      RaisesExactly(plan.steps, machine);
      if j: nat :| RaisesAt(plan.steps, machine, j) {
        CutAt(plan.steps, machine, j);
        CommandsContain(plan.steps, false, machine, j + 1, j);
      }
    }
  }

  /** The other two ends of an open gate: "applied" exactly when every launched step exited 0, "failed" exactly when the
      first one that did not exit 0 failed or timed out. */
  lemma OutcomeExactly(s: Syncer, plan: SyncPlan, machine: Machine, stamp: Stamp)
    requires plan.gate == Allowed
    ensures var r := ExecuteResult(s, plan, false, machine, stamp).receipt;
            && (r.Some? && r.value.outcome == OutcomeApplied <==>
                forall j :: 0 <= j < |plan.steps| && Launches(plan.steps[j], false, machine(j)) ==> machine(j).tool == Exit(0))
            && (r.Some? && r.value.outcome == OutcomeFailed <==>
                exists j :: FailsAt(plan.steps, machine, j))
  {
    var steps, c := plan.steps, Cut(plan.steps, false, machine, 0);
    forall i | 0 <= i < c && Launches(steps[i], false, machine(i)) ensures machine(i).tool == Exit(0) {
      assert !Stops(steps[i], false, machine(i));
    }
    if c < |steps| && machine(c).tool != Raised {
      assert FailsAt(steps, machine, c);
    }
    if j: nat :| FailsAt(steps, machine, j) {
      CutAt(steps, machine, j);
    }
  }

  /** Step `j` is launched after every earlier launched step exited 0, and fails or times out. */
  ghost predicate FailsAt(steps: seq<string>, machine: Machine, j: nat) {
    && j < |steps| && Stops(steps[j], false, machine(j)) && machine(j).tool != Raised
    && forall i :: 0 <= i < j && Launches(steps[i], false, machine(i)) ==> machine(i).tool == Exit(0)
  }

  /** "Applied" means only that nothing failed: the switch was launched exactly when nixos-rebuild was on the
      PATH at that step, so a cycle without it is applied all the same. */
  lemma AppliedMaySkipTheSwitch(s: Syncer, verify: Verifier, m: Manifest, att: Option<Record>, machine: Machine, stamp: Stamp)
    requires var c := ExecuteResult(s, Plan(s, verify, m, att), false, machine, stamp);
             c.receipt.Some? && c.receipt.value.outcome == OutcomeApplied
    ensures var p := Plan(s, verify, m, att);
            && p.gate == Allowed
            && (Switch(s.flakeRef) in ExecuteResult(s, p, false, machine, stamp).commands
                <==> machine(|p.steps| - 1).rebuildOnPath)
  {
    hide Plan, Switch, CopyClosure, VerifySteps, NeedsNix, NeedsRebuild;
    var p := Plan(s, verify, m, att);
    OnlyLastStepSwitches(s, verify, m, att);
    var last := |p.steps| - 1;
    Prefixes(m, s.flakeRef, "");
    if Switch(s.flakeRef) in Commands(p.steps, false, machine, |p.steps|) {
      var j := LaunchedAt(p.steps, false, machine, |p.steps|, Switch(s.flakeRef));
    }
    if machine(last).rebuildOnPath {
      CommandsContain(p.steps, false, machine, |p.steps|, last);
    }
  }
}
