/** The poll loop (daemon.py) as a state machine over an environment, and the class that runs it. */
module Daemon {
  import opened Text
  import opened Attestation
  import opened ContentSync
  import opened ReceiptStores

  const MIN_BACKOFF_S := 30
  const MAX_BACKOFF_S := 1800

  datatype Config = Config(contentView: string, lifecycleEnv: string, locus: string, flakeRef: string,
                           signingKey: Option<string>, runRef: Option<string>, requireAttestation: bool,
                           attestationKey: Option<string>, attestationDir: Option<string>, pollInterval: int)

  const DEFAULT_POLL_INTERVAL_S := "300"

  function EnvOr(env: map<string, string>, key: string, default: string): string {
    if key in env then env[key] else default
  }

  /** `daemon_from_env`, as far as the loop reads it: the parameters it does not pass keep their defaults, so attestation
      is required. `None` is the exception on an interval that is no number. */
  function ConfigFromEnv(env: map<string, string>, parseInt: string -> Option<int>): Option<Config> {
    var interval := parseInt(EnvOr(env, "SOURCEOS_POLL_INTERVAL", DEFAULT_POLL_INTERVAL_S));
    var key := EnvOr(env, "SOURCEOS_SIGNING_PUBLIC_KEY", "");
    if interval.None? then None
    else
      Some(Config(EnvOr(env, "KATELLO_CONTENT_VIEW", "sourceos-builder-aarch64"), EnvOr(env, "KATELLO_LIFECYCLE_ENV", "stable"),
                  EnvOr(env, "SOURCEOS_LOCUS", "local"),
                  EnvOr(env, "SOURCEOS_FLAKE_REF", "github:SociOS-Linux/source-os#builder-aarch64"),
                  if key == "" then None else Some(key), None, true, None, None, interval.value))
  }

  datatype Signal = NoSignal | DuringPoll | DuringSleep

  /** A power cut before the receipt is written, once that many commands have been launched, or between writing the receipt
      and writing the version file. */
  datatype Crash = NoCrash | BeforeReceipt(launched: nat) | BeforeVersion

  /** Everything the outside world answers during one poll. */
  datatype World = World(api: Option<Manifest>, attestations: map<string, Record>, verify: Verifier, machine: Machine,
                         stamp: Stamp, signal: Signal, crash: Crash)

  // ---------- one poll ----------

  function AttestationFile(m: Manifest): string {
    m.contentView + "-" + m.version + ".json"
  }

  function LoadAttestation(cfg: Config, w: World, m: Manifest): Option<Record> {
    if !Given(cfg.attestationDir) then None
    else if AttestationFile(m) in w.attestations then Some(w.attestations[AttestationFile(m)])
    else None
  }

  function SyncerFor(cfg: Config, current: Option<string>): Syncer {
    Syncer(cfg.flakeRef, cfg.locus, current, cfg.signingKey, cfg.runRef, cfg.requireAttestation, cfg.attestationKey)
  }

  function PlanFor(cfg: Config, current: Option<string>, w: World, m: Manifest): SyncPlan {
    Plan(SyncerFor(cfg, current), w.verify, m, LoadAttestation(cfg, w, m))
  }

  /** What one poll did: the version it read, the commands it launched, what it wrote and how it ended. */
  datatype PollRecord = PollRecord(world: World, current: Option<string>, commands: seq<string>, receipt: Option<Receipt>,
                                   wrote: Option<string>, raised: bool, crashed: bool)

  /** The power is cut before the cycle ends: a cycle that launches fewer commands is over by then. */
  predicate CutShort(w: World, cycle: Cycle) {
    w.crash.BeforeReceipt? && w.crash.launched <= |cycle.commands|
  }

  /** The end of a poll that went past planning. */
  function Conclude(w: World, current: Option<string>, version: string, cycle: Cycle): PollRecord {
    if CutShort(w, cycle) then PollRecord(w, current, cycle.commands[..w.crash.launched], None, None, false, true)
    else if cycle.receipt.None? then PollRecord(w, current, cycle.commands, None, None, true, false)
    else if w.crash.BeforeVersion? then PollRecord(w, current, cycle.commands, cycle.receipt, None, false, true)
    else
      var outcome := cycle.receipt.value.outcome;
      PollRecord(w, current, cycle.commands, cycle.receipt,
                 if outcome == OutcomeApplied then Some(version) else None, outcome == OutcomeFailed, false)
  }

  function PollOutcome(cfg: Config, disk: Disk, w: World): PollRecord {
    var current := ParseVersion(disk.versionFile);
    if w.api.None? then PollRecord(w, current, [], None, None, true, false)
    else
      var plan := PlanFor(cfg, current, w, w.api.value);
      if plan.gate == NoOp then PollRecord(w, current, [], None, None, false, false)
      else
        Conclude(w, current, w.api.value.version,
                 ExecuteResult(SyncerFor(cfg, current), plan, false, w.machine, w.stamp))
  }

  function AfterPoll(disk: Disk, r: PollRecord): Disk {
    Disk(if r.wrote.Some? then Some(VersionText(r.wrote.value)) else disk.versionFile,
         if r.receipt.Some? then disk.receipts[FileName(r.receipt.value.stamp) := r.receipt.value] else disk.receipts)
  }

  // ---------- runs ----------

  datatype Entry = Restarted | Polled(poll: PollRecord)

  /** The disk, the process, and the history so far. A crash or a signal ends the process. */
  datatype State = State(disk: Disk, running: bool, backoff: nat, sleeps: seq<int>, history: seq<Entry>)

  /** The supervisor starts a fresh process, or the loop comes round once more. */
  datatype Event = Restart | Poll(world: World)

  function NextBackoff(backoff: nat): nat {
    var doubled := if backoff != 0 then backoff * 2 else MIN_BACKOFF_S;
    if MAX_BACKOFF_S < doubled then MAX_BACKOFF_S else doubled
  }

  function Step(cfg: Config, s: State, e: Event): State {
    match e
    case Restart => s.(running := true, backoff := 0, history := s.history + [Restarted])
    case Poll(w) =>
      if !s.running then s
      else
        var r := PollOutcome(cfg, s.disk, w);
        var backoff := if r.raised then NextBackoff(s.backoff) else 0;
        var awake := w.signal != DuringPoll && !r.crashed;
        State(AfterPoll(s.disk, r), awake && w.signal != DuringSleep, backoff,
              if awake then s.sleeps + [if backoff != 0 then backoff else cfg.pollInterval] else s.sleeps,
              s.history + [Polled(r)])
  }

  function Run(cfg: Config, s: State, es: seq<Event>): State {
    if es == [] then s else Step(cfg, Run(cfg, s, es[..|es| - 1]), es[|es| - 1])
  }

  function Started(disk: Disk): State {
    State(disk, true, 0, [], [])
  }

  lemma {:induction false} RunAppend(cfg: Config, s: State, es: seq<Event>, e: Event)
    ensures Run(cfg, s, es + [e]) == Step(cfg, Run(cfg, s, es), e)
  {
    assert (es + [e])[..|es|] == es;
  }

  lemma {:induction false} RunConcat(cfg: Config, s: State, a: seq<Event>, b: seq<Event>)
    ensures Run(cfg, s, a + b) == Run(cfg, Run(cfg, s, a), b)
  {
    if b == [] {
      assert a + b == a;
    } else {
      assert (a + b)[..|a + b| - 1] == a + b[..|b| - 1];
      RunConcat(cfg, s, a, b[..|b| - 1]);
    }
  }

  // ---------- the class ----------

  class SyncDaemon {
    const cfg: Config
    const store: ReceiptStore
    var running: bool
    var backoff: nat
    ghost var sleeps: seq<int>
    ghost var history: seq<Entry>

    constructor (cfg: Config, store: ReceiptStore)
      ensures this.cfg == cfg && this.store == store
      ensures Contents() == Started(store.Contents())
    {
      this.cfg, this.store := cfg, store;
      running, backoff, sleeps, history := true, 0, [], [];
    }

    ghost function Contents(): State
      reads this, store
    {
      State(store.Contents(), running, backoff, sleeps, history)
    }

    /** One poll: `raised` is the exception that reaches the loop, `crashed` the power cut. */
    method PollOnce(w: World) returns (raised: bool, crashed: bool)
      modifies store
      ensures var r := PollOutcome(cfg, old(store.Contents()), w);
              raised == r.raised && crashed == r.crashed && store.Contents() == AfterPoll(old(store.Contents()), r)
    {
      var current := store.ReadCurrentVersion();
      if w.api.None? {
        return true, false;
      }
      var m := w.api.value;
      var syncer := SyncerFor(cfg, current);
      var plan := Plan(syncer, w.verify, m, LoadAttestation(cfg, w, m));
      if plan.gate == NoOp {
        return false, false;
      }
      var cycle := Execute(syncer, plan, false, w.machine, w.stamp);
      if CutShort(w, cycle) {
        return false, true;
      }
      if cycle.receipt.None? {
        return true, false;
      }
      var receipt := cycle.receipt.value;
      var _ := store.WriteReceipt(receipt);
      if w.crash.BeforeVersion? {
        return false, true;
      }
      if receipt.outcome == OutcomeApplied {
        store.WriteCurrentVersion(m.version);
      } else if receipt.outcome == OutcomeFailed {
        return true, false;
      }
      return false, false;
    }

    /** One turn of the loop: the poll, the backoff it leaves behind, and the sleep unless the process ends first. */
    method Turn(w: World) returns (naps: seq<int>)
      requires running
      modifies this, store
      ensures Contents() == Step(cfg, old(Contents()), Poll(w))
      ensures sleeps == old(sleeps) + naps && |naps| <= 1
    {
      var raised, crashed := PollOnce(w);
      if raised {
        var doubled := if backoff != 0 then backoff * 2 else MIN_BACKOFF_S;
        backoff := if MAX_BACKOFF_S < doubled then MAX_BACKOFF_S else doubled;
      } else {
        backoff := 0;
      }
      naps := [];
      if w.signal == DuringPoll || crashed {
        running := false;
      } else {
        naps := [if backoff != 0 then backoff else cfg.pollInterval];
        running := w.signal != DuringSleep;
      }
      sleeps := sleeps + naps;
      history := history + [Polled(PollOutcome(cfg, old(store.Contents()), w))];
    }

    /** The loop of `run`, observed for as many polls as `worlds` describes. `naps` are its sleeps. */
    method RunLoop(worlds: seq<World>) returns (naps: seq<int>)
      modifies this, store
      ensures Contents() == Run(cfg, old(Contents()), Polls(worlds))
      ensures sleeps == old(sleeps) + naps
    {
      naps := [];
      var i := 0;
      ghost var s0 := Contents();
      while running && i < |worlds|
        invariant i <= |worlds|
        invariant Contents() == Run(cfg, s0, Polls(worlds[..i]))
        invariant sleeps == s0.sleeps + naps
      {
        var nap := Turn(worlds[i]);
        PollsStep(cfg, s0, worlds, i);
        naps := naps + nap;
        i := i + 1;
      }
      StoppedTail(cfg, s0, worlds, i);
    }
  }

  /** The loop may stop early: the polls it never makes change nothing. */
  lemma StoppedTail(cfg: Config, s: State, worlds: seq<World>, i: nat)
    requires i <= |worlds|
    requires i < |worlds| ==> !Run(cfg, s, Polls(worlds[..i])).running
    ensures Run(cfg, s, Polls(worlds)) == Run(cfg, s, Polls(worlds[..i]))
  {
    StoppedStays(cfg, Run(cfg, s, Polls(worlds[..i])), Polls(worlds[i..]));
    RunConcat(cfg, s, Polls(worlds[..i]), Polls(worlds[i..]));
    assert Polls(worlds) == Polls(worlds[..i]) + Polls(worlds[i..]);
  }

  lemma PollsStep(cfg: Config, s: State, worlds: seq<World>, i: nat)
    requires i < |worlds|
    ensures Run(cfg, s, Polls(worlds[..i + 1])) == Step(cfg, Run(cfg, s, Polls(worlds[..i])), Poll(worlds[i]))
  {
    assert Polls(worlds[..i + 1]) == Polls(worlds[..i]) + [Poll(worlds[i])];
    RunAppend(cfg, s, Polls(worlds[..i]), Poll(worlds[i]));
  }

  function Polls(worlds: seq<World>): (es: seq<Event>)
    ensures |es| == |worlds| && forall i :: 0 <= i < |es| ==> es[i] == Poll(worlds[i])
  {
    seq(|worlds|, i requires 0 <= i < |worlds| => Poll(worlds[i]))
  }

  /** A stopped process does nothing until it is restarted. */
  lemma {:induction false} StoppedStays(cfg: Config, s: State, es: seq<Event>)
    requires es == [] || !s.running
    requires forall e :: e in es ==> e.Poll?
    ensures Run(cfg, s, es) == s
  {
    if es != [] {
      assert es[|es| - 1] in es;
      StoppedStays(cfg, s, es[..|es| - 1]);
    }
  }
}
