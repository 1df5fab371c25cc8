/** Duplicate suppression (noise_budget.py). */
module NoiseBudget {
  import opened Text
  import opened Sums

  datatype Event = Event(kind: Option<string>, source: Option<string>, subjectRef: Option<string>,
                         subjectRefSnake: Option<string>, body: string)

  /** The fields that are hashed; distinct triples are taken to have distinct digests. */
  datatype Key = Key(kind: string, source: string, subject: string)

  datatype Config = Config(maxDuplicates: int, windowSeconds: int, criticalKinds: set<string>, exemptSources: set<string>)

  /** One call of `ingest` with the two clock readings it may take. */
  datatype Arrival = Arrival(event: Event, clock: string, clock': string)

  function EventKey(e: Event): Key {
    Key(OrElse(e.kind, ""), OrElse(e.source, ""), OrElse(e.subjectRef, OrElse(e.subjectRefSnake, "")))
  }

  predicate Critical(cfg: Config, k: Key) {
    k.kind in cfg.criticalKinds || k.source in cfg.exemptSources
  }

  /** The value of a coalesced record. */
  datatype Rec = Rec(event: Event, count: nat, firstSeen: string, lastSeen: string, suppressed: nat, key: Key)

  datatype EngineState = EngineState(seen: map<Key, Rec>, received: nat, suppressed: nat, critical: nat)

  const Empty := EngineState(map[], 0, 0, 0)

  // ---------- one ingest ----------

  function Fresh(a: Arrival): Rec {
    Rec(a.event, 1, a.clock, a.clock', 0, EventKey(a.event))
  }

  predicate Surfaces(cfg: Config, seen: map<Key, Rec>, a: Arrival) {
    var k := EventKey(a.event);
    Critical(cfg, k) || k !in seen || seen[k].count < cfg.maxDuplicates
  }

  function Stored(cfg: Config, seen: map<Key, Rec>, a: Arrival): Rec {
    var k := EventKey(a.event);
    if Critical(cfg, k) || k !in seen then Fresh(a)
    else if seen[k].count >= cfg.maxDuplicates then seen[k].(suppressed := seen[k].suppressed + 1)
    else Rec(a.event, seen[k].count + 1, seen[k].firstSeen, a.clock, seen[k].suppressed, k)
  }

  function Ingested(cfg: Config, s: EngineState, a: Arrival): EngineState {
    var k := EventKey(a.event);
    EngineState(s.seen[k := Stored(cfg, s.seen, a)], s.received + 1,
                s.suppressed + if Surfaces(cfg, s.seen, a) then 0 else 1,
                s.critical + if Critical(cfg, k) then 1 else 0)
  }

  /** The state after everything received since the last flush. */
  function After(cfg: Config, arrivals: seq<Arrival>): EngineState {
    if arrivals == [] then Empty
    else Ingested(cfg, After(cfg, arrivals[..|arrivals| - 1]), arrivals[|arrivals| - 1])
  }

  lemma AfterAppend(cfg: Config, arrivals: seq<Arrival>, a: Arrival)
    ensures After(cfg, arrivals + [a]) == Ingested(cfg, After(cfg, arrivals), a)
  {
    assert (arrivals + [a])[..|arrivals|] == arrivals;
  }

  // ---------- the class ----------

  /** Only `suppressed` is ever changed in place, on the very object a caller received earlier. */
  class CoalescedEvent {
    const event: Event
    const count: nat
    const firstSeen: string
    const lastSeen: string
    const key: Key
    var suppressed: nat

    constructor (event: Event, count: nat, firstSeen: string, lastSeen: string, suppressed: nat, key: Key)
      ensures Value() == Rec(event, count, firstSeen, lastSeen, suppressed, key)
    {
      this.event, this.count, this.firstSeen, this.lastSeen := event, count, firstSeen, lastSeen;
      this.suppressed, this.key := suppressed, key;
    }

    function Value(): Rec
      reads this
    {
      Rec(event, count, firstSeen, lastSeen, suppressed, key)
    }
  }

  datatype BudgetReport = BudgetReport(windowSeconds: int, received: nat, unique: nat, suppressed: nat, utilization: real,
                                       critical: nat)

  class NoiseBudgetEngine {
    const cfg: Config
    var seen: map<Key, CoalescedEvent>
    var received: nat
    var suppressed: nat
    var critical: nat
    ghost var arrivals: seq<Arrival>

    constructor (cfg: Config)
      ensures Valid() && this.cfg == cfg && arrivals == [] && seen == map[]
    {
      this.cfg := cfg;
      seen, received, suppressed, critical, arrivals := map[], 0, 0, 0, [];
    }

    ghost function Records(): set<object>
      reads `seen
    {
      set k | k in seen :: seen[k]
    }

    ghost function Values(): map<Key, Rec>
      reads `seen, Records()
    {
      map k | k in seen :: seen[k].Value()
    }

    ghost function Contents(): EngineState
      reads this, Records()
    {
      EngineState(Values(), received, suppressed, critical)
    }

    /** Keys never share a record. */
    ghost predicate Unshared()
      reads `seen
    {
      forall j, k :: j in seen && k in seen && j != k ==> seen[j] != seen[k]
    }

    /** The state is the one the arrivals since the last flush produce. */
    ghost predicate Valid()
      reads this, Records()
    {
      Unshared() && Contents() == After(cfg, arrivals)
    }

    /** Put a new object under the key of `rec`; everything stored under other keys stays what it was. */
    method Store(rec: Rec) returns (r: CoalescedEvent)
      requires Unshared()
      modifies `seen
      ensures Unshared() && fresh(r) && r.Value() == rec
      ensures seen == old(seen)[rec.key := r]
      ensures Values() == old(Values())[rec.key := rec]
    {
      r := new CoalescedEvent(rec.event, rec.count, rec.firstSeen, rec.lastSeen, rec.suppressed, rec.key);
      assert Values() == old(Values());
      seen := seen[rec.key := r];
    }

    /** Count one more suppressed event on the stored object itself. */
    method Suppress(k: Key)
      requires k in seen
      requires Unshared()
      modifies seen[k]
      ensures Values() == old(Values())[k := old(seen[k].Value()).(suppressed := old(seen[k].suppressed) + 1)]
    {
      seen[k].suppressed := seen[k].suppressed + 1;
    }

    /** The three branches of `ingest` on the stored records. */
    method Coalesce(a: Arrival) returns (r: CoalescedEvent?)
      requires Unshared()
      modifies `seen, `suppressed, Records()
      ensures Unshared()
      ensures suppressed == old(suppressed) + if r == null then 1 else 0
      ensures Values() == old(Values())[EventKey(a.event) := Stored(cfg, old(Values()), a)]
      ensures r != null <==> Surfaces(cfg, old(Values()), a)
      ensures r != null ==> fresh(r) && r.Value() == Stored(cfg, old(Values()), a)
      ensures seen == if r != null then old(seen)[EventKey(a.event) := r] else old(seen)
    {
      var k := EventKey(a.event);
      if Critical(cfg, k) {
        r := Store(Rec(a.event, 1, a.clock, a.clock', 0, k));
      } else if k in seen {
        var existing := seen[k];
        assert existing.Value() == Values()[k];
        if existing.count >= cfg.maxDuplicates {
          suppressed := suppressed + 1;
          Suppress(k);
          r := null;
        } else {
          r := Store(Rec(a.event, existing.count + 1, existing.firstSeen, a.clock, existing.suppressed, k));
        }
      } else {
        r := Store(Rec(a.event, 1, a.clock, a.clock', 0, k));
      }
    }

    /** A suppressed event changes the stored object in place; a surfacing one is stored and returned as a new object. */
    method Ingest(a: Arrival) returns (r: CoalescedEvent?)
      requires Valid()
      modifies this, Records()
      ensures Valid() && arrivals == old(arrivals) + [a]
      ensures r != null <==> Surfaces(cfg, old(Values()), a)
      ensures r != null ==> fresh(r) && r.Value() == Stored(cfg, old(Values()), a)
      ensures seen == if r != null then old(seen)[EventKey(a.event) := r] else old(seen)
    {
      hide After, Stored, Surfaces, EventKey, Critical;
      ghost var s := Contents();
      AfterAppend(cfg, arrivals, a);
      arrivals := arrivals + [a];
      received := received + 1;
      if Critical(cfg, EventKey(a.event)) {
        critical := critical + 1;
      }
      assert Values() == s.seen;
      r := Coalesce(a);
      assert Contents() == Ingested(cfg, s, a);
    }

    method Report() returns (r: BudgetReport)
      requires Valid()
      ensures r == BudgetReport(cfg.windowSeconds, |arrivals|, |seen|, After(cfg, arrivals).suppressed,
                                Utilization(After(cfg, arrivals)), After(cfg, arrivals).critical)
      ensures 0.0 <= r.utilization < 1.0
    {
      ReceivedAll(cfg, arrivals);
      UtilizationBelowOne(cfg, arrivals);
      r := BudgetReport(cfg.windowSeconds, received, |seen|, suppressed,
                        suppressed as real / (if received < 1 then 1 else received) as real, critical);
    }

    method Flush()
      modifies this
      ensures Valid() && arrivals == [] && seen == map[]
    {
      seen, received, suppressed, critical, arrivals := map[], 0, 0, 0, [];
    }
  }

  function Utilization(s: EngineState): real {
    s.suppressed as real / (if s.received < 1 then 1 else s.received) as real
  }

  // ---------- the closed form ----------

  function Occurrences(arrivals: seq<Arrival>, k: Key): nat {
    if arrivals == [] then 0
    else Occurrences(arrivals[..|arrivals| - 1], k) + if EventKey(arrivals[|arrivals| - 1].event) == k then 1 else 0
  }

  /** How often a non-critical key may surface: the configured maximum, but always at least once. */
  function Budget(cfg: Config): nat {
    if cfg.maxDuplicates > 1 then cfg.maxDuplicates else 1
  }

  /** What the record of a key seen `n` times counts. */
  function ExpectedCount(cfg: Config, k: Key, n: nat): nat {
    if Critical(cfg, k) then 1 else Min(n, Budget(cfg))
  }

  /** Every record is a function of how often its key arrived, in any order and mix with other keys. */
  lemma {:induction false} RecordsAreCounts(cfg: Config, arrivals: seq<Arrival>, k: Key)
    ensures var s, n := After(cfg, arrivals), Occurrences(arrivals, k);
            && (k in s.seen <==> n > 0)
            && (n > 0 ==>
                  && s.seen[k].key == k
                  && s.seen[k].count == ExpectedCount(cfg, k, n)
                  && s.seen[k].suppressed == if Critical(cfg, k) then 0 else n - Min(n, Budget(cfg)))
  {
    if arrivals != [] {
      RecordsAreCounts(cfg, arrivals[..|arrivals| - 1], k);
    }
  }

  /** An arrival surfaces exactly when its key is critical or has budget left. */
  lemma SurfacesExactly(cfg: Config, arrivals: seq<Arrival>, a: Arrival)
    ensures var k := EventKey(a.event);
            Surfaces(cfg, After(cfg, arrivals).seen, a) <==> Critical(cfg, k) || Occurrences(arrivals, k) < Budget(cfg)
  {
    RecordsAreCounts(cfg, arrivals, EventKey(a.event));
  }

  // ---------- in terms of the events ----------

  /** Two events that say the same of kind, source and subject, where a missing field is the empty text and the subject is
      `subjectRef`, or `subject_ref` when there is none. */
  predicate Alike(a: Event, b: Event) {
    && OrElse(a.kind, "") == OrElse(b.kind, "") && OrElse(a.source, "") == OrElse(b.source, "")
    && SubjectOf(a) == SubjectOf(b)
  }

  function SubjectOf(e: Event): string {
    match (e.subjectRef, e.subjectRefSnake)
    case (Some(s), _) => s
    case (None, Some(s)) => s
    case (None, None) => ""
  }

  predicate Exempt(cfg: Config, e: Event) {
    OrElse(e.kind, "") in cfg.criticalKinds || OrElse(e.source, "") in cfg.exemptSources
  }

  function LikeEvent(e: Event): Arrival -> bool {
    (a: Arrival) => Alike(a.event, e)
  }

  lemma KeysExactly(cfg: Config, a: Event, b: Event)
    ensures EventKey(a) == EventKey(b) <==> Alike(a, b)
    ensures Critical(cfg, EventKey(a)) <==> Exempt(cfg, a)
  {
  }

  lemma {:induction false} OccurrencesAlike(arrivals: seq<Arrival>, e: Event)
    ensures Occurrences(arrivals, EventKey(e)) == CountIf(arrivals, LikeEvent(e))
  {
    if arrivals != [] {
      OccurrencesAlike(arrivals[..|arrivals| - 1], e);
      KeysExactly(Config(0, 0, {}, {}), arrivals[|arrivals| - 1].event, e);
    }
  }

  /** Which arrivals reach the caller: those of an exempt kind or source always, any other as long as fewer than max(1, M)
      events like it have arrived since the last flush. */
  lemma SurfacesByEvent(cfg: Config, arrivals: seq<Arrival>, a: Arrival)
    ensures Surfaces(cfg, After(cfg, arrivals).seen, a) <==>
            Exempt(cfg, a.event) || CountIf(arrivals, LikeEvent(a.event)) < (if cfg.maxDuplicates > 1 then cfg.maxDuplicates else 1)
  {
    hide Surfaces, After, EventKey, Exempt, Critical, Occurrences, CountIf;
    SurfacesExactly(cfg, arrivals, a);
    OccurrencesAlike(arrivals, a.event);
    KeysExactly(cfg, a.event, a.event);
  }

  /** The arrival at `j` is the `c`-th with this key. */
  predicate IsNth(arrivals: seq<Arrival>, k: Key, j: nat, c: nat) {
    j < |arrivals| && EventKey(arrivals[j].event) == k && Occurrences(arrivals[..j + 1], k) == c
  }

  /** The record is that of the arrivals at `i` and `j`: the event of the second, first seen at the first, last seen at the
      second. */
  predicate Remembers(r: Rec, arrivals: seq<Arrival>, i: nat, j: nat)
    requires i < |arrivals| && j < |arrivals|
  {
    && r.event == arrivals[j].event && r.firstSeen == arrivals[i].clock
    && r.lastSeen == if i == j then arrivals[j].clock' else arrivals[j].clock
  }

  lemma NthKept(arrivals: seq<Arrival>, a: Arrival, k: Key, j: nat, c: nat)
    requires IsNth(arrivals, k, j, c)
    ensures IsNth(arrivals + [a], k, j, c)
  {
    assert (arrivals + [a])[..j + 1] == arrivals[..j + 1];
  }

  lemma NthNew(arrivals: seq<Arrival>, a: Arrival)
    ensures var k := EventKey(a.event); IsNth(arrivals + [a], k, |arrivals|, Occurrences(arrivals, k) + 1)
  {
    var longer := arrivals + [a];
    assert longer[..|arrivals| + 1] == longer && longer[..|longer| - 1] == arrivals;
  }

  lemma OccurrencesStep(arrivals: seq<Arrival>, a: Arrival, k: Key)
    ensures Occurrences(arrivals + [a], k) == Occurrences(arrivals, k) + if EventKey(a.event) == k then 1 else 0
  {
    assert (arrivals + [a])[..|arrivals|] == arrivals;
  }

  /** What a record keeps of the arrivals with its key: of a key that is not critical the first one's time, and the event and
      time of the last one that surfaced; of a critical key only the last arrival. */
  lemma {:induction false} RecordsRemember(cfg: Config, arrivals: seq<Arrival>, k: Key) returns (i: nat, j: nat)
    requires Occurrences(arrivals, k) > 0
    ensures i <= j < |arrivals|
    ensures var n := Occurrences(arrivals, k);
            && IsNth(arrivals, k, i, if Critical(cfg, k) then n else 1)
            && IsNth(arrivals, k, j, if Critical(cfg, k) then n else Min(n, Budget(cfg)))
            && k in After(cfg, arrivals).seen && Remembers(After(cfg, arrivals).seen[k], arrivals, i, j)
  {
    var before, a := arrivals[..|arrivals| - 1], arrivals[|arrivals| - 1];
    assert arrivals == before + [a];
    RecordsAreCounts(cfg, before, k);
    AfterAppend(cfg, before, a);
    OccurrencesStep(before, a, k);
    if EventKey(a.event) == k { NthNew(before, a); }
    if Occurrences(before, k) == 0 || (EventKey(a.event) == k && Critical(cfg, k)) {
      i, j := |before|, |before|;
    } else {
      i, j := RecordsRemember(cfg, before, k);
      NthKept(before, a, k, i, if Critical(cfg, k) then Occurrences(before, k) else 1);
      NthKept(before, a, k, j, if Critical(cfg, k) then Occurrences(before, k) else Min(Occurrences(before, k), Budget(cfg)));
      if EventKey(a.event) == k && Occurrences(before, k) < Budget(cfg) { j := |before|; }
    }
  }

  /** How many arrivals of key `k` were returned to the caller. */
  function SurfacedCount(cfg: Config, arrivals: seq<Arrival>, k: Key): nat {
    if arrivals == [] then 0
    else
      var before, a := arrivals[..|arrivals| - 1], arrivals[|arrivals| - 1];
      SurfacedCount(cfg, before, k) +
      if EventKey(a.event) == k && Surfaces(cfg, After(cfg, before).seen, a) then 1 else 0
  }

  /** A non-critical key seen n times surfaces exactly min(n, max(1, M)) times, a critical one every time. */
  lemma {:induction false} SurfacedExactly(cfg: Config, arrivals: seq<Arrival>, k: Key)
    ensures var n := Occurrences(arrivals, k);
            SurfacedCount(cfg, arrivals, k) == if Critical(cfg, k) then n else Min(n, Budget(cfg))
  {
    if arrivals != [] {
      SurfacedExactly(cfg, arrivals[..|arrivals| - 1], k);
      SurfacesExactly(cfg, arrivals[..|arrivals| - 1], arrivals[|arrivals| - 1]);
    }
  }

  lemma {:induction false} ReceivedAll(cfg: Config, arrivals: seq<Arrival>)
    ensures After(cfg, arrivals).received == |arrivals|
  {
    if arrivals != [] { ReceivedAll(cfg, arrivals[..|arrivals| - 1]); }
  }

  // ---------- conservation ----------

  function SuppressedOf(s: EngineState): Key -> nat {
    k => if k in s.seen then s.seen[k].suppressed else 0
  }

  function HandledOf(cfg: Config, s: EngineState): Key -> nat {
    k => if k in s.seen && !Critical(cfg, k) then s.seen[k].count + s.seen[k].suppressed else 0
  }

  /** The running totals are the sums of the records: nothing is counted twice and nothing is lost. */
  lemma {:induction false} TotalsAreSums(cfg: Config, arrivals: seq<Arrival>)
    ensures var s := After(cfg, arrivals);
            && s.suppressed == SumOver(s.seen.Keys, SuppressedOf(s))
            && s.received == s.critical + SumOver(s.seen.Keys, HandledOf(cfg, s))
  {
    if arrivals != [] {
      var before, a := arrivals[..|arrivals| - 1], arrivals[|arrivals| - 1];
      var s, t, k := After(cfg, before), After(cfg, arrivals), EventKey(a.event);
      TotalsAreSums(cfg, before);
      RecordsAreCounts(cfg, before, k);
      assert t.seen.Keys == s.seen.Keys + {k};
      SumRaise(s.seen.Keys, SuppressedOf(s), SuppressedOf(t), k, if Surfaces(cfg, s.seen, a) then 0 else 1);
      SumRaise(s.seen.Keys, HandledOf(cfg, s), HandledOf(cfg, t), k, if Critical(cfg, k) then 0 else 1);
    }
  }

  /** Something always surfaces before anything is suppressed. */
  lemma {:induction false} UtilizationBelowOne(cfg: Config, arrivals: seq<Arrival>)
    ensures 0.0 <= Utilization(After(cfg, arrivals)) < 1.0
  {
    SuppressedBelowReceived(cfg, arrivals);
    var s := After(cfg, arrivals);
    var d := (if s.received < 1 then 1 else s.received) as real;
    assert s.suppressed as real < d;
    Quotient(s.suppressed as real, d);
  }

  lemma Quotient(n: real, d: real)
    requires 0.0 <= n < d
    ensures 0.0 <= n / d < 1.0
  {
  }

  lemma {:induction false} SuppressedBelowReceived(cfg: Config, arrivals: seq<Arrival>)
    ensures var s := After(cfg, arrivals);
            if arrivals == [] then s.suppressed == 0 else s.suppressed < s.received
  {
    if arrivals != [] {
      SuppressedBelowReceived(cfg, arrivals[..|arrivals| - 1]);
      if |arrivals| == 1 { SurfacesExactly(cfg, [], arrivals[0]); }
    }
  }
}
