/** What a valid State Integrity Report is, stated without the order and the early exits of the checks. */
module ReportContract {
  import opened Text
  import opened Json
  import opened Reports

  // ---------- the parts ----------

  predicate AllCounts(d: Fields) {
    forall k :: k in d ==> IsNonNegative(d[k])
  }

  predicate GoodIdentity(j: Json) {
    && j.Obj? && REQUIRED_IDENTITY <= j.fields.Keys
    && IsNonNegative(Get(j.fields, "pid"))
    && Get(j.fields, "node_id_hash").Str? && "sha256:" <= Get(j.fields, "node_id_hash").s
  }

  predicate GoodCollection(j: Json) {
    && j.Obj? && REQUIRED_COLLECTION <= j.fields.Keys
    && OneOf(Get(j.fields, "status"), COLLECTION_STATUSES)
    && forall k :: k in COLLECTION_LISTS ==> Get(j.fields, k).Arr?
  }

  /** Every time of day in the runtime section is null or parses. */
  ghost predicate GoodRuntime(iso: Iso, j: Json) {
    j.Obj? && forall k :: k in j.fields && TimeKey(k) ==> j.fields[k].Null? || ParseInstant(iso, j.fields[k]).Some?
  }

  /** Any name ending in "_at". */
  ghost predicate TimeKey(key: string) {
    exists stem: string :: key == stem + "_at"
  }

  lemma TimeKeysExactly(key: string)
    ensures TimeKey(key) <==> EndsWithAt(key)
  {
    if EndsWithAt(key) { assert key == key[..|key| - 3] + "_at"; }
  }

  /** The two forms of the flags, as far as they are there, are well formed and name the same number. */
  predicate GoodFlags(d: Fields) {
    && ("flags_raw" in d ==> IsNonNegative(d["flags_raw"]))
    && ("flags_hex" in d ==> d["flags_hex"].Str? && IsHex(d["flags_hex"].s))
    && ("flags_raw" in d && "flags_hex" in d ==> HexValue(d["flags_hex"].s) == IntValue(d["flags_raw"]))
  }

  predicate GoodStore(j: Json) {
    && j.Obj? && REQUIRED_STORE <= j.fields.Keys
    && OneOf(Get(j.fields, "role"), STORE_ROLES)
    && OneOf(Get(j.fields, "migration_state"), MIGRATION_STATES)
    && OneOf(Get(j.fields, "checksum_state"), CHECKSUM_STATES)
    && GoodFlags(j.fields)
  }

  predicate GoodSection(j: Json) {
    j.Obj? && AllCounts(j.fields)
  }

  predicate GoodJournal(j: Json) {
    j.Obj? && forall k :: k in JOURNAL_COUNTS && k in j.fields ==> IsNonNegative(j.fields[k])
  }

  predicate GoodLane(j: Json) {
    && j.Obj? && REQUIRED_LANE <= j.fields.Keys
    && OneOf(Get(j.fields, "status"), LANE_STATUSES)
    && GoodSection(Get(j.fields, "sla")) && GoodSection(Get(j.fields, "objects")) && GoodJournal(Get(j.fields, "journal"))
  }

  /** No two items share a name. */
  predicate UniqueNames(items: seq<Json>) {
    forall i, j :: 0 <= i < j < |items| && NameOf(items[i]).Some? ==> NameOf(items[i]) != NameOf(items[j])
  }

  predicate GoodDisk(j: Json) {
    && j.Obj?
    && IsNonNegative(Get(j.fields, "free_bytes")) && IsInt(Get(j.fields, "total_bytes")) && IsNumber(Get(j.fields, "free_ratio"))
    && IntValue(Get(j.fields, "free_bytes")) <= IntValue(Get(j.fields, "total_bytes"))
    && IntValue(Get(j.fields, "total_bytes")) > 0
    && 0.0 <= NumberValue(Get(j.fields, "free_ratio")) <= 1.0
    && OneOf(Get(j.fields, "pressure"), PRESSURE_STATES)
  }

  predicate GoodPolicy(j: Json) {
    j.Obj? && GoodSection(Get(j.fields, "policy_decisions"))
  }

  predicate GoodInvariant(j: Json) {
    && j.Obj? && REQUIRED_INVARIANT <= j.fields.Keys
    && OneOf(Get(j.fields, "status"), INVARIANT_STATUSES)
    && OneOf(Get(j.fields, "severity"), SEVERITIES)
    && Get(j.fields, "evidence").Obj?
  }

  predicate GoodShape(r: Report) {
    REQUIRED_TOP_LEVEL <= r.Keys && Get(r, "schema") == Str(STATE_SCHEMA) && Get(r, "lanes").Arr? && Get(r, "stores").Arr?
  }

  ghost predicate GoodBody(iso: Iso, r: Report) {
    && ParseInstant(iso, Get(r, "generated_at")).Some?
    && GoodIdentity(Get(r, "identity")) && GoodCollection(Get(r, "collection")) && GoodRuntime(iso, Get(r, "runtime"))
    && (forall s :: s in ItemsOf(Get(r, "stores")) ==> GoodStore(s)) && UniqueNames(ItemsOf(Get(r, "stores")))
    && Get(r, "lanes").Arr? && Get(r, "lanes").items != []
    && (forall l :: l in Get(r, "lanes").items ==> GoodLane(l)) && UniqueNames(Get(r, "lanes").items)
    && GoodDisk(DiskOf(r)) && GoodPolicy(Get(r, "policy"))
  }

  predicate GoodInvariants(j: Json) {
    j.Arr? && forall v :: v in j.items ==> GoodInvariant(v)
  }

  ghost predicate Valid(iso: Iso, r: Report) {
    GoodShape(r) && GoodBody(iso, r) && GoodInvariants(Get(r, "invariants"))
  }

  /** Times are read as ISO texts, with a final "Z" standing for the offset +00:00; anything else is no time. */
  lemma InstantsExactly(iso: Iso, j: Json, stem: string)
    ensures ParseInstant(iso, Str(stem + "Z")) == iso(stem + "+00:00")
    ensures stem != "" && stem[|stem| - 1] != 'Z' ==> ParseInstant(iso, Str(stem)) == iso(stem)
    ensures !j.Str? || j.s == "" ==> ParseInstant(iso, j).None?
  {
    assert (stem + "Z")[..|stem|] == stem;
  }

  const HEX_LOWER := "0123456789abcdef"
  const HEX_UPPER := "0123456789ABCDEF"

  /** A hexadecimal digit is worth its place among the sixteen. */
  lemma HexDigitsExactly(c: char)
    ensures IsHexDigit(c) <==> c in HEX_LOWER || c in HEX_UPPER
    ensures IsHexDigit(c) ==> HexDigitValue(c) < 16 && (HEX_LOWER[HexDigitValue(c)] == c || HEX_UPPER[HexDigitValue(c)] == c)
  {
    if IsHexDigit(c) {
      var v := HexDigitValue(c);
      assert HEX_LOWER[v] == c || HEX_UPPER[v] == c;
      assert HEX_LOWER[v] in HEX_LOWER && HEX_UPPER[v] in HEX_UPPER;
    }
  }

  // ---------- part by part ----------

  lemma IdentityExactly(j: Json)
    ensures IdentityErrors(j) == [] <==> GoodIdentity(j)
  {
    if j.Obj? { NothingMissing("identity", j.fields, REQUIRED_IDENTITY); }
  }

  lemma {:induction false} NotListsExactly(d: Fields, keys: seq<string>)
    ensures NotLists(d, keys) == [] <==> forall k :: k in keys ==> Get(d, k).Arr?
  {
    if keys != [] {
      NotListsExactly(d, keys[1..]);
      assert keys == [keys[0]] + keys[1..];
    }
  }

  lemma CollectionExactly(j: Json)
    ensures CollectionErrors(j) == [] <==> GoodCollection(j)
  {
    if j.Obj? {
      NothingMissing("collection", j.fields, REQUIRED_COLLECTION);
      NotListsExactly(j.fields, COLLECTION_LISTS);
    }
  }

  lemma NonePrefixed(prefix: string, keys: set<string>)
    ensures Prefixed(prefix, SortedSet(keys)) == [] <==> keys == {}
  {
    PrefixedLength(prefix, SortedSet(keys));
  }

  lemma RuntimeExactly(iso: Iso, j: Json)
    ensures RuntimeErrors(iso, j) == [] <==> GoodRuntime(iso, j)
  {
    hide TimeKey, EndsWithAt, ParseInstant;
    forall k ensures TimeKey(k) <==> EndsWithAt(k) { TimeKeysExactly(k); }
    if j.Obj? {
      NonePrefixed("runtime", BadInstants(iso, j.fields));
      if k :| k in j.fields && EndsWithAt(k) && !j.fields[k].Null? && ParseInstant(iso, j.fields[k]).None? {
        assert k in BadInstants(iso, j.fields);
      } else {
        assert BadInstants(iso, j.fields) == {};
      }
    }
  }

  lemma FlagsExactly(d: Fields)
    ensures FlagErrors(d) == [] <==> GoodFlags(d)
  {
  }

  lemma StoreExactly(j: Json, repeated: bool)
    ensures StoreErrors(j, repeated) == [] <==> GoodStore(j) && !repeated
  {
    if j.Obj? {
      NothingMissing("stores", j.fields, REQUIRED_STORE);
      FlagsExactly(j.fields);
    }
  }

  lemma SectionExactly(d: Fields, section: string)
    requires section in d
    ensures SectionErrors(d, section) == [] <==> GoodSection(d[section])
  {
    if d[section].Obj? { NoBadCounts(section, d[section].fields); }
  }

  lemma {:induction false} JournalExactly(d: Fields, keys: seq<string>)
    ensures BadJournal(d, keys) == [] <==> forall k :: k in keys && k in d ==> IsNonNegative(d[k])
  {
    if keys != [] {
      JournalExactly(d, keys[1..]);
      assert keys == [keys[0]] + keys[1..];
    }
  }

  lemma LaneExactly(j: Json, repeated: bool)
    ensures LaneErrors(j, repeated) == [] <==> GoodLane(j) && !repeated
  {
    if j.Obj? {
      NothingMissing("lanes", j.fields, REQUIRED_LANE);
      if REQUIRED_LANE <= j.fields.Keys {
        assert "sla" in REQUIRED_LANE && "objects" in REQUIRED_LANE && "journal" in REQUIRED_LANE;
        SectionExactly(j.fields, "sla");
        SectionExactly(j.fields, "objects");
        if Get(j.fields, "journal").Obj? { JournalExactly(Get(j.fields, "journal").fields, JOURNAL_COUNTS); }
      }
    }
  }

  lemma UniqueStep(items: seq<Json>)
    requires items != []
    ensures UniqueNames(items) <==> UniqueNames(items[..|items| - 1]) && !Repeats(items, |items| - 1)
  {
  }

  /** A list passes exactly when every item does on its own and no name occurs twice. */
  lemma {:induction false} ListExactly(items: seq<Json>, check: ItemCheck, good: Json -> bool)
    requires forall j, repeated :: check(j, repeated) == [] <==> good(j) && !repeated
    ensures ListErrors(items, check) == [] <==> (forall j :: j in items ==> good(j)) && UniqueNames(items)
  {
    if items != [] {
      var front, last := items[..|items| - 1], items[|items| - 1];
      ListExactly(front, check, good);
      UniqueStep(items);
      assert items == front + [last];
    }
  }

  lemma StoresExactly(items: seq<Json>)
    ensures ListErrors(items, StoreErrors) == [] <==> (forall s :: s in items ==> GoodStore(s)) && UniqueNames(items)
  {
    forall j, repeated ensures StoreErrors(j, repeated) == [] <==> GoodStore(j) && !repeated { StoreExactly(j, repeated); }
    ListExactly(items, StoreErrors, GoodStore);
  }

  lemma LanesExactly(items: seq<Json>)
    ensures ListErrors(items, LaneErrors) == [] <==> (forall l :: l in items ==> GoodLane(l)) && UniqueNames(items)
  {
    forall j, repeated ensures LaneErrors(j, repeated) == [] <==> GoodLane(j) && !repeated { LaneExactly(j, repeated); }
    ListExactly(items, LaneErrors, GoodLane);
  }

  lemma DiskExactly(j: Json)
    ensures DiskErrors(j) == [] <==> GoodDisk(j)
  {
  }

  lemma PolicyExactly(j: Json)
    ensures PolicyErrors(j) == [] <==> GoodPolicy(j)
  {
    if j.Obj? && Get(j.fields, "policy_decisions").Obj? {
      NoBadCounts("policy.policy_decisions", Get(j.fields, "policy_decisions").fields);
    }
  }

  lemma InvariantExactly(j: Json)
    ensures InvariantErrors(j) == [] <==> GoodInvariant(j)
  {
    if j.Obj? { NothingMissing("invariants", j.fields, REQUIRED_INVARIANT); }
  }

  lemma {:induction false} InvariantListExactly(items: seq<Json>)
    ensures InvariantListErrors(items) == [] <==> forall v :: v in items ==> GoodInvariant(v)
  {
    if items != [] {
      var front, last := items[..|items| - 1], items[|items| - 1];
      InvariantListExactly(front);
      InvariantExactly(last);
      assert items == front + [last];
    }
  }

  lemma InvariantsExactly(j: Json)
    ensures InvariantsErrors(j) == [] <==> GoodInvariants(j)
  {
    if j.Arr? { InvariantListExactly(j.items); }
  }

  lemma ShapeExactly(r: Report)
    ensures ShapeErrors(r) == [] <==> GoodShape(r)
  {
    NothingMissing("report", r, REQUIRED_TOP_LEVEL);
  }

  lemma BodyExactly(iso: Iso, r: Report)
    ensures BodyErrors(iso, r) == [] <==> GoodBody(iso, r)
  {
    IdentityExactly(Get(r, "identity"));
    CollectionExactly(Get(r, "collection"));
    RuntimeExactly(iso, Get(r, "runtime"));
    StoresExactly(ItemsOf(Get(r, "stores")));
    LanesExactly(ItemsOf(Get(r, "lanes")));
    DiskExactly(DiskOf(r));
    PolicyExactly(Get(r, "policy"));
  }

  /** The check finds nothing to say exactly about the valid reports. */
  lemma ContractExactly(iso: Iso, r: Report)
    ensures ReportErrors(iso, r) == [] <==> Valid(iso, r)
  {
    ShapeExactly(r);
    BodyExactly(iso, r);
    InvariantsExactly(Get(r, "invariants"));
  }
}
