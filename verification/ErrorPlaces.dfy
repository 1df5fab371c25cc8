/** Which check an error comes from: the places named for the whole report are named by no other check. */
module ErrorPlaces {
  import opened Text
  import opened Json
  import opened Reports

  /** The place does not start like "report.": one of its first four letters differs. */
  predicate Elsewhere(place: string) {
    place != "" && (place[0] != 'r' || (|place| > 3 && (place[1] != 'e' || place[2] != 'p' || place[3] != 'o')))
  }

  predicate AllElsewhere(errors: Errors) {
    forall i :: 0 <= i < |errors| ==> Elsewhere(errors[i])
  }

  lemma {:induction false} PrefixedElsewhere(prefix: string, keys: seq<string>)
    requires Elsewhere(prefix)
    ensures AllElsewhere(Prefixed(prefix, keys))
  {
    if keys != [] {
      PrefixedElsewhere(prefix, keys[1..]);
      var place := prefix + "." + keys[0];
      assert forall i :: 0 <= i < |prefix| ==> place[i] == prefix[i];
    }
  }

  lemma Missing(prefix: string, d: Fields, required: set<string>)
    requires Elsewhere(prefix)
    ensures AllElsewhere(MissingKeys(prefix, d, required))
  {
    PrefixedElsewhere(prefix, SortedSet(required - d.Keys));
  }

  lemma Failing(c: bool, place: string)
    requires Elsewhere(place)
    ensures AllElsewhere(FailIf(c, place))
  {
  }

  lemma Joined(a: Errors, b: Errors)
    requires AllElsewhere(a) && AllElsewhere(b)
    ensures AllElsewhere(a + b)
  {
  }

  lemma {:induction false} NotListsElsewhere(d: Fields, keys: seq<string>)
    requires AllElsewhere(keys)
    ensures AllElsewhere(NotLists(d, keys))
  {
    if keys != [] {
      NotListsElsewhere(d, keys[1..]);
      assert Elsewhere(keys[0]);
    }
  }

  lemma {:induction false} BadJournalElsewhere(d: Fields, keys: seq<string>)
    requires AllElsewhere(keys)
    ensures AllElsewhere(BadJournal(d, keys))
  {
    if keys != [] {
      BadJournalElsewhere(d, keys[1..]);
      assert Elsewhere(keys[0]);
    }
  }

  lemma IdentityElsewhere(j: Json)
    ensures AllElsewhere(IdentityErrors(j))
  {
    if j.Obj? {
      Missing("identity", j.fields, REQUIRED_IDENTITY);
      Failing(!IsNonNegative(Get(j.fields, "pid")), "identity.pid");
      Failing(!(Get(j.fields, "node_id_hash").Str? && "sha256:" <= Get(j.fields, "node_id_hash").s), "identity.node_id_hash");
    }
  }

  lemma ListKeys()
    ensures AllElsewhere(COLLECTION_LISTS) && AllElsewhere(JOURNAL_COUNTS)
  {
  }

  lemma CollectionElsewhere(j: Json)
    ensures AllElsewhere(CollectionErrors(j))
  {
    hide FailIf, MissingKeys, NotLists, OneOf;
    if j.Obj? {
      ListKeys();
      Missing("collection", j.fields, REQUIRED_COLLECTION);
      Failing(!OneOf(Get(j.fields, "status"), COLLECTION_STATUSES), "collection.status");
      NotListsElsewhere(j.fields, COLLECTION_LISTS);
    }
  }

  lemma RuntimeElsewhere(iso: Iso, j: Json)
    ensures AllElsewhere(RuntimeErrors(iso, j))
  {
    if j.Obj? { PrefixedElsewhere("runtime", SortedSet(BadInstants(iso, j.fields))); }
  }

  lemma FlagsElsewhere(d: Fields)
    ensures AllElsewhere(FlagErrors(d))
  {
  }

  lemma StoreElsewhere(j: Json, repeated: bool)
    ensures AllElsewhere(StoreErrors(j, repeated))
  {
    hide FlagErrors, MissingKeys, FailIf, OneOf, AllElsewhere;
    if j.Obj? {
      var a, b, c := MissingKeys("stores", j.fields, REQUIRED_STORE), FailIf(repeated, "stores.name"),
                     FailIf(!OneOf(Get(j.fields, "role"), STORE_ROLES), "stores.role");
      var d, e := FailIf(!OneOf(Get(j.fields, "migration_state"), MIGRATION_STATES), "stores.migration_state"),
                  FailIf(!OneOf(Get(j.fields, "checksum_state"), CHECKSUM_STATES), "stores.checksum_state");
      Missing("stores", j.fields, REQUIRED_STORE);
      Failing(repeated, "stores.name");
      Failing(!OneOf(Get(j.fields, "role"), STORE_ROLES), "stores.role");
      Failing(!OneOf(Get(j.fields, "migration_state"), MIGRATION_STATES), "stores.migration_state");
      Failing(!OneOf(Get(j.fields, "checksum_state"), CHECKSUM_STATES), "stores.checksum_state");
      FlagsElsewhere(j.fields);
      Joined(a, b);
      Joined(a + b, c);
      Joined(a + b + c, d);
      Joined(a + b + c + d, e);
      Joined(a + b + c + d + e, FlagErrors(j.fields));
    } else {
      Single("stores");
    }
  }

  lemma Single(place: string)
    requires Elsewhere(place)
    ensures AllElsewhere([place])
  {
  }

  lemma SectionElsewhere(d: Fields, section: string)
    requires Elsewhere(section)
    ensures AllElsewhere(SectionErrors(d, section))
  {
    var values := GetOr(d, section, Obj(map[]));
    if values.Obj? { PrefixedElsewhere(section, SortedSet(BadCounts(values.fields))); }
  }

  lemma JournalElsewhere(d: Fields)
    ensures AllElsewhere(JournalErrors(d))
  {
    hide BadJournal;
    ListKeys();
    var journal := GetOr(d, "journal", Obj(map[]));
    if journal.Obj? { BadJournalElsewhere(journal.fields, JOURNAL_COUNTS); }
  }

  lemma LaneElsewhere(j: Json, repeated: bool)
    ensures AllElsewhere(LaneErrors(j, repeated))
  {
    hide MissingKeys, FailIf, OneOf, SectionErrors, JournalErrors, AllElsewhere;
    if j.Obj? {
      var a, b, c := MissingKeys("lanes", j.fields, REQUIRED_LANE), FailIf(repeated, "lanes.name"),
                     FailIf(!OneOf(Get(j.fields, "status"), LANE_STATUSES), "lanes.status");
      var d, e, f := SectionErrors(j.fields, "sla"), SectionErrors(j.fields, "objects"), JournalErrors(j.fields);
      Missing("lanes", j.fields, REQUIRED_LANE);
      Failing(repeated, "lanes.name");
      Failing(!OneOf(Get(j.fields, "status"), LANE_STATUSES), "lanes.status");
      SectionElsewhere(j.fields, "sla");
      SectionElsewhere(j.fields, "objects");
      JournalElsewhere(j.fields);
      Joined(a, b);
      Joined(a + b, c);
      Joined(a + b + c, d);
      Joined(a + b + c + d, e);
      Joined(a + b + c + d + e, f);
    } else {
      Single("lanes");
    }
  }

  lemma {:induction false} ListElsewhere(items: seq<Json>, check: ItemCheck)
    requires forall j, repeated :: AllElsewhere(check(j, repeated))
    ensures AllElsewhere(ListErrors(items, check))
  {
    if items != [] {
      ListElsewhere(items[..|items| - 1], check);
      assert AllElsewhere(check(items[|items| - 1], Repeats(items, |items| - 1)));
    }
  }

  lemma StoresElsewhere(items: seq<Json>)
    ensures AllElsewhere(ListErrors(items, StoreErrors))
  {
    forall j, repeated ensures AllElsewhere(StoreErrors(j, repeated)) { StoreElsewhere(j, repeated); }
    ListElsewhere(items, StoreErrors);
  }

  lemma LanesElsewhere(j: Json)
    ensures AllElsewhere(LanesErrors(j))
  {
    if j.Arr? {
      forall l, repeated ensures AllElsewhere(LaneErrors(l, repeated)) { LaneElsewhere(l, repeated); }
      ListElsewhere(j.items, LaneErrors);
    }
  }

  lemma DiskElsewhere(disk: Json)
    ensures AllElsewhere(DiskErrors(disk))
  {
  }

  lemma PolicyElsewhere(j: Json)
    ensures AllElsewhere(PolicyErrors(j))
  {
    if j.Obj? && Get(j.fields, "policy_decisions").Obj? {
      PrefixedElsewhere("policy.policy_decisions", SortedSet(BadCounts(Get(j.fields, "policy_decisions").fields)));
    }
  }

  /** No check of a section names a place that belongs to the report as a whole. */
  lemma BodyElsewhere(iso: Iso, r: Report)
    ensures AllElsewhere(BodyErrors(iso, r))
  {
    hide *;
    var a, b, c, d := IdentityErrors(Get(r, "identity")), CollectionErrors(Get(r, "collection")),
                      RuntimeErrors(iso, Get(r, "runtime")), ListErrors(ItemsOf(Get(r, "stores")), StoreErrors);
    var e, f, g := LanesErrors(Get(r, "lanes")), DiskErrors(DiskOf(r)), PolicyErrors(Get(r, "policy"));
    var start := FailIf(ParseInstant(iso, Get(r, "generated_at")).None?, "generated_at");
    StartElsewhere(ParseInstant(iso, Get(r, "generated_at")).None?);
    IdentityElsewhere(Get(r, "identity"));
    CollectionElsewhere(Get(r, "collection"));
    RuntimeElsewhere(iso, Get(r, "runtime"));
    StoresElsewhere(ItemsOf(Get(r, "stores")));
    LanesElsewhere(Get(r, "lanes"));
    DiskElsewhere(DiskOf(r));
    PolicyElsewhere(Get(r, "policy"));
    Joined(start, a);
    Joined(start + a, b);
    Joined(start + a + b, c);
    Joined(start + a + b + c, d);
    Joined(start + a + b + c + d, e);
    Joined(start + a + b + c + d + e, f);
    Joined(start + a + b + c + d + e + f, g);
    BodyIs(iso, r);
  }

  lemma StartElsewhere(c: bool)
    ensures AllElsewhere(FailIf(c, "generated_at"))
  {
  }

  lemma BodyIs(iso: Iso, r: Report)
    ensures BodyErrors(iso, r) ==
            FailIf(ParseInstant(iso, Get(r, "generated_at")).None?, "generated_at") + IdentityErrors(Get(r, "identity"))
            + CollectionErrors(Get(r, "collection")) + RuntimeErrors(iso, Get(r, "runtime"))
            + ListErrors(ItemsOf(Get(r, "stores")), StoreErrors) + LanesErrors(Get(r, "lanes")) + DiskErrors(DiskOf(r))
            + PolicyErrors(Get(r, "policy"))
  {
    hide FailIf, ParseInstant, IdentityErrors, CollectionErrors, RuntimeErrors, ListErrors, LanesErrors, DiskErrors,
         PolicyErrors, DiskOf, ItemsOf, Get;
  }

  /** A missing key of the report is named first of all. */
  lemma MissingIsNamedFirst(r: Report)
    requires !(REQUIRED_TOP_LEVEL <= r.Keys)
    ensures ShapeErrors(r) != [] && !Elsewhere(ShapeErrors(r)[0])
  {
    hide *;
    NothingMissing("report", r, REQUIRED_TOP_LEVEL);
    var keys := SortedSet(REQUIRED_TOP_LEVEL - r.Keys);
    ShapeStarts(r);
    FirstPrefixed("report", keys);
    TopPlace(keys[0]);
  }

  lemma ShapeStarts(r: Report)
    ensures MissingKeys("report", r, REQUIRED_TOP_LEVEL) == Prefixed("report", SortedSet(REQUIRED_TOP_LEVEL - r.Keys))
    ensures SortedSet(REQUIRED_TOP_LEVEL - r.Keys) == [] ==> MissingKeys("report", r, REQUIRED_TOP_LEVEL) == []
    ensures var missing := MissingKeys("report", r, REQUIRED_TOP_LEVEL);
            missing != [] ==> ShapeErrors(r) != [] && ShapeErrors(r)[0] == missing[0]
  {
    hide SortedSet, FailIf;
  }

  lemma TopPlace(key: string)
    ensures !Elsewhere("report" + "." + key)
  {
    var place := "report" + "." + key;
    assert place[0] == 'r' && place[1] == 'e' && place[2] == 'p' && place[3] == 'o';
  }

  lemma FirstPrefixed(prefix: string, keys: seq<string>)
    requires keys != []
    ensures Prefixed(prefix, keys) != [] && Prefixed(prefix, keys)[0] == prefix + "." + keys[0]
  {
  }
}
