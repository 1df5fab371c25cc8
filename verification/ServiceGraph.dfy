/** The inverted capability index over service manifests (tools/sourceos_service_graph.py). */
module ServiceGraph {
  import opened Text
  import opened Sums

  /** A manifest and the path it was loaded from. The capability lists may repeat themselves; only their sets matter. */
  datatype Service = Service(id: string, displayName: string, manifest: string, authority: string, org: Option<string>,
                             repo: Option<string>, required: seq<string>, optional: seq<string>, denied: seq<string>,
                             emitsEvents: bool, incidentBundle: bool)

  datatype Use = Requires | MayUse | Denies

  function Listed(s: Service, u: Use): seq<string> {
    match u
    case Requires => s.required
    case MayUse => s.optional
    case Denies => s.denied
  }

  function CapabilitySet(s: Service, u: Use): set<string> {
    set c | c in Listed(s, u)
  }

  function AllCapabilities(services: seq<Service>): set<string> {
    set s, u, c | s in services && u in {Requires, MayUse, Denies} && c in Listed(s, u) :: c
  }

  /** Python prints a missing owner field as "None". */
  function OwnerKey(s: Service): string {
    OrElse(s.org, "None") + "/" + OrElse(s.repo, "None")
  }

  datatype Entry = Entry(requiredBy: seq<string>, optionalFor: seq<string>, deniedBy: seq<string>)

  function Users(e: Entry, u: Use): seq<string> {
    match u
    case Requires => e.requiredBy
    case MayUse => e.optionalFor
    case Denies => e.deniedBy
  }

  function Appended(e: Entry, u: Use, id: string): Entry {
    match u
    case Requires => e.(requiredBy := e.requiredBy + [id])
    case MayUse => e.(optionalFor := e.optionalFor + [id])
    case Denies => e.(deniedBy := e.deniedBy + [id])
  }

  type Index = map<string, Entry>

  type Groups = map<string, seq<string>>

  /** What the graph shows of one service. */
  datatype Node = Node(id: string, displayName: string, manifest: string, authority: string, owner: string,
                       required: seq<string>, optional: seq<string>, denied: seq<string>, emitsEvents: bool,
                       incidentBundle: bool)

  function NodeOf(): Service -> Node {
    (s: Service) => Node(s.id, s.displayName, s.manifest, s.authority, OwnerKey(s), SortedSet(CapabilitySet(s, Requires)),
                         SortedSet(CapabilitySet(s, MayUse)), SortedSet(CapabilitySet(s, Denies)), s.emitsEvents,
                         s.incidentBundle)
  }

  datatype Graph = Graph(count: nat, nodes: seq<Node>, authorities: Groups, owners: Groups, capabilities: Index)

  /** A defaultdict answers for absent keys too. */
  function EntryOf(index: Index, c: string): Entry {
    if c in index then index[c] else Entry([], [], [])
  }

  function GroupOf(groups: Groups, key: string): seq<string> {
    if key in groups then groups[key] else []
  }

  // ---------- the specification ----------

  /** The ids of the services with a property, in the order of the list. */
  function Ids(services: seq<Service>, p: Service -> bool): seq<string> {
    if services == [] then []
    else
      var last := services[|services| - 1];
      Ids(services[..|services| - 1], p) + if p(last) then [last.id] else []
  }

  function UsesIt(u: Use, c: string): Service -> bool {
    (s: Service) => c in CapabilitySet(s, u)
  }

  function HasAuthority(key: string): Service -> bool {
    (s: Service) => s.authority == key
  }

  function HasOwner(key: string): Service -> bool {
    (s: Service) => OwnerKey(s) == key
  }

  function AllIds(services: seq<Service>): seq<string> {
    Ids(services, (s: Service) => true)
  }

  lemma IdsStep(services: seq<Service>, s: Service, p: Service -> bool)
    ensures Ids(services + [s], p) == Ids(services, p) + if p(s) then [s.id] else []
  {
    assert (services + [s])[..|services|] == services;
  }

  lemma CapabilitiesStep(services: seq<Service>, s: Service)
    ensures AllCapabilities(services + [s])
            == AllCapabilities(services) + CapabilitySet(s, Requires) + CapabilitySet(s, MayUse) + CapabilitySet(s, Denies)
  {
    var all := AllCapabilities(services + [s]);
    assert forall x :: x in services + [s] <==> x in services || x == s;
    forall c | c in CapabilitySet(s, Requires) + CapabilitySet(s, MayUse) + CapabilitySet(s, Denies) ensures c in all {
      assert c in Listed(s, Requires) || c in Listed(s, MayUse) || c in Listed(s, Denies);
    }
  }

  /** The index built from a list of services, before sorting. */
  ghost predicate Indexes(index: Index, services: seq<Service>) {
    && index.Keys == AllCapabilities(services)
    && forall c, u :: Users(EntryOf(index, c), u) == Ids(services, UsesIt(u, c))
  }

  ghost predicate Collects(groups: Groups, services: seq<Service>, key: Service -> string, has: string -> Service -> bool) {
    && groups.Keys == (set s | s in services :: key(s))
    && forall k :: GroupOf(groups, k) == Ids(services, has(k))
  }

  function AuthorityOf(): Service -> string {
    (s: Service) => s.authority
  }

  function OwnerOf(): Service -> string {
    (s: Service) => OwnerKey(s)
  }

  // ---------- the loops ----------

  /** `for cap in caps[use]: index[cap][use].append(id)`, in whatever order the set is walked. */
  method AppendAll(index: Index, caps: set<string>, u: Use, id: string) returns (r: Index)
    ensures r.Keys == index.Keys + caps
    ensures forall c, v :: Users(EntryOf(r, c), v) ==
                           if c in caps && v == u then Users(EntryOf(index, c), v) + [id] else Users(EntryOf(index, c), v)
  {
    r := index;
    var todo := caps;
    while todo != {}
      invariant todo <= caps
      invariant r.Keys == index.Keys + (caps - todo)
      invariant forall c :: EntryOf(r, c) ==
                            if c in caps - todo then Appended(EntryOf(index, c), u, id) else EntryOf(index, c)
      decreases todo
    {
      var c :| c in todo;
      r := r[c := Appended(EntryOf(r, c), u, id)];
      todo := todo - {c};
    }
  }

  method IndexOne(index: Index, s: Service, ghost before: seq<Service>) returns (r: Index)
    requires Indexes(index, before)
    ensures Indexes(r, before + [s])
  {
    var a := AppendAll(index, CapabilitySet(s, Requires), Requires, s.id);
    var b := AppendAll(a, CapabilitySet(s, MayUse), MayUse, s.id);
    r := AppendAll(b, CapabilitySet(s, Denies), Denies, s.id);
    CapabilitiesStep(before, s);
    forall c, u ensures Users(EntryOf(r, c), u) == Ids(before + [s], UsesIt(u, c)) {
      IdsStep(before, s, UsesIt(u, c));
      ghost var grown := Users(EntryOf(index, c), u) + if c in CapabilitySet(s, u) then [s.id] else [];
      match u
      case Requires => assert Users(EntryOf(a, c), Requires) == grown;
      case MayUse => assert Users(EntryOf(a, c), MayUse) == Users(EntryOf(index, c), MayUse);
      case Denies => assert Users(EntryOf(a, c), Denies) == Users(EntryOf(index, c), Denies);
    }
  }

  method CollectOne(groups: Groups, k: string, id: string, ghost before: seq<Service>, ghost s: Service,
                    ghost key: Service -> string, ghost has: string -> Service -> bool)
    returns (r: Groups)
    requires Collects(groups, before, key, has)
    requires k == key(s) && id == s.id && forall j :: has(j)(s) <==> j == k
    ensures Collects(r, before + [s], key, has)
  {
    hide Ids;
    r := groups[k := GroupOf(groups, k) + [id]];
    assert forall x :: x in before + [s] <==> x in before || x == s;
    forall j ensures GroupOf(r, j) == Ids(before + [s], has(j)) {
      IdsStep(before, s, has(j));
    }
  }

  function SortedEntry(e: Entry): Entry {
    Entry(Sort(e.requiredBy), Sort(e.optionalFor), Sort(e.deniedBy))
  }

  function SortedIndex(index: Index): Index {
    map c | c in index :: SortedEntry(index[c])
  }

  function SortedGroups(groups: Groups): Groups {
    map k | k in groups :: Sort(groups[k])
  }

  ghost predicate IndexDescribes(index: Index, services: seq<Service>) {
    && index.Keys == AllCapabilities(services)
    && forall c, u :: c in index ==> Users(index[c], u) == Sort(Ids(services, UsesIt(u, c)))
  }

  ghost predicate GroupsDescribe(groups: Groups, services: seq<Service>, key: Service -> string, has: string -> Service -> bool) {
    && groups.Keys == (set s | s in services :: key(s))
    && forall k :: k in groups ==> groups[k] == Sort(Ids(services, has(k)))
  }

  /** One node per service in the order of the list, and under each capability, group and use exactly the right ids,
      sorted, with nothing left out or repeated. */
  ghost predicate Describes(g: Graph, services: seq<Service>) {
    && g.count == |services| && g.nodes == Mapped(services, NodeOf())
    && IndexDescribes(g.capabilities, services)
    && GroupsDescribe(g.authorities, services, AuthorityOf(), HasAuthority)
    && GroupsDescribe(g.owners, services, OwnerOf(), HasOwner)
  }

  lemma NothingIndexed()
    ensures Indexes(map[], [])
  {
  }

  method GraphSummary(services: seq<Service>) returns (g: Graph)
    ensures Describes(g, services)
  {
    hide NodeOf, Users, CapabilitySet, OwnerKey, SortedIndex, SortedGroups, IndexDescribes, GroupsDescribe;
    var index: Index := map[];
    var authorities: Groups := map[];
    var owners: Groups := map[];
    var nodes: seq<Node> := [];
    NothingIndexed();
    assert services[..0] == [];
    for i := 0 to |services|
      invariant Indexes(index, services[..i]) && nodes == Mapped(services[..i], NodeOf())
      invariant Collects(authorities, services[..i], AuthorityOf(), HasAuthority)
      invariant Collects(owners, services[..i], OwnerOf(), HasOwner)
    {
      var s := services[i];
      assert services[..i + 1] == services[..i] + [s];
      authorities := CollectOne(authorities, s.authority, s.id, services[..i], s, AuthorityOf(), HasAuthority);
      owners := CollectOne(owners, OwnerKey(s), s.id, services[..i], s, OwnerOf(), HasOwner);
      MappedNext(services, NodeOf(), i);
      nodes := nodes + [NodeOf()(s)];
      index := IndexOne(index, s, services[..i]);
    }
    assert services[..|services|] == services;
    g := Graph(|services|, nodes, SortedGroups(authorities), SortedGroups(owners), SortedIndex(index));
    SortedIndexDescribes(services, index);
    SortedGroupsDescribe(services, authorities, AuthorityOf(), HasAuthority);
    SortedGroupsDescribe(services, owners, OwnerOf(), HasOwner);
  }

  lemma SortedIndexDescribes(services: seq<Service>, index: Index)
    requires Indexes(index, services)
    ensures IndexDescribes(SortedIndex(index), services)
  {
    forall c, u | c in index ensures Users(SortedEntry(index[c]), u) == Sort(Ids(services, UsesIt(u, c))) {
      assert Users(EntryOf(index, c), u) == Ids(services, UsesIt(u, c));
    }
  }

  lemma SortedGroupsDescribe(services: seq<Service>, groups: Groups, key: Service -> string, has: string -> Service -> bool)
    requires Collects(groups, services, key, has)
    ensures GroupsDescribe(SortedGroups(groups), services, key, has)
  {
    forall k | k in groups ensures SortedGroups(groups)[k] == Sort(Ids(services, has(k))) {
      assert GroupOf(groups, k) == Ids(services, has(k));
    }
  }

  // ---------- what the index means ----------

  /** A service with the property and this id. */
  function Named(p: Service -> bool, id: string): Service -> bool {
    (s: Service) => p(s) && s.id == id
  }

  lemma {:induction false} IdsMembers(services: seq<Service>, p: Service -> bool, id: string)
    ensures id in Ids(services, p) <==> exists s :: s in services && p(s) && s.id == id
  {
    if services != [] {
      var front, last := services[..|services| - 1], services[|services| - 1];
      assert services == front + [last];
      IdsMembers(front, p, id);
    }
  }

  lemma {:induction false} IdsMultiplicity(services: seq<Service>, p: Service -> bool, id: string)
    ensures multiset(Ids(services, p))[id] == CountIf(services, Named(p, id))
  {
    if services != [] {
      IdsMultiplicity(services[..|services| - 1], p, id);
    }
  }

  /** A service is listed under a capability exactly when it names that capability for that use, as many times as
      there are services with its id that do; the list is sorted. */
  lemma IndexInverts(g: Graph, services: seq<Service>, c: string, u: Use, id: string)
    requires Describes(g, services) && c in g.capabilities
    ensures id in Users(g.capabilities[c], u) <==> exists s :: s in services && c in Listed(s, u) && s.id == id
    ensures Sorted(Users(g.capabilities[c], u))
    ensures multiset(Users(g.capabilities[c], u))[id] == CountIf(services, Named(UsesIt(u, c), id))
  {
    IdsMembers(services, UsesIt(u, c), id);
    IdsMultiplicity(services, UsesIt(u, c), id);
    var ids := Ids(services, UsesIt(u, c));
    SortFacts(ids);
    assert id in Sort(ids) <==> id in multiset(Sort(ids));
    assert id in ids <==> id in multiset(ids);
  }

  /** How many services of the group named `k` have this id. */
  function InGroup(services: seq<Service>, has: string -> Service -> bool, id: string): string -> nat {
    k => CountIf(services, Named(has(k), id))
  }

  /** Grouping by any key is a partition. */
  lemma {:induction false} GroupingPartitions(services: seq<Service>, keys: set<string>, key: Service -> string,
                                             has: string -> Service -> bool, id: string)
    requires forall s :: s in services ==> key(s) in keys
    requires forall s, k :: has(k)(s) <==> key(s) == k
    ensures SumOver(keys, InGroup(services, has, id)) == CountIf(services, Named((s: Service) => true, id))
  {
    if services == [] {
      SumZero(keys, InGroup(services, has, id));
    } else {
      var front, last := services[..|services| - 1], services[|services| - 1];
      assert last in services;
      GroupingPartitions(front, keys, key, has, id);
      var delta := if last.id == id then 1 else 0;
      forall k ensures InGroup(services, has, id)(k) == InGroup(front, has, id)(k) + if k == key(last) then delta else 0 {
        CountLast(services, Named(has(k), id));
      }
      assert keys + {key(last)} == keys;
      SumRaise(keys, InGroup(front, has, id), InGroup(services, has, id), key(last), delta);
    }
  }

  lemma {:induction false} SumZero<K>(keys: set<K>, f: K -> nat)
    requires forall k :: k in keys ==> f(k) == 0
    ensures SumOver(keys, f) == 0
    decreases keys
  {
    if keys != {} {
      var k :| k in keys;
      SumTake(keys, f, k);
      SumZero(keys - {k}, f);
    }
  }

  /** How often an id occurs in the group under `k`. */
  function Multiplicity(groups: Groups, id: string): string -> nat {
    k => multiset(GroupOf(groups, k))[id]
  }

  lemma GroupMultiplicity(groups: Groups, services: seq<Service>, has: string -> Service -> bool, id: string, k: string)
    requires k in groups && groups[k] == Sort(Ids(services, has(k)))
    ensures Multiplicity(groups, id)(k) == InGroup(services, has, id)(k)
  {
    SortFacts(Ids(services, has(k)));
    IdsMultiplicity(services, has(k), id);
  }

  lemma GroupsSum(groups: Groups, services: seq<Service>, key: Service -> string, has: string -> Service -> bool, id: string)
    requires GroupsDescribe(groups, services, key, has)
    requires forall s, k :: has(k)(s) <==> key(s) == k
    ensures SumOver(groups.Keys, Multiplicity(groups, id)) == multiset(AllIds(services))[id]
  {
    forall k | k in groups.Keys ensures Multiplicity(groups, id)(k) == InGroup(services, has, id)(k) {
      GroupMultiplicity(groups, services, has, id, k);
    }
    SumCongruent(groups.Keys, Multiplicity(groups, id), InGroup(services, has, id));
    GroupingPartitions(services, groups.Keys, key, has, id);
    IdsMultiplicity(services, (s: Service) => true, id);
  }

  /** The authority-domain groups partition the services, and so do the owner groups: over all groups each id
      occurs exactly as often as among the services. */
  lemma GroupsPartition(g: Graph, services: seq<Service>, id: string)
    requires Describes(g, services)
    ensures SumOver(g.authorities.Keys, Multiplicity(g.authorities, id)) == multiset(AllIds(services))[id]
    ensures SumOver(g.owners.Keys, Multiplicity(g.owners, id)) == multiset(AllIds(services))[id]
  {
    GroupsSum(g.authorities, services, AuthorityOf(), HasAuthority, id);
    GroupsSum(g.owners, services, OwnerOf(), HasOwner, id);
  }

  // ---------- the order of the services ----------

  lemma SortedIdsPermuted(services: seq<Service>, others: seq<Service>, p: Service -> bool)
    requires multiset(services) == multiset(others)
    ensures Sort(Ids(services, p)) == Sort(Ids(others, p))
  {
    var a, b := Ids(services, p), Ids(others, p);
    forall id ensures multiset(a)[id] == multiset(b)[id] {
      IdsMultiplicity(services, p, id);
      IdsMultiplicity(others, p, id);
      CountPermuted(services, others, Named(p, id));
    }
    SortFacts(a);
    SortFacts(b);
    SortedUnique(Sort(a), Sort(b));
  }

  lemma SameServices(services: seq<Service>, others: seq<Service>)
    requires multiset(services) == multiset(others)
    ensures forall s :: s in services <==> s in others
  {
    forall s ensures s in services <==> s in others {
      assert s in services <==> s in multiset(services);
      assert s in others <==> s in multiset(others);
    }
  }

  lemma SameCapabilities(services: seq<Service>, others: seq<Service>)
    requires forall s :: s in services <==> s in others
    ensures AllCapabilities(services) == AllCapabilities(others)
  {
  }

  lemma SameKeys(services: seq<Service>, others: seq<Service>, key: Service -> string)
    requires forall s :: s in services <==> s in others
    ensures (set s | s in services :: key(s)) == (set s | s in others :: key(s))
  {
  }

  lemma SameUsers(a: Index, b: Index, services: seq<Service>, others: seq<Service>, c: string, u: Use)
    requires multiset(services) == multiset(others) && IndexDescribes(a, services) && IndexDescribes(b, others)
    requires c in a && c in b
    ensures Users(a[c], u) == Users(b[c], u)
  {
    SortedIdsPermuted(services, others, UsesIt(u, c));
  }

  lemma SameEntry(a: Entry, b: Entry)
    requires forall u :: Users(a, u) == Users(b, u)
    ensures a == b
  {
    assert Users(a, Requires) == Users(b, Requires) && Users(a, MayUse) == Users(b, MayUse) && Users(a, Denies) == Users(b, Denies);
  }

  lemma SameIndex(a: Index, b: Index, services: seq<Service>, others: seq<Service>)
    requires multiset(services) == multiset(others) && IndexDescribes(a, services) && IndexDescribes(b, others)
    ensures a == b
  {
    hide Users, AllCapabilities, Ids, Sort;
    SameServices(services, others);
    SameCapabilities(services, others);
    forall c | c in a ensures a[c] == b[c] {
      forall u ensures Users(a[c], u) == Users(b[c], u) {
        SameUsers(a, b, services, others, c, u);
      }
      SameEntry(a[c], b[c]);
    }
  }

  lemma SameGroups(a: Groups, b: Groups, services: seq<Service>, others: seq<Service>, key: Service -> string,
                   has: string -> Service -> bool)
    requires multiset(services) == multiset(others)
    requires GroupsDescribe(a, services, key, has) && GroupsDescribe(b, others, key, has)
    ensures a == b
  {
    hide Ids, Sort;
    KeysOfGroups(a, b, services, others, key, has);
    forall k | k in a ensures a[k] == b[k] {
      SortedIdsPermuted(services, others, has(k));
    }
  }

  lemma KeysOfGroups(a: Groups, b: Groups, services: seq<Service>, others: seq<Service>, key: Service -> string,
                     has: string -> Service -> bool)
    requires multiset(services) == multiset(others)
    requires GroupsDescribe(a, services, key, has) && GroupsDescribe(b, others, key, has)
    ensures a.Keys == b.Keys
  {
    SameServices(services, others);
    SameKeys(services, others, key);
  }

  // ---------- the nodes ----------

  /** Each name once, in order. */
  ghost predicate ListsOnce(list: seq<string>, names: seq<string>) {
    Sorted(list) && Distinct(list) && forall c :: c in list <==> c in names
  }

  lemma SortedSetLists(names: seq<string>, set_: set<string>)
    requires forall c :: c in set_ <==> c in names
    ensures ListsOnce(SortedSet(set_), names)
  {
    SortedSetSorted(set_);
    SortedSetDistinct(set_);
  }

  /** A list with as many members as places repeats nothing. */
  lemma {:induction false} NoRepeats(list: seq<string>, members: set<string>)
    requires |list| == |members| && forall c :: c in list <==> c in members
    ensures Distinct(list)
  {
    forall i, j | 0 <= i < j < |list| ensures list[i] != list[j] {
      if list[i] == list[j] {
        var rest := list[..j] + list[j + 1..];
        forall c | c in members ensures c in rest {
          var n :| 0 <= n < |list| && list[n] == c;
          if n < j { assert rest[n] == c; } else if n > j { assert rest[n - 1] == c; } else { assert rest[i] == c; }
        }
        MembersBounded(rest, members);
      }
    }
  }

  lemma {:induction false} MembersBounded(list: seq<string>, members: set<string>)
    requires forall c :: c in members ==> c in list
    ensures |members| <= |list|
  {
    if list == [] {
      assert members == {};
    } else {
      var last := list[|list| - 1];
      assert list == list[..|list| - 1] + [last];
      MembersBounded(list[..|list| - 1], members - {last});
    }
  }

  lemma SortedSetDistinct(members: set<string>)
    ensures Distinct(SortedSet(members))
  {
    NoRepeats(SortedSet(members), members);
  }

  /** What the i-th node shows of the i-th service: its names and flags, its owner as "org/repo" with "None" for what is
      missing, and under each use exactly the capabilities it names so, each once and in order. */
  lemma NodesShow(g: Graph, services: seq<Service>, i: nat)
    requires Describes(g, services) && i < |services|
    ensures |g.nodes| == |services|
    ensures var n, s := g.nodes[i], services[i];
            && n.id == s.id && n.displayName == s.displayName && n.manifest == s.manifest && n.authority == s.authority
            && n.emitsEvents == s.emitsEvents && n.incidentBundle == s.incidentBundle
            && n.owner == (if s.org.Some? then s.org.value else "None") + "/" + (if s.repo.Some? then s.repo.value else "None")
            && ListsOnce(n.required, s.required) && ListsOnce(n.optional, s.optional) && ListsOnce(n.denied, s.denied)
  {
    hide IndexDescribes, GroupsDescribe, SortedSet, ListsOnce, Mapped;
    MappedAt(services, NodeOf());
    SortedSetLists(services[i].required, CapabilitySet(services[i], Requires));
    SortedSetLists(services[i].optional, CapabilitySet(services[i], MayUse));
    SortedSetLists(services[i].denied, CapabilitySet(services[i], Denies));
  }

  /** The nodes say as much about which services have a property as the services do. */
  lemma {:induction false} IdsAlike(services: seq<Service>, others: seq<Service>, p: Service -> bool)
    requires |services| == |others|
    requires forall i :: 0 <= i < |services| ==> services[i].id == others[i].id && p(services[i]) == p(others[i])
    ensures Ids(services, p) == Ids(others, p)
  {
    if services != [] {
      IdsAlike(services[..|services| - 1], others[..|others| - 1], p);
    }
  }

  lemma NodesAt(services: seq<Service>, others: seq<Service>, i: nat)
    requires Mapped(services, NodeOf()) == Mapped(others, NodeOf()) && i < |services|
    ensures |services| == |others| && NodeOf()(services[i]) == NodeOf()(others[i])
  {
    MappedAt(services, NodeOf());
    MappedAt(others, NodeOf());
  }

  lemma SameNode(s: Service, t: Service)
    requires NodeOf()(s) == NodeOf()(t)
    ensures s.id == t.id && s.manifest == t.manifest && s.authority == t.authority && OwnerKey(s) == OwnerKey(t)
    ensures forall u :: CapabilitySet(s, u) == CapabilitySet(t, u)
  {
    forall u ensures CapabilitySet(s, u) == CapabilitySet(t, u) {
      var a, b := SortedSet(CapabilitySet(s, u)), SortedSet(CapabilitySet(t, u));
      match u case Requires => assert a == b; case MayUse => assert a == b; case Denies => assert a == b;
    }
  }

  lemma NodesMatch(services: seq<Service>, others: seq<Service>)
    requires Mapped(services, NodeOf()) == Mapped(others, NodeOf())
    ensures |services| == |others|
    ensures forall i :: 0 <= i < |services| ==>
              && services[i].id == others[i].id && services[i].manifest == others[i].manifest
              && services[i].authority == others[i].authority && OwnerKey(services[i]) == OwnerKey(others[i])
              && forall u :: CapabilitySet(services[i], u) == CapabilitySet(others[i], u)
  {
    hide NodeOf, CapabilitySet, OwnerKey, Mapped;
    MappedAt(services, NodeOf());
    MappedAt(others, NodeOf());
    forall i | 0 <= i < |services|
      ensures services[i].id == others[i].id && services[i].manifest == others[i].manifest
      ensures services[i].authority == others[i].authority && OwnerKey(services[i]) == OwnerKey(others[i])
      ensures forall u :: CapabilitySet(services[i], u) == CapabilitySet(others[i], u)
    {
      NodesAt(services, others, i);
      SameNode(services[i], others[i]);
    }
  }

  lemma CapabilitiesWithin(services: seq<Service>, others: seq<Service>)
    requires Mapped(services, NodeOf()) == Mapped(others, NodeOf())
    ensures AllCapabilities(services) <= AllCapabilities(others)
  {
    NodesMatch(services, others);
    forall c | c in AllCapabilities(services) ensures c in AllCapabilities(others) {
      var s, u :| s in services && u in {Requires, MayUse, Denies} && c in Listed(s, u);
      var i :| 0 <= i < |services| && services[i] == s;
      assert c in CapabilitySet(s, u) && c in CapabilitySet(others[i], u);
      assert others[i] in others && c in Listed(others[i], u);
    }
  }

  lemma IndexOfNodes(a: Index, b: Index, services: seq<Service>, others: seq<Service>)
    requires IndexDescribes(a, services) && IndexDescribes(b, others)
    requires Mapped(services, NodeOf()) == Mapped(others, NodeOf())
    ensures a == b
  {
    hide Users, AllCapabilities, Ids, Sort, NodeOf, CapabilitySet;
    CapabilitiesWithin(services, others);
    CapabilitiesWithin(others, services);
    forall c | c in a ensures a[c] == b[c] {
      forall u ensures Users(a[c], u) == Users(b[c], u) {
        UsersAlike(services, others, c, u);
      }
      SameEntry(a[c], b[c]);
    }
  }

  lemma UsersAlike(services: seq<Service>, others: seq<Service>, c: string, u: Use)
    requires Mapped(services, NodeOf()) == Mapped(others, NodeOf())
    ensures Ids(services, UsesIt(u, c)) == Ids(others, UsesIt(u, c))
  {
    NodesMatch(services, others);
    IdsAlike(services, others, UsesIt(u, c));
  }

  lemma GroupsOfNodes(a: Groups, b: Groups, services: seq<Service>, others: seq<Service>, key: Service -> string,
                      has: string -> Service -> bool)
    requires GroupsDescribe(a, services, key, has) && GroupsDescribe(b, others, key, has)
    requires |services| == |others|
    requires forall i :: 0 <= i < |services| ==> services[i].id == others[i].id && key(services[i]) == key(others[i])
    requires forall s, k :: has(k)(s) <==> key(s) == k
    ensures a == b
  {
    hide Sort, Ids;
    forall k | k in a ensures k in b {
      var s :| s in services && key(s) == k;
      var i :| 0 <= i < |services| && services[i] == s;
      assert others[i] in others;
    }
    forall k | k in b ensures k in a {
      var s :| s in others && key(s) == k;
      var i :| 0 <= i < |others| && others[i] == s;
      assert services[i] in services;
    }
    forall k | k in a ensures a[k] == b[k] {
      IdsAlike(services, others, has(k));
    }
  }

  /** The node list says everything: two graphs are equal exactly when their node lists are, so the index and the
      groupings hold nothing that the nodes do not. */
  lemma NodesDetermineTheGraph(g: Graph, other: Graph, services: seq<Service>, others: seq<Service>)
    requires Describes(g, services) && Describes(other, others)
    ensures g == other <==> g.nodes == other.nodes
  {
    if g.nodes == other.nodes {
      NodesMatch(services, others);
      IndexOfNodes(g.capabilities, other.capabilities, services, others);
      GroupsOfNodes(g.authorities, other.authorities, services, others, AuthorityOf(), HasAuthority);
      GroupsOfNodes(g.owners, other.owners, services, others, OwnerOf(), HasOwner);
    }
  }

  /** Each manifest file was loaded once. */
  ghost predicate DistinctManifests(services: seq<Service>) {
    forall i, j :: 0 <= i < j < |services| ==> services[i].manifest != services[j].manifest
  }

  lemma ManifestsMatch(services: seq<Service>, others: seq<Service>)
    requires Mapped(services, NodeOf()) == Mapped(others, NodeOf())
    ensures |services| == |others|
    ensures forall i :: 0 <= i < |services| ==> services[i].manifest == others[i].manifest
  {
    hide Mapped, NodeOf, CapabilitySet, OwnerKey;
    NodesMatch(services, others);
  }

  lemma OneManifest(services: seq<Service>, i: nat, j: nat)
    requires DistinctManifests(services) && i < |services| && j < |services| && services[i].manifest == services[j].manifest
    ensures i == j
  {
  }

  lemma ManifestTells(services: seq<Service>, others: seq<Service>)
    requires multiset(services) == multiset(others) && DistinctManifests(services)
    requires Mapped(services, NodeOf()) == Mapped(others, NodeOf())
    ensures services == others
  {
    hide *;
    ManifestsMatch(services, others);
    SameServices(services, others);
    forall i | 0 <= i < |services| ensures services[i] == others[i] {
      assert others[i] in others;
      var j :| 0 <= j < |services| && services[j] == others[i];
      OneManifest(services, i, j);
    }
  }

  /** The counts, the index and the groupings do not depend on the order in which the services are listed, duplicates and
      shared ids included. The node list follows that order: it is permuted with the services and, when no manifest was
      loaded twice, any other order gives another graph. */
  lemma OrderShowsInNodesOnly(g: Graph, other: Graph, services: seq<Service>, others: seq<Service>)
    requires multiset(services) == multiset(others) && Describes(g, services) && Describes(other, others)
    ensures g.count == other.count && g.capabilities == other.capabilities
    ensures g.authorities == other.authorities && g.owners == other.owners
    ensures multiset(g.nodes) == multiset(other.nodes)
    ensures DistinctManifests(services) ==> (g == other <==> services == others)
  {
    assert |services| == |multiset(services)| == |others|;
    SameIndex(g.capabilities, other.capabilities, services, others);
    SameGroups(g.authorities, other.authorities, services, others, AuthorityOf(), HasAuthority);
    SameGroups(g.owners, other.owners, services, others, OwnerOf(), HasOwner);
    MappedPermuted(services, others, NodeOf());
    if DistinctManifests(services) && g.nodes == other.nodes {
      ManifestTells(services, others);
    }
  }
}
