/** The recursive schema checker (tools/validate_orggov_state_integrity_binding.py). */
module Schemas {
  import opened Text
  import opened Json

  /** The keywords the checker reads; an absent keyword is `None` or empty. */
  datatype Schema = Schema(const_: Option<Json>, enum: Option<seq<Json>>, types: Option<seq<string>>, required: seq<string>,
                           properties: map<string, Schema>, additional: Additional, items: Option<Schema>)

  datatype Additional = Anything | Forbidden | Also(schema: Schema)

  // ---------- equality ----------

  /** Python's `==` sees True as 1 and False as 0, and an integer as the float of the same value. */
  function PythonForm(j: Json): Json {
    match j
    case Bool(b) => Num(if b then 1.0 else 0.0)
    case Int(n) => Num(n as real)
    case Arr(items) => Arr(seq(|items|, i requires 0 <= i < |items| => PythonForm(items[i])))
    case Obj(fields) => Obj(map k | k in fields :: PythonForm(fields[k]))
    case _ => j
  }

  predicate PythonEqual(a: Json, b: Json) {
    PythonForm(a) == PythonForm(b)
  }

  /** Equality of JSON Schema: numbers by value, booleans apart from numbers (Core section 4.2.2). */
  function StandardForm(j: Json): Json {
    match j
    case Int(n) => Num(n as real)
    case Arr(items) => Arr(seq(|items|, i requires 0 <= i < |items| => StandardForm(items[i])))
    case Obj(fields) => Obj(map k | k in fields :: StandardForm(fields[k]))
    case _ => j
  }

  predicate StandardEqual(a: Json, b: Json) {
    StandardForm(a) == StandardForm(b)
  }


  // ---------- the checker ----------

  function TypeName(v: Json): string {
    match v
    case Null => "null"
    case Bool(_) => "boolean"
    case Int(_) => "integer"
    case Num(_) => "number"
    case Str(_) => "string"
    case Arr(_) => "array"
    case Obj(_) => "object"
  }

  predicate TypeMatches(v: Json, expected: string) {
    if expected == "number" then TypeName(v) in {"integer", "number"} else TypeName(v) == expected
  }

  datatype Keyword = Const | Enum | Type | Required | AdditionalProperties

  datatype Segment = Key(key: string) | At(index: nat)

  /** The ValidationError: where it was raised and by which keyword. */
  datatype Failure = Failure(path: seq<Segment>, keyword: Keyword)

  /** The schema that applies to a property of this name, if any does. */
  function Child(s: Schema, key: string): Option<Schema> {
    if key in s.properties then Some(s.properties[key])
    else if s.additional.Also? then Some(s.additional.schema)
    else None
  }

  /** The checks that look at the value itself, in the order in which they are made. */
  function OwnFailure(s: Schema, v: Json): Option<Keyword> {
    if s.const_.Some? && !PythonEqual(v, s.const_.value) then Some(Const)
    else if s.enum.Some? && !(exists e :: e in s.enum.value && PythonEqual(v, e)) then Some(Enum)
    else if s.types.Some? && !(exists t :: t in s.types.value && TypeMatches(v, t)) then Some(Type)
    else if v.Obj? && (exists k :: k in s.required && k !in v.fields) then Some(Required)
    else if v.Obj? && s.additional.Forbidden? && (exists k :: k in v.fields && k !in s.properties) then Some(AdditionalProperties)
    else None
  }

  function Below(segment: Segment, f: Option<Failure>): Option<Failure> {
    if f.None? then None else Some(Failure([segment] + f.value.path, f.value.keyword))
  }

  /** `None` accepts the value. */
  function Validate(s: Schema, v: Json): Option<Failure>
    decreases v, 1, 0
  {
    var own := OwnFailure(s, v);
    if own.Some? then Some(Failure([], own.value))
    else if v.Obj? then ValidateFields(s, v, SortedSet(v.fields.Keys))
    else if v.Arr? && s.items.Some? then ValidateItems(s.items.value, v, 0)
    else None
  }

  function ValidateFields(s: Schema, v: Json, keys: seq<string>): Option<Failure>
    requires v.Obj? && forall k :: k in keys ==> k in v.fields
    decreases v, 0, |keys|
  {
    if keys == [] then None
    else
      var k := keys[0];
      var child := Child(s, k);
      var f := if child.Some? then Below(Key(k), Validate(child.value, v.fields[k])) else None;
      if f.Some? then f else ValidateFields(s, v, keys[1..])
  }

  function ValidateItems(s: Schema, v: Json, i: nat): Option<Failure>
    requires v.Arr? && i <= |v.items|
    decreases v, 0, |v.items| - i
  {
    if i == |v.items| then None
    else
      var f := Below(At(i), Validate(s, v.items[i]));
      if f.Some? then f else ValidateItems(s, v, i + 1)
  }

  // ---------- the declarative meaning ----------

  predicate WholeFloat(v: Json) {
    v.Num? && v.x.Floor as real == v.x
  }

  /** The seven types by the values they stand for; any other name stands for none. `whole` says whether a number without
      a fractional part is an integer however it is written, as in JSON Schema (Validation section 6.1.1). */
  predicate Denotes(v: Json, name: string, whole: bool) {
    || (name == "null" && v.Null?)
    || (name == "boolean" && v.Bool?)
    || (name == "integer" && (v.Int? || (whole && WholeFloat(v))))
    || (name == "number" && (v.Int? || v.Num?))
    || (name == "string" && v.Str?)
    || (name == "array" && v.Arr?)
    || (name == "object" && v.Obj?)
  }

  /** The number a value is taken for. `lenient` takes True for 1 and False for 0 as well. */
  function NumberIn(j: Json, lenient: bool): Option<real> {
    match j
    case Bool(b) => if lenient then Some(if b then 1.0 else 0.0) else None
    case Int(n) => Some(n as real)
    case Num(x) => Some(x)
    case _ => None
  }

  /** Equality by structure: numbers by value, lists item by item, objects key by key, anything else only with itself. */
  predicate Same(a: Json, b: Json, lenient: bool) {
    if NumberIn(a, lenient).Some? || NumberIn(b, lenient).Some? then NumberIn(a, lenient) == NumberIn(b, lenient)
    else match (a, b)
      case (Null, Null) => true
      case (Bool(x), Bool(y)) => x == y
      case (Str(x), Str(y)) => x == y
      case (Arr(x), Arr(y)) => |x| == |y| && forall i :: 0 <= i < |x| ==> Same(x[i], y[i], lenient)
      case (Obj(x), Obj(y)) => x.Keys == y.Keys && forall k :: k in x ==> Same(x[k], y[k], lenient)
      case _ => false
  }

  /** What "equal" and "of this type" are taken to mean. */
  datatype Sense = Sense(equal: (Json, Json) -> bool, ofType: (Json, string) -> bool)

  /** Python's sense, and that of JSON Schema. */
  const Python := Sense((a: Json, b: Json) => Same(a, b, true), (v: Json, name: string) => Denotes(v, name, false))
  const Standard := Sense((a: Json, b: Json) => Same(a, b, false), (v: Json, name: string) => Denotes(v, name, true))

  /** The checker's type test, for every value and every name. */
  lemma TypesExactly(v: Json, name: string)
    ensures TypeMatches(v, name) <==> Denotes(v, name, false)
  {
  }

  /** Its comparison by normal forms is equality by structure. */
  lemma {:induction false} PythonEqualExactly(a: Json, b: Json)
    ensures PythonEqual(a, b) <==> Same(a, b, true)
    decreases a
  {
    if a.Arr? && b.Arr? && |a.items| == |b.items| {
      forall i | 0 <= i < |a.items| ensures PythonEqual(a.items[i], b.items[i]) <==> Same(a.items[i], b.items[i], true) {
        PythonEqualExactly(a.items[i], b.items[i]);
      }
      FormItems(a, b);
    } else if a.Obj? && b.Obj? && a.fields.Keys == b.fields.Keys {
      forall k | k in a.fields ensures PythonEqual(a.fields[k], b.fields[k]) <==> Same(a.fields[k], b.fields[k], true) {
        PythonEqualExactly(a.fields[k], b.fields[k]);
      }
      FormFields(a, b);
    } else if a.Arr? && b.Arr? {
      assert |PythonForm(a).items| == |a.items| && |PythonForm(b).items| == |b.items|;
    } else if a.Obj? && b.Obj? {
      assert PythonForm(a).fields.Keys == a.fields.Keys && PythonForm(b).fields.Keys == b.fields.Keys;
    }
  }

  lemma {:induction false} FormItems(a: Json, b: Json)
    requires a.Arr? && b.Arr? && |a.items| == |b.items|
    ensures PythonEqual(a, b) <==> forall i :: 0 <= i < |a.items| ==> PythonEqual(a.items[i], b.items[i])
    ensures StandardEqual(a, b) <==> forall i :: 0 <= i < |a.items| ==> StandardEqual(a.items[i], b.items[i])
  {
    var pa, pb, sa, sb := PythonForm(a).items, PythonForm(b).items, StandardForm(a).items, StandardForm(b).items;
    assert |pa| == |pb| == |sa| == |sb| == |a.items|;
    assert forall i :: 0 <= i < |a.items| ==> pa[i] == PythonForm(a.items[i]) && pb[i] == PythonForm(b.items[i]);
    assert forall i :: 0 <= i < |a.items| ==> sa[i] == StandardForm(a.items[i]) && sb[i] == StandardForm(b.items[i]);
  }

  lemma {:induction false} FormFields(a: Json, b: Json)
    requires a.Obj? && b.Obj? && a.fields.Keys == b.fields.Keys
    ensures PythonEqual(a, b) <==> forall k :: k in a.fields ==> PythonEqual(a.fields[k], b.fields[k])
  {
    var pa, pb := PythonForm(a).fields, PythonForm(b).fields;
    assert pa.Keys == pb.Keys == a.fields.Keys;
    assert forall k :: k in a.fields ==> pa[k] == PythonForm(a.fields[k]) && pb[k] == PythonForm(b.fields[k]);
  }

  lemma {:induction false} StandardFields(a: Json, b: Json)
    requires a.Obj? && b.Obj? && a.fields.Keys == b.fields.Keys
    ensures StandardEqual(a, b) <==> forall k :: k in a.fields ==> StandardEqual(a.fields[k], b.fields[k])
  {
    var sa, sb := StandardForm(a).fields, StandardForm(b).fields;
    assert sa.Keys == sb.Keys == a.fields.Keys;
    assert forall k :: k in a.fields ==> sa[k] == StandardForm(a.fields[k]) && sb[k] == StandardForm(b.fields[k]);
  }

  /** So is the standard's. */
  lemma {:induction false} StandardEqualExactly(a: Json, b: Json)
    ensures StandardEqual(a, b) <==> Same(a, b, false)
    decreases a
  {
    if a.Arr? && b.Arr? && |a.items| == |b.items| {
      forall i | 0 <= i < |a.items| ensures StandardEqual(a.items[i], b.items[i]) <==> Same(a.items[i], b.items[i], false) {
        StandardEqualExactly(a.items[i], b.items[i]);
      }
      FormItems(a, b);
    } else if a.Obj? && b.Obj? && a.fields.Keys == b.fields.Keys {
      forall k | k in a.fields ensures StandardEqual(a.fields[k], b.fields[k]) <==> Same(a.fields[k], b.fields[k], false) {
        StandardEqualExactly(a.fields[k], b.fields[k]);
      }
      StandardFields(a, b);
    } else if a.Arr? && b.Arr? {
      assert |StandardForm(a).items| == |a.items| && |StandardForm(b).items| == |b.items|;
    } else if a.Obj? && b.Obj? {
      assert StandardForm(a).fields.Keys == a.fields.Keys && StandardForm(b).fields.Keys == b.fields.Keys;
    }
  }

  /** The subschema and subvalue a path leads to, when a subschema applies all the way down. */
  function Locate(s: Schema, v: Json, path: seq<Segment>): Option<(Schema, Json)>
    decreases path
  {
    if path == [] then Some((s, v))
    else match path[0]
      case Key(k) =>
        if !v.Obj? || k !in v.fields then None
        else if k in s.properties then Locate(s.properties[k], v.fields[k], path[1..])
        else if s.additional.Also? then Locate(s.additional.schema, v.fields[k], path[1..])
        else None
      case At(i) =>
        if v.Arr? && i < |v.items| && s.items.Some? then Locate(s.items.value, v.items[i], path[1..]) else None
  }

  /** One keyword of one schema, broken by one value. */
  ghost predicate Breaks(sense: Sense, s: Schema, v: Json, keyword: Keyword) {
    match keyword
    case Const => s.const_.Some? && !sense.equal(v, s.const_.value)
    case Enum => s.enum.Some? && forall e :: e in s.enum.value ==> !sense.equal(v, e)
    case Type => s.types.Some? && forall t :: t in s.types.value ==> !sense.ofType(v, t)
    case Required => v.Obj? && exists k :: k in s.required && k !in v.fields
    case AdditionalProperties => v.Obj? && s.additional.Forbidden? && exists k :: k in v.fields && k !in s.properties
  }

  /** No applicable subschema anywhere in the value has a broken keyword. */
  ghost predicate Satisfies(sense: Sense, s: Schema, v: Json) {
    forall path, keyword :: Locate(s, v, path).Some? ==>
      !Breaks(sense, Locate(s, v, path).value.0, Locate(s, v, path).value.1, keyword)
  }

  /** The order in which the keywords are checked at one place. */
  function Turn(keyword: Keyword): nat {
    match keyword case Const => 0 case Enum => 1 case Type => 2 case Required => 3 case AdditionalProperties => 4
  }

  /** The first keyword, in their order, that the value breaks. */
  ghost predicate BreaksFirst(s: Schema, v: Json, keyword: Keyword) {
    Breaks(Python, s, v, keyword) && forall other :: Turn(other) < Turn(keyword) ==> !Breaks(Python, s, v, other)
  }

  lemma OwnFailureBreaks(s: Schema, v: Json)
    ensures OwnFailure(s, v).Some? ==> BreaksFirst(s, v, OwnFailure(s, v).value)
    ensures OwnFailure(s, v).None? ==> forall keyword :: !Breaks(Python, s, v, keyword)
  {
    hide PythonEqual, Same, TypeMatches, Denotes;
    OwnChecks(s, v);
    forall keyword ensures Breaks(Python, s, v, keyword) <==>
      (match keyword
       case Const => s.const_.Some? && !PythonEqual(v, s.const_.value)
       case Enum => s.enum.Some? && !(exists e :: e in s.enum.value && PythonEqual(v, e))
       case Type => s.types.Some? && !(exists t :: t in s.types.value && TypeMatches(v, t))
       case Required => v.Obj? && (exists k :: k in s.required && k !in v.fields)
       case AdditionalProperties => v.Obj? && s.additional.Forbidden? && (exists k :: k in v.fields && k !in s.properties))
    {
    }
  }

  /** The first three keywords as the checker tests them. */
  lemma OwnChecks(s: Schema, v: Json)
    ensures Breaks(Python, s, v, Const) <==> s.const_.Some? && !PythonEqual(v, s.const_.value)
    ensures Breaks(Python, s, v, Enum) <==> s.enum.Some? && !(exists e :: e in s.enum.value && PythonEqual(v, e))
    ensures Breaks(Python, s, v, Type) <==> s.types.Some? && !(exists t :: t in s.types.value && TypeMatches(v, t))
  {
    hide PythonEqual, Same, TypeMatches, Denotes;
    forall j ensures PythonEqual(v, j) <==> Python.equal(v, j) { PythonEqualExactly(v, j); }
    forall t ensures TypeMatches(v, t) <==> Python.ofType(v, t) { TypesExactly(v, t); }
  }

  /** A failure names a place, the first broken keyword there, and nothing is broken on the way to that place. */
  ghost predicate Grounded(s: Schema, v: Json, f: Failure) {
    && Locate(s, v, f.path).Some?
    && BreaksFirst(Locate(s, v, f.path).value.0, Locate(s, v, f.path).value.1, f.keyword)
    && forall n, keyword :: 0 <= n < |f.path| && Locate(s, v, f.path[..n]).Some? ==>
         !Breaks(Python, Locate(s, v, f.path[..n]).value.0, Locate(s, v, f.path[..n]).value.1, keyword)
  }

  lemma GroundedHere(s: Schema, v: Json, keyword: Keyword)
    requires BreaksFirst(s, v, keyword)
    ensures Grounded(s, v, Failure([], keyword))
  {
  }

  /** One step down: where a segment leads, and that nothing new is broken on the way. */
  lemma GroundedBelow(s: Schema, v: Json, segment: Segment, child: Schema, w: Json, f: Failure)
    requires forall keyword :: !Breaks(Python, s, v, keyword)
    requires forall path :: Locate(s, v, [segment] + path) == Locate(child, w, path)
    requires Grounded(child, w, f)
    ensures Grounded(s, v, Failure([segment] + f.path, f.keyword))
  {
    hide Breaks;
    var path := [segment] + f.path;
    forall n, keyword | 0 <= n < |path| && Locate(s, v, path[..n]).Some?
      ensures !Breaks(Python, Locate(s, v, path[..n]).value.0, Locate(s, v, path[..n]).value.1, keyword)
    {
      if n == 0 {
        assert path[..0] == [];
      } else {
        assert path[..n] == [segment] + f.path[..n - 1];
      }
    }
  }

  lemma KeyLeads(s: Schema, v: Json, k: string)
    requires v.Obj? && k in v.fields && Child(s, k).Some?
    ensures forall path :: Locate(s, v, [Key(k)] + path) == Locate(Child(s, k).value, v.fields[k], path)
  {
    forall path ensures Locate(s, v, [Key(k)] + path) == Locate(Child(s, k).value, v.fields[k], path) {
      assert ([Key(k)] + path)[1..] == path;
    }
  }

  lemma IndexLeads(s: Schema, v: Json, i: nat)
    requires v.Arr? && i < |v.items| && s.items.Some?
    ensures forall path :: Locate(s, v, [At(i)] + path) == Locate(s.items.value, v.items[i], path)
  {
    forall path ensures Locate(s, v, [At(i)] + path) == Locate(s.items.value, v.items[i], path) {
      assert ([At(i)] + path)[1..] == path;
    }
  }

  /** A rejection names a path to a subvalue and the first keyword of the subschema there that it breaks; nothing is
      broken above it. */
  lemma {:induction false} RejectionIsGrounded(s: Schema, v: Json)
    requires Validate(s, v).Some?
    ensures Grounded(s, v, Validate(s, v).value)
    decreases v, 1, 0
  {
    hide Breaks, BreaksFirst, Grounded, OwnFailure;
    OwnFailureBreaks(s, v);
    if OwnFailure(s, v).Some? {
      GroundedHere(s, v, OwnFailure(s, v).value);
    } else if v.Obj? {
      FieldRejectionIsGrounded(s, v, SortedSet(v.fields.Keys));
    } else {
      ItemRejectionIsGrounded(s, v, 0);
    }
  }

  lemma {:induction false} FieldRejectionIsGrounded(s: Schema, v: Json, keys: seq<string>)
    requires v.Obj? && forall k :: k in keys ==> k in v.fields
    requires ValidateFields(s, v, keys).Some? && forall keyword :: !Breaks(Python, s, v, keyword)
    ensures Grounded(s, v, ValidateFields(s, v, keys).value)
    decreases v, 0, |keys|
  {
    hide Breaks, Grounded, Child;
    var k := keys[0];
    var child := Child(s, k);
    if child.Some? && Validate(child.value, v.fields[k]).Some? {
      RejectionIsGrounded(child.value, v.fields[k]);
      KeyLeads(s, v, k);
      GroundedBelow(s, v, Key(k), child.value, v.fields[k], Validate(child.value, v.fields[k]).value);
    } else {
      FieldRejectionIsGrounded(s, v, keys[1..]);
    }
  }

  lemma {:induction false} ItemRejectionIsGrounded(s: Schema, v: Json, i: nat)
    requires v.Arr? && i <= |v.items| && s.items.Some?
    requires ValidateItems(s.items.value, v, i).Some? && forall keyword :: !Breaks(Python, s, v, keyword)
    ensures Grounded(s, v, ValidateItems(s.items.value, v, i).value)
    decreases v, 0, |v.items| - i
  {
    hide Breaks, Grounded;
    if Validate(s.items.value, v.items[i]).Some? {
      RejectionIsGrounded(s.items.value, v.items[i]);
      IndexLeads(s, v, i);
      GroundedBelow(s, v, At(i), s.items.value, v.items[i], Validate(s.items.value, v.items[i]).value);
    } else {
      ItemRejectionIsGrounded(s, v, i + 1);
    }
  }

  lemma {:induction false} AcceptedFields(s: Schema, v: Json, keys: seq<string>, k: string)
    requires v.Obj? && (forall j :: j in keys ==> j in v.fields) && k in keys
    requires ValidateFields(s, v, keys).None? && Child(s, k).Some?
    ensures Validate(Child(s, k).value, v.fields[k]).None?
  {
    if k != keys[0] { AcceptedFields(s, v, keys[1..], k); }
  }

  lemma {:induction false} AcceptedItems(s: Schema, v: Json, i: nat, j: nat)
    requires v.Arr? && i <= j < |v.items| && ValidateItems(s, v, i).None?
    ensures Validate(s, v.items[j]).None?
    decreases |v.items| - i
  {
    if i < j { AcceptedItems(s, v, i + 1, j); }
  }

  /** Nothing an accepted value contains breaks a keyword of the schema that applies to it. */
  lemma {:induction false} AcceptanceReachesDown(s: Schema, v: Json, path: seq<Segment>, keyword: Keyword)
    requires Validate(s, v).None? && Locate(s, v, path).Some?
    ensures !Breaks(Python, Locate(s, v, path).value.0, Locate(s, v, path).value.1, keyword)
    decreases path
  {
    OwnFailureBreaks(s, v);
    if path != [] {
      match path[0]
      case Key(k) =>
        AcceptedFields(s, v, SortedSet(v.fields.Keys), k);
        AcceptanceReachesDown(Child(s, k).value, v.fields[k], path[1..], keyword);
      case At(i) =>
        AcceptedItems(s.items.value, v, 0, i);
        AcceptanceReachesDown(s.items.value, v.items[i], path[1..], keyword);
    }
  }

  /** The checker accepts exactly the values that satisfy the schema everywhere, in Python's sense. */
  lemma ValidatesExactly(s: Schema, v: Json)
    ensures Validate(s, v).None? <==> Satisfies(Python, s, v)
  {
    if Validate(s, v).None? {
      forall path, keyword | Locate(s, v, path).Some?
        ensures !Breaks(Python, Locate(s, v, path).value.0, Locate(s, v, path).value.1, keyword)
      {
        AcceptanceReachesDown(s, v, path, keyword);
      }
    } else {
      RejectionIsGrounded(s, v);
    }
  }

  // ---------- Python's equality against JSON's ----------

  /** No boolean and neither of the numbers 0 and 1 anywhere inside. */
  predicate Unambiguous(j: Json) {
    match j
    case Bool(_) => false
    case Int(n) => n != 0 && n != 1
    case Num(x) => x != 0.0 && x != 1.0
    case Arr(items) => forall i :: 0 <= i < |items| ==> Unambiguous(items[i])
    case Obj(fields) => forall k :: k in fields ==> Unambiguous(fields[k])
    case _ => true
  }

  /** At one position of both values a boolean meets the number that Python takes it for. */
  predicate Clash(v: Json, j: Json) {
    match (v, j)
    case (Bool(b), Int(n)) => n == if b then 1 else 0
    case (Bool(b), Num(x)) => x == if b then 1.0 else 0.0
    case (Int(n), Bool(b)) => n == if b then 1 else 0
    case (Num(x), Bool(b)) => x == if b then 1.0 else 0.0
    case (Arr(a), Arr(b)) => |a| == |b| && exists i :: 0 <= i < |a| && Clash(a[i], b[i])
    case (Obj(a), Obj(b)) => a.Keys == b.Keys && exists k :: k in a && Clash(a[k], b[k])
    case _ => false
  }

  /** Two values are equal in JSON exactly when they are equal in Python and no boolean meets a number. */
  lemma {:induction false} EqualUnlessClash(v: Json, j: Json)
    ensures StandardEqual(v, j) <==> PythonEqual(v, j) && !Clash(v, j)
    decreases j
  {
    if v.Arr? && j.Arr? {
      EqualItems(v, j);
    } else if v.Obj? && j.Obj? {
      EqualFields(v, j);
    }
  }

  lemma {:induction false} EqualItems(v: Json, j: Json)
    requires v.Arr? && j.Arr?
    ensures StandardEqual(v, j) <==> PythonEqual(v, j) && !Clash(v, j)
    decreases j, 0
  {
    var pv, pj, sv, sj := PythonForm(v).items, PythonForm(j).items, StandardForm(v).items, StandardForm(j).items;
    assert |pv| == |v.items| == |sv| && |pj| == |j.items| == |sj|;
    if |v.items| == |j.items| {
      forall i | 0 <= i < |j.items| ensures sv[i] == sj[i] <==> pv[i] == pj[i] && !Clash(v.items[i], j.items[i]) {
        EqualUnlessClash(v.items[i], j.items[i]);
      }
    }
    assert sv == sj <==> pv == pj && !Clash(v, j);
  }

  lemma {:induction false} EqualFields(v: Json, j: Json)
    requires v.Obj? && j.Obj?
    ensures StandardEqual(v, j) <==> PythonEqual(v, j) && !Clash(v, j)
    decreases j, 0
  {
    var pv, pj, sv, sj := PythonForm(v).fields, PythonForm(j).fields, StandardForm(v).fields, StandardForm(j).fields;
    assert pv.Keys == v.fields.Keys == sv.Keys && pj.Keys == j.fields.Keys == sj.Keys;
    if v.fields.Keys == j.fields.Keys {
      forall k | k in j.fields ensures sv[k] == sj[k] <==> pv[k] == pj[k] && !Clash(v.fields[k], j.fields[k]) {
        EqualUnlessClash(v.fields[k], j.fields[k]);
      }
    }
    assert sv == sj <==> pv == pj && !Clash(v, j);
  }

  lemma {:induction false} UnambiguousNeverClashes(v: Json, j: Json)
    requires Unambiguous(j)
    ensures !Clash(v, j)
    decreases j
  {
    if v.Arr? && j.Arr? && |v.items| == |j.items| {
      forall i | 0 <= i < |j.items| ensures !Clash(v.items[i], j.items[i]) {
        UnambiguousNeverClashes(v.items[i], j.items[i]);
      }
    } else if v.Obj? && j.Obj? && v.fields.Keys == j.fields.Keys {
      forall k | k in j.fields ensures !Clash(v.fields[k], j.fields[k]) {
        UnambiguousNeverClashes(v.fields[k], j.fields[k]);
      }
    }
  }

  /** A look-alike: booleans and the numbers 0 and 1 exchanged everywhere. */
  function Disguise(j: Json): Json {
    match j
    case Bool(b) => Int(if b then 1 else 0)
    case Int(n) => if n == 0 then Bool(false) else if n == 1 then Bool(true) else j
    case Num(x) => if x == 0.0 then Bool(false) else if x == 1.0 then Bool(true) else j
    case Arr(items) => Arr(seq(|items|, i requires 0 <= i < |items| => Disguise(items[i])))
    case Obj(fields) => Obj(map k | k in fields :: Disguise(fields[k]))
    case _ => j
  }

  lemma {:induction false} DisguiseFools(j: Json)
    ensures PythonEqual(Disguise(j), j)
    ensures StandardEqual(Disguise(j), j) ==> Unambiguous(j)
  {
    if j.Arr? {
      var d := Disguise(j);
      forall i | 0 <= i < |j.items|
        ensures PythonForm(d).items[i] == PythonForm(j).items[i]
        ensures StandardForm(d).items[i] == StandardForm(j).items[i] ==> Unambiguous(j.items[i])
      {
        DisguiseFools(j.items[i]);
      }
      assert PythonForm(d).items == PythonForm(j).items;
    } else if j.Obj? {
      var d := Disguise(j);
      forall k | k in j.fields
        ensures PythonForm(d).fields[k] == PythonForm(j).fields[k]
        ensures StandardForm(d).fields[k] == StandardForm(j).fields[k] ==> Unambiguous(j.fields[k])
      {
        DisguiseFools(j.fields[k]);
      }
      assert PythonForm(d).fields == PythonForm(j).fields;
    }
  }

  /** Python's equality with a constant is JSON's for every value exactly when the constant is unambiguous. */
  lemma EqualityAgreesExactly(j: Json)
    ensures Unambiguous(j) <==> forall v :: PythonEqual(v, j) <==> StandardEqual(v, j)
  {
    if Unambiguous(j) {
      forall v ensures PythonEqual(v, j) <==> StandardEqual(v, j) {
        EqualUnlessClash(v, j);
        UnambiguousNeverClashes(v, j);
      }
    } else {
      DisguiseFools(j);
    }
  }

  // ---------- where the checker and the standard part ----------

  /** A constant, or each constant of the enumeration that Python finds equal, is equal only because a boolean meets a
      number. */
  ghost predicate Fooled(s: Schema, v: Json) {
    || (s.const_.Some? && PythonEqual(v, s.const_.value) && Clash(v, s.const_.value))
    || (s.enum.Some? && (exists e :: e in s.enum.value && PythonEqual(v, e))
        && forall e :: e in s.enum.value && PythonEqual(v, e) ==> Clash(v, e))
  }

  /** A float without a fractional part where "integer" is asked for and "number" is not. */
  predicate TooStrict(s: Schema, v: Json) {
    s.types.Some? && "integer" in s.types.value && "number" !in s.types.value && WholeFloat(v)
  }

  lemma ConstParts(s: Schema, v: Json)
    ensures Breaks(Standard, s, v, Const) <==>
            Breaks(Python, s, v, Const) || (s.const_.Some? && PythonEqual(v, s.const_.value) && Clash(v, s.const_.value))
  {
    hide PythonEqual, StandardEqual, Same, Clash;
    if s.const_.Some? {
      EqualUnlessClash(v, s.const_.value);
      PythonEqualExactly(v, s.const_.value);
      StandardEqualExactly(v, s.const_.value);
    }
  }

  lemma EnumParts(s: Schema, v: Json)
    ensures Breaks(Standard, s, v, Enum) <==>
            s.enum.Some? && forall e :: e in s.enum.value && PythonEqual(v, e) ==> Clash(v, e)
  {
    hide PythonEqual, StandardEqual, Same, Clash;
    if s.enum.Some? {
      forall e | e in s.enum.value ensures Standard.equal(v, e) <==> PythonEqual(v, e) && !Clash(v, e) {
        EqualUnlessClash(v, e);
        StandardEqualExactly(v, e);
      }
    }
  }

  lemma TypesOf(v: Json, t: string)
    ensures Denotes(v, t, true) <==> Denotes(v, t, false) || (t == "integer" && WholeFloat(v))
    ensures WholeFloat(v) ==> (Denotes(v, t, false) <==> t == "number")
  {
  }

  lemma TypeParts(s: Schema, v: Json)
    ensures Breaks(Standard, s, v, Type) ==> Breaks(Python, s, v, Type)
    ensures Breaks(Python, s, v, Type) && !Breaks(Standard, s, v, Type) <==> TooStrict(s, v)
  {
    hide Denotes;
    forall t ensures Standard.ofType(v, t) <==> Python.ofType(v, t) || (t == "integer" && WholeFloat(v)) { TypesOf(v, t); }
    forall t ensures WholeFloat(v) ==> (Python.ofType(v, t) <==> t == "number") { TypesOf(v, t); }
    if TooStrict(s, v) { assert Standard.ofType(v, "integer"); }
  }

  /** One schema and one value: the checker finds every keyword broken that the standard does unless it is fooled, and one
      more exactly when it is too strict about the type. */
  lemma KeywordsPart(s: Schema, v: Json)
    ensures (exists keyword :: Breaks(Standard, s, v, keyword) && !Breaks(Python, s, v, keyword)) <==> Fooled(s, v)
    ensures (exists keyword :: Breaks(Python, s, v, keyword) && !Breaks(Standard, s, v, keyword)) <==> TooStrict(s, v)
  {
    hide *;
    TypeParts(s, v);
    FooledParts(s, v);
    OtherParts(s, v);
    forall keyword
      ensures Breaks(Standard, s, v, keyword) && !Breaks(Python, s, v, keyword) ==> Fooled(s, v)
      ensures Breaks(Python, s, v, keyword) && !Breaks(Standard, s, v, keyword) ==> TooStrict(s, v)
    {
      match keyword
      case Const =>
      case Enum =>
      case Type =>
      case Required =>
      case AdditionalProperties =>
    }
  }

  lemma FooledParts(s: Schema, v: Json)
    ensures Fooled(s, v) <==> (Breaks(Standard, s, v, Const) && !Breaks(Python, s, v, Const))
                              || (Breaks(Standard, s, v, Enum) && !Breaks(Python, s, v, Enum))
  {
    hide PythonEqual, StandardEqual, Same, Denotes, TypeMatches, Clash;
    OwnChecks(s, v);
    ConstParts(s, v);
    EnumParts(s, v);
  }

  lemma OtherParts(s: Schema, v: Json)
    ensures Breaks(Standard, s, v, Required) <==> Breaks(Python, s, v, Required)
    ensures Breaks(Standard, s, v, AdditionalProperties) <==> Breaks(Python, s, v, AdditionalProperties)
    ensures Breaks(Python, s, v, Const) ==> Breaks(Standard, s, v, Const)
    ensures Breaks(Python, s, v, Enum) ==> Breaks(Standard, s, v, Enum)
  {
    hide PythonEqual, StandardEqual, Same, Denotes, TypeMatches, Clash;
    OwnChecks(s, v);
    ConstParts(s, v);
    EnumParts(s, v);
  }

  ghost predicate FooledSomewhere(s: Schema, v: Json) {
    exists path :: Locate(s, v, path).Some? && Fooled(Locate(s, v, path).value.0, Locate(s, v, path).value.1)
  }

  ghost predicate TooStrictSomewhere(s: Schema, v: Json) {
    exists path :: Locate(s, v, path).Some? && TooStrict(Locate(s, v, path).value.0, Locate(s, v, path).value.1)
  }

  /** In full: an accepted value violates JSON Schema exactly when the checker was fooled somewhere in it, and a rejected
      value satisfies JSON Schema exactly when it does so and the checker was too strict somewhere. */
  lemma DisagreesExactly(s: Schema, v: Json)
    ensures Validate(s, v).None? ==> (Satisfies(Standard, s, v) <==> !FooledSomewhere(s, v))
    ensures Satisfies(Standard, s, v) ==> (Validate(s, v).None? <==> !TooStrictSomewhere(s, v))
  {
    ValidatesExactly(s, v);
    forall path | Locate(s, v, path).Some?
      ensures var at := Locate(s, v, path).value;
              && ((exists keyword :: Breaks(Standard, at.0, at.1, keyword) && !Breaks(Python, at.0, at.1, keyword))
                  <==> Fooled(at.0, at.1))
              && ((exists keyword :: Breaks(Python, at.0, at.1, keyword) && !Breaks(Standard, at.0, at.1, keyword))
                  <==> TooStrict(at.0, at.1))
    {
      KeywordsPart(Locate(s, v, path).value.0, Locate(s, v, path).value.1);
    }
  }

  /** Of a constant or an enumeration and the value that meets it: no boolean is compared with the number it equals; and
      no float without a fractional part is asked to be an integer only. */
  ghost predicate Plain(s: Schema, v: Json) {
    && (s.const_.Some? ==> !Clash(v, s.const_.value))
    && (s.enum.Some? ==> forall e :: e in s.enum.value ==> !Clash(v, e))
    && !TooStrict(s, v)
  }

  /** For every schema and value where nothing of the kind meets at any location, the checker decides satisfaction in the
      sense of JSON Schema. */
  lemma ValidatesTheStandard(s: Schema, v: Json)
    requires forall path :: Locate(s, v, path).Some? ==> Plain(Locate(s, v, path).value.0, Locate(s, v, path).value.1)
    ensures Validate(s, v).None? <==> Satisfies(Standard, s, v)
  {
    DisagreesExactly(s, v);
  }

  /** A float is refused where an integer is asked for; JSON Schema refuses it exactly when it has a fractional part. */
  lemma WholeFloatIsRefused(x: real)
    ensures var s := Schema(None, None, Some(["integer"]), [], map[], Anything, None);
            Validate(s, Num(x)).Some? && (Satisfies(Standard, s, Num(x)) <==> WholeFloat(Num(x)))
  {
    var s := Schema(None, None, Some(["integer"]), [], map[], Anything, None);
    assert TypeName(Num(x)) == "number" && "number" != "integer";
    assert "integer" in s.types.value;
    if !WholeFloat(Num(x)) {
      assert Locate(s, Num(x), []).Some? && Breaks(Standard, s, Num(x), Type);
    } else {
      forall path, keyword | Locate(s, Num(x), path).Some?
        ensures !Breaks(Standard, Locate(s, Num(x), path).value.0, Locate(s, Num(x), path).value.1, keyword)
      {
        UnconstrainedBelow(s, Num(x), path);
        assert Standard.ofType(Num(x), "integer");
      }
    }
  }

  /** One ambiguous constant is enough to accept a value that JSON Schema rejects. */
  lemma AmbiguousConstantIsFooled(j: Json)
    requires !Unambiguous(j)
    ensures var s := Schema(Some(j), None, None, [], map[], Anything, None);
            Validate(s, Disguise(j)).None? && !Satisfies(Standard, s, Disguise(j))
  {
    hide *;
    var s := Schema(Some(j), None, None, [], map[], Anything, None);
    var d := Disguise(j);
    DisguiseFools(j);
    ConstantOnly(s, d);
    PythonEqualExactly(d, j);
    StandardEqualExactly(d, j);
  }

  /** A schema that is one constant and nothing else. */
  lemma ConstantOnly(s: Schema, v: Json)
    requires s.const_.Some? && s == Schema(s.const_, None, None, [], map[], Anything, None)
    ensures Validate(s, v).None? <==> Same(v, s.const_.value, true)
    ensures Satisfies(Standard, s, v) ==> Same(v, s.const_.value, false)
  {
    hide Same, PythonEqual;
    ValidatesExactly(s, v);
    PythonEqualExactly(v, s.const_.value);
    assert Locate(s, v, []) == Some((s, v));
    assert Breaks(Standard, s, v, Const) <==> !Same(v, s.const_.value, false);
    assert Breaks(Python, s, v, Const) <==> !Same(v, s.const_.value, true);
    forall path, keyword | Locate(s, v, path).Some? && Same(v, s.const_.value, true)
      ensures !Breaks(Python, Locate(s, v, path).value.0, Locate(s, v, path).value.1, keyword)
    {
      UnconstrainedBelow(s, v, path);
    }
  }

  lemma UnconstrainedBelow(s: Schema, v: Json, path: seq<Segment>)
    requires s.properties == map[] && s.additional.Anything? && s.items.None? && Locate(s, v, path).Some?
    ensures path == []
  {
  }
}
