/** `claimstone/jsonshape.py`: a closed subset of JSON Schema, checked before use and then applied. */
module JsonShape {
  import opened Seqs

  /** A value as `json.loads` returns it. A schema is itself such a value. */
  datatype Json =
    | Null
    | Bool(b: bool)
    | Int(n: int)
    | Float(x: real)
    | Str(s: string)
    | Arr(items: seq<Json>)
    | Obj(fields: map<string, Json>)

  const SUPPORTED := {"type", "properties", "required", "items", "enum", "additionalProperties", "minItems", "maxItems"}
  const TYPES := {"object", "array", "string", "integer", "number", "boolean", "null"}

  predicate Has(schema: Json, keyword: string) { schema.Obj? && keyword in schema.fields }

  function Get(schema: Json, keyword: string): Json {
    if Has(schema, keyword) then schema.fields[keyword] else Null
  }

  // ---------- which schemas are accepted ----------

  predicate IsCount(value: Json) { value.Int? && value.n >= 0 }

  predicate AllStrings(values: seq<Json>) { forall i :: 0 <= i < |values| ==> values[i].Str? }

  /** A declared type, or none: `"type": null` reads as no type at all. */
  predicate IsTypeName(value: Json) { value.Null? || (value.Str? && value.s in TYPES) }

  /** `check_schema` returns. The branches are the source's, in its order. */
  predicate Accepts(schema: Json) {
    if !schema.Obj? then false
    else if schema.fields.Keys - SUPPORTED != {} then false
    else if !IsTypeName(Get(schema, "type")) then false
    else if Has(schema, "enum") && (!schema.fields["enum"].Arr? || schema.fields["enum"].items == []) then false
    else if Has(schema, "additionalProperties")
            && (!schema.fields["additionalProperties"].Bool?
                || (!schema.fields["additionalProperties"].b && !Has(schema, "properties"))) then false
    else if Has(schema, "required")
            && (!schema.fields["required"].Arr? || !AllStrings(schema.fields["required"].items)) then false
    else if Has(schema, "properties") && !schema.fields["properties"].Obj? then false
    else if Has(schema, "minItems") && !IsCount(schema.fields["minItems"]) then false
    else if Has(schema, "maxItems") && !IsCount(schema.fields["maxItems"]) then false
    else if Get(schema, "type") == Str("array") && !Has(schema, "items") then false
    else if Has(schema, "items") && !Accepts(schema.fields["items"]) then false
    else if Has(schema, "properties") then
      forall name :: name in schema.fields["properties"].fields ==> Accepts(schema.fields["properties"].fields[name])
    else true
  }

  // ---------- what an accepted schema asks of one value ----------

  predicate HasType(value: Json, declared: string) {
    match declared
    case "object" => value.Obj?
    case "array" => value.Arr?
    case "string" => value.Str?
    case "integer" => value.Int?
    case "number" => value.Int? || value.Float?
    case "boolean" => value.Bool?
    case "null" => value.Null?
    case _ => false
  }

  predicate TypeOk(value: Json, schema: Json) {
    Get(schema, "type").Str? ==> HasType(value, Get(schema, "type").s)
  }

  /** Two notions of equality: Python's, where `True == 1 == 1.0`, and the standard's, where a
      boolean is never a number (section 4.2.2 of JSON Schema Core 2020-12). */
  datatype Equality = Python | Standard

  /** The number a value compares as. */
  function Number(v: Json, eq: Equality): Option<real> {
    match v
    case Bool(b) => if eq.Python? then Some(if b then 1.0 else 0.0) else None
    case Int(n) => Some(n as real)
    case Float(x) => Some(x)
    case _ => None
  }

  predicate Equal(a: Json, b: Json, eq: Equality) {
    if Number(a, eq).Some? && Number(b, eq).Some? then Number(a, eq) == Number(b, eq)
    else if a.Arr? && b.Arr? then
      |a.items| == |b.items| && forall i :: 0 <= i < |a.items| ==> Equal(a.items[i], b.items[i], eq)
    else if a.Obj? && b.Obj? then
      a.fields.Keys == b.fields.Keys && forall k :: k in a.fields ==> Equal(a.fields[k], b.fields[k], eq)
    else a == b
  }

  predicate OneOf(value: Json, options: seq<Json>, eq: Equality) {
    exists i :: 0 <= i < |options| && Equal(value, options[i], eq)
  }

  predicate EnumOk(value: Json, schema: Json, eq: Equality) {
    Get(schema, "enum").Arr? ==> OneOf(value, Get(schema, "enum").items, eq)
  }

  predicate EnoughItems(value: Json, schema: Json) {
    value.Arr? && Get(schema, "minItems").Int? ==> |value.items| >= Get(schema, "minItems").n
  }

  predicate FewItems(value: Json, schema: Json) {
    value.Arr? && Get(schema, "maxItems").Int? ==> |value.items| <= Get(schema, "maxItems").n
  }

  predicate Requires(schema: Json, name: string) {
    Get(schema, "required").Arr? && Str(name) in Get(schema, "required").items
  }

  function Properties(schema: Json): map<string, Json> {
    if Get(schema, "properties").Obj? then Get(schema, "properties").fields else map[]
  }

  predicate Missing(value: Json, schema: Json, name: string) {
    value.Obj? && Requires(schema, name) && name !in value.fields
  }

  predicate Unexpected(value: Json, schema: Json, name: string) {
    value.Obj? && Get(schema, "additionalProperties") == Bool(false)
    && name in value.fields && name !in Properties(schema)
  }

  /** The declarative meaning of the eight keywords. */
  ghost predicate Meets(value: Json, schema: Json, eq: Equality)
    decreases value
  {
    && TypeOk(value, schema)
    && EnumOk(value, schema, eq)
    && EnoughItems(value, schema)
    && FewItems(value, schema)
    && (forall name :: !Missing(value, schema, name))
    && (forall name :: !Unexpected(value, schema, name))
    && (value.Arr? && Has(schema, "items") ==>
          forall i :: 0 <= i < |value.items| ==> Meets(value.items[i], schema.fields["items"], eq))
    && (value.Obj? ==>
          forall name :: name in value.fields && name in Properties(schema) ==>
            Meets(value.fields[name], Properties(schema)[name], eq))
  }

  // ---------- problems, by place ----------

  datatype Place = Item(index: nat) | Field(name: string)
  datatype Complaint = WrongType | NotInEnum | TooFew | TooMany | FieldMissing | FieldUnexpected
  datatype Problem = Problem(path: seq<Place>, complaint: Complaint)

  /** The value and the schema a path leads to; nothing is looked at below a value of the wrong type. */
  function Follow(value: Json, schema: Json, path: seq<Place>): Option<(Json, Json)>
    decreases |path|
  {
    if path == [] then Some((value, schema))
    else if !TypeOk(value, schema) then None
    else match path[0]
      case Item(i) =>
        if value.Arr? && i < |value.items| && Has(schema, "items")
        then Follow(value.items[i], schema.fields["items"], path[1..]) else None
      case Field(name) =>
        if value.Obj? && name in value.fields && name in Properties(schema)
        then Follow(value.fields[name], Properties(schema)[name], path[1..]) else None
  }

  /** `complaint` holds of this value itself; a field complaint is about the field `name`. */
  predicate Faulty(value: Json, schema: Json, complaint: Complaint, name: string) {
    match complaint
    case WrongType => !TypeOk(value, schema)
    case NotInEnum => TypeOk(value, schema) && !EnumOk(value, schema, Python)
    case TooFew => TypeOk(value, schema) && !EnoughItems(value, schema)
    case TooMany => TypeOk(value, schema) && !FewItems(value, schema)
    case FieldMissing => TypeOk(value, schema) && Missing(value, schema, name)
    case FieldUnexpected => TypeOk(value, schema) && Unexpected(value, schema, name)
  }

  predicate AboutField(complaint: Complaint) { complaint.FieldMissing? || complaint.FieldUnexpected? }

  /** Where the value complained about sits: a field complaint is reported at the field's own path. */
  predicate Located(p: Problem) {
    AboutField(p.complaint) ==> p.path != [] && p.path[|p.path| - 1].Field?
  }

  function Holder(p: Problem): seq<Place>
    requires Located(p)
  {
    if AboutField(p.complaint) then p.path[..|p.path| - 1] else p.path
  }

  function FieldOf(p: Problem): string
    requires Located(p)
  {
    if AboutField(p.complaint) then p.path[|p.path| - 1].name else ""
  }

  predicate IsProblem(value: Json, schema: Json, p: Problem) {
    Located(p) &&
    var at := Follow(value, schema, Holder(p));
    at.Some? && Faulty(at.value.0, at.value.1, p.complaint, FieldOf(p))
  }

  /** The complaints about this very value. */
  predicate HereIs(value: Json, schema: Json, p: Problem) {
    Located(p) && Holder(p) == [] && Faulty(value, schema, p.complaint, FieldOf(p))
  }

  predicate InItem(value: Json, schema: Json, i: nat, p: Problem) {
    && value.Arr? && i < |value.items| && Has(schema, "items")
    && p.path != [] && p.path[0] == Item(i)
    && IsProblem(value.items[i], schema.fields["items"], Problem(p.path[1..], p.complaint))
  }

  predicate InField(value: Json, schema: Json, name: string, p: Problem) {
    && value.Obj? && name in value.fields && name in Properties(schema)
    && p.path != [] && p.path[0] == Field(name)
    && IsProblem(value.fields[name], Properties(schema)[name], Problem(p.path[1..], p.complaint))
  }

  predicate BelowIs(value: Json, schema: Json, p: Problem) {
    p.path != [] &&
    match p.path[0]
    case Item(i) => InItem(value, schema, i, p)
    case Field(name) => InField(value, schema, name, p)
  }

  lemma ProblemsSplit(value: Json, schema: Json, p: Problem)
    ensures IsProblem(value, schema, p) <==>
      if TypeOk(value, schema) then HereIs(value, schema, p) || BelowIs(value, schema, p)
      else p == Problem([], WrongType)
  {
    if !TypeOk(value, schema) {
      hide TypeOk;
    } else if Located(p) && Holder(p) != [] {
      DeeperProblem(value, schema, p);
    } else {
      ShallowProblem(value, schema, p);
    }
  }

  lemma ShallowProblem(value: Json, schema: Json, p: Problem)
    requires TypeOk(value, schema) && !(Located(p) && Holder(p) != [])
    ensures IsProblem(value, schema, p) <==> HereIs(value, schema, p)
    ensures !BelowIs(value, schema, p)
  {
    hide Faulty, TypeOk, Properties, Has;
  }

  lemma NotHere(value: Json, schema: Json, p: Problem)
    requires Located(p) && Holder(p) != []
    ensures !HereIs(value, schema, p)
  {}

  lemma DeeperProblem(value: Json, schema: Json, p: Problem)
    requires TypeOk(value, schema) && Located(p) && Holder(p) != []
    ensures IsProblem(value, schema, p) <==> BelowIs(value, schema, p)
    ensures !HereIs(value, schema, p)
  {
    hide Faulty, TypeOk, Properties, Has, HereIs;
    NotHere(value, schema, p);
    var q := Problem(p.path[1..], p.complaint);
    assert Holder(p)[0] == p.path[0];
    if AboutField(p.complaint) {
      assert p.path[1..][..|p.path| - 2] == p.path[..|p.path| - 1][1..];
    }
    assert Located(q) && Holder(q) == Holder(p)[1..] && FieldOf(q) == FieldOf(p);
  }

  // ---------- the validator ----------

  predicate Under(at: seq<Place>, p: Problem) { |at| <= |p.path| && p.path[..|at|] == at }

  function From(at: seq<Place>, p: Problem): Problem
    requires Under(at, p)
  {
    Problem(p.path[|at|..], p.complaint)
  }

  /** Exactly the problems `which` names, each reported below the path `at`. */
  ghost predicate Lists(problems: seq<Problem>, at: seq<Place>, which: Problem -> bool) {
    forall p :: p in problems <==> Under(at, p) && which(From(at, p))
  }

  lemma ListsBoth(a: seq<Problem>, b: seq<Problem>, at: seq<Place>, f: Problem -> bool, g: Problem -> bool,
                  h: Problem -> bool)
    requires Lists(a, at, f) && Lists(b, at, g)
    requires forall p :: h(p) <==> f(p) || g(p)
    ensures Lists(a + b, at, h)
  {}

  lemma ListsOne(at: seq<Place>, tail: seq<Place>, complaint: Complaint)
    ensures Lists([Problem(at + tail, complaint)], at, (p: Problem) => p == Problem(tail, complaint))
  {
    forall p | Under(at, p) && From(at, p) == Problem(tail, complaint) ensures p == Problem(at + tail, complaint) {
      assert p.path == p.path[..|at|] + p.path[|at|..];
    }
  }

  lemma ListsBelow(more: seq<Problem>, at: seq<Place>, place: Place, which: Problem -> bool)
    requires Lists(more, at + [place], which)
    ensures Lists(more, at, (p: Problem) =>
      p.path != [] && p.path[0] == place && which(Problem(p.path[1..], p.complaint)))
  {
    forall p
      ensures Under(at + [place], p) <==> Under(at, p) && From(at, p).path != [] && From(at, p).path[0] == place
    {
      if |at| < |p.path| {
        assert p.path[..|at| + 1] == p.path[..|at|] + [p.path[|at|]];
      }
    }
    forall p | Under(at + [place], p)
      ensures From(at + [place], p) == Problem(From(at, p).path[1..], p.complaint)
    {
      assert p.path[|at| + 1..] == p.path[|at|..][1..];
    }
  }

  predicate Own(value: Json, schema: Json, p: Problem) {
    HereIs(value, schema, p) && !AboutField(p.complaint)
  }

  predicate Single(holds: bool, complaint: Complaint, p: Problem) { holds && p == Problem([], complaint) }

  function OneProblem(holds: bool, at: seq<Place>, complaint: Complaint): seq<Problem> {
    if holds then [Problem(at, complaint)] else []
  }

  lemma ListsSingle(holds: bool, at: seq<Place>, complaint: Complaint)
    ensures Lists(OneProblem(holds, at, complaint), at, p => Single(holds, complaint, p))
  {
    ListsOne(at, [], complaint);
    assert at + [] == at;
  }

  lemma OwnCases(value: Json, schema: Json, p: Problem)
    requires TypeOk(value, schema)
    ensures Own(value, schema, p) <==>
      Single(!EnumOk(value, schema, Python), NotInEnum, p) || Single(!EnoughItems(value, schema), TooFew, p)
      || Single(!FewItems(value, schema), TooMany, p)
  {
    hide TypeOk, EnumOk, EnoughItems, FewItems;
  }

  method OwnErrors(value: Json, schema: Json, at: seq<Place>) returns (problems: seq<Problem>)
    requires Accepts(schema) && TypeOk(value, schema)
    ensures Lists(problems, at, p => Own(value, schema, p))
  {
    hide TypeOk, Lists, Own, Single, Equal;
    problems := [];
    if Has(schema, "enum") && !OneOf(value, schema.fields["enum"].items, Python) {
      problems := problems + [Problem(at, NotInEnum)];
    }
    var few, many := [], [];
    if value.Arr? {
      if Has(schema, "minItems") && |value.items| < schema.fields["minItems"].n {
        few := [Problem(at, TooFew)];
      }
      if Has(schema, "maxItems") && |value.items| > schema.fields["maxItems"].n {
        many := [Problem(at, TooMany)];
      }
    }
    assert problems == OneProblem(!EnumOk(value, schema, Python), at, NotInEnum);
    assert few == OneProblem(!EnoughItems(value, schema), at, TooFew);
    assert many == OneProblem(!FewItems(value, schema), at, TooMany);
    OwnListed(value, schema, at, problems, few, many);
    problems := problems + few + many;
  }

  lemma OwnListed(value: Json, schema: Json, at: seq<Place>, enum: seq<Problem>, few: seq<Problem>, many: seq<Problem>)
    requires TypeOk(value, schema)
    requires enum == OneProblem(!EnumOk(value, schema, Python), at, NotInEnum)
    requires few == OneProblem(!EnoughItems(value, schema), at, TooFew)
    requires many == OneProblem(!FewItems(value, schema), at, TooMany)
    ensures Lists(enum + few + many, at, p => Own(value, schema, p))
  {
    hide TypeOk, EnumOk, EnoughItems, FewItems, Own, Single, OneProblem, Lists;
    var bad, low, high := !EnumOk(value, schema, Python), !EnoughItems(value, schema), !FewItems(value, schema);
    ListsSingle(bad, at, NotInEnum);
    ListsSingle(low, at, TooFew);
    ListsSingle(high, at, TooMany);
    forall p ensures Own(value, schema, p) <==>
        Single(bad, NotInEnum, p) || Single(low, TooFew, p) || Single(high, TooMany, p)
    {
      OwnCases(value, schema, p);
    }
    ListsBoth(enum, few, at, p => Single(bad, NotInEnum, p), p => Single(low, TooFew, p),
              p => Single(bad, NotInEnum, p) || Single(low, TooFew, p));
    ListsBoth(enum + few, many, at, p => Single(bad, NotInEnum, p) || Single(low, TooFew, p),
              p => Single(high, TooMany, p), p => Own(value, schema, p));
  }

  predicate InItemBefore(value: Json, schema: Json, k: nat, p: Problem) {
    p.path != [] && p.path[0].Item? && p.path[0].index < k && InItem(value, schema, p.path[0].index, p)
  }

  method ItemErrors(value: Json, schema: Json, at: seq<Place>) returns (problems: seq<Problem>)
    requires Accepts(schema) && value.Arr? && Has(schema, "items")
    ensures Lists(problems, at, p => InItems(value, schema, p))
    decreases value, 0
  {
    problems := [];
    var sub := schema.fields["items"];
    for i := 0 to |value.items|
      invariant Lists(problems, at, p => InItemBefore(value, schema, i, p))
    {
      var more := Errors(value.items[i], sub, at + [Item(i)]);
      ListsBelow(more, at, Item(i), p => IsProblem(value.items[i], sub, p));
      ListsBoth(problems, more, at, p => InItemBefore(value, schema, i, p), p => InItem(value, schema, i, p),
                p => InItemBefore(value, schema, i + 1, p));
      problems := problems + more;
    }
  }

  predicate MissingAmong(value: Json, names: seq<Json>, p: Problem) {
    value.Obj? && p.complaint == FieldMissing && |p.path| == 1 && p.path[0].Field?
    && p.path[0].name !in value.fields && Str(p.path[0].name) in names
  }

  method RequiredErrors(value: Json, names: seq<Json>, at: seq<Place>) returns (problems: seq<Problem>)
    requires value.Obj? && AllStrings(names)
    ensures Lists(problems, at, p => MissingAmong(value, names, p))
  {
    problems := [];
    for i := 0 to |names|
      invariant Lists(problems, at, p => MissingAmong(value, names[..i], p))
    {
      assert names[..i + 1] == names[..i] + [names[i]];
      var name := names[i].s;
      if name !in value.fields {
        ListsOne(at, [Field(name)], FieldMissing);
        ListsBoth(problems, [Problem(at + [Field(name)], FieldMissing)], at, p => MissingAmong(value, names[..i], p),
                  p => p == Problem([Field(name)], FieldMissing), p => MissingAmong(value, names[..i + 1], p));
        problems := problems + [Problem(at + [Field(name)], FieldMissing)];
      }
    }
    assert names[..|names|] == names;
  }

  predicate UnexpectedAmong(names: set<string>, known: map<string, Json>, p: Problem) {
    p.complaint == FieldUnexpected && |p.path| == 1 && p.path[0].Field?
    && p.path[0].name in names && p.path[0].name !in known
  }

  method UnexpectedErrors(names: set<string>, known: map<string, Json>, at: seq<Place>) returns (problems: seq<Problem>)
    ensures Lists(problems, at, p => UnexpectedAmong(names, known, p))
  {
    problems := [];
    var rest := names;
    while rest != {}
      invariant rest <= names && Lists(problems, at, p => UnexpectedAmong(names - rest, known, p))
    {
      var name :| name in rest;
      if name !in known {
        ListsOne(at, [Field(name)], FieldUnexpected);
        ListsBoth(problems, [Problem(at + [Field(name)], FieldUnexpected)], at,
                  p => UnexpectedAmong(names - rest, known, p), p => p == Problem([Field(name)], FieldUnexpected),
                  p => UnexpectedAmong(names - (rest - {name}), known, p));
        problems := problems + [Problem(at + [Field(name)], FieldUnexpected)];
      }
      rest := rest - {name};
    }
  }

  predicate InFieldAmong(value: Json, schema: Json, names: set<string>, p: Problem) {
    p.path != [] && p.path[0].Field? && p.path[0].name in names && InField(value, schema, p.path[0].name, p)
  }

  method PropertyErrors(value: Json, schema: Json, at: seq<Place>) returns (problems: seq<Problem>)
    requires Accepts(schema) && value.Obj?
    ensures Lists(problems, at, p => InFields(value, schema, p))
    decreases value, 0
  {
    problems := [];
    var known := Properties(schema);
    var rest := known.Keys;
    while rest != {}
      invariant rest <= known.Keys
      invariant Lists(problems, at, p => InFieldAmong(value, schema, known.Keys - rest, p))
    {
      var name :| name in rest;
      if name in value.fields {
        var more := Errors(value.fields[name], known[name], at + [Field(name)]);
        ListsBelow(more, at, Field(name), p => IsProblem(value.fields[name], known[name], p));
        ListsBoth(problems, more, at, p => InFieldAmong(value, schema, known.Keys - rest, p),
                  p => InField(value, schema, name, p),
                  p => InFieldAmong(value, schema, known.Keys - (rest - {name}), p));
        problems := problems + more;
      }
      rest := rest - {name};
    }
  }

  predicate FieldHere(value: Json, schema: Json, p: Problem) {
    value.Obj? && HereIs(value, schema, p) && AboutField(p.complaint)
  }

  method FieldErrors(value: Json, schema: Json, at: seq<Place>) returns (problems: seq<Problem>)
    requires Accepts(schema) && value.Obj? && TypeOk(value, schema)
    ensures Lists(problems, at, p => FieldHere(value, schema, p))
  {
    var names := if Has(schema, "required") then schema.fields["required"].items else [];
    problems := RequiredErrors(value, names, at);
    if Get(schema, "additionalProperties") == Bool(false) {
      var more := UnexpectedErrors(value.fields.Keys, Properties(schema), at);
      ListsBoth(problems, more, at, p => MissingAmong(value, names, p),
                p => UnexpectedAmong(value.fields.Keys, Properties(schema), p), p => FieldHere(value, schema, p));
      problems := problems + more;
    } else {
      ListsBoth(problems, [], at, p => MissingAmong(value, names, p), p => false, p => FieldHere(value, schema, p));
    }
  }

  predicate InItems(value: Json, schema: Json, p: Problem) {
    value.Arr? && Has(schema, "items") && InItemBefore(value, schema, |value.items|, p)
  }

  predicate InFields(value: Json, schema: Json, p: Problem) {
    value.Obj? && InFieldAmong(value, schema, Properties(schema).Keys, p)
  }

  lemma PartsCover(value: Json, schema: Json, p: Problem)
    ensures IsProblem(value, schema, p) <==>
      if TypeOk(value, schema)
      then Own(value, schema, p) || InItems(value, schema, p) || FieldHere(value, schema, p)
           || InFields(value, schema, p)
      else p == Problem([], WrongType)
  {
    ProblemsSplit(value, schema, p);
    hide IsProblem, TypeOk, Properties, Has, Located, Holder;
    if HereIs(value, schema, p) && AboutField(p.complaint) && TypeOk(value, schema) {
      assert value.Obj?;
    }
  }

  lemma NothingInside(value: Json, schema: Json, at: seq<Place>)
    ensures !(value.Arr? && Has(schema, "items")) ==> Lists([], at, p => InItems(value, schema, p))
    ensures !value.Obj? ==> Lists([], at, p => FieldHere(value, schema, p))
    ensures !value.Obj? ==> Lists([], at, p => InFields(value, schema, p))
  {}

  /** Every way `value` fails `schema`, as paths: a problem is reported if and only if it is one. */
  method Errors(value: Json, schema: Json, at: seq<Place>) returns (problems: seq<Problem>)
    requires Accepts(schema)
    ensures Lists(problems, at, p => IsProblem(value, schema, p))
    decreases value, 1
  {
    hide TypeOk, IsProblem, Own, InItems, FieldHere, InFields, Under, From, Accepts;
    forall p ensures IsProblem(value, schema, p) <==>
        if TypeOk(value, schema)
        then Own(value, schema, p) || InItems(value, schema, p) || FieldHere(value, schema, p)
             || InFields(value, schema, p)
        else p == Problem([], WrongType)
    {
      PartsCover(value, schema, p);
    }
    if !TypeOk(value, schema) {
      ListsOne(at, [], WrongType);
      assert at + [] == at;
      return [Problem(at, WrongType)];
    }
    problems := OwnErrors(value, schema, at);
    var items, fields, inner := [], [], [];
    NothingInside(value, schema, at);
    if value.Arr? && Has(schema, "items") {
      items := ItemErrors(value, schema, at);
    }
    if value.Obj? {
      fields := FieldErrors(value, schema, at);
      inner := PropertyErrors(value, schema, at);
    }
    problems := problems + items + fields + inner;
  }
}
