/** The eight keywords one by one, and equality by what a value stands for. */
module JsonShapeMeaning {
  import opened JsonShape

  // ---------- types ----------

  /** The names under which a value may be declared. A boolean is no number. */
  function TypeNames(value: Json): set<string> {
    match value
    case Null => {"null"}
    case Bool(_) => {"boolean"}
    case Int(_) => {"integer", "number"}
    case Float(_) => {"number"}
    case Str(_) => {"string"}
    case Arr(_) => {"array"}
    case Obj(_) => {"object"}
  }

  lemma HasTypeExactlyWhen(value: Json, declared: string)
    ensures HasType(value, declared) <==> declared in TypeNames(value)
  {}

  // ---------- equality ----------

  /** What a value stands for: every number its amount, and for Python a boolean too. */
  datatype Plain = Nothing | Truth(b: bool) | Amount(x: real) | Words(s: string) | List(items: seq<Plain>)
                 | Record(fields: map<string, Plain>)

  function PlainOf(v: Json, eq: Equality): Plain {
    match v
    case Null => Nothing
    case Bool(b) => if eq.Standard? then Truth(b) else Amount(if b then 1.0 else 0.0)
    case Int(n) => Amount(n as real)
    case Float(x) => Amount(x)
    case Str(s) => Words(s)
    case Arr(items) => List(seq(|items|, i requires 0 <= i < |items| => PlainOf(items[i], eq)))
    case Obj(fields) => Record(map k | k in fields :: PlainOf(fields[k], eq))
  }

  /** Two values are equal if and only if they stand for the same. */
  lemma {:induction false} EqualExactlyWhenSamePlain(a: Json, b: Json, eq: Equality)
    ensures Equal(a, b, eq) <==> PlainOf(a, eq) == PlainOf(b, eq)
    decreases a
  {
    if a.Arr? && b.Arr? {
      forall i | 0 <= i < |a.items| && i < |b.items|
        ensures Equal(a.items[i], b.items[i], eq) <==> PlainOf(a.items[i], eq) == PlainOf(b.items[i], eq)
      {
        EqualExactlyWhenSamePlain(a.items[i], b.items[i], eq);
      }
      ListsSame(a, b, eq);
    } else if a.Obj? && b.Obj? {
      forall k | k in a.fields && k in b.fields
        ensures Equal(a.fields[k], b.fields[k], eq) <==> PlainOf(a.fields[k], eq) == PlainOf(b.fields[k], eq)
      {
        EqualExactlyWhenSamePlain(a.fields[k], b.fields[k], eq);
      }
      RecordsSame(a, b, eq);
    }
  }

  lemma ListsSame(a: Json, b: Json, eq: Equality)
    requires a.Arr? && b.Arr?
    requires forall i :: 0 <= i < |a.items| && i < |b.items| ==>
      (Equal(a.items[i], b.items[i], eq) <==> PlainOf(a.items[i], eq) == PlainOf(b.items[i], eq))
    ensures Equal(a, b, eq) <==> PlainOf(a, eq) == PlainOf(b, eq)
  {
    var x, y := PlainOf(a, eq).items, PlainOf(b, eq).items;
    assert |x| == |a.items| && |y| == |b.items|;
    assert forall i :: 0 <= i < |x| ==> x[i] == PlainOf(a.items[i], eq);
    assert forall i :: 0 <= i < |y| ==> y[i] == PlainOf(b.items[i], eq);
    assert x == y <==> |x| == |y| && forall i :: 0 <= i < |x| ==> x[i] == y[i];
  }

  lemma RecordsSame(a: Json, b: Json, eq: Equality)
    requires a.Obj? && b.Obj?
    requires forall k :: k in a.fields && k in b.fields ==>
      (Equal(a.fields[k], b.fields[k], eq) <==> PlainOf(a.fields[k], eq) == PlainOf(b.fields[k], eq))
    ensures Equal(a, b, eq) <==> PlainOf(a, eq) == PlainOf(b, eq)
  {
    var x, y := PlainOf(a, eq).fields, PlainOf(b, eq).fields;
    assert x.Keys == a.fields.Keys && y.Keys == b.fields.Keys;
    assert x == y <==> x.Keys == y.Keys && forall k :: k in x ==> x[k] == y[k];
  }

  // ---------- keyword by keyword ----------

  /** What one keyword of an accepted schema asks of a value. */
  ghost predicate Asks(schema: Json, keyword: string, value: Json)
    requires schema.Obj? && keyword in schema.fields
    decreases value, 0
  {
    var asked := schema.fields[keyword];
    match keyword
    case "type" => asked.Str? ==> asked.s in TypeNames(value)
    case "enum" =>
      asked.Arr? ==>
        exists i :: 0 <= i < |asked.items| && PlainOf(asked.items[i], Python) == PlainOf(value, Python)
    case "minItems" => value.Arr? && asked.Int? ==> asked.n <= |value.items|
    case "maxItems" => value.Arr? && asked.Int? ==> |value.items| <= asked.n
    case "required" =>
      value.Obj? && asked.Arr? ==>
        forall i :: 0 <= i < |asked.items| && asked.items[i].Str? ==> asked.items[i].s in value.fields
    case "additionalProperties" =>
      value.Obj? && asked == Bool(false) && "properties" in schema.fields && schema.fields["properties"].Obj? ==>
        value.fields.Keys <= schema.fields["properties"].fields.Keys
    case "properties" =>
      value.Obj? && asked.Obj? ==>
        forall name :: name in value.fields && name in asked.fields ==>
          Satisfies(value.fields[name], asked.fields[name])
    case "items" => value.Arr? ==> forall i :: 0 <= i < |value.items| ==> Satisfies(value.items[i], asked)
    case _ => true
  }

  /** The value does what every keyword of the schema asks. */
  ghost predicate Satisfies(value: Json, schema: Json)
    decreases value, 1
  {
    schema.Obj? ==> forall keyword :: keyword in schema.fields ==> Asks(schema, keyword, value)
  }

  lemma TypeAsks(value: Json, schema: Json)
    requires Accepts(schema) && schema.Obj?
    ensures TypeOk(value, schema) <==> Kept(value, schema, "type")
  {
    if Get(schema, "type").Str? { HasTypeExactlyWhen(value, Get(schema, "type").s); }
  }

  lemma EnumAsks(value: Json, schema: Json)
    requires Accepts(schema) && schema.Obj?
    ensures EnumOk(value, schema, Python) <==> Kept(value, schema, "enum")
  {
    if Get(schema, "enum").Arr? {
      var options := Get(schema, "enum").items;
      forall i | 0 <= i < |options|
        ensures Equal(value, options[i], Python) <==> PlainOf(value, Python) == PlainOf(options[i], Python)
      {
        EqualExactlyWhenSamePlain(value, options[i], Python);
      }
      hide Equal, PlainOf;
    }
  }

  lemma SizeAsks(value: Json, schema: Json)
    requires Accepts(schema) && schema.Obj?
    ensures EnoughItems(value, schema) <==> Kept(value, schema, "minItems")
    ensures FewItems(value, schema) <==> Kept(value, schema, "maxItems")
  {}

  lemma RequiredAsks(value: Json, schema: Json)
    requires Accepts(schema) && schema.Obj?
    ensures (forall name :: !Missing(value, schema, name)) <==>
      Kept(value, schema, "required")
  {
    if "required" in schema.fields && value.Obj? {
      var names := schema.fields["required"].items;
      forall i | 0 <= i < |names| ensures Requires(schema, names[i].s) {
        assert names[i] == Str(names[i].s);
      }
      forall name | Requires(schema, name) ensures exists i :: 0 <= i < |names| && names[i] == Str(name) {}
      forall i | 0 <= i < |names| ensures Missing(value, schema, names[i].s) <==> names[i].s !in value.fields {}
    }
  }

  lemma ExtraAsks(value: Json, schema: Json)
    requires Accepts(schema) && schema.Obj?
    ensures (forall name :: !Unexpected(value, schema, name)) <==>
      Kept(value, schema, "additionalProperties")
  {
    if value.Obj? && Get(schema, "additionalProperties") == Bool(false) {
      assert Properties(schema) == schema.fields["properties"].fields;
      forall name ensures Unexpected(value, schema, name) <==>
        name in value.fields && name !in schema.fields["properties"].fields {}
    }
  }

  lemma AcceptedInside(schema: Json)
    requires Accepts(schema)
    ensures Has(schema, "items") ==> Accepts(schema.fields["items"])
    ensures forall name :: name in Properties(schema) ==> Accepts(Properties(schema)[name])
    ensures schema.Obj? && forall k :: k in schema.fields ==> k in SUPPORTED
  {
    forall k | k in schema.fields ensures k in SUPPORTED {
      assert k !in schema.fields.Keys - SUPPORTED;
    }
  }

  /** On every accepted schema a value is valid if and only if it does what each keyword that is there
      asks, each on its own. */
  lemma {:induction false} MeetsExactlyWhenSatisfies(value: Json, schema: Json)
    requires Accepts(schema)
    ensures Meets(value, schema, Python) <==> Satisfies(value, schema)
    decreases value, 1
  {
    AcceptedInside(schema);
    InsideSatisfies(value, schema);
    TypeAsks(value, schema);
    EnumAsks(value, schema);
    SizeAsks(value, schema);
    RequiredAsks(value, schema);
    ExtraAsks(value, schema);
    ItemsTogether(value, schema);
    PropertiesTogether(value, schema);
    SatisfiesSplits(value, schema);
    hide Accepts, TypeOk, EnumOk, EnoughItems, FewItems, Missing, Unexpected, Kept, Properties, Satisfies;
  }

  lemma {:induction false} InsideSatisfies(value: Json, schema: Json)
    requires Accepts(schema) && schema.Obj?
    ensures value.Arr? && Has(schema, "items") ==> forall i :: 0 <= i < |value.items| ==>
      (Meets(value.items[i], schema.fields["items"], Python) <==> Satisfies(value.items[i], schema.fields["items"]))
    ensures value.Obj? ==> forall name :: name in value.fields && name in Properties(schema) ==>
      (Meets(value.fields[name], Properties(schema)[name], Python) <==>
         Satisfies(value.fields[name], Properties(schema)[name]))
    decreases value, 0
  {
    AcceptedInside(schema);
    if value.Arr? && Has(schema, "items") {
      forall i | 0 <= i < |value.items|
        ensures Meets(value.items[i], schema.fields["items"], Python)
           <==> Satisfies(value.items[i], schema.fields["items"])
      {
        MeetsExactlyWhenSatisfies(value.items[i], schema.fields["items"]);
      }
    }
    if value.Obj? {
      forall name | name in value.fields && name in Properties(schema)
        ensures Meets(value.fields[name], Properties(schema)[name], Python)
           <==> Satisfies(value.fields[name], Properties(schema)[name])
      {
        MeetsExactlyWhenSatisfies(value.fields[name], Properties(schema)[name]);
      }
    }
  }

  ghost predicate Kept(value: Json, schema: Json, keyword: string)
    requires schema.Obj?
  {
    keyword in schema.fields ==> Asks(schema, keyword, value)
  }

  lemma SatisfiesSplits(value: Json, schema: Json)
    requires schema.Obj? && forall k :: k in schema.fields ==> k in SUPPORTED
    ensures Satisfies(value, schema) <==>
      && Kept(value, schema, "type") && Kept(value, schema, "enum") && Kept(value, schema, "minItems")
      && Kept(value, schema, "maxItems") && Kept(value, schema, "required")
      && Kept(value, schema, "additionalProperties") && Kept(value, schema, "items")
      && Kept(value, schema, "properties")
  {
    hide Asks;
  }

  lemma ItemsTogether(value: Json, schema: Json)
    requires schema.Obj?
    requires value.Arr? && Has(schema, "items") ==> forall i :: 0 <= i < |value.items| ==>
      (Meets(value.items[i], schema.fields["items"], Python) <==> Satisfies(value.items[i], schema.fields["items"]))
    ensures Kept(value, schema, "items") <==>
      (value.Arr? && Has(schema, "items") ==>
         forall i :: 0 <= i < |value.items| ==> Meets(value.items[i], schema.fields["items"], Python))
  {
    hide Meets, Satisfies;
  }

  lemma PropertiesTogether(value: Json, schema: Json)
    requires schema.Obj? && ("properties" in schema.fields ==> schema.fields["properties"].Obj?)
    requires value.Obj? ==> forall name :: name in value.fields && name in Properties(schema) ==>
      (Meets(value.fields[name], Properties(schema)[name], Python) <==>
         Satisfies(value.fields[name], Properties(schema)[name]))
    ensures Kept(value, schema, "properties") <==>
      (value.Obj? ==> forall name :: name in value.fields && name in Properties(schema) ==>
         Meets(value.fields[name], Properties(schema)[name], Python))
  {
    hide Meets, Satisfies;
  }

  // ---------- what each complaint is about ----------

  /** What a complaint says of the value where it is made; only the first is made of a value of the wrong
      type. */
  ghost predicate Says(value: Json, schema: Json, complaint: Complaint, name: string)
    requires Accepts(schema) && schema.Obj?
  {
    ShapesAreClosed(schema);
    if complaint.WrongType? then !Kept(value, schema, "type")
    else
      Kept(value, schema, "type") &&
      match complaint
      case NotInEnum => !Kept(value, schema, "enum")
      case TooFew => value.Arr? && "minItems" in schema.fields && |value.items| < schema.fields["minItems"].n
      case TooMany => value.Arr? && "maxItems" in schema.fields && |value.items| > schema.fields["maxItems"].n
      case FieldMissing =>
        value.Obj? && "required" in schema.fields && Str(name) in schema.fields["required"].items
        && name !in value.fields
      case FieldUnexpected =>
        value.Obj? && "additionalProperties" in schema.fields && !schema.fields["additionalProperties"].b
        && name in value.fields && name !in schema.fields["properties"].fields
  }

  lemma ShapesAreClosed(schema: Json)
    requires Accepts(schema) && schema.Obj?
    ensures "minItems" in schema.fields ==> schema.fields["minItems"].Int?
    ensures "maxItems" in schema.fields ==> schema.fields["maxItems"].Int?
    ensures "required" in schema.fields ==> schema.fields["required"].Arr?
    ensures "additionalProperties" in schema.fields ==>
      schema.fields["additionalProperties"].Bool?
      && (!schema.fields["additionalProperties"].b ==> "properties" in schema.fields)
    ensures "properties" in schema.fields ==> schema.fields["properties"].Obj?
  {}

  /** On an accepted schema each complaint is made exactly where it is true. */
  lemma ComplaintsMean(value: Json, schema: Json, complaint: Complaint, name: string)
    requires Accepts(schema) && schema.Obj?
    ensures Faulty(value, schema, complaint, name) <==> Says(value, schema, complaint, name)
  {
    ShapesAreClosed(schema);
    TypeAsks(value, schema);
    EnumAsks(value, schema);
    hide Accepts, TypeOk, EnumOk, Kept;
  }
}
