/** What the closed subset means, and that the validator decides exactly that. */
module JsonShapeLaws {
  import opened Seqs
  import opened JsonShape

  // ---------- the accepted schemas ----------

  datatype Inward = Items | Property(name: string)

  /** The subschema a path of keywords leads to. */
  function Sub(schema: Json, path: seq<Inward>): Option<Json>
    decreases |path|
  {
    if path == [] then Some(schema)
    else match path[0]
      case Items => if Has(schema, "items") then Sub(schema.fields["items"], path[1..]) else None
      case Property(name) =>
        if name in Properties(schema) then Sub(Properties(schema)[name], path[1..]) else None
  }

  /** The one shape each keyword may take. */
  predicate Shape(keyword: string, value: Json) {
    match keyword
    case "type" =>
      value.Null? || (value.Str? && value.s
                      in {"object", "array", "string", "integer", "number", "boolean", "null"})
    case "enum" => value.Arr? && value.items != []
    case "additionalProperties" => value.Bool?
    case "required" => value.Arr? && forall i :: 0 <= i < |value.items| ==> value.items[i].Str?
    case "properties" => value.Obj?
    case "minItems" => value.Int? && value.n >= 0
    case "maxItems" => value.Int? && value.n >= 0
    case "items" => value.Obj?
    case _ => false
  }

  /** Closed at one node: only supported keywords, each of its shape, and no keyword that would be
      checked against nothing. */
  ghost predicate Closed(node: Json) {
    && node.Obj?
    && (forall k :: k in node.fields ==> Shape(k, node.fields[k]))
    && (Get(node, "type") == Str("array") ==> Has(node, "items"))
    && (Get(node, "additionalProperties") == Bool(false) ==> Has(node, "properties"))
  }

  ghost predicate ClosedThroughout(schema: Json) {
    forall path :: Sub(schema, path).Some? ==> Closed(Sub(schema, path).value)
  }

  lemma SubInside(schema: Json, step: Inward, path: seq<Inward>)
    ensures Sub(schema, [step] + path) ==
      match step
      case Items => if Has(schema, "items") then Sub(schema.fields["items"], path) else None
      case Property(name) => if name in Properties(schema) then Sub(Properties(schema)[name], path) else None
  {
    assert ([step] + path)[1..] == path;
  }

  lemma AcceptedNodeIsClosed(schema: Json)
    requires Accepts(schema)
    ensures Closed(schema)
  {
    forall k | k in schema.fields ensures Shape(k, schema.fields[k]) {
      AcceptedShape(schema, k);
    }
  }

  lemma AcceptedShape(schema: Json, k: string)
    requires Accepts(schema) && k in schema.fields
    ensures Shape(k, schema.fields[k])
  {
    assert k in SUPPORTED by {
      assert k !in schema.fields.Keys - SUPPORTED;
    }
    var value := schema.fields[k];
    match k
    case "type" => assert IsTypeName(value);
    case "enum" => assert value.Arr? && value.items != [];
    case "additionalProperties" => assert value.Bool?;
    case "required" => assert value.Arr? && AllStrings(value.items);
    case "properties" => assert value.Obj?;
    case "minItems" => assert IsCount(value);
    case "maxItems" => assert IsCount(value);
    case "items" => assert Accepts(value) && value.Obj?;
    case _ =>
  }

  lemma ClosedNodeIsAccepted(schema: Json)
    requires Closed(schema)
    requires Has(schema, "items") ==> Accepts(schema.fields["items"])
    requires forall name :: name in Properties(schema) ==> Accepts(Properties(schema)[name])
    ensures Accepts(schema)
  {
    forall k | k in schema.fields ensures k in SUPPORTED {
      assert Shape(k, schema.fields[k]);
    }
    assert schema.fields.Keys - SUPPORTED == {};
    var f := schema.fields;
    assert "type" in f ==> IsTypeName(f["type"]);
    assert "enum" in f ==> f["enum"].Arr? && f["enum"].items != [];
    assert "additionalProperties" in f ==> f["additionalProperties"].Bool?;
    assert "required" in f ==> f["required"].Arr? && AllStrings(f["required"].items);
    assert "properties" in f ==> f["properties"].Obj?;
    assert "minItems" in f ==> IsCount(f["minItems"]);
    assert "maxItems" in f ==> IsCount(f["maxItems"]);
    assert "properties" in f ==> Properties(schema) == f["properties"].fields;
    assert IsTypeName(Get(schema, "type"));
    if "additionalProperties" in f && !f["additionalProperties"].b {
      assert Get(schema, "additionalProperties") == Bool(false);
    }
  }

  /** `check_schema` accepts exactly the schemas that are closed at every subschema. */
  lemma {:induction false} AcceptsExactlyTheClosed(schema: Json)
    ensures Accepts(schema) <==> ClosedThroughout(schema)
    decreases schema
  {
    if Accepts(schema) {
      AcceptedNodeIsClosed(schema);
      forall path | Sub(schema, path).Some? ensures Closed(Sub(schema, path).value) {
        if path != [] {
          match path[0]
          case Items => AcceptsExactlyTheClosed(schema.fields["items"]);
          case Property(name) => AcceptsExactlyTheClosed(Properties(schema)[name]);
        }
      }
    }
    if ClosedThroughout(schema) {
      assert Sub(schema, []) == Some(schema);
      if Has(schema, "items") {
        forall path ensures Sub(schema, [Items] + path) == Sub(schema.fields["items"], path) {
          SubInside(schema, Items, path);
        }
        AcceptsExactlyTheClosed(schema.fields["items"]);
      }
      forall name | name in Properties(schema) ensures Accepts(Properties(schema)[name]) {
        forall path ensures Sub(schema, [Property(name)] + path) == Sub(Properties(schema)[name], path) {
          SubInside(schema, Property(name), path);
        }
        AcceptsExactlyTheClosed(Properties(schema)[name]);
      }
      ClosedNodeIsAccepted(schema);
    }
  }

  // ---------- no problems means satisfied ----------

  ghost predicate Clean(value: Json, schema: Json) { forall p :: !IsProblem(value, schema, p) }

  lemma CleanHere(value: Json, schema: Json)
    requires Clean(value, schema)
    ensures TypeOk(value, schema) && EnumOk(value, schema, Python)
    ensures EnoughItems(value, schema) && FewItems(value, schema)
    ensures forall name :: !Missing(value, schema, name) && !Unexpected(value, schema, name)
  {
    assert !IsProblem(value, schema, Problem([], WrongType));
    assert !IsProblem(value, schema, Problem([], NotInEnum));
    assert !IsProblem(value, schema, Problem([], TooFew));
    assert !IsProblem(value, schema, Problem([], TooMany));
    forall name ensures !Missing(value, schema, name) && !Unexpected(value, schema, name) {
      assert [Field(name)][..0] == [];
      assert !IsProblem(value, schema, Problem([Field(name)], FieldMissing));
      assert !IsProblem(value, schema, Problem([Field(name)], FieldUnexpected));
    }
  }

  lemma CleanInside(value: Json, schema: Json)
    requires Clean(value, schema)
    ensures forall i :: value.Arr? && Has(schema, "items") && 0 <= i < |value.items| ==>
      Clean(value.items[i], schema.fields["items"])
    ensures forall name :: value.Obj? && name in value.fields && name in Properties(schema) ==>
      Clean(value.fields[name], Properties(schema)[name])
  {
    CleanHere(value, schema);
    forall i: nat, p | value.Arr? && Has(schema, "items") && i < |value.items|
      ensures !IsProblem(value.items[i], schema.fields["items"], p)
    {
      var up := Problem([Item(i)] + p.path, p.complaint);
      assert up.path[1..] == p.path;
      ProblemsSplit(value, schema, up);
    }
    forall name, p | value.Obj? && name in value.fields && name in Properties(schema)
      ensures !IsProblem(value.fields[name], Properties(schema)[name], p)
    {
      var up := Problem([Field(name)] + p.path, p.complaint);
      assert up.path[1..] == p.path;
      ProblemsSplit(value, schema, up);
    }
  }

  /** There is no problem anywhere if and only if the value satisfies the meaning of all eight keywords. */
  lemma {:induction false} CleanExactlyWhenMet(value: Json, schema: Json)
    ensures Clean(value, schema) <==> Meets(value, schema, Python)
    decreases value, 2
  {
    hide Clean, Meets;
    if Clean(value, schema) {
      CleanIsMet(value, schema);
    }
    if Meets(value, schema, Python) {
      MetIsClean(value, schema);
    }
  }

  lemma MetIsClean(value: Json, schema: Json)
    requires Meets(value, schema, Python)
    ensures Clean(value, schema)
    decreases value, 1
  {
    hide TypeOk, EnumOk, EnoughItems, FewItems, Missing, Unexpected, IsProblem, Properties, Has, Get;
    InsideIsMet(value, schema);
    forall p ensures !IsProblem(value, schema, p) {
      ProblemsSplit(value, schema, p);
    }
  }

  lemma CleanIsMet(value: Json, schema: Json)
    requires Clean(value, schema)
    ensures Meets(value, schema, Python)
    decreases value, 1
  {
    hide TypeOk, EnumOk, EnoughItems, FewItems, Missing, Unexpected, IsProblem, Properties, Has, Get, Clean;
    CleanHere(value, schema);
    CleanInside(value, schema);
    InsideIsMet(value, schema);
  }

  lemma {:induction false} InsideIsMet(value: Json, schema: Json)
    ensures forall i :: value.Arr? && Has(schema, "items") && 0 <= i < |value.items| ==>
      (Clean(value.items[i], schema.fields["items"]) <==> Meets(value.items[i], schema.fields["items"], Python))
    ensures forall name :: value.Obj? && name in value.fields && name in Properties(schema) ==>
      (Clean(value.fields[name], Properties(schema)[name]) <==>
        Meets(value.fields[name], Properties(schema)[name], Python))
    decreases value, 0
  {
    forall i | value.Arr? && Has(schema, "items") && 0 <= i < |value.items|
      ensures Clean(value.items[i], schema.fields["items"]) <==> Meets(value.items[i], schema.fields["items"], Python)
    {
      CleanExactlyWhenMet(value.items[i], schema.fields["items"]);
    }
    forall name | value.Obj? && name in value.fields && name in Properties(schema)
      ensures Clean(value.fields[name], Properties(schema)[name]) <==>
          Meets(value.fields[name], Properties(schema)[name], Python)
    {
      CleanExactlyWhenMet(value.fields[name], Properties(schema)[name]);
    }
  }

  /** The list of problems is empty if and only if the value satisfies the schema. */
  lemma NoErrorsExactlyWhenMet(problems: seq<Problem>, value: Json, schema: Json, at: seq<Place>)
    requires Lists(problems, at, p => IsProblem(value, schema, p))
    ensures problems == [] <==> Meets(value, schema, Python)
  {
    CleanExactlyWhenMet(value, schema);
    if problems == [] {
      forall p ensures !IsProblem(value, schema, p) {
        var up := Problem(at + p.path, p.complaint);
        assert From(at, up) == p;
        assert up !in problems;
      }
    } else {
      assert problems[0] in problems;
    }
  }

  // ---------- against the standard ----------

  lemma {:induction false} StandardEqualIsEqual(a: Json, b: Json)
    requires Equal(a, b, Standard)
    ensures Equal(a, b, Python)
    decreases a
  {
    if a.Arr? && b.Arr? {
      forall i | 0 <= i < |a.items| ensures Equal(a.items[i], b.items[i], Python) {
        StandardEqualIsEqual(a.items[i], b.items[i]);
      }
    }
    if a.Obj? && b.Obj? {
      forall k | k in a.fields ensures Equal(a.fields[k], b.fields[k], Python) {
        StandardEqualIsEqual(a.fields[k], b.fields[k]);
      }
    }
  }

  /** No value the standard admits is refused. */
  lemma {:induction false} StandardIsMet(value: Json, schema: Json)
    requires Meets(value, schema, Standard)
    ensures Meets(value, schema, Python)
    decreases value
  {
    if Get(schema, "enum").Arr? {
      var options := Get(schema, "enum").items;
      var i :| 0 <= i < |options| && Equal(value, options[i], Standard);
      StandardEqualIsEqual(value, options[i]);
    }
    if value.Arr? && Has(schema, "items") {
      forall i | 0 <= i < |value.items| ensures Meets(value.items[i], schema.fields["items"], Python) {
        StandardIsMet(value.items[i], schema.fields["items"]);
      }
    }
    if value.Obj? {
      forall name | name in value.fields && name in Properties(schema)
        ensures Meets(value.fields[name], Properties(schema)[name], Python)
      {
        StandardIsMet(value.fields[name], Properties(schema)[name]);
      }
    }
  }

  /** The boolean a scalar stands for in Python: `True`, 1 and 1.0 are one value, and so are the zeros. */
  function Bit(v: Json): Option<bool> {
    if Number(v, Python) == Some(1.0) then Some(true)
    else if Number(v, Python) == Some(0.0) then Some(false)
    else None
  }

  /** `t` is `e` with any of its ones and zeros, however deep, written as boolean or as number. An
      option has finitely many. */
  ghost predicate IsTwin(t: Json, e: Json)
    decreases e
  {
    if Bit(e).Some? then t == Bool(Bit(e).value) || t == Int(if Bit(e).value then 1 else 0)
    else if e.Arr? then
      t.Arr? && |t.items| == |e.items| && forall i :: 0 <= i < |e.items| ==> IsTwin(t.items[i], e.items[i])
    else if e.Obj? then
      t.Obj? && t.fields.Keys == e.fields.Keys && forall k :: k in e.fields ==> IsTwin(t.fields[k], e.fields[k])
    else t == e
  }

  /** With each option every twin of it is offered. */
  ghost predicate Paired(options: seq<Json>) {
    forall i, t :: 0 <= i < |options| && IsTwin(t, options[i]) ==> OneOf(t, options, Standard)
  }

  lemma {:induction false} TwinIsEqual(t: Json, e: Json)
    requires IsTwin(t, e)
    ensures Equal(t, e, Python)
    decreases e
  {
    if Bit(e).None? && e.Arr? {
      forall i | 0 <= i < |e.items| ensures Equal(t.items[i], e.items[i], Python) {
        TwinIsEqual(t.items[i], e.items[i]);
      }
    }
    if Bit(e).None? && e.Obj? {
      forall k | k in e.fields ensures Equal(t.fields[k], e.fields[k], Python) {
        TwinIsEqual(t.fields[k], e.fields[k]);
      }
    }
  }

  /** The twin of `e` that the standard takes for `v`. */
  function Twin(v: Json, e: Json): Json
    requires Equal(v, e, Python)
    decreases e
  {
    if Bit(e).Some? then (if v.Bool? then Bool(Bit(e).value) else Int(if Bit(e).value then 1 else 0))
    else if e.Arr? then Arr(seq(|e.items|, i requires 0 <= i < |e.items| => Twin(v.items[i], e.items[i])))
    else if e.Obj? then Obj(map k | k in e.fields :: Twin(v.fields[k], e.fields[k]))
    else e
  }

  lemma {:induction false} TwinFits(v: Json, e: Json)
    requires Equal(v, e, Python)
    ensures IsTwin(Twin(v, e), e) && Equal(v, Twin(v, e), Standard)
    decreases e
  {
    if Bit(e).None? && e.Arr? {
      forall i | 0 <= i < |e.items|
        ensures IsTwin(Twin(v, e).items[i], e.items[i]) && Equal(v.items[i], Twin(v, e).items[i], Standard)
      {
        TwinFits(v.items[i], e.items[i]);
      }
    }
    if Bit(e).None? && e.Obj? {
      forall k | k in e.fields
        ensures IsTwin(Twin(v, e).fields[k], e.fields[k]) && Equal(v.fields[k], Twin(v, e).fields[k], Standard)
      {
        TwinFits(v.fields[k], e.fields[k]);
      }
    }
  }

  lemma {:induction false} EqualTwice(a: Json, b: Json, c: Json)
    requires Equal(a, b, Standard) && Equal(b, c, Standard)
    ensures Equal(a, c, Standard)
    decreases a
  {
    if a.Arr? && b.Arr? && c.Arr? {
      forall i | 0 <= i < |a.items| ensures Equal(a.items[i], c.items[i], Standard) {
        EqualTwice(a.items[i], b.items[i], c.items[i]);
      }
    }
    if a.Obj? && b.Obj? && c.Obj? {
      forall k | k in a.fields ensures Equal(a.fields[k], c.fields[k], Standard) {
        EqualTwice(a.fields[k], b.fields[k], c.fields[k]);
      }
    }
  }

  lemma EnumAgrees(v: Json, options: seq<Json>)
    requires Paired(options)
    ensures OneOf(v, options, Python) <==> OneOf(v, options, Standard)
  {
    if OneOf(v, options, Python) {
      var i :| 0 <= i < |options| && Equal(v, options[i], Python);
      TwinFits(v, options[i]);
      var t := Twin(v, options[i]);
      hide Equal, IsTwin, Twin;
      assert OneOf(t, options, Standard);
      var j :| 0 <= j < |options| && Equal(t, options[j], Standard);
      EqualTwice(v, t, options[j]);
    }
    if OneOf(v, options, Standard) {
      var i :| 0 <= i < |options| && Equal(v, options[i], Standard);
      StandardEqualIsEqual(v, options[i]);
    }
  }

  /** For any enum, of scalars, arrays or objects: the membership test is the standard's on every value
      if and only if with each option every twin of it is offered. */
  lemma EnumIsStandardExactlyWhenPaired(options: seq<Json>)
    ensures (forall v :: OneOf(v, options, Python) <==> OneOf(v, options, Standard)) <==> Paired(options)
  {
    if Paired(options) {
      forall v ensures OneOf(v, options, Python) <==> OneOf(v, options, Standard) {
        EnumAgrees(v, options);
      }
    }
    if forall v :: OneOf(v, options, Python) <==> OneOf(v, options, Standard) {
      forall i, t | 0 <= i < |options| && IsTwin(t, options[i]) ensures OneOf(t, options, Standard) {
        TwinIsEqual(t, options[i]);
        assert OneOf(t, options, Python);
      }
    }
  }

  ghost predicate PairedEnums(schema: Json) {
    forall path :: Sub(schema, path).Some? && Get(Sub(schema, path).value, "enum").Arr? ==>
      Paired(Get(Sub(schema, path).value, "enum").items)
  }

  lemma PairedInside(schema: Json)
    requires PairedEnums(schema)
    ensures Has(schema, "items") ==> PairedEnums(schema.fields["items"])
    ensures forall name :: name in Properties(schema) ==> PairedEnums(Properties(schema)[name])
  {
    forall path ensures Has(schema, "items") ==> Sub(schema, [Items] + path) == Sub(schema.fields["items"], path) {
      SubInside(schema, Items, path);
    }
    forall name, path | name in Properties(schema)
      ensures Sub(schema, [Property(name)] + path) == Sub(Properties(schema)[name], path)
    {
      SubInside(schema, Property(name), path);
    }
  }

  /** With such enums at every subschema the validator decides the standard's meaning. */
  lemma {:induction false} MetIsStandard(value: Json, schema: Json)
    requires PairedEnums(schema) && Meets(value, schema, Python)
    ensures Meets(value, schema, Standard)
    decreases value
  {
    assert Sub(schema, []) == Some(schema);
    PairedInside(schema);
    if Get(schema, "enum").Arr? { EnumAgrees(value, Get(schema, "enum").items); }
    if value.Arr? && Has(schema, "items") {
      forall i | 0 <= i < |value.items| ensures Meets(value.items[i], schema.fields["items"], Standard) {
        MetIsStandard(value.items[i], schema.fields["items"]);
      }
    }
    if value.Obj? {
      forall name | name in value.fields && name in Properties(schema)
        ensures Meets(value.fields[name], Properties(schema)[name], Standard)
      {
        MetIsStandard(value.fields[name], Properties(schema)[name]);
      }
    }
  }

  /** `{"enum": [1]}` is an accepted schema and lets `true` pass. */
  lemma TruePassesForOne()
    ensures var schema := Obj(map["enum" := Arr([Int(1)])]);
            Accepts(schema) && Meets(Bool(true), schema, Python) && !Meets(Bool(true), schema, Standard)
  {
    var schema := Obj(map["enum" := Arr([Int(1)])]);
    assert schema.fields.Keys - SUPPORTED == {};
    assert Equal(Bool(true), Get(schema, "enum").items[0], Python);
  }
}
