/** Values of a values file, and the JSON schema that is generated from them. */
module Schemas {
  import opened Options
  import opened Strings
  import opened JsonPointers

  datatype Value =
    | Text(text: string)
    | Integer(number: int)
    | Number(amount: real)
    | Boolean(flag: bool)
    | Table(entries: map<string, Value>)
    | Array(elements: seq<Value>)
    | Null

  type Values = map<string, Value>

  datatype Kind = AnyKind | StringKind | IntegerKind | NumberKind | BooleanKind | ObjectKind | ArrayKind | NullKind

  datatype Reference = NoReference | Reference(document: string, pointer: string)

  /** The members of a schema that are generated, and `allOf` and `$defs`, which hold other schemas. */
  datatype Schema = Schema(
    ref: Reference, kind: Kind, description: Option<string>, default: Option<Value>,
    properties: map<string, Schema>, items: Option<Schema>, allOf: seq<Schema>, definitions: map<string, Schema>)

  const ANYTHING := Schema(NoReference, AnyKind, None, None, map[], None, [], map[])

  // ----- looking a path up -----

  predicate IsRangeKey(key: string) {
    |key| >= 2 && key[|key|-2..] == "[]"
  }

  /** The value at a path of keys. A key `k[]` stands for the first element of the array at `k`; over a table, where any
      entry may be taken, it yields nothing here. */
  function PathLookup(values: Values, path: seq<string>): Option<Value>
    decreases |path|, 1
  {
    if path == [] then Some(Table(values))
    else if IsRangeKey(path[0]) then RangeLookup(values, path)
    else if path[0] !in values then None
    else if |path| == 1 then Some(values[path[0]])
    else if values[path[0]].Table? then PathLookup(values[path[0]].entries, path[1..])
    else None
  }

  function RangeLookup(values: Values, path: seq<string>): Option<Value>
    requires path != [] && IsRangeKey(path[0])
    decreases |path|, 0
  {
    var key := path[0][..|path[0]|-2];
    if key !in values || !values[key].Array? || values[key].elements == [] then None
    else
      var first := values[key].elements[0];
      if |path| == 1 then Some(first)
      else if first.Table? then PathLookup(first.entries, path[1..])
      else None
  }

  /** A key with brackets goes on from the first element of its list. */
  lemma FirstElementFound(values: Values, key: string, rest: seq<string>)
    requires key in values && values[key].Array? && values[key].elements != []
    ensures var first := values[key].elements[0];
            PathLookup(values, [key + "[]"] + rest) ==
              if rest == [] then Some(first) else if first.Table? then PathLookup(first.entries, rest) else None
  {
    var path := [key + "[]"] + rest;
    assert path[0][..|path[0]|-2] == key && path[1..] == rest;
  }

  function GetSubValues(values: Values, selector: seq<string>): Option<Values> {
    if selector == [] || selector[0] == "" then Some(values)
    else
      var found := PathLookup(values, selector);
      if found.Some? && found.value.Table? then Some(found.value.entries) else None
  }

  // ----- generating -----

  function SchemaOf(value: Value, description: string): Schema {
    match value
    case Text(_) => ANYTHING.(kind := StringKind, default := Some(value))
    case Integer(_) => ANYTHING.(kind := IntegerKind, default := Some(value))
    case Number(_) => ANYTHING.(kind := NumberKind, default := Some(value))
    case Boolean(_) => ANYTHING.(kind := BooleanKind, default := Some(value))
    case Table(entries) =>
      ANYTHING.(kind := ObjectKind,
                properties := map key | key in entries :: SchemaOf(entries[key], description).(description := Some(description)))
    case Array(elements) =>
      ANYTHING.(kind := ArrayKind,
                items := Some(if |elements| > 0 then SchemaOf(elements[0], description) else ANYTHING.(kind := NullKind)))
    case Null => ANYTHING.(kind := NullKind)
  }

  function DocumentOf(values: Values, description: string): Schema {
    SchemaOf(Table(values), description).(description := Some(description))
  }

  method GenerateSchemaType(value: Value, description: string) returns (schema: Schema)
    ensures schema == SchemaOf(value, description)
    decreases value, 1
  {
    schema := ANYTHING;
    match value
    case Text(_) => schema := schema.(kind := StringKind, default := Some(value));
    case Integer(_) => schema := schema.(kind := IntegerKind, default := Some(value));
    case Number(_) => schema := schema.(kind := NumberKind, default := Some(value));
    case Boolean(_) => schema := schema.(kind := BooleanKind, default := Some(value));
    case Table(entries) =>
      var properties := GenerateProperties(entries, description);
      schema := schema.(kind := ObjectKind, properties := properties);
    case Array(elements) =>
      schema := schema.(kind := ArrayKind);
      if |elements| > 0 {
        var first := GenerateSchemaType(elements[0], description);
        schema := schema.(items := Some(first));
      } else {
        schema := schema.(items := Some(ANYTHING.(kind := NullKind)));
      }
    case Null => schema := schema.(kind := NullKind);
  }

  method GenerateProperties(data: Values, description: string) returns (properties: map<string, Schema>)
    ensures properties == SchemaOf(Table(data), description).properties
    decreases Table(data), 0
  {
    properties := map[];
    var keys := data.Keys;
    while keys != {}
      invariant keys <= data.Keys
      invariant properties.Keys == data.Keys - keys
      invariant forall key | key in properties :: properties[key] == SchemaOf(data[key], description).(description := Some(description))
      decreases |keys|
    {
      var key :| key in keys;
      var schema := GenerateSchemaType(data[key], description);
      properties := properties[key := schema.(description := Some(description))];
      keys := keys - {key};
    }
  }

  method GenerateJsonSchema(data: Values, description: string) returns (schema: Schema)
    ensures schema == DocumentOf(data, description)
  {
    var properties := GenerateProperties(data, description);
    schema := ANYTHING.(kind := ObjectKind, properties := properties, description := Some(description));
  }

  // ----- what a generated schema accepts -----

  function IsWhole(r: real): bool {
    r.Floor as real == r
  }

  /** What references accept. */
  type Follow = (Reference, Value) -> bool

  /** Validation by `$ref`, `type`, `properties`, `items` and `allOf`, the keywords that are generated (draft 2020-12). */
  predicate Accepts(follow: Follow, schema: Schema, value: Value)
    decreases value, schema
  {
    && (schema.ref.Reference? ==> follow(schema.ref, value))
    && HasType(schema.kind, value)
    && (value.Table? ==> forall key | key in value.entries && key in schema.properties ::
                           Accepts(follow, schema.properties[key], value.entries[key]))
    && (value.Array? && schema.items.Some? ==> forall i | 0 <= i < |value.elements| ::
                           Accepts(follow, schema.items.value, value.elements[i]))
    && forall i | 0 <= i < |schema.allOf| :: Accepts(follow, schema.allOf[i], value)
  }

  /** A schema without a type accepts values of every type. */
  predicate HasType(kind: Kind, value: Value) {
    kind == AnyKind ||
    match value
    case Text(_) => kind == StringKind
    case Integer(_) => kind == IntegerKind || kind == NumberKind
    case Number(r) => kind == NumberKind || (kind == IntegerKind && IsWhole(r))
    case Boolean(_) => kind == BooleanKind
    case Table(_) => kind == ObjectKind
    case Array(_) => kind == ArrayKind
    case Null => kind == NullKind
  }

  /** Whether a value has the shape of a model value: the same kind, the same shape under shared keys, and in an array every
      element shaped like the model's first. */
  predicate Shaped(value: Value, like: Value)
    decreases value
  {
    match value
    case Text(_) => like.Text?
    case Integer(_) => like.Integer? || like.Number?
    case Number(r) => like.Number? || (like.Integer? && IsWhole(r))
    case Boolean(_) => like.Boolean?
    case Null => like.Null?
    case Table(entries) =>
      like.Table? && forall key | key in entries && key in like.entries :: Shaped(entries[key], like.entries[key])
    case Array(elements) =>
      like.Array? && forall i | 0 <= i < |elements| ::
                       if |like.elements| > 0 then Shaped(elements[i], like.elements[0]) else elements[i].Null?
  }

  /** A generated schema accepts exactly the values shaped like the one it was generated from. */
  lemma {:induction false} AcceptsExactlyShaped(follow: Follow, value: Value, like: Value, description: string, d: Option<string>)
    ensures Accepts(follow, SchemaOf(like, description).(description := d), value) <==> Shaped(value, like)
    decreases value, 1
  {
    if value.Table? && like.Table? {
      TableAccepted(follow, value, like, description, d);
    } else if value.Array? && like.Array? {
      ArrayAccepted(follow, value, like, description, d);
    } else {
      OthersAccepted(follow, value, like, description, d);
    }
  }

  lemma TableAccepted(follow: Follow, value: Value, like: Value, description: string, d: Option<string>)
    requires value.Table? && like.Table?
    ensures Accepts(follow, SchemaOf(like, description).(description := d), value) <==> Shaped(value, like)
    decreases value, 0
  {
    forall key | key in value.entries && key in like.entries
      ensures Accepts(follow, SchemaOf(like.entries[key], description).(description := Some(description)), value.entries[key])
              <==> Shaped(value.entries[key], like.entries[key])
    {
      AcceptsExactlyShaped(follow, value.entries[key], like.entries[key], description, Some(description));
    }
  }

  lemma ArrayAccepted(follow: Follow, value: Value, like: Value, description: string, d: Option<string>)
    requires value.Array? && like.Array?
    ensures Accepts(follow, SchemaOf(like, description).(description := d), value) <==> Shaped(value, like)
    decreases value, 0
  {
    if |like.elements| > 0 {
      forall i | 0 <= i < |value.elements|
        ensures Accepts(follow, SchemaOf(like.elements[0], description), value.elements[i])
                <==> Shaped(value.elements[i], like.elements[0])
      {
        var first := SchemaOf(like.elements[0], description);
        AcceptsExactlyShaped(follow, value.elements[i], like.elements[0], description, first.description);
        assert first.(description := first.description) == first;
      }
    }
  }

  lemma OthersAccepted(follow: Follow, value: Value, like: Value, description: string, d: Option<string>)
    requires !(value.Table? && like.Table?) && !(value.Array? && like.Array?)
    ensures Accepts(follow, SchemaOf(like, description).(description := d), value) <==> Shaped(value, like)
  {
  }

  /** Every element of every array is shaped like the first. */
  predicate Uniform(value: Value) {
    match value
    case Table(entries) => forall key | key in entries :: Uniform(entries[key])
    case Array(elements) => |elements| > 0 ==> Uniform(elements[0]) && forall i | 0 <= i < |elements| :: Shaped(elements[i], elements[0])
    case _ => true
  }

  lemma {:induction false} UniformIsShaped(value: Value)
    ensures Shaped(value, value) <==> Uniform(value)
  {
    match value
    case Table(entries) =>
      forall key | key in entries ensures Shaped(entries[key], entries[key]) <==> Uniform(entries[key]) {
        UniformIsShaped(entries[key]);
      }
    case Array(elements) =>
      if |elements| > 0 {
        UniformIsShaped(elements[0]);
      }
    case _ =>
  }

  /** A values file satisfies the schema generated from it exactly when its arrays are uniform. */
  lemma GeneratedSchemaAcceptsItsValues(follow: Follow, values: Values, description: string)
    ensures Accepts(follow, DocumentOf(values, description), Table(values)) <==> Uniform(Table(values))
  {
    AcceptsExactlyShaped(follow, Table(values), Table(values), description, Some(description));
    UniformIsShaped(Table(values));
  }

  /** A list of a number and a text, which the schema generated from it does not accept. */
  lemma MixedListRejected(follow: Follow, key: string, number: int, text: string, description: string)
    ensures var values := map[key := Array([Integer(number), Text(text)])];
            !Accepts(follow, DocumentOf(values, description), Table(values))
  {
    var mixed := Array([Integer(number), Text(text)]);
    var values := map[key := mixed];
    GeneratedSchemaAcceptsItsValues(follow, values, description);
    assert !Shaped(mixed.elements[1], mixed.elements[0]);
    assert !Uniform(Table(values).entries[key]);
  }

  // ----- evaluating a pointer -----

  /** The parts of a schema document that a pointer can stand on. */
  datatype Place = AtSchema(schema: Schema) | AtMembers(members: map<string, Schema>) | AtList(list: seq<Schema>)

  function ListMember(list: seq<Schema>, token: string, i: nat): Option<Place>
    decreases |list| - i
  {
    if i >= |list| then None
    else if token == Decimal(i) then Some(AtSchema(list[i]))
    else ListMember(list, token, i + 1)
  }

  /** One token of a pointer; empty members are left out of the document. */
  function Member(place: Place, token: string): Option<Place> {
    match place
    case AtSchema(s) =>
      if token == "properties" && s.properties != map[] then Some(AtMembers(s.properties))
      else if token == "$defs" && s.definitions != map[] then Some(AtMembers(s.definitions))
      else if token == "allOf" && s.allOf != [] then Some(AtList(s.allOf))
      else if token == "items" && s.items.Some? then Some(AtSchema(s.items.value))
      else None
    case AtMembers(m) => if token in m then Some(AtSchema(m[token])) else None
    case AtList(list) => ListMember(list, token, 0)
  }

  function Evaluate(place: Place, tokens: seq<string>): Option<Place>
    decreases |tokens|
  {
    if tokens == [] then Some(place)
    else
      var next := Member(place, tokens[0]);
      if next.None? then None else Evaluate(next.value, tokens[1..])
  }

  /** The schema a pointer leads to. */
  function Resolve(document: Schema, pointer: string): Option<Schema> {
    match Tokens(pointer)
    case None => None
    case Some(tokens) =>
      match Evaluate(AtSchema(document), tokens)
      case Some(AtSchema(s)) => Some(s)
      case _ => None
  }

  lemma {:induction false} EvaluateAppend(place: Place, first: seq<string>, second: seq<string>)
    ensures Evaluate(place, first + second) ==
            var middle := Evaluate(place, first); if middle.None? then None else Evaluate(middle.value, second)
    decreases |first|
  {
    if first == [] {
      assert first + second == second;
    } else {
      assert (first + second)[1..] == first[1..] + second;
      if Member(place, first[0]).Some? {
        EvaluateAppend(Member(place, first[0]).value, first[1..], second);
      }
    }
  }
}
