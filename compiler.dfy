/** The compiler from the type IR to JSON Schema shapes (`jsonTypeSchema`)
    and from a contract to a JSON Schema document (`jsonSchema`). */
module JsonSchemaCompiler {
  import opened Options
  import opened OrderedMaps
  import opened Types
  import opened Shapes

  /** The pointer prefix of every `$ref` the compiler emits. */
  const DefinitionsPrefix: string := "#/definitions/"

  /** `jsonTypeSchema`: one IR node to one schema shape. The match is
      exhaustive over the closed IR, so no case is left to a runtime
      backstop. */
  function JsonTypeSchema(t: Type): SchemaType
  {
    match t
    case NullType => NullSchema
    case BooleanType => BooleanSchema(None)
    case BooleanLiteral(b) => BooleanSchema(Some(b))
    case DateType => StringSchema(None)
    case DateTimeType => StringSchema(None)
    case StringType => StringSchema(None)
    case StringLiteral(s) => StringSchema(Some(s))
    case FloatType => NumberSchema(None)
    case DoubleType => NumberSchema(None)
    case FloatLiteral(x) => NumberSchema(Some(x))
    case Int32Type => IntegerSchema(None)
    case Int64Type => IntegerSchema(None)
    case IntLiteral(n) => IntegerSchema(Some(n))
    case ObjectType(props) => ObjectSchema(PutAll([], PropertyEntries(props)), RequiredNames(props))
    case ArrayType(e) => ArraySchema(JsonTypeSchema(e))
    case UnionType(ts) => OneOfSchema(JsonTypeSchemas(ts))
    case ReferenceType(n) => ReferenceSchema(DefinitionsPrefix + n)
  }

  /** `types.map(jsonTypeSchema)`: one shape per member, in order, with
      nothing merged, dropped or flattened. */
  function JsonTypeSchemas(ts: seq<Type>): (r: seq<SchemaType>)
    ensures |r| == |ts|
    ensures forall i :: 0 <= i < |ts| ==> r[i] == JsonTypeSchema(ts[i])
  {
    if ts == [] then [] else [JsonTypeSchema(ts[0])] + JsonTypeSchemas(ts[1..])
  }

  /** The assignments the object fold performs on `properties`: each
      property's name with its compiled type, in declaration order. */
  function PropertyEntries(props: seq<Property>): (r: seq<Entry<SchemaType>>)
    ensures |r| == |props|
    ensures forall i :: 0 <= i < |props| ==> r[i] == Entry(props[i].name, JsonTypeSchema(props[i].typ))
  {
    if props == [] then []
    else [Entry(props[0].name, JsonTypeSchema(props[0].typ))] + PropertyEntries(props[1..])
  }

  /** The names the object fold pushes onto `required`: those of the
      properties not marked optional, in declaration order. */
  function RequiredNames(props: seq<Property>): (names: seq<string>)
    ensures forall k :: k in names <==> exists i :: 0 <= i < |props| && props[i].name == k && !props[i].optional
  {
    if props == [] then []
    else (if props[0].optional then [] else [props[0].name]) + RequiredNames(props[1..])
  }

  /** `required` is an in-order filter: it distributes over concatenation. */
  lemma {:induction false} RequiredNamesAppend(a: seq<Property>, b: seq<Property>)
    ensures RequiredNames(a + b) == RequiredNames(a) + RequiredNames(b)
  {
    if a == [] {
      assert a + b == b;
    } else {
      assert (a + b)[1..] == a[1..] + b;
      RequiredNamesAppend(a[1..], b);
    }
  }

  /** The assignments the contract fold performs on `definitions`. */
  function DefinitionEntries(defs: seq<TypeDefinition>): (r: seq<Entry<SchemaType>>)
    ensures |r| == |defs|
    ensures forall i :: 0 <= i < |defs| ==> r[i] == Entry(defs[i].name, JsonTypeSchema(defs[i].typ))
  {
    if defs == [] then []
    else [Entry(defs[0].name, JsonTypeSchema(defs[0].typ))] + DefinitionEntries(defs[1..])
  }

  /** `jsonSchema`: the document for a contract. */
  function JsonSchema(c: Contract): Document
  {
    Document(Draft07, PutAll([], DefinitionEntries(c.types)))
  }

  /** The `OBJECT` case as the source runs it: one pass over the properties
      that pushes onto `required` and assigns into `properties`. */
  method CompileObject(props: seq<Property>) returns (s: SchemaType)
    ensures s == JsonTypeSchema(ObjectType(props))
  {
    var properties: seq<Entry<SchemaType>> := [];
    var required: seq<string> := [];
    var i := 0;
    while i < |props|
      invariant 0 <= i <= |props|
      invariant required == RequiredNames(props[..i])
      invariant properties == PutAll([], PropertyEntries(props[..i]))
    {
      var property := props[i];
      if !property.optional {
        required := required + [property.name];
      }
      properties := Put(properties, property.name, JsonTypeSchema(property.typ));
      assert props[..i + 1] == props[..i] + [property];
      RequiredNamesAppend(props[..i], [property]);
      assert PropertyEntries(props[..i + 1]) == PropertyEntries(props[..i]) + [Entry(property.name, JsonTypeSchema(property.typ))];
      PutAllSnoc([], PropertyEntries(props[..i]), Entry(property.name, JsonTypeSchema(property.typ)));
      i := i + 1;
    }
    assert props[..i] == props;
    s := ObjectSchema(properties, required);
  }

  /** `jsonSchema` as the source runs it: one pass over the contract's types
      that assigns into `definitions`. */
  method CompileContract(c: Contract) returns (d: Document)
    ensures d == JsonSchema(c)
  {
    var definitions: seq<Entry<SchemaType>> := [];
    var i := 0;
    while i < |c.types|
      invariant 0 <= i <= |c.types|
      invariant definitions == PutAll([], DefinitionEntries(c.types[..i]))
    {
      var typeNode := c.types[i];
      definitions := Put(definitions, typeNode.name, JsonTypeSchema(typeNode.typ));
      assert c.types[..i + 1] == c.types[..i] + [typeNode];
      assert DefinitionEntries(c.types[..i + 1]) == DefinitionEntries(c.types[..i]) + [Entry(typeNode.name, JsonTypeSchema(typeNode.typ))];
      PutAllSnoc([], DefinitionEntries(c.types[..i]), Entry(typeNode.name, JsonTypeSchema(typeNode.typ)));
      i := i + 1;
    }
    assert c.types[..i] == c.types;
    d := Document(Draft07, definitions);
  }
}
