/** The value tree that `generateJsonSchema` hands to its serializer: a
    schema shape is a plain JavaScript object whose own properties are the
    keywords of the shape's interface, in the order the compiler writes
    them. Turning that tree into JSON or YAML text is the serializers' job
    and is not part of this model; decoding the tree back is, so that the
    round trip can be stated. */
module JsonEncoding {
  import opened Options
  import opened OrderedMaps
  import opened Types
  import opened Shapes
  import opened JsonSchemaCompiler
  import opened JsonSchemaProperties

  /** A JSON value. Object members keep their order. */
  datatype Json =
    | JNull
    | JBool(b: bool)
    | JNumber(n: real)
    | JString(s: string)
    | JArray(elems: seq<Json>)
    | JObject(members: seq<Entry<Json>>)

  /** A shape with a `type` keyword and an optional `const`. */
  function Typed(keyword: string, constant: Option<Json>): Json
  {
    JObject([Entry("type", JString(keyword))] + (if constant.Some? then [Entry("const", constant.value)] else []))
  }

  /** The object a schema shape is. */
  function ToJson(s: SchemaType): Json
  {
    match s
    case ObjectSchema(ps, req) =>
      JObject([Entry("type", JString("object")), Entry("properties", JObject(EntriesToJson(ps))),
               Entry("required", JArray(StringsToJson(req)))])
    case ArraySchema(items) => JObject([Entry("type", JString("array")), Entry("items", ToJson(items))])
    case OneOfSchema(xs) => JObject([Entry("oneOf", JArray(SchemasToJson(xs)))])
    case NullSchema => Typed("null", None)
    case StringSchema(c) => Typed("string", if c.Some? then Some(JString(c.value)) else None)
    case NumberSchema(c) => Typed("number", if c.Some? then Some(JNumber(c.value)) else None)
    case IntegerSchema(c) => Typed("integer", if c.Some? then Some(JNumber(c.value as real)) else None)
    case BooleanSchema(c) => Typed("boolean", if c.Some? then Some(JBool(c.value)) else None)
    case ReferenceSchema(r) => JObject([Entry("$ref", JString(r))])
  }

  /** The literal's value as the JSON value of its `const`. */
  function LiteralJson(t: Type): Json
    requires IsLiteral(t)
  {
    match t
    case BooleanLiteral(b) => JBool(b)
    case StringLiteral(v) => JString(v)
    case FloatLiteral(x) => JNumber(x)
    case IntLiteral(n) => JNumber(n as real)
  }

  /** A scalar kind is emitted as `{type}` and nothing more. */
  lemma ScalarObject(t: Type)
    requires IsScalar(t)
    ensures ToJson(JsonTypeSchema(t)) == JObject([Entry("type", JString(ScalarKeyword(t)))])
  {
  }

  /** A literal is emitted as `{type, const}`: its scalar's `type` and its
      own value. */
  lemma LiteralObject(t: Type)
    requires IsLiteral(t)
    ensures ToJson(JsonTypeSchema(t))
         == JObject([Entry("type", JString(ScalarKeyword(LiteralBase(t)))), Entry("const", LiteralJson(t))])
  {
  }

  /** An array is emitted as `{type: "array", items}` with the element's
      object under `items`. */
  lemma ArrayObject(e: Type)
    ensures ToJson(JsonTypeSchema(ArrayType(e)))
         == JObject([Entry("type", JString("array")), Entry("items", ToJson(JsonTypeSchema(e)))])
  {
  }

  /** A union is emitted as `{oneOf}` holding one object per member, in
      order. */
  lemma UnionObject(ts: seq<Type>)
    ensures ToJson(JsonTypeSchema(UnionType(ts))).members[0].key == "oneOf"
    ensures |ToJson(JsonTypeSchema(UnionType(ts))).members| == 1
    ensures var elems := ToJson(JsonTypeSchema(UnionType(ts))).members[0].value.elems;
            |elems| == |ts| && forall i :: 0 <= i < |ts| ==> elems[i] == ToJson(JsonTypeSchema(ts[i]))
  {
  }

  /** A reference is emitted as `{$ref}` holding the pointer to its name. */
  lemma ReferenceObject(n: string)
    ensures ToJson(JsonTypeSchema(ReferenceType(n)))
         == JObject([Entry("$ref", JString("#/definitions/" + n))])
  {
  }

  function EntriesToJson(es: seq<Entry<SchemaType>>): (r: seq<Entry<Json>>)
    ensures Keys(r) == Keys(es)
  {
    if es == [] then [] else [Entry(es[0].key, ToJson(es[0].value))] + EntriesToJson(es[1..])
  }

  function SchemasToJson(xs: seq<SchemaType>): (r: seq<Json>)
    ensures |r| == |xs|
    ensures forall i :: 0 <= i < |xs| ==> r[i] == ToJson(xs[i])
  {
    if xs == [] then [] else [ToJson(xs[0])] + SchemasToJson(xs[1..])
  }

  function StringsToJson(ss: seq<string>): seq<Json>
  {
    if ss == [] then [] else [JString(ss[0])] + StringsToJson(ss[1..])
  }

  /** The position of the first member named `k`. */
  function Find(ms: seq<Entry<Json>>, k: string): (r: Option<nat>)
    ensures r.Some? ==> r.value < |ms| && ms[r.value].key == k
    ensures r.None? ==> k !in Keys(ms)
  {
    if ms == [] then None
    else if ms[0].key == k then Some(0)
    else match Find(ms[1..], k)
      case Some(i) => Some(i + 1)
      case None => None
  }

  /** Reads a tree back as a schema shape; `None` if it is not one. Members
      are looked up by name, so their order does not matter. */
  function FromJson(j: Json): Option<SchemaType>
  {
    if !j.JObject? then None
    else
      var ms := j.members;
      var r, o, t := Find(ms, "$ref"), Find(ms, "oneOf"), Find(ms, "type");
      if r.Some? then
        if ms[r.value].value.JString? then Some(ReferenceSchema(ms[r.value].value.s)) else None
      else if o.Some? then
        if !ms[o.value].value.JArray? then None
        else
          var xs := SchemasFromJson(ms[o.value].value.elems);
          if xs.Some? then Some(OneOfSchema(xs.value)) else None
      else if t.Some? && ms[t.value].value.JString? then TypedFromJson(ms, ms[t.value].value.s)
      else None
  }

  /** The shape whose `type` keyword is `keyword`, from the members `ms`. */
  function TypedFromJson(ms: seq<Entry<Json>>, keyword: string): Option<SchemaType>
    decreases ms, 1
  {
    if keyword == "object" then ObjectFromJson(ms)
    else if keyword == "array" then
      var i := Find(ms, "items");
      if i.None? then None
      else
        var items := FromJson(ms[i.value].value);
        if items.Some? then Some(ArraySchema(items.value)) else None
    else if keyword == "null" then Some(NullSchema)
    else
      var c := Find(ms, "const");
      var v := if c.Some? then Some(ms[c.value].value) else None;
      if keyword == "string" then
        if v.None? then Some(StringSchema(None))
        else if v.value.JString? then Some(StringSchema(Some(v.value.s)))
        else None
      else if keyword == "number" then
        if v.None? then Some(NumberSchema(None))
        else if v.value.JNumber? then Some(NumberSchema(Some(v.value.n)))
        else None
      else if keyword == "integer" then
        if v.None? then Some(IntegerSchema(None))
        else if v.value.JNumber? && v.value.n.Floor as real == v.value.n then Some(IntegerSchema(Some(v.value.n.Floor)))
        else None
      else if keyword == "boolean" then
        if v.None? then Some(BooleanSchema(None))
        else if v.value.JBool? then Some(BooleanSchema(Some(v.value.b)))
        else None
      else None
  }

  /** An object shape from its `properties` and `required` members. */
  function ObjectFromJson(ms: seq<Entry<Json>>): Option<SchemaType>
    decreases ms, 0
  {
    var p, q := Find(ms, "properties"), Find(ms, "required");
    if p.None? || q.None? || !ms[p.value].value.JObject? || !ms[q.value].value.JArray? then None
    else
      var ps, req := EntriesFromJson(ms[p.value].value.members), StringsFromJson(ms[q.value].value.elems);
      if ps.Some? && req.Some? then Some(ObjectSchema(ps.value, req.value)) else None
  }

  function EntriesFromJson(ms: seq<Entry<Json>>): Option<seq<Entry<SchemaType>>>
  {
    if ms == [] then Some([])
    else match (FromJson(ms[0].value), EntriesFromJson(ms[1..]))
      case (Some(v), Some(rest)) => Some([Entry(ms[0].key, v)] + rest)
      case _ => None
  }

  function SchemasFromJson(js: seq<Json>): Option<seq<SchemaType>>
  {
    if js == [] then Some([])
    else match (FromJson(js[0]), SchemasFromJson(js[1..]))
      case (Some(x), Some(rest)) => Some([x] + rest)
      case _ => None
  }

  function StringsFromJson(js: seq<Json>): Option<seq<string>>
  {
    if js == [] then Some([])
    else if js[0].JString? then
      match StringsFromJson(js[1..])
      case Some(rest) => Some([js[0].s] + rest)
      case None => None
    else None
  }

  /** Reading the tree of a shape back gives the same shape. */
  lemma {:induction false} SchemaRoundTrip(s: SchemaType)
    ensures FromJson(ToJson(s)) == Some(s)
  {
    match s
    case ObjectSchema(ps, req) =>
      EntriesRoundTrip(ps);
      StringsRoundTrip(req);
      ObjectRoundTrip(ps, req);
    case ArraySchema(items) =>
      SchemaRoundTrip(items);
      ArrayRoundTrip(items);
    case OneOfSchema(xs) =>
      SchemasRoundTrip(xs);
      var ms := ToJson(s).members;
      assert Find(ms, "$ref") == None;
    case ReferenceSchema(r) =>
    case _ =>
      TypedRoundTrip(s);
  }

  lemma ObjectRoundTrip(ps: seq<Entry<SchemaType>>, req: seq<string>)
    requires EntriesFromJson(EntriesToJson(ps)) == Some(ps)
    requires StringsFromJson(StringsToJson(req)) == Some(req)
    ensures FromJson(ToJson(ObjectSchema(ps, req))) == Some(ObjectSchema(ps, req))
  {
    var ms := ToJson(ObjectSchema(ps, req)).members;
    assert FromJson(ToJson(ObjectSchema(ps, req))) == TypedFromJson(ms, "object") by {
      assert Find(ms, "$ref") == None;
      assert Find(ms, "oneOf") == None;
      assert Find(ms, "type") == Some(0);
    }
    assert TypedFromJson(ms, "object") == ObjectFromJson(ms);
    assert ObjectFromJson(ms) == Some(ObjectSchema(ps, req)) by {
      assert Find(ms, "properties") == Some(1);
      assert Find(ms, "required") == Some(2);
    }
  }

  lemma ArrayRoundTrip(items: SchemaType)
    requires FromJson(ToJson(items)) == Some(items)
    ensures FromJson(ToJson(ArraySchema(items))) == Some(ArraySchema(items))
  {
    var ms := ToJson(ArraySchema(items)).members;
    assert Find(ms, "$ref") == None;
    assert Find(ms, "oneOf") == None;
    assert Find(ms, "type") == Some(0);
    assert Find(ms, "items") == Some(1);
  }

  lemma TypedRoundTrip(s: SchemaType)
    requires s.NullSchema? || s.StringSchema? || s.NumberSchema? || s.IntegerSchema? || s.BooleanSchema?
    ensures FromJson(ToJson(s)) == Some(s)
  {
    var ms := ToJson(s).members;
    assert Find(ms, "$ref") == None;
    assert Find(ms, "oneOf") == None;
    assert Find(ms, "type") == Some(0);
    if HasConst(s) {
      assert Find(ms, "const") == Some(1);
    } else {
      assert Find(ms, "const") == None;
    }
    if s.IntegerSchema? && s.integerConst.Some? {
      assert (s.integerConst.value as real).Floor == s.integerConst.value;
    }
  }

  lemma {:induction false} EntriesRoundTrip(es: seq<Entry<SchemaType>>)
    ensures EntriesFromJson(EntriesToJson(es)) == Some(es)
  {
    if es != [] {
      SchemaRoundTrip(es[0].value);
      EntriesRoundTrip(es[1..]);
      assert EntriesToJson(es)[1..] == EntriesToJson(es[1..]);
      assert [Entry(es[0].key, es[0].value)] + es[1..] == es;
    }
  }

  lemma {:induction false} SchemasRoundTrip(xs: seq<SchemaType>)
    ensures SchemasFromJson(SchemasToJson(xs)) == Some(xs)
  {
    if xs != [] {
      SchemaRoundTrip(xs[0]);
      SchemasRoundTrip(xs[1..]);
      assert SchemasToJson(xs)[1..] == SchemasToJson(xs[1..]);
      assert [xs[0]] + xs[1..] == xs;
    }
  }

  lemma {:induction false} StringsRoundTrip(ss: seq<string>)
    ensures StringsFromJson(StringsToJson(ss)) == Some(ss)
  {
    if ss != [] {
      StringsRoundTrip(ss[1..]);
      assert [ss[0]] + ss[1..] == ss;
    }
  }

  /** The object the whole document is. */
  function DocumentToJson(d: Document): Json
  {
    JObject([Entry("$schema", JString(d.schema)), Entry("definitions", JObject(EntriesToJson(d.definitions)))])
  }

  function DocumentFromJson(j: Json): Option<Document>
  {
    if !j.JObject? then None
    else
      var ms := j.members;
      var i, k := Find(ms, "$schema"), Find(ms, "definitions");
      if i.None? || k.None? || !ms[i.value].value.JString? || !ms[k.value].value.JObject? then None
      else
        var defs := EntriesFromJson(ms[k.value].value.members);
        if defs.Some? then Some(Document(ms[i.value].value.s, defs.value)) else None
  }

  /** Reading the tree of a document back gives the same document. */
  lemma DocumentRoundTrip(d: Document)
    ensures DocumentFromJson(DocumentToJson(d)) == Some(d)
  {
    EntriesRoundTrip(d.definitions);
  }

  // ---------------------------------------------------------------------
  // `generateJsonSchema`

  /** The two serializers the caller can choose between. */
  datatype Format = JsonFormat | YamlFormat

  /** What `generateJsonSchema` hands to the chosen serializer. */
  datatype Rendering = JsonText(tree: Json) | YamlText(tree: Json)

  /** `generateJsonSchema`: compile the contract and pass the document's tree
      to the serializer the format selects; every selector is handled. */
  function GenerateJsonSchema(c: Contract, format: Format): (out: Rendering)
    ensures out.JsonText? <==> format == JsonFormat
    ensures DocumentFromJson(out.tree) == Some(JsonSchema(c))
  {
    DocumentRoundTrip(JsonSchema(c));
    match format
    case JsonFormat => JsonText(DocumentToJson(JsonSchema(c)))
    case YamlFormat => YamlText(DocumentToJson(JsonSchema(c)))
  }
}
