/** Concrete compilations: small contracts and the documents they give. */
module Scenarios {
  import opened Options
  import opened OrderedMaps
  import opened Types
  import opened Shapes
  import opened JsonSchemaCompiler
  import opened JsonSchemaProperties
  import opened JsonEncoding

  /** `{a: required, b: optional}`: both names are properties, in that
      order, and only `a` is required. */
  lemma RequiredExample()
    ensures var s := JsonTypeSchema(ObjectType([Property("a", StringType, false), Property("b", StringType, true)]));
            Keys(s.properties) == ["a", "b"] && s.required == ["a"]
  {
    var props := [Property("a", StringType, false), Property("b", StringType, true)];
    ObjectPropertiesInOrder(props);
    RequiredNamesAppend([props[0]], [props[1]]);
    assert props == [props[0]] + [props[1]];
  }

  /** Two identical members stay two members. */
  lemma UnionKeepsDuplicates()
    ensures JsonTypeSchema(UnionType([StringType, StringType])) == OneOfSchema([StringSchema(None), StringSchema(None)])
  {
  }

  /** A reference to an undefined name still compiles to its pointer. */
  lemma DanglingReference()
    ensures var d := JsonSchema(Contract([TypeDefinition("A", ReferenceType("Foo"))]));
            Keys(d.definitions) == ["A"] && Get(d.definitions, "A") == Some(ReferenceSchema("#/definitions/Foo"))
  {
    assert DefinitionsPrefix + "Foo" == "#/definitions/Foo";
  }

  /** Definitions `A, B, C` come out in that order. */
  lemma DefinitionOrder()
    ensures Keys(JsonSchema(Contract([TypeDefinition("A", NullType), TypeDefinition("B", NullType),
                                      TypeDefinition("C", NullType)])).definitions) == ["A", "B", "C"]
  {
    var c := Contract([TypeDefinition("A", NullType), TypeDefinition("B", NullType), TypeDefinition("C", NullType)]);
    DocumentInOrder(c);
    assert TypeNames(c.types) == ["A", "B", "C"];
  }

  /** Two definitions named `A`: the second one is kept, in the first one's
      place. */
  lemma DuplicateDefinition()
    ensures JsonSchema(Contract([TypeDefinition("A", NullType), TypeDefinition("A", StringType)])).definitions
         == [Entry("A", StringSchema(None))]
  {
  }

  /** The contract with one type `Point = {x: int32, y: int32}`. */
  function PointContract(): Contract
  {
    Contract([TypeDefinition("Point", ObjectType([Property("x", Int32Type, false), Property("y", Int32Type, false)]))])
  }

  /** The compiled `Point`: both coordinates integer-typed and required. */
  lemma PointShape()
    ensures JsonSchema(PointContract()).definitions
         == [Entry("Point", ObjectSchema([Entry("x", IntegerSchema(None)), Entry("y", IntegerSchema(None))], ["x", "y"]))]
  {
    var props := [Property("x", Int32Type, false), Property("y", Int32Type, false)];
    ObjectPropertiesInOrder(props);
    RequiredNamesAppend([props[0]], [props[1]]);
    RequiredNamesSingle(props[0]);
    RequiredNamesSingle(props[1]);
    assert props == [props[0]] + [props[1]];
    assert RequiredNames(props) == ["x", "y"];
    assert PropertyEntries(props) == [Entry("x", IntegerSchema(None)), Entry("y", IntegerSchema(None))];
    var point := JsonTypeSchema(ObjectType(props));
    assert DefinitionEntries(PointContract().types) == [Entry("Point", point)];
    assert PutAll([], [Entry("Point", point)]) == [Entry("Point", point)];
  }

  /** The document for `Point`, member for member. */
  lemma PointDocument()
    ensures DocumentToJson(JsonSchema(PointContract()))
         == JObject([
              Entry("$schema", JString("http://json-schema.org/draft-07/schema#")),
              Entry("definitions", JObject([
                Entry("Point", JObject([
                  Entry("type", JString("object")),
                  Entry("properties", JObject([
                    Entry("x", JObject([Entry("type", JString("integer"))])),
                    Entry("y", JObject([Entry("type", JString("integer"))]))])),
                  Entry("required", JArray([JString("x"), JString("y")]))]))]))])
  {
    PointShape();
    var point := ObjectSchema([Entry("x", IntegerSchema(None)), Entry("y", IntegerSchema(None))], ["x", "y"]);
    var integer := JObject([Entry("type", JString("integer"))]);
    assert ToJson(IntegerSchema(None)) == integer;
    assert EntriesToJson(point.properties) == [Entry("x", integer), Entry("y", integer)] by {
      assert point.properties[1..] == [Entry("y", IntegerSchema(None))];
    }
    assert StringsToJson(["x", "y"]) == [JString("x"), JString("y")] by {
      assert ["x", "y"][1..] == ["y"];
    }
    assert EntriesToJson([Entry("Point", point)]) == [Entry("Point", ToJson(point))];
  }
}
