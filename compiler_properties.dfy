/** What the compiler promises, case by case, and what the contract fold
    promises about the document. */
module JsonSchemaProperties {
  import opened Options
  import opened OrderedMaps
  import opened Types
  import opened Shapes
  import opened JsonSchemaCompiler

  // ---------------------------------------------------------------------
  // Scalars and literals

  /** The JSON Schema `type` each scalar kind is written as. */
  function ScalarKeyword(t: Type): string
    requires IsScalar(t)
  {
    match t
    case NullType => "null"
    case BooleanType => "boolean"
    case DateType => "string"
    case DateTimeType => "string"
    case StringType => "string"
    case FloatType => "number"
    case DoubleType => "number"
    case Int32Type => "integer"
    case Int64Type => "integer"
  }

  /** A scalar kind compiles to a bare typed shape: no `const`. */
  lemma ScalarsAreBare(t: Type)
    requires IsScalar(t)
    ensures !HasConst(JsonTypeSchema(t))
    ensures TypeKeyword(JsonTypeSchema(t)) == Some(ScalarKeyword(t))
    ensures WithoutConst(JsonTypeSchema(t)) == JsonTypeSchema(t)
  {
  }

  /** The scalar kind whose values a literal kind carries. */
  function LiteralBase(t: Type): (base: Type)
    requires IsLiteral(t)
    ensures IsScalar(base)
  {
    match t
    case BooleanLiteral(_) => BooleanType
    case StringLiteral(_) => StringType
    case FloatLiteral(_) => DoubleType
    case IntLiteral(_) => Int64Type
  }

  /** A literal compiles to its scalar's shape plus a `const` holding the
      literal's value, and to nothing else. */
  lemma LiteralsCarryConst(t: Type)
    requires IsLiteral(t)
    ensures HasConst(JsonTypeSchema(t))
    ensures WithoutConst(JsonTypeSchema(t)) == JsonTypeSchema(LiteralBase(t))
    ensures t.BooleanLiteral? ==> JsonTypeSchema(t).booleanConst == Some(t.boolValue)
    ensures t.StringLiteral? ==> JsonTypeSchema(t).stringConst == Some(t.stringValue)
    ensures t.FloatLiteral? ==> JsonTypeSchema(t).numberConst == Some(t.floatValue)
    ensures t.IntLiteral? ==> JsonTypeSchema(t).integerConst == Some(t.intValue)
  {
  }

  // ---------------------------------------------------------------------
  // Objects

  /** The property names, in declaration order. */
  function PropertyNames(props: seq<Property>): (names: seq<string>)
    ensures |names| == |props|
    ensures forall i :: 0 <= i < |props| ==> names[i] == props[i].name
  {
    seq(|props|, i requires 0 <= i < |props| => props[i].name)
  }

  /** The producer's invariant: no name is declared twice in one object. */
  ghost predicate UniqueNames(props: seq<Property>)
  {
    forall i, j :: 0 <= i < j < |props| ==> props[i].name != props[j].name
  }

  /** `properties` has one key per distinct property name and no other. */
  lemma ObjectPropertyKeys(props: seq<Property>)
    ensures JsonTypeSchema(ObjectType(props)).ObjectSchema?
    ensures UniqueKeys(JsonTypeSchema(ObjectType(props)).properties)
    ensures forall k :: k in Keys(JsonTypeSchema(ObjectType(props)).properties)
                    <==> exists i :: 0 <= i < |props| && props[i].name == k
  {
    var es := PropertyEntries(props);
    PutAllEntries([], es);
    forall k ensures k in Keys(es) <==> exists i :: 0 <= i < |props| && props[i].name == k {
      KeysMembership(es, k);
    }
  }

  /** Under each name, `properties` holds the compile of the type of the
      last property declared with that name. */
  lemma ObjectPropertyValue(props: seq<Property>, i: nat)
    requires i < |props|
    requires forall j :: i < j < |props| ==> props[j].name != props[i].name
    ensures Get(JsonTypeSchema(ObjectType(props)).properties, props[i].name) == Some(JsonTypeSchema(props[i].typ))
  {
    PutAllLastWins([], PropertyEntries(props), i);
  }

  /** With distinct names, `properties` is exactly the declared properties,
      each compiled, in declaration order. */
  lemma ObjectPropertiesInOrder(props: seq<Property>)
    requires UniqueNames(props)
    ensures JsonTypeSchema(ObjectType(props)).properties == PropertyEntries(props)
    ensures Keys(JsonTypeSchema(ObjectType(props)).properties) == PropertyNames(props)
  {
    var es := PropertyEntries(props);
    assert JsonTypeSchema(ObjectType(props)).properties == PutAll([], es);
    assert UniqueKeys(es) by {
      forall i, j | 0 <= i < j < |es| ensures es[i].key != es[j].key {
        assert es[i].key == props[i].name && es[j].key == props[j].name;
      }
    }
    PutAllFresh([], es);
    assert [] + es == es;
    forall i | 0 <= i < |es| ensures Keys(es)[i] == PropertyNames(props)[i] {
      KeysAt(es, i);
    }
  }

  /** `required` holds exactly the names of the non-optional properties;
      with distinct names, an optional property's name never appears. */
  lemma ObjectRequired(props: seq<Property>)
    ensures forall k :: k in JsonTypeSchema(ObjectType(props)).required
                    <==> exists i :: 0 <= i < |props| && props[i].name == k && !props[i].optional
    ensures UniqueNames(props) ==>
              forall i :: 0 <= i < |props| && props[i].optional ==> props[i].name !in JsonTypeSchema(ObjectType(props)).required
  {
  }

  /** `required` keeps declaration order: one required property contributes
      its name, an optional one nothing, and a sequence of properties the
      concatenation (`RequiredNamesAppend`). */
  lemma RequiredNamesSingle(p: Property)
    ensures RequiredNames([p]) == if p.optional then [] else [p.name]
  {
    assert [p][1..] == [];
  }

  // ---------------------------------------------------------------------
  // References

  /** The definition name a pointer of the compiler's form designates. */
  function RefTarget(ptr: string): (n: Option<string>)
    ensures n.Some? ==> ptr == DefinitionsPrefix + n.value
  {
    if |ptr| >= |DefinitionsPrefix| && ptr[..|DefinitionsPrefix|] == DefinitionsPrefix
    then Some(ptr[|DefinitionsPrefix|..])
    else None
  }

  /** A reference compiles to a pointer from which the name is recovered
      verbatim. */
  lemma ReferencePointer(n: string)
    ensures JsonTypeSchema(ReferenceType(n)).ReferenceSchema?
    ensures RefTarget(JsonTypeSchema(ReferenceType(n)).ref) == Some(n)
  {
    assert (DefinitionsPrefix + n)[..|DefinitionsPrefix|] == DefinitionsPrefix;
    assert (DefinitionsPrefix + n)[|DefinitionsPrefix|..] == n;
  }

  /** The names a type refers to, anywhere inside it. */
  function RefNames(t: Type): set<string>
  {
    match t
    case ObjectType(props) => PropertiesRefNames(props)
    case ArrayType(e) => RefNames(e)
    case UnionType(ts) => TypesRefNames(ts)
    case ReferenceType(n) => {n}
    case _ => {}
  }

  function PropertiesRefNames(props: seq<Property>): set<string>
  {
    if props == [] then {} else RefNames(props[0].typ) + PropertiesRefNames(props[1..])
  }

  function TypesRefNames(ts: seq<Type>): set<string>
  {
    if ts == [] then {} else RefNames(ts[0]) + TypesRefNames(ts[1..])
  }

  /** The `$ref` pointers a shape holds, anywhere inside it. */
  function Refs(s: SchemaType): set<string>
  {
    match s
    case ObjectSchema(ps, _) => EntriesRefs(ps)
    case ArraySchema(items) => Refs(items)
    case OneOfSchema(xs) => SchemasRefs(xs)
    case ReferenceSchema(r) => {r}
    case _ => {}
  }

  function EntriesRefs(es: seq<Entry<SchemaType>>): set<string>
  {
    if es == [] then {} else Refs(es[0].value) + EntriesRefs(es[1..])
  }

  function SchemasRefs(xs: seq<SchemaType>): set<string>
  {
    if xs == [] then {} else Refs(xs[0]) + SchemasRefs(xs[1..])
  }

  /** The pointers to a set of definition names. */
  function Pointers(names: set<string>): set<string>
  {
    set n | n in names :: DefinitionsPrefix + n
  }

  /** Every object in the type, however deeply nested, has distinct names. */
  ghost predicate WellFormed(t: Type)
  {
    match t
    case ObjectType(props) => UniqueNames(props) && forall i :: 0 <= i < |props| ==> WellFormed(props[i].typ)
    case ArrayType(e) => WellFormed(e)
    case UnionType(ts) => forall i :: 0 <= i < |ts| ==> WellFormed(ts[i])
    case _ => true
  }

  /** Named types are never inlined: every `$ref` in the output points to a
      name the input refers to, and, when no object repeats a name, every
      referred name gets its pointer. No check that the name is defined. */
  lemma {:induction false} ReferencesPreserved(t: Type)
    ensures Refs(JsonTypeSchema(t)) <= Pointers(RefNames(t))
    ensures WellFormed(t) ==> Refs(JsonTypeSchema(t)) == Pointers(RefNames(t))
    decreases t, 0
  {
    match t
    case ObjectType(props) =>
      ObjectRefsPreserved(props);
    case ArrayType(e) =>
      ReferencesPreserved(e);
    case UnionType(ts) =>
      TypesRefsPreserved(ts);
    case ReferenceType(n) =>
      assert Pointers({n}) == {DefinitionsPrefix + n};
    case _ =>
  }

  lemma {:induction false} ObjectRefsPreserved(props: seq<Property>)
    ensures Refs(JsonTypeSchema(ObjectType(props))) <= Pointers(PropertiesRefNames(props))
    ensures WellFormed(ObjectType(props)) ==>
              Refs(JsonTypeSchema(ObjectType(props))) == Pointers(PropertiesRefNames(props))
    decreases props, 1
  {
    var es := PropertyEntries(props);
    assert Refs(JsonTypeSchema(ObjectType(props))) == EntriesRefs(PutAll([], es));
    PropertiesRefsPreserved(props);
    PutAllEntries([], es);
    EntriesRefsSubset(PutAll([], es), es);
    if WellFormed(ObjectType(props)) {
      assert UniqueKeys(es) by {
        forall i, j | 0 <= i < j < |es| ensures es[i].key != es[j].key {
          assert es[i].key == props[i].name && es[j].key == props[j].name;
        }
      }
      PutAllFresh([], es);
      assert PutAll([], es) == es;
    }
  }

  lemma {:induction false} PropertiesRefsPreserved(props: seq<Property>)
    ensures EntriesRefs(PropertyEntries(props)) <= Pointers(PropertiesRefNames(props))
    ensures (forall i :: 0 <= i < |props| ==> WellFormed(props[i].typ)) ==>
              EntriesRefs(PropertyEntries(props)) == Pointers(PropertiesRefNames(props))
    decreases props, 0
  {
    if props != [] {
      ReferencesPreserved(props[0].typ);
      PropertiesRefsPreserved(props[1..]);
      assert PropertyEntries(props)[1..] == PropertyEntries(props[1..]);
      PointersUnion(RefNames(props[0].typ), PropertiesRefNames(props[1..]));
    }
  }

  lemma {:induction false} TypesRefsPreserved(ts: seq<Type>)
    ensures SchemasRefs(JsonTypeSchemas(ts)) <= Pointers(TypesRefNames(ts))
    ensures (forall i :: 0 <= i < |ts| ==> WellFormed(ts[i])) ==>
              SchemasRefs(JsonTypeSchemas(ts)) == Pointers(TypesRefNames(ts))
    decreases ts, 0
  {
    if ts != [] {
      ReferencesPreserved(ts[0]);
      TypesRefsPreserved(ts[1..]);
      assert JsonTypeSchemas(ts)[1..] == JsonTypeSchemas(ts[1..]);
      PointersUnion(RefNames(ts[0]), TypesRefNames(ts[1..]));
    }
  }

  lemma PointersUnion(a: set<string>, b: set<string>)
    ensures Pointers(a + b) == Pointers(a) + Pointers(b)
  {
  }

  /** The pointers of entries taken from `es` are among those of `es`. */
  lemma {:induction false} EntriesRefsSubset(sub: seq<Entry<SchemaType>>, es: seq<Entry<SchemaType>>)
    requires forall e :: e in sub ==> e in es
    ensures EntriesRefs(sub) <= EntriesRefs(es)
  {
    if sub != [] {
      EntryRefsIn(sub[0], es);
      EntriesRefsSubset(sub[1..], es);
    }
  }

  lemma {:induction false} EntryRefsIn(e: Entry<SchemaType>, es: seq<Entry<SchemaType>>)
    requires e in es
    ensures Refs(e.value) <= EntriesRefs(es)
  {
    if es[0] != e {
      EntryRefsIn(e, es[1..]);
    }
  }

  // ---------------------------------------------------------------------
  // The document

  /** The type names of a contract, in declaration order. */
  function TypeNames(defs: seq<TypeDefinition>): (names: seq<string>)
    ensures |names| == |defs|
    ensures forall i :: 0 <= i < |defs| ==> names[i] == defs[i].name
  {
    seq(|defs|, i requires 0 <= i < |defs| => defs[i].name)
  }

  /** The document carries the draft-07 tag, and `definitions` has one key
      per distinct type name of the contract and no other. */
  lemma DocumentKeys(c: Contract)
    ensures JsonSchema(c).schema == Draft07
    ensures UniqueKeys(JsonSchema(c).definitions)
    ensures forall k :: k in Keys(JsonSchema(c).definitions)
                    <==> exists i :: 0 <= i < |c.types| && c.types[i].name == k
  {
    var es := DefinitionEntries(c.types);
    PutAllEntries([], es);
    forall k ensures k in Keys(es) <==> exists i :: 0 <= i < |c.types| && c.types[i].name == k {
      KeysMembership(es, k);
    }
  }

  /** Under each name, `definitions` holds the compile of the last type
      declared with that name: the last write wins. */
  lemma DocumentLastWins(c: Contract, i: nat)
    requires i < |c.types|
    requires forall j :: i < j < |c.types| ==> c.types[j].name != c.types[i].name
    ensures Get(JsonSchema(c).definitions, c.types[i].name) == Some(JsonTypeSchema(c.types[i].typ))
  {
    PutAllLastWins([], DefinitionEntries(c.types), i);
  }

  /** With distinct type names, `definitions` lists every type, compiled,
      in declaration order. */
  lemma DocumentInOrder(c: Contract)
    requires forall i, j :: 0 <= i < j < |c.types| ==> c.types[i].name != c.types[j].name
    ensures JsonSchema(c).definitions == DefinitionEntries(c.types)
    ensures Keys(JsonSchema(c).definitions) == TypeNames(c.types)
  {
    var es := DefinitionEntries(c.types);
    assert UniqueKeys(es) by {
      forall i, j | 0 <= i < j < |es| ensures es[i].key != es[j].key {
        assert es[i].key == c.types[i].name && es[j].key == c.types[j].name;
      }
    }
    PutAllFresh([], es);
    assert [] + es == es;
    forall i | 0 <= i < |es| ensures Keys(es)[i] == TypeNames(c.types)[i] {
      KeysAt(es, i);
    }
  }
}
