# JSON Schema back-end of the contract compiler, in Dafny

This project models the JSON Schema (draft-07) back-end of a
contract-definition toolchain (`lib/src/neu/schemas/json-schema.ts`). The
back-end has two parts:

- `jsonTypeSchema` compiles one node of the type IR into one JSON Schema shape:
  - the nine scalar kinds become bare typed shapes;
  - the four literal kinds become typed shapes with a `const`;
  - objects fold their properties into `properties` and `required`;
  - arrays wrap the element schema as `items`;
  - unions map their members into `oneOf`;
  - references become `$ref` pointers `#/definitions/<name>`.
- `jsonSchema` folds a contract's named types into the `definitions` map of a
  document tagged with the draft-07 `$schema` URI.

The files and their modules:

- `types.dfy` (`Types`): the IR, as its producer delivers it. The IR is
  `Type` with one constructor per `TypeKind`, plus `Property`,
  `TypeDefinition` and `Contract`.
- `shapes.dfy` (`Shapes`): the `JsonSchemaType` union and the `JsonSchema`
  document, as datatypes.
- `ordered_maps.dfy` (`OrderedMaps`): the JavaScript objects the compiler
  uses as maps. They are insertion-ordered association lists. `Put` is the
  assignment `acc[name] = value`: it overwrites an existing key in place and
  otherwise appends it. `PutAll` is a left fold of `Put`.
- `compiler.dfy` (`JsonSchemaCompiler`): `JsonTypeSchema`, an exhaustive
  `match`, and `JsonSchema`. The two `reduce` folds of the source are also
  written as loops: `CompileObject` and `CompileContract`. Each is proved
  equal to the function.
- `compiler_properties.dfy` (`JsonSchemaProperties`): case-by-case
  properties, the key and last-write-wins properties of both maps, and the
  preservation of references.
- `json_encoding.dfy` (`JsonEncoding`): the JSON value tree that a shape or
  document is, with its keywords in the order the compiler writes them. It
  also has a decoder, proved to invert the encoding, and `generateJsonSchema`
  with its two-case format selector.
- `scenarios.dfy` (`Scenarios`): concrete compilations, among them the
  `Point` document.

Duplicate names are modelled as the code handles them:

- Properties: a later property overwrites the earlier one's value, but the
  key keeps its first position. `required` receives one push per
  non-optional declaration, so it can list a name twice.
- Contract types: the last definition with a name wins, in the first one's
  position.

With the producer's invariant that names are distinct, these facts reduce to
plain ones. `properties` and `definitions` are then the declarations in
order (`ObjectPropertiesInOrder`, `DocumentInOrder`), and an optional
property never appears in `required` (`ObjectRequired`).

Where the code is more permissive than its intended use, the model follows
the code. Unions are meant to be non-empty, but the code does not check
this, so an empty union compiles to an empty `oneOf`. The interface declares
`required` optional, but the compiler always writes it, possibly empty, so
the object shape always carries it.

## Model

| member | source | states |
|---|---|---|
| `JsonSchemaProperties.ScalarsAreBare` | lib/src/neu/schemas/json-schema.ts:35-73 | Each scalar kind compiles to a shape without `const`. Its `type` is null/boolean/string (date, date-time, string)/number (float, double)/integer (int32, int64). |
| `JsonSchemaProperties.LiteralsCarryConst` | lib/src/neu/schemas/json-schema.ts:43-78 | A literal compiles to exactly its scalar's shape plus a `const`. The `const` equals the literal's value, for boolean, string, float and int literals. |
| `JsonEncoding.ScalarObject` | lib/src/neu/schemas/json-schema.ts:35-73 | A scalar is emitted as an object with the single member `type`. |
| `JsonEncoding.LiteralObject` | lib/src/neu/schemas/json-schema.ts:43-78 | A literal is emitted as `{type, const}`, with its scalar's `type` and its own value. |
| `JsonSchemaCompiler.PropertyEntries` | lib/src/neu/schemas/json-schema.ts:85 | The object fold assigns, for each property in declaration order, its name and the compile of its type. |
| `JsonSchemaProperties.ObjectPropertyKeys` | lib/src/neu/schemas/json-schema.ts:79-93 | `properties` has unique keys. A name is a key exactly when some property declares it. |
| `JsonSchemaProperties.ObjectPropertyValue` | lib/src/neu/schemas/json-schema.ts:85 | Under each name, `properties` holds the compile of the last property declared with that name. |
| `JsonSchemaProperties.ObjectPropertiesInOrder` | lib/src/neu/schemas/json-schema.ts:80-93 | With distinct names, `properties` is exactly the declared properties, compiled, in declaration order. |
| `JsonSchemaCompiler.RequiredNames` | lib/src/neu/schemas/json-schema.ts:82-84 | A name is in `required` exactly when some non-optional property declares it. |
| `JsonSchemaCompiler.RequiredNamesAppend` | lib/src/neu/schemas/json-schema.ts:80-93 | `required` is an in-order filter: the names of a concatenation are the concatenation of the names. |
| `JsonSchemaProperties.RequiredNamesSingle` | lib/src/neu/schemas/json-schema.ts:82-84 | One property adds its name to `required` when it is not optional, and adds nothing otherwise. |
| `JsonSchemaProperties.ObjectRequired` | lib/src/neu/schemas/json-schema.ts:82-84 | The object's `required` holds exactly the non-optional names. With distinct names, an optional property's name never appears in it. |
| `JsonSchemaCompiler.CompileObject` | lib/src/neu/schemas/json-schema.ts:79-93 | The single-pass loop that pushes onto `required` and assigns into `properties` gives exactly the object case of `JsonTypeSchema`. |
| `JsonEncoding.ArrayObject` | lib/src/neu/schemas/json-schema.ts:94-98 | An array is emitted as `{type: "array", items}`, and `items` is the element type's compile. |
| `JsonSchemaCompiler.JsonTypeSchemas` | lib/src/neu/schemas/json-schema.ts:99-102 | `oneOf` has as many entries as the union has members. Entry i is the compile of member i: nothing is deduplicated or flattened. |
| `JsonEncoding.UnionObject` | lib/src/neu/schemas/json-schema.ts:99-102 | A union is emitted as `{oneOf}` holding one emitted member per union member, in order. |
| `Scenarios.UnionKeepsDuplicates` | lib/src/neu/schemas/json-schema.ts:99-102 | A union of two identical members keeps two identical entries. |
| `JsonSchemaProperties.ReferencePointer` | lib/src/neu/schemas/json-schema.ts:103-106 | A reference compiles to a `$ref` pointer from which `RefTarget` recovers the name verbatim. |
| `JsonSchemaProperties.RefTarget` | lib/src/neu/schemas/json-schema.ts:105 | A name is recovered from a pointer only when the pointer is `#/definitions/` followed by that name. |
| `JsonEncoding.ReferenceObject` | lib/src/neu/schemas/json-schema.ts:103-106 | A reference named n is emitted as `{$ref: "#/definitions/" + n}`. |
| `JsonSchemaProperties.ReferencesPreserved` | lib/src/neu/schemas/json-schema.ts:33-110 | Every `$ref` in a compiled tree points to a name that the type refers to. When no object repeats a name, every referred name gets its pointer. Named types are never inlined. |
| `JsonSchemaProperties.ObjectRefsPreserved` | lib/src/neu/schemas/json-schema.ts:79-93 | The same, for an object type: its `$ref`s point only to names its properties refer to, and all of them when names are distinct throughout. |
| `JsonSchemaProperties.PropertiesRefsPreserved` | lib/src/neu/schemas/json-schema.ts:79-93 | The same, for the compiled properties of an object. |
| `JsonSchemaProperties.TypesRefsPreserved` | lib/src/neu/schemas/json-schema.ts:99-102 | The same, for the compiled members of a union. |
| `Scenarios.DanglingReference` | lib/src/neu/schemas/json-schema.ts:103-106 | A reference to a name the contract does not define still compiles to its pointer. |
| `JsonSchemaCompiler.DefinitionEntries` | lib/src/neu/schemas/json-schema.ts:27 | The contract fold assigns, for each type in declaration order, its name and its compile. |
| `JsonSchemaProperties.DocumentKeys` | lib/src/neu/schemas/json-schema.ts:21-31 | `$schema` is always the draft-07 URI. `definitions` has unique keys, and a key exactly when the contract declares that name. |
| `JsonSchemaProperties.DocumentLastWins` | lib/src/neu/schemas/json-schema.ts:24-29 | Under each name, `definitions` holds the compile of the last type declared with it: the last write wins. |
| `JsonSchemaProperties.DocumentInOrder` | lib/src/neu/schemas/json-schema.ts:24-29 | With distinct names, `definitions` lists every type, compiled, in declaration order. |
| `JsonSchemaCompiler.CompileContract` | lib/src/neu/schemas/json-schema.ts:21-31 | The loop that assigns into `definitions` gives exactly `JsonSchema`. |
| `Scenarios.DefinitionOrder` | lib/src/neu/schemas/json-schema.ts:24-29 | Definitions `A, B, C` come out keyed `A, B, C` in that order. |
| `Scenarios.DuplicateDefinition` | lib/src/neu/schemas/json-schema.ts:24-29 | Two definitions named `A` leave one entry, holding the second one's compile. |
| `Scenarios.RequiredExample` | lib/src/neu/schemas/json-schema.ts:80-93 | Take `a` required and `b` optional. `properties` has keys `a, b` and `required` is `["a"]`. |
| `Scenarios.PointDocument` | lib/src/neu/schemas/json-schema.ts:21-110 | The `Point {x: int32, y: int32}` contract gives the draft-07 document with integer `x`, integer `y`, and `required` `["x", "y"]`. |
| `Scenarios.PointShape` | lib/src/neu/schemas/json-schema.ts:79-93 | The compiled `Point` is an object shape with two integer properties, both required. |
| `OrderedMaps.Get` | lib/src/neu/schemas/json-schema.ts:132-134 | A lookup succeeds exactly for present keys and returns a stored entry's value. |
| `OrderedMaps.PutGet` | lib/src/neu/schemas/json-schema.ts:85 | After `acc[k] = v`, `acc[k]` is `v` and every other key reads as before. |
| `OrderedMaps.PutKeys` | lib/src/neu/schemas/json-schema.ts:85 | An assignment keeps the key order, and appends a key that is new. |
| `OrderedMaps.PutEntries` | lib/src/neu/schemas/json-schema.ts:85 | An assignment keeps keys unique, and leaves only old entries or the new one. |
| `OrderedMaps.PutNew` | lib/src/neu/schemas/json-schema.ts:27 | Assigning an absent key appends it at the end. |
| `OrderedMaps.PutAllEntries` | lib/src/neu/schemas/json-schema.ts:24-29 | A fold of assignments keeps keys unique. Its keys and entries come from the start map or the assignments. |
| `OrderedMaps.PutAllSnoc` | lib/src/neu/schemas/json-schema.ts:80-93 | Folding one more assignment equals assigning it after the fold: this is the step of each loop. |
| `OrderedMaps.PutAllUntouched` | lib/src/neu/schemas/json-schema.ts:24-29 | A key that no assignment touches keeps its value. |
| `OrderedMaps.PutAllLastWins` | lib/src/neu/schemas/json-schema.ts:24-29 | The last assignment to a key decides its value. |
| `OrderedMaps.PutAllFresh` | lib/src/neu/schemas/json-schema.ts:24-29 | Distinct, new keys are appended in order. |
| `JsonEncoding.SchemaRoundTrip` | lib/src/neu/schemas/json-schema.ts:119-182 | Decoding the emitted tree of any schema shape gives back that shape. |
| `JsonEncoding.EntriesRoundTrip` | lib/src/neu/schemas/json-schema.ts:130-136 | The same, for a `properties` map. |
| `JsonEncoding.SchemasRoundTrip` | lib/src/neu/schemas/json-schema.ts:143-151 | The same, for a `oneOf` list. |
| `JsonEncoding.StringsRoundTrip` | lib/src/neu/schemas/json-schema.ts:135 | The same, for a `required` list. |
| `JsonEncoding.DocumentRoundTrip` | lib/src/neu/schemas/json-schema.ts:112-117 | Decoding the emitted tree of any document gives back the document. |
| `JsonEncoding.GenerateJsonSchema` | lib/src/neu/schemas/json-schema.ts:6-19 | The selector picks the JSON serializer exactly when it is `json`, and every selector is handled. The tree handed to the serializer decodes to `jsonSchema(contract)`. |

## Left out

- The text serializers are not modelled. They are `JSON.stringify(contract, null, 2)` (line 13) and `YAML.safeDump` (line 15), calls into the runtime and into js-yaml. Instead, the model stops at the value tree handed to them (`JsonEncoding.ToJson`, `DocumentToJson`). The round trip is stated on that tree, not on text.
- `assertNever` (lines 17 and 108) has no counterpart. The IR and the format selector are closed datatypes, and the matches over them are exhaustive.
- Float literal values are modelled as exact `real` numbers, copied through unchanged. IEEE-754 rounding is not modelled. Neither is `NaN`, which `JSON.stringify` writes as `null`, nor `-0`.
- The `discriminator` field of `JsonSchemaOneOf` (lines 145-150) is declared but never produced, so the shapes leave it out.
- The `enum` fields (lines 160, 166, 172) are likewise declared but never produced, and are left out.
- `../types` and `../definitions` are not part of this model. Their shapes are inferred from how the compiler reads them: `kind`, `value`, `properties` (with `name`, `type`, `optional`), `elementType`, `types`, `name`.
- Two JavaScript object quirks are not modelled. Keys that look like array indices (`"0"`, `"12"`) are enumerated before other keys, in numeric order. Assigning to the key `__proto__` changes the prototype instead of adding a property. The model keeps plain insertion order for every key.
