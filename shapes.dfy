/** The JSON Schema (draft-07) shapes the compiler produces. */
module Shapes {
  import opened Options
  import opened OrderedMaps

  /** The dialect URI every document carries in `$schema`. */
  const Draft07: string := "http://json-schema.org/draft-07/schema#"

  /** `JsonSchemaType`: one constructor per member of the union type. The
      scalar shapes carry their optional `const`. */
  datatype SchemaType =
    | ObjectSchema(properties: seq<Entry<SchemaType>>, required: seq<string>)
    | ArraySchema(items: SchemaType)
    | OneOfSchema(oneOf: seq<SchemaType>)
    | NullSchema
    | StringSchema(stringConst: Option<string>)
    | NumberSchema(numberConst: Option<real>)
    | IntegerSchema(integerConst: Option<int>)
    | BooleanSchema(booleanConst: Option<bool>)
    | ReferenceSchema(ref: string)

  /** `JsonSchema`: the whole document. */
  datatype Document = Document(schema: string, definitions: seq<Entry<SchemaType>>)

  /** The value of the shape's `type` keyword, if it has one. */
  function TypeKeyword(s: SchemaType): Option<string>
  {
    match s
    case ObjectSchema(_, _) => Some("object")
    case ArraySchema(_) => Some("array")
    case NullSchema => Some("null")
    case StringSchema(_) => Some("string")
    case NumberSchema(_) => Some("number")
    case IntegerSchema(_) => Some("integer")
    case BooleanSchema(_) => Some("boolean")
    case OneOfSchema(_) => None
    case ReferenceSchema(_) => None
  }

  /** Whether the shape constrains its instances to one constant. */
  predicate HasConst(s: SchemaType)
  {
    match s
    case StringSchema(c) => c.Some?
    case NumberSchema(c) => c.Some?
    case IntegerSchema(c) => c.Some?
    case BooleanSchema(c) => c.Some?
    case _ => false
  }

  /** The shape with its `const` removed, if it has one. */
  function WithoutConst(s: SchemaType): SchemaType
  {
    match s
    case StringSchema(_) => StringSchema(None)
    case NumberSchema(_) => NumberSchema(None)
    case IntegerSchema(_) => IntegerSchema(None)
    case BooleanSchema(_) => BooleanSchema(None)
    case _ => s
  }
}
