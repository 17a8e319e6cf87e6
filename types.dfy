/** The type IR the compiler reads and the contract that lists named types.
    Both are produced by the contract parser, which is not part of this
    model; only their shapes are declared here. */
module Types {

  /** One IR type node; `TypeKind` becomes the constructor. */
  datatype Type =
    | NullType
    | BooleanType
    | BooleanLiteral(boolValue: bool)
    | DateType
    | DateTimeType
    | StringType
    | StringLiteral(stringValue: string)
    | FloatType
    | DoubleType
    | FloatLiteral(floatValue: real)
    | Int32Type
    | Int64Type
    | IntLiteral(intValue: int)
    | ObjectType(properties: seq<Property>)
    | ArrayType(elementType: Type)
    | UnionType(types: seq<Type>)
    | ReferenceType(name: string)

  /** A property of an object type. */
  datatype Property = Property(name: string, typ: Type, optional: bool)

  /** A named type of a contract. */
  datatype TypeDefinition = TypeDefinition(name: string, typ: Type)

  /** A contract's named types, in declaration order. */
  datatype Contract = Contract(types: seq<TypeDefinition>)

  /** The nine kinds that carry no payload and have no children. */
  predicate IsScalar(t: Type)
  {
    t.NullType? || t.BooleanType? || t.DateType? || t.DateTimeType? || t.StringType?
    || t.FloatType? || t.DoubleType? || t.Int32Type? || t.Int64Type?
  }

  /** The four kinds that carry one concrete value. */
  predicate IsLiteral(t: Type)
  {
    t.BooleanLiteral? || t.StringLiteral? || t.FloatLiteral? || t.IntLiteral?
  }
}
