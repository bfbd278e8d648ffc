/** The data types, and the element and attribute names by which XML documents refer to them and to
    the other parts of a dataset. Names are tokens, one for each name the code compares with. */
module Types {
  datatype Type =
    | NullType | Byte | Int8 | UInt8 | Int16 | UInt16 | Int32 | UInt32 | Int64 | UInt64
    | Float32 | Float64 | Str | Url | Url4 | ArrayType | Structure | Sequence | Grid | Group

  /** The local name of an XML element. */
  datatype Tag =
    | TypeTag(ty: Type) | MapTag | DatasetTag | AttributeTag | AliasTag | ValueTag | DimensionTag
    | BlobTag | DataBlobTag | EnumerationTag | EnumConstTag | OtherTag(text: string)

  /** The name of an XML attribute. */
  datatype Key =
    | NameKey | TypeKey | SizeKey | HrefKey | AliasKey | CapitalAliasKey | DapVersionKey
    | BaseTypeKey | ValueKey | OtherKey(text: string)

  /** get_type: the type an element name stands for. */
  function GetType(tag: Tag): Type {
    if tag.TypeTag? && tag.ty != Group then tag.ty else NullType
  }

  predicate IsSimple(t: Type) {
    !(t.NullType? || t.ArrayType? || t.Structure? || t.Sequence? || t.Grid? || t.Group?)
  }

  predicate IsConstructor(t: Type) {
    t.Structure? || t.Sequence? || t.Grid? || t.Group?
  }

  predicate IsInteger(t: Type) {
    t.Byte? || t.Int8? || t.UInt8? || t.Int16? || t.UInt16? || t.Int32? || t.UInt32? || t.Int64? || t.UInt64?
  }

  /** The types the DAP2 factory of the DDX parser can build. */
  predicate InFactory(t: Type) {
    !(t.NullType? || t.Int8? || t.UInt8? || t.Int64? || t.UInt64? || t.Url4? || t.Group?)
  }
}
