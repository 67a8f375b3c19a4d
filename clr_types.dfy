/** The parts of .NET reflection the SQL generators look at: a property's
    type, and the public instance properties of an entity type. */
module ClrTypes {
  import opened Common

  /** System.Type, restricted to the types the generators' tables name;
      every other type is `Other`, given by namespace and simple name. */
  datatype ClrType =
    | StringType | Int32 | Int64 | Int16 | ByteType
    | DecimalType | DoubleType | SingleType | DateTimeType | BooleanType
    | ByteArray
    | Nullable(underlying: ClrType)
    | Other(namespace: string, name: string)
  {
    /** Type.Name */
    function Name(): string {
      match this
      case StringType => "String"
      case Int32 => "Int32"
      case Int64 => "Int64"
      case Int16 => "Int16"
      case ByteType => "Byte"
      case DecimalType => "Decimal"
      case DoubleType => "Double"
      case SingleType => "Single"
      case DateTimeType => "DateTime"
      case BooleanType => "Boolean"
      case ByteArray => "Byte[]"
      case Nullable(_) => "Nullable`1"
      case Other(_, n) => n
    }

    /** Type.FullName; for a Nullable the assembly-qualified name of the
        type argument is shortened to its full name. */
    function FullName(): string {
      match this
      case Nullable(u) => "System.Nullable`1[[" + u.FullName() + "]]"
      case Other(ns, n) => if ns == "" then n else ns + "." + n
      case _ => "System." + Name()
    }
  }

  /** Nullable.GetUnderlyingType: the type argument of a Nullable, or null. */
  function GetUnderlyingType(t: ClrType): (r: Option<ClrType>)
    ensures r.Some? <==> t.Nullable?
  {
    if t.Nullable? then Some(t.underlying) else None
  }

  /** `Nullable.GetUnderlyingType(t) ?? t`: one level of Nullable removed. */
  function StripNullable(t: ClrType): (r: ClrType)
    ensures t.Nullable? ==> r == t.underlying
    ensures !t.Nullable? ==> r == t
  {
    GetUnderlyingType(t).GetOr(t)
  }

  /** PropertyInfo: Name and PropertyType. */
  datatype PropertyInfo = PropertyInfo(name: string, propertyType: ClrType)

  /** An entity type: its Name and what
      GetProperties(BindingFlags.Public | BindingFlags.Instance) returns, in
      that order. */
  datatype EntityType = EntityType(name: string, properties: seq<PropertyInfo>)
}
