/** SQLiteSqlGenerator: type mapping, identifier quoting, parameter names,
    CREATE TABLE and INSERT text for SQLite. */
module SQLiteSqlGenerator {
  import opened Common
  import opened Strings
  import opened ClrTypes
  import opened DatabaseTypes
  import opened SqlIdentifiers

  const GeneratorDatabaseType: DatabaseType := SQLite
  const IdentifierQuoteChar: string := "\""
  const ParameterPrefix: string := "@"

  /** The `_typeMappings` dictionary. */
  function TypeMapping(t: ClrType): Option<string> {
    match t
    case StringType => Some("TEXT")
    case Int32 => Some("INTEGER")
    case Int64 => Some("INTEGER")
    case Int16 => Some("INTEGER")
    case ByteType => Some("INTEGER")
    case DecimalType => Some("REAL")
    case DoubleType => Some("REAL")
    case SingleType => Some("REAL")
    case DateTimeType => Some("TEXT")
    case BooleanType => Some("INTEGER")
    case ByteArray => Some("BLOB")
    case _ => None
  }

  /** The storage classes SQLite columns are declared with. */
  predicate IsStorageClass(sqlType: string) {
    sqlType == "TEXT" || sqlType == "INTEGER" || sqlType == "REAL" || sqlType == "BLOB"
  }

  /** MapCSharpTypeToSqlType(csharpType) */
  function MapCSharpTypeToSqlType(csharpType: Option<ClrType>): (r: Result<string>)
    ensures csharpType.None? ==> r == Err(ArgumentNullException("csharpType", "Type cannot be null."))
    ensures r.Ok? ==> IsStorageClass(r.value)
    ensures csharpType.Some? ==>
      (r.Ok? <==> TypeMapping(StripNullable(csharpType.value)).Some?)
    ensures csharpType.Some? && r.Ok? ==> r.value == TypeMapping(StripNullable(csharpType.value)).value
    ensures csharpType.Some? && r.Err? ==>
      r.error == NotSupportedException("Type '" + csharpType.value.FullName() + "' is not supported for SQLite mapping.")
  {
    if csharpType.None? then
      Err(ArgumentNullException("csharpType", "Type cannot be null."))
    else
      match TypeMapping(StripNullable(csharpType.value))
      case Some(sqlType) => Ok(sqlType)
      case None =>
        Err(NotSupportedException("Type '" + csharpType.value.FullName() + "' is not supported for SQLite mapping."))
  }

  /** QuoteIdentifier(identifier): wraps the text in double quotes as it is;
      a '"' inside is not doubled. */
  function QuoteIdentifier(identifier: Option<string>): (r: Result<string>)
    ensures identifier.None? ==> r == Err(ArgumentNullException("identifier", "Identifier cannot be null."))
    ensures identifier == Some("") ==> r == Err(ArgumentException("identifier", "Identifier cannot be empty."))
    ensures r.Ok? <==> !IsNullOrEmpty(identifier)
    ensures r.Ok? ==> (
      && |r.value| == |identifier.value| + 2
      && StartsWith(r.value, IdentifierQuoteChar) && EndsWith(r.value, IdentifierQuoteChar)
      && r.value[1..|r.value| - 1] == identifier.value)
  {
    if identifier.None? then
      Err(ArgumentNullException("identifier", "Identifier cannot be null."))
    else if identifier.value == "" then
      Err(ArgumentException("identifier", "Identifier cannot be empty."))
    else
      Ok("\"" + identifier.value + "\"")
  }

  /** GetParameterName(fieldName) */
  function GetParameterName(fieldName: Option<string>): (r: Result<string>)
    ensures fieldName.None? ==> r == Err(ArgumentNullException("fieldName", "Field name cannot be null."))
    ensures fieldName == Some("") ==> r == Err(ArgumentException("fieldName", "Field name cannot be empty."))
    ensures r.Ok? <==> !IsNullOrEmpty(fieldName)
    ensures r.Ok? ==> StartsWith(r.value, ParameterPrefix) && r.value[|ParameterPrefix|..] == fieldName.value
  {
    if fieldName.None? then
      Err(ArgumentNullException("fieldName", "Field name cannot be null."))
    else if fieldName.value == "" then
      Err(ArgumentException("fieldName", "Field name cannot be empty."))
    else
      Ok("@" + fieldName.value)
  }

  /** One column of the DDL: the quoted property name and its SQL type. */
  function ColumnDefinition(property: PropertyInfo): Result<string> {
    var columnName :- QuoteIdentifier(Some(property.name));
    var sqlType :- MapCSharpTypeToSqlType(Some(property.propertyType));
    Ok(columnName + " " + sqlType)
  }

  /** What GenerateCreateTableDdl returns or throws. */
  function CreateTableDdl(jvDataType: Option<EntityType>): Result<string> {
    if jvDataType.None? then
      Err(ArgumentNullException("jvDataType", "JV-Data type cannot be null."))
    else
      var tableName :- QuoteIdentifier(Some(jvDataType.value.name));
      var columns :- Traverse(jvDataType.value.properties, ColumnDefinition);
      Ok("CREATE TABLE IF NOT EXISTS " + tableName + " (" + Join(", ", columns) + ")")
  }

  /** GenerateCreateTableDdl(jvDataType): the `foreach` over the properties. */
  method GenerateCreateTableDdl(jvDataType: Option<EntityType>) returns (r: Result<string>)
    ensures r == CreateTableDdl(jvDataType)
  {
    if jvDataType.None? {
      return Err(ArgumentNullException("jvDataType", "JV-Data type cannot be null."));
    }
    var tableName := QuoteIdentifier(Some(jvDataType.value.name));
    if tableName.Err? {
      return Err(tableName.error);
    }
    var properties := jvDataType.value.properties;
    var columns: seq<string> := [];
    var i := 0;
    while i < |properties|
      invariant 0 <= i <= |properties|
      invariant Traverse(properties[..i], ColumnDefinition) == Ok(columns)
    {
      var property := properties[i];
      var columnName := QuoteIdentifier(Some(property.name));
      if columnName.Err? {
        TraverseFailsAt(properties, i, ColumnDefinition);
        return Err(columnName.error);
      }
      var sqlType := MapCSharpTypeToSqlType(Some(property.propertyType));
      if sqlType.Err? {
        TraverseFailsAt(properties, i, ColumnDefinition);
        return Err(sqlType.error);
      }
      TraverseSnoc(properties[..i], property, ColumnDefinition);
      assert properties[..i + 1] == properties[..i] + [property];
      columns := columns + [columnName.value + " " + sqlType.value];
      i := i + 1;
    }
    assert properties[..i] == properties;
    var columnDefinitions := Join(", ", columns);
    return Ok("CREATE TABLE IF NOT EXISTS " + tableName.value + " (" + columnDefinitions + ")");
  }

  /** GenerateInsertSql(jvDataType) */
  function GenerateInsertSql(jvDataType: Option<EntityType>): Result<string> {
    if jvDataType.None? then
      Err(ArgumentNullException("jvDataType", "JV-Data type cannot be null."))
    else
      var tableName :- QuoteIdentifier(Some(jvDataType.value.name));
      var properties := jvDataType.value.properties;
      var columnNames :- Traverse(properties, (p: PropertyInfo) => QuoteIdentifier(Some(p.name)));
      var parameterNames :- Traverse(properties, (p: PropertyInfo) => GetParameterName(Some(p.name)));
      Ok("INSERT INTO " + tableName + " (" + Join(", ", columnNames) + ") VALUES (" + Join(", ", parameterNames) + ")")
  }

  // ---------------------------------------------------------------------
  // Properties
  // ---------------------------------------------------------------------

  /** `T?` maps like `T`. */
  lemma NullableMapsLikeUnderlying(t: ClrType)
    requires !t.Nullable?
    ensures MapCSharpTypeToSqlType(Some(Nullable(t))).Ok? <==> MapCSharpTypeToSqlType(Some(t)).Ok?
    ensures MapCSharpTypeToSqlType(Some(Nullable(t))).Ok? ==>
      MapCSharpTypeToSqlType(Some(Nullable(t))).value == MapCSharpTypeToSqlType(Some(t)).value
  {
  }

  /** Every property name is usable: not empty. */
  predicate NamesUsable(e: EntityType) {
    e.name != "" && forall i | 0 <= i < |e.properties| :: e.properties[i].name != ""
  }

  /** Every property's type (after removing one Nullable) is in the table. */
  predicate TypesMapped(e: EntityType) {
    forall i | 0 <= i < |e.properties| :: TypeMapping(StripNullable(e.properties[i].propertyType)).Some?
  }

  function Quoted(name: string): string {
    "\"" + name + "\""
  }

  /** The column definitions a well-formed entity type is declared with. */
  function DeclaredColumns(e: EntityType): seq<string>
    requires TypesMapped(e)
  {
    seq(|e.properties|, i requires 0 <= i < |e.properties| =>
      Quoted(e.properties[i].name) + " " + TypeMapping(StripNullable(e.properties[i].propertyType)).value)
  }

  function QuotedColumns(e: EntityType): seq<string> {
    seq(|e.properties|, i requires 0 <= i < |e.properties| => Quoted(e.properties[i].name))
  }

  function ParameterNames(e: EntityType): seq<string> {
    seq(|e.properties|, i requires 0 <= i < |e.properties| => "@" + e.properties[i].name)
  }

  /** The DDL succeeds exactly when the names are non-empty and every type
      is mapped, and then it declares each property, in order, as its quoted
      name followed by its SQL type. */
  lemma CreateTableDdlSucceeds(e: EntityType)
    ensures CreateTableDdl(Some(e)).Ok? <==> NamesUsable(e) && TypesMapped(e)
    ensures CreateTableDdl(Some(e)).Ok? ==>
      CreateTableDdl(Some(e)).value ==
        "CREATE TABLE IF NOT EXISTS " + Quoted(e.name) + " (" + Join(", ", DeclaredColumns(e)) + ")"
  {
    var ps := e.properties;
    TraverseOk(ps, ColumnDefinition);
    if e.name != "" && Traverse(ps, ColumnDefinition).Ok? {
      var cols := Traverse(ps, ColumnDefinition).value;
      var expected := DeclaredColumns(e);
      assert cols == expected;
      assert CreateTableDdl(Some(e)).value ==
        "CREATE TABLE IF NOT EXISTS " + Quoted(e.name) + " (" + Join(", ", expected) + ")";
    }
    assert (forall i | 0 <= i < |ps| :: ColumnDefinition(ps[i]).Ok?) <==>
      (forall i | 0 <= i < |ps| :: ps[i].name != "" && TypeMapping(StripNullable(ps[i].propertyType)).Some?);
  }

  /** A failing DDL reports the first property, in order, whose name is
      empty or whose type is not mapped (an empty table name comes first). */
  lemma CreateTableDdlFirstError(e: EntityType) returns (k: nat)
    requires e.name != "" && CreateTableDdl(Some(e)).Err?
    ensures k < |e.properties| && ColumnDefinition(e.properties[k]).Err?
    ensures CreateTableDdl(Some(e)).error == ColumnDefinition(e.properties[k]).error
    ensures forall j | 0 <= j < k :: ColumnDefinition(e.properties[j]).Ok?
  {
    k := TraverseFirstError(e.properties, ColumnDefinition);
  }

  /** INSERT lists the quoted property names and, in the same order, a
      parameter named after each property; it fails only on an empty name. */
  lemma InsertSqlShape(e: EntityType)
    ensures GenerateInsertSql(Some(e)).Ok? <==> NamesUsable(e)
    ensures GenerateInsertSql(Some(e)).Ok? ==>
      GenerateInsertSql(Some(e)).value ==
        "INSERT INTO " + Quoted(e.name)
        + " (" + Join(", ", QuotedColumns(e)) + ") VALUES (" + Join(", ", ParameterNames(e)) + ")"
  {
    var ps := e.properties;
    var quote := (p: PropertyInfo) => QuoteIdentifier(Some(p.name));
    var param := (p: PropertyInfo) => GetParameterName(Some(p.name));
    TraverseOk(ps, quote);
    TraverseOk(ps, param);
    if NamesUsable(e) {
      var columns := QuotedColumns(e);
      var parameters := ParameterNames(e);
      assert Traverse(ps, quote).value == columns;
      assert Traverse(ps, param).value == parameters;
      assert GenerateInsertSql(Some(e)).value ==
        "INSERT INTO " + Quoted(e.name) + " (" + Join(", ", columns) + ") VALUES (" + Join(", ", parameters) + ")";
    } else if e.name != "" {
      var i :| 0 <= i < |ps| && ps[i].name == "";
      assert quote(ps[i]).Err?;
    }
  }

  /** Quoting does not escape: an identifier reads back as itself exactly
      when it holds no '"'. */
  lemma QuoteReadsBackUnlessQuoteInside(identifier: string)
    requires identifier != ""
    ensures Unquote(QuoteIdentifier(Some(identifier)).value) == Some(identifier) <==> !HasDoubleQuote(identifier)
  {
    var q := QuoteIdentifier(Some(identifier)).value;
    assert q[1..|q| - 1] == identifier;
    if HasDoubleQuote(identifier) {
      UnescapeShortens(identifier);
    } else {
      UnescapePlain(identifier);
    }
  }
}
