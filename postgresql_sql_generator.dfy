/** PostgreSQLSqlGenerator: type mapping, identifier quoting, parameter
    names, and CREATE TABLE, INSERT, UPDATE, SELECT and DELETE text for
    PostgreSQL. */
module PostgreSQLSqlGenerator {
  import opened Common
  import opened Strings
  import opened ClrTypes
  import opened DatabaseTypes
  import opened SqlIdentifiers

  const GeneratorDatabaseType: DatabaseType := PostgreSQL
  const IdentifierQuoteChar: string := "\""
  const ParameterPrefix: string := "@"

  /** Environment.NewLine, which StringBuilder.AppendLine appends (the tool runs on Windows). */
  const NewLine: string := "\r\n"

  /** The message of an ArgumentNullException built from a parameter name only. */
  const ValueCannotBeNull: string := "Value cannot be null."

  /** The `_typeMappings` dictionary. */
  function TypeMapping(t: ClrType): Option<string> {
    match t
    case StringType => Some("TEXT")
    case Int32 => Some("INTEGER")
    case Int64 => Some("BIGINT")
    case Int16 => Some("SMALLINT")
    case ByteType => Some("SMALLINT")
    case DecimalType => Some("NUMERIC(18,6)")
    case DoubleType => Some("DOUBLE PRECISION")
    case SingleType => Some("REAL")
    case DateTimeType => Some("TIMESTAMP")
    case BooleanType => Some("BOOLEAN")
    case ByteArray => Some("BYTEA")
    case _ => None
  }

  /** MapCSharpTypeToSqlType(type); the error names the type by its simple Name. */
  function MapCSharpTypeToSqlType(csharpType: Option<ClrType>): (r: Result<string>)
    ensures csharpType.None? ==> r == Err(ArgumentNullException("type", ValueCannotBeNull))
    ensures csharpType.Some? ==>
      (r.Ok? <==> TypeMapping(StripNullable(csharpType.value)).Some?)
    ensures csharpType.Some? && r.Ok? ==> r.value == TypeMapping(StripNullable(csharpType.value)).value
    ensures csharpType.Some? && r.Err? ==>
      r.error == NotSupportedException("Type " + csharpType.value.Name() + " is not supported by PostgreSQL SQL generator.")
  {
    if csharpType.None? then
      Err(ArgumentNullException("type", ValueCannotBeNull))
    else
      match TypeMapping(StripNullable(csharpType.value))
      case Some(sqlType) => Ok(sqlType)
      case None =>
        Err(NotSupportedException("Type " + csharpType.value.Name() + " is not supported by PostgreSQL SQL generator."))
  }

  /** identifier.Replace("\"", "\"\""): every double quote written twice. */
  function DoubleQuotes(s: string): (r: string)
    ensures |r| >= |s|
    ensures (forall i | 0 <= i < |s| :: s[i] != '"') ==> r == s
  {
    if s == [] then []
    else (if s[0] == '"' then "\"\"" else [s[0]]) + DoubleQuotes(s[1..])
  }

  /** QuoteIdentifier(identifier) */
  function QuoteIdentifier(identifier: Option<string>): (r: Result<string>)
    ensures r.Ok? <==> !IsNullOrEmpty(identifier)
    ensures r.Err? ==> r.error == ArgumentException("identifier", "Identifier cannot be null or empty.")
  {
    if IsNullOrEmpty(identifier) then
      Err(ArgumentException("identifier", "Identifier cannot be null or empty."))
    else
      Ok("\"" + DoubleQuotes(identifier.value) + "\"")
  }

  /** GetParameterName(columnName) */
  function GetParameterName(columnName: Option<string>): (r: Result<string>)
    ensures r.Ok? <==> !IsNullOrEmpty(columnName)
    ensures r.Ok? ==> StartsWith(r.value, ParameterPrefix) && r.value[|ParameterPrefix|..] == columnName.value
    ensures r.Err? ==> r.error == ArgumentException("columnName", "Column name cannot be null or empty.")
  {
    if IsNullOrEmpty(columnName) then
      Err(ArgumentException("columnName", "Column name cannot be null or empty."))
    else
      Ok("@" + columnName.value)
  }

  /** One element of the lazy `Select` of GenerateCreateTableDdl. */
  function ColumnLine(property: PropertyInfo): Result<string> {
    var columnName :- QuoteIdentifier(Some(property.name));
    var sqlType :- MapCSharpTypeToSqlType(Some(property.propertyType));
    Ok("    " + columnName + " " + sqlType)
  }

  /** GenerateCreateTableDdl(entityType): three AppendLine calls, the middle
      one a Join of the column lines with ",\n". */
  function GenerateCreateTableDdl(entityType: Option<EntityType>): Result<string> {
    if entityType.None? then
      Err(ArgumentNullException("entityType", ValueCannotBeNull))
    else
      var tableName :- QuoteIdentifier(Some(entityType.value.name));
      var columns :- Traverse(entityType.value.properties, ColumnLine);
      Ok("CREATE TABLE IF NOT EXISTS " + tableName + " (" + NewLine
         + Join(",\n", columns) + NewLine
         + ");" + NewLine)
  }

  function QuotedName(p: PropertyInfo): Result<string> {
    QuoteIdentifier(Some(p.name))
  }

  function ParameterOf(p: PropertyInfo): Result<string> {
    GetParameterName(Some(p.name))
  }

  /** GenerateInsertSql(entityType) */
  function GenerateInsertSql(entityType: Option<EntityType>): Result<string> {
    if entityType.None? then
      Err(ArgumentNullException("entityType", ValueCannotBeNull))
    else
      var tableName :- QuoteIdentifier(Some(entityType.value.name));
      var columnNames :- Traverse(entityType.value.properties, QuotedName);
      var parameterNames :- Traverse(entityType.value.properties, ParameterOf);
      Ok("INSERT INTO " + tableName + " (" + Join(", ", columnNames) + ") VALUES (" + Join(", ", parameterNames) + ");")
  }

  /** One assignment of the SET clause. */
  function Assignment(p: PropertyInfo): Result<string> {
    var column :- QuoteIdentifier(Some(p.name));
    var parameter :- GetParameterName(Some(p.name));
    Ok(column + " = " + parameter)
  }

  /** GenerateUpdateSql(entityType, whereClause) */
  function GenerateUpdateSql(entityType: Option<EntityType>, whereClause: Option<string>): (r: Result<string>)
    ensures entityType.None? ==> r == Err(ArgumentNullException("entityType", ValueCannotBeNull))
    ensures entityType.Some? && IsNullOrWhiteSpace(whereClause) ==>
      r == Err(ArgumentException("whereClause", "WHERE clause cannot be null or empty."))
  {
    if entityType.None? then
      Err(ArgumentNullException("entityType", ValueCannotBeNull))
    else if IsNullOrWhiteSpace(whereClause) then
      Err(ArgumentException("whereClause", "WHERE clause cannot be null or empty."))
    else
      var tableName :- QuoteIdentifier(Some(entityType.value.name));
      var assignments :- Traverse(entityType.value.properties, Assignment);
      Ok("UPDATE " + tableName + " SET " + Join(", ", assignments) + " WHERE " + whereClause.value + ";")
  }

  /** GenerateSelectSql(entityType, whereClause); a null or blank WHERE
      clause selects every row. */
  function GenerateSelectSql(entityType: Option<EntityType>, whereClause: Option<string>): (r: Result<string>)
    ensures entityType.None? ==> r == Err(ArgumentNullException("entityType", ValueCannotBeNull))
    ensures entityType.Some? && entityType.value.name == "" ==>
      r == Err(ArgumentException("identifier", "Identifier cannot be null or empty."))
  {
    if entityType.None? then
      Err(ArgumentNullException("entityType", ValueCannotBeNull))
    else
      var tableName :- QuoteIdentifier(Some(entityType.value.name));
      var columnNames :- Traverse(entityType.value.properties, QuotedName);
      var sql := "SELECT " + Join(", ", columnNames) + " FROM " + tableName;
      var filtered := if !IsNullOrWhiteSpace(whereClause) then sql + " WHERE " + whereClause.value else sql;
      Ok(filtered + ";")
  }

  /** GenerateDeleteSql(entityType, whereClause) */
  function GenerateDeleteSql(entityType: Option<EntityType>, whereClause: Option<string>): (r: Result<string>)
    ensures entityType.None? ==> r == Err(ArgumentNullException("entityType", ValueCannotBeNull))
    ensures entityType.Some? && IsNullOrWhiteSpace(whereClause) ==>
      r == Err(ArgumentException("whereClause", "WHERE clause cannot be null or empty."))
    ensures entityType.Some? && !IsNullOrWhiteSpace(whereClause) && entityType.value.name == "" ==>
      r == Err(ArgumentException("identifier", "Identifier cannot be null or empty."))
    ensures entityType.Some? ==> (r.Ok? <==> !IsNullOrWhiteSpace(whereClause) && entityType.value.name != "")
  {
    if entityType.None? then
      Err(ArgumentNullException("entityType", ValueCannotBeNull))
    else if IsNullOrWhiteSpace(whereClause) then
      Err(ArgumentException("whereClause", "WHERE clause cannot be null or empty."))
    else
      var tableName :- QuoteIdentifier(Some(entityType.value.name));
      Ok("DELETE FROM " + tableName + " WHERE " + whereClause.value + ";")
  }

  // ---------------------------------------------------------------------
  // Properties
  // ---------------------------------------------------------------------

  /** Doubling the quotes is undone by reading a delimited identifier. */
  lemma {:induction false} DoubleQuotesReadsBack(s: string)
    ensures UnescapeBody(DoubleQuotes(s)) == Some(s)
    decreases |s|
  {
    if s != [] {
      DoubleQuotesReadsBack(s[1..]);
      var rest := DoubleQuotes(s[1..]);
      if s[0] == '"' {
        assert DoubleQuotes(s) == "\"\"" + rest;
        assert DoubleQuotes(s)[2..] == rest;
      } else {
        assert DoubleQuotes(s) == [s[0]] + rest;
        assert DoubleQuotes(s)[1..] == rest;
      }
      assert [s[0]] + s[1..] == s;
    }
  }

  /** Every identifier, whatever characters it holds, is quoted so that the
      database reads back exactly that identifier: a name cannot close its
      own quotes. */
  lemma QuoteIdentifierReadsBack(identifier: string)
    requires identifier != ""
    ensures QuoteIdentifier(Some(identifier)).Ok?
    ensures Unquote(QuoteIdentifier(Some(identifier)).value) == Some(identifier)
  {
    var q := QuoteIdentifier(Some(identifier)).value;
    assert q[1..|q| - 1] == DoubleQuotes(identifier);
    DoubleQuotesReadsBack(identifier);
  }

  /** Quoting is one-to-one: two different identifiers never share a quoted form. */
  lemma QuoteIdentifierInjective(a: string, b: string)
    requires a != "" && b != ""
    requires QuoteIdentifier(Some(a)) == QuoteIdentifier(Some(b))
    ensures a == b
  {
    QuoteIdentifierReadsBack(a);
    QuoteIdentifierReadsBack(b);
  }

  /** `T?` maps like `T`. */
  lemma NullableMapsLikeUnderlying(t: ClrType)
    requires !t.Nullable?
    ensures MapCSharpTypeToSqlType(Some(Nullable(t))).Ok? <==> MapCSharpTypeToSqlType(Some(t)).Ok?
    ensures MapCSharpTypeToSqlType(Some(Nullable(t))).Ok? ==>
      MapCSharpTypeToSqlType(Some(Nullable(t))).value == MapCSharpTypeToSqlType(Some(t)).value
  {
  }

  predicate NamesUsable(e: EntityType) {
    e.name != "" && forall i | 0 <= i < |e.properties| :: e.properties[i].name != ""
  }

  predicate TypesMapped(e: EntityType) {
    forall i | 0 <= i < |e.properties| :: TypeMapping(StripNullable(e.properties[i].propertyType)).Some?
  }

  function Quote(name: string): string {
    "\"" + DoubleQuotes(name) + "\""
  }

  /** The column lines a well-formed entity type is declared with. */
  function DeclaredColumns(e: EntityType): seq<string>
    requires TypesMapped(e)
  {
    seq(|e.properties|, i requires 0 <= i < |e.properties| =>
      "    " + Quote(e.properties[i].name) + " " + TypeMapping(StripNullable(e.properties[i].propertyType)).value)
  }

  function QuotedColumns(e: EntityType): seq<string> {
    seq(|e.properties|, i requires 0 <= i < |e.properties| => Quote(e.properties[i].name))
  }

  function ParameterNames(e: EntityType): seq<string> {
    seq(|e.properties|, i requires 0 <= i < |e.properties| => "@" + e.properties[i].name)
  }

  /** The DDL succeeds exactly when the names are non-empty and every type
      is mapped; it then has a header line, one indented line per property
      in order, and the closing line. */
  lemma CreateTableDdlSucceeds(e: EntityType)
    ensures GenerateCreateTableDdl(Some(e)).Ok? <==> NamesUsable(e) && TypesMapped(e)
    ensures GenerateCreateTableDdl(Some(e)).Ok? ==>
      GenerateCreateTableDdl(Some(e)).value ==
        "CREATE TABLE IF NOT EXISTS " + Quote(e.name) + " (" + NewLine
        + Join(",\n", DeclaredColumns(e)) + NewLine + ");" + NewLine
  {
    var ps := e.properties;
    if e.name != "" {
      if NamesUsable(e) && TypesMapped(e) {
        var expected := DeclaredColumns(e);
        forall i | 0 <= i < |ps| ensures ColumnLine(ps[i]) == Ok(expected[i]) {
        }
        TraverseAllOk(ps, ColumnLine, expected);
      } else {
        var i :| 0 <= i < |ps| && (ps[i].name == "" || TypeMapping(StripNullable(ps[i].propertyType)).None?);
        assert ColumnLine(ps[i]).Err?;
        TraverseSomeErr(ps, ColumnLine, i);
      }
    }
  }


  /** INSERT lists the quoted property names and, in the same order, a
      parameter named after each; it fails only on an empty name. */
  lemma InsertSqlShape(e: EntityType)
    ensures GenerateInsertSql(Some(e)).Ok? <==> NamesUsable(e)
    ensures GenerateInsertSql(Some(e)).Ok? ==>
      GenerateInsertSql(Some(e)).value ==
        "INSERT INTO " + Quote(e.name)
        + " (" + Join(", ", QuotedColumns(e)) + ") VALUES (" + Join(", ", ParameterNames(e)) + ");"
  {
    var ps := e.properties;
    if NamesUsable(e) {
      TraverseAllOk(ps, QuotedName, QuotedColumns(e));
      TraverseAllOk(ps, ParameterOf, ParameterNames(e));
    } else if e.name != "" {
      var i :| 0 <= i < |ps| && ps[i].name == "";
      assert QuotedName(ps[i]).Err?;
      TraverseSomeErr(ps, QuotedName, i);
    }
  }


  /** A SET assignment names the column and the parameter of the same name. */
  lemma AssignmentIs(p: PropertyInfo)
    requires p.name != ""
    ensures Assignment(p) == Ok(Quote(p.name) + " = @" + p.name)
  {
    assert Quote(p.name) + " = " + ("@" + p.name) == Quote(p.name) + " = @" + p.name;
  }

  /** UPDATE sets every column to the parameter named after that same
      column, in property order, under the given WHERE clause. */
  lemma UpdateSqlShape(e: EntityType, whereClause: string)
    requires !IsBlank(whereClause)
    ensures GenerateUpdateSql(Some(e), Some(whereClause)).Ok? <==> NamesUsable(e)
    ensures GenerateUpdateSql(Some(e), Some(whereClause)).Ok? ==>
      GenerateUpdateSql(Some(e), Some(whereClause)).value ==
        "UPDATE " + Quote(e.name) + " SET "
        + Join(", ", seq(|e.properties|, i requires 0 <= i < |e.properties| =>
            Quote(e.properties[i].name) + " = @" + e.properties[i].name))
        + " WHERE " + whereClause + ";"
  {
    var ps := e.properties;
    if NamesUsable(e) {
      var sets := seq(|e.properties|, i requires 0 <= i < |e.properties| =>
        Quote(e.properties[i].name) + " = @" + e.properties[i].name);
      forall i | 0 <= i < |ps| ensures Assignment(ps[i]) == Ok(sets[i]) {
        AssignmentIs(ps[i]);
      }
      TraverseAllOk(ps, Assignment, sets);
    } else if e.name != "" {
      var i :| 0 <= i < |ps| && ps[i].name == "";
      assert Assignment(ps[i]).Err?;
      TraverseSomeErr(ps, Assignment, i);
    }
  }


  /** SELECT names every column; it has a WHERE part exactly when the
      clause given is not null or blank. */
  lemma SelectSqlShape(e: EntityType, whereClause: Option<string>)
    ensures GenerateSelectSql(Some(e), whereClause).Ok? <==> NamesUsable(e)
    ensures GenerateSelectSql(Some(e), whereClause).Ok? ==>
      var cols := Join(", ", QuotedColumns(e));
      GenerateSelectSql(Some(e), whereClause).value ==
        if IsNullOrWhiteSpace(whereClause) then "SELECT " + cols + " FROM " + Quote(e.name) + ";"
        else "SELECT " + cols + " FROM " + Quote(e.name) + " WHERE " + whereClause.value + ";"
  {
    var ps := e.properties;
    if NamesUsable(e) {
      TraverseAllOk(ps, QuotedName, QuotedColumns(e));
    } else if e.name != "" {
      var i :| 0 <= i < |ps| && ps[i].name == "";
      assert QuotedName(ps[i]).Err?;
      TraverseSomeErr(ps, QuotedName, i);
    }
  }


  /** Every statement but the CREATE TABLE ends with ';' and refers to the
      table by its quoted name. */
  lemma StatementsEndWithSemicolon(e: EntityType, whereClause: Option<string>)
    ensures var r := GenerateInsertSql(Some(e)); r.Ok? ==> EndsWith(r.value, ";")
    ensures var r := GenerateUpdateSql(Some(e), whereClause); r.Ok? ==> EndsWith(r.value, ";")
    ensures var r := GenerateSelectSql(Some(e), whereClause); r.Ok? ==> EndsWith(r.value, ";")
    ensures var r := GenerateDeleteSql(Some(e), whereClause); r.Ok? ==>
      r.value == "DELETE FROM " + Quote(e.name) + " WHERE " + whereClause.value + ";"
  {
    InsertEndsWithSemicolon(e);
    UpdateEndsWithSemicolon(e, whereClause);
    SelectEndsWithSemicolon(e, whereClause);
  }

  lemma InsertEndsWithSemicolon(e: EntityType)
    ensures var r := GenerateInsertSql(Some(e)); r.Ok? ==> EndsWith(r.value, ";")
  {
    var r := GenerateInsertSql(Some(e));
    if r.Ok? {
      EndsInSemicolon(r.value);
    }
  }

  lemma UpdateEndsWithSemicolon(e: EntityType, whereClause: Option<string>)
    ensures var r := GenerateUpdateSql(Some(e), whereClause); r.Ok? ==> EndsWith(r.value, ";")
  {
    var r := GenerateUpdateSql(Some(e), whereClause);
    if r.Ok? {
      EndsInSemicolon(r.value);
    }
  }

  lemma SelectEndsWithSemicolon(e: EntityType, whereClause: Option<string>)
    ensures var r := GenerateSelectSql(Some(e), whereClause); r.Ok? ==> EndsWith(r.value, ";")
  {
    var r := GenerateSelectSql(Some(e), whereClause);
    if r.Ok? {
      EndsInSemicolon(r.value);
    }
  }

  lemma EndsInSemicolon(s: string)
    requires |s| > 0 && s[|s| - 1] == ';'
    ensures EndsWith(s, ";")
  {
    assert s[|s| - 1..] == [s[|s| - 1]];
  }
}
