/** ISqlGenerator: the operations every SQL dialect offers, dispatched to
    the SQLite and PostgreSQL generators, and what holds of all of them. */
module SqlGenerator {
  import opened Common
  import opened Strings
  import opened ClrTypes
  import opened DatabaseTypes
  import opened SqlIdentifiers
  import SQLite = SQLiteSqlGenerator
  import PostgreSQL = PostgreSQLSqlGenerator

  /** The implementations of ISqlGenerator. */
  datatype Dialect = SQLiteDialect | PostgreSQLDialect

  function GeneratorDatabaseType(g: Dialect): DatabaseType {
    match g
    case SQLiteDialect => SQLite.GeneratorDatabaseType
    case PostgreSQLDialect => PostgreSQL.GeneratorDatabaseType
  }

  function IdentifierQuoteChar(g: Dialect): string {
    match g
    case SQLiteDialect => SQLite.IdentifierQuoteChar
    case PostgreSQLDialect => PostgreSQL.IdentifierQuoteChar
  }

  function ParameterPrefix(g: Dialect): string {
    match g
    case SQLiteDialect => SQLite.ParameterPrefix
    case PostgreSQLDialect => PostgreSQL.ParameterPrefix
  }

  function MapCSharpTypeToSqlType(g: Dialect, csharpType: Option<ClrType>): Result<string> {
    match g
    case SQLiteDialect => SQLite.MapCSharpTypeToSqlType(csharpType)
    case PostgreSQLDialect => PostgreSQL.MapCSharpTypeToSqlType(csharpType)
  }

  function QuoteIdentifier(g: Dialect, identifier: Option<string>): Result<string> {
    match g
    case SQLiteDialect => SQLite.QuoteIdentifier(identifier)
    case PostgreSQLDialect => PostgreSQL.QuoteIdentifier(identifier)
  }

  function GetParameterName(g: Dialect, fieldName: Option<string>): Result<string> {
    match g
    case SQLiteDialect => SQLite.GetParameterName(fieldName)
    case PostgreSQLDialect => PostgreSQL.GetParameterName(fieldName)
  }

  /** GenerateCreateTableDdl; for SQLite, the function its loop is proved against. */
  function GenerateCreateTableDdl(g: Dialect, jvDataType: Option<EntityType>): Result<string> {
    match g
    case SQLiteDialect => SQLite.CreateTableDdl(jvDataType)
    case PostgreSQLDialect => PostgreSQL.GenerateCreateTableDdl(jvDataType)
  }

  function GenerateInsertSql(g: Dialect, jvDataType: Option<EntityType>): Result<string> {
    match g
    case SQLiteDialect => SQLite.GenerateInsertSql(jvDataType)
    case PostgreSQLDialect => PostgreSQL.GenerateInsertSql(jvDataType)
  }

  // ---------------------------------------------------------------------
  // What every generator does
  // ---------------------------------------------------------------------

  /** All generators quote with '"' and prefix parameters with '@', and each
      reports its own database kind. */
  lemma SharedConventions(g: Dialect)
    ensures IdentifierQuoteChar(g) == "\"" && ParameterPrefix(g) == "@"
    ensures GeneratorDatabaseType(g) == (if g.SQLiteDialect? then DatabaseTypes.SQLite else DatabaseTypes.PostgreSQL)
  {
  }

  /** A null entity type is rejected with ArgumentNullException by both statement builders. */
  lemma NullEntityRejected(g: Dialect)
    ensures GenerateCreateTableDdl(g, None).Err? && GenerateCreateTableDdl(g, None).error.ArgumentNullException?
    ensures GenerateInsertSql(g, None).Err? && GenerateInsertSql(g, None).error.ArgumentNullException?
    ensures MapCSharpTypeToSqlType(g, None).Err? && MapCSharpTypeToSqlType(g, None).error.ArgumentNullException?
  {
  }

  /** Null and empty identifiers are refused; any other identifier is
      quoted to text that starts and ends with the quote character. */
  lemma QuotingDelimits(g: Dialect, identifier: Option<string>)
    ensures QuoteIdentifier(g, identifier).Ok? <==> !IsNullOrEmpty(identifier)
    ensures QuoteIdentifier(g, identifier).Ok? ==>
      var q := QuoteIdentifier(g, identifier).value;
      StartsWith(q, IdentifierQuoteChar(g)) && EndsWith(q, IdentifierQuoteChar(g))
  {
  }

  /** The dialects quote an identifier without '"' in the same way, and
      that quoted text reads back as the identifier. */
  lemma PlainIdentifiersAgree(identifier: string)
    requires identifier != "" && !HasDoubleQuote(identifier)
    ensures QuoteIdentifier(SQLiteDialect, Some(identifier)) == QuoteIdentifier(PostgreSQLDialect, Some(identifier))
    ensures Unquote(QuoteIdentifier(SQLiteDialect, Some(identifier)).value) == Some(identifier)
  {
    PlainHasNoQuotesToDouble(identifier);
    SQLite.QuoteReadsBackUnlessQuoteInside(identifier);
  }

  /** With no '"' to double, PostgreSQL's escaping leaves the text unchanged. */
  lemma {:induction false} PlainHasNoQuotesToDouble(s: string)
    requires !HasDoubleQuote(s)
    ensures PostgreSQL.DoubleQuotes(s) == s
    decreases |s|
  {
    if s != [] {
      assert !HasDoubleQuote(s[1..]) by {
        forall i | 0 <= i < |s[1..]| ensures s[1..][i] != '"' {
          assert s[1..][i] == s[i + 1];
        }
      }
      PlainHasNoQuotesToDouble(s[1..]);
      assert s[0] != '"';
      assert [s[0]] + s[1..] == s;
    }
  }

  /** Only PostgreSQL's quoting is safe for every identifier: with a '"'
      inside, SQLite's quoted text no longer reads back as the identifier
      while PostgreSQL's still does. */
  lemma OnlyPostgreSQLEscapesQuotes(identifier: string)
    requires identifier != "" && HasDoubleQuote(identifier)
    ensures Unquote(QuoteIdentifier(SQLiteDialect, Some(identifier)).value) != Some(identifier)
    ensures Unquote(QuoteIdentifier(PostgreSQLDialect, Some(identifier)).value) == Some(identifier)
  {
    SQLite.QuoteReadsBackUnlessQuoteInside(identifier);
    PostgreSQL.QuoteIdentifierReadsBack(identifier);
  }

  /** Both dialects name a parameter after its field with the '@' prefix. */
  lemma ParameterNamesAgree(g: Dialect, fieldName: string)
    requires fieldName != ""
    ensures GetParameterName(g, Some(fieldName)) == Ok(ParameterPrefix(g) + fieldName)
  {
  }

  /** A `T?` property gets the same column type as a `T` property. */
  lemma NullableColumnsTypedLikeUnderlying(g: Dialect, t: ClrType)
    requires !t.Nullable?
    ensures MapCSharpTypeToSqlType(g, Some(Nullable(t))).Ok? <==> MapCSharpTypeToSqlType(g, Some(t)).Ok?
    ensures MapCSharpTypeToSqlType(g, Some(Nullable(t))).Ok? ==>
      MapCSharpTypeToSqlType(g, Some(Nullable(t))).value == MapCSharpTypeToSqlType(g, Some(t)).value
  {
    assert StripNullable(Nullable(t)) == StripNullable(t);
    match g
    case SQLiteDialect =>
    case PostgreSQLDialect =>
  }

  function QuotedBy(g: Dialect, name: string): string {
    match g
    case SQLiteDialect => SQLite.Quoted(name)
    case PostgreSQLDialect => PostgreSQL.Quote(name)
  }

  /** A text framed as `head`, joined lines, `tail` contains what any of
      its lines contains and what its head contains. */
  lemma FramedJoinContains(head: string, sep: string, lines: seq<string>, tail: string, i: nat, q: string, qt: string)
    requires i < |lines| && Contains(lines[i], q) && Contains(head, qt)
    ensures Contains(head + Join(sep, lines) + tail, q)
    ensures Contains(head + Join(sep, lines) + tail, qt)
  {
    JoinContainsPart(sep, lines, i);
    ContainsTransitive(Join(sep, lines), lines[i], q);
    ContainsExtendLeft(head, Join(sep, lines), q);
    ContainsExtendRight(head + Join(sep, lines), tail, q);
    ContainsExtendRight(head, Join(sep, lines), qt);
    ContainsExtendRight(head + Join(sep, lines), tail, qt);
  }

  /** A successful CREATE TABLE names the table and every property by
      its quoted name. */
  lemma DdlMentionsEveryColumn(g: Dialect, e: EntityType, i: nat)
    requires i < |e.properties| && GenerateCreateTableDdl(g, Some(e)).Ok?
    ensures Contains(GenerateCreateTableDdl(g, Some(e)).value, QuotedBy(g, e.properties[i].name))
    ensures Contains(GenerateCreateTableDdl(g, Some(e)).value, QuotedBy(g, e.name))
  {
    match g
    case SQLiteDialect => SQLiteDdlMentions(e, i);
    case PostgreSQLDialect => PostgreSQLDdlMentions(e, i);
  }

  lemma SQLiteDdlMentions(e: EntityType, i: nat)
    requires i < |e.properties| && SQLite.CreateTableDdl(Some(e)).Ok?
    ensures Contains(SQLite.CreateTableDdl(Some(e)).value, SQLite.Quoted(e.properties[i].name))
    ensures Contains(SQLite.CreateTableDdl(Some(e)).value, SQLite.Quoted(e.name))
  {
    var q := SQLite.Quoted(e.properties[i].name);
    var qt := SQLite.Quoted(e.name);
    var head := "CREATE TABLE IF NOT EXISTS " + qt + " (";
    SQLite.CreateTableDdlSucceeds(e);
    assert SQLite.TypesMapped(e);
    var sqlType := SQLite.TypeMapping(StripNullable(e.properties[i].propertyType)).value;
    var lines := SQLite.DeclaredColumns(e);
    ContainsSelf(q);
    ContainsExtendRight(q, " ", q);
    ContainsExtendRight(q + " ", sqlType, q);
    assert lines[i] == q + " " + sqlType;
    ContainsSelf(qt);
    ContainsExtendLeft("CREATE TABLE IF NOT EXISTS ", qt, qt);
    ContainsExtendRight("CREATE TABLE IF NOT EXISTS " + qt, " (", qt);
    FramedJoinContains(head, ", ", lines, ")", i, q, qt);
  }

  lemma AppendThree(x: string, a: string, b: string, c: string)
    ensures x + a + b + c == x + (a + b + c)
  {
  }

  lemma PostgreSQLDdlMentions(e: EntityType, i: nat)
    requires i < |e.properties| && PostgreSQL.GenerateCreateTableDdl(Some(e)).Ok?
    ensures Contains(PostgreSQL.GenerateCreateTableDdl(Some(e)).value, PostgreSQL.Quote(e.properties[i].name))
    ensures Contains(PostgreSQL.GenerateCreateTableDdl(Some(e)).value, PostgreSQL.Quote(e.name))
  {
    var q := PostgreSQL.Quote(e.properties[i].name);
    var qt := PostgreSQL.Quote(e.name);
    var create := "CREATE TABLE IF NOT EXISTS ";
    var head := create + qt + " (" + PostgreSQL.NewLine;
    var tail := PostgreSQL.NewLine + ");" + PostgreSQL.NewLine;
    PostgreSQL.CreateTableDdlSucceeds(e);
    assert PostgreSQL.TypesMapped(e);
    var sqlType := PostgreSQL.TypeMapping(StripNullable(e.properties[i].propertyType)).value;
    var lines := PostgreSQL.DeclaredColumns(e);
    ContainsSelf(q);
    ContainsExtendLeft("    ", q, q);
    ContainsExtendRight("    " + q, " ", q);
    ContainsExtendRight("    " + q + " ", sqlType, q);
    assert lines[i] == "    " + q + " " + sqlType;
    ContainsSelf(qt);
    ContainsExtendLeft(create, qt, qt);
    ContainsExtendRight(create + qt, " (", qt);
    ContainsExtendRight(create + qt + " (", PostgreSQL.NewLine, qt);
    AppendThree(head + Join(",\n", lines), PostgreSQL.NewLine, ");", PostgreSQL.NewLine);
    FramedJoinContains(head, ",\n", lines, tail, i, q, qt);
  }

  /** A successful INSERT carries a parameter for every property. */
  lemma InsertHasEveryParameter(g: Dialect, e: EntityType, i: nat)
    requires i < |e.properties| && GenerateInsertSql(g, Some(e)).Ok?
    ensures Contains(GenerateInsertSql(g, Some(e)).value, "@" + e.properties[i].name)
  {
    var params: seq<string>;
    var cols: seq<string>;
    var tail: string;
    if g.SQLiteDialect? {
      SQLite.InsertSqlShape(e);
      params := SQLite.ParameterNames(e);
      cols := SQLite.QuotedColumns(e);
      tail := ")";
    } else {
      PostgreSQL.InsertSqlShape(e);
      params := PostgreSQL.ParameterNames(e);
      cols := PostgreSQL.QuotedColumns(e);
      tail := ");";
    }
    var head := "INSERT INTO " + QuotedBy(g, e.name) + " (" + Join(", ", cols) + ") VALUES (";
    assert GenerateInsertSql(g, Some(e)).value == head + Join(", ", params) + tail;
    JoinContainsPart(", ", params, i);
    ContainsExtendLeft(head, Join(", ", params), params[i]);
    ContainsExtendRight(head + Join(", ", params), tail, params[i]);
  }
}
