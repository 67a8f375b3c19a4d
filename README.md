# JVLinkToSQLite database-provider core, modelled in Dafny

JVLinkToSQLite converts JRA-VAN horse-racing data into a SQLite, DuckDB or PostgreSQL database. This project models the layer that decides which database to use and prepares the statements and connections for it:

- **Backend detection and provider dispatch** (`DatabaseProviderFactory`). An ordered chain of string rules turns a connection string into a `DatabaseType`: `:memory:`, then a `Host`/`Server` key, then the file extension, then the extension of the `Data Source` value, then an error. `Create` dispatches on the enum's integer code.
- **SQL dialect generators** (`SQLiteSqlGenerator`, `PostgreSQLSqlGenerator`, and `SqlGenerator` for the `ISqlGenerator` contract). Each has a type table, identifier quoting, parameter naming, and CREATE/INSERT (and for PostgreSQL UPDATE/SELECT/DELETE) text built from an ordered property list.
- **The JV-Data CREATE TABLE template and its index planner** (`JVDataStructCreateTableSources`). The template has `not null` key markers and a `primary key (...)` clause. The planner is a deduplicating loop that picks the non-key columns to index.
- **Connection-string validators** (`ConnectionContracts` for `ValidationResult` and the shared vocabulary; `SQLiteConnectionFactory`, `DuckDBConnectionFactory`, `PostgreSQLConnectionFactory`; `ConnectionFactories` for the `IConnectionFactory` contract). These are guard chains that return a result value, plus the PostgreSQL password injection from the environment.

Exceptions are values: every operation that can throw returns `Result<T>` (`Ok(value)` or `Err(exception)`), and a .NET `null` is `None` of `Option<T>`. `Common` holds these types and `Traverse`, which models a `foreach` or LINQ `Select` that stops at the first exception. `Strings` holds the .NET string operations over `seq<char>`. `Paths` holds `Path.GetExtension`. `ClrTypes` holds the CLR types the generators map, with `Nullable<T>` as a wrapper. `SqlIdentifiers` holds the SQL standard's reading of a delimited identifier (strip the outer `"`, collapse each `""`); it is used to state what quoting achieves.

Two parts are imperative in the source and are imperative here:
- `SQLiteSqlGenerator.GenerateCreateTableDdl` fills a list in a loop.
- `JVDataStructCreateTableSources.GenerateIndexStatements` updates a set of lower-cased names and a list of statements in a loop.

Each is a method whose loop invariant ties its state to a specification function; the properties are proved about that function.

`ISqlGenerator` and `IConnectionFactory` are interfaces in the source. Here they are datatypes whose constructors name the implementations (`SqlGenerator.Dialect`, `ConnectionFactories.ConnectionFactory`), with functions that dispatch to each implementation's module. The lemmas stated over every constructor are the interface's contract.

The platform services the factories call are fields of `ConnectionContracts.Platform`, passed in as parameters:
- the connection-string builders, whose parsing may throw;
- `Path.GetDirectoryName` and `Directory.Exists`;
- the value of the `JVLINK_DB_PASSWORD` environment variable.

The CREATE TABLE template's table-name placeholder is a parameter as well.

## Model

| member | source | states |
|---|---|---|
| Common.Traverse | Urasandesu.JVLinkToSQLite/DatabaseProviders/SQLite/SQLiteSqlGenerator.cs:110-115 | A `foreach` whose body may throw: on success one result per element; `TraverseOk` adds that it succeeds exactly when every element does, with the i-th result the i-th element's, and `TraverseFirstError` that a failure is the first failing element's exception. |
| DatabaseTypes.CodeRoundTrip | Urasandesu.JVLinkToSQLite/DatabaseProviders/DatabaseType.cs:23-42 | Every member's code leads back to that member. |
| DatabaseTypes.FromCode | Urasandesu.JVLinkToSQLite/DatabaseProviders/DatabaseType.cs:23-42 | An integer names a member exactly when it is 0, 1 or 2, and the member named has that code. |
| DatabaseProviderFactory.Create | Urasandesu.JVLinkToSQLite/DatabaseProviders/DatabaseProviderFactory.cs:45-65 | A provider returned by Create has the requested kind's code and keeps the given connection string. |
| DatabaseProviderFactory.CreateDispatch | Urasandesu.JVLinkToSQLite/DatabaseProviders/DatabaseProviderFactory.cs:45-65 | Null or empty gives ArgumentNullException; a code outside 0..2 gives ArgumentException naming the code. Create succeeds exactly for a non-empty string and a known code, except that the PostgreSQL constructor also refuses a blank string. |
| DatabaseProviderFactory.CreateWithUndefinedKind | Test.Urasandesu.JVLinkToSQLite/DatabaseProviders/DatabaseProviderFactoryTests.cs:206-229 | `(DatabaseType)999` with "test.db" is rejected with ArgumentException "Unsupported database type: 999". |
| DatabaseProviderFactory.DetectDatabaseType | Urasandesu.JVLinkToSQLite/DatabaseProviders/DatabaseProviderFactory.cs:81-142 | null gives ArgumentNullException, and every other failure is an ArgumentException. |
| DatabaseProviderFactory.DetectNonBlank | Urasandesu.JVLinkToSQLite/DatabaseProviders/DatabaseProviderFactory.cs:93-144 | No contract of its own; the rules after the null and blank checks, characterised in order by `DetectionRules`. |
| DatabaseProviderFactory.DetectionRules | Urasandesu.JVLinkToSQLite/DatabaseProviders/DatabaseProviderFactory.cs:81-144 | The rule chain in order: blank is an error, then `:memory:`, then a `Host`/`Server` key, then the whole string's ending (`.duckdb`, `.db`, `.sqlite`, ignoring case), then the `Data Source` value's ending, else ArgumentException with the failure message. |
| DatabaseProviderFactory.ExtensionKindIsKindOfName | Urasandesu.JVLinkToSQLite/DatabaseProviders/DatabaseProviderFactory.cs:106-115 | The `switch` on the lower-cased Path.GetExtension selects the same kind as asking how the lower-cased name ends. |
| DatabaseProviderFactory.DataSourceKindIsKindOfName | Urasandesu.JVLinkToSQLite/DatabaseProviders/DatabaseProviderFactory.cs:119-136 | The Data Source rule applies only when the case-sensitive `Data Source=` or `DataSource=` occurs, and then judges the matched value by how it ends, ignoring case. |
| DatabaseProviderFactory.DataSourceValueStart | Urasandesu.JVLinkToSQLite/DatabaseProviders/DatabaseProviderFactory.cs:122-126 | A matched `Data Source=` value starts inside the string at a character other than `;`. |
| DatabaseProviderFactory.FirstDataSourceMatch | Urasandesu.JVLinkToSQLite/DatabaseProviders/DatabaseProviderFactory.cs:119-126 | The leftmost position at which the Data Source pattern matches, or none when it matches nowhere. |
| DatabaseProviderFactory.HostKeyEquals | Urasandesu.JVLinkToSQLite/DatabaseProviders/DatabaseProviderFactory.cs:100-103 | Where `(Host\|Server)\s*=` matches, the string has a `=`. |
| DatabaseProviderFactory.HostKeyTakesPrecedence | Urasandesu.JVLinkToSQLite/DatabaseProviders/DatabaseProviderFactory.cs:94-115 | Any string with a `Host`/`Server` key that is not `:memory:` is PostgreSQL, whatever extension it carries. |
| DatabaseProviderFactory.HostPrefixIsPostgreSQL | Test.Urasandesu.JVLinkToSQLite/DatabaseProviders/AutoDetectionTests.cs:302-314 | Every string that starts with `Host=`, such as `Host=localhost;Database=mydb.db`, is PostgreSQL. |
| DatabaseProviderFactory.NoEqualsNoHostKey | Urasandesu.JVLinkToSQLite/DatabaseProviders/DatabaseProviderFactory.cs:100-103 | A string without `=` never matches the PostgreSQL key pattern. |
| DatabaseProviderFactory.FailureMessageMentions | Urasandesu.JVLinkToSQLite/DatabaseProviders/DatabaseProviderFactory.cs:139-142 | The failure message starts with "Unable to detect" and names `.db`, `.sqlite`, `.duckdb` and `Host=`. |
| DatabaseProviderFactory.DetectionFailureIsHelpful | Test.Urasandesu.JVLinkToSQLite/DatabaseProviders/AutoDetectionTests.cs:211-225 | Every non-blank string that fails detection is rejected with the ArgumentException carrying the failure message, which starts with "Unable to detect" and names `.db`, `.sqlite` and `.duckdb`. |
| DatabaseProviderFactory.DetectPlainFileName | Urasandesu.JVLinkToSQLite/DatabaseProviders/DatabaseProviderFactory.cs:106-115 | A file name without `=` or surrounding white space and with a known ending is detected by that ending alone. |
| DatabaseProviderFactory.DetectUpperCaseExtension | Test.Urasandesu.JVLinkToSQLite/DatabaseProviders/AutoDetectionTests.cs:246-256 | Every name ending in `.DB` (the tests' `race.DB`) with no `=` and no leading white space is SQLite: the ending is compared after lower-casing. |
| DatabaseProviderFactory.DetectDuckDBFile | Urasandesu.JVLinkToSQLite/DatabaseProviders/DatabaseProviderFactory.cs:112-113 | Every name ending in `.duckdb` (such as `analytics.duckdb`) with no `=` and no leading white space is DuckDB, not SQLite, although it also ends in `db`. |
| DatabaseProviderFactory.CreateFromConnectionString | Urasandesu.JVLinkToSQLite/DatabaseProviders/DatabaseProviderFactory.cs:153-157 | No contract of its own; characterised by `CreateFromConnectionStringAgreesWithDetection`. |
| DatabaseProviderFactory.CreateFromConnectionStringAgreesWithDetection | Urasandesu.JVLinkToSQLite/DatabaseProviders/DatabaseProviderFactory.cs:153-157 | CreateFromConnectionString succeeds exactly when detection does; the provider then has the detected kind and the given string, and a detection error is passed on unchanged. |
| Paths.GetExtension | Urasandesu.JVLinkToSQLite/DatabaseProviders/DatabaseProviderFactory.cs:106 | No contract of its own; Path.GetExtension, characterised by `GetExtensionShape` and `LowerExtensionIs`. |
| Paths.GetExtensionShape | Urasandesu.JVLinkToSQLite/DatabaseProviders/DatabaseProviderFactory.cs:106 | Path.GetExtension returns either "" or an extension (a `.` and at least one more character, no separator) that ends the path. |
| ClrTypes.StripNullable | Urasandesu.JVLinkToSQLite/DatabaseProviders/SQLite/SQLiteSqlGenerator.cs:60 | `Nullable.GetUnderlyingType(t) ?? t` removes exactly one Nullable and leaves any other type as it is. |
| Paths.LowerExtensionIs | Urasandesu.JVLinkToSQLite/DatabaseProviders/DatabaseProviderFactory.cs:106-107 | The lower-cased extension equals a letter extension `x` exactly when the lower-cased path ends with `x`. |
| SQLiteSqlGenerator.MapCSharpTypeToSqlType | Urasandesu.JVLinkToSQLite/DatabaseProviders/SQLite/SQLiteSqlGenerator.cs:31-68 | null gives ArgumentNullException. The result is always one of TEXT/INTEGER/REAL/BLOB. It succeeds exactly for the 11 table types with one Nullable removed, and then returns that type's entry of the `_typeMappings` table. Anything else gives NotSupportedException naming the type's full name. |
| SQLiteSqlGenerator.NullableMapsLikeUnderlying | Urasandesu.JVLinkToSQLite/DatabaseProviders/SQLite/SQLiteSqlGenerator.cs:59-60 | `T?` maps exactly as `T` does. |
| SQLiteSqlGenerator.QuoteIdentifier | Urasandesu.JVLinkToSQLite/DatabaseProviders/SQLite/SQLiteSqlGenerator.cs:70-83 | null gives ArgumentNullException and "" gives ArgumentException. Any other identifier is returned between one pair of `"`, with the inside unchanged. |
| SQLiteSqlGenerator.QuoteReadsBackUnlessQuoteInside | Test.Urasandesu.JVLinkToSQLite/DatabaseProviders/SQLite/SQLiteSqlGeneratorTests.cs:196-234 | The quoted text reads back as the identifier exactly when the identifier holds no `"`, because nothing is escaped. |
| SQLiteSqlGenerator.GetParameterName | Urasandesu.JVLinkToSQLite/DatabaseProviders/SQLite/SQLiteSqlGenerator.cs:85-98 | null gives ArgumentNullException and "" gives ArgumentException; otherwise the result is `@` followed by the name. |
| SQLiteSqlGenerator.CreateTableDdl | Urasandesu.JVLinkToSQLite/DatabaseProviders/SQLite/SQLiteSqlGenerator.cs:100-120 | No contract of its own; the result the `foreach` of GenerateCreateTableDdl is proved to compute, characterised by `CreateTableDdlSucceeds` and `CreateTableDdlFirstError`. |
| SQLiteSqlGenerator.GenerateCreateTableDdl | Urasandesu.JVLinkToSQLite/DatabaseProviders/SQLite/SQLiteSqlGenerator.cs:100-120 | The loop over the properties returns or throws exactly what the DDL specification function does (the first failing column aborts). |
| SQLiteSqlGenerator.CreateTableDdlSucceeds | Urasandesu.JVLinkToSQLite/DatabaseProviders/SQLite/SQLiteSqlGenerator.cs:100-120 | The DDL succeeds exactly when all names are non-empty and all types mapped. It is then `CREATE TABLE IF NOT EXISTS "<T>" (` followed by each `"<col>" <type>` in declaration order, joined by `, `, and `)`. |
| SQLiteSqlGenerator.CreateTableDdlFirstError | Urasandesu.JVLinkToSQLite/DatabaseProviders/SQLite/SQLiteSqlGenerator.cs:110-116 | A failing DDL throws the exception of the first property, in order, that cannot be declared; every earlier property can be declared. |
| SQLiteSqlGenerator.GenerateInsertSql | Urasandesu.JVLinkToSQLite/DatabaseProviders/SQLite/SQLiteSqlGenerator.cs:122-139 | No contract of its own; characterised by `InsertSqlShape`. |
| SQLiteSqlGenerator.InsertSqlShape | Urasandesu.JVLinkToSQLite/DatabaseProviders/SQLite/SQLiteSqlGenerator.cs:122-139 | INSERT succeeds exactly when all names are non-empty. It then lists the quoted columns and, in the same order, `@` plus each column name. |
| PostgreSQLSqlGenerator.MapCSharpTypeToSqlType | Urasandesu.JVLinkToSQLite/DatabaseProviders/PostgreSQL/PostgreSQLSqlGenerator.cs:30-62 | null gives ArgumentNullException. It succeeds exactly for the 11 table types with one Nullable removed, and then returns that type's entry of the `_typeMappings` table. Anything else gives NotSupportedException naming the type. |
| PostgreSQLSqlGenerator.NullableMapsLikeUnderlying | Urasandesu.JVLinkToSQLite/DatabaseProviders/PostgreSQL/PostgreSQLSqlGenerator.cs:53-54 | `T?` maps exactly as `T` does. |
| PostgreSQLSqlGenerator.DoubleQuotes | Urasandesu.JVLinkToSQLite/DatabaseProviders/PostgreSQL/PostgreSQLSqlGenerator.cs:73-74 | Doubling `"` never shortens the text and leaves quote-free text alone. |
| PostgreSQLSqlGenerator.DoubleQuotesReadsBack | Urasandesu.JVLinkToSQLite/DatabaseProviders/PostgreSQL/PostgreSQLSqlGenerator.cs:73-74 | Collapsing each `""` of the escaped text gives back the original. |
| PostgreSQLSqlGenerator.QuoteIdentifier | Urasandesu.JVLinkToSQLite/DatabaseProviders/PostgreSQL/PostgreSQLSqlGenerator.cs:67-75 | Quoting succeeds exactly for a non-null, non-empty identifier. Otherwise it gives ArgumentException "Identifier cannot be null or empty." |
| PostgreSQLSqlGenerator.QuoteIdentifierReadsBack | Test.Urasandesu.JVLinkToSQLite/DatabaseProviders/PostgreSQL/PostgreSQLSqlGeneratorTests.cs:167-175 | Every non-empty identifier, `"` included, is quoted to text that reads back as exactly that identifier. |
| PostgreSQLSqlGenerator.QuoteIdentifierInjective | Urasandesu.JVLinkToSQLite/DatabaseProviders/PostgreSQL/PostgreSQLSqlGenerator.cs:67-75 | Two different identifiers never have the same quoted form. |
| PostgreSQLSqlGenerator.GetParameterName | Urasandesu.JVLinkToSQLite/DatabaseProviders/PostgreSQL/PostgreSQLSqlGenerator.cs:80-86 | null or "" gives ArgumentException; otherwise the result is `@` followed by the name. |
| PostgreSQLSqlGenerator.GenerateCreateTableDdl | Urasandesu.JVLinkToSQLite/DatabaseProviders/PostgreSQL/PostgreSQLSqlGenerator.cs:91-113 | No contract of its own; characterised by `CreateTableDdlSucceeds`. |
| PostgreSQLSqlGenerator.CreateTableDdlSucceeds | Urasandesu.JVLinkToSQLite/DatabaseProviders/PostgreSQL/PostgreSQLSqlGenerator.cs:91-113 | The DDL succeeds exactly when all names are non-empty and all types mapped. It then has the header line, each `    "<col>" <type>` in declaration order joined by `,\n`, and the `);` line. |
| PostgreSQLSqlGenerator.GenerateInsertSql | Urasandesu.JVLinkToSQLite/DatabaseProviders/PostgreSQL/PostgreSQLSqlGenerator.cs:118-133 | No contract of its own; characterised by `InsertSqlShape` and `StatementsEndWithSemicolon`. |
| PostgreSQLSqlGenerator.InsertSqlShape | Urasandesu.JVLinkToSQLite/DatabaseProviders/PostgreSQL/PostgreSQLSqlGenerator.cs:118-133 | INSERT succeeds exactly when all names are non-empty. It then lists the quoted columns and, in the same order, the `@` parameters, and ends with `;`. |
| PostgreSQLSqlGenerator.GenerateUpdateSql | Urasandesu.JVLinkToSQLite/DatabaseProviders/PostgreSQL/PostgreSQLSqlGenerator.cs:138-152 | A null entity gives ArgumentNullException. Given an entity, a null or blank WHERE clause gives ArgumentException before any column is looked at. |
| PostgreSQLSqlGenerator.UpdateSqlShape | Urasandesu.JVLinkToSQLite/DatabaseProviders/PostgreSQL/PostgreSQLSqlGenerator.cs:138-152 | With a WHERE clause, UPDATE succeeds exactly when all names are non-empty. It sets each `"<col>" = @<col>` in order under that clause. |
| PostgreSQLSqlGenerator.GenerateSelectSql | Urasandesu.JVLinkToSQLite/DatabaseProviders/PostgreSQL/PostgreSQLSqlGenerator.cs:157-174 | A null entity gives ArgumentNullException, and an empty table name gives the quoting ArgumentException. The rest is characterised by `SelectSqlShape` and `StatementsEndWithSemicolon`. |
| PostgreSQLSqlGenerator.SelectSqlShape | Urasandesu.JVLinkToSQLite/DatabaseProviders/PostgreSQL/PostgreSQLSqlGenerator.cs:157-174 | SELECT succeeds exactly when all names are non-empty. It has a ` WHERE` part exactly when the clause is not null or blank. |
| PostgreSQLSqlGenerator.GenerateDeleteSql | Urasandesu.JVLinkToSQLite/DatabaseProviders/PostgreSQL/PostgreSQLSqlGenerator.cs:179-188 | A null entity gives ArgumentNullException. Given an entity, a null or blank WHERE clause gives ArgumentException, and then an empty table name gives the quoting ArgumentException. The statement is built exactly when the WHERE clause is not blank and the table name is not empty. |
| PostgreSQLSqlGenerator.StatementsEndWithSemicolon | Urasandesu.JVLinkToSQLite/DatabaseProviders/PostgreSQL/PostgreSQLSqlGenerator.cs:118-188 | INSERT, UPDATE, SELECT and DELETE text all end with `;`, and DELETE is `DELETE FROM "<T>" WHERE <clause>;`. |
| SqlGenerator.GeneratorDatabaseType | Urasandesu.JVLinkToSQLite/DatabaseProviders/ISqlGenerator.cs:39 | No contract of its own; the DatabaseType property of each generator, characterised by `SharedConventions`. |
| SqlGenerator.IdentifierQuoteChar | Urasandesu.JVLinkToSQLite/DatabaseProviders/ISqlGenerator.cs:48 | No contract of its own; characterised by `SharedConventions` and `QuotingDelimits`. |
| SqlGenerator.ParameterPrefix | Urasandesu.JVLinkToSQLite/DatabaseProviders/ISqlGenerator.cs:56 | No contract of its own; characterised by `SharedConventions` and `ParameterNamesAgree`. |
| SqlGenerator.GenerateCreateTableDdl | Urasandesu.JVLinkToSQLite/DatabaseProviders/ISqlGenerator.cs:80 | No contract of its own; dispatch to the dialect's DDL, characterised by `DdlMentionsEveryColumn` and `NullEntityRejected`. |
| SqlGenerator.GenerateInsertSql | Urasandesu.JVLinkToSQLite/DatabaseProviders/ISqlGenerator.cs:99 | No contract of its own; dispatch to the dialect's INSERT, characterised by `InsertHasEveryParameter` and `NullEntityRejected`. |
| SqlGenerator.MapCSharpTypeToSqlType | Urasandesu.JVLinkToSQLite/DatabaseProviders/ISqlGenerator.cs:116 | No contract of its own; dispatch to the dialect's type table, characterised by `NullableColumnsTypedLikeUnderlying`. |
| SqlGenerator.QuoteIdentifier | Urasandesu.JVLinkToSQLite/DatabaseProviders/ISqlGenerator.cs:130 | No contract of its own; characterised by `QuotingDelimits`, `PlainIdentifiersAgree` and `OnlyPostgreSQLEscapesQuotes`. |
| SqlGenerator.GetParameterName | Urasandesu.JVLinkToSQLite/DatabaseProviders/ISqlGenerator.cs:141 | No contract of its own; characterised by `ParameterNamesAgree`. |
| SqlGenerator.SharedConventions | Urasandesu.JVLinkToSQLite/DatabaseProviders/ISqlGenerator.cs:44-56 | Every generator quotes with `"`, prefixes parameters with `@`, and reports its own database kind. |
| SqlGenerator.NullEntityRejected | Urasandesu.JVLinkToSQLite/DatabaseProviders/ISqlGenerator.cs:66-107 | Every generator rejects a null type in DDL, INSERT and type mapping with ArgumentNullException. |
| SqlGenerator.QuotingDelimits | Urasandesu.JVLinkToSQLite/DatabaseProviders/ISqlGenerator.cs:114-130 | In every dialect quoting succeeds exactly for a non-null, non-empty identifier, and the result starts and ends with the quote character. |
| SqlGenerator.PlainIdentifiersAgree | Urasandesu.JVLinkToSQLite/DatabaseProviders/ISqlGenerator.cs:114-130 | For an identifier without `"`, both dialects give the same quoted text, and it reads back as the identifier. |
| SqlGenerator.PlainHasNoQuotesToDouble | Urasandesu.JVLinkToSQLite/DatabaseProviders/PostgreSQL/PostgreSQLSqlGenerator.cs:73-74 | With no `"` in the text, PostgreSQL's escaping leaves it unchanged. |
| SqlGenerator.OnlyPostgreSQLEscapesQuotes | Urasandesu.JVLinkToSQLite/DatabaseProviders/SQLite/SQLiteSqlGenerator.cs:70-83 | For an identifier holding `"`, SQLite's quoted text no longer reads back as the identifier, while PostgreSQL's does. |
| SqlGenerator.ParameterNamesAgree | Urasandesu.JVLinkToSQLite/DatabaseProviders/ISqlGenerator.cs:132-141 | In every dialect the parameter for a non-empty field name is the prefix followed by the name. |
| SqlGenerator.NullableColumnsTypedLikeUnderlying | Urasandesu.JVLinkToSQLite/DatabaseProviders/ISqlGenerator.cs:104-114 | In every dialect `T?` gets the same column type as `T`. |
| SqlGenerator.DdlMentionsEveryColumn | Urasandesu.JVLinkToSQLite/DatabaseProviders/ISqlGenerator.cs:58-68 | A successful CREATE TABLE in either dialect contains the quoted table name and every quoted property name. |
| SqlGenerator.InsertHasEveryParameter | Urasandesu.JVLinkToSQLite/DatabaseProviders/ISqlGenerator.cs:86-97 | A successful INSERT in either dialect contains `@<name>` for every property. |
| SqlIdentifiers.UnescapeBody | Urasandesu.JVLinkToSQLite/DatabaseProviders/PostgreSQL/PostgreSQLSqlGenerator.cs:73-74 | Reading a delimited identifier's body never yields more characters than the body has. |
| SqlIdentifiers.UnescapePlain | Urasandesu.JVLinkToSQLite/DatabaseProviders/SQLite/SQLiteSqlGenerator.cs:82 | A body without `"` reads as itself. |
| SqlIdentifiers.UnescapeShortens | Urasandesu.JVLinkToSQLite/DatabaseProviders/SQLite/SQLiteSqlGenerator.cs:82 | A body with a `"` does not read as itself. |
| JVDataStructCreateTableSources.IndexRuleOf | Urasandesu.JVLinkToSQLite/JVLinkWrappers/DataBridges/JVDataStructCreateTableSources.cs:81-94 | No contract of its own; the three index rules in the order the loop tries them, characterised by the rule example lemmas below. |
| JVDataStructCreateTableSources.MatchesIndexRule | Urasandesu.JVLinkToSQLite/JVLinkWrappers/DataBridges/JVDataStructCreateTableSources.cs:81-94 | The loop body's if-chain of rule tests (ends with `_id` or `_code`, contains `date` or `time`, one of three names) decides exactly the rule predicate that the plan and its lemmas use. |
| JVDataStructCreateTableSources.Selected | Urasandesu.JVLinkToSQLite/JVLinkWrappers/DataBridges/JVDataStructCreateTableSources.cs:66-101 | No contract of its own; the planner's pass over the columns with the set of names already indexed, characterised by `SelectedFrom` and `PlanIsFirstOfEachName`. |
| JVDataStructCreateTableSources.Plan | Urasandesu.JVLinkToSQLite/JVLinkWrappers/DataBridges/JVDataStructCreateTableSources.cs:66-101 | No contract of its own; the columns the loop indexes, characterised by `PlanIsFirstOfEachName`, `PlanIsSound`, `PlanNamesAreDistinct` and `PlanCoversEveryMatchingName`. |
| JVDataStructCreateTableSources.IndexStatement | Urasandesu.JVLinkToSQLite/JVLinkWrappers/DataBridges/JVDataStructCreateTableSources.cs:98 | No contract of its own; the `create index if not exists idx_<name> on <table>(<name>)` text, whose presence in the template `TemplateAppendsIndexes` states. |
| JVDataStructCreateTableSources.NonKey | Urasandesu.JVLinkToSQLite/JVLinkWrappers/DataBridges/JVDataStructCreateTableSources.cs:69 | The examined columns are exactly the non-key columns. |
| JVDataStructCreateTableSources.GenerateIndexStatements | Urasandesu.JVLinkToSQLite/JVLinkWrappers/DataBridges/JVDataStructCreateTableSources.cs:63-104 | The loop with its set of lower-cased names and list of statements returns the plan's index statements joined by `;\r\n`. |
| JVDataStructCreateTableSources.PlanIsFirstOfEachName | Urasandesu.JVLinkToSQLite/JVLinkWrappers/DataBridges/JVDataStructCreateTableSources.cs:66-101 | The planner selects, in declaration order, exactly the non-key columns that satisfy a rule and are the first non-key column with their lower-cased name. |
| JVDataStructCreateTableSources.NamesOfFirstOfEachName | Urasandesu.JVLinkToSQLite/JVLinkWrappers/DataBridges/JVDataStructCreateTableSources.cs:74-75 | A lower-cased name is in the indexed set after n columns exactly when it satisfies a rule and one of those columns carries it. |
| JVDataStructCreateTableSources.SelectedFrom | Urasandesu.JVLinkToSQLite/JVLinkWrappers/DataBridges/JVDataStructCreateTableSources.cs:69-101 | Running the planner on the rest of the columns, using the names indexed so far, completes the first-of-each-name selection. |
| JVDataStructCreateTableSources.FirstOfEachNameMembers | Urasandesu.JVLinkToSQLite/JVLinkWrappers/DataBridges/JVDataStructCreateTableSources.cs:96-100 | The selection draws from the examined columns, satisfies a rule, and never repeats a lower-cased name. |
| JVDataStructCreateTableSources.PlanIsSound | Urasandesu.JVLinkToSQLite/JVLinkWrappers/DataBridges/JVDataStructCreateTableSources.cs:69-96 | Every indexed column is a non-key column of the table whose lower-cased name satisfies a rule. |
| JVDataStructCreateTableSources.PlanNamesAreDistinct | Test.Urasandesu.JVLinkToSQLite/DatabaseProviders/IndexGenerationTests.cs:217-264 | No two index statements are for the same lower-cased column name. |
| JVDataStructCreateTableSources.PlanCoversEveryMatchingName | Urasandesu.JVLinkToSQLite/JVLinkWrappers/DataBridges/JVDataStructCreateTableSources.cs:71-100 | Every non-key column satisfying a rule has its lower-cased name indexed. |
| JVDataStructCreateTableSources.ForeignKeyRuleExamples | Urasandesu.JVLinkToSQLite/JVLinkWrappers/DataBridges/JVDataStructCreateTableSources.cs:81-84 | `horse_id` is a foreign key; plain `id` matches no rule. |
| JVDataStructCreateTableSources.TemporalRuleExamples | Test.Urasandesu.JVLinkToSQLite/DatabaseProviders/IndexGenerationTests.cs:270-321 | `timeid` and `update_datetime` are indexed through the date/time rule. |
| JVDataStructCreateTableSources.NamedColumnExamples | Urasandesu.JVLinkToSQLite/JVLinkWrappers/DataBridges/JVDataStructCreateTableSources.cs:91-94 | `sex` is indexed by name, as one of the frequently filtered columns. |
| JVDataStructCreateTableSources.UnmatchedColumnExample | Urasandesu.JVLinkToSQLite/JVLinkWrappers/DataBridges/JVDataStructCreateTableSources.cs:81-94 | `other` satisfies none of the three rules, so it is not indexed. |
| JVDataStructCreateTableSources.FindCrLf | Urasandesu.JVLinkToSQLite/JVLinkWrappers/DataBridges/JVDataStructCreateTableSources.cs:38 | The first CR LF at or after a position, or the end when there is none. |
| JVDataStructCreateTableSources.SplitCrLf | Urasandesu.JVLinkToSQLite/JVLinkWrappers/DataBridges/JVDataStructCreateTableSources.cs:38 | Splitting yields at least one piece. |
| JVDataStructCreateTableSources.SplitCrLfRoundTrip | Urasandesu.JVLinkToSQLite/JVLinkWrappers/DataBridges/JVDataStructCreateTableSources.cs:38 | Joining the pieces with CR LF gives back the description. |
| JVDataStructCreateTableSources.SplitCrLfPieces | Urasandesu.JVLinkToSQLite/JVLinkWrappers/DataBridges/JVDataStructCreateTableSources.cs:38 | No piece contains a CR LF. |
| JVDataStructCreateTableSources.RemoveEmpty | Urasandesu.JVLinkToSQLite/JVLinkWrappers/DataBridges/JVDataStructCreateTableSources.cs:38 | The kept pieces are exactly the non-empty ones. |
| JVDataStructCreateTableSources.CommentLinesAreLines | Urasandesu.JVLinkToSQLite/JVLinkWrappers/DataBridges/JVDataStructCreateTableSources.cs:38-39 | The comment lines are non-empty and free of CR LF. They are the non-empty lines of the description with the last one dropped: that final line is the record separator. |
| JVDataStructCreateTableSources.TableComment | Urasandesu.JVLinkToSQLite/JVLinkWrappers/DataBridges/JVDataStructCreateTableSources.cs:35-40 | No contract of its own; characterised by `TableCommentShape` and `CommentLinesAreLines`. |
| JVDataStructCreateTableSources.TableCommentShape | Urasandesu.JVLinkToSQLite/JVLinkWrappers/DataBridges/JVDataStructCreateTableSources.cs:35-40 | Without a description there is no comment; with one, the comment starts with `  -- ` and ends with CR LF. |
| JVDataStructCreateTableSources.KeyNames | Urasandesu.JVLinkToSQLite/JVLinkWrappers/DataBridges/JVDataStructCreateTableSources.cs:45 | There are never more key names than columns. The declaration order is stated by `KeyNamesAppend` and `KeyNamesSnoc`. |
| JVDataStructCreateTableSources.KeyNamesAppend | Urasandesu.JVLinkToSQLite/JVLinkWrappers/DataBridges/JVDataStructCreateTableSources.cs:45 | The key names keep declaration order: those of `xs + ys` are those of `xs` followed by those of `ys`. |
| JVDataStructCreateTableSources.KeyNamesSnoc | Urasandesu.JVLinkToSQLite/JVLinkWrappers/DataBridges/JVDataStructCreateTableSources.cs:45 | Appending a column appends its name to the key names exactly when it is a key column. |
| JVDataStructCreateTableSources.KeyNamesAreKeys | Urasandesu.JVLinkToSQLite/JVLinkWrappers/DataBridges/JVDataStructCreateTableSources.cs:45 | The key names are the names of exactly the key columns, and there are none exactly when no column is a key. |
| JVDataStructCreateTableSources.PrimaryKeyClause | Urasandesu.JVLinkToSQLite/JVLinkWrappers/DataBridges/JVDataStructCreateTableSources.cs:45 | `, primary key (...)` is present exactly when some column is a key. It then reads `, primary key (` + the key names joined by `,` + `)`, so it names every key column. |
| JVDataStructCreateTableSources.KeyClauseInOrder | Urasandesu.JVLinkToSQLite/JVLinkWrappers/DataBridges/JVDataStructCreateTableSources.cs:45 | When the leading and the trailing columns both hold keys, the clause lists the leading keys, then `,`, then the trailing keys. |
| JVDataStructCreateTableSources.CreateTableStatement | Urasandesu.JVLinkToSQLite/JVLinkWrappers/DataBridges/JVDataStructCreateTableSources.cs:42-46 | No contract of its own; characterised by `CreateTableStatementFrame`, `StatementDeclaresEveryColumn`, `PrimaryKeyClause` and `KeyNamesAppend`. |
| JVDataStructCreateTableSources.CreateTableStatementFrame | Urasandesu.JVLinkToSQLite/JVLinkWrappers/DataBridges/JVDataStructCreateTableSources.cs:42-46 | The statement starts with `create table if not exists <placeholder> (` and CR LF. It ends with CR LF, two spaces, the key clause and `)`. |
| JVDataStructCreateTableSources.StatementDeclaresEveryColumn | Urasandesu.JVLinkToSQLite/JVLinkWrappers/DataBridges/JVDataStructCreateTableSources.cs:42-46 | The CREATE TABLE contains every column's line, and a key column's line carries ` not null` right after its type. |
| JVDataStructCreateTableSources.JoinOfNonEmpty | Urasandesu.JVLinkToSQLite/JVLinkWrappers/DataBridges/JVDataStructCreateTableSources.cs:103 | Joined non-empty statements are empty exactly when there are none, so the `IsNullOrEmpty` test asks whether the plan is empty. |
| JVDataStructCreateTableSources.TextTemplate | Urasandesu.JVLinkToSQLite/JVLinkWrappers/DataBridges/JVDataStructCreateTableSources.cs:33-56 | No contract of its own; the text ToTextTemplate is proved to return, characterised by `TemplateAppendsIndexes`. |
| JVDataStructCreateTableSources.ToTextTemplate | Urasandesu.JVLinkToSQLite/JVLinkWrappers/DataBridges/JVDataStructCreateTableSources.cs:33-56 | The method's text is the CREATE TABLE statement, followed by `;\r\n` and the index statements exactly when the plan selects a column. |
| JVDataStructCreateTableSources.TemplateAppendsIndexes | Urasandesu.JVLinkToSQLite/JVLinkWrappers/DataBridges/JVDataStructCreateTableSources.cs:48-53 | With no selected column the template is just the CREATE TABLE. Otherwise it starts with that statement and `;\r\n` and contains every selected column's index statement. |
| ConnectionContracts.Success | specs/1-multi-db-support/contracts/IConnectionFactory.cs:131-139 | No contract of its own; characterised by `FactoriesBuildWellFormedResults`. |
| ConnectionContracts.Failure | specs/1-multi-db-support/contracts/IConnectionFactory.cs:141-149 | No contract of its own; characterised by `FactoriesBuildWellFormedResults`. |
| ConnectionContracts.FactoriesBuildWellFormedResults | specs/1-multi-db-support/contracts/IConnectionFactory.cs:131-149 | Success is valid with no message or details. Failure(m, d) is invalid and keeps m and d, with d defaulting to null. A result is well formed exactly when it is what the two factories build from its fields. |
| ConnectionContracts.NewConnection | specs/1-multi-db-support/contracts/IConnectionFactory.cs:56 | A created connection is not open and has the requested class and string. |
| ConnectionContracts.ValidateDataSource | Urasandesu.JVLinkToSQLite/DatabaseProviders/SQLite/SQLiteConnectionFactory.cs:70-103 | No contract of its own; the data-source checks the SQLite and DuckDB validators share, characterised by `ValidateDataSourceRules` and `MissingDirectoryFails`. |
| ConnectionContracts.ValidateDataSourceRules | Urasandesu.JVLinkToSQLite/DatabaseProviders/SQLite/SQLiteConnectionFactory.cs:70-96 | `:memory:` passes first, then `..` fails with the traversal message, then a non-empty directory that does not exist fails. An empty data source or a bare file name passes. Every result is well formed and every failure has a message. |
| ConnectionContracts.MissingDirectoryFails | Urasandesu.JVLinkToSQLite/DatabaseProviders/DuckDB/DuckDBConnectionFactory.cs:100-108 | A missing parent directory fails with `Directory does not exist: <dir>` and the create-the-directory detail. |
| SQLiteConnectionFactory.ParseConnectionString | Urasandesu.JVLinkToSQLite/DatabaseProviders/SQLite/SQLiteConnectionFactory.cs:48-57 | null or empty gives ArgumentNullException. |
| SQLiteConnectionFactory.ValidateConnectionString | Urasandesu.JVLinkToSQLite/DatabaseProviders/SQLite/SQLiteConnectionFactory.cs:59-104 | No contract of its own; characterised by `ValidationRules` and `ValidationFailuresCarryMessage`. |
| SQLiteConnectionFactory.ValidationRules | Urasandesu.JVLinkToSQLite/DatabaseProviders/SQLite/SQLiteConnectionFactory.cs:59-104 | Null or empty fails, and a parse exception fails with the format message. An exact `:memory:` data source passes, and a null data source fails with the format message. Any other data source gets the shared data-source checks. |
| SQLiteConnectionFactory.ValidationFailuresCarryMessage | Urasandesu.JVLinkToSQLite/DatabaseProviders/SQLite/SQLiteConnectionFactory.cs:59-104 | Validation always returns a well-formed result, and every failure has a message. |
| SQLiteConnectionFactory.MemoryAndBareFileNamesValidate | Test.Urasandesu.JVLinkToSQLite/ErrorHandling/DatabaseErrorTests.cs:89-101 | A `:memory:`, empty or directory-less data source validates, and CreateConnection then builds the connection. |
| SQLiteConnectionFactory.TraversalIsRefusedFirst | Urasandesu.JVLinkToSQLite/DatabaseProviders/SQLite/SQLiteConnectionFactory.cs:77-82 | A data source with `..` fails with the traversal message, and CreateConnection throws ArgumentException with it. |
| SQLiteConnectionFactory.CreateConnection | Urasandesu.JVLinkToSQLite/DatabaseProviders/SQLite/SQLiteConnectionFactory.cs:32-46 | Null or empty gives ArgumentNullException. Otherwise it succeeds exactly when validation passes, giving an unopened SQLiteConnection over the string. A failed validation gives ArgumentException with exactly the validator's message. |
| SQLiteConnectionFactory.ApplyConnectionSettings | Urasandesu.JVLinkToSQLite/DatabaseProviders/SQLite/SQLiteConnectionFactory.cs:106-125 | null gives ArgumentNullException and a non-SQLite connection ArgumentException; an SQLite connection is left unchanged. |
| DuckDBConnectionFactory.ParseConnectionString | Urasandesu.JVLinkToSQLite/DatabaseProviders/DuckDB/DuckDBConnectionFactory.cs:48-69 | Null or empty gives ArgumentNullException. A string without `=` becomes `{Data Source: s}`, and any other string is parsed as key/value pairs. |
| DuckDBConnectionFactory.ValidateConnectionString | Urasandesu.JVLinkToSQLite/DatabaseProviders/DuckDB/DuckDBConnectionFactory.cs:71-119 | No contract of its own; characterised by `ValidationFailuresCarryMessage`, `BarePathIsTheDataSource` and `KeyValueStringRules`. |
| DuckDBConnectionFactory.ValidationFailuresCarryMessage | Urasandesu.JVLinkToSQLite/DatabaseProviders/DuckDB/DuckDBConnectionFactory.cs:71-119 | Validation always returns a well-formed result, and every failure has a message. |
| DuckDBConnectionFactory.BarePathIsTheDataSource | Urasandesu.JVLinkToSQLite/DatabaseProviders/DuckDB/DuckDBConnectionFactory.cs:80-97 | A bare path is its own data source: `:memory:` passes and a path with `..` fails as a traversal. |
| DuckDBConnectionFactory.KeyValueStringRules | Urasandesu.JVLinkToSQLite/DatabaseProviders/DuckDB/DuckDBConnectionFactory.cs:78-118 | A key/value string is judged by its `Data Source`, or by the whole string when it has none; a parse exception fails with the format message. |
| DuckDBConnectionFactory.SuspiciousPathIsRefused | Test.Urasandesu.JVLinkToSQLite/ErrorHandling/DatabaseErrorTests.cs:107-121 | `..\..\suspicious.duckdb` fails with the traversal message, and CreateConnection throws it. |
| DuckDBConnectionFactory.CreateConnection | Urasandesu.JVLinkToSQLite/DatabaseProviders/DuckDB/DuckDBConnectionFactory.cs:32-46 | Null or empty gives ArgumentNullException. Otherwise it succeeds exactly when validation passes, giving an unopened DuckDBConnection. A failed validation gives ArgumentException with the validator's message. |
| DuckDBConnectionFactory.ApplyConnectionSettings | Urasandesu.JVLinkToSQLite/DatabaseProviders/DuckDB/DuckDBConnectionFactory.cs:121-139 | null gives ArgumentNullException and a non-DuckDB connection ArgumentException; a DuckDB connection is left unchanged. |
| PostgreSQLConnectionFactory.NewFactory | Urasandesu.JVLinkToSQLite/DatabaseProviders/PostgreSQL/PostgreSQLConnectionFactory.cs:18-30 | The constructors store the default connection string (null for the parameterless one). |
| PostgreSQLConnectionFactory.ValidateConnectionString | Urasandesu.JVLinkToSQLite/DatabaseProviders/PostgreSQL/PostgreSQLConnectionFactory.cs:53-97 | No contract of its own; characterised by `ValidIffRequiredPresent` and `ValidationReportsProblemsAsResults`. |
| PostgreSQLConnectionFactory.CheckRequired | Urasandesu.JVLinkToSQLite/DatabaseProviders/PostgreSQL/PostgreSQLConnectionFactory.cs:62-87 | No contract of its own; characterised by `FirstMissingParameterIsReported` and `PasswordIsNotChecked`. |
| PostgreSQLConnectionFactory.ValidIffRequiredPresent | Urasandesu.JVLinkToSQLite/DatabaseProviders/PostgreSQL/PostgreSQLConnectionFactory.cs:53-97 | A non-blank string is valid exactly when it parses and sets a non-blank Host, Database and Username; password and port are not looked at. |
| PostgreSQLConnectionFactory.FirstMissingParameterIsReported | Test.Urasandesu.JVLinkToSQLite/ErrorHandling/DatabaseErrorTests.cs:143-192 | The checks run Host, Database, Username, and the first blank one is the failure reported, with its details. |
| PostgreSQLConnectionFactory.PasswordIsNotChecked | Test.Urasandesu.JVLinkToSQLite/ErrorHandling/DatabaseErrorTests.cs:209-221 | Setting or removing the password never changes the verdict. |
| PostgreSQLConnectionFactory.ValidationReportsProblemsAsResults | Urasandesu.JVLinkToSQLite/DatabaseProviders/PostgreSQL/PostgreSQLConnectionFactory.cs:55-96 | A null or blank string fails. A parser ArgumentException, or its subclass ArgumentNullException, fails with `Invalid PostgreSQL connection string: ` and its message. An exception escapes exactly when the parser throws one of another type. Every result is well formed, with a message on failure. |
| PostgreSQLConnectionFactory.InjectPassword | Urasandesu.JVLinkToSQLite/DatabaseProviders/PostgreSQL/PostgreSQLConnectionFactory.cs:110-117 | No contract of its own; characterised by `InjectPasswordFillsIfAbsent`. |
| PostgreSQLConnectionFactory.InjectPasswordFillsIfAbsent | Urasandesu.JVLinkToSQLite/DatabaseProviders/PostgreSQL/PostgreSQLConnectionFactory.cs:109-117 | An existing password is never overwritten and an unset variable changes nothing. An absent or empty password takes the variable's value. No other key changes, and injecting twice is the same as once. |
| PostgreSQLConnectionFactory.ParseConnectionString | Urasandesu.JVLinkToSQLite/DatabaseProviders/PostgreSQL/PostgreSQLConnectionFactory.cs:102-105 | A null or blank string gives ArgumentException. |
| PostgreSQLConnectionFactory.ParsedPassword | Urasandesu.JVLinkToSQLite/DatabaseProviders/PostgreSQL/PostgreSQLConnectionFactory.cs:102-120 | After parsing, the password is the string's own, or the environment's when the string has none and the variable is set; Host, Database and Username are as parsed. |
| PostgreSQLConnectionFactory.ProcessConnectionString | Urasandesu.JVLinkToSQLite/DatabaseProviders/PostgreSQL/PostgreSQLConnectionFactory.cs:126-141 | No contract of its own; characterised by `CreateConnectionDoesNotValidate` and, for the password, `InjectPasswordFillsIfAbsent`. |
| PostgreSQLConnectionFactory.CreateConnection | Urasandesu.JVLinkToSQLite/DatabaseProviders/PostgreSQL/PostgreSQLConnectionFactory.cs:40-48 | A null or blank string gives ArgumentException; every connection built is an unopened NpgsqlConnection. |
| PostgreSQLConnectionFactory.CreateConnectionDoesNotValidate | Urasandesu.JVLinkToSQLite/DatabaseProviders/PostgreSQL/PostgreSQLConnectionFactory.cs:40-48 | Any string that parses yields a connection over the processed string, even one that validation refuses for lack of a Host. |
| PostgreSQLConnectionFactory.ApplyConnectionSettings | Urasandesu.JVLinkToSQLite/DatabaseProviders/PostgreSQL/PostgreSQLConnectionFactory.cs:152-159 | Accepts every connection, null included, and changes nothing. |
| ConnectionFactories.FactoryDatabaseType | specs/1-multi-db-support/contracts/IConnectionFactory.cs:39 | No contract of its own; characterised by `FactoriesReportTheirKind`. |
| ConnectionFactories.CreateConnection | specs/1-multi-db-support/contracts/IConnectionFactory.cs:58 | No contract of its own; characterised by `CreatedConnectionsAreUnopened`, `NullOrEmptyIsRefused` and `FileFactoriesCreateOnlyValidConnections`. |
| ConnectionFactories.ParseConnectionString | specs/1-multi-db-support/contracts/IConnectionFactory.cs:71 | No contract of its own; characterised by `NullOrEmptyIsNotParsed`. |
| ConnectionFactories.ValidateConnectionString | specs/1-multi-db-support/contracts/IConnectionFactory.cs:92 | No contract of its own; characterised by `ValidationReportsResults` and `NullOrEmptyIsRefused`. |
| ConnectionFactories.ApplyConnectionSettings | specs/1-multi-db-support/contracts/IConnectionFactory.cs:105 | No contract of its own; characterised by `ApplyConnectionSettingsChangesNothing`. |
| ConnectionFactories.FactoriesReportTheirKind | specs/1-multi-db-support/contracts/IConnectionFactory.cs:39 | Each factory reports its own database kind. |
| ConnectionFactories.CreatedConnectionsAreUnopened | specs/1-multi-db-support/contracts/IConnectionFactory.cs:41-58 | Every connection a factory creates is unopened and of that factory's class. |
| ConnectionFactories.ValidationReportsResults | specs/1-multi-db-support/contracts/IConnectionFactory.cs:74-92 | The file factories' validation never throws. Every result is well formed, and every failure has a message. |
| ConnectionFactories.NullOrEmptyIsRefused | specs/1-multi-db-support/contracts/IConnectionFactory.cs:41-58 | Every factory fails validation of a null or empty string with the same message and refuses to build a connection for it. |
| ConnectionFactories.FileFactoriesCreateOnlyValidConnections | specs/1-multi-db-support/contracts/IConnectionFactory.cs:41-58 | The SQLite and DuckDB factories build a connection exactly when the string is non-empty and validates. |
| ConnectionFactories.NullOrEmptyIsNotParsed | Urasandesu.JVLinkToSQLite/DatabaseProviders/SQLite/SQLiteConnectionFactory.cs:48-57 | Every factory refuses to parse a null or empty string: the file factories with ArgumentNullException, the PostgreSQL factory with ArgumentException, which it also throws for white space alone. |
| ConnectionFactories.ApplyConnectionSettingsChangesNothing | specs/1-multi-db-support/contracts/IConnectionFactory.cs:94-105 | Configuring never changes the connection. The file factories refuse null and connections of another class; the PostgreSQL factory accepts every connection, null included. |

## Left out

- Live database work is not modelled: opening connections, transactions, PRAGMA statements, command execution and provider disposal. Providers keep only their kind and connection string.
- The provider classes are modelled only by their constructor guards. The DuckDB provider and the DuckDB SQL generator are not part of this model; `NewDuckDBDatabaseProvider` is taken to accept any string.
- Reflection over a type's properties is replaced by an explicit ordered list of (name, type) pairs and a table name.
- `Regex.IsMatch(connectionString, @"(Host|Server)\s*=", IgnoreCase)` is modelled as a string predicate: a case-insensitive `Host` or `Server`, optional white space, then `=`. `\s` and String.Trim use .NET's white-space set.
- `ToLowerInvariant`, `ToLower` and case-insensitive matching are modelled as ASCII lower-casing.
- `Path.GetExtension` is modelled as the suffix from the last `.` after the last `\`, `/` or `:`, or empty when there is none or the `.` is last. Checks for invalid path characters are not modelled.
- The connection-string builders (SQLite, Npgsql and DbConnectionStringBuilder), `Path.GetDirectoryName`, `Directory.Exists` and environment-variable reads are parameters in `ConnectionContracts.Platform`. Their own behaviour is not modelled, including key synonyms such as `Server` for `Host` and the normalised key case.
- To match the source code, a null SQLite `DataSource` is treated as throwing NullReferenceException. That exception is caught as a format failure.
- An exception's `Message` is the message given to its constructor. The ` Parameter name: …` suffix .NET adds and the stack trace in `ToString()` are not modelled.
- PostgreSQLSqlGenerator.NewLine: `Environment.NewLine`, which `StringBuilder.AppendLine` appends, is fixed to CR LF, as on Windows. The tool targets Windows, and the line ending on other platforms is not modelled.
- `Type.FullName` for `Nullable<T>` omits the assembly qualification .NET writes inside the brackets.
- The CREATE TABLE template's table-name placeholder constant is defined in a part of the class that is not part of this model, so it is a parameter.
- `ISqlGenerator` and `IConnectionFactory` are written as datatypes naming their implementations, with dispatch functions, not as interfaces. Adding an implementation means adding a constructor.
- Where the interface documentation and the code disagree, the model follows the code:
  - The ISqlGenerator documentation says QuoteIdentifier and GetParameterName throw ArgumentNullException for null or empty. SQLite throws ArgumentException for "", and PostgreSQL throws ArgumentException for both.
  - The IConnectionFactory documentation says PostgreSQL validation checks JVLINK_DB_PASSWORD and a numeric port. The code checks neither.
  - The IConnectionFactory documentation says CreateConnection throws ArgumentNullException for null or empty. The PostgreSQL factory throws ArgumentException.
  - The IConnectionFactory documentation says ParseConnectionString throws ArgumentNullException for null or empty. The PostgreSQL factory throws ArgumentException, and does so for white space alone too.
  - The IConnectionFactory documentation says ApplyConnectionSettings throws ArgumentNullException for a null connection. The PostgreSQL factory accepts null and does nothing.
- SQLite `QuoteIdentifier` does not escape an embedded `"`. This is modelled as written, and `SqlGenerator.OnlyPostgreSQLEscapesQuotes` states the consequence.
- The PostgreSQL factory's `_defaultConnectionString` field is stored but never read. It is kept only as the factory's value.
- JVDataStructCreateTableSources.StatementDeclaresEveryColumn: states that a key column's line carries ` not null` but not that a non-key column's line lacks it, because a column's type or comment may itself contain that text.
- PostgreSQLConnectionFactory.ValidationReportsProblemsAsResults: `catch (ArgumentException)` is modelled as catching ArgumentException and ArgumentNullException. Other subclasses, such as ArgumentOutOfRangeException, can only arrive as `OtherException` and are treated as escaping, because the exception model does not name them.
