/** DuckDBConnectionFactory: parsing and validation of DuckDB connection
    strings, which may be a bare path, and the guards of connection
    creation and configuration. */
module DuckDBConnectionFactory {
  import opened Common
  import opened Strings
  import opened DatabaseTypes
  import opened ConnectionContracts

  const FactoryDatabaseType := DatabaseTypes.DuckDB
  const FormatMessage := "Invalid DuckDB connection string format."

  /** "Data Source" as DbConnectionStringBuilder stores it. */
  const DataSourceKey := "data source"

  /** ParseConnectionString: a string with `=` is parsed as key/value
      pairs; any other string is taken as the data source itself. */
  function ParseConnectionString(platform: Platform, connectionString: Option<string>): (r: Result<Settings>)
    ensures IsNullOrEmpty(connectionString) ==>
      r == Err(ArgumentNullException("connectionString", NullOrEmptyMessage))
    ensures !IsNullOrEmpty(connectionString) && !Contains(connectionString.value, "=") ==>
      r == Ok(map[DataSourceKey := connectionString.value])
    ensures !IsNullOrEmpty(connectionString) && Contains(connectionString.value, "=") ==>
      r == platform.keyValueParse(connectionString.value)
  {
    if IsNullOrEmpty(connectionString) then Err(ArgumentNullException("connectionString", NullOrEmptyMessage))
    else if Contains(connectionString.value, "=") then platform.keyValueParse(connectionString.value)
    else Ok(map[DataSourceKey := connectionString.value])
  }

  /** The data source validation looks at: the `Data Source` value when
      the parsed string has one, otherwise the whole string. */
  function DataSourceOf(builder: Settings, connectionString: string): string {
    if DataSourceKey in builder then builder[DataSourceKey] else connectionString
  }

  /** ValidateConnectionString: every exception inside the `try` becomes the
      format failure. */
  function ValidateConnectionString(platform: Platform, connectionString: Option<string>): ValidationResult {
    if IsNullOrEmpty(connectionString) then Failure(Some(NullOrEmptyMessage))
    else
      match ParseConnectionString(platform, connectionString)
      case Err(ex) => Failure(Some(FormatMessage), Some(ex.Message()))
      case Ok(builder) => ValidateDataSource(platform, DataSourceOf(builder, connectionString.value), FormatMessage)
  }

  const ArgumentExceptionDefaultMessage := "Value does not fall within the expected range."

  /** CreateConnection: null or empty is an ArgumentNullException, a
      failed validation an ArgumentException with its message, and
      otherwise an unopened DuckDBConnection over the given string. */
  function CreateConnection(platform: Platform, connectionString: Option<string>): (r: Result<DbConnection>)
    ensures IsNullOrEmpty(connectionString) ==> r == Err(ArgumentNullException("connectionString", NullOrEmptyMessage))
    ensures r.Ok? <==> !IsNullOrEmpty(connectionString) && ValidateConnectionString(platform, connectionString).isValid
    ensures r.Ok? ==> r.value == NewConnection(DuckDBConnection, connectionString.value)
    ensures !IsNullOrEmpty(connectionString) && !ValidateConnectionString(platform, connectionString).isValid ==>
      r.Err? && r.error.ArgumentException? && Some(r.error.message) == ValidateConnectionString(platform, connectionString).errorMessage
  {
    if IsNullOrEmpty(connectionString) then Err(ArgumentNullException("connectionString", NullOrEmptyMessage))
    else
      var validation := ValidateConnectionString(platform, connectionString);
      if !validation.isValid then
        ValidationFailuresCarryMessage(platform, connectionString);
        Err(ArgumentException("connectionString", validation.errorMessage.GetOr(ArgumentExceptionDefaultMessage)))
      else Ok(NewConnection(DuckDBConnection, connectionString.value))
  }

  /** ApplyConnectionSettings: only null and foreign connections are refused;
      a DuckDB connection is left as it is. */
  function ApplyConnectionSettings(connection: Option<DbConnection>): (r: Result<DbConnection>)
    ensures connection.None? ==> r == Err(ArgumentNullException("connection", "Connection cannot be null."))
    ensures r.Ok? <==> connection.Some? && connection.value.kind == DuckDBConnection
    ensures r.Ok? ==> r.value == connection.value
  {
    if connection.None? then Err(ArgumentNullException("connection", "Connection cannot be null."))
    else if connection.value.kind != DuckDBConnection then
      Err(ArgumentException("connection", "Connection must be a DuckDBConnection."))
    else Ok(connection.value)
  }

  // ---------------------------------------------------------------------
  // Properties
  // ---------------------------------------------------------------------

  /** Validation never throws, builds only well-formed results, and every
      failure has a message. */
  lemma ValidationFailuresCarryMessage(platform: Platform, connectionString: Option<string>)
    ensures WellFormed(ValidateConnectionString(platform, connectionString))
    ensures !ValidateConnectionString(platform, connectionString).isValid ==>
      ValidateConnectionString(platform, connectionString).errorMessage.Some?
  {
    if !IsNullOrEmpty(connectionString) {
      match ParseConnectionString(platform, connectionString)
      case Err(_) =>
      case Ok(builder) =>
        ValidateDataSourceRules(platform, DataSourceOf(builder, connectionString.value), FormatMessage);
    }
  }

  /** A bare path is its own data source, so `:memory:` validates and a
      path with `..` such as `..\..\suspicious.duckdb` is refused as a
      traversal before any directory is looked at. */
  lemma BarePathIsTheDataSource(platform: Platform, path: string)
    requires path != "" && !Contains(path, "=")
    ensures ValidateConnectionString(platform, Some(path)) == ValidateDataSource(platform, path, FormatMessage)
    ensures path == ":memory:" ==> ValidateConnectionString(platform, Some(path)).isValid
    ensures path != ":memory:" && Contains(path, "..") ==>
      ValidateConnectionString(platform, Some(path)) == Failure(Some(TraversalMessage), Some(TraversalDetails))
  {
    assert DataSourceOf(map[DataSourceKey := path], path) == path;
    ValidateDataSourceRules(platform, path, FormatMessage);
  }

  /** A key/value string is validated by its `Data Source`, or as a whole
      when it has none; a parse error becomes the format failure. */
  lemma KeyValueStringRules(platform: Platform, connectionString: string)
    requires connectionString != "" && Contains(connectionString, "=")
    ensures platform.keyValueParse(connectionString).Err? ==>
      ValidateConnectionString(platform, Some(connectionString))
        == Failure(Some(FormatMessage), Some(platform.keyValueParse(connectionString).error.Message()))
    ensures platform.keyValueParse(connectionString).Ok? ==>
      ValidateConnectionString(platform, Some(connectionString))
        == ValidateDataSource(platform, DataSourceOf(platform.keyValueParse(connectionString).value, connectionString), FormatMessage)
  {
  }

  /** The traversal example: `..\..\suspicious.duckdb` has no `=` and
      contains `..`, so it is refused, and CreateConnection reports the
      traversal message. */
  lemma SuspiciousPathIsRefused(platform: Platform)
    ensures var s := "..\\..\\suspicious.duckdb";
      && ValidateConnectionString(platform, Some(s)) == Failure(Some(TraversalMessage), Some(TraversalDetails))
      && CreateConnection(platform, Some(s)) == Err(ArgumentException("connectionString", TraversalMessage))
  {
    var s := "..\\..\\suspicious.duckdb";
    assert s[0..2] == "..";
    assert OccursAt(s, "..", 0);
    assert !Contains(s, "=") by {
      forall i | 0 <= i <= |s| ensures !OccursAt(s, "=", i) {
        if i + 1 <= |s| {
          assert s[i..i + 1][0] == s[i];
        }
      }
    }
    BarePathIsTheDataSource(platform, s);
  }
}
