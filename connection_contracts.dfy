/** IConnectionFactory's vocabulary: the ValidationResult record, the
    connection a factory hands out, and the services of the platform the
    factories consult (connection-string builders, the file system, the
    process environment), which are parameters of the model. */
module ConnectionContracts {
  import opened Common
  import opened Strings

  /** ValidationResult: IsValid, ErrorMessage, Details (null is None). */
  datatype ValidationResult = ValidationResult(isValid: bool, errorMessage: Option<string>, details: Option<string>)

  /** ValidationResult.Success() */
  function Success(): ValidationResult {
    ValidationResult(true, None, None)
  }

  /** ValidationResult.Failure(errorMessage, details = null) */
  function Failure(errorMessage: Option<string>, details: Option<string> := None): ValidationResult {
    ValidationResult(false, errorMessage, details)
  }

  /** What holds of every result built through Success and Failure: a
      valid result carries neither a message nor details. */
  predicate WellFormed(v: ValidationResult) {
    v.isValid ==> v.errorMessage.None? && v.details.None?
  }

  /** The two factories build well-formed results, a failure keeps the
      message and details it is given, and every well-formed result is
      the one the factories build from its own fields. */
  lemma FactoriesBuildWellFormedResults(m: Option<string>, d: Option<string>, v: ValidationResult)
    ensures WellFormed(Success()) && Success().isValid
    ensures WellFormed(Failure(m, d)) && !Failure(m, d).isValid
    ensures Failure(m, d).errorMessage == m && Failure(m, d).details == d
    ensures Failure(m).details == None
    ensures WellFormed(v) <==> v == (if v.isValid then Success() else Failure(v.errorMessage, v.details))
  {
  }

  /** The connection classes a factory can hand out. */
  datatype ConnectionKind = SQLiteConnection | DuckDBConnection | NpgsqlConnection | OtherConnection(typeName: string)

  /** A DbConnection as far as the factories see it: its class, the
      connection string it was built from, and whether it is open. */
  datatype DbConnection = DbConnection(kind: ConnectionKind, connectionString: string, isOpen: bool)

  /** A fresh connection object, not yet opened. */
  function NewConnection(kind: ConnectionKind, connectionString: string): (r: DbConnection)
    ensures !r.isOpen && r.kind == kind && r.connectionString == connectionString
  {
    DbConnection(kind, connectionString, false)
  }

  /** What an SQLiteConnectionStringBuilder reports: its DataSource, which is
      null when the string sets none. */
  datatype SQLiteBuilder = SQLiteBuilder(dataSource: Option<string>)

  /** A parsed key/value connection string. Keys are stored as the
      builder normalises them: lower-cased for DbConnectionStringBuilder,
      the canonical property names (Host, Database, Username, Password, …)
      with synonyms resolved for NpgsqlConnectionStringBuilder. */
  type Settings = map<string, string>

  /** The platform services the factories call:
      - sqliteParse: new SQLiteConnectionStringBuilder(s);
      - keyValueParse: DbConnectionStringBuilder.ConnectionString = s;
      - npgsqlParse: new NpgsqlConnectionStringBuilder(s);
      - npgsqlFormat: NpgsqlConnectionStringBuilder.ToString();
      - getDirectoryName: Path.GetDirectoryName (null when there is no directory part);
      - directoryExists: Directory.Exists;
      - passwordVariable: Environment.GetEnvironmentVariable("JVLINK_DB_PASSWORD").
      Each parse may throw, which is an `Err`. */
  datatype Platform = Platform(
    sqliteParse: string -> Result<SQLiteBuilder>,
    keyValueParse: string -> Result<Settings>,
    npgsqlParse: string -> Result<Settings>,
    npgsqlFormat: Settings -> string,
    getDirectoryName: string -> Result<Option<string>>,
    directoryExists: string -> bool,
    passwordVariable: Option<string>)

  const TraversalMessage := "Connection string contains path traversal attempt (..)."
  const TraversalDetails := "Path traversal is not allowed for security reasons."
  const CreateDirectoryDetails := "Please create the directory before running the application."
  const NullOrEmptyMessage := "Connection string cannot be null or empty."

  /** The checks the SQLite and DuckDB factories make of a data source that
      is present; `formatMessage` is the failure message for an exception
      thrown along the way. */
  function ValidateDataSource(platform: Platform, dataSource: string, formatMessage: string): ValidationResult {
    if dataSource == ":memory:" then Success()
    else if Contains(dataSource, "..") then Failure(Some(TraversalMessage), Some(TraversalDetails))
    else if dataSource != "" then
      match platform.getDirectoryName(dataSource)
      case Err(ex) => Failure(Some(formatMessage), Some(ex.Message()))
      case Ok(directory) =>
        if !IsNullOrEmpty(directory) && !platform.directoryExists(directory.value) then
          Failure(Some("Directory does not exist: " + directory.value), Some(CreateDirectoryDetails))
        else Success()
    else Success()
  }

  /** The data-source checks in full: `:memory:` first, then `..`, then
      the parent directory; an empty data source or a bare file name
      passes, and every failure carries a message. */
  lemma ValidateDataSourceRules(platform: Platform, dataSource: string, formatMessage: string)
    ensures var v := ValidateDataSource(platform, dataSource, formatMessage);
      && WellFormed(v)
      && (!v.isValid ==> v.errorMessage.Some?)
      && (dataSource == ":memory:" ==> v.isValid)
      && (dataSource != ":memory:" && Contains(dataSource, "..") ==>
            v == Failure(Some(TraversalMessage), Some(TraversalDetails)))
      && (v.isValid <==>
            dataSource == ":memory:"
            || (!Contains(dataSource, "..")
                && (dataSource == ""
                    || (platform.getDirectoryName(dataSource).Ok?
                        && (IsNullOrEmpty(platform.getDirectoryName(dataSource).value)
                            || platform.directoryExists(platform.getDirectoryName(dataSource).value.value))))))
  {
  }

  /** A data source whose directory is missing is refused with the
      directory's name, unless `..` or `:memory:` decided first. */
  lemma MissingDirectoryFails(platform: Platform, dataSource: string, formatMessage: string, directory: string)
    requires dataSource != ":memory:" && dataSource != "" && !Contains(dataSource, "..")
    requires platform.getDirectoryName(dataSource) == Ok(Some(directory))
    requires directory != "" && !platform.directoryExists(directory)
    ensures ValidateDataSource(platform, dataSource, formatMessage)
      == Failure(Some("Directory does not exist: " + directory), Some(CreateDirectoryDetails))
  {
  }
}
