/** SQLiteConnectionFactory: validation of SQLite connection strings, and
    the guards of connection creation and configuration. */
module SQLiteConnectionFactory {
  import opened Common
  import opened Strings
  import opened DatabaseTypes
  import opened ConnectionContracts

  const FactoryDatabaseType := DatabaseTypes.SQLite
  const FormatMessage := "Invalid SQLite connection string format."

  /** ParseConnectionString */
  function ParseConnectionString(platform: Platform, connectionString: Option<string>): (r: Result<SQLiteBuilder>)
    ensures IsNullOrEmpty(connectionString) ==>
      r == Err(ArgumentNullException("connectionString", NullOrEmptyMessage))
  {
    if IsNullOrEmpty(connectionString) then Err(ArgumentNullException("connectionString", NullOrEmptyMessage))
    else platform.sqliteParse(connectionString.value)
  }

  /** ValidateConnectionString: every exception inside the `try`, including
      the NullReferenceException of a DataSource that is null, becomes
      the format failure. */
  function ValidateConnectionString(platform: Platform, connectionString: Option<string>): ValidationResult {
    if IsNullOrEmpty(connectionString) then Failure(Some(NullOrEmptyMessage))
    else
      match platform.sqliteParse(connectionString.value)
      case Err(ex) => Failure(Some(FormatMessage), Some(ex.Message()))
      case Ok(builder) =>
        match builder.dataSource
        case None => Failure(Some(FormatMessage), Some(NullReferenceException.Message()))
        case Some(dataSource) => ValidateDataSource(platform, dataSource, FormatMessage)
  }

  /** CreateConnection: null or empty is an ArgumentNullException, a
      failed validation an ArgumentException with its message, and
      otherwise an unopened SQLiteConnection over the given string. */
  function CreateConnection(platform: Platform, connectionString: Option<string>): (r: Result<DbConnection>)
    ensures IsNullOrEmpty(connectionString) ==> r == Err(ArgumentNullException("connectionString", NullOrEmptyMessage))
    ensures r.Ok? <==> !IsNullOrEmpty(connectionString) && ValidateConnectionString(platform, connectionString).isValid
    ensures r.Ok? ==> r.value == NewConnection(SQLiteConnection, connectionString.value)
    ensures !IsNullOrEmpty(connectionString) && !ValidateConnectionString(platform, connectionString).isValid ==>
      r.Err? && r.error.ArgumentException? && Some(r.error.message) == ValidateConnectionString(platform, connectionString).errorMessage
  {
    if IsNullOrEmpty(connectionString) then Err(ArgumentNullException("connectionString", NullOrEmptyMessage))
    else
      var validation := ValidateConnectionString(platform, connectionString);
      if !validation.isValid then
        ValidationFailuresCarryMessage(platform, connectionString);
        Err(ArgumentException("connectionString", validation.errorMessage.GetOr(ArgumentExceptionDefaultMessage)))
      else Ok(NewConnection(SQLiteConnection, connectionString.value))
  }

  /** The message ArgumentException reports when it is given none. */
  const ArgumentExceptionDefaultMessage := "Value does not fall within the expected range."

  /** ApplyConnectionSettings: only null and foreign connections are refused;
      an SQLite connection is left as it is. */
  function ApplyConnectionSettings(connection: Option<DbConnection>): (r: Result<DbConnection>)
    ensures connection.None? ==> r == Err(ArgumentNullException("connection", "Connection cannot be null."))
    ensures r.Ok? <==> connection.Some? && connection.value.kind == SQLiteConnection
    ensures r.Ok? ==> r.value == connection.value
  {
    if connection.None? then Err(ArgumentNullException("connection", "Connection cannot be null."))
    else if connection.value.kind != SQLiteConnection then
      Err(ArgumentException("connection", "Connection must be a SQLiteConnection."))
    else Ok(connection.value)
  }

  // ---------------------------------------------------------------------
  // Properties
  // ---------------------------------------------------------------------

  /** Validation never throws, builds only well-formed results, and every
      failure has a message. */
  lemma ValidationFailuresCarryMessage(platform: Platform, connectionString: Option<string>)
    ensures WellFormed(ValidateConnectionString(platform, connectionString))
    ensures !ValidateConnectionString(platform, connectionString).isValid ==>
      ValidateConnectionString(platform, connectionString).errorMessage.Some?
  {
    if !IsNullOrEmpty(connectionString) {
      match platform.sqliteParse(connectionString.value)
      case Err(_) =>
      case Ok(builder) =>
        if builder.dataSource.Some? {
          ValidateDataSourceRules(platform, builder.dataSource.value, FormatMessage);
        }
    }
  }

  /** The rules in the order the factory applies them. */
  lemma ValidationRules(platform: Platform, connectionString: Option<string>)
    ensures IsNullOrEmpty(connectionString) ==>
      ValidateConnectionString(platform, connectionString) == Failure(Some(NullOrEmptyMessage))
    ensures !IsNullOrEmpty(connectionString) && platform.sqliteParse(connectionString.value).Err? ==>
      ValidateConnectionString(platform, connectionString)
        == Failure(Some(FormatMessage), Some(platform.sqliteParse(connectionString.value).error.Message()))
    ensures !IsNullOrEmpty(connectionString) && platform.sqliteParse(connectionString.value) == Ok(SQLiteBuilder(Some(":memory:"))) ==>
      ValidateConnectionString(platform, connectionString).isValid
    ensures !IsNullOrEmpty(connectionString) && platform.sqliteParse(connectionString.value) == Ok(SQLiteBuilder(None)) ==>
      ValidateConnectionString(platform, connectionString)
        == Failure(Some(FormatMessage), Some("Object reference not set to an instance of an object."))
    ensures forall ds | !IsNullOrEmpty(connectionString) && platform.sqliteParse(connectionString.value) == Ok(SQLiteBuilder(Some(ds))) ::
      ValidateConnectionString(platform, connectionString) == ValidateDataSource(platform, ds, FormatMessage)
  {
  }

  /** `Data Source=:memory:`-style strings and bare file names validate. */
  lemma MemoryAndBareFileNamesValidate(platform: Platform, connectionString: string, dataSource: string)
    requires connectionString != ""
    requires platform.sqliteParse(connectionString) == Ok(SQLiteBuilder(Some(dataSource)))
    requires dataSource == ":memory:" || dataSource == ""
      || (!Contains(dataSource, "..") && platform.getDirectoryName(dataSource) == Ok(Some("")))
    ensures ValidateConnectionString(platform, Some(connectionString)).isValid
    ensures CreateConnection(platform, Some(connectionString)) == Ok(NewConnection(SQLiteConnection, connectionString))
  {
    ValidateDataSourceRules(platform, dataSource, FormatMessage);
  }

  /** A data source with `..` is refused before the directory is looked at. */
  lemma TraversalIsRefusedFirst(platform: Platform, connectionString: string, dataSource: string)
    requires connectionString != ""
    requires platform.sqliteParse(connectionString) == Ok(SQLiteBuilder(Some(dataSource)))
    requires dataSource != ":memory:" && Contains(dataSource, "..")
    ensures ValidateConnectionString(platform, Some(connectionString)) == Failure(Some(TraversalMessage), Some(TraversalDetails))
    ensures CreateConnection(platform, Some(connectionString)) == Err(ArgumentException("connectionString", TraversalMessage))
  {
    ValidateDataSourceRules(platform, dataSource, FormatMessage);
  }
}
