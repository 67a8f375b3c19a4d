/** IConnectionFactory: the five members every connection factory offers,
    dispatched to the SQLite, DuckDB and PostgreSQL factories, and what
    holds of all of them. */
module ConnectionFactories {
  import opened Common
  import opened Strings
  import opened DatabaseTypes
  import opened ConnectionContracts
  import SQLiteFactory = SQLiteConnectionFactory
  import DuckDBFactory = DuckDBConnectionFactory
  import PostgreSQLFactory = PostgreSQLConnectionFactory

  /** The implementations of IConnectionFactory. */
  datatype ConnectionFactory =
    | SQLiteConnectionFactory
    | DuckDBConnectionFactory
    | PostgreSQLConnectionFactory(factory: PostgreSQLFactory.Factory)

  function FactoryDatabaseType(f: ConnectionFactory): DatabaseType {
    match f
    case SQLiteConnectionFactory => SQLiteFactory.FactoryDatabaseType
    case DuckDBConnectionFactory => DuckDBFactory.FactoryDatabaseType
    case PostgreSQLConnectionFactory(_) => PostgreSQLFactory.FactoryDatabaseType
  }

  /** ValidateConnectionString; only the PostgreSQL factory can let an
      exception escape. */
  function ValidateConnectionString(f: ConnectionFactory, platform: Platform, connectionString: Option<string>): Result<ValidationResult> {
    match f
    case SQLiteConnectionFactory => Ok(SQLiteFactory.ValidateConnectionString(platform, connectionString))
    case DuckDBConnectionFactory => Ok(DuckDBFactory.ValidateConnectionString(platform, connectionString))
    case PostgreSQLConnectionFactory(_) => PostgreSQLFactory.ValidateConnectionString(platform, connectionString)
  }

  function CreateConnection(f: ConnectionFactory, platform: Platform, connectionString: Option<string>): Result<DbConnection> {
    match f
    case SQLiteConnectionFactory => SQLiteFactory.CreateConnection(platform, connectionString)
    case DuckDBConnectionFactory => DuckDBFactory.CreateConnection(platform, connectionString)
    case PostgreSQLConnectionFactory(_) => PostgreSQLFactory.CreateConnection(platform, connectionString)
  }

  /** The DbConnectionStringBuilder ParseConnectionString returns: an
      SQLiteConnectionStringBuilder, or a key/value builder (the DuckDB
      factory's DbConnectionStringBuilder, the PostgreSQL factory's
      NpgsqlConnectionStringBuilder). */
  datatype ConnectionStringBuilder =
    | SQLiteConnectionStringBuilder(sqlite: SQLiteBuilder)
    | KeyValueBuilder(settings: Settings)

  function ParseConnectionString(f: ConnectionFactory, platform: Platform, connectionString: Option<string>): Result<ConnectionStringBuilder> {
    match f
    case SQLiteConnectionFactory =>
      var builder :- SQLiteFactory.ParseConnectionString(platform, connectionString);
      Ok(SQLiteConnectionStringBuilder(builder))
    case DuckDBConnectionFactory =>
      var builder :- DuckDBFactory.ParseConnectionString(platform, connectionString);
      Ok(KeyValueBuilder(builder))
    case PostgreSQLConnectionFactory(_) =>
      var builder :- PostgreSQLFactory.ParseConnectionString(platform, connectionString);
      Ok(KeyValueBuilder(builder))
  }

  /** ApplyConnectionSettings returns nothing; `Ok(connection)` stands for
      returning normally with the connection as given. */
  function ApplyConnectionSettings(f: ConnectionFactory, connection: Option<DbConnection>): Result<Option<DbConnection>> {
    match f
    case SQLiteConnectionFactory =>
      var c :- SQLiteFactory.ApplyConnectionSettings(connection);
      Ok(Some(c))
    case DuckDBConnectionFactory =>
      var c :- DuckDBFactory.ApplyConnectionSettings(connection);
      Ok(Some(c))
    case PostgreSQLConnectionFactory(_) => PostgreSQLFactory.ApplyConnectionSettings(connection)
  }

  /** The connection class each factory builds. */
  function ConnectionKindOf(f: ConnectionFactory): ConnectionKind {
    match f
    case SQLiteConnectionFactory => SQLiteConnection
    case DuckDBConnectionFactory => DuckDBConnection
    case PostgreSQLConnectionFactory(_) => NpgsqlConnection
  }

  /** Each factory reports its own database kind. */
  lemma FactoriesReportTheirKind(f: ConnectionFactory)
    ensures FactoryDatabaseType(f) == (match f
      case SQLiteConnectionFactory => DatabaseTypes.SQLite
      case DuckDBConnectionFactory => DatabaseTypes.DuckDB
      case PostgreSQLConnectionFactory(_) => DatabaseTypes.PostgreSQL)
  {
  }

  /** CreateConnection hands out an unopened connection of the factory's
      own class. */
  lemma CreatedConnectionsAreUnopened(f: ConnectionFactory, platform: Platform, connectionString: Option<string>)
    requires CreateConnection(f, platform, connectionString).Ok?
    ensures !CreateConnection(f, platform, connectionString).value.isOpen
    ensures CreateConnection(f, platform, connectionString).value.kind == ConnectionKindOf(f)
  {
  }

  /** Validation reports problems as results: the file factories never
      throw, every result is well formed, and every failure has a message. */
  lemma ValidationReportsResults(f: ConnectionFactory, platform: Platform, connectionString: Option<string>)
    ensures !f.PostgreSQLConnectionFactory? ==> ValidateConnectionString(f, platform, connectionString).Ok?
    ensures ValidateConnectionString(f, platform, connectionString).Ok? ==>
      var v := ValidateConnectionString(f, platform, connectionString).value;
      WellFormed(v) && (!v.isValid ==> v.errorMessage.Some?)
  {
    match f
    case SQLiteConnectionFactory => SQLiteFactory.ValidationFailuresCarryMessage(platform, connectionString);
    case DuckDBConnectionFactory => DuckDBFactory.ValidationFailuresCarryMessage(platform, connectionString);
    case PostgreSQLConnectionFactory(_) => PostgreSQLFactory.ValidationReportsProblemsAsResults(platform, connectionString);
  }

  /** Every factory refuses a null or empty string, in validation with the
      same failure; only the PostgreSQL factory also refuses one made of
      white space alone. */
  lemma NullOrEmptyIsRefused(f: ConnectionFactory, platform: Platform, connectionString: Option<string>)
    requires IsNullOrEmpty(connectionString)
    ensures ValidateConnectionString(f, platform, connectionString) == Ok(Failure(Some(NullOrEmptyMessage)))
    ensures CreateConnection(f, platform, connectionString).Err?
  {
  }

  /** Every factory refuses to parse a null or empty string; the file
      factories with ArgumentNullException, the PostgreSQL factory with
      ArgumentException, which it also throws for a string of white space. */
  lemma NullOrEmptyIsNotParsed(f: ConnectionFactory, platform: Platform, connectionString: Option<string>)
    ensures IsNullOrEmpty(connectionString) ==> ParseConnectionString(f, platform, connectionString).Err?
    ensures IsNullOrEmpty(connectionString) && !f.PostgreSQLConnectionFactory? ==>
      ParseConnectionString(f, platform, connectionString) == Err(ArgumentNullException("connectionString", NullOrEmptyMessage))
    ensures IsNullOrWhiteSpace(connectionString) && f.PostgreSQLConnectionFactory? ==>
      ParseConnectionString(f, platform, connectionString) == Err(ArgumentException("connectionString", NullOrEmptyMessage))
  {
  }

  /** Configuring a connection never changes it. The file factories refuse
      null and connections of another class; the PostgreSQL factory
      accepts every connection, null included. */
  lemma ApplyConnectionSettingsChangesNothing(f: ConnectionFactory, connection: Option<DbConnection>)
    ensures ApplyConnectionSettings(f, connection).Ok? ==> ApplyConnectionSettings(f, connection).value == connection
    ensures !f.PostgreSQLConnectionFactory? ==>
      (ApplyConnectionSettings(f, connection).Ok? <==> connection.Some? && connection.value.kind == ConnectionKindOf(f))
    ensures !f.PostgreSQLConnectionFactory? && connection.None? ==>
      ApplyConnectionSettings(f, connection) == Err(ArgumentNullException("connection", "Connection cannot be null."))
    ensures f.PostgreSQLConnectionFactory? ==> ApplyConnectionSettings(f, connection) == Ok(connection)
  {
  }

  /** The file factories build a connection exactly when validation
      passes; the PostgreSQL factory does not ask. */
  lemma FileFactoriesCreateOnlyValidConnections(f: ConnectionFactory, platform: Platform, connectionString: Option<string>)
    requires !f.PostgreSQLConnectionFactory?
    ensures CreateConnection(f, platform, connectionString).Ok? <==>
      !IsNullOrEmpty(connectionString) && ValidateConnectionString(f, platform, connectionString).value.isValid
  {
  }
}
