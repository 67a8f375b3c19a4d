/** PostgreSQLConnectionFactory: validation of Npgsql connection strings,
    the injection of a password from the environment, and connection
    creation. */
module PostgreSQLConnectionFactory {
  import opened Common
  import opened Strings
  import opened DatabaseTypes
  import opened ConnectionContracts

  const FactoryDatabaseType := DatabaseTypes.PostgreSQL

  /** The factory's one field, set by its constructors and never read. */
  datatype Factory = Factory(defaultConnectionString: Option<string>)

  /** new PostgreSQLConnectionFactory() and new PostgreSQLConnectionFactory(connectionString) */
  function NewFactory(connectionString: Option<string>): (r: Factory)
    ensures r.defaultConnectionString == connectionString
  {
    Factory(connectionString)
  }

  /** A builder property by its canonical key; null when the string does not set it. */
  function Property(builder: Settings, key: string): Option<string> {
    if key in builder then Some(builder[key]) else None
  }

  function Host(builder: Settings): Option<string> { Property(builder, "Host") }
  function Database(builder: Settings): Option<string> { Property(builder, "Database") }
  function Username(builder: Settings): Option<string> { Property(builder, "Username") }
  function Password(builder: Settings): Option<string> { Property(builder, "Password") }

  /** ValidateConnectionString. Only an ArgumentException from the parser,
      or one of its subclasses, is caught and reported; any other exception
      propagates. */
  function ValidateConnectionString(platform: Platform, connectionString: Option<string>): Result<ValidationResult> {
    if IsNullOrWhiteSpace(connectionString) then Ok(Failure(Some(NullOrEmptyMessage)))
    else
      match platform.npgsqlParse(connectionString.value)
      case Err(ex) =>
        if ex.IsArgumentException() then
          Ok(Failure(Some("Invalid PostgreSQL connection string: " + ex.message), Some(ex.Describe())))
        else Err(ex)
      case Ok(builder) => Ok(CheckRequired(builder))
  }

  const HostRequired := "Host is required in PostgreSQL connection string."
  const HostDetails := "PostgreSQL connection string must contain Server or Host parameter."
  const DatabaseRequired := "Database is required in PostgreSQL connection string."
  const DatabaseDetails := "PostgreSQL connection string must contain Database parameter."
  const UsernameRequired := "Username is required in PostgreSQL connection string."
  const UsernameDetails := "PostgreSQL connection string must contain Username or User Id parameter."

  /** The required-parameter checks: Host, then Database, then Username. */
  function CheckRequired(builder: Settings): ValidationResult {
    if IsNullOrWhiteSpace(Host(builder)) then Failure(Some(HostRequired), Some(HostDetails))
    else if IsNullOrWhiteSpace(Database(builder)) then Failure(Some(DatabaseRequired), Some(DatabaseDetails))
    else if IsNullOrWhiteSpace(Username(builder)) then Failure(Some(UsernameRequired), Some(UsernameDetails))
    else Success()
  }

  /** The password update both ParseConnectionString and
      ProcessConnectionString apply: the variable's value is written only
      when the string has no password and the variable is set. */
  function InjectPassword(builder: Settings, passwordVariable: Option<string>): Settings {
    if IsNullOrEmpty(Password(builder)) && !IsNullOrEmpty(passwordVariable) then
      builder["Password" := passwordVariable.value]
    else builder
  }

  /** ParseConnectionString */
  function ParseConnectionString(platform: Platform, connectionString: Option<string>): (r: Result<Settings>)
    ensures IsNullOrWhiteSpace(connectionString) ==>
      r == Err(ArgumentException("connectionString", NullOrEmptyMessage))
  {
    if IsNullOrWhiteSpace(connectionString) then Err(ArgumentException("connectionString", NullOrEmptyMessage))
    else
      var builder :- platform.npgsqlParse(connectionString.value);
      Ok(InjectPassword(builder, platform.passwordVariable))
  }

  /** ProcessConnectionString: the connection string with the password injected. */
  function ProcessConnectionString(platform: Platform, connectionString: string): Result<string> {
    var builder :- platform.npgsqlParse(connectionString);
    Ok(platform.npgsqlFormat(InjectPassword(builder, platform.passwordVariable)))
  }

  /** CreateConnection: refuses a blank string and otherwise builds an
      unopened connection over the processed string, without validating it. */
  function CreateConnection(platform: Platform, connectionString: Option<string>): (r: Result<DbConnection>)
    ensures IsNullOrWhiteSpace(connectionString) ==> r == Err(ArgumentException("connectionString", NullOrEmptyMessage))
    ensures r.Ok? ==> !r.value.isOpen && r.value.kind == NpgsqlConnection
  {
    if IsNullOrWhiteSpace(connectionString) then Err(ArgumentException("connectionString", NullOrEmptyMessage))
    else
      var processed :- ProcessConnectionString(platform, connectionString.value);
      Ok(NewConnection(NpgsqlConnection, processed))
  }

  /** ApplyConnectionSettings: accepts every connection, null included, and
      changes nothing. */
  function ApplyConnectionSettings(connection: Option<DbConnection>): (r: Result<Option<DbConnection>>)
    ensures r == Ok(connection)
  {
    Ok(connection)
  }

  // ---------------------------------------------------------------------
  // Properties
  // ---------------------------------------------------------------------

  /** A string is valid exactly when it parses and sets a non-blank Host,
      Database and Username; the password and the port play no part. */
  lemma ValidIffRequiredPresent(platform: Platform, connectionString: string)
    requires !IsBlank(connectionString)
    ensures var v := ValidateConnectionString(platform, Some(connectionString));
      v.Ok? && v.value.isValid <==>
        && platform.npgsqlParse(connectionString).Ok?
        && !IsNullOrWhiteSpace(Host(platform.npgsqlParse(connectionString).value))
        && !IsNullOrWhiteSpace(Database(platform.npgsqlParse(connectionString).value))
        && !IsNullOrWhiteSpace(Username(platform.npgsqlParse(connectionString).value))
  {
  }

  /** The first blank parameter, in the order Host, Database, Username, is
      the one the failure names. */
  lemma FirstMissingParameterIsReported(builder: Settings)
    ensures IsNullOrWhiteSpace(Host(builder)) ==>
      CheckRequired(builder) == Failure(Some(HostRequired), Some(HostDetails))
    ensures !IsNullOrWhiteSpace(Host(builder)) && IsNullOrWhiteSpace(Database(builder)) ==>
      CheckRequired(builder) == Failure(Some(DatabaseRequired), Some(DatabaseDetails))
    ensures !IsNullOrWhiteSpace(Host(builder)) && !IsNullOrWhiteSpace(Database(builder)) && IsNullOrWhiteSpace(Username(builder)) ==>
      CheckRequired(builder) == Failure(Some(UsernameRequired), Some(UsernameDetails))
    ensures WellFormed(CheckRequired(builder))
    ensures !CheckRequired(builder).isValid ==> CheckRequired(builder).errorMessage.Some?
  {
  }

  /** The password does not matter to validation: removing it or setting
      it to anything gives the same verdict. */
  lemma PasswordIsNotChecked(builder: Settings, password: string)
    ensures CheckRequired(builder["Password" := password]) == CheckRequired(builder)
    ensures CheckRequired(builder - {"Password"}) == CheckRequired(builder)
  {
    assert Host(builder["Password" := password]) == Host(builder);
    assert Database(builder["Password" := password]) == Database(builder);
    assert Username(builder["Password" := password]) == Username(builder);
    assert Host(builder - {"Password"}) == Host(builder);
    assert Database(builder - {"Password"}) == Database(builder);
    assert Username(builder - {"Password"}) == Username(builder);
  }

  /** Blank strings and strings the parser refuses with an ArgumentException
      (or an ArgumentNullException) yield a failure with a message; only a
      parser exception of another type escapes; every result is well formed. */
  lemma ValidationReportsProblemsAsResults(platform: Platform, connectionString: Option<string>)
    ensures IsNullOrWhiteSpace(connectionString) ==>
      ValidateConnectionString(platform, connectionString) == Ok(Failure(Some(NullOrEmptyMessage)))
    ensures (!IsNullOrWhiteSpace(connectionString) && platform.npgsqlParse(connectionString.value).Err?
        && platform.npgsqlParse(connectionString.value).error.IsArgumentException()) ==>
      ValidateConnectionString(platform, connectionString)
        == Ok(Failure(Some("Invalid PostgreSQL connection string: " + platform.npgsqlParse(connectionString.value).error.message),
                      Some(platform.npgsqlParse(connectionString.value).error.Describe())))
    ensures ValidateConnectionString(platform, connectionString).Err? <==>
      && !IsNullOrWhiteSpace(connectionString) && platform.npgsqlParse(connectionString.value).Err?
      && !platform.npgsqlParse(connectionString.value).error.IsArgumentException()
    ensures ValidateConnectionString(platform, connectionString).Ok? ==>
      && WellFormed(ValidateConnectionString(platform, connectionString).value)
      && (!ValidateConnectionString(platform, connectionString).value.isValid ==>
            ValidateConnectionString(platform, connectionString).value.errorMessage.Some?)
  {
    if !IsNullOrWhiteSpace(connectionString) && platform.npgsqlParse(connectionString.value).Ok? {
      FirstMissingParameterIsReported(platform.npgsqlParse(connectionString.value).value);
    }
  }

  /** Password injection fills the password only when it is absent or
      empty and the environment provides one; it never overwrites a
      password, never touches another key, and a second injection changes
      nothing. */
  lemma InjectPasswordFillsIfAbsent(builder: Settings, passwordVariable: Option<string>)
    ensures var r := InjectPassword(builder, passwordVariable);
      && (!IsNullOrEmpty(Password(builder)) ==> r == builder)
      && (IsNullOrEmpty(passwordVariable) ==> r == builder)
      && (IsNullOrEmpty(Password(builder)) && !IsNullOrEmpty(passwordVariable) ==> Password(r) == passwordVariable)
      && (forall k | k != "Password" :: (k in r <==> k in builder) && (k in r ==> r[k] == builder[k]))
      && InjectPassword(r, passwordVariable) == r
  {
  }

  /** After parsing, the password is the string's own when it has one, and
      otherwise the environment's when that is set. */
  lemma ParsedPassword(platform: Platform, connectionString: string)
    requires !IsBlank(connectionString) && platform.npgsqlParse(connectionString).Ok?
    ensures var parsed := platform.npgsqlParse(connectionString).value;
      var r := ParseConnectionString(platform, Some(connectionString));
      && r.Ok?
      && Password(r.value) == (if IsNullOrEmpty(Password(parsed)) && !IsNullOrEmpty(platform.passwordVariable)
                              then platform.passwordVariable else Password(parsed))
      && Host(r.value) == Host(parsed) && Database(r.value) == Database(parsed) && Username(r.value) == Username(parsed)
  {
    InjectPasswordFillsIfAbsent(platform.npgsqlParse(connectionString).value, platform.passwordVariable);
  }

  /** CreateConnection does not validate: a string that parses yields a
      connection even when validation would fail, e.g. without a Host. */
  lemma CreateConnectionDoesNotValidate(platform: Platform, connectionString: string)
    requires !IsBlank(connectionString) && platform.npgsqlParse(connectionString).Ok?
    ensures CreateConnection(platform, Some(connectionString))
      == Ok(NewConnection(NpgsqlConnection,
              platform.npgsqlFormat(InjectPassword(platform.npgsqlParse(connectionString).value, platform.passwordVariable))))
    ensures IsNullOrWhiteSpace(Host(platform.npgsqlParse(connectionString).value)) ==>
      && CreateConnection(platform, Some(connectionString)).Ok?
      && ValidateConnectionString(platform, Some(connectionString)).Ok?
      && !ValidateConnectionString(platform, Some(connectionString)).value.isValid
  {
  }
}
