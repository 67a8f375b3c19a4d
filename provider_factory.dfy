/** DatabaseProviderFactory: detection of the database kind from a
    connection string, and construction of the provider for a kind. */
module DatabaseProviderFactory {
  import opened Common
  import opened Strings
  import opened Paths
  import opened DatabaseTypes

  /** What a provider keeps of its construction: its kind and the raw
      connection string. Connections, transactions and disposal are not
      part of this model. */
  datatype Provider = Provider(databaseType: DatabaseType, connectionString: string)

  // ---------------------------------------------------------------------
  // The provider constructors' own guards
  // ---------------------------------------------------------------------

  /** new SQLiteDatabaseProvider(connectionString) */
  function NewSQLiteDatabaseProvider(connectionString: Option<string>): Result<Provider> {
    if IsNullOrEmpty(connectionString) then
      Err(ArgumentNullException("connectionString", "Connection string cannot be null or empty."))
    else
      Ok(Provider(SQLite, connectionString.value))
  }

  /** new DuckDBDatabaseProvider(connectionString); its source is not part of
      this model, so it is taken to keep any string it is given. */
  function NewDuckDBDatabaseProvider(connectionString: string): Result<Provider> {
    Ok(Provider(DuckDB, connectionString))
  }

  /** new PostgreSQLDatabaseProvider(connectionString): unlike the other two
      it also rejects a string made only of white space. */
  function NewPostgreSQLDatabaseProvider(connectionString: Option<string>): Result<Provider> {
    if connectionString.None? then
      Err(ArgumentNullException("connectionString", "Connection string cannot be null."))
    else if IsBlank(connectionString.value) then
      Err(ArgumentException("connectionString", "Connection string cannot be empty."))
    else
      Ok(Provider(PostgreSQL, connectionString.value))
  }

  // ---------------------------------------------------------------------
  // Create
  // ---------------------------------------------------------------------

  /** Create(databaseType, connectionString); the kind is the enum's integer
      value, so that a value naming no member reaches the `default:` branch. */
  function Create(databaseType: int, connectionString: Option<string>): (r: Result<Provider>)
    ensures r.Ok? ==> r.value.databaseType.Code() == databaseType
    ensures r.Ok? ==> Some(r.value.connectionString) == connectionString
  {
    if IsNullOrEmpty(connectionString) then
      Err(ArgumentNullException("connectionString", "Connection string cannot be null or empty."))
    else
      match FromCode(databaseType)
      case Some(SQLite) => NewSQLiteDatabaseProvider(connectionString)
      case Some(DuckDB) => NewDuckDBDatabaseProvider(connectionString.value)
      case Some(PostgreSQL) => NewPostgreSQLDatabaseProvider(connectionString)
      case None =>
        Err(ArgumentException("databaseType", "Unsupported database type: " + IntToString(databaseType)))
  }

  // ---------------------------------------------------------------------
  // Detection
  // ---------------------------------------------------------------------

  /** After position j, optional white space and then '='. */
  predicate EqualsAfterWhiteSpace(s: string, j: nat)
    requires j <= |s|
  {
    var k := SkipWhiteSpace(s, j);
    k < |s| && s[k] == '='
  }

  /** The pattern `(Host|Server)\s*=`, ignoring case, matches at position i. */
  predicate HostKeyAt(s: string, i: nat) {
    || (i + 4 <= |s| && Lower(s[i..i + 4]) == "host" && EqualsAfterWhiteSpace(s, i + 4))
    || (i + 6 <= |s| && Lower(s[i..i + 6]) == "server" && EqualsAfterWhiteSpace(s, i + 6))
  }

  /** Regex.IsMatch(s, @"(Host|Server)\s*=", RegexOptions.IgnoreCase) */
  predicate HasHostKey(s: string) {
    exists i | 0 <= i <= |s| :: HostKeyAt(s, i)
  }

  /** The pattern `Data\s*Source\s*=\s*([^;]+)`, ignoring case, tried at
      position p: where the captured value's text begins, if it matches.
      The pattern needs at least one character other than ';' right after
      the '=' (white space after '=' is then given back to the group if
      nothing else follows), and the captured text, once trimmed, is the
      trimmed text from there to the next ';'. */
  function DataSourceValueStart(s: string, p: nat): (r: Option<nat>)
    ensures r.Some? ==> r.value < |s| && s[r.value] != ';'
  {
    if p + 4 <= |s| && Lower(s[p..p + 4]) == "data" then
      var j := SkipWhiteSpace(s, p + 4);
      if j + 6 <= |s| && Lower(s[j..j + 6]) == "source" then
        var k := SkipWhiteSpace(s, j + 6);
        if k + 1 < |s| && s[k] == '=' && s[k + 1] != ';' then Some(k + 1) else None
      else None
    else None
  }

  /** Regex.Match's search: the leftmost position at or after `from` where the pattern matches. */
  function FirstDataSourceMatch(s: string, from: nat): (r: Option<nat>)
    requires from <= |s|
    ensures r.Some? ==> from <= r.value <= |s| && DataSourceValueStart(s, r.value).Some?
    ensures r.Some? ==> forall q | from <= q < r.value :: DataSourceValueStart(s, q).None?
    ensures r.None? ==> forall q | from <= q <= |s| :: DataSourceValueStart(s, q).None?
    decreases |s| - from
  {
    if DataSourceValueStart(s, from).Some? then Some(from)
    else if from == |s| then None
    else FirstDataSourceMatch(s, from + 1)
  }

  /** match.Groups[1].Value.Trim() of the leftmost match, if there is one. */
  function DataSourceValue(s: string): Option<string> {
    match FirstDataSourceMatch(s, 0)
    case None => None
    case Some(p) =>
      var v := DataSourceValueStart(s, p).value;
      Some(Trim(s[v..IndexOfCharFrom(s, ';', v)]))
  }

  /** The `switch` on a lower-cased extension. */
  function ExtensionKind(ext: string): Option<DatabaseType> {
    if ext == ".db" || ext == ".sqlite" then Some(SQLite)
    else if ext == ".duckdb" then Some(DuckDB)
    else None
  }

  /** The message of the final ArgumentException (written in pieces so
      that the extensions it lists can be named). */
  function DetectionFailureMessage(connectionString: string): string {
    "Unable to detect" + " database type from connection string: '" + connectionString
    + "'. Expected: '" + ".db" + "', '" + ".sqlite" + "', '" + ".duckdb"
    + "' file extension, or PostgreSQL connection string (" + "Host=" + "... or Server=...)."
  }

  /** The `:memory:` test, made on the trimmed, lower-cased string. */
  predicate IsMemory(s: string) {
    Lower(Trim(s)) == ":memory:"
  }

  /** The kind a file name's extension selects. */
  function FileKind(path: string): Option<DatabaseType> {
    ExtensionKind(Lower(GetExtension(path)))
  }

  /** The last rule: the extension of a `Data Source` value, tried only when
      the string contains "Data Source=" or "DataSource=" written exactly so. */
  function DataSourceKind(s: string): Option<DatabaseType> {
    if Contains(s, "Data Source=") || Contains(s, "DataSource=") then
      match DataSourceValue(s)
      case Some(v) => FileKind(v)
      case None => None
    else None
  }

  /** DetectDatabaseType(connectionString) */
  function DetectDatabaseType(connectionString: Option<string>): (r: Result<DatabaseType>)
    ensures connectionString.None? ==> r.Err? && r.error.ArgumentNullException?
    ensures r.Err? ==> r.error.ArgumentNullException? || r.error.ArgumentException?
  {
    if connectionString.None? then
      Err(ArgumentNullException("connectionString", "Connection string cannot be null."))
    else if IsBlank(connectionString.value) then
      Err(ArgumentException("connectionString", "Connection string cannot be empty."))
    else
      DetectNonBlank(connectionString.value)
  }

  /** The rules of DetectDatabaseType after the null and blank checks, in order. */
  function DetectNonBlank(s: string): Result<DatabaseType> {
    if IsMemory(s) then Ok(SQLite)
    else if HasHostKey(s) then Ok(PostgreSQL)
    else if FileKind(s).Some? then Ok(FileKind(s).value)
    else if DataSourceKind(s).Some? then Ok(DataSourceKind(s).value)
    else Err(ArgumentException("connectionString", DetectionFailureMessage(s)))
  }

  /** CreateFromConnectionString(connectionString) */
  function CreateFromConnectionString(connectionString: Option<string>): Result<Provider> {
    var databaseType :- DetectDatabaseType(connectionString);
    Create(databaseType.Code(), connectionString)
  }

  // ---------------------------------------------------------------------
  // Properties
  // ---------------------------------------------------------------------

  /** The kind a name's ending selects, stated without Path.GetExtension:
      ending in ".duckdb" gives DuckDB, in ".db" or ".sqlite" SQLite, ignoring case. */
  function KindOfName(s: string): Option<DatabaseType> {
    if EndsWith(Lower(s), ".duckdb") then Some(DuckDB)
    else if EndsWith(Lower(s), ".db") || EndsWith(Lower(s), ".sqlite") then Some(SQLite)
    else None
  }

  /** The extension `switch` is the same as asking how the name ends. */
  lemma ExtensionKindIsKindOfName(s: string)
    ensures ExtensionKind(Lower(GetExtension(s))) == KindOfName(s)
  {
    LowerExtensionIs(s, ".db");
    LowerExtensionIs(s, ".sqlite");
    LowerExtensionIs(s, ".duckdb");
  }

  /** The last rule stated with "ends with, ignoring case". */
  lemma DataSourceKindIsKindOfName(s: string)
    ensures DataSourceKind(s) ==
      if (Contains(s, "Data Source=") || Contains(s, "DataSource=")) && DataSourceValue(s).Some?
      then KindOfName(DataSourceValue(s).value)
      else None
  {
    if DataSourceValue(s).Some? {
      ExtensionKindIsKindOfName(DataSourceValue(s).value);
    }
  }

  /** The whole detection, rule by rule in the order the code applies them,
      with the extension tests stated as "ends with, ignoring case". */
  lemma DetectionRules(s: string)
    ensures DetectDatabaseType(Some(s)) ==
      if IsBlank(s) then Err(ArgumentException("connectionString", "Connection string cannot be empty."))
      else if IsMemory(s) then Ok(SQLite)
      else if HasHostKey(s) then Ok(PostgreSQL)
      else if KindOfName(s).Some? then Ok(KindOfName(s).value)
      else if DataSourceKind(s).Some? then Ok(DataSourceKind(s).value)
      else Err(ArgumentException("connectionString", DetectionFailureMessage(s)))
  {
    ExtensionKindIsKindOfName(s);
  }

  /** Where a `Host`/`Server` key matches there is a '='. */
  lemma HostKeyEquals(s: string, i: nat) returns (k: nat)
    requires HostKeyAt(s, i)
    ensures k < |s| && s[k] == '='
  {
    if i + 4 <= |s| && Lower(s[i..i + 4]) == "host" && EqualsAfterWhiteSpace(s, i + 4) {
      k := SkipWhiteSpace(s, i + 4);
    } else {
      k := SkipWhiteSpace(s, i + 6);
    }
  }

  /** A `Host`/`Server` key wins over every file-extension rule. */
  lemma HostKeyTakesPrecedence(s: string)
    requires HasHostKey(s) && Lower(Trim(s)) != ":memory:"
    ensures DetectDatabaseType(Some(s)) == Ok(PostgreSQL)
  {
    var i :| 0 <= i <= |s| && HostKeyAt(s, i);
    var k := HostKeyEquals(s, i);
    assert !IsBlank(s) by { assert !IsWhiteSpace(s[k]); }
    assert !IsMemory(s);
    assert DetectNonBlank(s) == Ok(PostgreSQL);
  }

  /** Without a '=' nothing looks like a PostgreSQL key. */
  lemma NoEqualsNoHostKey(s: string)
    requires forall k | 0 <= k < |s| :: s[k] != '='
    ensures !HasHostKey(s)
  {
    forall i | 0 <= i <= |s| ensures !HostKeyAt(s, i) {
      if i + 4 <= |s| {
        assert !EqualsAfterWhiteSpace(s, i + 4);
      }
      if i + 6 <= |s| {
        assert !EqualsAfterWhiteSpace(s, i + 6);
      }
    }
  }

  /** The failure message names the failure, every accepted extension and the PostgreSQL key. */
  lemma FailureMessageMentions(s: string)
    ensures var m := DetectionFailureMessage(s);
      && StartsWith(m, "Unable to detect")
      && Contains(m, ".db") && Contains(m, ".sqlite") && Contains(m, ".duckdb")
      && Contains(m, "Host=")
  {
    var m := DetectionFailureMessage(s);
    var h := "Unable to detect" + " database type from connection string: '" + s + "'. Expected: '";
    var b := "', '";
    var d := "' file extension, or PostgreSQL connection string (";
    var f := "... or Server=...).";
    ContainsSuffix(h, ".db");
    ContainsExtendRight(h + ".db", b, ".db");
    ContainsSuffix(h + ".db" + b, ".sqlite");
    ContainsExtendRight(h + ".db" + b, ".sqlite", ".db");
    ContainsExtendRight(h + ".db" + b + ".sqlite", b, ".db");
    ContainsExtendRight(h + ".db" + b + ".sqlite", b, ".sqlite");
    var g := h + ".db" + b + ".sqlite" + b;
    ContainsSuffix(g, ".duckdb");
    ContainsExtendRight(g, ".duckdb", ".db");
    ContainsExtendRight(g, ".duckdb", ".sqlite");
    ContainsExtendRight(g + ".duckdb", d, ".db");
    ContainsExtendRight(g + ".duckdb", d, ".sqlite");
    ContainsExtendRight(g + ".duckdb", d, ".duckdb");
    var k := g + ".duckdb" + d;
    ContainsSuffix(k, "Host=");
    ContainsExtendRight(k, "Host=", ".db");
    ContainsExtendRight(k, "Host=", ".sqlite");
    ContainsExtendRight(k, "Host=", ".duckdb");
    ContainsExtendRight(k + "Host=", f, ".db");
    ContainsExtendRight(k + "Host=", f, ".sqlite");
    ContainsExtendRight(k + "Host=", f, ".duckdb");
    ContainsExtendRight(k + "Host=", f, "Host=");
    assert m == k + "Host=" + f;
  }

  /** A non-blank string that no rule recognises is rejected with an
      ArgumentException carrying that message. */
  lemma DetectionFailureIsHelpful(s: string)
    requires DetectDatabaseType(Some(s)).Err? && !IsBlank(s)
    ensures var e := DetectDatabaseType(Some(s)).error;
      && e == ArgumentException("connectionString", DetectionFailureMessage(s))
      && StartsWith(e.message, "Unable to detect")
      && Contains(e.message, ".db") && Contains(e.message, ".sqlite") && Contains(e.message, ".duckdb")
  {
    FailureMessageMentions(s);
  }

  /** Detection with a result always leads to a provider of the detected
      kind; a detection error is passed on unchanged. */
  lemma CreateFromConnectionStringAgreesWithDetection(connectionString: Option<string>)
    ensures var d := DetectDatabaseType(connectionString);
      var r := CreateFromConnectionString(connectionString);
      && (d.Ok? <==> r.Ok?)
      && (d.Ok? ==> r.value == Provider(d.value, connectionString.value))
      && (d.Err? ==> r == Err(d.error))
  {
    var d := DetectDatabaseType(connectionString);
    if d.Ok? {
      var s := connectionString.value;
      assert !IsBlank(s);
      assert s != "";
      CodeRoundTrip(d.value);
    }
  }

  /** Create: null or empty strings, then unknown kinds, are rejected; the
      PostgreSQL constructor also rejects white space; everything else gives
      a provider of the requested kind. */
  lemma CreateDispatch(databaseType: int, connectionString: Option<string>)
    ensures var r := Create(databaseType, connectionString);
      && (IsNullOrEmpty(connectionString) ==> r.Err? && r.error.ArgumentNullException?)
      && (!IsNullOrEmpty(connectionString) && !(0 <= databaseType <= 2) ==>
            r == Err(ArgumentException("databaseType", "Unsupported database type: " + IntToString(databaseType))))
      && (r.Ok? <==> !IsNullOrEmpty(connectionString) && 0 <= databaseType <= 2
                     && !(databaseType == 2 && IsBlank(connectionString.value)))
  {
  }

  // ---------------------------------------------------------------------
  // Worked cases from the repository's tests
  // ---------------------------------------------------------------------

  /** A name with a known ending, no '=' and no surrounding white space is
      detected by that ending alone. */
  lemma DetectPlainFileName(s: string)
    requires s != [] && !IsWhiteSpace(s[0]) && !IsWhiteSpace(s[|s| - 1])
    requires forall k | 0 <= k < |s| :: s[k] != '='
    requires Lower(s) != ":memory:" && KindOfName(s).Some?
    ensures DetectDatabaseType(Some(s)) == Ok(KindOfName(s).value)
  {
    assert TrimStart(s) == s;
    assert Trim(s) == s;
    NoEqualsNoHostKey(s);
    DetectionRules(s);
  }

  /** The lower-cased text of a name that ends in `suffix` ends in the
      lower-cased suffix. */
  lemma LowerEndsWith(s: string, suffix: string)
    requires EndsWith(s, suffix)
    ensures EndsWith(Lower(s), Lower(suffix))
  {
    LowerSuffix(s, |s| - |suffix|);
  }

  /** A file name is recognised by its extension whatever its case:
      `race.DB` and every other name ending in `.DB` is SQLite. */
  lemma DetectUpperCaseExtension(s: string)
    requires s != [] && !IsWhiteSpace(s[0]) && EndsWith(s, ".DB")
    requires forall k | 0 <= k < |s| :: s[k] != '='
    ensures DetectDatabaseType(Some(s)) == Ok(SQLite)
  {
    LowerEndsWith(s, ".DB");
    assert Lower(".DB") == ".db";
    var n := |s|;
    assert Lower(s)[n - 3..] == ".db";
    assert Lower(s)[n - 3] == '.' && Lower(s)[n - 1] == 'b';
    assert !EndsWith(Lower(s), ".duckdb") by {
      if |Lower(s)| >= 7 {
        assert Lower(s)[n - 7..][4] == Lower(s)[n - 3];
      }
    }
    assert s[n - 1] == 'B';
    DetectPlainFileName(s);
  }

  /** `analytics.duckdb` and every other name ending in `.duckdb` is DuckDB. */
  lemma DetectDuckDBFile(s: string)
    requires s != [] && !IsWhiteSpace(s[0]) && EndsWith(s, ".duckdb")
    requires forall k | 0 <= k < |s| :: s[k] != '='
    ensures DetectDatabaseType(Some(s)) == Ok(DuckDB)
  {
    LowerEndsWith(s, ".duckdb");
    assert Lower(".duckdb") == ".duckdb";
    var n := |s|;
    assert Lower(s)[n - 1] == 'b' by {
      assert Lower(s)[n - 7..][6] == Lower(s)[n - 1];
    }
    assert s[n - 1] == 'b' by {
      assert s[n - 7..][6] == s[n - 1];
    }
    DetectPlainFileName(s);
  }

  /** A string that begins with `Host=` is PostgreSQL whatever else it
      holds, ".db" database names included. */
  lemma HostPrefixIsPostgreSQL(s: string)
    requires StartsWith(s, "Host=")
    ensures DetectDatabaseType(Some(s)) == Ok(PostgreSQL)
  {
    assert s[0] == 'H' && s[1] == 'o' && s[2] == 's' && s[3] == 't' && s[4] == '=' by {
      assert s[..5] == "Host=";
    }
    assert HostKeyAt(s, 0) by {
      var host := s[0..4];
      assert |host| == 4 && host[0] == 'H' && host[1] == 'o' && host[2] == 's' && host[3] == 't';
      assert Lower(host) == "host";
      assert SkipWhiteSpace(s, 4) == 4;
    }
    assert !IsMemory(s) by {
      assert TrimStart(s) == s;
      assert Trim(s) != [] by { assert !IsBlank(s[0..1]); }
      assert Lower(Trim(s))[0] == 'h';
    }
    HostKeyTakesPrecedence(s);
  }

  /** An integer that names no DatabaseType member is rejected, naming it. */
  lemma CreateWithUndefinedKind()
    ensures Create(999, Some("test.db")) == Err(ArgumentException("databaseType", "Unsupported database type: " + "999"))
  {
    assert IntToString(999) == "999";
  }
}
