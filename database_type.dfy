/** The supported database kinds, with the integer codes of the .NET enum. */
module DatabaseTypes {
  import opened Common

  datatype DatabaseType = SQLite | DuckDB | PostgreSQL {
    /** The enum's underlying value. */
    function Code(): int {
      match this
      case SQLite => 0
      case DuckDB => 1
      case PostgreSQL => 2
    }

    function Name(): string {
      match this
      case SQLite => "SQLite"
      case DuckDB => "DuckDB"
      case PostgreSQL => "PostgreSQL"
    }
  }

  /** The named enum member with a given underlying value; a C# cast such as
      `(DatabaseType)999` yields a value that names no member. */
  function FromCode(code: int): (r: Option<DatabaseType>)
    ensures r.Some? <==> 0 <= code <= 2
    ensures r.Some? ==> r.value.Code() == code
  {
    if code == 0 then Some(SQLite)
    else if code == 1 then Some(DuckDB)
    else if code == 2 then Some(PostgreSQL)
    else None
  }

  /** Each member's code leads back to it. */
  lemma CodeRoundTrip(t: DatabaseType)
    ensures FromCode(t.Code()) == Some(t)
  {
  }
}
