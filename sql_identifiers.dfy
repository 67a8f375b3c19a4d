/** Delimited identifiers as the SQL standard reads them: the text between
    two double quotes, in which a double quote is written twice. Both
    generators quote identifiers with '"', so this is how the statements
    they build are read back by the database. */
module SqlIdentifiers {
  import opened Common

  /** The identifier a delimited body stands for, if the body is well formed
      (every '"' in it is doubled). */
  function UnescapeBody(body: string): (r: Option<string>)
    ensures r.Some? ==> |r.value| <= |body|
    decreases |body|
  {
    if body == [] then Some([])
    else if body[0] != '"' then
      match UnescapeBody(body[1..])
      case Some(rest) => Some([body[0]] + rest)
      case None => None
    else if |body| >= 2 && body[1] == '"' then
      match UnescapeBody(body[2..])
      case Some(rest) => Some(['"'] + rest)
      case None => None
    else None
  }

  /** The identifier a quoted SQL identifier names, if the text is one. */
  function Unquote(quoted: string): Option<string> {
    if |quoted| >= 2 && quoted[0] == '"' && quoted[|quoted| - 1] == '"' then
      UnescapeBody(quoted[1..|quoted| - 1])
    else None
  }

  predicate HasDoubleQuote(s: string) {
    exists i | 0 <= i < |s| :: s[i] == '"'
  }

  /** A body without '"' stands for itself. */
  lemma {:induction false} UnescapePlain(body: string)
    requires !HasDoubleQuote(body)
    ensures UnescapeBody(body) == Some(body)
    decreases |body|
  {
    if body != [] {
      assert !HasDoubleQuote(body[1..]) by {
        forall i | 0 <= i < |body[1..]| ensures body[1..][i] != '"' {
          assert body[1..][i] == body[i + 1];
        }
      }
      UnescapePlain(body[1..]);
      assert body[0] != '"';
      assert [body[0]] + body[1..] == body;
    }
  }

  /** A body with a '"' in it never stands for itself: the quote is either
      stray, and the body is rejected, or doubled, and the identifier is shorter. */
  lemma {:induction false} UnescapeShortens(body: string)
    requires HasDoubleQuote(body)
    ensures UnescapeBody(body) != Some(body)
    decreases |body|
  {
    if body[0] != '"' {
      var i :| 0 <= i < |body| && body[i] == '"';
      assert body[1..][i - 1] == '"';
      UnescapeShortens(body[1..]);
    }
  }
}
