/** JVDataStructCreateTableSources: the CREATE TABLE template written for
    each JV-Data record, with its `not null` key markers and primary-key
    clause, and the planner that adds secondary indexes to it. The table
    name is left as a placeholder that the caller passes in. */
module JVDataStructCreateTableSources {
  import opened Common
  import opened Strings

  /** One column of a JV-Data record, as the template reads it. */
  datatype Column = Column(columnName: string, sqlColumnType: string, isId: bool, columnComment: string)

  function LowerName(c: Column): string {
    Lower(c.columnName)
  }

  // ---------------------------------------------------------------------
  // The index planner
  // ---------------------------------------------------------------------

  /** Why a column gets an index. The rules are tried in this order. */
  datatype IndexRule = ForeignKey | Temporal | FrequentlyFiltered

  /** The first rule a lower-cased column name satisfies, if any. */
  function IndexRuleOf(ln: string): Option<IndexRule> {
    if EndsWith(ln, "_id") || EndsWith(ln, "_code") then Some(ForeignKey)
    else if Contains(ln, "date") || Contains(ln, "time") then Some(Temporal)
    else if ln == "sex" || ln == "affiliation" || ln == "distance" then Some(FrequentlyFiltered)
    else None
  }

  predicate ShouldIndex(ln: string) {
    IndexRuleOf(ln).Some?
  }

  /** The columns that are not part of the key, in declaration order. */
  function NonKey(columns: seq<Column>): (r: seq<Column>)
    ensures forall c | c in r :: c in columns && !c.isId
    ensures forall c | c in columns && !c.isId :: c in r
  {
    if columns == [] then []
    else (if columns[0].isId then [] else [columns[0]]) + NonKey(columns[1..])
  }

  /** The columns the planner selects from `cols` when the lower-cased names
      in `indexed` already have an index. `rule` says which lower-cased
      names call for an index; the planner itself uses ShouldIndex, and the
      lemmas about the planner's structure hold for any rule. */
  function Selected(cols: seq<Column>, indexed: set<string>, rule: string -> bool): seq<Column> {
    if cols == [] then []
    else if LowerName(cols[0]) in indexed || !rule(LowerName(cols[0])) then
      Selected(cols[1..], indexed, rule)
    else
      [cols[0]] + Selected(cols[1..], indexed + {LowerName(cols[0])}, rule)
  }

  /** The columns that get an index, in declaration order. */
  function Plan(columns: seq<Column>): seq<Column> {
    Selected(NonKey(columns), {}, ShouldIndex)
  }

  /** The separator between the statements of the template. */
  const StatementSeparator := ";\r\n"

  function IndexStatement(c: Column, placeholder: string): string {
    "create index if not exists idx_" + c.columnName + " on " + placeholder + "(" + c.columnName + ")"
  }

  function IndexStatements(cs: seq<Column>, placeholder: string): seq<string> {
    seq(|cs|, i requires 0 <= i < |cs| => IndexStatement(cs[i], placeholder))
  }

  lemma IndexStatementsCons(c: Column, cs: seq<Column>, placeholder: string)
    ensures IndexStatements([c] + cs, placeholder) == [IndexStatement(c, placeholder)] + IndexStatements(cs, placeholder)
  {
  }

  /** One step of the planner over `cols[i..]`. */
  lemma SelectedUnfold(cols: seq<Column>, i: nat, indexed: set<string>, rule: string -> bool)
    requires i < |cols|
    ensures var ln := LowerName(cols[i]);
      Selected(cols[i..], indexed, rule)
        == if ln in indexed || !rule(ln) then Selected(cols[i + 1..], indexed, rule)
           else [cols[i]] + Selected(cols[i + 1..], indexed + {ln}, rule)
  {
    assert cols[i..][0] == cols[i] && cols[i..][1..] == cols[i + 1..];
  }

  /** The same step, stated on the statements produced so far and those
      still to come. */
  lemma SelectedStep(cols: seq<Column>, i: nat, indexed: set<string>, statements: seq<string>, placeholder: string)
    requires i < |cols|
    ensures var ln := LowerName(cols[i]);
      statements + IndexStatements(Selected(cols[i..], indexed, ShouldIndex), placeholder)
        == if ln in indexed || !ShouldIndex(ln) then statements + IndexStatements(Selected(cols[i + 1..], indexed, ShouldIndex), placeholder)
           else (statements + [IndexStatement(cols[i], placeholder)]) + IndexStatements(Selected(cols[i + 1..], indexed + {ln}, ShouldIndex), placeholder)
  {
    SelectedUnfold(cols, i, indexed, ShouldIndex);
    var ln := LowerName(cols[i]);
    if !(ln in indexed || !ShouldIndex(ln)) {
      var rest := IndexStatements(Selected(cols[i + 1..], indexed + {ln}, ShouldIndex), placeholder);
      IndexStatementsCons(cols[i], Selected(cols[i + 1..], indexed + {ln}, ShouldIndex), placeholder);
      assert statements + ([IndexStatement(cols[i], placeholder)] + rest)
        == (statements + [IndexStatement(cols[i], placeholder)]) + rest;
    }
  }

  /** The rule tests of the loop body, in the order the source makes them. */
  method MatchesIndexRule(columnName: string) returns (shouldIndex: bool)
    ensures shouldIndex == ShouldIndex(columnName)
  {
    shouldIndex := false;
    if EndsWith(columnName, "_id") || EndsWith(columnName, "_code") {
      shouldIndex := true;
    } else if Contains(columnName, "date") || Contains(columnName, "time") {
      shouldIndex := true;
    } else if columnName == "sex" || columnName == "affiliation" || columnName == "distance" {
      shouldIndex := true;
    }
  }

  /** GenerateIndexStatements: one pass over the non-key columns that keeps
      the lower-cased names already indexed and the statements so far. */
  method GenerateIndexStatements(columns: seq<Column>, placeholder: string) returns (r: string)
    ensures r == Join(StatementSeparator, IndexStatements(Plan(columns), placeholder))
  {
    var indexedColumns: set<string> := {};
    var statements: seq<string> := [];
    var nonKey := NonKey(columns);
    for i := 0 to |nonKey|
      invariant IndexStatements(Plan(columns), placeholder)
        == statements + IndexStatements(Selected(nonKey[i..], indexedColumns, ShouldIndex), placeholder)
    {
      var column := nonKey[i];
      var columnName := Lower(column.columnName);
      SelectedStep(nonKey, i, indexedColumns, statements, placeholder);
      if columnName in indexedColumns {
        continue;
      }
      var shouldIndex := MatchesIndexRule(columnName);
      if shouldIndex {
        statements := statements + [IndexStatement(column, placeholder)];
        indexedColumns := indexedColumns + {columnName};
      }
    }
    assert Selected(nonKey[|nonKey|..], indexedColumns, ShouldIndex) == [];
    assert statements + [] == statements;
    r := Join(StatementSeparator, statements);
  }

  // ---- an independent description of the plan ----

  /** Column j is the first column of `nk` with its lower-cased name, and
      that name calls for an index. */
  predicate FirstOfItsName(nk: seq<Column>, j: nat, rule: string -> bool)
    requires j < |nk|
  {
    rule(LowerName(nk[j])) && forall k | 0 <= k < j :: LowerName(nk[k]) != LowerName(nk[j])
  }

  /** The columns among the first n of `nk` that are first of their name. */
  function FirstOfEachName(nk: seq<Column>, n: nat, rule: string -> bool): seq<Column>
    requires n <= |nk|
  {
    if n == 0 then []
    else FirstOfEachName(nk, n - 1, rule) + (if FirstOfItsName(nk, n - 1, rule) then [nk[n - 1]] else [])
  }

  function Names(cs: seq<Column>): set<string> {
    set c | c in cs :: LowerName(c)
  }

  /** A name has been indexed among the first n columns exactly when it
      calls for an index and one of those columns carries it. */
  lemma {:induction false} NamesOfFirstOfEachName(nk: seq<Column>, n: nat, ln: string, rule: string -> bool)
    requires n <= |nk|
    ensures ln in Names(FirstOfEachName(nk, n, rule)) <==>
      rule(ln) && exists k | 0 <= k < n :: LowerName(nk[k]) == ln
  {
    if n > 0 {
      NamesOfFirstOfEachName(nk, n - 1, ln, rule);
      var last := if FirstOfItsName(nk, n - 1, rule) then [nk[n - 1]] else [];
      assert FirstOfEachName(nk, n, rule) == FirstOfEachName(nk, n - 1, rule) + last;
      assert Names(FirstOfEachName(nk, n, rule)) == Names(FirstOfEachName(nk, n - 1, rule)) + Names(last);
      if rule(ln) && LowerName(nk[n - 1]) == ln && !FirstOfItsName(nk, n - 1, rule) {
        var k :| 0 <= k < n - 1 && LowerName(nk[k]) == LowerName(nk[n - 1]);
        assert LowerName(nk[k]) == ln;
      }
    }
  }

  /** Column i is first of its name exactly when its name calls for an
      index and has not been indexed among the columns before it. */
  lemma FirstOfItsNameIsNew(nk: seq<Column>, i: nat, rule: string -> bool)
    requires i < |nk|
    ensures FirstOfItsName(nk, i, rule) <==>
      rule(LowerName(nk[i])) && LowerName(nk[i]) !in Names(FirstOfEachName(nk, i, rule))
  {
    NamesOfFirstOfEachName(nk, i, LowerName(nk[i]), rule);
  }

  lemma NamesSnoc(cs: seq<Column>, c: Column)
    ensures Names(cs + [c]) == Names(cs) + {LowerName(c)}
  {
  }

  /** One column of the planner's pass: examining column i keeps the
      selection so far plus what the rest will select unchanged. */
  lemma SelectedFromStep(nk: seq<Column>, i: nat, rule: string -> bool)
    requires i < |nk|
    ensures FirstOfEachName(nk, i, rule) + Selected(nk[i..], Names(FirstOfEachName(nk, i, rule)), rule)
      == FirstOfEachName(nk, i + 1, rule) + Selected(nk[i + 1..], Names(FirstOfEachName(nk, i + 1, rule)), rule)
  {
    var done := FirstOfEachName(nk, i, rule);
    SelectedUnfold(nk, i, Names(done), rule);
    FirstOfItsNameIsNew(nk, i, rule);
    if FirstOfItsName(nk, i, rule) {
      NamesSnoc(done, nk[i]);
      var rest := Selected(nk[i + 1..], Names(done) + {LowerName(nk[i])}, rule);
      assert FirstOfEachName(nk, i + 1, rule) == done + [nk[i]];
      assert done + ([nk[i]] + rest) == (done + [nk[i]]) + rest;
    } else {
      assert FirstOfEachName(nk, i + 1, rule) == done + [];
      assert done + [] == done;
    }
  }

  /** Running the planner on `nk[i..]`, with the names the first i columns
      have indexed, completes the first-of-each-name selection. */
  lemma {:induction false} SelectedFrom(nk: seq<Column>, i: nat, rule: string -> bool)
    requires i <= |nk|
    ensures FirstOfEachName(nk, i, rule) + Selected(nk[i..], Names(FirstOfEachName(nk, i, rule)), rule)
      == FirstOfEachName(nk, |nk|, rule)
    decreases |nk| - i
  {
    if i < |nk| {
      SelectedFromStep(nk, i, rule);
      SelectedFrom(nk, i + 1, rule);
    } else {
      assert nk[i..] == [];
    }
  }

  /** The planner selects exactly the non-key columns that satisfy a rule
      and are the first non-key column with their lower-cased name. */
  lemma PlanIsFirstOfEachName(columns: seq<Column>)
    ensures Plan(columns) == FirstOfEachName(NonKey(columns), |NonKey(columns)|, ShouldIndex)
  {
    var nk := NonKey(columns);
    SelectedFrom(nk, 0, ShouldIndex);
    var none := FirstOfEachName(nk, 0, ShouldIndex);
    assert none == [];
    assert Names(none) == {} by { NamesOfNothing(); }
    assert nk[0..] == nk;
    assert none + Selected(nk[0..], Names(none), ShouldIndex) == Selected(nk, {}, ShouldIndex);
  }

  lemma NamesOfNothing()
    ensures Names([]) == {}
  {
  }

  /** The selection draws from the columns examined, only takes names that
      call for an index, and never takes a name twice. */
  lemma {:induction false} FirstOfEachNameMembers(nk: seq<Column>, n: nat, rule: string -> bool)
    requires n <= |nk|
    ensures forall c | c in FirstOfEachName(nk, n, rule) :: c in nk[..n] && rule(LowerName(c))
    ensures forall a, b | 0 <= a < b < |FirstOfEachName(nk, n, rule)| ::
      LowerName(FirstOfEachName(nk, n, rule)[a]) != LowerName(FirstOfEachName(nk, n, rule)[b])
  {
    if n > 0 {
      FirstOfEachNameMembers(nk, n - 1, rule);
      var prev := FirstOfEachName(nk, n - 1, rule);
      assert nk[..n - 1] <= nk[..n];
      if FirstOfItsName(nk, n - 1, rule) {
        var ln := LowerName(nk[n - 1]);
        NamesOfFirstOfEachName(nk, n - 1, ln, rule);
        forall a | 0 <= a < |prev| ensures LowerName(prev[a]) != ln {
          assert LowerName(prev[a]) in Names(prev);
        }
      }
    }
  }

  /** Key columns are never indexed, and every indexed column satisfies a rule. */
  lemma PlanIsSound(columns: seq<Column>, d: Column)
    requires d in Plan(columns)
    ensures d in columns && !d.isId && ShouldIndex(LowerName(d))
  {
    var nk := NonKey(columns);
    PlanIsFirstOfEachName(columns);
    FirstOfEachNameMembers(nk, |nk|, ShouldIndex);
    assert nk[..|nk|] == nk;
  }

  /** No two index statements are for the same lower-cased column name. */
  lemma PlanNamesAreDistinct(columns: seq<Column>)
    ensures forall a, b | 0 <= a < b < |Plan(columns)| :: LowerName(Plan(columns)[a]) != LowerName(Plan(columns)[b])
  {
    var nk := NonKey(columns);
    PlanIsFirstOfEachName(columns);
    FirstOfEachNameMembers(nk, |nk|, ShouldIndex);
  }

  /** Every non-key column that satisfies a rule has its name indexed,
      through itself or through an earlier column of the same name. */
  lemma PlanCoversEveryMatchingName(columns: seq<Column>, c: Column)
    requires c in columns && !c.isId && ShouldIndex(LowerName(c))
    ensures exists d | d in Plan(columns) :: LowerName(d) == LowerName(c)
  {
    var nk := NonKey(columns);
    PlanIsFirstOfEachName(columns);
    var k :| 0 <= k < |nk| && nk[k] == c;
    NamesOfFirstOfEachName(nk, |nk|, LowerName(c), ShouldIndex);
    var d :| d in Plan(columns) && LowerName(d) == LowerName(c);
  }

  /** `horse_id` is indexed as a foreign key; `id` itself is not. */
  lemma ForeignKeyRuleExamples()
    ensures IndexRuleOf("horse_id") == Some(ForeignKey)
    ensures IndexRuleOf("id") == None
  {
  }

  /** `timeid` does not end in `_id` but is indexed through the second
      rule, as is `update_datetime`, which contains both words. */
  lemma TemporalRuleExamples()
    ensures IndexRuleOf("timeid") == Some(Temporal)
    ensures IndexRuleOf("update_datetime") == Some(Temporal)
  {
    var t := "timeid";
    assert t[..4] == "time";
    assert OccursAt(t, "time", 0);
    var u := "update_datetime";
    assert u[7..11] == "date";
    assert OccursAt(u, "date", 7);
  }

  /** `sex` is indexed by name. */
  lemma NamedColumnExamples()
    ensures IndexRuleOf("sex") == Some(FrequentlyFiltered)
  {
  }

  /** `other` matches no rule, so a column of that name is not indexed. */
  lemma UnmatchedColumnExample(o: string)
    requires o == "other"
    ensures IndexRuleOf(o) == None
  {
    assert !Contains(o, "date") && !Contains(o, "time") by {
      forall i | 0 <= i <= |o| ensures !OccursAt(o, "date", i) && !OccursAt(o, "time", i) {
        if i + 4 <= |o| {
          assert o[i..i + 4][0] == o[i] && o[i..i + 4][1] == o[i + 1];
        }
      }
    }
  }

  // ---------------------------------------------------------------------
  // The table comment: the record description split into lines
  // ---------------------------------------------------------------------

  /** A CR LF pair starts at position k. */
  predicate CrLfAt(s: string, k: nat) {
    k + 1 < |s| && s[k] == '\r' && s[k + 1] == '\n'
  }

  predicate HasNoCrLf(s: string) {
    forall k | 0 <= k < |s| :: !CrLfAt(s, k)
  }

  /** The position of the first CR LF at or after `from`, or |s|. */
  function FindCrLf(s: string, from: nat): (k: nat)
    requires from <= |s|
    ensures from <= k <= |s|
    ensures k < |s| ==> CrLfAt(s, k)
    ensures forall j | from <= j < k :: !CrLfAt(s, j)
    decreases |s| - from
  {
    if from == |s| || CrLfAt(s, from) then from else FindCrLf(s, from + 1)
  }

  /** String.Split with the single separator "\r\n", keeping empty pieces. */
  function SplitCrLf(s: string): (r: seq<string>)
    ensures |r| >= 1
    decreases |s|
  {
    var k := FindCrLf(s, 0);
    if k == |s| then [s] else [s[..k]] + SplitCrLf(s[k + 2..])
  }

  /** The StringSplitOptions.RemoveEmptyEntries step. */
  function RemoveEmpty(parts: seq<string>): (r: seq<string>)
    ensures forall p | p in r :: p in parts && p != ""
    ensures forall p | p in parts && p != "" :: p in r
  {
    if parts == [] then []
    else (if parts[0] == "" then [] else [parts[0]]) + RemoveEmpty(parts[1..])
  }

  /** The lines of a record description that become comment lines: all
      non-empty lines except the last, which is the record separator. */
  function CommentLines(typeDescription: string): seq<string> {
    var lines := RemoveEmpty(SplitCrLf(typeDescription));
    if lines == [] then [] else lines[..|lines| - 1]
  }

  function TableComment(typeDescription: Option<string>): string {
    match typeDescription
    case None => ""
    case Some(d) => "  -- " + Join("\r\n  -- ", CommentLines(d)) + "\r\n"
  }

  /** Splitting at CR LF and joining again with CR LF gives back the text. */
  lemma {:induction false} SplitCrLfRoundTrip(s: string)
    ensures Join("\r\n", SplitCrLf(s)) == s
    decreases |s|
  {
    var k := FindCrLf(s, 0);
    if k < |s| {
      SplitCrLfRoundTrip(s[k + 2..]);
      var rest := SplitCrLf(s[k + 2..]);
      assert SplitCrLf(s) == [s[..k]] + rest;
      assert Join("\r\n", [s[..k]] + rest) == s[..k] + "\r\n" + Join("\r\n", rest) by {
        assert ([s[..k]] + rest)[1..] == rest;
      }
      assert s[k..k + 2] == "\r\n";
      assert s[..k] + s[k..k + 2] + s[k + 2..] == s;
    }
  }

  /** No piece of the split contains a CR LF. */
  lemma {:induction false} SplitCrLfPieces(s: string)
    ensures forall p | p in SplitCrLf(s) :: HasNoCrLf(p)
    decreases |s|
  {
    var k := FindCrLf(s, 0);
    if k < |s| {
      SplitCrLfPieces(s[k + 2..]);
      var p := s[..k];
      assert HasNoCrLf(p) by {
        forall j | 0 <= j < |p| ensures !CrLfAt(p, j) {
          assert !CrLfAt(s, j);
        }
      }
    }
  }

  /** Each comment line is a non-empty line of the description; the
      comment lines are the non-empty lines with the last one dropped. */
  lemma CommentLinesAreLines(typeDescription: string)
    ensures forall l | l in CommentLines(typeDescription) :: l != "" && HasNoCrLf(l)
    ensures |CommentLines(typeDescription)| == (var n := |RemoveEmpty(SplitCrLf(typeDescription))|; if n == 0 then 0 else n - 1)
    ensures var lines := RemoveEmpty(SplitCrLf(typeDescription));
      lines != [] ==> CommentLines(typeDescription) + [lines[|lines| - 1]] == lines
  {
    SplitCrLfPieces(typeDescription);
    var lines := RemoveEmpty(SplitCrLf(typeDescription));
    if lines != [] {
      forall l | l in lines[..|lines| - 1] ensures l != "" && HasNoCrLf(l) {
        assert l in lines;
        assert l in SplitCrLf(typeDescription);
      }
    }
  }

  /** A table without a description has no comment; with one, the comment
      is a block of lines each opened by `  -- `. */
  lemma TableCommentShape(typeDescription: Option<string>)
    ensures typeDescription.None? ==> TableComment(typeDescription) == ""
    ensures typeDescription.Some? ==>
      StartsWith(TableComment(typeDescription), "  -- ") && EndsWith(TableComment(typeDescription), "\r\n")
  {
  }

  // ---------------------------------------------------------------------
  // The CREATE TABLE statement
  // ---------------------------------------------------------------------

  /** A column's line: name, type, ` not null` for a key column, comment. */
  function ColumnLine(c: Column): string {
    c.columnName + " " + c.sqlColumnType + (if c.isId then " not null" else "") + " -- " + c.columnComment
  }

  function ColumnLines(columns: seq<Column>): seq<string> {
    seq(|columns|, i requires 0 <= i < |columns| => ColumnLine(columns[i]))
  }

  predicate HasKey(columns: seq<Column>) {
    exists i | 0 <= i < |columns| :: columns[i].isId
  }

  /** The names of the key columns, in declaration order. */
  function KeyNames(columns: seq<Column>): (r: seq<string>)
    ensures |r| <= |columns|
  {
    if columns == [] then []
    else (if columns[0].isId then [columns[0].columnName] else []) + KeyNames(columns[1..])
  }

  function KeyClause(columns: seq<Column>): string {
    if HasKey(columns) then ", primary key (" + Join(",", KeyNames(columns)) + ")" else ""
  }

  function CreateTableStatement(columns: seq<Column>, typeDescription: Option<string>, placeholder: string): string {
    "create table if not exists " + placeholder + " (\r\n"
      + TableComment(typeDescription)
      + "  " + Join("\r\n  , ", ColumnLines(columns)) + "\r\n"
      + "  " + KeyClause(columns)
      + ")"
  }

  /** The full template: the CREATE TABLE statement, followed by the index
      statements when the plan selects any column. */
  function TextTemplate(columns: seq<Column>, typeDescription: Option<string>, placeholder: string): string {
    var plan := Plan(columns);
    CreateTableStatement(columns, typeDescription, placeholder)
      + (if plan == [] then "" else StatementSeparator + Join(StatementSeparator, IndexStatements(plan, placeholder)))
  }

  lemma {:induction false} JoinOfNonEmpty(sep: string, parts: seq<string>)
    requires forall i | 0 <= i < |parts| :: parts[i] != ""
    ensures Join(sep, parts) == "" <==> parts == []
    decreases |parts|
  {
    if |parts| > 1 {
      assert |Join(sep, parts)| >= |parts[0]|;
    }
  }

  /** The template is the statement followed, when the joined index
      statements are not empty, by the separator and those statements. */
  lemma TextTemplateByIndexText(columns: seq<Column>, typeDescription: Option<string>, placeholder: string)
    ensures var indexText := Join(StatementSeparator, IndexStatements(Plan(columns), placeholder));
      TextTemplate(columns, typeDescription, placeholder)
        == CreateTableStatement(columns, typeDescription, placeholder)
           + (if indexText == "" then "" else StatementSeparator + indexText)
  {
    var stmts := IndexStatements(Plan(columns), placeholder);
    forall i | 0 <= i < |stmts| ensures stmts[i] != "" {
      assert |stmts[i]| > 0;
    }
    JoinOfNonEmpty(StatementSeparator, stmts);
    assert stmts == [] <==> Plan(columns) == [];
  }

  /** ToTextTemplate: the statement text, to which the index statements are
      appended only when there are some. */
  method ToTextTemplate(columns: seq<Column>, typeDescription: Option<string>, placeholder: string)
    returns (createTableSql: string)
    ensures createTableSql == TextTemplate(columns, typeDescription, placeholder)
  {
    createTableSql := CreateTableStatement(columns, typeDescription, placeholder);
    var indexStatements := GenerateIndexStatements(columns, placeholder);
    TextTemplateByIndexText(columns, typeDescription, placeholder);
    if indexStatements != "" {
      createTableSql := createTableSql + StatementSeparator + indexStatements;
    }
  }

  /** The key names are the names of exactly the key columns. */
  lemma {:induction false} KeyNamesAreKeys(columns: seq<Column>)
    ensures forall i | 0 <= i < |columns| && columns[i].isId :: columns[i].columnName in KeyNames(columns)
    ensures forall n | n in KeyNames(columns) :: exists i | 0 <= i < |columns| :: columns[i].isId && columns[i].columnName == n
    ensures KeyNames(columns) == [] <==> !HasKey(columns)
  {
    if columns != [] {
      var tail := columns[1..];
      KeyNamesAreKeys(tail);
      var head := if columns[0].isId then [columns[0].columnName] else [];
      assert KeyNames(columns) == head + KeyNames(tail);
      forall i | 0 <= i < |columns| && columns[i].isId ensures columns[i].columnName in KeyNames(columns) {
        if i > 0 {
          assert tail[i - 1] == columns[i];
        }
      }
      forall n | n in KeyNames(columns) ensures exists i | 0 <= i < |columns| :: columns[i].isId && columns[i].columnName == n {
        if n !in head {
          var j :| 0 <= j < |tail| && tail[j].isId && tail[j].columnName == n;
          assert columns[j + 1] == tail[j];
        }
      }
      if HasKey(columns) && !columns[0].isId {
        var j :| 0 <= j < |columns| && columns[j].isId;
        assert tail[j - 1].isId;
      }
    }
  }

  /** The key names keep declaration order: those of a sequence of columns
      are those of its first part followed by those of the rest. */
  lemma {:induction false} KeyNamesAppend(xs: seq<Column>, ys: seq<Column>)
    ensures KeyNames(xs + ys) == KeyNames(xs) + KeyNames(ys)
    decreases |xs|
  {
    if xs == [] {
      assert xs + ys == ys;
    } else {
      var zs := xs + ys;
      var head := if xs[0].isId then [xs[0].columnName] else [];
      assert zs[0] == xs[0];
      assert zs[1..] == xs[1..] + ys;
      assert KeyNames(zs) == head + KeyNames(xs[1..] + ys);
      KeyNamesAppend(xs[1..], ys);
      assert KeyNames(xs) == head + KeyNames(xs[1..]);
    }
  }

  /** Appending a column appends its name to the key names exactly when it
      is a key column. */
  lemma {:induction false} KeyNamesSnoc(xs: seq<Column>, c: Column)
    ensures KeyNames(xs + [c]) == KeyNames(xs) + (if c.isId then [c.columnName] else [])
  {
    KeyNamesAppend(xs, [c]);
    assert [c][1..] == [];
  }

  /** `, primary key (...)` appears exactly when some column is a key, and
      then it lists the key names separated by `,`; it names every key
      column. */
  lemma PrimaryKeyClause(columns: seq<Column>)
    ensures KeyClause(columns) == "" <==> !HasKey(columns)
    ensures HasKey(columns) ==> KeyClause(columns) == ", primary key (" + Join(",", KeyNames(columns)) + ")"
    ensures forall i | 0 <= i < |columns| && columns[i].isId :: Contains(KeyClause(columns), columns[i].columnName)
  {
    KeyNamesAreKeys(columns);
    forall i | 0 <= i < |columns| && columns[i].isId ensures Contains(KeyClause(columns), columns[i].columnName) {
      var names := KeyNames(columns);
      var k :| 0 <= k < |names| && names[k] == columns[i].columnName;
      JoinContainsPart(",", names, k);
      ContainsExtendLeft(", primary key (", Join(",", names), names[k]);
      ContainsExtendRight(", primary key (" + Join(",", names), ")", names[k]);
    }
  }

  /** The primary key lists the keys of the leading columns before those of
      the trailing ones, in declaration order. */
  lemma KeyClauseInOrder(xs: seq<Column>, ys: seq<Column>)
    ensures HasKey(xs) && HasKey(ys) ==>
      KeyClause(xs + ys) == ", primary key (" + Join(",", KeyNames(xs)) + "," + Join(",", KeyNames(ys)) + ")"
  {
    if HasKey(xs) && HasKey(ys) {
      var j :| 0 <= j < |xs| && xs[j].isId;
      assert (xs + ys)[j].isId;
      KeyNamesAreKeys(xs);
      KeyNamesAreKeys(ys);
      KeyNamesAppend(xs, ys);
      var a, b := KeyNames(xs), KeyNames(ys);
      JoinAppend(",", a, b);
      AppendFour(", primary key (", Join(",", a), ",", Join(",", b), ")");
    }
  }

  /** The statement opens with the CREATE TABLE header and closes with the
      key clause and `)` on a line of their own; with PrimaryKeyClause, that
      line is `, primary key (k1,k2,...))` listing the key names when there
      is a key, and a bare `)` otherwise. */
  lemma CreateTableStatementFrame(columns: seq<Column>, typeDescription: Option<string>, placeholder: string)
    ensures StartsWith(CreateTableStatement(columns, typeDescription, placeholder),
      "create table if not exists " + placeholder + " (\r\n")
    ensures EndsWith(CreateTableStatement(columns, typeDescription, placeholder), "\r\n  " + KeyClause(columns) + ")")
  {
    var header := "create table if not exists " + placeholder + " (\r\n";
    var comment := TableComment(typeDescription);
    var body := Join("\r\n  , ", ColumnLines(columns));
    var clause := KeyClause(columns);
    var stmt := CreateTableStatement(columns, typeDescription, placeholder);
    assert stmt == header + comment + "  " + body + "\r\n" + "  " + clause + ")";
    Regroup(header, comment, "  ", body, "\r\n", "  ", clause, ")");
    assert "\r\n" + "  " + clause + ")" == "\r\n  " + clause + ")";
    SplitAt(header, comment + "  " + body, "\r\n  " + clause + ")");
  }

  lemma Regroup(a: string, b: string, c: string, d: string, e: string, f: string, g: string, h: string)
    ensures a + b + c + d + e + f + g + h == a + (b + c + d) + (e + f + g + h)
  {
  }

  lemma AppendFour(a: string, b: string, c: string, d: string, e: string)
    ensures a + (b + c + d) + e == a + b + c + d + e
  {
  }

  /** A text made of three parts starts with the first and ends with the last. */
  lemma SplitAt(x: string, y: string, z: string)
    ensures StartsWith(x + y + z, x) && EndsWith(x + y + z, z)
  {
    assert (x + y + z)[..|x|] == x;
    assert (x + y + z)[|x + y|..] == z;
  }

  /** Every column is declared on its own line, and a key column's line
      carries ` not null` right after its type. */
  lemma StatementDeclaresEveryColumn(columns: seq<Column>, typeDescription: Option<string>, placeholder: string, i: nat)
    requires i < |columns|
    ensures Contains(CreateTableStatement(columns, typeDescription, placeholder), ColumnLine(columns[i]))
    ensures columns[i].isId ==> Contains(CreateTableStatement(columns, typeDescription, placeholder),
      columns[i].columnName + " " + columns[i].sqlColumnType + " not null")
  {
    var c := columns[i];
    var lines := ColumnLines(columns);
    var head := "create table if not exists " + placeholder + " (\r\n" + TableComment(typeDescription) + "  ";
    var tail := "\r\n" + "  " + KeyClause(columns) + ")";
    var body := Join("\r\n  , ", lines);
    assert CreateTableStatement(columns, typeDescription, placeholder) == head + body + "\r\n" + "  " + KeyClause(columns) + ")";
    JoinContainsPart("\r\n  , ", lines, i);
    assert lines[i] == ColumnLine(c);
    if c.isId {
      var decl := c.columnName + " " + c.sqlColumnType + " not null";
      ContainsSelf(decl);
      ContainsExtendRight(decl, " -- ", decl);
      ContainsExtendRight(decl + " -- ", c.columnComment, decl);
      ContainsTransitive(body, lines[i], decl);
      ContainsExtendLeft(head, body, decl);
      ContainsExtendRight(head + body, "\r\n", decl);
      ContainsExtendRight(head + body + "\r\n", "  ", decl);
      ContainsExtendRight(head + body + "\r\n" + "  ", KeyClause(columns), decl);
      ContainsExtendRight(head + body + "\r\n" + "  " + KeyClause(columns), ")", decl);
    }
    ContainsExtendLeft(head, body, lines[i]);
    ContainsExtendRight(head + body, "\r\n", lines[i]);
    ContainsExtendRight(head + body + "\r\n", "  ", lines[i]);
    ContainsExtendRight(head + body + "\r\n" + "  ", KeyClause(columns), lines[i]);
    ContainsExtendRight(head + body + "\r\n" + "  " + KeyClause(columns), ")", lines[i]);
  }

  /** A statement followed, when the plan selects any column, by the
      separator and the plan's index statements. */
  lemma AppendedIndexes(stmt: string, plan: seq<Column>, placeholder: string, text: string)
    requires text == stmt + (if plan == [] then "" else StatementSeparator + Join(StatementSeparator, IndexStatements(plan, placeholder)))
    ensures plan == [] ==> text == stmt
    ensures plan != [] ==> StartsWith(text, stmt + StatementSeparator)
    ensures forall j | 0 <= j < |plan| :: Contains(text, IndexStatement(plan[j], placeholder))
  {
    if plan != [] {
      var stmts := IndexStatements(plan, placeholder);
      var joined := Join(StatementSeparator, stmts);
      assert text == (stmt + StatementSeparator) + joined;
      assert text[..|stmt + StatementSeparator|] == stmt + StatementSeparator;
      forall j | 0 <= j < |plan| ensures Contains(text, IndexStatement(plan[j], placeholder)) {
        JoinContainsPart(StatementSeparator, stmts, j);
        ContainsExtendLeft(stmt + StatementSeparator, joined, stmts[j]);
      }
    } else {
      assert text == stmt + "";
    }
  }

  /** A table whose plan selects nothing is just its CREATE TABLE
      statement; otherwise the statement is followed by `;` and every
      selected column's index statement. */
  lemma TemplateAppendsIndexes(columns: seq<Column>, typeDescription: Option<string>, placeholder: string)
    ensures Plan(columns) == [] ==>
      TextTemplate(columns, typeDescription, placeholder) == CreateTableStatement(columns, typeDescription, placeholder)
    ensures Plan(columns) != [] ==>
      StartsWith(TextTemplate(columns, typeDescription, placeholder), CreateTableStatement(columns, typeDescription, placeholder) + StatementSeparator)
    ensures forall j | 0 <= j < |Plan(columns)| ::
      Contains(TextTemplate(columns, typeDescription, placeholder), IndexStatement(Plan(columns)[j], placeholder))
  {
    AppendedIndexes(CreateTableStatement(columns, typeDescription, placeholder), Plan(columns), placeholder,
      TextTemplate(columns, typeDescription, placeholder));
  }
}
