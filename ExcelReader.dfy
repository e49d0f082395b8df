/**
 * Reading test accounts from the spreadsheet (src/io/excel_reader.py). The workbook is what
 * the sheet held after empty cells were filled with "": its header, and one map per row from
 * each lower-cased column name to the cell's text. An absent workbook is `None`.
 */
module ExcelReader {
  import opened Wrappers
  import opened Text

  /** `AccountRecord`. */
  datatype AccountRecord = AccountRecord(
    username: string,
    password: string,
    email: Option<string>,
    metadata: Option<map<string, string>>)

  datatype Workbook = Workbook(columns: seq<string>, rows: seq<map<string, string>>)

  /** Why `read()` raised: FileNotFoundError, or ValueError with the missing column names. */
  datatype ReadError = WorkbookNotFound(path: string) | MissingColumns(missing: set<string>)

  function NotFoundMessage(path: string): string
  {
    "Account workbook not found: " + path
  }

  const RequiredColumns: set<string> := {"username", "password"}

  /** The column names of the sheet after `rename(columns=str.lower)`. */
  function LowerColumns(columns: seq<string>): (names: set<string>)
    ensures forall k | 0 <= k < |columns| :: Lower(columns[k]) in names
    ensures forall n | n in names :: exists k | 0 <= k < |columns| :: Lower(columns[k]) == n
  {
    set k | 0 <= k < |columns| :: Lower(columns[k])
  }

  /** The required columns the sheet lacks, compared without regard to case. */
  function Missing(columns: seq<string>): (m: set<string>)
    ensures m <= RequiredColumns
    ensures forall c | c in RequiredColumns :: c in m <==> forall k | 0 <= k < |columns| :: Lower(columns[k]) != c
  {
    RequiredColumns - LowerColumns(columns)
  }

  /** `row.get(key, "")`. */
  function Cell(row: map<string, string>, key: string): string
  {
    if key in row then row[key] else ""
  }

  /** The metadata comprehension: every non-empty cell of a column other than username and
      password, untrimmed. */
  function Metadata(columns: seq<string>, row: map<string, string>): (m: map<string, string>)
    ensures forall key :: key in m <==> key in LowerColumns(columns) && key !in RequiredColumns && Cell(row, key) != ""
    ensures forall key | key in m :: m[key] == Cell(row, key)
  {
    map key | key in LowerColumns(columns) && key !in RequiredColumns && Cell(row, key) != "" :: row[key]
  }

  /** A trimmed text has no white space at either end. */
  predicate Trimmed(s: string)
  {
    s == [] || (!IsSpace(s[0]) && !IsSpace(s[|s| - 1]))
  }

  /** What one row becomes: no record when the trimmed username or password is empty. */
  function NormalizeRow(columns: seq<string>, row: map<string, string>): (r: Option<AccountRecord>)
    ensures r.None? <==> Strip(Cell(row, "username")) == "" || Strip(Cell(row, "password")) == ""
    ensures r.Some? ==>
              && r.value.username == Strip(Cell(row, "username")) != ""
              && r.value.password == Strip(Cell(row, "password")) != ""
              && Trimmed(r.value.username) && Trimmed(r.value.password)
              && (r.value.email.None? <==> Strip(Cell(row, "email")) == "")
              && (r.value.email.Some? ==> r.value.email.value == Strip(Cell(row, "email")))
              && (r.value.metadata.None? <==> Metadata(columns, row) == map[])
              && (r.value.metadata.Some? ==> r.value.metadata.value == Metadata(columns, row))
  {
    var username := Strip(Cell(row, "username"));
    var password := Strip(Cell(row, "password"));
    if username == "" || password == "" then None
    else
      var email := Strip(Cell(row, "email"));
      var metadata := Metadata(columns, row);
      Some(AccountRecord(username, password,
                         if email == "" then None else Some(email),
                         if metadata == map[] then None else Some(metadata)))
  }

  /** The values `f` gives for the items of `xs`, in order, skipping the items it gives `None` for. */
  function FilterMap<T, U>(f: T -> Option<U>, xs: seq<T>): seq<U>
    decreases |xs|
  {
    if xs == [] then []
    else
      var last := f(xs[|xs| - 1]);
      FilterMap(f, xs[..|xs| - 1]) + (if last.Some? then [last.value] else [])
  }

  lemma {:induction false} FilterMapAppend<T, U>(f: T -> Option<U>, a: seq<T>, b: seq<T>)
    ensures FilterMap(f, a + b) == FilterMap(f, a) + FilterMap(f, b)
    decreases |b|
  {
    if b == [] {
      assert a + b == a;
    } else {
      var b' := b[..|b| - 1];
      assert (a + b)[..|a + b| - 1] == a + b';
      assert (a + b)[|a + b| - 1] == b[|b| - 1];
      FilterMapAppend(f, a, b');
    }
  }

  lemma {:induction false} FilterMapLength<T, U>(f: T -> Option<U>, xs: seq<T>)
    ensures |FilterMap(f, xs)| <= |xs|
    ensures (forall k | 0 <= k < |xs| :: f(xs[k]).Some?) ==> |FilterMap(f, xs)| == |xs|
    decreases |xs|
  {
    if xs != [] {
      var init := xs[..|xs| - 1];
      FilterMapLength(f, init);
      if forall k | 0 <= k < |xs| :: f(xs[k]).Some? {
        assert forall k | 0 <= k < |init| :: init[k] == xs[k];
      }
    }
  }

  /** Every value kept is what `f` gives for one of the items. */
  lemma {:induction false} FilterMapFrom<T, U>(f: T -> Option<U>, xs: seq<T>)
    ensures forall k | 0 <= k < |FilterMap(f, xs)| :: exists i | 0 <= i < |xs| :: f(xs[i]) == Some(FilterMap(f, xs)[k])
    decreases |xs|
  {
    if xs != [] {
      var init := xs[..|xs| - 1];
      FilterMapFrom(f, init);
      var last := f(xs[|xs| - 1]);
      var ys := FilterMap(f, xs);
      assert ys == FilterMap(f, init) + (if last.Some? then [last.value] else []);
      forall k | 0 <= k < |ys|
        ensures exists i | 0 <= i < |xs| :: f(xs[i]) == Some(ys[k])
      {
        if k < |FilterMap(f, init)| {
          var i :| 0 <= i < |init| && f(init[i]) == Some(FilterMap(f, init)[k]);
          assert xs[i] == init[i];
        } else {
          assert f(xs[|xs| - 1]) == Some(ys[k]);
        }
      }
    } else {
      assert FilterMap(f, xs) == [];
    }
  }

  lemma FilterMapStep<T, U>(f: T -> Option<U>, xs: seq<T>, index: nat)
    requires index < |xs|
    ensures FilterMap(f, xs[..index + 1])
            == FilterMap(f, xs[..index]) + (if f(xs[index]).Some? then [f(xs[index]).value] else [])
  {
    assert xs[..index + 1][..index] == xs[..index];
  }

  /** What `read()` makes of one row. */
  function RowReader(columns: seq<string>): map<string, string> -> Option<AccountRecord>
  {
    row => NormalizeRow(columns, row)
  }

  /** The records of the rows kept, in row order. */
  function Kept(columns: seq<string>, rows: seq<map<string, string>>): seq<AccountRecord>
  {
    FilterMap(RowReader(columns), rows)
  }

  /** Keeping works row by row: the records of two blocks of rows are the records of the first
      followed by those of the second, so the row order is kept. */
  lemma KeptAppend(columns: seq<string>, a: seq<map<string, string>>, b: seq<map<string, string>>)
    ensures Kept(columns, a + b) == Kept(columns, a) + Kept(columns, b)
  {
    FilterMapAppend(RowReader(columns), a, b);
  }

  /** No more records than rows; a kept row gives exactly its record and a skipped one nothing;
      every record has a non-empty, trimmed username and password. */
  lemma KeptBounds(columns: seq<string>, rows: seq<map<string, string>>)
    ensures |Kept(columns, rows)| <= |rows|
    ensures (forall k | 0 <= k < |rows| :: NormalizeRow(columns, rows[k]).Some?) ==> |Kept(columns, rows)| == |rows|
    ensures forall k | 0 <= k < |Kept(columns, rows)| :: Credentialed(Kept(columns, rows)[k])
  {
    var f := RowReader(columns);
    FilterMapLength(f, rows);
    if forall k | 0 <= k < |rows| :: NormalizeRow(columns, rows[k]).Some? {
      assert forall k | 0 <= k < |rows| :: f(rows[k]).Some?;
    }
    KeptCredentials(columns, rows);
  }

  /** A username and a password that are both non-empty and trimmed. */
  predicate Credentialed(a: AccountRecord)
  {
    a.username != "" && a.password != "" && Trimmed(a.username) && Trimmed(a.password)
  }

  lemma KeptCredentials(columns: seq<string>, rows: seq<map<string, string>>)
    ensures forall k | 0 <= k < |Kept(columns, rows)| :: Credentialed(Kept(columns, rows)[k])
  {
    var f := RowReader(columns);
    var records := Kept(columns, rows);
    FilterMapFrom(f, rows);
    forall k | 0 <= k < |records|
      ensures Credentialed(records[k])
    {
      var i :| 0 <= i < |rows| && f(rows[i]) == Some(records[k]);
      RowCredentials(columns, rows[i]);
    }
  }

  lemma RowCredentials(columns: seq<string>, row: map<string, string>)
    ensures NormalizeRow(columns, row).Some? ==> Credentialed(NormalizeRow(columns, row).value)
  {
  }

  /** The records of the first `index + 1` rows: those of the first `index`, then the record of
      row `index` when it is kept. */
  lemma KeptStep(columns: seq<string>, rows: seq<map<string, string>>, index: nat)
    requires index < |rows|
    ensures Kept(columns, rows[..index + 1])
            == Kept(columns, rows[..index])
               + (if NormalizeRow(columns, rows[index]).Some? then [NormalizeRow(columns, rows[index]).value] else [])
  {
    FilterMapStep(RowReader(columns), rows, index);
  }

  /** `ExcelAccountReader(path).read()`. */
  method Read(path: string, workbook: Option<Workbook>) returns (r: Result<seq<AccountRecord>, ReadError>)
    ensures workbook.None? ==> r == Failure(WorkbookNotFound(path))
    ensures workbook.Some? && Missing(workbook.value.columns) != {} ==>
              r == Failure(MissingColumns(Missing(workbook.value.columns)))
    ensures workbook.Some? && Missing(workbook.value.columns) == {} ==>
              r == Success(Kept(workbook.value.columns, workbook.value.rows))
  {
    if workbook.None? {
      return Failure(WorkbookNotFound(path));
    }
    var columns, rows := workbook.value.columns, workbook.value.rows;
    var missing := RequiredColumns - LowerColumns(columns);
    if missing != {} {
      return Failure(MissingColumns(missing));
    }
    var accounts: seq<AccountRecord> := [];
    var index := 0;
    while index < |rows|
      invariant 0 <= index <= |rows|
      invariant accounts == Kept(columns, rows[..index])
    {
      var row := rows[index];
      KeptStep(columns, rows, index);
      var username := Strip(Cell(row, "username"));
      var password := Strip(Cell(row, "password"));
      if username == "" || password == "" {
        index := index + 1;
        continue;
      }
      var metadata := Metadata(columns, row);
      var email := Strip(Cell(row, "email"));
      accounts := accounts + [AccountRecord(username, password,
                                            if email == "" then None else Some(email),
                                            if metadata == map[] then None else Some(metadata))];
      index := index + 1;
    }
    assert rows[..index] == rows;
    return Success(accounts);
  }
}
