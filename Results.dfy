/**
 * The results log (src/io/results_writer.py): a CSV file seen as whether it exists and the
 * rows it holds, each row a sequence of fields. Quoting is below this level.
 */
module Results {
  import opened Text

  /** `ResultRecord`. */
  datatype ResultRecord = ResultRecord(
    username: string,
    status: string,
    details: string,
    screenshots: seq<string>,
    statements: seq<string>)

  /** `ResultsWriter.HEADER`. */
  const Header: seq<string> := ["username", "status", "details", "screenshots", "statements"]

  /** `";".join(paths)`. */
  function JoinPaths(paths: seq<string>): string
  {
    Join(";", paths)
  }

  /** The five fields `append` writes for one result. */
  function RowOf(result: ResultRecord): seq<string>
  {
    [result.username, result.status, result.details, JoinPaths(result.screenshots), JoinPaths(result.statements)]
  }

  /** Reading a path list back out of its field. */
  function ReadPaths(field: string): seq<string>
  {
    if field == "" then [] else SplitOn(field, ";")
  }

  /** Reading a result back out of a row of the log. */
  function ReadRow(row: seq<string>): (r: ResultRecord)
    requires |row| == 5
    ensures r.username == row[0] && r.status == row[1] && r.details == row[2]
  {
    ResultRecord(row[0], row[1], row[2], ReadPaths(row[3]), ReadPaths(row[4]))
  }

  /** A path list the log can hold without loss: no path is empty or holds ';'. */
  predicate Storable(paths: seq<string>)
  {
    forall i | 0 <= i < |paths| :: paths[i] != "" && Lacks(paths[i], ';')
  }

  /** The path field reads back as the paths written; an empty list is written as an empty
      field. */
  lemma PathsRoundTrip(paths: seq<string>)
    requires Storable(paths)
    ensures ReadPaths(JoinPaths(paths)) == paths
  {
    if paths != [] {
      assert JoinPaths(paths) != "" by {
        JoinLength(paths);
      }
      SplitJoinChar(paths, ';');
    }
  }

  /** The joined field is at least as long as the first path. */
  lemma JoinLength(paths: seq<string>)
    requires paths != []
    ensures |JoinPaths(paths)| >= |paths[0]|
  {
  }

  /** Every row written has the five fields of the header and reads back as the result written. */
  lemma RowRoundTrip(result: ResultRecord)
    requires Storable(result.screenshots) && Storable(result.statements)
    ensures |RowOf(result)| == |Header|
    ensures ReadRow(RowOf(result)) == result
  {
    PathsRoundTrip(result.screenshots);
    PathsRoundTrip(result.statements);
  }

  /** No screenshots and no statements are written as two empty fields. */
  lemma EmptyListsAreEmptyFields(username: string, status: string, details: string)
    ensures RowOf(ResultRecord(username, status, details, [], [])) == [username, status, details, "", ""]
  {
  }

  /** The rows after `initialize()`: a file that is present is left as it is. */
  function Initialized(present: bool, rows: seq<seq<string>>): seq<seq<string>>
  {
    if present then rows else [Header]
  }

  /** The rows after appending `results` one after the other. */
  function Appended(present: bool, rows: seq<seq<string>>, results: seq<ResultRecord>): seq<seq<string>>
    decreases |results|
  {
    if results == [] then rows
    else Appended(true, Initialized(present, rows) + [RowOf(results[0])], results[1..])
  }

  /** Appending to a file that starts with the header, or to none, leaves a file that starts
      with the header and adds one row per result, after the rows already there. */
  lemma {:induction false} AppendedShape(present: bool, rows: seq<seq<string>>, results: seq<ResultRecord>)
    requires present ==> rows != [] && rows[0] == Header
    requires !present ==> rows == []
    requires results != []
    ensures var after := Appended(present, rows, results);
            && |after| == |Initialized(present, rows)| + |results|
            && after[0] == Header
            && after[..|Initialized(present, rows)|] == Initialized(present, rows)
            && forall i | 0 <= i < |results| :: after[|Initialized(present, rows)| + i] == RowOf(results[i])
    decreases |results|
  {
    var init := Initialized(present, rows);
    var next := init + [RowOf(results[0])];
    if |results| == 1 {
      assert results[1..] == [];
    } else {
      AppendedShape(true, next, results[1..]);
      var after := Appended(true, next, results[1..]);
      assert after[..|next|] == next;
      assert after[..|init|] == next[..|init|];
      forall i | 0 <= i < |results|
        ensures after[|init| + i] == RowOf(results[i])
      {
        if i > 0 {
          assert after[|next| + (i - 1)] == RowOf(results[1..][i - 1]);
        } else {
          assert after[|init|] == next[|init|];
        }
      }
    }
  }

  /** Appending one more result adds its row after those of the earlier ones. */
  lemma {:induction false} AppendedSnoc(present: bool, rows: seq<seq<string>>, results: seq<ResultRecord>, result: ResultRecord)
    ensures Appended(present, rows, results + [result])
            == Initialized(present || results != [], Appended(present, rows, results)) + [RowOf(result)]
    decreases |results|
  {
    if results == [] {
      assert results + [result] == [result];
      assert [result][1..] == [];
    } else {
      assert (results + [result])[0] == results[0];
      assert (results + [result])[1..] == results[1..] + [result];
      AppendedSnoc(true, Initialized(present, rows) + [RowOf(results[0])], results[1..], result);
    }
  }

  /** `ResultsWriter(csv_path)` over the file that path names. */
  class ResultsWriter {
    const csvPath: string
    var present: bool
    var rows: seq<seq<string>>

    /** A file that is not present holds no rows. */
    predicate Valid()
      reads this
    {
      !present ==> rows == []
    }

    constructor(csvPath: string, present: bool, rows: seq<seq<string>>)
      requires !present ==> rows == []
      ensures Valid()
      ensures this.csvPath == csvPath && this.present == present && this.rows == rows
    {
      this.csvPath := csvPath;
      this.present := present;
      this.rows := rows;
    }

    /** `initialize()`: writes the header into a file that is not present, and nothing else. */
    method Initialize()
      requires Valid()
      modifies this
      ensures Valid() && present
      ensures rows == Initialized(old(present), old(rows))
    {
      if !present {
        present := true;
        rows := [Header];
      }
    }

    /** `append(result)`: initializes, then adds the result's row after the rows there. */
    method Append(result: ResultRecord)
      requires Valid()
      modifies this
      ensures Valid() && present
      ensures rows == Initialized(old(present), old(rows)) + [RowOf(result)]
    {
      Initialize();
      rows := rows + [RowOf(result)];
    }

    /** `append_many(results)`: one `append` per result, in order; no result, no change. */
    method AppendMany(results: seq<ResultRecord>)
      requires Valid()
      modifies this
      ensures Valid()
      ensures rows == Appended(old(present), old(rows), results)
      ensures present == (old(present) || results != [])
    {
      var index := 0;
      while index < |results|
        invariant 0 <= index <= |results|
        invariant Valid()
        invariant present == (old(present) || index > 0)
        invariant Appended(old(present), old(rows), results) == Appended(present, rows, results[index..])
      {
        assert results[index..][1..] == results[index + 1..];
        Append(results[index]);
        index := index + 1;
      }
    }
  }
}
