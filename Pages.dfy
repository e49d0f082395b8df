/**
 * The logic of the page objects (src/browser/pages.py) with the browser reduced to what it
 * shows: the texts of matched elements and whether an interaction raised. Paths are strings
 * joined as `pathlib` joins a relative name.
 */
module Pages {
  import opened Wrappers
  import opened Text
  import BcpCentral

  /** `Path(dir) / name` for a relative, non-empty name. */
  function JoinPath(dir: string, name: string): string
  {
    dir + "/" + name
  }

  /** The name part of a joined path is the name joined, when it has no separator. */
  lemma {:induction false} BaseNameOfJoin(dir: string, name: string)
    requires NoSeparator(name)
    ensures BcpCentral.BaseName(JoinPath(dir, name)) == name
  {
    var p := JoinPath(dir, name);
    assert p[|dir|] == '/';
    assert forall k | |dir| < k < |p| :: p[k] == name[k - |dir| - 1];
    BcpCentral.RFindAt(p, '/', |dir|);
    assert p[|dir| + 1..] == name;
  }

  // ---------------------------------------------------------------- read_error

  /** `LoginPage.read_error()`: `banners` are the texts of the elements the error-banner selector
      matches. No selector configured, or no banner shown, gives no message; one banner gives its
      text; several make Playwright's `inner_text` raise (strict mode). */
  function ReadError(errorBanner: Option<string>, banners: seq<string>): (r: Result<Option<string>, string>)
    ensures (errorBanner.None? || errorBanner.value == "" || banners == []) ==> r == Success(None)
    ensures r.Success? && r.value.Some? ==> |banners| == 1 && r.value.value == banners[0]
    ensures r.Failure? <==> |banners| > 1 && errorBanner.Some? && errorBanner.value != ""
  {
    if errorBanner.None? || errorBanner.value == "" then Success(None)
    else if |banners| == 0 then Success(None)
    else if |banners| == 1 then Success(Some(banners[0]))
    else Failure(StrictModeViolation)
  }

  const StrictModeViolation: string := "strict mode violation"

  // ---------------------------------------------------------------- summary and screenshots

  /** Where `capture_summary(output_dir, account_id)` puts the screenshot. */
  function SummaryPath(outputDir: string, accountId: string): string
  {
    JoinPath(outputDir, accountId + "_summary.png")
  }

  /** `capture_summary(output_dir, account_id)`: waits for the summary section and screenshots it;
      either browser step may raise. */
  function CaptureSummary(outputDir: string, accountId: string, wait: Step, shot: Step): (r: Result<string, string>)
    ensures r.Success? <==> wait.Done? && shot.Done?
    ensures r.Success? ==> r.value == SummaryPath(outputDir, accountId)
    ensures wait.Raised? ==> r == Failure(wait.message)
    ensures wait.Done? && shot.Raised? ==> r == Failure(shot.message)
  {
    if wait.Raised? then Failure(wait.message)
    else if shot.Raised? then Failure(shot.message)
    else Success(SummaryPath(outputDir, accountId))
  }

  /** The texts of one row of the account summary table. */
  datatype RowTexts = RowTexts(name: string, number: string, balance: string)

  /** The entry `list_accounts()` makes of one row. */
  function AccountEntry(row: RowTexts): map<string, string>
  {
    map["name" := row.name, "number" := row.number, "balance" := row.balance]
  }

  /** `list_accounts()` over the rows the page shows: one {name, number, balance} entry per row,
      in row order. */
  method ListAccounts(rows: seq<RowTexts>) returns (accounts: seq<map<string, string>>)
    ensures |accounts| == |rows|
    ensures forall i | 0 <= i < |rows| :: accounts[i] == AccountEntry(rows[i])
    ensures forall i | 0 <= i < |rows| ::
              && accounts[i].Keys == {"name", "number", "balance"}
              && accounts[i]["name"] == rows[i].name
              && accounts[i]["number"] == rows[i].number
              && accounts[i]["balance"] == rows[i].balance
  {
    accounts := [];
    var index := 0;
    while index < |rows|
      invariant 0 <= index <= |rows|
      invariant |accounts| == index
      invariant forall i | 0 <= i < index ::
                  && accounts[i].Keys == {"name", "number", "balance"}
                  && accounts[i]["name"] == rows[i].name
                  && accounts[i]["number"] == rows[i].number
                  && accounts[i]["balance"] == rows[i].balance
      invariant forall i | 0 <= i < index :: accounts[i] == AccountEntry(rows[i])
    {
      var row := rows[index];
      accounts := accounts + [map["name" := row.name, "number" := row.number, "balance" := row.balance]];
      index := index + 1;
    }
  }

  // ---------------------------------------------------------------- statements

  /** The date of a statement as it appears in the file name: every character that is not
      `[A-Za-z0-9]` becomes '_'. */
  function SafeDate(dateText: string): (r: string)
    ensures |r| == |dateText|
    ensures forall k | 0 <= k < |r| :: IsWordChar(r[k])
    ensures forall k | 0 <= k < |r| :: IsAlnum(dateText[k]) ==> r[k] == dateText[k]
    ensures forall k | 0 <= k < |r| :: !IsAlnum(dateText[k]) ==> r[k] == '_'
  {
    seq(|dateText|, k requires 0 <= k < |dateText| => if IsAlnum(dateText[k]) then dateText[k] else '_')
  }

  /** Making a date safe twice changes nothing more. */
  lemma SafeDateIdempotent(dateText: string)
    ensures SafeDate(SafeDate(dateText)) == SafeDate(dateText)
  {
    var once := SafeDate(dateText);
    assert forall k | 0 <= k < |once| :: SafeDate(once)[k] == once[k] by {
      forall k | 0 <= k < |once| ensures SafeDate(once)[k] == once[k] {
        if !IsAlnum(dateText[k]) { assert once[k] == '_'; }
      }
    }
  }

  /** "12/05/2024" is saved as "12_05_2024". */
  lemma SafeDateExample()
    ensures SafeDate("12/05/2024") == "12_05_2024"
  {
    var r := SafeDate("12/05/2024");
    assert r[2] == '_' && r[5] == '_';
    assert r[0] == '1' && r[1] == '2' && r[3] == '0' && r[4] == '5';
    assert r[6] == '2' && r[7] == '0' && r[8] == '2' && r[9] == '4';
  }

  /** Where `download_latest_statement(download_dir, account_id)` saves a statement dated
      `dateText`. */
  function StatementPath(downloadDir: string, accountId: string, dateText: string): string
  {
    JoinPath(downloadDir, accountId + "_" + SafeDate(dateText) + ".pdf")
  }

  /** `download_latest_statement(download_dir, account_id)` with the download awaited through
      `async with self.page.expect_download()`: `rowDates` are the date texts of the statement
      rows in page order and `download` is the click-and-download step. No rows gives no
      statement, without raising; otherwise the first row is downloaded. */
  function DownloadLatestStatement(downloadDir: string, accountId: string, rowDates: seq<string>, download: Step)
    : (r: Result<Option<string>, string>)
    ensures r == Success(None) <==> rowDates == []
    ensures rowDates != [] && download.Done? ==> r == Success(Some(StatementPath(downloadDir, accountId, rowDates[0])))
    ensures rowDates != [] && download.Raised? ==> r == Failure(download.message)
  {
    if rowDates == [] then Success(None)
    else if download.Raised? then Failure(download.message)
    else Success(Some(StatementPath(downloadDir, accountId, rowDates[0])))
  }

  /** The TypeError a plain `with` raises on the asynchronous API's event context manager, which
      has `__aenter__` and `__aexit__` but no `__enter__`, in the wording of Python 3.11. */
  const SyncWithOnAsyncManager: string :=
    "'AsyncEventContextManager' object does not support the context manager protocol"

  /** `download_latest_statement` as written: the page is an asynchronous Playwright page, so
      `with self.page.expect_download()` raises before the button is clicked whenever there is a
      statement row, and no statement is ever saved. */
  function DownloadLatestStatementAsWritten(downloadDir: string, accountId: string, rowDates: seq<string>, download: Step)
    : (r: Result<Option<string>, string>)
    ensures r == Success(None) <==> rowDates == []
    ensures rowDates != [] ==> r == Failure(SyncWithOnAsyncManager)
  {
    if rowDates == [] then Success(None) else Failure(SyncWithOnAsyncManager)
  }

  /** Where the two differ: a statement row whose download would succeed is saved by the
      `async with` form and makes the form as written raise. */
  lemma DownloadAsWrittenDiffers(downloadDir: string, accountId: string, date: string)
    ensures DownloadLatestStatement(downloadDir, accountId, [date], Done)
            == Success(Some(StatementPath(downloadDir, accountId, date)))
    ensures DownloadLatestStatementAsWritten(downloadDir, accountId, [date], Done).Failure?
  {
  }

  /** Rows after the first are never consulted. */
  lemma OnlyFirstRowMatters(downloadDir: string, accountId: string, first: string, rest: seq<string>, download: Step)
    ensures DownloadLatestStatement(downloadDir, accountId, [first] + rest, download)
            == DownloadLatestStatement(downloadDir, accountId, [first], download)
  {
  }

  /** `s` holds no path separator. */
  predicate NoSeparator(s: string)
  {
    forall k | 0 <= k < |s| :: s[k] != '/'
  }

  lemma NoSeparatorConcat(a: string, b: string)
    requires NoSeparator(a) && NoSeparator(b)
    ensures NoSeparator(a + b)
  {
    forall k | 0 <= k < |a + b| ensures (a + b)[k] != '/' {
      if k < |a| { assert (a + b)[k] == a[k]; } else { assert (a + b)[k] == b[k - |a|]; }
    }
  }

  /** A name made of `x` followed by `ext` (a dot and non-dot characters) has that suffix. */
  lemma {:induction false} NameWithExtension(x: string, ext: string)
    requires x != [] && |ext| >= 2 && ext[0] == '.' && forall k | 1 <= k < |ext| :: ext[k] != '.'
    requires NoSeparator(x) && NoSeparator(ext)
    ensures BcpCentral.Suffix(x + ext) == ext
  {
    var n := x + ext;
    NoSeparatorConcat(x, ext);
    assert BcpCentral.RFind(n, '/') == -1;
    assert forall k | |x| < k < |n| :: n[k] != '.' by {
      forall k | |x| < k < |n| ensures n[k] != '.' { assert n[k] == ext[k - |x|]; }
    }
    assert n[|x|] == '.';
    BcpCentral.RFindAt(n, '.', |x|);
    assert n[|x|..] == ext;
  }

  /** A statement is saved as a ".pdf" file directly inside the download directory, made of the
      account id and the safe date, whenever the account id has no separator. */
  lemma StatementFileName(downloadDir: string, accountId: string, dateText: string)
    requires NoSeparator(accountId)
    ensures BcpCentral.BaseName(StatementPath(downloadDir, accountId, dateText))
            == accountId + "_" + SafeDate(dateText) + ".pdf"
    ensures BcpCentral.Suffix(StatementPath(downloadDir, accountId, dateText)) == ".pdf"
  {
    var sd := SafeDate(dateText);
    assert NoSeparator(sd) by {
      forall k | 0 <= k < |sd| ensures sd[k] != '/' { assert IsWordChar(sd[k]); }
    }
    assert NoSeparator("_") && NoSeparator(".pdf");
    NoSeparatorConcat(accountId, "_");
    NoSeparatorConcat(accountId + "_", sd);
    var x := accountId + "_" + sd;
    NoSeparatorConcat(x, ".pdf");
    var name := x + ".pdf";
    BaseNameOfJoin(downloadDir, name);
    NameWithExtension(x, ".pdf");
    SuffixOfJoin(downloadDir, name);
  }

  /** The suffix of a joined path is the suffix of the name joined. */
  lemma SuffixOfJoin(dir: string, name: string)
    requires NoSeparator(name)
    ensures BcpCentral.Suffix(JoinPath(dir, name)) == BcpCentral.Suffix(name)
  {
    BaseNameOfJoin(dir, name);
    assert BcpCentral.RFind(name, '/') == -1;
    assert BcpCentral.BaseName(name) == name;
  }
}
