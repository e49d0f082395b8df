/**
 * The batch runner (src/runner.py): which accounts are processed, how each is classified, and
 * what the results log receives. Every browser action is a `Step` supplied with the account,
 * and so is what the mailbox poll answers for a recipient.
 */
module Runner {
  import opened Wrappers
  import opened Text
  import Config
  import Mailbox
  import Pages
  import ExcelReader
  import Results

  // ---------------------------------------------------------------- outcomes

  const StatusSuccess: string := "SUCCESS"
  const StatusFailed: string := "FAILED"
  const OtpTimeout: string := "OTP timeout"

  /** `AccountOutcome`; `None` lists are the dataclass's `None` defaults. */
  datatype AccountOutcome = AccountOutcome(
    record: ExcelReader.AccountRecord,
    status: string,
    details: string,
    screenshots: Option<seq<string>>,
    statements: Option<seq<string>>)

  /** `AccountOutcome.to_result_record()`. */
  function ToResultRecord(outcome: AccountOutcome): (r: Results.ResultRecord)
    ensures r.username == outcome.record.username
    ensures r.status == outcome.status && r.details == outcome.details
    ensures outcome.screenshots.None? ==> r.screenshots == []
    ensures outcome.screenshots.Some? ==> r.screenshots == outcome.screenshots.value
    ensures outcome.statements.None? ==> r.statements == []
    ensures outcome.statements.Some? ==> r.statements == outcome.statements.value
  {
    Results.ResultRecord(outcome.record.username, outcome.status, outcome.details,
                         outcome.screenshots.GetOr([]), outcome.statements.GetOr([]))
  }

  function Failed(account: ExcelReader.AccountRecord, details: string): AccountOutcome
  {
    AccountOutcome(account, StatusFailed, details, None, None)
  }

  // ---------------------------------------------------------------- what the portal does

  /** The browser steps for one sub-account: waiting for and taking its screenshot, opening the
      statements tab, the statement rows' dates and the download. */
  datatype SubAccountSteps = SubAccountSteps(
    wait: Step, shot: Step, openTab: Step, statementDates: seq<string>, download: Step)

  /** Everything the browser and the mailbox do while one account is processed, in the order
      `_process_account` meets it. `poll` is what `poll_for_otp` gives for a recipient. */
  datatype Portal = Portal(
    openPage: Step,
    goto: Step,
    login: Step,
    otpInput: Step,
    poll: string -> Result<Option<string>, string>,
    submit: Step,
    summaryWait: Step,
    overviewWait: Step,
    overviewShot: Step,
    rows: Result<seq<Pages.RowTexts>, string>,
    subAccounts: nat -> SubAccountSteps)

  /** `account.email or account.username`. */
  function Recipient(account: ExcelReader.AccountRecord): (r: string)
    ensures account.email.Some? && account.email.value != "" ==> r == account.email.value
    ensures account.email.None? || account.email.value == "" ==> r == account.username
  {
    if account.email.Some? && account.email.value != "" then account.email.value else account.username
  }

  /** `account_meta.get("number", "unknown").replace(" ", "_")`. */
  function AccountId(entry: map<string, string>): string
  {
    ReplaceAll(if "number" in entry then entry["number"] else "unknown", " ", "_")
  }

  /** The id is the sub-account's number, or "unknown" without one, with every space turned
      into "_" and every other character kept in place. */
  lemma AccountIdMeaning(entry: map<string, string>)
    ensures var number := if "number" in entry then entry["number"] else "unknown";
            && |AccountId(entry)| == |number|
            && forall k | 0 <= k < |number| :: AccountId(entry)[k] == (if number[k] == ' ' then '_' else number[k])
    ensures "number" !in entry ==> AccountId(entry) == "unknown"
    ensures Lacks(AccountId(entry), ' ')
  {
    var number := if "number" in entry then entry["number"] else "unknown";
    ReplaceCharPointwise(number, ' ', '_');
    var id := AccountId(entry);
    if "number" !in entry {
      assert forall k | 0 <= k < |number| :: number[k] != ' ';
      assert id == number;
    }
  }

  /** The sub-account loop from sub-account `i` on, having gathered `shots` and `statements`:
      the first step that raises ends it with that message. */
  function SubAccountsFrom(screenshotDir: string, downloadDir: string, rows: seq<Pages.RowTexts>,
                           steps: nat -> SubAccountSteps, i: nat, shots: seq<string>, statements: seq<string>)
    : Result<(seq<string>, seq<string>), string>
    requires i <= |rows|
    decreases |rows| - i
  {
    if i == |rows| then Success((shots, statements))
    else
      var id := AccountId(Pages.AccountEntry(rows[i]));
      var st := steps(i);
      match Pages.CaptureSummary(screenshotDir, id, st.wait, st.shot)
      case Failure(e) => Failure(e)
      case Success(shot) =>
        if st.openTab.Raised? then Failure(st.openTab.message)
        else
          match Pages.DownloadLatestStatement(downloadDir, id, st.statementDates, st.download)
          case Failure(e) => Failure(e)
          case Success(p) =>
            SubAccountsFrom(screenshotDir, downloadDir, rows, steps, i + 1, shots + [shot],
                            statements + (if p.Some? then [p.value] else []))
  }

  /** The screenshots and statements gathered after the OTP was submitted. */
  function AfterOtp(screenshotDir: string, downloadDir: string, portal: Portal): Result<(seq<string>, seq<string>), string>
  {
    if portal.submit.Raised? then Failure(portal.submit.message)
    else if portal.summaryWait.Raised? then Failure(portal.summaryWait.message)
    else
      match Pages.CaptureSummary(screenshotDir, "overview", portal.overviewWait, portal.overviewShot)
      case Failure(e) => Failure(e)
      case Success(overview) =>
        match portal.rows
        case Failure(e) => Failure(e)
        case Success(rows) => SubAccountsFrom(screenshotDir, downloadDir, rows, portal.subAccounts, 0, [overview], [])
  }

  /** `statements_dir / username` and `screenshots_dir / username`. */
  function DownloadDir(outputs: Config.OutputConfig, account: ExcelReader.AccountRecord): string
  {
    Pages.JoinPath(outputs.statementsDir, account.username)
  }

  function ScreenshotDir(outputs: Config.OutputConfig, account: ExcelReader.AccountRecord): string
  {
    Pages.JoinPath(outputs.screenshotsDir, account.username)
  }

  /** The first of the steps before the OTP that raised, if any. */
  function BeforeOtp(portal: Portal): Step
  {
    if portal.openPage.Raised? then portal.openPage
    else if portal.goto.Raised? then portal.goto
    else if portal.login.Raised? then portal.login
    else portal.otpInput
  }

  /** What `_process_account(account)` returns. */
  function OutcomeOf(outputs: Config.OutputConfig, account: ExcelReader.AccountRecord, portal: Portal): AccountOutcome
  {
    var before := BeforeOtp(portal);
    if before.Raised? then Failed(account, before.message)
    else
      match portal.poll(Recipient(account))
      case Failure(e) => Failed(account, e)
      case Success(otp) =>
        if otp.None? || otp.value == "" then Failed(account, OtpTimeout)
        else
          match AfterOtp(ScreenshotDir(outputs, account), DownloadDir(outputs, account), portal)
          case Failure(e) => Failed(account, e)
          case Success(artifacts) => AccountOutcome(account, StatusSuccess, "", Some(artifacts.0), Some(artifacts.1))
  }

  // ---------------------------------------------------------------- classification

  /** Every outcome is for its account and is either SUCCESS, with empty details and both lists,
      or FAILED, with neither list, whatever was captured before the failure. */
  lemma OutcomeClassified(outputs: Config.OutputConfig, account: ExcelReader.AccountRecord, portal: Portal)
    ensures var o := OutcomeOf(outputs, account, portal);
            && o.record == account
            && (o.status == StatusSuccess || o.status == StatusFailed)
            && (o.status == StatusFailed ==> o.screenshots.None? && o.statements.None?)
            && (o.status == StatusSuccess ==> o.details == "" && o.screenshots.Some? && o.statements.Some?)
  {
  }

  /** A poll that finds no OTP gives FAILED "OTP timeout", whose result row has empty lists. */
  lemma OtpTimeoutOutcome(outputs: Config.OutputConfig, account: ExcelReader.AccountRecord, portal: Portal)
    requires BeforeOtp(portal).Done?
    requires portal.poll(Recipient(account)) == Success(None)
    ensures OutcomeOf(outputs, account, portal) == Failed(account, OtpTimeout)
    ensures ToResultRecord(OutcomeOf(outputs, account, portal))
            == Results.ResultRecord(account.username, StatusFailed, OtpTimeout, [], [])
  {
  }

  /** The first step that raises before the OTP decides the outcome: FAILED with its message. */
  lemma RaisedBeforeOtpOutcome(outputs: Config.OutputConfig, account: ExcelReader.AccountRecord, portal: Portal)
    ensures portal.openPage.Raised? ==> OutcomeOf(outputs, account, portal) == Failed(account, portal.openPage.message)
    ensures portal.openPage.Done? && portal.goto.Raised? ==>
              OutcomeOf(outputs, account, portal) == Failed(account, portal.goto.message)
    ensures portal.openPage.Done? && portal.goto.Done? && portal.login.Raised? ==>
              OutcomeOf(outputs, account, portal) == Failed(account, portal.login.message)
    ensures portal.openPage.Done? && portal.goto.Done? && portal.login.Done? && portal.otpInput.Raised? ==>
              OutcomeOf(outputs, account, portal) == Failed(account, portal.otpInput.message)
  {
  }

  /** A poll that raises gives FAILED with its message. */
  lemma PollRaisedOutcome(outputs: Config.OutputConfig, account: ExcelReader.AccountRecord, portal: Portal)
    requires BeforeOtp(portal).Done? && portal.poll(Recipient(account)).Failure?
    ensures OutcomeOf(outputs, account, portal) == Failed(account, portal.poll(Recipient(account)).error)
  {
  }

  /** Only what the poll gives for the recipient matters: the email when it is set, else the
      username. */
  lemma PollForRecipientOnly(outputs: Config.OutputConfig, account: ExcelReader.AccountRecord, portal: Portal,
                             poll: string -> Result<Option<string>, string>)
    requires poll(Recipient(account)) == portal.poll(Recipient(account))
    ensures OutcomeOf(outputs, account, portal.(poll := poll)) == OutcomeOf(outputs, account, portal)
  {
  }

  /** Every sub-account step finishes. */
  predicate AllSubAccountsDone(rows: seq<Pages.RowTexts>, steps: nat -> SubAccountSteps)
  {
    forall i | 0 <= i < |rows| :: steps(i).wait.Done? && steps(i).shot.Done? && steps(i).openTab.Done? && steps(i).download.Done?
  }

  /** The message of the first step of one sub-account that raises: the wait, the screenshot,
      opening the statements tab, or the download, which runs only when a statement row is
      listed. */
  function SubAccountError(st: SubAccountSteps): (r: Option<string>)
  {
    if st.wait.Raised? then Some(st.wait.message)
    else if st.shot.Raised? then Some(st.shot.message)
    else if st.openTab.Raised? then Some(st.openTab.message)
    else if st.statementDates != [] && st.download.Raised? then Some(st.download.message)
    else None
  }

  /** A sub-account whose steps all finish raises nothing. */
  lemma DoneSubAccountNoError(st: SubAccountSteps)
    requires st.wait.Done? && st.shot.Done? && st.openTab.Done? && st.download.Done?
    ensures SubAccountError(st) == None
  {
  }

  /** The statement each sub-account yields: none when it lists no statement. */
  function StatementOf(downloadDir: string, rows: seq<Pages.RowTexts>, steps: nat -> SubAccountSteps, i: nat): seq<string>
    requires i < |rows|
  {
    var dates := steps(i).statementDates;
    if dates == [] then []
    else [Pages.StatementPath(downloadDir, AccountId(Pages.AccountEntry(rows[i])), dates[0])]
  }

  /** The statements of sub-accounts `i` to `j`, in order. */
  function StatementsBetween(downloadDir: string, rows: seq<Pages.RowTexts>, steps: nat -> SubAccountSteps, i: nat, j: nat)
    : seq<string>
    requires i <= j <= |rows|
    decreases j - i
  {
    if i == j then [] else StatementOf(downloadDir, rows, steps, i) + StatementsBetween(downloadDir, rows, steps, i + 1, j)
  }

  /** The screenshots of sub-accounts `i` to `j`, in order. */
  function ShotsBetween(screenshotDir: string, rows: seq<Pages.RowTexts>, i: nat, j: nat): seq<string>
    requires i <= j <= |rows|
    decreases j - i
  {
    if i == j then []
    else [Pages.SummaryPath(screenshotDir, AccountId(Pages.AccountEntry(rows[i])))] + ShotsBetween(screenshotDir, rows, i + 1, j)
  }

  /** One screenshot per sub-account, each named after that sub-account. */
  lemma {:induction false} ShotsBetweenIndex(screenshotDir: string, rows: seq<Pages.RowTexts>, i: nat, j: nat)
    requires i <= j <= |rows|
    ensures |ShotsBetween(screenshotDir, rows, i, j)| == j - i
    ensures forall k | 0 <= k < j - i ::
              ShotsBetween(screenshotDir, rows, i, j)[k] == Pages.SummaryPath(screenshotDir, AccountId(Pages.AccountEntry(rows[i + k])))
    decreases j - i
  {
    if i < j {
      ShotsBetweenIndex(screenshotDir, rows, i + 1, j);
      var all, rest := ShotsBetween(screenshotDir, rows, i, j), ShotsBetween(screenshotDir, rows, i + 1, j);
      assert all == [Pages.SummaryPath(screenshotDir, AccountId(Pages.AccountEntry(rows[i])))] + rest;
      forall k | 0 < k < j - i
        ensures all[k] == Pages.SummaryPath(screenshotDir, AccountId(Pages.AccountEntry(rows[i + k])))
      {
        assert all[k] == rest[k - 1];
        assert i + 1 + (k - 1) == i + k;
      }
    }
  }

  /** A sub-account that raises nothing adds its screenshot, and its statement when it lists one. */
  lemma SubAccountStep(screenshotDir: string, downloadDir: string, rows: seq<Pages.RowTexts>,
                       steps: nat -> SubAccountSteps, i: nat, shots: seq<string>, statements: seq<string>)
    requires i < |rows| && SubAccountError(steps(i)) == None
    ensures SubAccountsFrom(screenshotDir, downloadDir, rows, steps, i, shots, statements)
            == SubAccountsFrom(screenshotDir, downloadDir, rows, steps, i + 1,
                               shots + [Pages.SummaryPath(screenshotDir, AccountId(Pages.AccountEntry(rows[i])))],
                               statements + StatementOf(downloadDir, rows, steps, i))
  {
    var id := AccountId(Pages.AccountEntry(rows[i]));
    var p := Pages.DownloadLatestStatement(downloadDir, id, steps(i).statementDates, steps(i).download);
    assert p.Success? && (if p.value.Some? then [p.value.value] else []) == StatementOf(downloadDir, rows, steps, i);
  }

  /** A sub-account that raises ends the loop with that step's message. */
  lemma SubAccountRaised(screenshotDir: string, downloadDir: string, rows: seq<Pages.RowTexts>,
                         steps: nat -> SubAccountSteps, i: nat, shots: seq<string>, statements: seq<string>)
    requires i < |rows| && SubAccountError(steps(i)).Some?
    ensures SubAccountsFrom(screenshotDir, downloadDir, rows, steps, i, shots, statements)
            == Failure(SubAccountError(steps(i)).value)
  {
  }

  /** When sub-accounts `i` to `k - 1` raise nothing and sub-account `k` raises, the loop fails
      with sub-account `k`'s message, whatever was gathered before. */
  lemma {:induction false} SubAccountsFirstFailure(screenshotDir: string, downloadDir: string, rows: seq<Pages.RowTexts>,
                                                  steps: nat -> SubAccountSteps, i: nat, k: nat,
                                                  shots: seq<string>, statements: seq<string>)
    requires i <= k < |rows|
    requires forall j | i <= j < k :: SubAccountError(steps(j)) == None
    requires SubAccountError(steps(k)).Some?
    ensures SubAccountsFrom(screenshotDir, downloadDir, rows, steps, i, shots, statements)
            == Failure(SubAccountError(steps(k)).value)
    decreases k - i
  {
    if i == k {
      SubAccountRaised(screenshotDir, downloadDir, rows, steps, i, shots, statements);
    } else {
      SubAccountStep(screenshotDir, downloadDir, rows, steps, i, shots, statements);
      SubAccountsFirstFailure(screenshotDir, downloadDir, rows, steps, i + 1, k,
                              shots + [Pages.SummaryPath(screenshotDir, AccountId(Pages.AccountEntry(rows[i])))],
                              statements + StatementOf(downloadDir, rows, steps, i));
    }
  }

  /** When every sub-account step finishes, the loop adds one screenshot per sub-account, and a
      statement for exactly those that list one, in sub-account order. */
  lemma {:induction false} SubAccountsGather(screenshotDir: string, downloadDir: string, rows: seq<Pages.RowTexts>,
                                            steps: nat -> SubAccountSteps, i: nat, shots: seq<string>, statements: seq<string>)
    requires i <= |rows| && AllSubAccountsDone(rows, steps)
    ensures SubAccountsFrom(screenshotDir, downloadDir, rows, steps, i, shots, statements)
            == Success((shots + ShotsBetween(screenshotDir, rows, i, |rows|),
                        statements + StatementsBetween(downloadDir, rows, steps, i, |rows|)))
    decreases |rows| - i
  {
    if i < |rows| {
      var shot := Pages.SummaryPath(screenshotDir, AccountId(Pages.AccountEntry(rows[i])));
      var st := StatementOf(downloadDir, rows, steps, i);
      DoneSubAccountNoError(steps(i));
      SubAccountStep(screenshotDir, downloadDir, rows, steps, i, shots, statements);
      SubAccountsGather(screenshotDir, downloadDir, rows, steps, i + 1, shots + [shot], statements + st);
      assert shots + [shot] + ShotsBetween(screenshotDir, rows, i + 1, |rows|) == shots + ShotsBetween(screenshotDir, rows, i, |rows|);
      assert statements + st + StatementsBetween(downloadDir, rows, steps, i + 1, |rows|)
             == statements + StatementsBetween(downloadDir, rows, steps, i, |rows|);
    } else {
      assert shots + [] == shots && statements + [] == statements;
    }
  }

  /** When every step finishes and an OTP arrives, the outcome is SUCCESS with the overview
      screenshot followed by one per sub-account, and the statements of the sub-accounts that
      list one. */
  lemma SuccessArtifacts(outputs: Config.OutputConfig, account: ExcelReader.AccountRecord, portal: Portal,
                         rows: seq<Pages.RowTexts>)
    requires BeforeOtp(portal).Done? && portal.submit.Done? && portal.summaryWait.Done?
    requires portal.overviewWait.Done? && portal.overviewShot.Done?
    requires portal.poll(Recipient(account)).Success? && portal.poll(Recipient(account)).value.Some?
    requires portal.poll(Recipient(account)).value.value != ""
    requires portal.rows == Success(rows) && AllSubAccountsDone(rows, portal.subAccounts)
    ensures OutcomeOf(outputs, account, portal)
            == AccountOutcome(account, StatusSuccess, "",
                              Some([Pages.SummaryPath(ScreenshotDir(outputs, account), "overview")]
                                   + ShotsBetween(ScreenshotDir(outputs, account), rows, 0, |rows|)),
                              Some(StatementsBetween(DownloadDir(outputs, account), rows, portal.subAccounts, 0, |rows|)))
  {
    var shotDir, downloadDir := ScreenshotDir(outputs, account), DownloadDir(outputs, account);
    var overview := Pages.SummaryPath(shotDir, "overview");
    assert AfterOtp(shotDir, downloadDir, portal)
           == SubAccountsFrom(shotDir, downloadDir, rows, portal.subAccounts, 0, [overview], []);
    SubAccountsGather(shotDir, downloadDir, rows, portal.subAccounts, 0, [overview], []);
    assert [] + StatementsBetween(downloadDir, rows, portal.subAccounts, 0, |rows|)
           == StatementsBetween(downloadDir, rows, portal.subAccounts, 0, |rows|);
  }

  /** With no sub-accounts listed there is only the overview screenshot and no statement. */
  lemma NoSubAccounts(outputs: Config.OutputConfig, account: ExcelReader.AccountRecord, portal: Portal)
    requires BeforeOtp(portal).Done? && portal.submit.Done? && portal.summaryWait.Done?
    requires portal.overviewWait.Done? && portal.overviewShot.Done?
    requires var otp := portal.poll(Recipient(account)); otp.Success? && otp.value.Some? && otp.value.value != ""
    requires portal.rows == Success([])
    ensures OutcomeOf(outputs, account, portal)
            == AccountOutcome(account, StatusSuccess, "", Some([Pages.SummaryPath(ScreenshotDir(outputs, account), "overview")]), Some([]))
  {
  }

  /** After the OTP arrives, the first step that raises decides the outcome: FAILED with its
      message and no artifacts, whatever was captured before it. */
  lemma RaisedAfterOtpOutcome(outputs: Config.OutputConfig, account: ExcelReader.AccountRecord, portal: Portal)
    requires BeforeOtp(portal).Done?
    requires var otp := portal.poll(Recipient(account)); otp.Success? && otp.value.Some? && otp.value.value != ""
    ensures portal.submit.Raised? ==> OutcomeOf(outputs, account, portal) == Failed(account, portal.submit.message)
    ensures portal.submit.Done? && portal.summaryWait.Raised? ==>
              OutcomeOf(outputs, account, portal) == Failed(account, portal.summaryWait.message)
    ensures portal.submit.Done? && portal.summaryWait.Done? && portal.overviewWait.Raised? ==>
              OutcomeOf(outputs, account, portal) == Failed(account, portal.overviewWait.message)
    ensures portal.submit.Done? && portal.summaryWait.Done? && portal.overviewWait.Done? && portal.overviewShot.Raised? ==>
              OutcomeOf(outputs, account, portal) == Failed(account, portal.overviewShot.message)
    ensures portal.submit.Done? && portal.summaryWait.Done? && portal.overviewWait.Done? && portal.overviewShot.Done?
            && portal.rows.Failure? ==>
              OutcomeOf(outputs, account, portal) == Failed(account, portal.rows.error)
  {
  }

  /** When every step up to the summary table finishes and sub-account `k` is the first to
      raise, the account is FAILED with that sub-account's message and no artifacts. */
  lemma SubAccountRaisedOutcome(outputs: Config.OutputConfig, account: ExcelReader.AccountRecord, portal: Portal,
                                rows: seq<Pages.RowTexts>, k: nat)
    requires BeforeOtp(portal).Done? && portal.submit.Done? && portal.summaryWait.Done?
    requires portal.overviewWait.Done? && portal.overviewShot.Done?
    requires var otp := portal.poll(Recipient(account)); otp.Success? && otp.value.Some? && otp.value.value != ""
    requires portal.rows == Success(rows) && k < |rows|
    requires forall j | 0 <= j < k :: SubAccountError(portal.subAccounts(j)) == None
    requires SubAccountError(portal.subAccounts(k)).Some?
    ensures OutcomeOf(outputs, account, portal) == Failed(account, SubAccountError(portal.subAccounts(k)).value)
  {
    var shotDir, downloadDir := ScreenshotDir(outputs, account), DownloadDir(outputs, account);
    var overview := Pages.SummaryPath(shotDir, "overview");
    assert AfterOtp(shotDir, downloadDir, portal)
           == SubAccountsFrom(shotDir, downloadDir, rows, portal.subAccounts, 0, [overview], []);
    SubAccountsFirstFailure(shotDir, downloadDir, rows, portal.subAccounts, 0, k, [overview], []);
  }

  /** The statement download as written at src/browser/pages.py:122 behaves as a download step
      that raises the TypeError of a plain `with`: a sub-account with a statement row, reached
      after every earlier sub-account finished, makes the whole account FAILED with that
      message. */
  lemma AsWrittenDownloadFailsAccount(outputs: Config.OutputConfig, account: ExcelReader.AccountRecord, portal: Portal,
                                      rows: seq<Pages.RowTexts>, k: nat, anyDownload: Step)
    requires BeforeOtp(portal).Done? && portal.submit.Done? && portal.summaryWait.Done?
    requires portal.overviewWait.Done? && portal.overviewShot.Done?
    requires var otp := portal.poll(Recipient(account)); otp.Success? && otp.value.Some? && otp.value.value != ""
    requires portal.rows == Success(rows) && k < |rows|
    requires forall j | 0 <= j < k :: SubAccountError(portal.subAccounts(j)) == None
    requires var st := portal.subAccounts(k); st.wait.Done? && st.shot.Done? && st.openTab.Done? && st.statementDates != []
    requires portal.subAccounts(k).download == Raised(Pages.SyncWithOnAsyncManager)
    ensures var st := portal.subAccounts(k);
            var id := AccountId(Pages.AccountEntry(rows[k]));
            Pages.DownloadLatestStatementAsWritten(DownloadDir(outputs, account), id, st.statementDates, anyDownload)
            == Pages.DownloadLatestStatement(DownloadDir(outputs, account), id, st.statementDates, st.download)
    ensures OutcomeOf(outputs, account, portal) == Failed(account, Pages.SyncWithOnAsyncManager)
  {
    SubAccountRaisedOutcome(outputs, account, portal, rows, k);
  }

  /** The sub-account loop of `_process_account`: for each row, its screenshot, the statements
      tab and the latest statement, appended to what was gathered, until a step raises. */
  method GatherSubAccounts(screenshotDir: string, downloadDir: string, rows: seq<Pages.RowTexts>,
                           steps: nat -> SubAccountSteps, shots: seq<string>, statements: seq<string>)
    returns (r: Result<(seq<string>, seq<string>), string>)
    ensures r == SubAccountsFrom(screenshotDir, downloadDir, rows, steps, 0, shots, statements)
  {
    var screenshots, found := shots, statements;
    var entries := Pages.ListAccounts(rows);
    var index := 0;
    while index < |entries|
      invariant 0 <= index <= |entries| == |rows|
      invariant SubAccountsFrom(screenshotDir, downloadDir, rows, steps, 0, shots, statements)
                == SubAccountsFrom(screenshotDir, downloadDir, rows, steps, index, screenshots, found)
    {
      ghost var shots0, found0 := screenshots, found;
      assert entries[index] == Pages.AccountEntry(rows[index]);
      var accountId := AccountId(entries[index]);
      var st := steps(index);
      var shot := Pages.CaptureSummary(screenshotDir, accountId, st.wait, st.shot);
      if shot.Failure? {
        return Failure(shot.error);
      }
      screenshots := screenshots + [shot.value];
      if st.openTab.Raised? {
        return Failure(st.openTab.message);
      }
      var statement := Pages.DownloadLatestStatement(downloadDir, accountId, st.statementDates, st.download);
      if statement.Failure? {
        return Failure(statement.error);
      }
      if statement.value.Some? {
        found := found + [statement.value.value];
      }
      assert found == found0 + StatementOf(downloadDir, rows, steps, index);
      assert screenshots == shots0 + [Pages.SummaryPath(screenshotDir, accountId)];
      SubAccountStep(screenshotDir, downloadDir, rows, steps, index, shots0, found0);
      index := index + 1;
    }
    return Success((screenshots, found));
  }

  // ---------------------------------------------------------------- accounts and the limit

  /** `limit or (config.max_accounts if config.max_accounts > 0 else None)`. */
  function ResolveLimit(cli: Option<int>, maxAccounts: int): (r: Option<int>)
    ensures r != Some(0)
    ensures cli.Some? && cli.value != 0 ==> r == cli
    ensures (cli.None? || cli.value == 0) && maxAccounts > 0 ==> r == Some(maxAccounts)
    ensures (cli.None? || cli.value == 0) && maxAccounts <= 0 ==> r.None?
  {
    if cli.Some? && cli.value != 0 then cli
    else if maxAccounts > 0 then Some(maxAccounts)
    else None
  }

  /** How many of `n` accounts the loop in `run()` processes under a limit. */
  function ProcessedCount(limit: Option<int>, n: nat): (c: nat)
    ensures c <= n
  {
    if limit.None? || limit.value == 0 then n
    else if limit.value < 0 then 0
    else if limit.value < n then limit.value
    else n
  }

  /** No limit processes all accounts; a positive limit L processes min(L, n); a negative
      command-line limit, being truthy, stops the loop before the first account. */
  lemma ProcessedCountMeaning(cli: Option<int>, maxAccounts: int, n: nat)
    ensures var c := ProcessedCount(ResolveLimit(cli, maxAccounts), n);
            && ((cli.None? || cli.value == 0) && maxAccounts <= 0 ==> c == n)
            && (cli.Some? && cli.value > 0 ==> c == if cli.value < n then cli.value else n)
            && (cli.Some? && cli.value < 0 ==> c == 0)
            && ((cli.None? || cli.value == 0) && maxAccounts > 0 ==> c == if maxAccounts < n then maxAccounts else n)
  {
  }

  /** `[acc for acc in accounts if acc.username == single_account]`. */
  function SelectAccount(accounts: seq<ExcelReader.AccountRecord>, username: string): (r: seq<ExcelReader.AccountRecord>)
    ensures |r| <= |accounts|
    ensures forall a :: a in r <==> a in accounts && a.username == username
    decreases |accounts|
  {
    if accounts == [] then []
    else
      var rest := SelectAccount(accounts[1..], username);
      assert forall a :: a in accounts <==> a == accounts[0] || a in accounts[1..];
      if accounts[0].username == username then [accounts[0]] + rest else rest
  }

  /** Selecting keeps the records' input order. */
  lemma {:induction false} SelectAccountAppend(a: seq<ExcelReader.AccountRecord>, b: seq<ExcelReader.AccountRecord>, username: string)
    ensures SelectAccount(a + b, username) == SelectAccount(a, username) + SelectAccount(b, username)
    decreases |a|
  {
    if a == [] {
      assert a + b == b;
    } else {
      assert (a + b)[0] == a[0];
      assert (a + b)[1..] == a[1..] + b;
      SelectAccountAppend(a[1..], b, username);
    }
  }

  const NoAccountsMessage: string := "No accounts available for processing."

  /** Why `run()` raised. */
  datatype RunError = ReadFailed(error: ExcelReader.ReadError) | NoAccounts | Aborted(message: string)

  /** The accounts `_load_accounts()` returns. */
  function Loaded(path: string, workbook: Option<ExcelReader.Workbook>, singleAccount: Option<string>)
    : (r: Result<seq<ExcelReader.AccountRecord>, RunError>)
    ensures r.Success? ==> r.value != []
  {
    if workbook.None? then Failure(ReadFailed(ExcelReader.WorkbookNotFound(path)))
    else if ExcelReader.Missing(workbook.value.columns) != {} then
      Failure(ReadFailed(ExcelReader.MissingColumns(ExcelReader.Missing(workbook.value.columns))))
    else
      var all := ExcelReader.Kept(workbook.value.columns, workbook.value.rows);
      var accounts := if singleAccount.Some? && singleAccount.value != "" then SelectAccount(all, singleAccount.value) else all;
      if accounts == [] then Failure(NoAccounts) else Success(accounts)
  }

  /** An account filter that matches no record raises, as does an empty sheet. */
  lemma LoadedNoMatch(path: string, workbook: ExcelReader.Workbook, username: string)
    requires ExcelReader.Missing(workbook.columns) == {} && username != ""
    requires forall k | 0 <= k < |ExcelReader.Kept(workbook.columns, workbook.rows)| ::
               ExcelReader.Kept(workbook.columns, workbook.rows)[k].username != username
    ensures Loaded(path, Some(workbook), Some(username)) == Failure(NoAccounts)
  {
    SelectNone(ExcelReader.Kept(workbook.columns, workbook.rows), username);
  }

  lemma {:induction false} SelectNone(accounts: seq<ExcelReader.AccountRecord>, username: string)
    requires forall k | 0 <= k < |accounts| :: accounts[k].username != username
    ensures SelectAccount(accounts, username) == []
    decreases |accounts|
  {
    if accounts != [] {
      SelectNone(accounts[1..], username);
    }
  }

  /** The outcomes of the first `count` accounts. */
  function Outcomes(outputs: Config.OutputConfig, accounts: seq<ExcelReader.AccountRecord>, portals: nat -> Portal, count: nat)
    : (r: seq<AccountOutcome>)
    requires count <= |accounts|
    ensures |r| == count
    decreases count
  {
    if count == 0 then [] else Outcomes(outputs, accounts, portals, count - 1) + [OutcomeOf(outputs, accounts[count - 1], portals(count - 1))]
  }

  /** One outcome per account processed, in account order, each that account's outcome. */
  lemma {:induction false} OutcomesIndex(outputs: Config.OutputConfig, accounts: seq<ExcelReader.AccountRecord>,
                                         portals: nat -> Portal, count: nat)
    requires count <= |accounts|
    ensures forall i | 0 <= i < count ::
              Outcomes(outputs, accounts, portals, count)[i] == OutcomeOf(outputs, accounts[i], portals(i))
    decreases count
  {
    if count > 0 {
      OutcomesIndex(outputs, accounts, portals, count - 1);
      var prefix := Outcomes(outputs, accounts, portals, count - 1);
      assert Outcomes(outputs, accounts, portals, count)
             == prefix + [OutcomeOf(outputs, accounts[count - 1], portals(count - 1))];
    }
  }

  /** The result record of each outcome, in order. */
  function Records(outcomes: seq<AccountOutcome>): (r: seq<Results.ResultRecord>)
    ensures |r| == |outcomes|
    ensures forall i | 0 <= i < |outcomes| :: r[i] == ToResultRecord(outcomes[i])
  {
    seq(|outcomes|, i requires 0 <= i < |outcomes| => ToResultRecord(outcomes[i]))
  }

  lemma RecordsSnoc(outcomes: seq<AccountOutcome>, outcome: AccountOutcome)
    ensures Records(outcomes + [outcome]) == Records(outcomes) + [ToResultRecord(outcome)]
  {
    assert |Records(outcomes + [outcome])| == |Records(outcomes) + [ToResultRecord(outcome)]|;
  }

  // ---------------------------------------------------------------- the runner

  /** `AutomationRunner`. */
  class AutomationRunner {
    const config: Config.AppConfig
    const selectors: Config.Selectors
    const limit: Option<int>
    const singleAccount: Option<string>
    const mailbox: Mailbox.MailboxClient
    const writer: Results.ResultsWriter

    /** `AutomationRunner(config, selectors, headless_override, limit, single_account)`. The
        results file as it stands is `csvPresent` and `csvRows`. */
    constructor(config: Config.AppConfig, selectors: Config.Selectors, headlessOverride: Option<bool>,
                limit: Option<int>, singleAccount: Option<string>, csvPresent: bool, csvRows: seq<seq<string>>)
      requires !csvPresent ==> csvRows == []
      modifies config
      ensures this.config == config && this.selectors == selectors && this.singleAccount == singleAccount
      ensures this.limit == ResolveLimit(limit, old(config.maxAccounts))
      ensures headlessOverride.None? ==> config.Current() == old(config.Current())
      ensures headlessOverride.Some? ==>
                config.Current() == old(config.Current()).(browser := old(config.browser).(headless := headlessOverride.value))
      ensures config.selectors == old(config.selectors)
      ensures fresh(mailbox) && mailbox.config == config.mailbox && !mailbox.connected
      ensures fresh(writer) && writer.Valid() && writer.csvPath == config.outputs.resultsCsv
      ensures writer.present == csvPresent && writer.rows == csvRows
    {
      this.config := config;
      this.selectors := selectors;
      this.limit := if limit.Some? && limit.value != 0 then limit
                    else if config.maxAccounts > 0 then Some(config.maxAccounts)
                    else None;
      this.singleAccount := singleAccount;
      if headlessOverride.Some? {
        config.SetHeadless(headlessOverride.value);
      }
      mailbox := new Mailbox.MailboxClient(config.mailbox);
      writer := new Results.ResultsWriter(config.outputs.resultsCsv, csvPresent, csvRows);
    }

    /** `_load_accounts()`: reads the sheet, keeps the selected account when one is named, and
        raises when nothing is left. */
    method LoadAccounts(workbook: Option<ExcelReader.Workbook>) returns (r: Result<seq<ExcelReader.AccountRecord>, RunError>)
      ensures r == Loaded(config.excelPath, workbook, singleAccount)
    {
      var read := ExcelReader.Read(config.excelPath, workbook);
      if read.Failure? {
        return Failure(ReadFailed(read.error));
      }
      var accounts := read.value;
      if singleAccount.Some? && singleAccount.value != "" {
        accounts := SelectAccount(accounts, singleAccount.value);
      }
      if accounts == [] {
        return Failure(NoAccounts);
      }
      return Success(accounts);
    }

    /** `_process_account(account)`. */
    method ProcessAccount(account: ExcelReader.AccountRecord, portal: Portal) returns (outcome: AccountOutcome)
      ensures outcome == OutcomeOf(config.outputs, account, portal)
    {
      var screenshots: seq<string> := [];
      var statements: seq<string> := [];
      var downloadDir := Pages.JoinPath(config.outputs.statementsDir, account.username);
      var screenshotDir := Pages.JoinPath(config.outputs.screenshotsDir, account.username);
      if portal.openPage.Raised? {
        return Failed(account, portal.openPage.message);
      }
      if portal.goto.Raised? {
        return Failed(account, portal.goto.message);
      }
      if portal.login.Raised? {
        return Failed(account, portal.login.message);
      }
      if portal.otpInput.Raised? {
        return Failed(account, portal.otpInput.message);
      }
      var otp := portal.poll(if account.email.Some? && account.email.value != "" then account.email.value else account.username);
      if otp.Failure? {
        return Failed(account, otp.error);
      }
      if otp.value.None? || otp.value.value == "" {
        return AccountOutcome(account, StatusFailed, OtpTimeout, None, None);
      }
      if portal.submit.Raised? {
        return Failed(account, portal.submit.message);
      }
      if portal.summaryWait.Raised? {
        return Failed(account, portal.summaryWait.message);
      }
      var overview := Pages.CaptureSummary(screenshotDir, "overview", portal.overviewWait, portal.overviewShot);
      if overview.Failure? {
        return Failed(account, overview.error);
      }
      screenshots := screenshots + [overview.value];
      if portal.rows.Failure? {
        return Failed(account, portal.rows.error);
      }
      var rows := portal.rows.value;
      assert screenshots == [overview.value] && statements == [];
      assert AfterOtp(screenshotDir, downloadDir, portal)
             == SubAccountsFrom(screenshotDir, downloadDir, rows, portal.subAccounts, 0, screenshots, statements);
      var gathered := GatherSubAccounts(screenshotDir, downloadDir, rows, portal.subAccounts, screenshots, statements);
      if gathered.Failure? {
        return Failed(account, gathered.error);
      }
      screenshots, statements := gathered.value.0, gathered.value.1;
      return AccountOutcome(account, StatusSuccess, "", Some(screenshots), Some(statements));
    }

    /** The loop of `run()`: processes the accounts in order, stopping once the index passes the
        limit, and appends each outcome's row to the results log. */
    method ProcessAll(accounts: seq<ExcelReader.AccountRecord>, portals: nat -> Portal)
      returns (outcomes: seq<AccountOutcome>)
      requires writer.Valid()
      modifies writer
      ensures writer.Valid()
      ensures outcomes == Outcomes(config.outputs, accounts, portals, ProcessedCount(limit, |accounts|))
      ensures writer.rows == Results.Appended(old(writer.present), old(writer.rows), Records(outcomes))
      ensures writer.present == (old(writer.present) || outcomes != [])
    {
      ghost var present0, rows0 := writer.present, writer.rows;
      ghost var outputs := config.outputs;
      outcomes := [];
      var index := 0;
      while index < |accounts|
        invariant 0 <= index <= ProcessedCount(limit, |accounts|)
        invariant outcomes == Outcomes(outputs, accounts, portals, index)
        invariant writer.Valid()
        invariant writer.rows == Results.Appended(present0, rows0, Records(outcomes))
        invariant writer.present == (present0 || outcomes != [])
      {
        if limit.Some? && limit.value != 0 && index + 1 > limit.value {
          break;
        }
        var outcome := ProcessAccount(accounts[index], portals(index));
        assert Outcomes(outputs, accounts, portals, index + 1) == outcomes + [outcome];
        RecordsSnoc(outcomes, outcome);
        Results.AppendedSnoc(present0, rows0, Records(outcomes), ToResultRecord(outcome));
        outcomes := outcomes + [outcome];
        writer.Append(ToResultRecord(outcome));
        index := index + 1;
      }
    }

    /** `run()`: loads the accounts, starts the browser and opens the mailbox, then processes the
        accounts in order up to the limit, appending each outcome's row to the results log, and
        always closes the mailbox once it was opened. The returned outcomes are the list `run()`
        builds. */
    method Run(workbook: Option<ExcelReader.Workbook>, browserStart: Step, connect: Mailbox.ConnectSteps,
               portals: nat -> Portal)
      returns (r: Result<seq<AccountOutcome>, RunError>)
      requires writer.Valid()
      modifies writer, mailbox
      ensures writer.Valid()
      ensures var accounts := Loaded(config.excelPath, workbook, singleAccount);
              && (accounts.Failure? ==> r == Failure(accounts.error))
              && (accounts.Success? && browserStart.Raised? ==> r == Failure(Aborted(browserStart.message)))
              && (accounts.Success? && browserStart.Done? && connect.open.Raised? ==> r == Failure(Aborted(connect.open.message)))
              && (accounts.Success? && browserStart.Done? && connect.open.Done? && connect.login.Raised? ==>
                    r == Failure(Aborted(connect.login.message)))
              && (accounts.Success? && browserStart.Done? && connect.open.Done? && connect.login.Done? && connect.select.Raised? ==>
                    r == Failure(Aborted(connect.select.message)))
              && (accounts.Success? && browserStart.Done? && connect.open.Done? && connect.login.Done? && connect.select.Done? ==>
                    r.Success?)
      ensures r.Failure? ==> writer.rows == old(writer.rows) && writer.present == old(writer.present)
      ensures r.Failure? ==> mailbox.connected == (old(mailbox.connected) || (r.error.Aborted? && connect.open.Done? && browserStart.Done?))
      ensures r.Success? ==>
                && var accounts := Loaded(config.excelPath, workbook, singleAccount).value;
                && Loaded(config.excelPath, workbook, singleAccount).Success?
                && browserStart.Done? && connect.open.Done? && connect.login.Done? && connect.select.Done?
                && r.value == Outcomes(config.outputs, accounts, portals, ProcessedCount(limit, |accounts|))
                && writer.rows == Results.Appended(old(writer.present), old(writer.rows), Records(r.value))
                && writer.present == (old(writer.present) || r.value != [])
                && !mailbox.connected
    {
      var loaded := LoadAccounts(workbook);
      if loaded.Failure? {
        return Failure(loaded.error);
      }
      var accounts := loaded.value;
      if browserStart.Raised? {
        return Failure(Aborted(browserStart.message));
      }
      var entered := mailbox.Enter(connect);
      if entered.Raised? {
        return Failure(Aborted(entered.message));
      }
      var outcomes := ProcessAll(accounts, portals);
      mailbox.Exit();
      return Success(outcomes);
    }
  }
}
