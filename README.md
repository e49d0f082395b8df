# Automation-SDPVI core, modelled in Dafny

Automation-SDPVI runs a banking portal through a browser, once for each test account.

For each account it does the following:

- reads the account's credentials from a spreadsheet;
- logs in;
- waits for a one-time password (OTP) to arrive by e-mail, over IMAP;
- takes the OTP code out of that message and submits it;
- takes screenshots of the account summary;
- downloads the latest statement of every sub-account;
- appends one row per account to a CSV results log.

The repository also holds a second driver, `bcp_central.py`. It searches a public data portal for named reports and downloads them.

This project models the pure decisions and the stateful objects of that core.

The pure decisions are datatypes and functions, each with lemmas about what it means:

- OTP extraction;
- redaction;
- configuration loading and coercion;
- slugs and file names;
- IMAP search criteria and dates;
- the outcome of one account.

The stateful objects are Dafny classes:

- `AppConfig`;
- `MailboxClient`, with its connection;
- `ResultsWriter`, with the rows of its CSV file;
- `AutomationRunner`.

The methods of these classes are proved against specification functions.

## Treatment of the outside world

Everything outside the program is an input value:

- The browser is a `Portal` value. It gives the outcome of each awaited step: `Done`, or `Raised(message)` with the text of the exception.
- The IMAP server is a `Server` value. It has a search function and a fetch function.
- The clock is a list of round durations, counted in milliseconds.
- The environment and the `.env` file are maps.
- The spreadsheet is an optional `Workbook`.
- The CSV file is a flag saying whether it exists and the rows it holds.

Regular-expression engines, `re.escape` and `quote_plus` are function parameters. The model fixes what the code does with their results, not how they work inside.

Modules:

| module | what it holds |
|---|---|
| `Wrappers` | `Option`, `Result`, and the `Step` outcome of an awaited call |
| `Text` | ASCII text helpers with their laws (`strip`, `lower`, `split`, `join`, `replace`, decimal digits) |
| `OtpParser` | `src/email/parser.py` |
| `Security` | `src/utils/security.py` |
| `Config` | `src/utils/config.py` |
| `Mailbox` | `src/email/mailbox_client.py` |
| `ExcelReader` | `src/io/excel_reader.py` |
| `Results` | `src/io/results_writer.py` |
| `Pages` | the decisions in `src/browser/pages.py` |
| `Runner` | `src/runner.py` |
| `BcpCentral` | the pure helpers and the failure collection of `src/bcp_central.py` |

## Model

| member | source | states |
|---|---|---|
| OtpParser.FirstMatchFrom | src/email/parser.py:13-14 | the leftmost position at or after the start where a six-digit word-bounded code begins, or none when there is no such position |
| OtpParser.ExtractOtpFromText | src/email/parser.py:10-17 | empty text gives None. The result is None exactly when the default pattern matches nowhere. A code found is six digits, taken from the leftmost match, and is not preceded or followed by a word character |
| OtpParser.TextBodies | src/email/parser.py:22-27 | a multipart message yields at most one body per part |
| OtpParser.FirstOtpNone | src/email/parser.py:33-37 | scanning the payloads gives None exactly when no payload holds a code |
| OtpParser.FirstOtpSome | src/email/parser.py:33-36 | a code found is the code of the first payload that holds one, and every earlier payload holds none |
| OtpParser.LaterPayloadsIgnored | src/email/parser.py:33-36 | once a payload holds a code, the payloads after it do not change the result |
| OtpParser.NonTextPartIgnored | src/email/parser.py:22-27 | a part that is not text/plain or text/html does not change the result |
| OtpParser.TextBodiesAppend | src/email/parser.py:22-27 | the parts are walked in order: the bodies of two runs of parts are those of the first run followed by those of the second |
| OtpParser.MultipartFirstMatch | src/email/parser.py:20-36 | a multipart message whose first text part holds a code gives that code, whatever follows |
| OtpParser.NoOtpInBodies | src/email/parser.py:37 | a message none of whose bodies holds a code gives None |
| OtpParser.SkipEmptyPrefix | src/email/parser.py:33-36 | payloads without a code that come before a payload with one are skipped |
| OtpParser.NoDigitNoOtp | src/email/parser.py:14-17 | text without a digit never yields a code |
| OtpParser.CodeAfterDigitFreeText | src/email/parser.py:14-16 | six digits after a prefix without digits, followed by a non-word character or the end, are the code found |
| OtpParser.DefaultPatternFindsCode | tests/test_parser.py:6-7 | "Your code is 123456. Do not share." gives "123456" |
| OtpParser.NoCodeGivesNone | tests/test_parser.py:10-11 | text without a six-digit code gives None |
| OtpParser.SinglePartMailGivesCode | tests/test_parser.py:14-17 | a single-part text message "OTP: 654321" gives "654321" |
| Security.Redaction.Redact | src/utils/security.py:12-17 | a missing value, or one of at most four characters, becomes the mask. A longer value becomes its first two characters, the mask, and its last two characters |
| Security.RedactDict | src/utils/security.py:20-26 | the keys are kept. A sensitive key, compared in lower case, has its value redacted. Every other value is kept |
| Security.RedactHidesTheMiddle | src/utils/security.py:15-17 | two values that are both short, or that share their first two and last two characters, redact to the same text, so nothing of the middle is revealed |
| Security.SensitivityIgnoresCase | src/utils/security.py:24 | whether a key is sensitive does not depend on its case |
| Security.PasswordInAnyCase | src/utils/security.py:24 | the keys "PASSWORD" and "Password" have their values redacted with the default mask |
| Security.RedactIdempotent | src/utils/security.py:12-17 | redacting a redacted value changes nothing, for masks of one to four characters |
| Security.RedactDictIdempotent | src/utils/security.py:20-26 | redacting a redacted dictionary with the default mask changes nothing |
| BcpCentral.Dedupe | src/bcp_central.py:77 | the result has no duplicates and holds exactly the elements of the input |
| BcpCentral.DedupeKeepsOrder | src/bcp_central.py:77 | elements come out in the order of their first occurrence |
| BcpCentral.EnvReports | src/bcp_central.py:74 | every name taken from the pipe-separated REPORTS variable is non-empty and already stripped |
| BcpCentral.SegmentsKeptAppend | src/bcp_central.py:74 | the segments are taken one by one, in order: two blocks of segments give the names of the first, then those of the second |
| BcpCentral.SegmentsKeptOne | src/bcp_central.py:74 | one segment gives its stripped text, or nothing when that is empty |
| BcpCentral.SegmentsKeptMembers | src/bcp_central.py:74 | a name is kept exactly when it is the non-empty stripped text of some segment |
| BcpCentral.EnvReportsOfJoin | src/bcp_central.py:74 | a REPORTS value made of segments joined by the pipe character gives back the stripped non-empty segments, in order |
| BcpCentral.MergeReportsContents | src/bcp_central.py:75-78 | the merged list has no duplicates. With any names, it holds exactly the CLI names and the given names. With none, it is the default reports |
| BcpCentral.ParseReportsContents | src/bcp_central.py:72-78 | the result has no duplicates. With any names given, it holds exactly the CLI names and the names from the environment. With none, it is the two default reports |
| BcpCentral.CliNamesFirst | src/bcp_central.py:75-77 | every CLI name comes before every name that is only in the environment |
| BcpCentral.ParseReportsNonEmpty | src/bcp_central.py:76-78 | the report list is never empty |
| BcpCentral.BuildSearchUrl | src/bcp_central.py:81-86 | a template without the placeholder gets the encoded query appended. A template with it has every occurrence of the placeholder replaced by the encoded query |
| BcpCentral.PlaceholderAtEnd | src/bcp_central.py:84-85 | a template whose only placeholder comes at the end gives the text before it followed by the encoded query |
| BcpCentral.DefaultSearchUrl | src/bcp_central.py:27-30 | with the default template, the URL is the search address followed by the encoded query |
| BcpCentral.SanitizeFilename | src/bcp_central.py:89-92 | the result is a slug: non-empty, only lower-case letters, digits and single dashes, with no dash at either end |
| BcpCentral.AlnumsOfCollapse | src/bcp_central.py:91 | the substitution replaces only characters outside `[A-Za-z0-9]`: the alphanumerics of its result are those of the label, in order |
| BcpCentral.SanitizeKeepsAlnums | src/bcp_central.py:89-92 | a label without any character of `[A-Za-z0-9]` gives "report". Otherwise the characters of the result other than dashes are the label's alphanumerics, lower-cased, in order |
| BcpCentral.CollapseThreeWords | src/bcp_central.py:91 | three alphanumeric words separated by single spaces become the words joined by dashes |
| BcpCentral.SanitizeExample | src/bcp_central.py:89-92 | "Annual Report 2024" becomes "annual-report-2024" |
| BcpCentral.SanitizeOfSlug | src/bcp_central.py:89-92 | a slug is left unchanged |
| BcpCentral.SanitizeIdempotent | src/bcp_central.py:89-92 | sanitizing twice is sanitizing once |
| BcpCentral.DestinationKeepsExtension | src/bcp_central.py:182-188 | the saved name's suffix is the suggested one, or ".dat" when there is none. Its stem is the slug of the suggested stem, or of the title when that stem is empty |
| BcpCentral.DestinationOfSlug | src/bcp_central.py:182-188 | a suggested name that is already a slug followed by an extension is saved under that same name |
| BcpCentral.UnsuggestedDownloadName | src/bcp_central.py:210-211 | with no suggested name, the file is saved as the slug of the report title with ".dat" |
| BcpCentral.FuzzyTokens | src/bcp_central.py:132 | the tokens are the first five white-space separated words of the title, or all of them when there are fewer |
| BcpCentral.FuzzyRegexUsesLeadingTokens | src/bcp_central.py:130-136 | a title without words gives the escaped title. Otherwise the pattern joins the escaped leading tokens with ".*". The words hold every character of the title but white space |
| BcpCentral.FindDatasetLink | src/bcp_central.py:139-151 | the link found is a link of the page. When some link matches the escaped title, the leftmost such link is chosen. When none does, the lookup succeeds exactly when a link matches the fuzzy pattern, and then gives the leftmost one. A failure is the not-found error |
| BcpCentral.FirstMatching | src/bcp_central.py:142 | the first link whose text matches, or none exactly when no link matches |
| BcpCentral.FindDatasetLinkChoice | src/bcp_central.py:139-151 | an exact match, when one exists, is the link chosen. The lookup fails exactly when no link matches either the exact or the fuzzy pattern |
| BcpCentral.CollectFailures | src/bcp_central.py:239-253 | the failures are the failed reports with their messages, in order. The exit code is 1 exactly when there is a failure |
| BcpCentral.FailuresAreTheFailedReports | src/bcp_central.py:239-245 | a report is listed as failed exactly when its processing raised |
| Pages.BaseNameOfJoin | src/browser/pages.py:87 | joining a directory and a name without a separator leaves that name as the last path component |
| Pages.ReadError | src/browser/pages.py:58-64 | no banner selector, or no banner on the page, gives None. One banner gives its text. Several banners raise the strict-locator error |
| Pages.CaptureSummary | src/browser/pages.py:84-90 | the screenshot path is `<dir>/<account id>_summary.png`, returned once the wait and the screenshot succeed. A failing step raises its error |
| Pages.ListAccounts | src/browser/pages.py:92-105 | one entry per row, in order. Each entry has exactly the keys name, number and balance, holding that row's texts |
| Pages.SafeDate | src/browser/pages.py:120 | has the length of the date text, keeps every letter and digit in place, and turns everything else into "_" |
| Pages.SafeDateIdempotent | src/browser/pages.py:120 | making a safe date safe again changes nothing |
| Pages.SafeDateExample | src/browser/pages.py:120 | "12/05/2024" becomes "12_05_2024" |
| Pages.DownloadLatestStatement | src/browser/pages.py:111-127 | with the download awaited through `async with`: no statement rows gives None. Otherwise the statement of the first row is saved as `<dir>/<account id>_<safe date>.pdf`, and a failing step raises its error |
| Pages.DownloadLatestStatementAsWritten | src/browser/pages.py:111-122 | as written: no statement rows gives None, and any statement row raises the TypeError of a plain `with` on the asynchronous event context manager |
| Pages.DownloadAsWrittenDiffers | src/browser/pages.py:122-127 | one statement row whose download succeeds is saved by the `async with` form, while the form as written raises |
| Pages.OnlyFirstRowMatters | src/browser/pages.py:117-119 | rows after the first never change the download |
| Pages.StatementFileName | src/browser/pages.py:125 | for an account id without '/', the saved file's name is the account id, "_", and the safe date, with suffix ".pdf" |
| Config.CoerceBoolIgnoresCaseAndPadding | src/utils/config.py:70-73 | a text is true exactly when, stripped and lower-cased, it is one of "1", "true", "yes", "y"; padding with white space does not change it |
| Config.CoerceBoolTrueExamples | src/utils/config.py:73 | " Yes " and "TRUE" are true |
| Config.CoerceBoolFalseExamples | src/utils/config.py:73 | "0", "no" and "" are false |
| Config.ParseIntRoundTrip | src/utils/config.py:102 | the decimal text of any integer, optionally signed or padded, parses back to that integer |
| Config.ParseIntRefuses | src/utils/config.py:102 | "", "abc" and "-" are refused, as `int()` raises ValueError on them |
| Config.IntSettingReadsDecimal | src/utils/config.py:102 | a present integer setting that holds an integer in decimal, padded with spaces or not, gives that integer, whatever the default |
| Config.IntSettingRefusesOrDefaults | src/utils/config.py:102 | a present setting that is empty, a word or a bare sign is refused with the `int()` error naming it. A missing setting takes its default |
| Config.MergedEnv | src/utils/config.py:85-93 | the keys of the merged environment are those of the file and of the process environment |
| Config.OverlayPrecedence | src/utils/config.py:93 | a process variable wins over the file. A key only in the file keeps its value. A key in neither is absent |
| Config.RequiredLookup | src/utils/config.py:76-80 | a required key is found exactly when one of the two sources has it, and the process value is used. A key in neither raises "Missing required configuration key" with its name |
| Config.MissingRequiredKeyFails | src/utils/config.py:95-101 | loading stops at the first required key that is missing, with that key's error |
| Config.MailboxDefaults | src/utils/config.py:98-108 | the mailbox defaults are port 993, folder INBOX, no sender filter, the six-digit word pattern and a 60-second timeout |
| Config.BrowserDefaults | src/utils/config.py:110-115 | the browser defaults are headless, a 30-second download wait and a 1280×720 viewport |
| Config.OutputDefaults | src/utils/config.py:117-123 | the output paths default to the outputs directory and its subpaths |
| Config.Defaults | src/utils/config.py:95-133 | with only the required keys set, loading succeeds with every default, log level INFO and no account maximum |
| Config.AppConfig.constructor | src/utils/config.py:50-57 | a new configuration holds the settings given and no selectors |
| Config.AppConfig.SelectorsConfig | src/utils/config.py:59-64 | in the corrected class, which declares a `_selectors` field: unset selectors raise "Selectors configuration not loaded". Otherwise the result is the selectors set |
| Config.AppConfig.SetSelectors | src/utils/config.py:66-67 | in the corrected class: the selectors become the ones given, and nothing else changes |
| Config.SetSlot | src/utils/config.py:49-57 | an attribute of a slotted `AppConfig` can be assigned exactly when it is one of the seven declared fields. Any other name raises AttributeError |
| Config.AppConfig.SetSelectorsAsWritten | src/utils/config.py:66-67 | as written, `set_selectors` always raises AttributeError for `_selectors` |
| Config.SelectorsConfigAsWritten | src/utils/config.py:59-64 | as written, `selectors_config` raises "Selectors configuration not loaded" whatever was stored |
| Config.StoreSelectorsAsWritten | src/__main__.py:46-47 | as written, storing the selectors raises, and reading them back would fail too |
| Config.StoreSelectors | src/__main__.py:46-47 | with the corrected class, the selectors read back are exactly those stored, and the settings do not change |
| Config.AppConfig.SetHeadless | src/runner.py:58-59 | only the headless flag of the browser settings changes |
| Config.LoadConfig | src/utils/config.py:83-137 | a failed load reports its error. A successful one yields a fresh configuration that holds the loaded settings and no selectors |
| Mailbox.FormatImapDateRoundTrip | src/email/mailbox_client.py:46 | the `%d-%b-%Y` text of a calendar date parses back to that date |
| Mailbox.FormatImapDateShape | src/email/mailbox_client.py:46 | the text is two digits, "-", a three-letter month, "-", and four digits, the date form of RFC 3501 section 9 |
| Mailbox.FormatImapDateExample | src/email/mailbox_client.py:46 | 5 March 2024 is "05-Mar-2024" |
| Mailbox.CriteriaMeaning | src/email/mailbox_client.py:43-51 | the criteria start with UNSEEN, followed by one pair per truthy argument in the order SINCE, FROM, TO. Each pair holds the date text, the sender filter or the recipient |
| Mailbox.MaxUid | src/email/mailbox_client.py:64 | the UID chosen is one of those found and is not smaller than any of them |
| Mailbox.OnlyNewestMessageMatters | src/email/mailbox_client.py:64-68 | the code comes from the newest matching message, whatever the other messages hold |
| Mailbox.NoMatchNoOtp | src/email/mailbox_client.py:58-61 | no matching UID gives None without any fetch |
| Mailbox.PollFindsFirst | src/email/mailbox_client.py:89-93 | a code found is the answer of some round started before the deadline, and every earlier round found none |
| Mailbox.PollTimesOut | src/email/mailbox_client.py:89-97 | when no round before the deadline finds a code, polling gives None |
| Mailbox.PollNoneFound | src/email/mailbox_client.py:89-97 | conversely, polling that gives None without raising had every round before the deadline find no code |
| Mailbox.NoTimeNoPoll | src/email/mailbox_client.py:89-90 | a deadline that is not positive gives None without any round |
| Mailbox.MailboxClient.constructor | src/email/mailbox_client.py:19-21 | a new client keeps its configuration and is not connected |
| Mailbox.MailboxClient.Connect | src/email/mailbox_client.py:23-27 | the client holds a connection once it is created, even when login or folder selection then fails. The step raised is the first failing one of open, login, select |
| Mailbox.MailboxClient.Disconnect | src/email/mailbox_client.py:29-34 | the client is no longer connected, whether or not it was |
| Mailbox.MailboxClient.Enter | src/email/mailbox_client.py:36-38 | entering the context connects, with the same steps and errors |
| Mailbox.MailboxClient.Exit | src/email/mailbox_client.py:40-41 | leaving the context disconnects |
| Mailbox.MailboxClient.SearchQuery | src/email/mailbox_client.py:43-51 | the criteria built are those of the client's sender filter and the given date and recipient |
| Mailbox.MailboxClient.FetchLatestOtp | src/email/mailbox_client.py:53-73 | without a connection it raises "IMAP client not connected". Otherwise the result is the code of the newest matching message, or None |
| Mailbox.MailboxClient.AssertConnected | src/email/mailbox_client.py:81-83 | it passes exactly when the client is connected |
| Mailbox.MailboxClient.PollForOtp | src/email/mailbox_client.py:85-97 | without a connection it raises. Otherwise the result is that of the polling specification, round by round, up to the deadline |
| ExcelReader.LowerColumns | src/io/excel_reader.py:34 | the names are exactly the lower-cased column names |
| ExcelReader.Missing | src/io/excel_reader.py:33-36 | a required column is missing exactly when no column equals it after lowering its case |
| ExcelReader.Metadata | src/io/excel_reader.py:48-52 | the metadata holds exactly the non-empty cells of the columns other than username and password, untrimmed |
| ExcelReader.NormalizeRow | src/io/excel_reader.py:42-59 | a row is skipped exactly when its stripped username or password is empty. A kept row gives the stripped fields, the email when non-empty, and the metadata when non-empty |
| ExcelReader.KeptAppend | src/io/excel_reader.py:40-61 | the rows are read in order, each independently of the others |
| ExcelReader.KeptBounds | src/io/excel_reader.py:40-61 | there are no more records than rows, and exactly as many when no row is skipped. Every username and password is non-empty and trimmed |
| ExcelReader.Read | src/io/excel_reader.py:26-64 | a missing workbook raises not-found. A required column missing raises an error naming it. Otherwise the records are those of the kept rows, in order |
| Results.PathsRoundTrip | src/io/results_writer.py:46-47 | a list of non-empty paths without ';' reads back from its field unchanged |
| Results.RowRoundTrip | src/io/results_writer.py:39-49 | every row has the header's five fields and reads back as the result written |
| Results.EmptyListsAreEmptyFields | src/io/results_writer.py:46-47 | no screenshots and no statements are written as empty fields |
| Results.AppendedShape | src/io/results_writer.py:36-53 | after appending, the file starts with the header, keeps the rows already there, and has one row per result, in order |
| Results.AppendedSnoc | src/io/results_writer.py:51-53 | appending a list followed by one more result is appending the list and then that result |
| Results.ResultsWriter.constructor | src/io/results_writer.py:25-26 | a writer opens on the file at its path as it stands |
| Results.ResultsWriter.Initialize | src/io/results_writer.py:28-34 | a missing file is created with the header alone. A present file is not touched |
| Results.ResultsWriter.Append | src/io/results_writer.py:36-49 | the file is initialized, then the result's row is added after the rows there |
| Results.ResultsWriter.AppendMany | src/io/results_writer.py:51-53 | the rows are those of appending each result in turn. The file exists afterwards exactly when it did before or a result was given |
| Runner.ToResultRecord | src/runner.py:35-42 | the record keeps the username, status and details. Absent lists become empty lists |
| Runner.Recipient | src/runner.py:126 | the OTP is awaited for the email when it is non-empty, and for the username otherwise |
| Runner.OutcomeClassified | src/runner.py:105-158 | every outcome is for its account. It is either SUCCESS, with empty details and both path lists, or FAILED, with neither list |
| Runner.OtpTimeoutOutcome | src/runner.py:129-132 | a poll that finds no code fails the account with "OTP timeout", and its result row has empty path lists |
| Runner.RaisedBeforeOtpOutcome | src/runner.py:156-158 | a step that raises before the OTP fails the account with that step's message |
| Runner.PollRaisedOutcome | src/runner.py:156-158 | a mailbox error while polling fails the account with that error |
| Runner.RaisedAfterOtpOutcome | src/runner.py:134-158 | once a code has arrived, the first raising step fails the account with its message and no artifacts. The steps are submitting the OTP, waiting for the summary, waiting for and taking the overview screenshot, and listing the rows |
| Runner.GatherSubAccounts | src/runner.py:143-152 | the loop over the sub-account rows gives the sub-account specification's result. See SubAccountsGather and SubAccountsFirstFailure for what that is |
| Runner.SubAccountsFirstFailure | src/runner.py:143-152 | when the sub-accounts before the k-th raise nothing and the k-th raises, the loop fails with that message, whatever was gathered before |
| Runner.SubAccountRaisedOutcome | src/runner.py:143-158 | when every step up to the rows finishes and sub-account k is the first to raise, the account fails with that sub-account's message and no artifacts. The sub-account's steps are its wait, screenshot, opening the tab, and the download when a statement is listed |
| Runner.AsWrittenDownloadFailsAccount | src/browser/pages.py:122 | the download as written behaves as a download step raising the TypeError of a plain `with`. A sub-account with a statement row, reached after the earlier ones finished, fails the whole account with that message |
| Runner.PollForRecipientOnly | src/runner.py:124-128 | the outcome depends on the mailbox only through its answer for the account's recipient |
| Runner.AccountIdMeaning | src/runner.py:145 | the sub-account id is its number, or "unknown" without one, with each space turned into "_" and every other character kept in place. It holds no space |
| Runner.ShotsBetweenIndex | src/runner.py:144-147 | one screenshot per sub-account, each named after that sub-account's id |
| Runner.SubAccountStep | src/runner.py:144-152 | a sub-account none of whose steps raises adds its screenshot and, when a statement was downloaded, its statement |
| Runner.SubAccountsGather | src/runner.py:143-152 | when every sub-account succeeds, the loop adds every screenshot and the statements found, in order |
| Runner.SuccessArtifacts | src/runner.py:140-155 | when every step succeeds, the outcome is SUCCESS. Its screenshots are the overview followed by one per sub-account, and its statements are those downloaded |
| Runner.NoSubAccounts | src/runner.py:140-155 | with no sub-accounts, success has the overview screenshot alone and no statements |
| Runner.ResolveLimit | src/runner.py:56 | a non-zero CLI limit wins. Otherwise a positive maximum applies. Otherwise there is no limit. A limit is never 0 |
| Runner.ProcessedCount | src/runner.py:73-76 | never more accounts than are loaded |
| Runner.ProcessedCountMeaning | src/runner.py:73-76 | a positive CLI limit, or without one a positive maximum, processes the first min(limit, n) accounts. A negative CLI limit processes none. With neither, all are processed |
| Runner.SelectAccount | src/runner.py:86-87 | keeps exactly the accounts with that username |
| Runner.SelectAccountAppend | src/runner.py:87 | the filter keeps the order of the accounts |
| Runner.Loaded | src/runner.py:83-90 | a successful load never yields an empty list |
| Runner.LoadedNoMatch | src/runner.py:86-89 | filtering on a username no account has raises "No accounts available for processing." |
| Runner.OutcomesIndex | src/runner.py:72-78 | one outcome per processed account, in order, each the outcome of that account |
| Runner.Records | src/runner.py:79 | one result record per outcome, in order |
| Runner.AutomationRunner.constructor | src/runner.py:46-63 | the limit is resolved. An override sets only the headless flag. A fresh disconnected mailbox client and a writer on the results CSV are made |
| Runner.AutomationRunner.LoadAccounts | src/runner.py:83-90 | the accounts loaded are those of the loading specification, with its errors |
| Runner.AutomationRunner.ProcessAccount | src/runner.py:105-158 | the outcome is that of the account-outcome specification for that account and portal. By the lemmas above, that means SUCCESS with the gathered artifacts when every step finishes, "OTP timeout" without a code, and otherwise FAILED with the message of the first raising step, before or after the OTP |
| Runner.AutomationRunner.ProcessAll | src/runner.py:72-79 | the loop processes accounts up to the limit, and the log gains one row per outcome, in order. The results file exists afterwards exactly when it did before or an account was processed |
| Runner.AutomationRunner.Run | src/runner.py:65-81 | a load failure, or the first failing step of starting the browser and opening, logging in to and selecting the mailbox, stops the run with that error before any row is written. When all of them succeed, the run succeeds: its outcomes are those of the processed accounts, the log holds one row per outcome, the file exists exactly when it did or an outcome was logged, and the mailbox is disconnected |

## Findings

| source | as written | input that shows it | evidently intended | confidence | as-written member | corrected member |
|---|---|---|---|---|---|---|
| src/utils/config.py:49-67 | `AppConfig` is `@dataclass(slots=True)` and declares no `_selectors` field. So `set_selectors` raises AttributeError, and `selectors_config` raises on every instance | any configuration: `config.set_selectors(selectors)` at src/__main__.py:47 raises before the runner is built | the selectors stored are the ones read back | high; not executed | Config.StoreSelectorsAsWritten | Config.StoreSelectors |
| src/browser/pages.py:122 | a plain `with` around `expect_download()` of an asynchronous Playwright page, whose event context manager has only `__aenter__` and `__aexit__` | a sub-account with one statement row: the call raises TypeError, and the whole account ends FAILED with that message (Runner.AsWrittenDownloadFailsAccount) | `async with`, as `download_resource` does at src/bcp_central.py:207 | high; not executed | Pages.DownloadAsWrittenDiffers | Pages.DownloadLatestStatement |

The rest of the model uses the corrected members: the runner downloads statements with `Pages.DownloadLatestStatement`, and `AppConfig` keeps its selectors.

## Specification functions

These functions define what the source computes and carry no contract of their own. The rows above that state their meaning are named here.

- BcpCentral.ParseReports (src/bcp_central.py:72-78): ParseReportsContents, CliNamesFirst, ParseReportsNonEmpty.
- BcpCentral.MergeReports (src/bcp_central.py:75-78): MergeReportsContents.
- BcpCentral.BuildDestinationFilename (src/bcp_central.py:182-188): DestinationKeepsExtension, DestinationOfSlug.
- BcpCentral.DownloadFileName (src/bcp_central.py:210-211): UnsuggestedDownloadName, and DestinationKeepsExtension for a suggested name.
- BcpCentral.BuildFuzzyRegex (src/bcp_central.py:130-136): FuzzyRegexUsesLeadingTokens.
- OtpParser.ExtractOtpFromEmail (src/email/parser.py:20-37): MultipartFirstMatch, NoOtpInBodies, SinglePartMailGivesCode.
- OtpParser.Payloads (src/email/parser.py:20-31): TextBodies, TextBodiesAppend, NonTextPartIgnored.
- Config.CoerceBool (src/utils/config.py:70-73): CoerceBoolIgnoresCaseAndPadding, CoerceBoolTrueExamples, CoerceBoolFalseExamples.
- Config.GetEnv (src/utils/config.py:76-80): RequiredLookup.
- Config.ParseInt (src/utils/config.py:102): ParseIntRoundTrip, ParseIntRefuses.
- Config.IntSetting (src/utils/config.py:102): IntSettingReadsDecimal, IntSettingRefusesOrDefaults.
- Config.LoadSettings (src/utils/config.py:95-133): Defaults, MissingRequiredKeyFails, LoadConfig.
- Mailbox.Criteria (src/email/mailbox_client.py:43-51): CriteriaMeaning.
- Mailbox.LatestOtp (src/email/mailbox_client.py:58-73): MaxUid, OnlyNewestMessageMatters, NoMatchNoOtp, MailboxClient.FetchLatestOtp.
- Mailbox.PollFrom (src/email/mailbox_client.py:85-97): PollFindsFirst, PollTimesOut, PollNoneFound, NoTimeNoPoll, MailboxClient.PollForOtp.
- Mailbox.FormatImapDate (src/email/mailbox_client.py:46): FormatImapDateRoundTrip, FormatImapDateShape, FormatImapDateExample.
- Pages.SummaryPath (src/browser/pages.py:87): CaptureSummary, BaseNameOfJoin, Runner.ShotsBetweenIndex.
- Pages.StatementPath (src/browser/pages.py:125): StatementFileName, DownloadLatestStatement.
- Results.RowOf (src/io/results_writer.py:39-49): RowRoundTrip, EmptyListsAreEmptyFields.
- Runner.AccountId (src/runner.py:145): AccountIdMeaning.
- Runner.OutcomeOf (src/runner.py:105-158): OutcomeClassified, OtpTimeoutOutcome, RaisedBeforeOtpOutcome, PollRaisedOutcome, RaisedAfterOtpOutcome, SubAccountRaisedOutcome, AsWrittenDownloadFailsAccount, SuccessArtifacts, NoSubAccounts, AutomationRunner.ProcessAccount.

## Left out

- Browsers and pages. Playwright is not modelled, and neither is `src/browser/browser_manager.py`. Each awaited browser call is one `Step` value of the `Portal` input: starting and stopping the browser, opening a page, navigation, filling and clicking, waiting for selectors, screenshots and downloads. Closing contexts and the `finally` that stops the browser are not modelled.
- The IMAP network. There is no socket, TLS, MIME parsing or charset decoding. A message is either a single part or a sequence of parts, each with a content type and its decoded text.
- A custom OTP pattern. The OTP is found only with the default six-digit pattern. The `otp_regex` setting is loaded, but the parser model ignores it, because a general regular-expression engine is not modelled.
- Python's `re`, `re.escape`, `quote_plus` and case-insensitive matching. They are function parameters whose inner behaviour is not modelled.
- Unicode. Character classes (digits, letters, white space, case) are ASCII only.
- Floating point and real time. `poll_interval`, a float, is not modelled, so the ValueError `float()` raises on a malformed IMAP_POLL_INTERVAL is not modelled either, and neither is `time.sleep`. Each polling round takes a positive number of milliseconds given as input. This replaces `datetime.now()` and the five-second skew subtracted at the OTP request.
- Mailbox.MailboxClient.AssertConnected: the tenacity retry, which waits 2 seconds for up to 10, is modelled as a single check. Nothing in the client can connect it while it waits.
- Mailbox.FormatImapDateShape: holds only for years from 1000 on. `%Y` would print fewer digits for earlier years.
- Security.RedactIdempotent: holds only for masks of one to four characters. A longer mask is itself redacted around its middle.
- `asyncio.to_thread`. The poll runs on a thread in the source and is modelled as a synchronous call.
- Logging, argument parsing and `__main__.py`.
- Creating directories (`mkdir`, `ensure_directories`), and `Path.resolve()`. Paths are kept as the text given.
- `dotenv`. A key with no value in the `.env` file is treated like any other text.
- Spreadsheets. pandas and openpyxl reading are not modelled. The workbook arrives with every cell as text and empty cells as "".
  - Non-text cells are not modelled.
  - If two columns have the same name once lowered, the last one is kept without a check.
  - The optional sheet name is not modelled.
  - `iter_accounts` is `read` and is not modelled separately.
- ExcelReader.Read: the missing-columns error carries the set of missing names, not the Python rendering of that set in the message.
- CSV quoting and the `csv` module. A row is a sequence of fields.
- Config.ParseInt: accepts ASCII decimal integers with an optional sign and padding. Underscores and non-ASCII digits, which `int()` also accepts, are left out.
- BcpCentral.SavedExtension: the suffix rule of `pathlib` is modelled for names that are not `.`-only. The Python 3.14 changes to suffix handling are not.
- Pages.DownloadLatestStatement and Pages.DownloadLatestStatementAsWritten: counting the statement rows and reading the first row's date cell (src/browser/pages.py:113 and :119) are assumed to succeed, because the dates arrive as text. In the form as written, a failing date read would raise its own error before the TypeError of the plain `with`.
- Security.RedactDict: the dictionary's values are text or `None`. A value of another type, such as an integer, makes `len()` raise TypeError at src/utils/security.py:15, and this is not modelled.
- Pages.ReadError: the text of Playwright's strict-mode error is a constant, not the exact message.
- Mailbox.MailboxClient.Disconnect: the logout call and its suppressed errors are not modelled; only the connection state is.
- Selector lookups `selectors[...]` that raise KeyError are not modelled. The selectors are assumed complete.
- The async drivers in `src/bcp_central.py` (`perform_login`, `search_for_report`, `open_dataset`, `process_report`, and the rest of `download_resource`). They are browser calls. Their failures reach the model as the failure messages that `CollectFailures` gathers.
- Runner.AutomationRunner.Run: returns the outcome list, which is a local variable in the source.
- Config.InvalidInt: the refused text is quoted in single quotes as given. Python's `repr` would use double quotes for text holding a single quote, and would escape backslashes and control characters.
- Pages.JoinPath: joins with one "/". A directory written with a trailing "/" gives "//", which `pathlib` would normalise. BaseNameOfJoin is unaffected.
