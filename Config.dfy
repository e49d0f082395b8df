/**
 * Configuration (src/utils/config.py): boolean and integer coercion of setting texts, the
 * lookup of a key with its default, the overlay of the process environment on the env file,
 * the required keys and the defaults of `load_config`, and the selectors cache of `AppConfig`.
 * Environments are maps from names to texts; paths stay texts.
 */
module Config {
  import opened Wrappers
  import opened Text

  // ---------------------------------------------------------------- _coerce_bool

  /** A value handed to `_coerce_bool`: already a boolean, or a text. */
  datatype Setting = Flag(flag: bool) | Text(text: string)

  const TruthyWords: set<string> := {"1", "true", "yes", "y"}

  /** `_coerce_bool(value)`. */
  function CoerceBool(value: Setting): bool
  {
    match value
    case Flag(b) => b
    case Text(s) => Lower(Strip(s)) in TruthyWords
  }

  /** A text is read as true exactly when, once stripped and lower-cased, it is one of the
      truthy words; surrounding whitespace and letter case do not matter. */
  lemma CoerceBoolIgnoresCaseAndPadding(pre: string, s: string, post: string)
    requires AllSpace(pre)
    requires AllSpace(post)
    ensures CoerceBool(Text(pre + s + post)) == CoerceBool(Text(Lower(s)))
    ensures CoerceBool(Text(s)) <==> Lower(Strip(s)) in TruthyWords
  {
    StripPadded(pre, s, post);
    StripOfLower(s);
    LowerIdempotent(Strip(s));
  }

  /** " Yes " and "TRUE" are true. */
  lemma CoerceBoolTrueExamples()
    ensures CoerceBool(Text(" Yes ")) && CoerceBool(Text("TRUE"))
  {
    PaddedYes();
    UpperTrue();
  }

  lemma PaddedYes()
    ensures Lower(Strip(" Yes ")) == "yes"
  {
    var u := " Yes ";
    assert LeadingSpaces(u) == 1 by {
      assert u[1..] == "Yes " && !IsSpace(u[1]);
    }
    var t := u[1..];
    assert TrailingSpaces(t) == 1 by {
      assert t == "Yes " && t[..3] == "Yes" && !IsSpace(t[2]);
    }
    assert Strip(u) == "Yes";
    var low := Lower("Yes");
    assert low[0] == 'y' && low[1] == 'e' && low[2] == 's';
  }

  lemma UpperTrue()
    ensures Lower(Strip("TRUE")) == "true"
  {
    StripUnpadded("TRUE");
    var up := Lower("TRUE");
    assert up[0] == 't' && up[1] == 'r' && up[2] == 'u' && up[3] == 'e';
  }

  /** "0", "no" and "" are false. */
  lemma CoerceBoolFalseExamples()
    ensures !CoerceBool(Text("0")) && !CoerceBool(Text("no")) && !CoerceBool(Text(""))
  {
    ZeroFalse();
    NoFalse();
    EmptyFalse();
  }

  lemma EmptyFalse()
    ensures !CoerceBool(Text(""))
  {
    StripUnpadded("");
    assert Lower("") == "";
  }

  lemma ZeroFalse()
    ensures !CoerceBool(Text("0"))
  {
    StripUnpadded("0");
    assert Lower("0") == "0";
  }

  lemma NoFalse()
    ensures !CoerceBool(Text("no"))
  {
    StripUnpadded("no");
    assert Lower("no") == "no";
  }

  // ---------------------------------------------------------------- int()

  /** `int(s)` for a text: optional surrounding whitespace, an optional sign and decimal digits. */
  function ParseInt(s: string): Option<int>
  {
    ParseSigned(Strip(s))
  }

  /** `int` on a text with no surrounding whitespace. */
  function ParseSigned(t: string): Option<int>
  {
    if t == [] then None
    else if t[0] == '-' || t[0] == '+' then
      if |t| > 1 && AllDigits(t[1..]) then
        Some(if t[0] == '-' then -(DecToNat(t[1..]) as int) else DecToNat(t[1..]))
      else None
    else if AllDigits(t) then Some(DecToNat(t))
    else None
  }

  /** `str(n)` for an integer. */
  function IntToDec(n: int): (s: string)
    ensures s != [] && !IsSpace(s[0]) && !IsSpace(s[|s| - 1])
  {
    if n < 0 then "-" + NatToDec(-n) else NatToDec(n)
  }

  /** Every integer printed in decimal reads back as itself, padded or not. */
  lemma ParseIntRoundTrip(n: int, pre: string, post: string)
    requires AllSpace(pre)
    requires AllSpace(post)
    ensures ParseInt(pre + IntToDec(n) + post) == Some(n)
  {
    var s := IntToDec(n);
    StripPadded(pre, s, post);
    StripUnpadded(s);
    SignedRoundTrip(n);
  }

  /** The decimal text of an integer, unpadded, reads back as itself. */
  lemma SignedRoundTrip(n: int)
    ensures ParseSigned(IntToDec(n)) == Some(n)
  {
    var s := IntToDec(n);
    if n < 0 {
      assert s[1..] == NatToDec(-n);
      DecRoundTrip(-n);
    } else {
      DecRoundTrip(n);
    }
  }

  /** Text that is not a number is refused. */
  lemma ParseIntRefuses()
    ensures ParseInt("") == None && ParseInt("abc") == None && ParseInt("-") == None
  {
    StripUnpadded("abc");
    StripUnpadded("-");
    assert !IsDigit("abc"[0]);
  }

  function InvalidInt(s: string): string
  {
    "invalid literal for int() with base 10: '" + s + "'"
  }

  /** `int(env.get(key, default))`: the default when the key is absent, else the parsed text. */
  function IntSetting(env: map<string, string>, key: string, default: int): (r: Result<int, string>)
    ensures key !in env ==> r == Success(default)
    ensures key in env ==> r == ParseInt(env[key]).ToResultOr(InvalidInt(env[key]))
  {
    if key in env then ParseInt(env[key]).ToResultOr(InvalidInt(env[key])) else Success(default)
  }

  /** A present setting holding an integer in decimal, padded with spaces or not, gives that
      integer, whatever the default. */
  lemma IntSettingReadsDecimal(env: map<string, string>, key: string, default: int, n: int, pre: string, post: string)
    requires AllSpace(pre) && AllSpace(post)
    requires key in env && env[key] == pre + IntToDec(n) + post
    ensures IntSetting(env, key, default) == Success(n)
  {
    ParseIntRoundTrip(n, pre, post);
  }

  /** A present setting that is empty, a word or a bare sign is refused with the `int()` error
      naming it; an absent one takes the default. */
  lemma IntSettingRefusesOrDefaults(env: map<string, string>, key: string, default: int)
    ensures key in env && (env[key] == "" || env[key] == "abc" || env[key] == "-") ==>
              IntSetting(env, key, default) == Failure(InvalidInt(env[key]))
    ensures key !in env ==> IntSetting(env, key, default) == Success(default)
  {
    ParseIntRefuses();
  }

  // ---------------------------------------------------------------- _get_env and the overlay

  function MissingKey(key: string): string
  {
    "Missing required configuration key: " + key
  }

  /** `_get_env(env, key, default)`, with `os` the process environment. */
  function GetEnv(env: map<string, string>, os: map<string, string>, key: string, default: Option<string>)
    : Result<string, string>
  {
    if key in env then Success(env[key])
    else if key in os then Success(os[key])
    else default.ToResultOr(MissingKey(key))
  }

  /** The environment `load_config` reads: the env file's entries (when a file was given and
      exists) overlaid with the process environment. */
  function MergedEnv(envFile: Option<map<string, string>>, os: map<string, string>): (env: map<string, string>)
    ensures env.Keys == envFile.GetOr(map[]).Keys + os.Keys
  {
    envFile.GetOr(map[]) + os
  }

  /** The process environment wins over the env file; keys only in the file keep their value. */
  lemma OverlayPrecedence(envFile: Option<map<string, string>>, os: map<string, string>, key: string)
    ensures key in os ==> MergedEnv(envFile, os)[key] == os[key]
    ensures key !in os && envFile.Some? && key in envFile.value ==> MergedEnv(envFile, os)[key] == envFile.value[key]
    ensures key !in os && (envFile.None? || key !in envFile.value) ==> key !in MergedEnv(envFile, os)
  {
  }

  /** A required key is found exactly when one of the two sources has it, and then the process
      environment's value is the one used; a missing one raises with its name. */
  lemma RequiredLookup(envFile: Option<map<string, string>>, os: map<string, string>, key: string)
    ensures GetEnv(MergedEnv(envFile, os), os, key, None).Success? <==> key in os || key in envFile.GetOr(map[])
    ensures key in os ==> GetEnv(MergedEnv(envFile, os), os, key, None) == Success(os[key])
    ensures key !in os && key !in envFile.GetOr(map[]) ==>
              GetEnv(MergedEnv(envFile, os), os, key, None) == Failure(MissingKey(key))
  {
  }

  // ---------------------------------------------------------------- the configuration records

  const DefaultOtpRegex: string := "\\b(\\d{6})\\b"

  datatype MailboxConfig = MailboxConfig(
    host: string, username: string, password: string, port: int, folder: string,
    senderFilter: Option<string>, otpRegex: string, pollTimeout: int)

  datatype BrowserConfig = BrowserConfig(
    headless: bool, downloadWaitSeconds: int, viewportWidth: int, viewportHeight: int)

  datatype OutputConfig = OutputConfig(
    rootDir: string, screenshotsDir: string, statementsDir: string, resultsCsv: string, logFile: string)

  /** The values `load_config` puts into an `AppConfig`. */
  datatype Settings = Settings(
    bankBaseUrl: string, excelPath: string, mailbox: MailboxConfig, browser: BrowserConfig,
    outputs: OutputConfig, logLevel: string, maxAccounts: int)

  const RequiredKeys: seq<string> := ["BANK_BASE_URL", "EXCEL_PATH", "IMAP_HOST", "IMAP_USERNAME", "IMAP_PASSWORD"]

  /** `env.get(key, default)`. */
  function TextSetting(env: map<string, string>, key: string, default: string): string
  {
    if key in env then env[key] else default
  }

  /** The `MailboxConfig` block of `load_config`. */
  function MailboxFrom(env: map<string, string>, os: map<string, string>): Result<MailboxConfig, string>
  {
    var host :- GetEnv(env, os, "IMAP_HOST", None);
    var username :- GetEnv(env, os, "IMAP_USERNAME", None);
    var password :- GetEnv(env, os, "IMAP_PASSWORD", None);
    var port :- IntSetting(env, "IMAP_PORT", 993);
    var pollTimeout :- IntSetting(env, "IMAP_POLL_TIMEOUT", 60);
    Success(MailboxConfig(
      host, username, password, port, TextSetting(env, "IMAP_FOLDER", "INBOX"),
      if "IMAP_SENDER_FILTER" in env then Some(env["IMAP_SENDER_FILTER"]) else None,
      TextSetting(env, "IMAP_OTP_REGEX", DefaultOtpRegex), pollTimeout))
  }

  /** The `BrowserConfig` block of `load_config`. */
  function BrowserFrom(env: map<string, string>): Result<BrowserConfig, string>
  {
    var downloadWait :- IntSetting(env, "DOWNLOAD_WAIT_SECONDS", 30);
    var width :- IntSetting(env, "DEFAULT_VIEWPORT_WIDTH", 1280);
    var height :- IntSetting(env, "DEFAULT_VIEWPORT_HEIGHT", 720);
    Success(BrowserConfig(CoerceBool(Text(TextSetting(env, "HEADLESS", "true"))), downloadWait, width, height))
  }

  /** The `OutputConfig` block of `load_config`. */
  function OutputsFrom(env: map<string, string>): OutputConfig
  {
    OutputConfig(
      TextSetting(env, "OUTPUT_DIR", "outputs"),
      TextSetting(env, "SCREENSHOT_DIR", "outputs/screenshots"),
      TextSetting(env, "STATEMENT_DIR", "outputs/statements"),
      TextSetting(env, "RESULTS_CSV", "outputs/run_results.csv"),
      TextSetting(env, "LOG_FILE", "outputs/automation.log"))
  }

  /** The settings read from the merged environment `env`, in the order `load_config` reads
      them; the first missing required key or malformed integer raises. */
  function SettingsFrom(env: map<string, string>, os: map<string, string>): Result<Settings, string>
  {
    var bankBaseUrl :- GetEnv(env, os, "BANK_BASE_URL", None);
    var excelPath :- GetEnv(env, os, "EXCEL_PATH", None);
    var mailbox :- MailboxFrom(env, os);
    var browser :- BrowserFrom(env);
    var maxAccounts :- IntSetting(env, "MAX_ACCOUNTS", 0);
    Success(Settings(bankBaseUrl, excelPath, mailbox, browser, OutputsFrom(env),
                     TextSetting(env, "LOG_LEVEL", "INFO"), maxAccounts))
  }

  /** `load_config(env_file)` on values: `envFile` is the env file's entries, or `None` when no
      file was given or it does not exist. */
  function LoadSettings(envFile: Option<map<string, string>>, os: map<string, string>): Result<Settings, string>
  {
    SettingsFrom(MergedEnv(envFile, os), os)
  }

  /** Loading fails when any required key is missing from both sources (the first missing key
      in reading order is named). */
  lemma MissingRequiredKeyFails(envFile: Option<map<string, string>>, os: map<string, string>, i: nat)
    requires i < |RequiredKeys|
    requires RequiredKeys[i] !in MergedEnv(envFile, os)
    requires forall j | 0 <= j < i :: RequiredKeys[j] in MergedEnv(envFile, os)
    ensures LoadSettings(envFile, os) == Failure(MissingKey(RequiredKeys[i]))
  {
    var env := MergedEnv(envFile, os);
    var key := RequiredKeys[i];
    assert key !in os;
    assert GetEnv(env, os, key, None) == Failure(MissingKey(key));
    if i >= 1 { assert "BANK_BASE_URL" == RequiredKeys[0] && RequiredKeys[0] in env; }
    if i >= 2 { assert "EXCEL_PATH" == RequiredKeys[1] && RequiredKeys[1] in env; }
    if i >= 3 { assert "IMAP_HOST" == RequiredKeys[2] && RequiredKeys[2] in env; }
    if i >= 4 { assert "IMAP_USERNAME" == RequiredKeys[3] && RequiredKeys[3] in env; }
  }

  /** With nothing set, the mailbox block takes its defaults. */
  lemma MailboxDefaults(env: map<string, string>)
    requires "IMAP_HOST" in env && "IMAP_USERNAME" in env && "IMAP_PASSWORD" in env
    requires "IMAP_PORT" !in env && "IMAP_POLL_TIMEOUT" !in env && "IMAP_FOLDER" !in env
    requires "IMAP_SENDER_FILTER" !in env && "IMAP_OTP_REGEX" !in env
    ensures MailboxFrom(env, env) == Success(MailboxConfig(env["IMAP_HOST"], env["IMAP_USERNAME"],
              env["IMAP_PASSWORD"], 993, "INBOX", None, DefaultOtpRegex, 60))
  {
  }

  /** With nothing set, the browser block takes its defaults and runs headless. */
  lemma BrowserDefaults(env: map<string, string>)
    requires "HEADLESS" !in env && "DOWNLOAD_WAIT_SECONDS" !in env
    requires "DEFAULT_VIEWPORT_WIDTH" !in env && "DEFAULT_VIEWPORT_HEIGHT" !in env
    ensures BrowserFrom(env) == Success(BrowserConfig(true, 30, 1280, 720))
  {
    StripUnpadded("true");
    assert Lower("true") == "true";
  }

  /** With the required keys present and nothing else set, every optional setting takes its
      default: port 993, folder INBOX, no sender filter, the six-digit pattern, poll timeout 60,
      headless, a 30 second wait, a 1280x720 viewport, outputs under "outputs", log level INFO
      and no account limit. */
  lemma Defaults(os: map<string, string>)
    requires "BANK_BASE_URL" in os && "EXCEL_PATH" in os
    requires "IMAP_HOST" in os && "IMAP_USERNAME" in os && "IMAP_PASSWORD" in os
    requires "IMAP_PORT" !in os && "IMAP_POLL_TIMEOUT" !in os && "IMAP_FOLDER" !in os
    requires "IMAP_SENDER_FILTER" !in os && "IMAP_OTP_REGEX" !in os
    requires "HEADLESS" !in os && "DOWNLOAD_WAIT_SECONDS" !in os
    requires "DEFAULT_VIEWPORT_WIDTH" !in os && "DEFAULT_VIEWPORT_HEIGHT" !in os
    requires "OUTPUT_DIR" !in os && "SCREENSHOT_DIR" !in os && "STATEMENT_DIR" !in os
    requires "RESULTS_CSV" !in os && "LOG_FILE" !in os
    requires "LOG_LEVEL" !in os && "MAX_ACCOUNTS" !in os
    ensures LoadSettings(None, os) == Success(Settings(
              os["BANK_BASE_URL"], os["EXCEL_PATH"],
              MailboxConfig(os["IMAP_HOST"], os["IMAP_USERNAME"], os["IMAP_PASSWORD"],
                            993, "INBOX", None, DefaultOtpRegex, 60),
              BrowserConfig(true, 30, 1280, 720),
              OutputConfig("outputs", "outputs/screenshots", "outputs/statements",
                           "outputs/run_results.csv", "outputs/automation.log"),
              "INFO", 0))
  {
    assert MergedEnv(None, os) == os;
    MailboxDefaults(os);
    BrowserDefaults(os);
    OutputDefaults(os);
  }

  /** With nothing set, every output path is under "outputs". */
  lemma OutputDefaults(env: map<string, string>)
    requires "OUTPUT_DIR" !in env && "SCREENSHOT_DIR" !in env && "STATEMENT_DIR" !in env
    requires "RESULTS_CSV" !in env && "LOG_FILE" !in env
    ensures OutputsFrom(env) == OutputConfig("outputs", "outputs/screenshots", "outputs/statements",
                                             "outputs/run_results.csv", "outputs/automation.log")
  {
  }

  // ---------------------------------------------------------------- AppConfig

  /** The selectors file's content: selector texts by page and by element. */
  type Selectors = map<string, map<string, string>>

  const SelectorsNotLoaded: string := "Selectors configuration not loaded"

  /** The attributes an `AppConfig` instance has: `@dataclass(slots=True)` gives it one slot per
      declared field and no instance dictionary, so no other attribute can be set or found. */
  const AppConfigSlots: set<string> :=
    {"bank_base_url", "excel_path", "mailbox", "browser", "outputs", "log_level", "max_accounts"}

  /** The attribute `set_selectors` and `selectors_config` use. */
  const SelectorsAttribute: string := "_selectors"

  /** The AttributeError an assignment to an attribute that is not a slot raises. */
  function NoAttribute(name: string): string
  {
    "'AppConfig' object has no attribute '" + name + "'"
  }

  /** `setattr(config, name, value)` on an `AppConfig`: only a slot can be assigned. */
  function SetSlot(name: string): (r: Step)
    ensures r.Done? <==> name in AppConfigSlots
    ensures r.Raised? ==> r.message == NoAttribute(name)
  {
    if name in AppConfigSlots then Done else Raised(NoAttribute(name))
  }

  /** `_selectors` is not among the slots, which every instance fills in its constructor. */
  lemma SelectorsIsNoSlot()
    ensures SelectorsAttribute !in AppConfigSlots
  {
  }

  /** The `selectors_config` property as written over whatever `set_selectors` stored:
      `hasattr(self, "_selectors")` is false on every instance, so it always raises. */
  function SelectorsConfigAsWritten(stored: Option<Selectors>): (r: Result<Selectors, string>)
    ensures r == Failure(SelectorsNotLoaded)
  {
    SelectorsIsNoSlot();
    if SelectorsAttribute in AppConfigSlots then stored.ToResultOr(SelectorsNotLoaded)
    else Failure(SelectorsNotLoaded)
  }

  /** `AppConfig`: the settings, which the runner may still change, and the selectors cache that
      `set_selectors` fills. */
  class AppConfig {
    var bankBaseUrl: string
    var excelPath: string
    var mailbox: MailboxConfig
    var browser: BrowserConfig
    var outputs: OutputConfig
    var logLevel: string
    var maxAccounts: int
    var selectors: Option<Selectors>

    /** The settings the object holds now. */
    function Current(): Settings
      reads this
    {
      Settings(bankBaseUrl, excelPath, mailbox, browser, outputs, logLevel, maxAccounts)
    }

    constructor(s: Settings)
      ensures Current() == s && selectors.None?
    {
      bankBaseUrl := s.bankBaseUrl;
      excelPath := s.excelPath;
      mailbox := s.mailbox;
      browser := s.browser;
      outputs := s.outputs;
      logLevel := s.logLevel;
      maxAccounts := s.maxAccounts;
      selectors := None;
    }

    /** The `selectors_config` property: raises until selectors were set, then gives exactly the
        stored value. */
    function SelectorsConfig(): (r: Result<Selectors, string>)
      reads this
      ensures selectors.None? <==> r == Failure(SelectorsNotLoaded)
      ensures selectors.Some? ==> r == Success(selectors.value)
    {
      selectors.ToResultOr(SelectorsNotLoaded)
    }

    /** `set_selectors(selectors)`: the settings stay as they are. */
    method SetSelectors(s: Selectors)
      modifies this
      ensures selectors == Some(s) && Current() == old(Current())
      ensures SelectorsConfig() == Success(s)
    {
      selectors := Some(s);
    }

    /** `set_selectors(selectors)` as written: the assignment to `_selectors` raises
        AttributeError, since it is not a slot, and nothing changes. */
    method SetSelectorsAsWritten(s: Selectors) returns (r: Step)
      ensures r == Raised(NoAttribute(SelectorsAttribute))
    {
      SelectorsIsNoSlot();
      r := SetSlot(SelectorsAttribute);
    }

    /** `config.browser.headless = value`, as the runner does for a command-line override. */
    method SetHeadless(value: bool)
      modifies this
      ensures Current() == old(Current()).(browser := old(browser).(headless := value))
      ensures selectors == old(selectors)
    {
      browser := browser.(headless := value);
    }
  }

  /** The start of `main()` as written: `config.set_selectors(selectors)` raises, so the runner
      is never built, and the selectors could not be read back even had the error been caught. */
  method StoreSelectorsAsWritten(config: AppConfig, s: Selectors) returns (stored: Step, read: Result<Selectors, string>)
    ensures stored.Raised? && stored.message == NoAttribute("_selectors")
    ensures read == Failure(SelectorsNotLoaded)
  {
    stored := config.SetSelectorsAsWritten(s);
    read := SelectorsConfigAsWritten(config.selectors);
  }

  /** The same start with a `_selectors` field in the dataclass: the selectors set are the ones
      read back, and the settings stay as they were. */
  method StoreSelectors(config: AppConfig, s: Selectors) returns (read: Result<Selectors, string>)
    modifies config
    ensures read == Success(s)
    ensures config.Current() == old(config.Current())
  {
    config.SetSelectors(s);
    read := config.SelectorsConfig();
  }

  /** `load_config(env_file)`: builds the environment by overlaying the process environment on
      the env file, then the configuration object from it. */
  method LoadConfig(envFile: Option<map<string, string>>, os: map<string, string>) returns (r: Result<AppConfig, string>)
    ensures LoadSettings(envFile, os).Failure? ==> r == Failure(LoadSettings(envFile, os).error)
    ensures LoadSettings(envFile, os).Success? ==>
              r.Success? && fresh(r.value) && r.value.Current() == LoadSettings(envFile, os).value
              && r.value.selectors.None?
  {
    var env: map<string, string> := map[];
    if envFile.Some? {
      env := env + envFile.value;
    }
    env := env + os;
    assert env == MergedEnv(envFile, os);
    var settings := SettingsFrom(env, os);
    if settings.Failure? {
      return Failure(settings.error);
    }
    var config := new AppConfig(settings.value);
    return Success(config);
  }
}
