/**
 * The mailbox client (src/email/mailbox_client.py): the IMAP SEARCH criteria of section 6.4.4
 * of RFC 3501 with the `date` form of its section 9, the choice of the newest matching UID,
 * the connection state, and the deadline-bounded poll. The server is a function from criteria
 * to UIDs and from a UID to its parsed message; time is counted in ticks.
 */
module Mailbox {
  import opened Wrappers
  import opened Text
  import OtpParser
  import Config

  // ---------------------------------------------------------------- dates

  predicate IsLeapYear(y: nat)
  {
    y % 4 == 0 && (y % 100 != 0 || y % 400 == 0)
  }

  function DaysInMonth(year: nat, month: nat): nat
    requires 1 <= month <= 12
  {
    if month == 2 then (if IsLeapYear(year) then 29 else 28)
    else if month == 4 || month == 6 || month == 9 || month == 11 then 30
    else 31
  }

  /** The calendar part of a `datetime`: years 1 to 9999, as Python allows. */
  datatype Date = Date(year: nat, month: nat, day: nat)

  predicate ValidDate(d: Date)
  {
    1 <= d.year <= 9999 && 1 <= d.month <= 12 && 1 <= d.day <= DaysInMonth(d.year, d.month)
  }

  type CalendarDate = d: Date | ValidDate(d) witness Date(2000, 1, 1)

  /** `%b` in the C locale. */
  const MonthNames: seq<string> :=
    ["Jan", "Feb", "Mar", "Apr", "May", "Jun", "Jul", "Aug", "Sep", "Oct", "Nov", "Dec"]

  /** `%d`: the day of the month as two digits. */
  function TwoDigits(n: nat): (s: string)
    requires n < 100
    ensures |s| == 2 && AllDigits(s) && DecToNat(s) == n
  {
    var s := [DigitChar(n / 10), DigitChar(n % 10)];
    assert s[..1] == [DigitChar(n / 10)] && s[..1][..0] == [];
    assert DecToNat(s[..1]) == n / 10;
    assert DigitValue(s[1]) == n % 10;
    s
  }

  /** `since.strftime("%d-%b-%Y")`; `%Y` prints the year without padding, as glibc does. */
  function FormatImapDate(d: CalendarDate): string
  {
    TwoDigits(d.day) + "-" + MonthNames[d.month - 1] + "-" + NatToDec(d.year)
  }

  /** Index of a month abbreviation, or None. */
  function MonthNumber(name: string): (m: Option<nat>)
    ensures m.Some? ==> 1 <= m.value <= 12 && MonthNames[m.value - 1] == name
    ensures m.None? ==> name !in MonthNames
  {
    if name == "Jan" then Some(1) else if name == "Feb" then Some(2)
    else if name == "Mar" then Some(3) else if name == "Apr" then Some(4)
    else if name == "May" then Some(5) else if name == "Jun" then Some(6)
    else if name == "Jul" then Some(7) else if name == "Aug" then Some(8)
    else if name == "Sep" then Some(9) else if name == "Oct" then Some(10)
    else if name == "Nov" then Some(11) else if name == "Dec" then Some(12)
    else None
  }

  /** Reading a `date-text` of RFC 3501 back (`date-day "-" date-month "-" date-year`), with
      the day given in one or two digits and the year in digits. */
  function ParseImapDate(s: string): Option<CalendarDate>
  {
    var parts := SplitOn(s, "-");
    if |parts| != 3 then None
    else
      var day, month, year := parts[0], MonthNumber(parts[1]), parts[2];
      if 1 <= |day| <= 2 && AllDigits(day) && month.Some? && year != [] && AllDigits(year) then
        var d := Date(DecToNat(year), month.value, DecToNat(day));
        if ValidDate(d) then Some(d) else None
      else None
  }

  /** Each month name is read back as its number, and holds no dash. */
  lemma MonthName(m: nat)
    requires 1 <= m <= 12
    ensures MonthNumber(MonthNames[m - 1]) == Some(m)
    ensures Lacks(MonthNames[m - 1], '-')
  {
    assert m - 1 in {0, 1, 2, 3, 4, 5, 6, 7, 8, 9, 10, 11};
  }

  /** The three dash-separated pieces of a formatted date. */
  lemma FormattedPieces(d: CalendarDate)
    ensures SplitOn(FormatImapDate(d), "-") == [TwoDigits(d.day), MonthNames[d.month - 1], NatToDec(d.year)]
  {
    var day, mon, year := TwoDigits(d.day), MonthNames[d.month - 1], NatToDec(d.year);
    assert forall k | 0 <= k < |day| :: day[k] != '-';
    assert forall k | 0 <= k < |year| :: year[k] != '-';
    MonthName(d.month);
    SplitOnCharNone(year, '-');
    SplitOnCharPiece(mon, '-', year);
    SplitOnCharPiece(day, '-', mon + ['-'] + year);
    assert FormatImapDate(d) == day + ['-'] + (mon + ['-'] + year);
  }

  /** A formatted date reads back as the same date: the text determines the date. */
  lemma FormatImapDateRoundTrip(d: CalendarDate)
    ensures ParseImapDate(FormatImapDate(d)) == Some(d)
  {
    FormattedPieces(d);
    MonthName(d.month);
    DecRoundTrip(d.year);
  }

  /** From year 1000 on, the text has the RFC 3501 shape: two digits, a dash, a month name, a
      dash and four digits. */
  lemma FormatImapDateShape(d: CalendarDate)
    requires d.year >= 1000
    ensures var s := FormatImapDate(d);
            && |s| == 11 && AllDigits(s[..2]) && s[2] == '-' && s[3..6] in MonthNames
            && s[6] == '-' && AllDigits(s[7..])
  {
    FourDigits(d.year);
    var s := FormatImapDate(d);
    assert s[..2] == TwoDigits(d.day);
    assert s[3..6] == MonthNames[d.month - 1];
    assert s[7..] == NatToDec(d.year);
  }

  /** 5 March 2024 is written "05-Mar-2024". */
  lemma FormatImapDateExample()
    ensures FormatImapDate(Date(2024, 3, 5)) == "05-Mar-2024"
  {
    assert NatToDec(2024) == NatToDec(202) + [DigitChar(4)];
    assert NatToDec(202) == NatToDec(20) + [DigitChar(2)];
    assert NatToDec(20) == NatToDec(2) + [DigitChar(0)];
  }

  // ---------------------------------------------------------------- search criteria

  /** Python truthiness of an optional text: present and non-empty. */
  function Truthy(s: Option<string>): Option<string>
  {
    if s.Some? && s.value != "" then s else None
  }

  /** The criteria `_search_query` builds. */
  function Criteria(since: Option<CalendarDate>, senderFilter: Option<string>, recipient: Option<string>): seq<string>
  {
    ["UNSEEN"]
    + (if since.Some? then ["SINCE", FormatImapDate(since.value)] else [])
    + (if Truthy(senderFilter).Some? then ["FROM", senderFilter.value] else [])
    + (if Truthy(recipient).Some? then ["TO", recipient.value] else [])
  }

  /** The (key, value) pairs that follow the leading "UNSEEN". */
  function Pairs(c: seq<string>): seq<(string, string)>
    decreases |c|
  {
    if |c| < 2 then [] else [(c[0], c[1])] + Pairs(c[2..])
  }

  function Lookup(pairs: seq<(string, string)>, key: string): Option<string>
  {
    if pairs == [] then None
    else if pairs[0].0 == key then Some(pairs[0].1)
    else Lookup(pairs[1..], key)
  }

  function PairKeys(pairs: seq<(string, string)>): seq<string>
  {
    if pairs == [] then [] else [pairs[0].0] + PairKeys(pairs[1..])
  }

  function Count(b: bool): nat { if b then 1 else 0 }

  lemma {:induction false} PairsAppend(a: seq<string>, b: seq<string>)
    requires |a| % 2 == 0
    ensures Pairs(a + b) == Pairs(a) + Pairs(b)
    decreases |a|
  {
    if a == [] {
      assert a + b == b;
    } else {
      assert (a + b)[2..] == a[2..] + b;
      assert (a + b)[0] == a[0] && (a + b)[1] == a[1];
      PairsAppend(a[2..], b);
    }
  }

  /** The criteria start with UNSEEN and then hold one (key, value) pair per condition given, in
      the fixed order SINCE, FROM, TO: the server reads back exactly the date, the sender filter
      and the recipient that were given, and nothing else. Empty texts count as absent. */
  lemma CriteriaMeaning(since: Option<CalendarDate>, senderFilter: Option<string>, recipient: Option<string>)
    ensures var c := Criteria(since, senderFilter, recipient);
            && c[0] == "UNSEEN"
            && |c| == 1 + 2 * (Count(since.Some?) + Count(Truthy(senderFilter).Some?) + Count(Truthy(recipient).Some?))
            && PairKeys(Pairs(c[1..]))
               == (if since.Some? then ["SINCE"] else []) + (if Truthy(senderFilter).Some? then ["FROM"] else [])
                  + (if Truthy(recipient).Some? then ["TO"] else [])
            && Lookup(Pairs(c[1..]), "SINCE") == (if since.Some? then Some(FormatImapDate(since.value)) else None)
            && Lookup(Pairs(c[1..]), "FROM") == Truthy(senderFilter)
            && Lookup(Pairs(c[1..]), "TO") == Truthy(recipient)
  {
    var date := if since.Some? then Some(FormatImapDate(since.value)) else None;
    assert Criteria(since, senderFilter, recipient) == Terms(date, Truthy(senderFilter), Truthy(recipient));
    TermsPairs(date, Truthy(senderFilter), Truthy(recipient));
    TermPairsLookup(date, Truthy(senderFilter), Truthy(recipient));
  }

  /** The criteria with the date already written out and the empty texts already dropped. */
  function Terms(date: Option<string>, from: Option<string>, to: Option<string>): seq<string>
  {
    ["UNSEEN"]
    + (if date.Some? then ["SINCE", date.value] else [])
    + (if from.Some? then ["FROM", from.value] else [])
    + (if to.Some? then ["TO", to.value] else [])
  }

  /** The (key, value) pairs of the conditions given, in the order SINCE, FROM, TO. */
  function TermPairs(date: Option<string>, from: Option<string>, to: Option<string>): seq<(string, string)>
  {
    (if date.Some? then [("SINCE", date.value)] else [])
    + (if from.Some? then [("FROM", from.value)] else [])
    + (if to.Some? then [("TO", to.value)] else [])
  }

  lemma TermsPairs(date: Option<string>, from: Option<string>, to: Option<string>)
    ensures var c := Terms(date, from, to);
            && c[0] == "UNSEEN"
            && |c| == 1 + 2 * (Count(date.Some?) + Count(from.Some?) + Count(to.Some?))
            && Pairs(c[1..]) == TermPairs(date, from, to)
  {
    var s := if date.Some? then ["SINCE", date.value] else [];
    var f := if from.Some? then ["FROM", from.value] else [];
    var t := if to.Some? then ["TO", to.value] else [];
    var c := Terms(date, from, to);
    assert c == ["UNSEEN"] + (s + f + t);
    assert c[1..] == s + f + t;
    PairsAppend(s, f);
    PairsAppend(s + f, t);
    assert Pairs([]) == [];
    assert date.Some? ==> Pairs(s) == [("SINCE", date.value)];
    assert from.Some? ==> Pairs(f) == [("FROM", from.value)];
    assert to.Some? ==> Pairs(t) == [("TO", to.value)];
  }

  lemma TermPairsLookup(date: Option<string>, from: Option<string>, to: Option<string>)
    ensures var p := TermPairs(date, from, to);
            && PairKeys(p)
               == (if date.Some? then ["SINCE"] else []) + (if from.Some? then ["FROM"] else [])
                  + (if to.Some? then ["TO"] else [])
            && Lookup(p, "SINCE") == date
            && Lookup(p, "FROM") == from
            && Lookup(p, "TO") == to
  {
    var ps: seq<(string, string)> := if date.Some? then [("SINCE", date.value)] else [];
    var pf: seq<(string, string)> := if from.Some? then [("FROM", from.value)] else [];
    var pt: seq<(string, string)> := if to.Some? then [("TO", to.value)] else [];
    LookupAppend(ps + pf, pt, "SINCE");
    LookupAppend(ps, pf, "SINCE");
    LookupAppend(ps + pf, pt, "FROM");
    LookupAppend(ps, pf, "FROM");
    LookupAppend(ps + pf, pt, "TO");
    LookupAppend(ps, pf, "TO");
    PairKeysAppend(ps + pf, pt);
    PairKeysAppend(ps, pf);
  }

  lemma {:induction false} LookupAppend(a: seq<(string, string)>, b: seq<(string, string)>, key: string)
    ensures Lookup(a + b, key) == if Lookup(a, key).Some? then Lookup(a, key) else Lookup(b, key)
    decreases |a|
  {
    if a == [] {
      assert a + b == b;
    } else {
      assert (a + b)[0] == a[0];
      assert (a + b)[1..] == a[1..] + b;
      LookupAppend(a[1..], b, key);
    }
  }

  lemma {:induction false} PairKeysAppend(a: seq<(string, string)>, b: seq<(string, string)>)
    ensures PairKeys(a + b) == PairKeys(a) + PairKeys(b)
    decreases |a|
  {
    if a == [] {
      assert a + b == b;
    } else {
      assert (a + b)[0] == a[0];
      assert (a + b)[1..] == a[1..] + b;
      PairKeysAppend(a[1..], b);
    }
  }

  // ---------------------------------------------------------------- the server

  /** The server's answers at one moment: the UIDs a search matches (or the error it raises) and
      the parsed message a UID fetches (or the error). */
  datatype Server = Server(
    search: seq<string> -> Result<seq<nat>, string>,
    fetch: nat -> Result<OtpParser.Message, string>)

  /** `max(message_uids)`. */
  function MaxUid(uids: seq<nat>): (m: nat)
    requires uids != []
    ensures m in uids && forall k | 0 <= k < |uids| :: uids[k] <= m
  {
    if |uids| == 1 then uids[0]
    else
      var rest := MaxUid(uids[1..]);
      if uids[0] >= rest then uids[0] else rest
  }

  /** What one `fetch_latest_otp` call on a connected client gives for these criteria: no OTP
      when nothing matches, otherwise the OTP of the newest matching message. */
  function LatestOtp(criteria: seq<string>, server: Server): Result<Option<string>, string>
  {
    match server.search(criteria)
    case Failure(e) => Failure(e)
    case Success(uids) =>
      if uids == [] then Success(None)
      else
        match server.fetch(MaxUid(uids))
        case Failure(e) => Failure(e)
        case Success(m) => Success(OtpParser.ExtractOtpFromEmail(m))
  }

  /** Only the newest matching message is consulted: two servers that match the same UIDs and
      hold the same message under the largest of them give the same answer. */
  lemma OnlyNewestMessageMatters(criteria: seq<string>, s1: Server, s2: Server)
    requires s1.search(criteria) == s2.search(criteria)
    requires s1.search(criteria).Success? && s1.search(criteria).value != [] ==>
               s1.fetch(MaxUid(s1.search(criteria).value)) == s2.fetch(MaxUid(s1.search(criteria).value))
    ensures LatestOtp(criteria, s1) == LatestOtp(criteria, s2)
  {
  }

  /** No match means no OTP and no fetch at all. */
  lemma NoMatchNoOtp(criteria: seq<string>, server: Server)
    requires server.search(criteria) == Success([])
    ensures LatestOtp(criteria, server) == Success(None)
  {
  }

  // ---------------------------------------------------------------- polling

  /** A duration of at least one tick: each poll round takes time. */
  type Duration = n: nat | n >= 1 witness 1

  const TicksPerSecond: nat := 1000

  /** Total duration of the first `k` rounds. */
  function Elapsed(durations: nat -> Duration, k: nat): nat
  {
    if k == 0 then 0 else Elapsed(durations, k - 1) + durations(k - 1)
  }

  /** What each round finds: `answers(k)` is the answer of round `k`. */
  type Answers = nat -> Result<Option<string>, string>

  /** The poll from round `k` on: a round is attempted while the elapsed time is before the
      deadline; the first OTP found, or the first error, ends it. `durations(k)` is how long
      round `k` takes, sleep included. */
  function PollRounds(answers: Answers, durations: nat -> Duration, deadline: int, k: nat): Result<Option<string>, string>
    decreases deadline - Elapsed(durations, k)
  {
    if Elapsed(durations, k) >= deadline then Success(None)
    else
      match answers(k)
      case Failure(e) => Failure(e)
      case Success(Some(otp)) => Success(Some(otp))
      case Success(None) => PollRounds(answers, durations, deadline, k + 1)
  }

  /** The answers of the rounds against the servers: `servers(k)` is the server as round `k`
      finds it. */
  function ServerAnswers(criteria: seq<string>, servers: nat -> Server): Answers
  {
    (k: nat) => LatestOtp(criteria, servers(k))
  }

  /** `poll_for_otp` from round `k` on, against the servers. */
  function PollFrom(criteria: seq<string>, servers: nat -> Server, durations: nat -> Duration,
                    deadline: int, k: nat): Result<Option<string>, string>
  {
    PollRounds(ServerAnswers(criteria, servers), durations, deadline, k)
  }

  lemma {:induction false} RoundsFindFirst(answers: Answers, durations: nat -> Duration, deadline: int, k: nat)
    returns (j: nat)
    requires PollRounds(answers, durations, deadline, k).Success?
    requires PollRounds(answers, durations, deadline, k).value.Some?
    ensures k <= j && Elapsed(durations, j) < deadline
    ensures answers(j) == PollRounds(answers, durations, deadline, k)
    ensures forall i | k <= i < j :: answers(i) == Success(None)
    decreases deadline - Elapsed(durations, k)
  {
    if answers(k) == Success(None) {
      j := RoundsFindFirst(answers, durations, deadline, k + 1);
    } else {
      j := k;
    }
  }

  lemma {:induction false} RoundsTimeOut(answers: Answers, durations: nat -> Duration, deadline: int, k: nat)
    requires forall i :: k <= i && Elapsed(durations, i) < deadline ==> answers(i) == Success(None)
    ensures PollRounds(answers, durations, deadline, k) == Success(None)
    decreases deadline - Elapsed(durations, k)
  {
    if Elapsed(durations, k) < deadline {
      RoundsTimeOut(answers, durations, deadline, k + 1);
    }
  }

  lemma {:induction false} ElapsedGrows(durations: nat -> Duration, a: nat, b: nat)
    requires a <= b
    ensures Elapsed(durations, a) <= Elapsed(durations, b)
    decreases b - a
  {
    if a < b {
      ElapsedGrows(durations, a, b - 1);
    }
  }

  lemma {:induction false} RoundsNoneFound(answers: Answers, durations: nat -> Duration, deadline: int, k: nat)
    requires PollRounds(answers, durations, deadline, k) == Success(None)
    ensures forall i :: k <= i && Elapsed(durations, i) < deadline ==> answers(i) == Success(None)
    decreases deadline - Elapsed(durations, k)
  {
    if Elapsed(durations, k) < deadline {
      assert answers(k) == Success(None);
      RoundsNoneFound(answers, durations, deadline, k + 1);
    } else {
      forall i | k <= i
        ensures Elapsed(durations, i) >= deadline
      {
        ElapsedGrows(durations, k, i);
      }
    }
  }

  /** A found OTP comes from a round attempted before the deadline, every earlier round found
      none, and no later round is run. */
  lemma PollFindsFirst(criteria: seq<string>, servers: nat -> Server, durations: nat -> Duration,
                       deadline: int, k: nat) returns (j: nat)
    requires PollFrom(criteria, servers, durations, deadline, k).Success?
    requires PollFrom(criteria, servers, durations, deadline, k).value.Some?
    ensures k <= j && Elapsed(durations, j) < deadline
    ensures LatestOtp(criteria, servers(j)) == PollFrom(criteria, servers, durations, deadline, k)
    ensures forall i | k <= i < j :: LatestOtp(criteria, servers(i)) == Success(None)
  {
    var answers := ServerAnswers(criteria, servers);
    j := RoundsFindFirst(answers, durations, deadline, k);
    forall i | k <= i < j
      ensures LatestOtp(criteria, servers(i)) == Success(None)
    {
      assert answers(i) == Success(None);
    }
  }

  /** No OTP is returned when every round attempted before the deadline found none. */
  lemma PollTimesOut(criteria: seq<string>, servers: nat -> Server, durations: nat -> Duration,
                     deadline: int, k: nat)
    requires forall i :: k <= i && Elapsed(durations, i) < deadline ==> LatestOtp(criteria, servers(i)) == Success(None)
    ensures PollFrom(criteria, servers, durations, deadline, k) == Success(None)
  {
    var answers := ServerAnswers(criteria, servers);
    forall i | k <= i && Elapsed(durations, i) < deadline
      ensures answers(i) == Success(None)
    {
    }
    RoundsTimeOut(answers, durations, deadline, k);
  }

  /** Conversely, when no OTP is returned and nothing raised, every round attempted before the
      deadline found none. */
  lemma PollNoneFound(criteria: seq<string>, servers: nat -> Server, durations: nat -> Duration,
                      deadline: int, k: nat)
    requires PollFrom(criteria, servers, durations, deadline, k) == Success(None)
    ensures forall i :: k <= i && Elapsed(durations, i) < deadline ==> LatestOtp(criteria, servers(i)) == Success(None)
  {
    var answers := ServerAnswers(criteria, servers);
    RoundsNoneFound(answers, durations, deadline, k);
    forall i | k <= i && Elapsed(durations, i) < deadline
      ensures LatestOtp(criteria, servers(i)) == Success(None)
    {
      assert answers(i) == Success(None);
    }
  }

  /** With a timeout of zero or less no round runs. */
  lemma NoTimeNoPoll(criteria: seq<string>, servers: nat -> Server, durations: nat -> Duration, deadline: int)
    requires deadline <= 0
    ensures PollFrom(criteria, servers, durations, deadline, 0) == Success(None)
  {
  }

  const NotConnected: string := "IMAP client not connected"

  /** What opening a connection did: creating the client, logging in, selecting the folder. */
  datatype ConnectSteps = ConnectSteps(open: Step, login: Step, select: Step)

  /** `MailboxClient`: the configuration and whether `_client` is set. */
  class MailboxClient {
    const config: Config.MailboxConfig
    var connected: bool

    constructor(config: Config.MailboxConfig)
      ensures this.config == config && !connected
    {
      this.config := config;
      connected := false;
    }

    /** `connect()`: the client is set once it is created, before login and folder selection,
        so a failed login leaves it set; a failure to create it leaves the state as it was. */
    method Connect(steps: ConnectSteps) returns (r: Step)
      modifies this
      ensures connected == (old(connected) || steps.open.Done?)
      ensures r == (if steps.open.Raised? then steps.open
                    else if steps.login.Raised? then steps.login
                    else steps.select)
    {
      if steps.open.Raised? {
        return steps.open;
      }
      connected := true;
      if steps.login.Raised? {
        return steps.login;
      }
      return steps.select;
    }

    /** `disconnect()`: safe when never connected; logout errors are suppressed; the client is
        unset afterwards, so a second call does nothing. */
    method Disconnect()
      modifies this
      ensures !connected
    {
      if connected {
        connected := false;
      }
    }

    /** `__enter__`: connects. */
    method Enter(steps: ConnectSteps) returns (r: Step)
      modifies this
      ensures connected == (old(connected) || steps.open.Done?)
      ensures r == (if steps.open.Raised? then steps.open
                    else if steps.login.Raised? then steps.login
                    else steps.select)
    {
      r := Connect(steps);
    }

    /** `__exit__`: always disconnects. */
    method Exit()
      modifies this
      ensures !connected
    {
      Disconnect();
    }

    /** `_search_query(since, recipient)`. */
    method SearchQuery(since: Option<CalendarDate>, recipient: Option<string>) returns (criteria: seq<string>)
      ensures criteria == Criteria(since, config.senderFilter, recipient)
    {
      criteria := ["UNSEEN"];
      if since.Some? {
        criteria := criteria + ["SINCE", FormatImapDate(since.value)];
      }
      if config.senderFilter.Some? && config.senderFilter.value != "" {
        criteria := criteria + ["FROM", config.senderFilter.value];
      }
      if recipient.Some? && recipient.value != "" {
        criteria := criteria + ["TO", recipient.value];
      }
    }

    /** `fetch_latest_otp(recipient, since)`: raises when not connected, otherwise asks the
        server for the newest matching message and extracts its OTP. */
    method FetchLatestOtp(recipient: Option<string>, since: Option<CalendarDate>, server: Server)
      returns (r: Result<Option<string>, string>)
      ensures !connected ==> r == Failure(NotConnected)
      ensures connected ==> r == LatestOtp(Criteria(since, config.senderFilter, recipient), server)
    {
      if !connected {
        return Failure(NotConnected);
      }
      var criteria := SearchQuery(since, recipient);
      var found := server.search(criteria);
      if found.Failure? {
        return Failure(found.error);
      }
      var uids := found.value;
      if uids == [] {
        return Success(None);
      }
      var latest := MaxUid(uids);
      var raw := server.fetch(latest);
      if raw.Failure? {
        return Failure(raw.error);
      }
      return Success(OtpParser.ExtractOtpFromEmail(raw.value));
    }

    /** `assert_connected()`: raises when not connected. Retrying it changes nothing, since no
        retry connects the client, so the retries are not modelled. */
    method AssertConnected() returns (r: Step)
      ensures r == (if connected then Done else Raised(NotConnected))
    {
      if !connected {
        return Raised(NotConnected);
      }
      return Done;
    }

    /** `poll_for_otp(recipient, since)`: requires a connection, then fetches round after round
        until an OTP turns up or `poll_timeout` seconds have passed. */
    method PollForOtp(recipient: Option<string>, since: Option<CalendarDate>,
                      servers: nat -> Server, durations: nat -> Duration)
      returns (r: Result<Option<string>, string>)
      ensures !connected ==> r == Failure(NotConnected)
      ensures connected ==> r == PollFrom(Criteria(since, config.senderFilter, recipient), servers, durations,
                                          config.pollTimeout * TicksPerSecond as int, 0)
    {
      var check := AssertConnected();
      if check.Raised? {
        return Failure(check.message);
      }
      ghost var criteria := Criteria(since, config.senderFilter, recipient);
      var deadline := config.pollTimeout * TicksPerSecond as int;
      var now := 0;
      var round := 0;
      while now < deadline
        invariant now == Elapsed(durations, round)
        invariant PollFrom(criteria, servers, durations, deadline, 0) == PollFrom(criteria, servers, durations, deadline, round)
        decreases deadline - now
      {
        var otp := FetchLatestOtp(recipient, since, servers(round));
        if otp.Failure? || otp.value.Some? {
          return otp;
        }
        now := now + durations(round);
        round := round + 1;
      }
      return Success(None);
    }
  }
}
