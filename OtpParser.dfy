/**
 * OTP extraction from mail text (src/email/parser.py) with the default pattern `\b(\d{6})\b`:
 * the leftmost run of exactly six ASCII digits with no word character `[A-Za-z0-9_]` directly
 * before or after it.
 */
module OtpParser {
  import opened Wrappers
  import opened Text

  const OtpLength: nat := 6

  /** The default pattern matches at position `i` of `text`. */
  predicate MatchesAt(text: string, i: int)
  {
    && 0 <= i && i + OtpLength <= |text|
    && (forall k | i <= k < i + OtpLength :: IsDigit(text[k]))
    && (i == 0 || !IsWordChar(text[i - 1]))
    && (i + OtpLength == |text| || !IsWordChar(text[i + OtpLength]))
  }

  /** The leftmost match at or after `start`, as `re.search` scans for it. */
  function FirstMatchFrom(text: string, start: nat): (r: Option<nat>)
    requires start <= |text|
    ensures r.Some? ==> start <= r.value && MatchesAt(text, r.value)
    ensures r.Some? ==> forall j | start <= j < r.value :: !MatchesAt(text, j)
    ensures r.None? ==> forall j | start <= j <= |text| :: !MatchesAt(text, j)
    decreases |text| - start
  {
    if start + OtpLength > |text| then None
    else if MatchesAt(text, start) then Some(start)
    else FirstMatchFrom(text, start + 1)
  }

  /** `extract_otp_from_text(text)` with the default pattern. */
  function ExtractOtpFromText(text: string): (r: Option<string>)
    ensures text == "" ==> r == None
    ensures r.None? <==> forall j | 0 <= j <= |text| :: !MatchesAt(text, j)
    ensures r.Some? ==> |r.value| == OtpLength && AllDigits(r.value)
    ensures r.Some? ==> exists i | 0 <= i <= |text| - OtpLength ::
                          MatchesAt(text, i) && r.value == text[i..i + OtpLength]
                          && forall j | 0 <= j < i :: !MatchesAt(text, j)
  {
    if text == "" then None
    else
      match FirstMatchFrom(text, 0)
      case None => None
      case Some(i) => Some(text[i..i + OtpLength])
  }

  // ---------------------------------------------------------------- messages

  /** One MIME part as `message.walk()` yields it: its content type and its decoded body. */
  datatype Part = Part(contentType: string, body: string)

  /** A parsed mail: a single body, or the parts of a multipart message in walk order. */
  datatype Message = SinglePart(body: string) | Multipart(walk: seq<Part>)

  predicate IsTextPart(p: Part)
  {
    p.contentType == "text/plain" || p.contentType == "text/html"
  }

  /** The bodies of the `text/plain` and `text/html` parts, in walk order. */
  function TextBodies(parts: seq<Part>): (bodies: seq<string>)
    ensures |bodies| <= |parts|
  {
    if parts == [] then []
    else if IsTextPart(parts[0]) then [parts[0].body] + TextBodies(parts[1..])
    else TextBodies(parts[1..])
  }

  /** The payloads `extract_otp_from_email` searches. */
  function Payloads(m: Message): seq<string>
  {
    match m
    case SinglePart(body) => [body]
    case Multipart(walk) => TextBodies(walk)
  }

  /** The early-return scan: the OTP of the first payload that has one. */
  function FirstOtp(payloads: seq<string>): Option<string>
  {
    if payloads == [] then None
    else
      match ExtractOtpFromText(payloads[0])
      case Some(otp) => Some(otp)
      case None => FirstOtp(payloads[1..])
  }

  /** The scan finds nothing exactly when no payload holds an OTP. */
  lemma {:induction false} FirstOtpNone(payloads: seq<string>)
    ensures FirstOtp(payloads).None? <==> forall k | 0 <= k < |payloads| :: ExtractOtpFromText(payloads[k]).None?
    decreases |payloads|
  {
    if payloads != [] {
      FirstOtpNone(payloads[1..]);
      assert forall k | 1 <= k < |payloads| :: payloads[1..][k - 1] == payloads[k];
    }
  }

  /** A found OTP is the one of the first payload that holds one. */
  lemma {:induction false} FirstOtpSome(payloads: seq<string>) returns (k: nat)
    requires FirstOtp(payloads).Some?
    ensures k < |payloads| && ExtractOtpFromText(payloads[k]) == FirstOtp(payloads)
    ensures forall j | 0 <= j < k :: ExtractOtpFromText(payloads[j]).None?
    decreases |payloads|
  {
    if ExtractOtpFromText(payloads[0]).Some? {
      k := 0;
    } else {
      var k' := FirstOtpSome(payloads[1..]);
      k := k' + 1;
      assert forall j | 1 <= j < |payloads| :: payloads[1..][j - 1] == payloads[j];
    }
  }

  /** `extract_otp_from_email(message)` with the default pattern. */
  function ExtractOtpFromEmail(m: Message): Option<string>
  {
    FirstOtp(Payloads(m))
  }

  // ---------------------------------------------------------------- properties

  /** Payloads after the first one that holds an OTP are never consulted. */
  lemma {:induction false} LaterPayloadsIgnored(ps: seq<string>, qs: seq<string>)
    requires FirstOtp(ps).Some?
    ensures FirstOtp(ps + qs) == FirstOtp(ps)
    decreases |ps|
  {
    var u := ps + qs;
    assert u[0] == ps[0];
    if ExtractOtpFromText(ps[0]).None? {
      assert FirstOtp(ps) == FirstOtp(ps[1..]);
      assert u[1..] == ps[1..] + qs;
      assert FirstOtp(u) == FirstOtp(u[1..]);
      LaterPayloadsIgnored(ps[1..], qs);
    }
  }

  /** A part of any other content type can be removed without changing the result. */
  lemma {:induction false} NonTextPartIgnored(pre: seq<Part>, p: Part, post: seq<Part>)
    requires !IsTextPart(p)
    ensures ExtractOtpFromEmail(Multipart(pre + [p] + post)) == ExtractOtpFromEmail(Multipart(pre + post))
  {
    TextBodiesAppend(pre, [p] + post);
    TextBodiesAppend(pre, post);
    assert pre + [p] + post == pre + ([p] + post);
    assert ([p] + post)[1..] == post;
  }

  lemma {:induction false} TextBodiesAppend(a: seq<Part>, b: seq<Part>)
    ensures TextBodies(a + b) == TextBodies(a) + TextBodies(b)
    decreases |a|
  {
    if a == [] {
      assert a + b == b;
    } else {
      assert (a + b)[1..] == a[1..] + b;
      TextBodiesAppend(a[1..], b);
    }
  }

  /** The OTP of a multipart message is the first one found in its text parts, in walk order:
      the parts before the one it comes from have none. */
  lemma {:induction false} MultipartFirstMatch(pre: seq<Part>, p: Part, post: seq<Part>)
    requires IsTextPart(p) && ExtractOtpFromText(p.body).Some?
    requires forall k | 0 <= k < |pre| :: !IsTextPart(pre[k]) || ExtractOtpFromText(pre[k].body).None?
    ensures ExtractOtpFromEmail(Multipart(pre + [p] + post)) == ExtractOtpFromText(p.body)
  {
    assert pre + [p] + post == pre + ([p] + post);
    TextBodiesAppend(pre, [p] + post);
    NoOtpInBodies(pre);
    assert ([p] + post)[1..] == post;
    var head := TextBodies(pre);
    var tail := TextBodies([p] + post);
    assert tail == [p.body] + TextBodies(post);
    SkipEmptyPrefix(head, tail);
  }

  lemma {:induction false} NoOtpInBodies(parts: seq<Part>)
    requires forall k | 0 <= k < |parts| :: !IsTextPart(parts[k]) || ExtractOtpFromText(parts[k].body).None?
    ensures FirstOtp(TextBodies(parts)) == None
    decreases |parts|
  {
    if parts != [] {
      NoOtpInBodies(parts[1..]);
    }
  }

  lemma {:induction false} SkipEmptyPrefix(head: seq<string>, tail: seq<string>)
    requires FirstOtp(head) == None
    ensures FirstOtp(head + tail) == FirstOtp(tail)
    decreases |head|
  {
    if head == [] {
      assert head + tail == tail;
    } else {
      assert (head + tail)[0] == head[0];
      assert (head + tail)[1..] == head[1..] + tail;
      SkipEmptyPrefix(head[1..], tail);
    }
  }

  /** Text in which no digit occurs holds no OTP. */
  lemma NoDigitNoOtp(text: string)
    requires forall k | 0 <= k < |text| :: !IsDigit(text[k])
    ensures ExtractOtpFromText(text) == None
  {
    forall j | 0 <= j <= |text| ensures !MatchesAt(text, j) {
      if j < |text| { assert !IsDigit(text[j]); }
    }
  }

  /** A six-digit code set off by non-word characters, after text without digits, is the OTP. */
  lemma {:induction false} CodeAfterDigitFreeText(pre: string, code: string, post: string)
    requires forall k | 0 <= k < |pre| :: !IsDigit(pre[k])
    requires |code| == OtpLength && AllDigits(code)
    requires pre == [] || !IsWordChar(pre[|pre| - 1])
    requires post == [] || !IsWordChar(post[0])
    ensures ExtractOtpFromText(pre + code + post) == Some(code)
  {
    var t := pre + code + post;
    var n := |pre|;
    assert t[n..n + OtpLength] == code;
    assert forall k | n <= k < n + OtpLength :: t[k] == code[k - n];
    assert n > 0 ==> t[n - 1] == pre[n - 1];
    assert n + OtpLength < |t| ==> t[n + OtpLength] == post[0];
    assert MatchesAt(t, n);
    forall j | 0 <= j < n ensures !MatchesAt(t, j) {
      assert t[j] == pre[j];
    }
    var m := FirstMatchFrom(t, 0);
    assert m.Some? && m.value == n;
  }

  // ---------------------------------------------------------------- the repository's tests

  /** "Your code is 123456. Do not share." gives "123456". */
  lemma DefaultPatternFindsCode()
    ensures ExtractOtpFromText("Your code is 123456. Do not share.") == Some("123456")
  {
    var pre, code, post := "Your code is ", "123456", ". Do not share.";
    assert pre + code + post == "Your code is 123456. Do not share.";
    assert forall k | 0 <= k < |pre| :: !IsDigit(pre[k]);
    assert AllDigits(code);
    CodeAfterDigitFreeText(pre, code, post);
  }

  /** "No code here." gives no OTP. */
  lemma NoCodeGivesNone()
    ensures ExtractOtpFromText("No code here.") == None
  {
    NoDigitNoOtp("No code here.");
  }

  /** A single-part mail whose body is "OTP: 654321" (with the newline `set_content` adds)
      gives "654321". */
  lemma SinglePartMailGivesCode()
    ensures ExtractOtpFromEmail(SinglePart("OTP: 654321\n")) == Some("654321")
  {
    CodeAfterDigitFreeText("OTP: ", "654321", "\n");
    assert "OTP: " + "654321" + "\n" == "OTP: 654321\n";
    assert Payloads(SinglePart("OTP: 654321\n")) == ["OTP: 654321\n"];
  }
}
