/** Masking secrets before they reach the logs (src/utils/security.py). */
module Security {
  import opened Wrappers
  import opened Text

  const DefaultMask: string := "****"

  /** Keys whose values are masked, compared after lower-casing the key. */
  const SensitiveKeys: set<string> := {"password", "otp", "token", "secret"}

  /** The `Redaction` dataclass: a value object holding the mask. */
  datatype Redaction = Redaction(mask: string)
  {
    /** `redact(value)`: the mask alone for a missing or short value, otherwise the mask
        framed by the first two and the last two characters of the value. */
    function Redact(value: Option<string>): (r: string)
      ensures value.None? ==> r == mask
      ensures value.Some? && |value.value| <= 4 ==> r == mask
      ensures value.Some? && |value.value| > 4 ==>
                |r| == 4 + |mask| && r[..2] == value.value[..2] && r[2..2 + |mask|] == mask
                && r[2 + |mask|..] == value.value[|value.value| - 2..]
    {
      match value
      case None => mask
      case Some(v) => if |v| <= 4 then mask else v[..2] + mask + v[|v| - 2..]
    }
  }

  predicate IsSensitive(key: string)
  {
    Lower(key) in SensitiveKeys
  }

  /** `redact_dict(payload, redaction)`: a shallow copy with the sensitive entries masked. Values
      are strings or `None`; `redaction or Redaction()` falls back to the default mask. */
  function RedactDict(payload: map<string, Option<string>>, redaction: Option<Redaction>): (r: map<string, Option<string>>)
    ensures r.Keys == payload.Keys
    ensures forall k | k in payload && !IsSensitive(k) :: r[k] == payload[k]
    ensures forall k | k in payload && IsSensitive(k) ::
              r[k] == Some(redaction.GetOr(Redaction(DefaultMask)).Redact(payload[k]))
  {
    var red := redaction.GetOr(Redaction(DefaultMask));
    map k | k in payload :: if IsSensitive(k) then Some(red.Redact(payload[k])) else payload[k]
  }

  // ---------------------------------------------------------------- properties

  /** Nothing of a value but its first two and last two characters shows through: two long
      values that agree on those redact alike, and every short value redacts alike. */
  lemma RedactHidesTheMiddle(red: Redaction, v: string, w: string)
    requires (|v| <= 4 && |w| <= 4)
             || (|v| > 4 && |w| > 4 && v[..2] == w[..2] && v[|v| - 2..] == w[|w| - 2..])
    ensures red.Redact(Some(v)) == red.Redact(Some(w))
  {
  }

  /** Key matching ignores letter case. */
  lemma {:induction false} SensitivityIgnoresCase(k1: string, k2: string)
    requires Lower(k1) == Lower(k2)
    ensures IsSensitive(k1) <==> IsSensitive(k2)
  {
  }

  /** "PASSWORD" and "Password" are both masked. */
  lemma PasswordInAnyCase(payload: map<string, Option<string>>)
    requires "PASSWORD" in payload && "Password" in payload
    ensures RedactDict(payload, None)["PASSWORD"] == Some(Redaction(DefaultMask).Redact(payload["PASSWORD"]))
    ensures RedactDict(payload, None)["Password"] == Some(Redaction(DefaultMask).Redact(payload["Password"]))
  {
    assert Lower("PASSWORD") == "password";
    assert Lower("Password") == "password";
  }

  /** With a mask of one to four characters, redacting twice is redacting once. (An empty mask
      turns a long value into four characters, which a second pass masks away.) */
  lemma RedactIdempotent(red: Redaction, v: Option<string>)
    requires 1 <= |red.mask| <= 4
    ensures red.Redact(Some(red.Redact(v))) == red.Redact(v)
  {
    var r := red.Redact(v);
    if v.Some? && |v.value| > 4 {
      var s := v.value;
      assert r == s[..2] + red.mask + s[|s| - 2..];
      assert |r| > 4;
      assert r[..2] == s[..2];
      assert r[|r| - 2..] == s[|s| - 2..];
      assert r[..2] + red.mask + r[|r| - 2..] == r;
    }
  }

  /** So is masking a whole dictionary with the default mask. */
  lemma RedactDictIdempotent(payload: map<string, Option<string>>)
    ensures RedactDict(RedactDict(payload, None), None) == RedactDict(payload, None)
  {
    var once := RedactDict(payload, None);
    var twice := RedactDict(once, None);
    forall k | k in payload && IsSensitive(k) ensures twice[k] == once[k] {
      RedactIdempotent(Redaction(DefaultMask), payload[k]);
    }
  }
}
