/**
 * String operations of the Python standard library that the core relies on, restricted to
 * ASCII: character classes (`isalnum`, `\d`, `\w`, `isspace`), `lower`, `strip`, `split()`,
 * `split(sep)`, `sep.join`, `replace` and decimal conversion.
 */
module Text {

  predicate IsDigit(c: char) { '0' <= c <= '9' }
  predicate IsUpperAscii(c: char) { 'A' <= c <= 'Z' }
  predicate IsLowerAscii(c: char) { 'a' <= c <= 'z' }

  /** `[A-Za-z0-9]`: `str.isalnum` on ASCII, and the class negated by `[^a-zA-Z0-9]`. */
  predicate IsAlnum(c: char) { IsDigit(c) || IsUpperAscii(c) || IsLowerAscii(c) }

  /** `\w` on ASCII: `[A-Za-z0-9_]`. */
  predicate IsWordChar(c: char) { IsAlnum(c) || c == '_' }

  /** The ASCII characters for which `str.isspace` holds; `strip()` and `split()` use them. */
  predicate IsSpace(c: char)
  {
    c == ' ' || c == '\t' || c == '\n' || c == '\r' || c == '\U{0B}' || c == '\U{0C}'
    || c == '\U{1C}' || c == '\U{1D}' || c == '\U{1E}' || c == '\U{1F}'
  }

  predicate NoSpace(s: string) { forall k | 0 <= k < |s| :: !IsSpace(s[k]) }

  function LowerChar(c: char): char
  {
    if IsUpperAscii(c) then (c as int + 32) as char else c
  }

  /** `str.lower()` on ASCII. */
  function Lower(s: string): (r: string)
    ensures |r| == |s|
    ensures forall k | 0 <= k < |s| :: r[k] == LowerChar(s[k])
  {
    seq(|s|, k requires 0 <= k < |s| => LowerChar(s[k]))
  }

  lemma LowerIdempotent(s: string)
    ensures Lower(Lower(s)) == Lower(s)
  {
  }

  // ---------------------------------------------------------------- strip()

  /** Number of leading whitespace characters. */
  function LeadingSpaces(s: string): (n: nat)
    ensures n <= |s|
    ensures forall k | 0 <= k < n :: IsSpace(s[k])
    ensures n < |s| ==> !IsSpace(s[n])
    decreases |s|
  {
    if s != [] && IsSpace(s[0]) then 1 + LeadingSpaces(s[1..]) else 0
  }

  /** Number of trailing whitespace characters. */
  function TrailingSpaces(s: string): (n: nat)
    ensures n <= |s|
    ensures forall k | |s| - n <= k < |s| :: IsSpace(s[k])
    ensures n < |s| ==> !IsSpace(s[|s| - 1 - n])
    decreases |s|
  {
    if s != [] && IsSpace(s[|s| - 1]) then 1 + TrailingSpaces(s[..|s| - 1]) else 0
  }

  /** Where `Strip(s)` starts inside `s`. */
  function StripStart(s: string): nat
  {
    LeadingSpaces(s)
  }

  /** `str.strip()`: the longest infix that neither starts nor ends with whitespace, with only
      whitespace cut away on either side. */
  function Strip(s: string): (r: string)
    ensures r != [] ==> !IsSpace(r[0]) && !IsSpace(r[|r| - 1])
  {
    var t := s[LeadingSpaces(s)..];
    t[..|t| - TrailingSpaces(t)]
  }

  /** What `strip()` cut away on either side is whitespace. */
  lemma StripShape(s: string)
    ensures StripStart(s) + |Strip(s)| <= |s|
    ensures Strip(s) == s[StripStart(s)..StripStart(s) + |Strip(s)|]
    ensures AllSpace(s[..StripStart(s)])
    ensures AllSpace(s[StripStart(s) + |Strip(s)|..])
  {
    var t := s[LeadingSpaces(s)..];
    assert Strip(s) == t[..|t| - TrailingSpaces(t)];
  }

  lemma {:induction false} StripOfLower(s: string)
    ensures Strip(Lower(s)) == Lower(Strip(s))
  {
    var n := LeadingSpaces(s);
    LeadingSpacesOfLower(s);
    var t := s[n..];
    var m := TrailingSpaces(t);
    LowerSlices(s, n);
    TrailingSpacesOfLower(t);
    LowerSlices(t, |t| - m);
  }

  /** Lower-casing commutes with cutting a text at `i`. */
  lemma LowerSlices(s: string, i: nat)
    requires i <= |s|
    ensures Lower(s)[i..] == Lower(s[i..]) && Lower(s)[..i] == Lower(s[..i])
  {
  }

  lemma {:induction false} LeadingSpacesOfLower(s: string)
    ensures LeadingSpaces(Lower(s)) == LeadingSpaces(s)
    decreases |s|
  {
    if s != [] {
      assert Lower(s)[1..] == Lower(s[1..]);
      LeadingSpacesOfLower(s[1..]);
    }
  }

  lemma {:induction false} TrailingSpacesOfLower(s: string)
    ensures TrailingSpaces(Lower(s)) == TrailingSpaces(s)
    decreases |s|
  {
    if s != [] {
      assert Lower(s)[..|s| - 1] == Lower(s[..|s| - 1]);
      TrailingSpacesOfLower(s[..|s| - 1]);
    }
  }

  predicate AllSpace(s: string) { forall k | 0 <= k < |s| :: IsSpace(s[k]) }

  /** `strip()` of a text framed by whitespace is the text, when the text itself neither
      starts nor ends with whitespace. */
  lemma StripFramed(pre: string, mid: string, post: string)
    requires AllSpace(pre) && AllSpace(post)
    requires mid == [] || (!IsSpace(mid[0]) && !IsSpace(mid[|mid| - 1]))
    ensures Strip(pre + mid + post) == mid
  {
    var u := pre + mid + post;
    assert u == pre + (mid + post);
    LeadingSpacesPrefix(pre, mid + post);
    var t := u[LeadingSpaces(u)..];
    if mid != [] {
      assert LeadingSpaces(mid + post) == 0 by {
        assert (mid + post)[0] == mid[0];
      }
      assert t == mid + post;
      TrailingSpacesSuffix(mid, post);
      assert TrailingSpaces(mid) == 0;
      assert t[..|t| - TrailingSpaces(t)] == mid;
    } else {
      assert mid + post == post + [];
      LeadingSpacesPrefix(post, []);
      assert t == [];
    }
  }

  /** Whitespace around a string does not survive `strip()`. */
  lemma StripPadded(pre: string, s: string, post: string)
    requires AllSpace(pre) && AllSpace(post)
    ensures Strip(pre + s + post) == Strip(s)
  {
    StripShape(s);
    var r := Strip(s);
    var a := StripStart(s);
    var b := a + |r|;
    var front, back := s[..a], s[b..];
    assert s == front + r + back;
    AllSpaceConcat(pre, front);
    AllSpaceConcat(back, post);
    Regroup(pre, front, r, back, post);
    StripFramed(pre + front, r, back + post);
    StripFramed(front, r, back);
  }

  lemma AllSpaceConcat(a: string, b: string)
    requires AllSpace(a) && AllSpace(b)
    ensures AllSpace(a + b)
  {
    assert forall k | |a| <= k < |a + b| :: (a + b)[k] == b[k - |a|];
  }

  lemma Regroup<T>(pre: seq<T>, front: seq<T>, mid: seq<T>, back: seq<T>, post: seq<T>)
    ensures pre + (front + mid + back) + post == (pre + front) + mid + (back + post)
  {
  }

  lemma {:induction false} LeadingSpacesPrefix(pre: string, s: string)
    requires AllSpace(pre)
    ensures LeadingSpaces(pre + s) == |pre| + LeadingSpaces(s)
    decreases |pre|
  {
    if pre != [] {
      assert (pre + s)[1..] == pre[1..] + s;
      LeadingSpacesPrefix(pre[1..], s);
    } else {
      assert pre + s == s;
    }
  }

  lemma {:induction false} TrailingSpacesSuffix(s: string, post: string)
    requires AllSpace(post)
    ensures TrailingSpaces(s + post) == TrailingSpaces(s) + |post|
    decreases |post|
  {
    if post != [] {
      assert (s + post)[..|s + post| - 1] == s + post[..|post| - 1];
      TrailingSpacesSuffix(s, post[..|post| - 1]);
    } else {
      assert s + post == s;
    }
  }

  /** A string that neither starts nor ends with whitespace is its own `strip()`. */
  lemma StripUnpadded(s: string)
    requires s == [] || (!IsSpace(s[0]) && !IsSpace(s[|s| - 1]))
    ensures Strip(s) == s
  {
    assert [] + s + [] == s;
    StripFramed([], s, []);
  }

  // ---------------------------------------------------------------- split()

  /** Length of the leading run of non-whitespace characters. */
  function WordLength(s: string): (n: nat)
    ensures n <= |s|
    ensures forall k | 0 <= k < n :: !IsSpace(s[k])
    ensures n < |s| ==> IsSpace(s[n])
    decreases |s|
  {
    if s != [] && !IsSpace(s[0]) then 1 + WordLength(s[1..]) else 0
  }

  /** `str.split()` with no separator: the maximal runs of non-whitespace, in order. */
  function Words(s: string): (ws: seq<string>)
    ensures forall k | 0 <= k < |ws| :: ws[k] != [] && NoSpace(ws[k])
    decreases |s|
  {
    var n := LeadingSpaces(s);
    if n == |s| then []
    else
      var t := s[n..];
      var m := WordLength(t);
      [t[..m]] + Words(t[m..])
  }

  function Concat(parts: seq<string>): string
  {
    if parts == [] then [] else parts[0] + Concat(parts[1..])
  }

  /** The characters of `s` that are not whitespace, in order. */
  function RemoveSpaces(s: string): (r: string)
    ensures NoSpace(r)
  {
    if s == [] then []
    else if IsSpace(s[0]) then RemoveSpaces(s[1..])
    else [s[0]] + RemoveSpaces(s[1..])
  }

  lemma {:induction false} RemoveSpacesAppend(a: string, b: string)
    ensures RemoveSpaces(a + b) == RemoveSpaces(a) + RemoveSpaces(b)
    decreases |a|
  {
    if a == [] {
      assert a + b == b;
    } else {
      assert (a + b)[1..] == a[1..] + b;
      RemoveSpacesAppend(a[1..], b);
    }
  }

  lemma {:induction false} RemoveSpacesOfSpaces(s: string)
    requires forall k | 0 <= k < |s| :: IsSpace(s[k])
    ensures RemoveSpaces(s) == []
    decreases |s|
  {
    if s != [] { RemoveSpacesOfSpaces(s[1..]); }
  }

  lemma {:induction false} RemoveSpacesOfWord(s: string)
    requires NoSpace(s)
    ensures RemoveSpaces(s) == s
    decreases |s|
  {
    if s != [] { RemoveSpacesOfWord(s[1..]); }
  }

  /** `split()` loses exactly the whitespace: its tokens glued together are the input without
      its whitespace characters. */
  lemma ConcatCons(w: string, ws: seq<string>)
    ensures Concat([w] + ws) == w + Concat(ws)
  {
    assert ([w] + ws)[1..] == ws;
  }

  /** `split()` loses exactly the whitespace: its tokens glued together are the input without
      its whitespace characters. */
  lemma {:induction false} WordsKeepEverythingButSpace(s: string)
    ensures Concat(Words(s)) == RemoveSpaces(s)
    decreases |s|
  {
    var n := LeadingSpaces(s);
    assert s == s[..n] + s[n..];
    RemoveSpacesAppend(s[..n], s[n..]);
    RemoveSpacesOfSpaces(s[..n]);
    if n == |s| {
      assert Words(s) == [];
    } else {
      var t := s[n..];
      var m := WordLength(t);
      assert t == t[..m] + t[m..];
      RemoveSpacesAppend(t[..m], t[m..]);
      RemoveSpacesOfWord(t[..m]);
      var rest := Words(t[m..]);
      WordsKeepEverythingButSpace(t[m..]);
      assert Words(s) == [t[..m]] + rest;
      ConcatCons(t[..m], rest);
      calc {
        RemoveSpaces(s);
        RemoveSpaces(s[..n]) + RemoveSpaces(t);
        RemoveSpaces(t);
        t[..m] + RemoveSpaces(t[m..]);
        t[..m] + Concat(rest);
      }
    }
  }

  // ---------------------------------------------------------------- split(sep), join, replace

  /** `s[i..]` starts with `p`. */
  predicate OccursAt(s: string, p: string, i: nat)
  {
    i + |p| <= |s| && s[i..i + |p|] == p
  }

  /** `p in s` for strings. */
  predicate Contains(s: string, p: string)
  {
    exists i: nat | i <= |s| :: OccursAt(s, p, i)
  }

  /** `s.split(sep)`: pieces between the leftmost non-overlapping occurrences of `sep`. */
  function SplitOn(s: string, sep: string): (parts: seq<string>)
    requires |sep| > 0
    ensures |parts| >= 1
    decreases |s|
  {
    if |s| < |sep| then [s]
    else if s[..|sep|] == sep then [""] + SplitOn(s[|sep|..], sep)
    else
      var rest := SplitOn(s[1..], sep);
      [[s[0]] + rest[0]] + rest[1..]
  }

  /** `sep.join(parts)`. */
  function Join(sep: string, parts: seq<string>): string
  {
    if |parts| == 0 then ""
    else if |parts| == 1 then parts[0]
    else parts[0] + sep + Join(sep, parts[1..])
  }

  /** `c` does not occur in `s`. */
  predicate Lacks(s: string, c: char)
  {
    forall k | 0 <= k < |s| :: s[k] != c
  }

  /** `SplitOn` on a single character skips a piece without that character. */
  lemma {:induction false} SplitOnCharPiece(a: string, c: char, rest: string)
    requires Lacks(a, c)
    ensures SplitOn(a + [c] + rest, [c]) == [a] + SplitOn(rest, [c])
    decreases |a|
  {
    var u := a + [c] + rest;
    if a == [] {
      assert u == [c] + rest;
      assert u[..1] == [c];
      assert u[1..] == rest;
    } else {
      assert u[..1] != [c] by { assert u[0] == a[0]; }
      assert u[1..] == a[1..] + [c] + rest;
      SplitOnCharPiece(a[1..], c, rest);
      assert u[0] == a[0];
      assert [a[0]] + a[1..] == a;
    }
  }

  /** ... and a last piece without it is the whole list. */
  lemma {:induction false} SplitOnCharNone(a: string, c: char)
    requires Lacks(a, c)
    ensures SplitOn(a, [c]) == [a]
    decreases |a|
  {
    if |a| >= 1 {
      assert a[..1] != [c] by { assert a[..1][0] == a[0]; }
      SplitOnCharNone(a[1..], c);
      assert [a[0]] + a[1..] == a;
    }
  }

  /** Joining pieces free of `c` with `c` and splitting on `c` again gives the pieces back. */
  lemma {:induction false} SplitJoinChar(parts: seq<string>, c: char)
    requires parts != []
    requires forall i | 0 <= i < |parts| :: Lacks(parts[i], c)
    ensures SplitOn(Join([c], parts), [c]) == parts
    decreases |parts|
  {
    if |parts| == 1 {
      SplitOnCharNone(parts[0], c);
    } else {
      SplitJoinChar(parts[1..], c);
      SplitOnCharPiece(parts[0], c, Join([c], parts[1..]));
      assert [parts[0]] + parts[1..] == parts;
    }
  }

  /** `s.replace(p, r)`: every leftmost non-overlapping occurrence of `p` becomes `r`. */
  function ReplaceAll(s: string, p: string, r: string): string
    requires |p| > 0
    decreases |s|
  {
    if |s| < |p| then s
    else if s[..|p|] == p then r + ReplaceAll(s[|p|..], p, r)
    else [s[0]] + ReplaceAll(s[1..], p, r)
  }

  lemma JoinConsChar(sep: string, c: char, x: string, rest: seq<string>)
    ensures Join(sep, [[c] + x] + rest) == [c] + Join(sep, [x] + rest)
  {
    if rest != [] {
      assert ([[c] + x] + rest)[1..] == rest;
      assert ([x] + rest)[1..] == rest;
    }
  }

  /** Joining the pieces of a split with the same separator gives back the original string. */
  lemma {:induction false} JoinSplitOn(s: string, sep: string)
    requires |sep| > 0
    ensures Join(sep, SplitOn(s, sep)) == s
    decreases |s|
  {
    if |s| < |sep| {
    } else if s[..|sep|] == sep {
      var tail := SplitOn(s[|sep|..], sep);
      JoinSplitOn(s[|sep|..], sep);
      assert SplitOn(s, sep) == [""] + tail;
      assert ([""] + tail)[1..] == tail;
      assert Join(sep, [""] + tail) == "" + sep + Join(sep, tail);
      assert s == sep + s[|sep|..];
    } else {
      var rest := SplitOn(s[1..], sep);
      JoinSplitOn(s[1..], sep);
      assert SplitOn(s, sep) == [[s[0]] + rest[0]] + rest[1..];
      JoinConsChar(sep, s[0], rest[0], rest[1..]);
      assert [rest[0]] + rest[1..] == rest;
      assert s == [s[0]] + s[1..];
    }
  }

  /** `replace` is `split` followed by `join` with the replacement. */
  lemma {:induction false} ReplaceAllIsJoinOfSplit(s: string, p: string, r: string)
    requires |p| > 0
    ensures ReplaceAll(s, p, r) == Join(r, SplitOn(s, p))
    decreases |s|
  {
    if |s| < |p| {
    } else if s[..|p|] == p {
      ReplaceAllIsJoinOfSplit(s[|p|..], p, r);
    } else {
      var rest := SplitOn(s[1..], p);
      ReplaceAllIsJoinOfSplit(s[1..], p, r);
      JoinConsChar(r, s[0], rest[0], rest[1..]);
      assert [rest[0]] + rest[1..] == rest;
    }
  }

  /** Replacing a pattern by itself changes nothing. */
  lemma ReplaceAllBySelf(s: string, p: string)
    requires |p| > 0
    ensures ReplaceAll(s, p, p) == s
  {
    ReplaceAllIsJoinOfSplit(s, p, p);
    JoinSplitOn(s, p);
  }

  /** A string without the pattern is left as it is. */
  lemma {:induction false} ReplaceAllAbsent(s: string, p: string, r: string)
    requires |p| > 0 && !Contains(s, p)
    ensures ReplaceAll(s, p, r) == s
    decreases |s|
  {
    if |s| >= |p| {
      assert !OccursAt(s, p, 0);
      assert s[..|p|] != p;
      forall i: nat | i <= |s[1..]| ensures !OccursAt(s[1..], p, i) {
        if OccursAt(s[1..], p, i) {
          assert s[1..][i..i + |p|] == s[i + 1..i + 1 + |p|];
          assert OccursAt(s, p, i + 1);
        }
      }
      ReplaceAllAbsent(s[1..], p, r);
    }
  }

  /** A prefix in which the pattern's first character does not occur is copied unchanged. */
  lemma {:induction false} ReplaceAllCopiesPrefix(a: string, s: string, p: string, r: string)
    requires |p| > 0
    requires forall k | 0 <= k < |a| :: a[k] != p[0]
    ensures ReplaceAll(a + s, p, r) == a + ReplaceAll(s, p, r)
    decreases |a|
  {
    if a == [] {
      assert a + s == s;
    } else if |a + s| < |p| {
      assert ReplaceAll(a + s, p, r) == a + s;
      assert ReplaceAll(s, p, r) == s;
    } else {
      var u := a + s;
      assert u[..|p|][0] == a[0] != p[0];
      assert u[..|p|] != p;
      assert ReplaceAll(u, p, r) == [u[0]] + ReplaceAll(u[1..], p, r);
      assert u[1..] == a[1..] + s;
      ReplaceAllCopiesPrefix(a[1..], s, p, r);
      assert [a[0]] + a[1..] == a;
    }
  }

  /** A single-character `replace` rewrites characters in place. */
  lemma {:induction false} ReplaceCharPointwise(s: string, c: char, d: char)
    ensures |ReplaceAll(s, [c], [d])| == |s|
    ensures forall k | 0 <= k < |s| :: ReplaceAll(s, [c], [d])[k] == (if s[k] == c then d else s[k])
    decreases |s|
  {
    if s != [] {
      ReplaceCharPointwise(s[1..], c, d);
      var t := ReplaceAll(s[1..], [c], [d]);
      assert ReplaceAll(s, [c], [d]) == [if s[0] == c then d else s[0]] + t;
    }
  }

  // ---------------------------------------------------------------- decimal numbers

  function DigitChar(d: nat): (c: char)
    requires d < 10
    ensures IsDigit(c)
  {
    ('0' as int + d) as char
  }

  function DigitValue(c: char): (d: nat)
    requires IsDigit(c)
    ensures d < 10
  {
    c as int - '0' as int
  }

  predicate AllDigits(s: string) { forall k | 0 <= k < |s| :: IsDigit(s[k]) }

  /** `str(n)` for a natural number. */
  function NatToDec(n: nat): (s: string)
    ensures |s| >= 1 && AllDigits(s)
    decreases n
  {
    if n < 10 then [DigitChar(n)] else NatToDec(n / 10) + [DigitChar(n % 10)]
  }

  /** The value of a string of decimal digits (`int(s)` without sign or whitespace). */
  function DecToNat(s: string): nat
    requires AllDigits(s)
    decreases |s|
  {
    if s == [] then 0 else DecToNat(s[..|s| - 1]) * 10 + DigitValue(s[|s| - 1])
  }

  /** Printing a number in decimal and reading it back gives the number. */
  lemma {:induction false} DecRoundTrip(n: nat)
    ensures DecToNat(NatToDec(n)) == n
    decreases n
  {
    if n >= 10 {
      var s := NatToDec(n);
      assert s[..|s| - 1] == NatToDec(n / 10);
      DecRoundTrip(n / 10);
    }
  }

  /** A number between 1000 and 9999 prints as exactly four digits. */
  lemma FourDigits(n: nat)
    requires 1000 <= n <= 9999
    ensures |NatToDec(n)| == 4
  {
    var n1, n2, n3 := n / 10, n / 100, n / 1000;
    assert n1 / 10 == n2 && n2 / 10 == n3;
    assert 1 <= n3 <= 9;
    assert |NatToDec(n3)| == 1;
    assert |NatToDec(n2)| == |NatToDec(n3)| + 1;
    assert |NatToDec(n1)| == |NatToDec(n2)| + 1;
    assert |NatToDec(n)| == |NatToDec(n1)| + 1;
  }
}
