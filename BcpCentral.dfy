/**
 * The pure helpers and the failure-collecting loop of the dataset downloader
 * (src/bcp_central.py): report-list merging, search URLs, file-name slugs, the fuzzy link
 * pattern, link choice and per-report failure isolation. The browser is reduced to the
 * outcome of each report and to a regex oracle.
 */
module BcpCentral {
  import opened Wrappers
  import opened Text

  // ---------------------------------------------------------------- parse_reports

  const DefaultReports: seq<string> :=
    ["International Air Traffic Data", "Average Number Of Trains Run Daily upto 2013-14"]

  predicate NoDuplicates<T(==)>(s: seq<T>)
  {
    forall i, j | 0 <= i < j < |s| :: s[i] != s[j]
  }

  /** Index of the first occurrence of `x` in `s`. */
  function FirstIndex<T(==)>(s: seq<T>, x: T): (i: nat)
    requires x in s
    ensures i < |s| && s[i] == x && x !in s[..i]
  {
    if s[0] == x then 0 else 1 + FirstIndex(s[1..], x)
  }

  /** `list(dict.fromkeys(s))`: the first occurrence of every element, in order. */
  function Dedupe<T(==)>(s: seq<T>): (r: seq<T>)
    ensures NoDuplicates(r)
    ensures forall k | 0 <= k < |s| :: s[k] in r
    ensures forall k | 0 <= k < |r| :: r[k] in s
    decreases |s|
  {
    if s == [] then []
    else
      var d := Dedupe(s[..|s| - 1]);
      if s[|s| - 1] in d then d else d + [s[|s| - 1]]
  }

  /** The kept elements are in the order of their first occurrences. */
  lemma {:induction false} DedupeKeepsOrder<T>(s: seq<T>)
    ensures forall i, j | 0 <= i < j < |Dedupe(s)| :: FirstIndex(s, Dedupe(s)[i]) < FirstIndex(s, Dedupe(s)[j])
    decreases |s|
  {
    if s != [] {
      var init := s[..|s| - 1];
      var last := s[|s| - 1];
      var d := Dedupe(init);
      DedupeKeepsOrder(init);
      assert s == init + [last];
      forall x | x in init ensures FirstIndex(s, x) == FirstIndex(init, x) {
        FirstIndexOfPrefix(init, s, x);
      }
      if last !in d {
        assert last !in init;
        FirstIndexOfFresh(init, last);
        assert Dedupe(s) == d + [last];
        forall i, j | 0 <= i < j < |Dedupe(s)|
          ensures FirstIndex(s, Dedupe(s)[i]) < FirstIndex(s, Dedupe(s)[j])
        {
          if j < |d| {
            assert Dedupe(s)[i] == d[i] && Dedupe(s)[j] == d[j];
          } else {
            assert Dedupe(s)[i] == d[i] && d[i] in init;
          }
        }
      }
    }
  }

  lemma {:induction false} FirstIndexOfPrefix<T>(init: seq<T>, s: seq<T>, x: T)
    requires |init| <= |s| && s[..|init|] == init && x in init
    ensures FirstIndex(s, x) == FirstIndex(init, x)
    decreases |init|
  {
    assert s[0] == init[0];
    if s[0] != x {
      assert s[1..][..|init[1..]|] == init[1..];
      FirstIndexOfPrefix(init[1..], s[1..], x);
    }
  }

  lemma {:induction false} FirstIndexOfFresh<T>(init: seq<T>, x: T)
    requires x !in init
    ensures FirstIndex(init + [x], x) == |init|
    decreases |init|
  {
    if init != [] {
      assert (init + [x])[1..] == init[1..] + [x];
      FirstIndexOfFresh(init[1..], x);
    }
  }

  /** The `|`-separated names of the `REPORTS` setting, stripped, empty ones dropped. */
  function EnvReports(value: string): (names: seq<string>)
    ensures forall k | 0 <= k < |names| :: names[k] != "" && !IsSpace(names[k][0]) && !IsSpace(names[k][|names[k]| - 1])
  {
    SegmentsKept(SplitOn(value, "|"))
  }

  function SegmentsKept(parts: seq<string>): (names: seq<string>)
    ensures forall k | 0 <= k < |names| :: names[k] != "" && !IsSpace(names[k][0]) && !IsSpace(names[k][|names[k]| - 1])
  {
    if parts == [] then []
    else
      var head := Strip(parts[0]);
      if head != "" then [head] + SegmentsKept(parts[1..]) else SegmentsKept(parts[1..])
  }

  /** Segments are kept one by one: those of two blocks are those of the first, then those of
      the second. */
  lemma {:induction false} SegmentsKeptAppend(a: seq<string>, b: seq<string>)
    ensures SegmentsKept(a + b) == SegmentsKept(a) + SegmentsKept(b)
    decreases |a|
  {
    if a == [] {
      assert a + b == b;
    } else {
      assert (a + b)[0] == a[0] && (a + b)[1..] == a[1..] + b;
      SegmentsKeptAppend(a[1..], b);
    }
  }

  /** One segment gives its stripped text, unless that is empty. */
  lemma SegmentsKeptOne(part: string)
    ensures SegmentsKept([part]) == (if Strip(part) != "" then [Strip(part)] else [])
  {
    assert [part][1..] == [];
  }

  /** A name is kept exactly when it is the non-empty stripped text of some segment. */
  lemma {:induction false} SegmentsKeptMembers(parts: seq<string>)
    ensures forall x :: x in SegmentsKept(parts) <==> x != "" && exists k | 0 <= k < |parts| :: Strip(parts[k]) == x
    decreases |parts|
  {
    if parts != [] {
      SegmentsKeptMembers(parts[1..]);
      forall x ensures x in SegmentsKept(parts) <==> x != "" && exists k | 0 <= k < |parts| :: Strip(parts[k]) == x {
        if x != "" && exists k | 0 <= k < |parts| :: Strip(parts[k]) == x {
          var k :| 0 <= k < |parts| && Strip(parts[k]) == x;
          if k > 0 {
            assert Strip(parts[1..][k - 1]) == x;
          }
        }
        if x in SegmentsKept(parts[1..]) {
          var k :| 0 <= k < |parts[1..]| && Strip(parts[1..][k]) == x;
          assert Strip(parts[k + 1]) == x;
        }
      }
    }
  }

  /** A setting written as names joined by `|` gives back those names, stripped, without the
      empty ones. */
  lemma EnvReportsOfJoin(parts: seq<string>)
    requires parts != []
    requires forall i | 0 <= i < |parts| :: Lacks(parts[i], '|')
    ensures EnvReports(Join("|", parts)) == SegmentsKept(parts)
  {
    SplitJoinChar(parts, '|');
  }

  lemma StripTwice(s: string)
    ensures Strip(Strip(s)) == Strip(s)
  {
    var r := Strip(s);
    if r != [] {
      assert LeadingSpaces(r) == 0;
      assert TrailingSpaces(r[LeadingSpaces(r)..]) == 0;
    }
  }

  /** `parse_reports(cli_reports)`, with `os.getenv("REPORTS")` as `env`. */
  function ParseReports(cli: seq<string>, env: Option<string>): seq<string>
  {
    MergeReports(cli, EnvReports(env.GetOr("")))
  }

  /** The command-line names followed by the setting's, each once; the defaults when both
      are empty. */
  function MergeReports(cli: seq<string>, names: seq<string>): seq<string>
  {
    if cli + names != [] then Dedupe(cli + names) else DefaultReports
  }

  lemma MergeReportsContents(cli: seq<string>, names: seq<string>)
    ensures NoDuplicates(MergeReports(cli, names))
    ensures cli + names != [] ==> forall x :: x in MergeReports(cli, names) <==> x in cli || x in names
    ensures cli + names == [] ==> MergeReports(cli, names) == DefaultReports
  {
    if cli + names != [] {
      DedupeMembers(cli + names);
    } else {
      assert |DefaultReports[0]| != |DefaultReports[1]|;
    }
  }

  /** Deduplicating keeps exactly the elements there were. */
  lemma DedupeMembers<T>(s: seq<T>)
    ensures forall x :: x in Dedupe(s) <==> x in s
  {
    var r := Dedupe(s);
    forall x ensures x in r <==> x in s {
      if x in r { var k :| 0 <= k < |r| && r[k] == x; assert r[k] in s; }
      if x in s { var k :| 0 <= k < |s| && s[k] == x; assert s[k] in r; }
    }
  }

  /** After deduplicating `p + q`, the elements of `p` come before those only in `q`. */
  lemma DedupePrefixFirst<T>(p: seq<T>, q: seq<T>, i: nat, j: nat)
    requires i < |Dedupe(p + q)| && j < |Dedupe(p + q)|
    requires Dedupe(p + q)[i] in p && Dedupe(p + q)[j] !in p
    ensures i < j
  {
    var s := p + q;
    var r := Dedupe(s);
    assert s[..|p|] == p;
    FirstIndexOfPrefix(p, s, r[i]);
    var fi, fj := FirstIndex(s, r[i]), FirstIndex(s, r[j]);
    assert fi < |p|;
    assert fj >= |p| by {
      assert forall k | 0 <= k < |p| :: s[k] in p;
      assert s[fj] !in p;
    }
    DedupeKeepsOrder(s);
    assert j < i ==> fj < fi;
  }

  /** The merged list: each name once, exactly the names given on the command line or in the
      setting, and the default reports when both are empty. */
  lemma ParseReportsContents(cli: seq<string>, env: Option<string>)
    ensures NoDuplicates(ParseReports(cli, env))
    ensures cli + EnvReports(env.GetOr("")) != [] ==>
              forall x :: x in ParseReports(cli, env) <==> x in cli || x in EnvReports(env.GetOr(""))
    ensures cli + EnvReports(env.GetOr("")) == [] ==> ParseReports(cli, env) == DefaultReports
  {
    MergeReportsContents(cli, EnvReports(env.GetOr("")));
  }

  /** Command-line names come before names that only the setting supplies. */
  lemma CliNamesFirst(cli: seq<string>, env: Option<string>, i: nat, j: nat)
    requires cli != []
    requires i < |ParseReports(cli, env)| && j < |ParseReports(cli, env)|
    requires ParseReports(cli, env)[i] in cli && ParseReports(cli, env)[j] !in cli
    ensures i < j
  {
    var names := EnvReports(env.GetOr(""));
    assert ParseReports(cli, env) == Dedupe(cli + names);
    DedupePrefixFirst(cli, names, i, j);
  }

  /** The list is never empty, so the entry point's "no reports" exit cannot happen. */
  lemma ParseReportsNonEmpty(cli: seq<string>, env: Option<string>)
    ensures ParseReports(cli, env) != []
  {
    var combined := cli + EnvReports(env.GetOr(""));
    if combined != [] { assert combined[0] in Dedupe(combined); }
  }

  // ---------------------------------------------------------------- build_search_url

  const QueryPlaceholder: string := "{query}"
  const DefaultSearchTemplate: string := "https://www.data.gov.in/search?query={query}"

  /** `build_search_url(query)` for the template `template`; `quotePlus` is
      `urllib.parse.quote_plus`. Every placeholder is replaced by the encoded query (the
      template cut at the placeholders, rejoined with the query); without one the query is
      appended. */
  function BuildSearchUrl(template: string, query: string, quotePlus: string -> string): (url: string)
    ensures !Contains(template, QueryPlaceholder) ==> url == template + quotePlus(query)
    ensures Contains(template, QueryPlaceholder) ==>
              url == Join(quotePlus(query), SplitOn(template, QueryPlaceholder))
  {
    var encoded := quotePlus(query);
    if Contains(template, QueryPlaceholder) then
      ReplaceAllIsJoinOfSplit(template, QueryPlaceholder, encoded);
      ReplaceAll(template, QueryPlaceholder, encoded)
    else template + encoded
  }

  /** With the default template the encoded query lands after `query=`. */
  lemma DefaultSearchUrl(query: string, quotePlus: string -> string)
    ensures BuildSearchUrl(DefaultSearchTemplate, query, quotePlus)
            == "https://www.data.gov.in/search?query=" + quotePlus(query)
  {
    var prefix := "https://www.data.gov.in/search?query=";
    assert DefaultSearchTemplate == prefix + QueryPlaceholder;
    PlaceholderAtEnd(prefix, query, quotePlus);
  }

  /** A template that ends in its only placeholder gives the part before it followed by the
      encoded query. */
  lemma PlaceholderAtEnd(prefix: string, query: string, quotePlus: string -> string)
    requires forall k | 0 <= k < |prefix| :: prefix[k] != '{'
    ensures BuildSearchUrl(prefix + QueryPlaceholder, query, quotePlus) == prefix + quotePlus(query)
  {
    var template := prefix + QueryPlaceholder;
    var e := quotePlus(query);
    assert OccursAt(template, QueryPlaceholder, |prefix|);
    ReplaceAllCopiesPrefix(prefix, QueryPlaceholder, QueryPlaceholder, e);
    PlaceholderReplaced(e);
    assert ReplaceAll(template, QueryPlaceholder, e) == prefix + e;
  }

  /** The placeholder on its own is replaced by the encoded query. */
  lemma PlaceholderReplaced(e: string)
    ensures ReplaceAll(QueryPlaceholder, QueryPlaceholder, e) == e
  {
    assert QueryPlaceholder[..|QueryPlaceholder|] == QueryPlaceholder;
    assert QueryPlaceholder[|QueryPlaceholder|..] == "";
    assert ReplaceAll(QueryPlaceholder, QueryPlaceholder, e) == e + ReplaceAll("", QueryPlaceholder, e);
  }

  // ---------------------------------------------------------------- sanitize_filename

  /** Drops the leading run of characters outside `[a-zA-Z0-9]`. */
  function SkipRun(s: string): (r: string)
    ensures |r| <= |s| && r == s[|s| - |r|..]
    ensures r != [] ==> IsAlnum(r[0])
    ensures s != [] && !IsAlnum(s[0]) ==> |r| < |s|
    decreases |s|
  {
    if s != [] && !IsAlnum(s[0]) then SkipRun(s[1..]) else s
  }

  /** Only `[A-Za-z0-9-]`, and never two dashes in a row. */
  predicate DashSeparated(s: string)
  {
    && (forall k | 0 <= k < |s| :: IsAlnum(s[k]) || s[k] == '-')
    && (forall k | 0 <= k < |s| - 1 :: !(s[k] == '-' && s[k + 1] == '-'))
  }

  /** `re.sub(r"[^a-zA-Z0-9]+", "-", s)`: each maximal run of other characters becomes one dash. */
  function CollapseRuns(s: string): (r: string)
    ensures DashSeparated(r)
    ensures s != [] && IsAlnum(s[0]) ==> r != [] && r[0] == s[0]
    decreases |s|
  {
    if s == [] then []
    else if IsAlnum(s[0]) then
      var rest := CollapseRuns(s[1..]);
      [s[0]] + rest
    else
      var t := SkipRun(s);
      var rest := CollapseRuns(t);
      assert rest != [] ==> IsAlnum(rest[0]);
      "-" + rest
  }

  function StripLeadingDashes(s: string): (r: string)
    ensures |r| <= |s| && r == s[|s| - |r|..]
    ensures r != [] ==> r[0] != '-'
    decreases |s|
  {
    if s != [] && s[0] == '-' then StripLeadingDashes(s[1..]) else s
  }

  function StripTrailingDashes(s: string): (r: string)
    ensures |r| <= |s| && r == s[..|r|]
    ensures r != [] ==> r[|r| - 1] != '-'
    decreases |s|
  {
    if s != [] && s[|s| - 1] == '-' then StripTrailingDashes(s[..|s| - 1]) else s
  }

  /** A file-name slug: non-empty, only `[a-z0-9-]`, no dash at either end, no two in a row. */
  predicate IsSlug(s: string)
  {
    && s != []
    && (forall k | 0 <= k < |s| :: IsDigit(s[k]) || IsLowerAscii(s[k]) || s[k] == '-')
    && s[0] != '-' && s[|s| - 1] != '-'
    && (forall k | 0 <= k < |s| - 1 :: !(s[k] == '-' && s[k + 1] == '-'))
  }

  lemma DashSeparatedInfix(s: string, i: nat, j: nat)
    requires DashSeparated(s) && i <= j <= |s|
    ensures DashSeparated(s[i..j])
  {
    var t := s[i..j];
    assert forall k | 0 <= k < |t| :: t[k] == s[i + k];
  }

  /** A dash-separated string without a dash at either end lower-cases to a slug. */
  lemma LowerOfTrimmed(t: string)
    requires DashSeparated(t) && t != [] && t[0] != '-' && t[|t| - 1] != '-'
    ensures IsSlug(Lower(t))
  {
    var u := Lower(t);
    forall k | 0 <= k < |t| ensures IsDigit(u[k]) || IsLowerAscii(u[k]) || u[k] == '-' {
      assert u[k] == LowerChar(t[k]);
    }
    forall k | 0 <= k < |t| - 1 ensures !(u[k] == '-' && u[k + 1] == '-') {
      assert u[k] == LowerChar(t[k]) && u[k + 1] == LowerChar(t[k + 1]);
    }
  }

  lemma ReportIsSlug()
    ensures IsSlug("report")
  {
    var r := "report";
    assert r[0] == 'r' && r[1] == 'e' && r[2] == 'p' && r[3] == 'o' && r[4] == 'r' && r[5] == 't';
  }

  /** `sanitize_filename(label)`: the label's alphanumeric runs, lower-cased and joined by single
      dashes; "report" when nothing is left. */
  function SanitizeFilename(title: string): (r: string)
    ensures IsSlug(r)
  {
    var collapsed := CollapseRuns(title);
    var slug := StripTrailingDashes(StripLeadingDashes(collapsed));
    TrimmedIsSlug(collapsed);
    if slug == [] then ReportIsSlug(); "report"
    else Lower(slug)
  }

  /** Cutting the dashes off both ends of a dash-separated text and lower-casing it leaves a
      slug, unless nothing is left. */
  lemma TrimmedIsSlug(collapsed: string)
    requires DashSeparated(collapsed)
    ensures var slug := StripTrailingDashes(StripLeadingDashes(collapsed));
            slug != [] ==> IsSlug(Lower(slug))
  {
    var lead := StripLeadingDashes(collapsed);
    DashSeparatedInfix(collapsed, |collapsed| - |lead|, |collapsed|);
    var slug := StripTrailingDashes(lead);
    DashSeparatedInfix(lead, 0, |slug|);
    if slug != [] {
      LowerOfTrimmed(slug);
    }
  }

  /** A string that is already a slug passes through the collapsing step unchanged. */
  lemma {:induction false} CollapseRunsOfDashSeparated(s: string)
    requires DashSeparated(s)
    requires s != [] ==> IsAlnum(s[|s| - 1]) || s[|s| - 1] == '-'
    requires s != [] && s[0] == '-' ==> |s| == 1 || IsAlnum(s[1])
    ensures CollapseRuns(s) == s
    decreases |s|
  {
    if s != [] {
      if IsAlnum(s[0]) {
        CollapseRunsOfDashSeparated(s[1..]);
      } else {
        assert SkipRun(s) == s[1..] by {
          assert s[1..] != [] ==> IsAlnum(s[1..][0]);
        }
        CollapseRunsOfDashSeparated(s[1..]);
      }
    }
  }

  /** A slug is its own sanitised form. */
  lemma SanitizeOfSlug(s: string)
    requires IsSlug(s)
    ensures SanitizeFilename(s) == s
  {
    assert DashSeparated(s);
    CollapseRunsOfDashSeparated(s);
    assert StripLeadingDashes(s) == s;
    assert StripTrailingDashes(s) == s;
    assert Lower(s) == s;
  }

  /** Sanitising is idempotent. */
  lemma SanitizeIdempotent(title: string)
    ensures SanitizeFilename(SanitizeFilename(title)) == SanitizeFilename(title)
  {
    SanitizeOfSlug(SanitizeFilename(title));
  }

  /** The characters of `s` in `[A-Za-z0-9]`, in order. */
  function Alnums(s: string): string
    decreases |s|
  {
    if s == [] then []
    else (if IsAlnum(s[0]) then [s[0]] else []) + Alnums(s[1..])
  }

  lemma {:induction false} AlnumsAppend(a: string, b: string)
    ensures Alnums(a + b) == Alnums(a) + Alnums(b)
    decreases |a|
  {
    if a == [] {
      assert a + b == b;
    } else {
      var ab := a + b;
      assert ab[0] == a[0] && ab[1..] == a[1..] + b;
      AlnumsAppend(a[1..], b);
      var head: string := if IsAlnum(a[0]) then [a[0]] else [];
      assert Alnums(ab) == head + Alnums(a[1..] + b);
      assert Alnums(a) == head + Alnums(a[1..]);
    }
  }

  lemma AlnumsCons(c: char, rest: string)
    ensures Alnums([c] + rest) == (if IsAlnum(c) then [c] else []) + Alnums(rest)
  {
    assert ([c] + rest)[0] == c && ([c] + rest)[1..] == rest;
  }

  lemma {:induction false} AlnumsOfSkipRun(s: string)
    ensures Alnums(SkipRun(s)) == Alnums(s)
    decreases |s|
  {
    if s != [] && !IsAlnum(s[0]) {
      var t := s[1..];
      AlnumsOfSkipRun(t);
      assert Alnums(s) == Alnums(t);
      assert SkipRun(s) == SkipRun(t);
    }
  }

  /** Collapsing runs only replaces characters outside `[A-Za-z0-9]`. */
  lemma {:induction false} AlnumsOfCollapse(s: string)
    ensures Alnums(CollapseRuns(s)) == Alnums(s)
    decreases |s|
  {
    if s != [] {
      if IsAlnum(s[0]) {
        assert CollapseRuns(s) == [s[0]] + CollapseRuns(s[1..]);
        AlnumsOfCollapse(s[1..]);
        AlnumsCons(s[0], CollapseRuns(s[1..]));
      } else {
        assert CollapseRuns(s) == "-" + CollapseRuns(SkipRun(s));
        AlnumsOfCollapse(SkipRun(s));
        AlnumsOfSkipRun(s);
        AlnumsCons('-', CollapseRuns(SkipRun(s)));
      }
    }
  }

  lemma {:induction false} AlnumsOfStripLeading(s: string)
    ensures Alnums(StripLeadingDashes(s)) == Alnums(s)
    decreases |s|
  {
    if s != [] && s[0] == '-' {
      var t := s[1..];
      AlnumsOfStripLeading(t);
      assert Alnums(s) == Alnums(t);
      assert StripLeadingDashes(s) == StripLeadingDashes(t);
    }
  }

  lemma {:induction false} AlnumsOfStripTrailing(s: string)
    ensures Alnums(StripTrailingDashes(s)) == Alnums(s)
    decreases |s|
  {
    if s != [] && s[|s| - 1] == '-' {
      var init := s[..|s| - 1];
      AlnumsOfStripTrailing(init);
      assert s == init + "-";
      AlnumsAppend(init, "-");
      assert Alnums("-") == [] by {
        assert "-"[1..] == [];
      }
    }
  }

  /** Lower-casing keeps exactly the same characters alphanumeric. */
  lemma {:induction false} AlnumsOfLower(s: string)
    ensures Alnums(Lower(s)) == Lower(Alnums(s))
    decreases |s|
  {
    if s != [] {
      AlnumsOfLower(s[1..]);
      LowerSlices(s, 1);
      assert Lower(s)[0] == LowerChar(s[0]);
      var head: string := if IsAlnum(s[0]) then [s[0]] else [];
      assert Lower(head + Alnums(s[1..])) == Lower(head) + Lower(Alnums(s[1..]));
    }
  }

  /** What `sanitize_filename` keeps of a label: "report" when the label has no character of
      `[A-Za-z0-9]`; otherwise a slug whose characters other than dashes are the label's
      alphanumerics, lower-cased, in order. */
  lemma SanitizeKeepsAlnums(title: string)
    ensures Alnums(title) == [] ==> SanitizeFilename(title) == "report"
    ensures Alnums(title) != [] ==> Alnums(SanitizeFilename(title)) == Lower(Alnums(title))
  {
    var collapsed := CollapseRuns(title);
    var lead := StripLeadingDashes(collapsed);
    var slug := StripTrailingDashes(lead);
    AlnumsOfCollapse(title);
    AlnumsOfStripLeading(collapsed);
    AlnumsOfStripTrailing(lead);
    assert Alnums(slug) == Alnums(title);
    if slug == [] {
      assert Alnums(title) == [];
    } else {
      TrimmedIsSlug(collapsed);
      AlnumsOfLower(slug);
    }
  }

  lemma CollapseCons(c: char, t: string)
    requires IsAlnum(c)
    ensures CollapseRuns([c] + t) == [c] + CollapseRuns(t)
  {
    assert ([c] + t)[0] == c && ([c] + t)[1..] == t;
  }

  lemma Regroup3(x: string, y: string, z: string)
    requires x != [] && y == x[1..]
    ensures x + z == [x[0]] + (y + z)
  {
  }

  /** An alphanumeric prefix passes through collapsing unchanged. */
  lemma {:induction false} CollapseAlnumPrefix(a: string, b: string)
    requires AllAlnum(a)
    ensures CollapseRuns(a + b) == a + CollapseRuns(b)
    decreases |a|
  {
    if a == [] {
      assert a + b == b;
    } else {
      Regroup3(a, a[1..], b);
      CollapseCons(a[0], a[1..] + b);
      CollapseAlnumPrefix(a[1..], b);
      Regroup3(a, a[1..], CollapseRuns(b));
    }
  }

  /** One character outside `[A-Za-z0-9]` before an alphanumeric becomes one dash. */
  lemma CollapseSeparator(c: char, b: string)
    requires !IsAlnum(c) && b != [] && IsAlnum(b[0])
    ensures CollapseRuns([c] + b) == "-" + CollapseRuns(b)
  {
    var s := [c] + b;
    assert s[1..] == b;
    assert SkipRun(b) == b;
    assert SkipRun(s) == b;
  }

  predicate AllAlnum(w: string)
  {
    forall k | 0 <= k < |w| :: IsAlnum(w[k])
  }

  /** Three words separated by single spaces collapse to the words joined by dashes. */
  lemma CollapseThreeWords(w1: string, w2: string, w3: string)
    requires AllAlnum(w1) && AllAlnum(w2) && AllAlnum(w3)
    requires w2 != [] && w3 != []
    ensures CollapseRuns(w1 + (" " + (w2 + (" " + w3)))) == w1 + ("-" + (w2 + ("-" + w3)))
  {
    CollapseAlnumPrefix(w3, "");
    assert w3 + "" == w3;
    CollapseSeparator(' ', w3);
    CollapseAlnumPrefix(w2, " " + w3);
    assert (w2 + (" " + w3))[0] == w2[0];
    CollapseSeparator(' ', w2 + (" " + w3));
    CollapseAlnumPrefix(w1, " " + (w2 + (" " + w3)));
  }

  lemma AnnualReportWords()
    ensures "Annual Report 2024" == "Annual" + (" " + ("Report" + (" " + "2024")))
    ensures "Annual" + ("-" + ("Report" + ("-" + "2024"))) == "Annual-Report-2024"
    ensures AllAlnum("Annual") && AllAlnum("Report") && AllAlnum("2024")
  {
  }

  lemma AnnualReportTrimmed()
    ensures StripTrailingDashes(StripLeadingDashes("Annual-Report-2024")) == "Annual-Report-2024"
  {
  }

  lemma AnnualReportLower()
    ensures Lower("Annual-Report-2024") == "annual-report-2024"
  {
    var u := Lower("Annual-Report-2024");
    assert u[0] == 'a' && u[7] == 'r';
  }

  /** The title "Annual Report 2024" is saved as "annual-report-2024". */
  lemma SanitizeExample()
    ensures SanitizeFilename("Annual Report 2024") == "annual-report-2024"
  {
    AnnualReportWords();
    CollapseThreeWords("Annual", "Report", "2024");
    AnnualReportTrimmed();
    AnnualReportLower();
  }

  // ---------------------------------------------------------------- build_destination_filename

  /** `s.rfind(c)`: the last index holding `c`, or -1. */
  function RFind(s: string, c: char): (i: int)
    ensures -1 <= i < |s|
    ensures i >= 0 ==> s[i] == c
    ensures forall k | i < k < |s| :: s[k] != c
    decreases |s|
  {
    if s == [] then -1
    else if s[|s| - 1] == c then |s| - 1
    else RFind(s[..|s| - 1], c)
  }

  /** `PurePath(p).name` for a path without trailing separator: the part after the last '/'. */
  function BaseName(p: string): string
  {
    p[RFind(p, '/') + 1..]
  }

  /** `PurePath(p).suffix`: from the last dot of the name, unless that dot is first or last. */
  function Suffix(p: string): string
  {
    var name := BaseName(p);
    var i := RFind(name, '.');
    if 0 < i < |name| - 1 then name[i..] else ""
  }

  /** `PurePath(p).stem`: the name without its suffix. */
  function Stem(p: string): string
  {
    var name := BaseName(p);
    var i := RFind(name, '.');
    if 0 < i < |name| - 1 then name[..i] else name
  }

  /** The extension kept by `BuildDestinationFilename`: a dot, at least one more character, no
      further dot and no separator. */
  predicate IsExtension(e: string)
  {
    |e| >= 2 && e[0] == '.' && (forall k | 1 <= k < |e| :: e[k] != '.') && (forall k | 0 <= k < |e| :: e[k] != '/')
  }

  lemma SuffixIsExtension(p: string)
    requires Suffix(p) != ""
    ensures IsExtension(Suffix(p))
  {
  }

  /** The extension of the saved file: the suggestion's suffix, or ".dat". */
  function SavedExtension(suggested: string): (e: string)
    ensures IsExtension(e)
  {
    var suffix := Suffix(suggested);
    if suffix != "" then SuffixIsExtension(suggested); suffix else ".dat"
  }

  /** What the saved file's stem is made from: the suggestion's stem, or the title. */
  function StemSource(suggested: string, fallbackTitle: string): string
  {
    if Stem(suggested) != "" then Stem(suggested) else fallbackTitle
  }

  /** `build_destination_filename(suggested, fallback_title)`. */
  function BuildDestinationFilename(suggested: string, fallbackTitle: string): string
  {
    SanitizeFilename(StemSource(suggested, fallbackTitle)) + SavedExtension(suggested)
  }

  /** The name of a slug followed by an extension splits back into that slug and extension. */
  lemma {:induction false} SlugWithExtension(slug: string, ext: string)
    requires IsSlug(slug) && IsExtension(ext)
    ensures Suffix(slug + ext) == ext && Stem(slug + ext) == slug
  {
    var n := slug + ext;
    assert forall k | 0 <= k < |n| :: n[k] != '/' by {
      forall k | 0 <= k < |n| ensures n[k] != '/' {
        if k < |slug| { assert n[k] == slug[k]; } else { assert n[k] == ext[k - |slug|]; }
      }
    }
    assert RFind(n, '/') == -1;
    assert BaseName(n) == n;
    assert n[|slug|] == '.';
    assert forall k | |slug| < k < |n| :: n[k] != '.' by {
      forall k | |slug| < k < |n| ensures n[k] != '.' { assert n[k] == ext[k - |slug|]; }
    }
    RFindAt(n, '.', |slug|);
    assert n[|slug|..] == ext;
    assert n[..|slug|] == slug;
  }

  lemma RFindAt(s: string, c: char, i: nat)
    requires i < |s| && s[i] == c && forall k | i < k < |s| :: s[k] != c
    ensures RFind(s, c) == i
  {
    var r := RFind(s, c);
  }

  /** The saved name keeps the suggested extension, or gets ".dat" when there is none, and its
      stem is the sanitised stem of the suggestion (or of the title when the stem is empty). */
  lemma DestinationKeepsExtension(suggested: string, fallbackTitle: string)
    ensures Suffix(BuildDestinationFilename(suggested, fallbackTitle))
            == (if Suffix(suggested) != "" then Suffix(suggested) else ".dat")
    ensures Stem(BuildDestinationFilename(suggested, fallbackTitle))
            == SanitizeFilename(if Stem(suggested) != "" then Stem(suggested) else fallbackTitle)
  {
    SlugWithExtension(SanitizeFilename(StemSource(suggested, fallbackTitle)), SavedExtension(suggested));
  }

  /** The file name `download_resource` chooses: the suggested one, or the sanitised title with
      ".dat" when the browser suggests none. */
  function DownloadFileName(suggested: Option<string>, reportTitle: string): string
  {
    var name := if suggested.Some? && suggested.value != "" then suggested.value
                else SanitizeFilename(reportTitle) + ".dat";
    BuildDestinationFilename(name, reportTitle)
  }

  lemma DatIsExtension()
    ensures IsExtension(".dat")
  {
    var e := ".dat";
    assert e[0] == '.' && e[1] == 'd' && e[2] == 'a' && e[3] == 't';
  }

  /** A suggestion that is already a slug with an extension is kept as it is. */
  lemma DestinationOfSlug(slug: string, ext: string, fallbackTitle: string)
    requires IsSlug(slug) && IsExtension(ext)
    ensures BuildDestinationFilename(slug + ext, fallbackTitle) == slug + ext
  {
    SlugWithExtension(slug, ext);
    assert StemSource(slug + ext, fallbackTitle) == slug;
    assert SavedExtension(slug + ext) == ext;
    SanitizeOfSlug(slug);
  }

  /** Without a suggestion the file is named after the report: the slug of the title plus ".dat". */
  lemma UnsuggestedDownloadName(reportTitle: string)
    ensures DownloadFileName(None, reportTitle) == SanitizeFilename(reportTitle) + ".dat"
  {
    DownloadFileNameOfNone(reportTitle);
    DatDestination(SanitizeFilename(reportTitle), reportTitle);
  }

  lemma DownloadFileNameOfNone(reportTitle: string)
    ensures DownloadFileName(None, reportTitle) == BuildDestinationFilename(SanitizeFilename(reportTitle) + ".dat", reportTitle)
  {
  }

  lemma DatDestination(slug: string, fallbackTitle: string)
    requires IsSlug(slug)
    ensures BuildDestinationFilename(slug + ".dat", fallbackTitle) == slug + ".dat"
  {
    DatIsExtension();
    DestinationOfSlug(slug, ".dat", fallbackTitle);
  }

  // ---------------------------------------------------------------- build_fuzzy_regex

  const MaxFuzzyTokens: nat := 5

  /** The whitespace tokens the fuzzy pattern is built from: the title's first five. */
  function FuzzyTokens(title: string): (ts: seq<string>)
    ensures |ts| == if |Words(title)| < MaxFuzzyTokens then |Words(title)| else MaxFuzzyTokens
    ensures ts == Words(title)[..|ts|]
  {
    var ws := Words(title);
    if |ws| < MaxFuzzyTokens then ws else ws[..MaxFuzzyTokens]
  }

  function MapEscape(ts: seq<string>, escape: string -> string): (r: seq<string>)
    ensures |r| == |ts| && forall k | 0 <= k < |ts| :: r[k] == escape(ts[k])
  {
    seq(|ts|, k requires 0 <= k < |ts| => escape(ts[k]))
  }

  /** The pattern of `build_fuzzy_regex(title)` (always compiled case-insensitively); `escape` is
      `re.escape`. The escaped first five tokens in order joined by ".*", or the escaped title
      when it has no token. */
  function BuildFuzzyRegex(title: string, escape: string -> string): string
  {
    var tokens := MapEscape(Words(title), escape);
    if tokens == [] then escape(title) else Join(".*", tokens[..if |tokens| < MaxFuzzyTokens then |tokens| else MaxFuzzyTokens])
  }

  /** The pattern is built from exactly `FuzzyTokens`: the leading tokens, which are maximal runs
      of non-whitespace; a blank title gives the escaped title itself. */
  lemma FuzzyRegexUsesLeadingTokens(title: string, escape: string -> string)
    ensures Words(title) == [] ==> BuildFuzzyRegex(title, escape) == escape(title)
    ensures Words(title) != [] ==>
              BuildFuzzyRegex(title, escape) == Join(".*", MapEscape(FuzzyTokens(title), escape))
    ensures Concat(Words(title)) == RemoveSpaces(title)
  {
    FuzzyRegexOfTokens(title, escape);
    WordsKeepEverythingButSpace(title);
  }

  lemma FuzzyRegexOfTokens(title: string, escape: string -> string)
    ensures Words(title) == [] ==> BuildFuzzyRegex(title, escape) == escape(title)
    ensures Words(title) != [] ==>
              BuildFuzzyRegex(title, escape) == Join(".*", MapEscape(FuzzyTokens(title), escape))
  {
    var ws := Words(title);
    var tokens := MapEscape(ws, escape);
    var n := |FuzzyTokens(title)|;
    assert n == if |tokens| < MaxFuzzyTokens then |tokens| else MaxFuzzyTokens;
    assert tokens[..n] == MapEscape(FuzzyTokens(title), escape);
  }

  // ---------------------------------------------------------------- find_dataset_link

  /** Index of the first anchor text that `regexSearch(pattern, text)` accepts. */
  function FirstMatching(anchors: seq<string>, pattern: string, regexSearch: (string, string) -> bool): (r: Option<nat>)
    ensures r.Some? ==> r.value < |anchors| && regexSearch(pattern, anchors[r.value])
    ensures r.Some? ==> forall j | 0 <= j < r.value :: !regexSearch(pattern, anchors[j])
    ensures r.None? ==> forall j | 0 <= j < |anchors| :: !regexSearch(pattern, anchors[j])
  {
    if anchors == [] then None
    else if regexSearch(pattern, anchors[0]) then Some(0)
    else
      match FirstMatching(anchors[1..], pattern, regexSearch)
      case None => None
      case Some(i) => Some(i + 1)
  }

  const LinkNotFound: string := "Dataset link not found in search results"

  /** `find_dataset_link(page, title)` over the texts of the page's anchors in document order:
      the first anchor containing the escaped title, else the first matching the fuzzy
      pattern, else an error. `regexSearch` decides a case-insensitive regex search. */
  function FindDatasetLink(anchors: seq<string>, title: string, escape: string -> string,
                           regexSearch: (string, string) -> bool): (r: Result<nat, string>)
    ensures r.Success? ==> r.value < |anchors|
    ensures (exists i | 0 <= i < |anchors| :: regexSearch(escape(title), anchors[i])) ==>
              && r.Success? && regexSearch(escape(title), anchors[r.value])
              && forall j | 0 <= j < r.value :: !regexSearch(escape(title), anchors[j])
    ensures var fuzzy := BuildFuzzyRegex(title, escape);
            (forall i | 0 <= i < |anchors| :: !regexSearch(escape(title), anchors[i])) ==>
              && (r.Success? <==> exists i | 0 <= i < |anchors| :: regexSearch(fuzzy, anchors[i]))
              && (r.Success? ==> regexSearch(fuzzy, anchors[r.value])
                                 && forall j | 0 <= j < r.value :: !regexSearch(fuzzy, anchors[j]))
    ensures r.Failure? ==> r.error == LinkNotFound
  {
    match FirstMatching(anchors, escape(title), regexSearch)
    case Some(i) => Success(i)
    case None =>
      match FirstMatching(anchors, BuildFuzzyRegex(title, escape), regexSearch)
      case Some(i) => Success(i)
      case None => Failure(LinkNotFound)
  }

  /** An exact hit always wins; the search fails exactly when no anchor matches either pattern. */
  lemma FindDatasetLinkChoice(anchors: seq<string>, title: string, escape: string -> string,
                              regexSearch: (string, string) -> bool)
    ensures var r := FindDatasetLink(anchors, title, escape, regexSearch);
            && (r.Success? ==> r.value < |anchors|)
            && ((exists i | 0 <= i < |anchors| :: regexSearch(escape(title), anchors[i])) ==>
                  r.Success? && regexSearch(escape(title), anchors[r.value]))
            && (r.Failure? <==> forall i | 0 <= i < |anchors| ::
                  !regexSearch(escape(title), anchors[i]) && !regexSearch(BuildFuzzyRegex(title, escape), anchors[i]))
  {
    var fuzzy := FirstMatching(anchors, BuildFuzzyRegex(title, escape), regexSearch);
  }

  // ---------------------------------------------------------------- run_automation

  /** The (report, message) pairs of the failed reports among the first `n`, in order. */
  function FailuresAmong(reports: seq<string>, outcome: nat -> Result<string, string>, n: nat): seq<(string, string)>
    requires n <= |reports|
  {
    if n == 0 then []
    else
      FailuresAmong(reports, outcome, n - 1)
      + (if outcome(n - 1).Failure? then [(reports[n - 1], outcome(n - 1).error)] else [])
  }

  /** The report loop of `run_automation`: every report is attempted, a failure is recorded and
      the loop goes on; the exit status is 1 when anything failed, 0 otherwise. `outcome(i)` is
      what processing the i-th report did: the saved path, or the message it raised. */
  method CollectFailures(reports: seq<string>, outcome: nat -> Result<string, string>)
    returns (failures: seq<(string, string)>, exitCode: int)
    ensures failures == FailuresAmong(reports, outcome, |reports|)
    ensures exitCode == if failures == [] then 0 else 1
  {
    failures := [];
    var i := 0;
    while i < |reports|
      invariant 0 <= i <= |reports|
      invariant failures == FailuresAmong(reports, outcome, i)
    {
      match outcome(i) {
        case Success(_) =>
        case Failure(message) =>
          failures := failures + [(reports[i], message)];
      }
      i := i + 1;
    }
    exitCode := if failures == [] then 0 else 1;
  }

  /** A pair is listed exactly when that report raised that message; so the exit status is
      non-zero exactly when some report failed. */
  lemma FailuresAreTheFailedReports(reports: seq<string>, outcome: nat -> Result<string, string>, n: nat)
    requires n <= |reports|
    ensures forall name, msg :: (name, msg) in FailuresAmong(reports, outcome, n) <==>
              exists i | 0 <= i < n :: reports[i] == name && outcome(i) == Failure(msg)
    ensures |FailuresAmong(reports, outcome, n)| <= n
    ensures FailuresAmong(reports, outcome, n) == [] <==> forall i | 0 <= i < n :: outcome(i).Success?
  {
    FailuresMembers(reports, outcome, n);
    FailuresEmpty(reports, outcome, n);
  }

  lemma {:induction false} FailuresMembers(reports: seq<string>, outcome: nat -> Result<string, string>, n: nat)
    requires n <= |reports|
    ensures forall name, msg :: (name, msg) in FailuresAmong(reports, outcome, n) <==>
              exists i | 0 <= i < n :: reports[i] == name && outcome(i) == Failure(msg)
    decreases n
  {
    if n > 0 {
      FailuresMembers(reports, outcome, n - 1);
      var prev := FailuresAmong(reports, outcome, n - 1);
      var last: seq<(string, string)> := if outcome(n - 1).Failure? then [(reports[n - 1], outcome(n - 1).error)] else [];
      assert FailuresAmong(reports, outcome, n) == prev + last;
      forall name, msg
        ensures (name, msg) in prev + last <==> exists i | 0 <= i < n :: reports[i] == name && outcome(i) == Failure(msg)
      {
        if (name, msg) in last {
          assert reports[n - 1] == name && outcome(n - 1) == Failure(msg);
        }
        if exists i | 0 <= i < n :: reports[i] == name && outcome(i) == Failure(msg) {
          var i :| 0 <= i < n && reports[i] == name && outcome(i) == Failure(msg);
          if i == n - 1 {
            assert (name, msg) in last;
          }
        }
      }
    }
  }

  lemma {:induction false} FailuresEmpty(reports: seq<string>, outcome: nat -> Result<string, string>, n: nat)
    requires n <= |reports|
    ensures |FailuresAmong(reports, outcome, n)| <= n
    ensures FailuresAmong(reports, outcome, n) == [] <==> forall i | 0 <= i < n :: outcome(i).Success?
    decreases n
  {
    if n > 0 {
      FailuresEmpty(reports, outcome, n - 1);
    }
  }
}
