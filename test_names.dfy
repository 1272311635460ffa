/**
 * The two test-name splitters of check_ci_build.py. A CI page shows a test as
 * `"Suite Name [case_name]"`; the splitters take the first bracketed part.
 */
module TestNames {
  import opened Wrappers
  import opened Text

  /** First `]` at or after `i`. */
  function NextClose(s: string, i: nat): (r: Option<nat>)
    requires i <= |s|
    ensures r.Some? ==> i <= r.value < |s| && s[r.value] == ']'
    ensures r.Some? ==> forall j :: i <= j < r.value ==> s[j] != ']'
    ensures r.None? ==> forall j :: i <= j < |s| ==> s[j] != ']'
    decreases |s| - i
  {
    if i == |s| then None else if s[i] == ']' then Some(i) else NextClose(s, i + 1)
  }

  /** `\[([^\]]+)\]` matches at `m`: a `[`, then at least one character before the next `]`. */
  predicate BracketAt(s: string, m: nat) {
    m + 1 < |s| && s[m] == '[' && s[m + 1] != ']' && NextClose(s, m + 1).Some?
  }

  /** What the brackets at `m` enclose. */
  function Enclosed(s: string, m: nat): (c: string)
    requires BracketAt(s, m)
    ensures c != [] && forall j :: 0 <= j < |c| ==> c[j] != ']'
  {
    s[m + 1..NextClose(s, m + 1).value]
  }

  /** Leftmost `m >= from` where `\[([^\]]+)\]` matches. */
  function FirstBracket(s: string, from: nat): (r: Option<nat>)
    ensures r.Some? ==> from <= r.value && BracketAt(s, r.value)
    ensures r.Some? ==> forall j :: from <= j < r.value ==> !BracketAt(s, j)
    ensures r.None? ==> forall j :: from <= j ==> !BracketAt(s, j)
    decreases |s| - from
  {
    if from >= |s| then None
    else if BracketAt(s, from) then Some(from)
    else FirstBracket(s, from + 1)
  }

  /** Start of the run of white space that ends right before `m`. */
  function SpaceRunStart(s: string, m: nat): (k: nat)
    requires m <= |s|
    ensures k <= m && forall j :: k <= j < m ==> IsSpace(s[j])
    ensures k > 0 ==> !IsSpace(s[k - 1])
  {
    if m > 0 && IsSpace(s[m - 1]) then SpaceRunStart(s, m - 1) else m
  }

  /** `extract_test_case_name`: the text in the first pair of brackets, else the whole string. */
  function ExtractTestCaseName(s: string): (r: string)
    ensures FirstBracket(s, 0).Some? ==> r == Enclosed(s, FirstBracket(s, 0).value)
    ensures (forall j :: 0 <= j ==> !BracketAt(s, j)) ==> r == s
  {
    match FirstBracket(s, 0)
    case Some(m) => Enclosed(s, m)
    case None => s
  }

  /** `extract_test_suite_and_case`: `^(.+?)\s*\[([^\]]+)\]`, both groups stripped, else
      `(None, s.strip())`. The lazy suite group ends where the white space before the first
      bracket pair at position 1 or later begins, and cannot cross a newline. */
  function SuiteAndCase(s: string): (r: (Option<string>, string))
    ensures r.0.None? ==> r.1 == Strip(s)
    ensures r.0.Some? ==>
      (exists k, m :: 1 <= k <= m && BracketAt(s, m)
        && (forall j :: k <= j < m ==> IsSpace(s[j])) && (forall j :: 0 <= j < k ==> s[j] != '\n')
        && r.0.value == Strip(s[..k]) && r.1 == Strip(Enclosed(s, m)))
  {
    match FirstBracket(s, 1)
    case None => (None, Strip(s))
    case Some(m) =>
      var k := if SpaceRunStart(s, m) == 0 then 1 else SpaceRunStart(s, m);
      if exists j :: 0 <= j < k && s[j] == '\n' then (None, Strip(s))
      else (Some(Strip(s[..k])), Strip(Enclosed(s, m)))
  }

  /** The case name shown for a failure: `suite.case` when both are non-empty, else `case`. */
  function FormatCase(suite: Option<string>, case_: string): (r: string)
    ensures suite.Some? && suite.value != "" && case_ != "" ==> r == suite.value + "." + case_
    ensures suite.None? || suite.value == "" || case_ == "" ==> r == case_
  {
    if suite.Some? && suite.value != "" && case_ != "" then suite.value + "." + case_ else case_
  }

  /** `Strip` ignores white space appended to a string. */
  lemma StripSpaceSuffix(p: string, w: string)
    requires forall j :: 0 <= j < |w| ==> IsSpace(w[j])
    ensures Strip(p + w) == Strip(p)
  {
    RStripSpaceSuffix(LStrip(p), w);
    LStripEmpty(p);
    if LStrip(p) == [] {
      LStripEmpty(p + w);
    } else {
      LStripPrefix(p, w);
    }
  }

  lemma {:induction false} RStripSpaceSuffix(p: string, w: string)
    requires forall j :: 0 <= j < |w| ==> IsSpace(w[j])
    ensures RStrip(p + w) == RStrip(p)
    decreases |w|
  {
    if w != [] {
      var w' := w[..|w| - 1];
      assert (p + w)[..|p + w| - 1] == p + w';
      RStripSpaceSuffix(p, w');
    } else {
      assert p + w == p;
    }
  }

  lemma {:induction false} LStripEmpty(s: string)
    ensures LStrip(s) == [] <==> forall j :: 0 <= j < |s| ==> IsSpace(s[j])
    decreases |s|
  {
    if s != [] && IsSpace(s[0]) {
      LStripEmpty(s[1..]);
      assert forall j :: 1 <= j < |s| ==> s[j] == s[1..][j - 1];
    }
  }

  lemma LStripPrefix(p: string, w: string)
    requires LStrip(p) != []
    ensures LStrip(p + w) == LStrip(p) + w
  {
    var r := LStrip(p);
    var k := |p| - |r|;
    assert r == p[k..];
    var s := p + w;
    assert s[k] == p[k] by { assert r[0] == p[k]; }
    forall i | 0 <= i < k ensures IsSpace(s[i]) {
      assert s[i] == p[i];
    }
    LStripAt(s, k);
    ConcatSuffix(p, w, k);
  }

  lemma ConcatSuffix(p: string, w: string, k: nat)
    requires k <= |p|
    ensures (p + w)[k..] == p[k..] + w
  {
  }

  /** `LStrip` drops exactly the leading run of white space. */
  lemma LStripAt(s: string, k: nat)
    requires k < |s| && !IsSpace(s[k])
    requires forall i :: 0 <= i < k ==> IsSpace(s[i])
    ensures LStrip(s) == s[k..]
  {
  }

  /** A string with no white space at either end is its own strip. */
  lemma StripIdentity(s: string)
    requires s == [] || (!IsSpace(s[0]) && !IsSpace(s[|s| - 1]))
    ensures Strip(s) == s
  {
  }

  /** A bracket pair enclosing `c` at `m`. */
  lemma BracketShape(s: string, m: nat, c: string)
    requires c != [] && forall j :: 0 <= j < |c| ==> c[j] != ']'
    requires m + 1 + |c| < |s| && s[m] == '[' && s[m + 1..m + 1 + |c|] == c && s[m + 1 + |c|] == ']'
    ensures BracketAt(s, m) && Enclosed(s, m) == c
  {
    assert s[m + 1] == c[0];
    forall j | m + 1 <= j < m + 1 + |c| ensures s[j] != ']' {
      assert s[j] == c[j - m - 1];
    }
    NextCloseIs(s, m + 1, m + 1 + |c|);
  }

  /** The split when the first bracket pair from position 1 is at `m`, preceded by white
      space from `k`, with no newline before `k`. */
  lemma SuiteAndCaseAt(s: string, k: nat, m: nat)
    requires 1 <= k <= m && BracketAt(s, m) && FirstBracket(s, 1) == Some(m)
    requires !IsSpace(s[k - 1]) && forall j :: k <= j < m ==> IsSpace(s[j])
    requires forall j :: 0 <= j < k ==> s[j] != '\n'
    ensures SuiteAndCase(s) == (Some(Strip(s[..k])), Strip(Enclosed(s, m)))
  {
    SpaceRunIs(s, m, k);
  }

  /** `Suite<spaces>[Case]...` splits into the stripped suite and case, for a suite without
      brackets or newlines that does not end in white space. */
  lemma SuiteAndCaseShape(p: string, w: string, c: string, q: string)
    requires p != [] && !IsSpace(p[|p| - 1])
    requires forall j :: 0 <= j < |p| ==> p[j] != '[' && p[j] != '\n'
    requires forall j :: 0 <= j < |w| ==> IsSpace(w[j])
    requires c != [] && forall j :: 0 <= j < |c| ==> c[j] != ']'
    ensures SuiteAndCase(p + w + "[" + c + "]" + q) == (Some(Strip(p)), Strip(c))
  {
    var pw := p + w;
    var s := pw + ("[" + c + "]" + q);
    assert s == p + w + "[" + c + "]" + q;
    var m := |pw|;
    assert s[..m] == pw;
    assert s[m] == '[';
    assert s[m + 1..m + 1 + |c|] == c;
    assert s[m + 1 + |c|] == ']';
    BracketShape(s, m, c);
    forall j | 1 <= j < m ensures !BracketAt(s, j) {
      assert s[j] == pw[j];
      if j < |p| { assert pw[j] == p[j]; } else { assert pw[j] == w[j - |p|]; }
    }
    FirstBracketIs(s, 1, m);
    forall j | |p| <= j < m ensures IsSpace(s[j]) {
      assert s[j] == pw[j] == w[j - |p|];
    }
    assert s[|p| - 1] == p[|p| - 1];
    assert s[..|p|] == p;
    forall j | 0 <= j < |p| ensures s[j] != '\n' { assert s[j] == p[j]; }
    SuiteAndCaseAt(s, |p|, m);
  }

  lemma {:induction false} NextCloseIs(s: string, i: nat, e: nat)
    requires i <= e < |s| && s[e] == ']'
    requires forall j :: i <= j < e ==> s[j] != ']'
    ensures NextClose(s, i) == Some(e)
    decreases e - i
  {
    if i < e { NextCloseIs(s, i + 1, e); }
  }

  lemma {:induction false} FirstBracketIs(s: string, from: nat, m: nat)
    requires from <= m && BracketAt(s, m)
    requires forall j :: from <= j < m ==> !BracketAt(s, j)
    ensures FirstBracket(s, from) == Some(m)
    decreases m - from
  {
    if from < m { FirstBracketIs(s, from + 1, m); }
  }

  lemma {:induction false} SpaceRunIs(s: string, m: nat, k: nat)
    requires 0 < k <= m <= |s| && !IsSpace(s[k - 1])
    requires forall j :: k <= j < m ==> IsSpace(s[j])
    ensures SpaceRunStart(s, m) == k
    decreases m - k
  {
    if k < m { SpaceRunIs(s, m - 1, k); }
  }

  /** When the string does not open with `[`, a successful split finds the same case name
      as `extract_test_case_name`. */
  lemma SplitAgreesWithCaseName(s: string)
    requires s == [] || s[0] != '['
    requires SuiteAndCase(s).0.Some?
    ensures SuiteAndCase(s).1 == Strip(ExtractTestCaseName(s))
  {
    FirstBracketFromOne(s);
    SuiteAndCaseFound(s);
  }

  /** Without `[` at position 0 the first bracket pair lies at position 1 or later. */
  lemma FirstBracketFromOne(s: string)
    requires s == [] || s[0] != '['
    ensures FirstBracket(s, 0) == FirstBracket(s, 1)
  {
    assert !BracketAt(s, 0);
  }

  /** A split that names a suite takes its case from the first bracket pair from position 1. */
  lemma SuiteAndCaseFound(s: string)
    requires SuiteAndCase(s).0.Some?
    ensures FirstBracket(s, 1).Some? && SuiteAndCase(s).1 == Strip(Enclosed(s, FirstBracket(s, 1).value))
  {
  }

  /** `Prefix[Case]...` gives `Case` when the prefix holds no `[`. */
  lemma CaseNameShape(p: string, c: string, q: string)
    requires '[' !in p
    requires c != [] && ']' !in c
    ensures ExtractTestCaseName(p + "[" + c + "]" + q) == c
  {
    var s := p + ("[" + c + "]" + q);
    assert s == p + "[" + c + "]" + q;
    var m := |p|;
    assert s[m] == '[';
    assert s[m + 1..m + 1 + |c|] == c;
    assert s[m + 1 + |c|] == ']';
    assert forall j :: 0 <= j < |c| ==> c[j] != ']' by {
      forall j | 0 <= j < |c| ensures c[j] != ']' { assert c[j] in c; }
    }
    BracketShape(s, m, c);
    forall j | 0 <= j < m ensures !BracketAt(s, j) {
      assert s[j] == p[j] && p[j] in p;
    }
    FirstBracketIs(s, 0, m);
  }

  /** With no bracket pair the split names no suite and keeps the stripped string. */
  lemma NoBracketNoSuite(s: string)
    requires forall j :: 0 <= j < |s| ==> s[j] != '['
    ensures SuiteAndCase(s) == (None, Strip(s))
    ensures ExtractTestCaseName(s) == s
  {
  }

  /** `Suite [Case]`, with neither part padded by white space, splits back into its parts. */
  lemma SuiteAndCaseSimple(suite: string, case_: string)
    requires suite != [] && !IsSpace(suite[0]) && !IsSpace(suite[|suite| - 1])
    requires forall j :: 0 <= j < |suite| ==> suite[j] != '[' && suite[j] != '\n'
    requires case_ != [] && !IsSpace(case_[0]) && !IsSpace(case_[|case_| - 1])
    requires forall j :: 0 <= j < |case_| ==> case_[j] != ']'
    ensures SuiteAndCase(suite + " [" + case_ + "]") == (Some(suite), case_)
  {
    assert suite + " [" + case_ + "]" == suite + " " + "[" + case_ + "]" + "";
    SuiteAndCaseShape(suite, " ", case_, "");
    StripIdentity(suite);
    StripIdentity(case_);
  }

  /** The documented example `'BGP Suite [test_peer_down]'` splits into its suite and case. */
  lemma BgpSuiteExample()
    ensures SuiteAndCase("BGP Suite" + " [" + "test_peer_down" + "]") == (Some("BGP Suite"), "test_peer_down")
  {
    SuiteAndCaseSimple("BGP Suite", "test_peer_down");
  }

  /** ... and is listed as `BGP Suite.test_peer_down`. */
  lemma BgpFormatExample()
    ensures FormatCase(Some("BGP Suite"), "test_peer_down") == "BGP Suite.test_peer_down"
  {
  }

  /** The documented example `'RFC-Compliance-tests [ANVL-LDP-9.5]' -> 'ANVL-LDP-9.5'`. */
  lemma RfcCaseNameExample()
    ensures ExtractTestCaseName("RFC-Compliance-tests [ANVL-LDP-9.5]") == "ANVL-LDP-9.5"
  {
    assert "RFC-Compliance-tests [ANVL-LDP-9.5]" == "RFC-Compliance-tests " + "[" + "ANVL-LDP-9.5" + "]" + "";
    CaseNameShape("RFC-Compliance-tests ", "ANVL-LDP-9.5", "");
  }

  /** The documented example `'test_isis_srv6_topo1 [test_rib_ipv6_step3]' -> 'test_rib_ipv6_step3'`. */
  lemma IsisCaseNameExample()
    ensures ExtractTestCaseName("test_isis_srv6_topo1 " + "[" + "test_rib_ipv6_step3" + "]") == "test_rib_ipv6_step3"
  {
    assert "test_isis_srv6_topo1 " + "[" + "test_rib_ipv6_step3" + "]" == "test_isis_srv6_topo1 " + "[" + "test_rib_ipv6_step3" + "]" + "";
    CaseNameShape("test_isis_srv6_topo1 ", "test_rib_ipv6_step3", "");
  }
}
