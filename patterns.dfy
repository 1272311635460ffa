/**
 * The fixed regular expressions of the CI scripts, each written out as the string
 * predicate it decides. `MatchAt(pat, s, p)` is what Python's `re` finds when the pattern
 * is tried at position `p`; `Search` is `re.search`, `FindAll` is `re.finditer`.
 * Case-insensitive patterns compare ASCII letters without regard to case.
 */
module Patterns {
  import opened Wrappers
  import opened Text

  /** The character classes the patterns use. */
  datatype CharClass =
    | Digits          // \d
    | Spaces          // \s
    | NameChars       // [a-zA-Z0-9_.-]
    | IdentChars      // [a-zA-Z0-9_]
    | DigitsOrCommas  // [\d,]
    | ColonOrSpace    // [:\s]
    | NotNewline      // [^\n], and `.`
    | NotSlash        // [^/]

  predicate InClass(k: CharClass, c: char) {
    match k
    case Digits => IsDigit(c)
    case Spaces => IsSpace(c)
    case NameChars => IsAsciiLetter(c) || IsDigit(c) || c == '_' || c == '.' || c == '-'
    case IdentChars => IsWordChar(c)
    case DigitsOrCommas => IsDigit(c) || c == ','
    case ColonOrSpace => c == ':' || IsSpace(c)
    case NotNewline => c != '\n'
    case NotSlash => c != '/'
  }

  /** End of the maximal run of `k` characters that starts at `p` (a greedy `k*`). */
  function RunEnd(s: string, p: nat, k: CharClass): (e: nat)
    requires p <= |s|
    ensures p <= e <= |s|
    ensures forall i :: p <= i < e ==> InClass(k, s[i])
    ensures e < |s| ==> !InClass(k, s[e])
    decreases |s| - p
  {
    if p < |s| && InClass(k, s[p]) then RunEnd(s, p + 1, k) else p
  }

  /** A match found at `start`: where it ends and its capture groups. */
  datatype Match = Match(start: nat, end: nat, groups: seq<string>)

  /** The patterns of the scripts. */
  datatype Pat =
    | UrlBuild        // FRR-FRR-(\d+)
    | HeadingNumber   // #[\d,]+                              (whole match as group)
    | NewCounter      // New test failures\s+(\d+)            (ignore case)
    | ExistingCounter // Existing test failures\s+(\d+)       (ignore case)
    | TotalTests      // Total tests[:\s]+(\d+)               (ignore case)
    | Quarantined     // (\d+)\s+Quarantined\s*/\s*skipped     (ignore case)
    | Leak            // (Direct|Indirect) leak of (\d+) byte[s]? in (\d+) object  (ignore case)
    | SanSummary      // SUMMARY: AddressSanitizer: ([^\n]+)  (ignore case)
    | SanError        // ERROR: AddressSanitizer: ([^\n]+)    (ignore case)
    | ByteCount       // (\d+) byte
    | RunningTest     // (?:Running test:|Test case:|Testing:)\s+([a-zA-Z0-9_.-]+)  (ignore case)
    | Banner          // ===== ([a-zA-Z0-9_.-]+) =====
    | TestPath        // /tests?/[^/]+/([a-zA-Z0-9_.-]+)\.py  (ignore case)
    | TestPrefix      // test[_-]([a-zA-Z0-9_.-]+)            (ignore case)
    | PytestId        // ^([a-zA-Z0-9_]+)::test               (ignore case, multi-line)

  /** Literal `w`, then at least one `k` character; the run is the group. */
  function LiteralThenRun(s: string, p: nat, w: string, icase: bool, k: CharClass): (r: Option<Match>)
    requires p <= |s|
    ensures r.Some? ==> r.value.start == p && p < r.value.end <= |s| && |r.value.groups| >= 1 && r.value.groups[0] != ""
  {
    if !(if icase then HasAtI(s, p, w) else HasAt(s, p, w)) then None
    else
      var a := p + |w|;
      var e := RunEnd(s, a, k);
      if e == a then None else Some(Match(p, e, [s[a..e]]))
  }

  /** Literal `w`, at least one white-space character, then at least one digit (the group). */
  function CounterAt(s: string, p: nat, w: string, sep: CharClass): (r: Option<Match>)
    requires p <= |s|
    ensures r.Some? ==> r.value.start == p && p < r.value.end <= |s| && |r.value.groups| >= 1 && r.value.groups[0] != ""
  {
    if !HasAtI(s, p, w) then None
    else
      var a := RunEnd(s, p + |w|, sep);
      if a == p + |w| then None
      else
        var e := RunEnd(s, a, Digits);
        if e == a then None else Some(Match(p, e, [s[a..e]]))
  }

  function QuarantinedAt(s: string, p: nat): (r: Option<Match>)
    requires p <= |s|
    ensures r.Some? ==> r.value.start == p && p < r.value.end <= |s| && |r.value.groups| >= 1 && r.value.groups[0] != ""
  {
    var a := RunEnd(s, p, Digits);
    if a == p then None
    else
      var b := RunEnd(s, a, Spaces);
      if b == a || !HasAtI(s, b, "quarantined") then None
      else
        var c := RunEnd(s, b + 11, Spaces);
        if !HasAt(s, c, "/") then None
        else
          var d := RunEnd(s, c + 1, Spaces);
          if !HasAtI(s, d, "skipped") then None else Some(Match(p, d + 7, [s[p..a]]))
  }

  function LeakAt(s: string, p: nat): (r: Option<Match>)
    requires p <= |s|
    ensures r.Some? ==> r.value.start == p && p < r.value.end <= |s| && |r.value.groups| == 3 && r.value.groups[0] != ""
  {
    var kindLen := if HasAtI(s, p, "direct") then 6 else if HasAtI(s, p, "indirect") then 8 else 0;
    if kindLen == 0 then None
    else
      var a := p + kindLen;
      if !HasAtI(s, a, " leak of ") then None
      else
        var b := a + 9;
        var b2 := RunEnd(s, b, Digits);
        if b2 == b || !HasAtI(s, b2, " byte") then None
        else
          var c := b2 + 5;
          var c1 := if c < |s| && LowerChar(s[c]) == 's' then c + 1 else c;
          if !HasAtI(s, c1, " in ") then None
          else
            var d := c1 + 4;
            var d2 := RunEnd(s, d, Digits);
            if d2 == d || !HasAtI(s, d2, " object") then None
            else Some(Match(p, d2 + 7, [s[p..a], s[b..b2], s[d..d2]]))
  }

  function ByteCountAt(s: string, p: nat): (r: Option<Match>)
    requires p <= |s|
    ensures r.Some? ==> r.value.start == p && p < r.value.end <= |s| && |r.value.groups| >= 1 && r.value.groups[0] != ""
  {
    var a := RunEnd(s, p, Digits);
    if a == p || !HasAt(s, a, " byte") then None else Some(Match(p, a + 5, [s[p..a]]))
  }

  function RunningTestAt(s: string, p: nat): (r: Option<Match>)
    requires p <= |s|
    ensures r.Some? ==> r.value.start == p && p < r.value.end <= |s| && |r.value.groups| >= 1 && r.value.groups[0] != ""
  {
    var markLen :=
      if HasAtI(s, p, "running test:") then 13
      else if HasAtI(s, p, "test case:") then 10
      else if HasAtI(s, p, "testing:") then 8
      else 0;
    if markLen == 0 then None
    else
      var a := RunEnd(s, p + markLen, Spaces);
      if a == p + markLen then None
      else
        var e := RunEnd(s, a, NameChars);
        if e == a then None else Some(Match(p, e, [s[a..e]]))
  }

  function BannerAt(s: string, p: nat): (r: Option<Match>)
    requires p <= |s|
    ensures r.Some? ==> r.value.start == p && p < r.value.end <= |s| && |r.value.groups| >= 1 && r.value.groups[0] != ""
  {
    if !HasAt(s, p, "===== ") then None
    else
      var a := p + 6;
      var e := RunEnd(s, a, NameChars);
      if e == a || !HasAt(s, e, " =====") then None else Some(Match(p, e + 6, [s[a..e]]))
  }

  /** The largest `k` with `lo < k` and `k + 3 <= e` where `.py` occurs (any case): what the
      greedy `[a-zA-Z0-9_.-]+` gives back to let `\.py` match. */
  function LastPy(s: string, lo: nat, k: nat): (r: Option<nat>)
    requires k + 3 <= |s|
    ensures r.Some? ==> lo < r.value <= k && HasAtI(s, r.value, ".py")
    ensures r.Some? ==> forall j :: r.value < j <= k ==> !HasAtI(s, j, ".py")
    ensures r.None? ==> forall j :: lo < j <= k ==> !HasAtI(s, j, ".py")
    decreases k
  {
    if k <= lo then None
    else if HasAtI(s, k, ".py") then Some(k)
    else LastPy(s, lo, k - 1)
  }

  function TestPathAt(s: string, p: nat): (r: Option<Match>)
    requires p <= |s|
    ensures r.Some? ==> r.value.start == p && p < r.value.end <= |s| && |r.value.groups| >= 1 && r.value.groups[0] != ""
  {
    if !HasAtI(s, p, "/test") then None
    else
      var a := p + 5;
      var b := if a < |s| && LowerChar(s[a]) == 's' then a + 1 else a;
      if !HasAt(s, b, "/") then None
      else
        var c := RunEnd(s, b + 1, NotSlash);
        if c == b + 1 || !HasAt(s, c, "/") then None
        else
          var d := c + 1;
          var e := RunEnd(s, d, NameChars);
          if e < d + 4 then None
          else
            match LastPy(s, d, e - 3)
            case None => None
            case Some(k) => Some(Match(p, k + 3, [s[d..k]]))
  }

  function TestPrefixAt(s: string, p: nat): (r: Option<Match>)
    requires p <= |s|
    ensures r.Some? ==> r.value.start == p && p < r.value.end <= |s| && |r.value.groups| >= 1 && r.value.groups[0] != ""
  {
    if !HasAtI(s, p, "test") || p + 4 >= |s| || !(s[p + 4] == '_' || s[p + 4] == '-') then None
    else
      var e := RunEnd(s, p + 5, NameChars);
      if e == p + 5 then None else Some(Match(p, e, [s[p + 5..e]]))
  }

  function PytestIdAt(s: string, p: nat): (r: Option<Match>)
    requires p <= |s|
    ensures r.Some? ==> r.value.start == p && p < r.value.end <= |s| && |r.value.groups| >= 1 && r.value.groups[0] != ""
  {
    if !(p == 0 || s[p - 1] == '\n') then None
    else
      var a := RunEnd(s, p, IdentChars);
      if a == p || !HasAtI(s, a, "::test") then None else Some(Match(p, a + 6, [s[p..a]]))
  }

  /** What the pattern matches when tried at `p` (Python `pattern.match(s, p)`). */
  function MatchAt(pat: Pat, s: string, p: nat): (r: Option<Match>)
    requires p <= |s|
    ensures r.Some? ==> r.value.start == p && p < r.value.end <= |s| && |r.value.groups| >= 1 && r.value.groups[0] != ""
  {
    match pat
    case UrlBuild => LiteralThenRun(s, p, "FRR-FRR-", false, Digits)
    case HeadingNumber =>
      (if HasAt(s, p, "#") && RunEnd(s, p + 1, DigitsOrCommas) > p + 1
       then Some(Match(p, RunEnd(s, p + 1, DigitsOrCommas), [s[p..RunEnd(s, p + 1, DigitsOrCommas)]]))
       else None)
    case NewCounter => CounterAt(s, p, "new test failures", Spaces)
    case ExistingCounter => CounterAt(s, p, "existing test failures", Spaces)
    case TotalTests => CounterAt(s, p, "total tests", ColonOrSpace)
    case Quarantined => QuarantinedAt(s, p)
    case Leak => LeakAt(s, p)
    case SanSummary => LiteralThenRun(s, p, "summary: addresssanitizer: ", true, NotNewline)
    case SanError => LiteralThenRun(s, p, "error: addresssanitizer: ", true, NotNewline)
    case ByteCount => ByteCountAt(s, p)
    case RunningTest => RunningTestAt(s, p)
    case Banner => BannerAt(s, p)
    case TestPath => TestPathAt(s, p)
    case TestPrefix => TestPrefixAt(s, p)
    case PytestId => PytestIdAt(s, p)
  }

  /** The attempts of a pattern at every position of `s`, the end included. */
  function Attempts(pat: Pat, s: string): (t: seq<Option<Match>>)
    ensures |t| == |s| + 1
    ensures forall q :: 0 <= q <= |s| ==> t[q] == MatchAt(pat, s, q)
  {
    seq(|s| + 1, q requires 0 <= q <= |s| => MatchAt(pat, s, q))
  }

  /** The first position at or after `from` whose attempt succeeds, or `|tries|`. */
  function FirstSome(tries: seq<Option<Match>>, from: nat): (k: nat)
    requires from <= |tries|
    ensures from <= k <= |tries|
    ensures k < |tries| ==> tries[k].Some?
    ensures forall q :: from <= q < k ==> tries[q].None?
    decreases |tries| - from
  {
    if from == |tries| || tries[from].Some? then from else FirstSome(tries, from + 1)
  }

  /** `re.search` from position `from`: the leftmost match at or after `from`. */
  function SearchFrom(pat: Pat, s: string, from: nat): (r: Option<Match>)
    requires from <= |s|
    ensures r.Some? ==> from <= r.value.start <= |s| && MatchAt(pat, s, r.value.start) == r
    ensures r.Some? ==> forall q :: from <= q < r.value.start ==> MatchAt(pat, s, q).None?
    ensures r.None? ==> forall q :: from <= q <= |s| ==> MatchAt(pat, s, q).None?
  {
    var tries := Attempts(pat, s);
    var k := FirstSome(tries, from);
    if k < |tries| then tries[k] else None
  }

  /** `re.search(pat, s)`. */
  function Search(pat: Pat, s: string): (r: Option<Match>)
    ensures r.Some? ==> r.value.start <= |s| && MatchAt(pat, s, r.value.start) == r
    ensures r.Some? ==> forall q :: 0 <= q < r.value.start ==> MatchAt(pat, s, q).None?
    ensures r.None? <==> forall q :: 0 <= q <= |s| ==> MatchAt(pat, s, q).None?
  {
    SearchFrom(pat, s, 0)
  }

  /** `re.finditer(pat, s)` from `from`: successive non-overlapping leftmost matches. */
  function FindAllFrom(pat: Pat, s: string, from: nat): (ms: seq<Match>)
    requires from <= |s|
    ensures forall i :: 0 <= i < |ms| ==> from <= ms[i].start <= |s| && MatchAt(pat, s, ms[i].start) == Some(ms[i])
    ensures ms == [] <==> SearchFrom(pat, s, from).None?
    decreases |s| - from
  {
    match SearchFrom(pat, s, from)
    case None => []
    case Some(m) => [m] + FindAllFrom(pat, s, m.end)
  }

  /** `re.finditer(pat, s)`. */
  function FindAll(pat: Pat, s: string): (ms: seq<Match>)
    ensures forall i :: 0 <= i < |ms| ==> ms[i].start <= |s| && MatchAt(pat, s, ms[i].start) == Some(ms[i])
    ensures ms == [] <==> Search(pat, s).None?
  {
    FindAllFrom(pat, s, 0)
  }

  /** `\bw\b` at `p`, for a word `w` that starts and ends with word characters. */
  predicate WordAt(s: string, p: nat, w: string) {
    HasAt(s, p, w) && (p == 0 || !IsWordChar(s[p - 1]))
    && (p + |w| == |s| || !IsWordChar(s[p + |w|]))
  }

  /** `re.search(r"\bw\b", s)` succeeds. */
  predicate HasWord(s: string, w: string) {
    exists p :: 0 <= p <= |s| && WordAt(s, p, w)
  }

  /** Positions `a <= i < b` of `s` hold no newline (so `.*` can cross them). */
  predicate NoNewline(s: string, a: nat, b: nat)
    requires a <= b <= |s|
  {
    forall i :: a <= i < b ==> s[i] != '\n'
  }

  /** `re.search(r"Build.*#\d+.*(failed|successful)", s, re.I)` succeeds. */
  predicate BuildStatusLine(s: string) {
    exists a :: 0 <= a <= |s| && HasAtI(s, a, "build") && BuildStatusFrom(s, a)
  }

  predicate BuildStatusFrom(s: string, a: nat)
    requires a + 5 <= |s|
  {
    exists b :: a + 5 <= b && b + 2 <= |s| && s[b] == '#' && IsDigit(s[b + 1]) && NoNewline(s, a, b + 2)
      && StatusWordAfter(s, b + 2)
  }

  predicate StatusWordAfter(s: string, b: nat)
    requires b <= |s|
  {
    exists c :: b <= c <= |s| && NoNewline(s, b, c) && (HasAtI(s, c, "failed") || HasAtI(s, c, "successful"))
  }
}
