/**
 * The Bamboo key and name helpers of download_test_logs.py. A build key looks like
 * `FRR-PULLREQ3-12091` (plan, then build number) and a job key like
 * `FRR-PULLREQ3-TOPO0D12ARM8-12091` (plan, job, build number).
 */
module BambooKeys {
  import opened Wrappers
  import opened Text

  const Dash: string := "-"

  /** `key.rsplit('-', 1)[0]`: the key without its last dash segment (the key itself when
      it has no dash). */
  function WithoutLast(key: string): (r: string)
    ensures '-' !in key ==> r == key
    ensures '-' in key ==> |r| < |key| && key == r + "-" + key[|r| + 1..] && '-' !in key[|r| + 1..]
  {
    match LastIndexOf(key, '-')
    case None => key
    case Some(k) =>
      assert key[k] in key;
      assert key == key[..k] + "-" + key[k + 1..];
      var tail := key[k + 1..];
      assert '-' !in tail by {
        forall j | 0 <= j < |tail| ensures tail[j] != '-' {
          assert tail[j] == key[k + 1 + j];
        }
      }
      key[..k]
  }

  /** `extract_plan_key`: drop the build number; when what remains still has two dashes or
      more, keep its first two segments. */
  function ExtractPlanKey(buildKey: string): string {
    if '-' !in buildKey then buildKey
    else
      var without := WithoutLast(buildKey);
      if CountChar(without, '-') > 1 then
        var planParts := SplitOn(without, Dash);
        if |planParts| >= 2 then Join(planParts[..2], Dash) else without
      else without
  }

  /** The suffix `parts[i..]` joined by dashes, for the largest `i` in `1 .. start` whose
      suffix is longer than four characters; the last part when there is none. */
  function ShortSuffix(parts: seq<string>, start: nat): string
    requires 1 <= start < |parts|
  {
    if |Join(parts[start..], Dash)| > 4 then Join(parts[start..], Dash)
    else if start == 1 then parts[|parts| - 1]
    else ShortSuffix(parts, start - 1)
  }

  /** `extract_job_short_name`: without the build number, the shortest dash-joined suffix
      longer than four characters that leaves the first segment out, else the last segment. */
  function JobShortName(jobKey: string): string {
    if '-' !in jobKey then jobKey
    else
      var jobParts := SplitOn(WithoutLast(jobKey), Dash);
      if |jobParts| > 2 then ShortSuffix(jobParts, |jobParts| - 1)
      else jobParts[|jobParts| - 1]
  }

  /** `extract_job_short_name`, as the script runs it: a downward loop with an early return. */
  method ExtractJobShortName(jobKey: string) returns (r: string)
    ensures r == JobShortName(jobKey)
  {
    if '-' !in jobKey {
      return jobKey;
    }
    var jobParts := SplitOn(WithoutLast(jobKey), Dash);
    if |jobParts| > 2 {
      var i := |jobParts| - 1;
      while i > 0
        invariant 0 <= i <= |jobParts| - 1
        invariant i >= 1 ==> ShortSuffix(jobParts, |jobParts| - 1) == ShortSuffix(jobParts, i)
        invariant i == 0 ==> ShortSuffix(jobParts, |jobParts| - 1) == jobParts[|jobParts| - 1]
      {
        var potentialJob := Join(jobParts[i..], Dash);
        if |potentialJob| > 4 {
          return potentialJob;
        }
        i := i - 1;
      }
    }
    r := jobParts[|jobParts| - 1];
  }

  // ----- The job-name sanitiser -----

  /** Characters kept by `re.sub(r'[^\w\s-]', '', name)`. */
  predicate Kept(c: char) {
    IsWordChar(c) || IsSpace(c) || c == '-'
  }

  /** Characters that `re.sub(r'[-\s]+', '_', name)` turns into underscores. */
  predicate Separator(c: char) {
    IsSpace(c) || c == '-'
  }

  function KeepChars(s: string): (r: string)
    ensures forall i :: 0 <= i < |r| ==> Kept(r[i])
  {
    if s == [] then []
    else if Kept(s[0]) then [s[0]] + KeepChars(s[1..])
    else KeepChars(s[1..])
  }

  /** The input without its leading run of separators. */
  function DropSeparators(s: string): (r: string)
    ensures |r| <= |s| && r == s[|s| - |r|..]
    ensures r == [] || !Separator(r[0])
  {
    if s != [] && Separator(s[0]) then DropSeparators(s[1..]) else s
  }

  /** Each maximal run of separators replaced by one underscore. */
  function UnderscoreRuns(s: string): string
    decreases |s|
  {
    if s == [] then []
    else if Separator(s[0]) then "_" + UnderscoreRuns(DropSeparators(s))
    else [s[0]] + UnderscoreRuns(s[1..])
  }

  /** The output directory name of a job: unsafe characters removed, stripped, and runs of
      dashes and white space turned into underscores. */
  function SafeJobName(name: string): string {
    UnderscoreRuns(Strip(KeepChars(name)))
  }

  // ----- De-duplication -----

  /** A job found on the build page. */
  datatype BambooJob = BambooJob(name: string, key: string, url: string)

  function KeysOf(jobs: seq<BambooJob>): set<string> {
    set j | j in jobs :: j.key
  }

  /** The jobs kept from the first `n`: each one whose key no earlier job had. */
  function Unique(jobs: seq<BambooJob>, n: nat): (r: seq<BambooJob>)
    requires n <= |jobs|
  {
    if n == 0 then []
    else
      var kept := Unique(jobs, n - 1);
      if jobs[n - 1].key in KeysOf(kept) then kept else kept + [jobs[n - 1]]
  }

  /** The de-duplication loop of `parse_build_page`. */
  method DedupeJobs(jobs: seq<BambooJob>) returns (uniqueJobs: seq<BambooJob>)
    ensures uniqueJobs == Unique(jobs, |jobs|)
  {
    uniqueJobs := [];
    var seenKeys: set<string> := {};
    for i := 0 to |jobs|
      invariant uniqueJobs == Unique(jobs, i)
      invariant seenKeys == KeysOf(uniqueJobs)
    {
      var job := jobs[i];
      if job.key !in seenKeys {
        seenKeys := seenKeys + {job.key};
        uniqueJobs := uniqueJobs + [job];
      }
    }
  }

  // ----- Chunk mode -----

  /** The job key of a `--chunk` artifact URL: the text after `/browse/` (up to a second
      `/browse/`, if any), with trailing slashes and `/artifact` removed. `None` when the URL
      has no `/browse/`, where the script exits with an error. */
  function ChunkJobKey(url: string): (r: Option<string>)
    ensures r.None? <==> !Contains(url, "/browse/")
  {
    if !Contains(url, "/browse/") then None
    else
      var parts := SplitOn(url, "/browse/");
      SplitOnFound(url, "/browse/");
      Some(ReplaceAll(RStripChar(parts[1], '/'), "/artifact", ""))
  }

  /** The build key the chunk mode derives from a job key: with two dashes or more, the
      first two segments and the last; otherwise the key without its last segment. */
  function ChunkBuildKey(jobKey: string): string {
    var buildKey := WithoutLast(jobKey);
    if '-' in buildKey then
      var parts := SplitOn(jobKey, Dash);
      if |parts| >= 3 then PlanAndNumber(parts) else buildKey
    else buildKey
  }

  /** `'-'.join(parts[:2] + [parts[-1]])`: the first two segments and the last. */
  function PlanAndNumber(parts: seq<string>): (r: string)
    requires |parts| >= 3
    ensures r == parts[0] + "-" + parts[1] + "-" + parts[|parts| - 1]
  {
    JoinFirstTwoAndLast(parts);
    Join(parts[..2] + [parts[|parts| - 1]], Dash)
  }

  lemma SplitOnFound(s: string, sep: string)
    requires sep != [] && Contains(s, sep)
    ensures |SplitOn(s, sep)| >= 2
  {
    var i := Find(s, sep);
    assert 0 <= i && i + |sep| <= |s| by {
      assert HasAt(s, i, sep);
    }
    var rest := SplitOn(s[i + |sep|..], sep);
    assert SplitOn(s, sep) == [s[..i]] + rest;
  }

  // ----- Properties -----

  /** With no dash the plan key is the key; otherwise it is a prefix of the key, shorter
      than it, with at most one dash. */
  lemma PlanKeyShape(buildKey: string)
    ensures '-' !in buildKey ==> ExtractPlanKey(buildKey) == buildKey
    ensures '-' in buildKey ==>
      ExtractPlanKey(buildKey) <= buildKey && |ExtractPlanKey(buildKey)| < |buildKey|
      && CountChar(ExtractPlanKey(buildKey), '-') <= 1
  {
    if '-' in buildKey {
      var without := WithoutLast(buildKey);
      assert without <= buildKey;
      if CountChar(without, '-') > 1 {
        FirstTwoSegments(without);
      }
    }
  }

  /** The first two dash segments of a string with two dashes or more form a prefix of it
      with exactly one dash. */
  lemma FirstTwoSegments(s: string)
    requires CountChar(s, '-') > 1
    ensures |SplitOn(s, Dash)| >= 2
    ensures Join(SplitOn(s, Dash)[..2], Dash) <= s
    ensures CountChar(Join(SplitOn(s, Dash)[..2], Dash), '-') == 1
  {
    var parts := SplitOn(s, Dash);
    assert |parts| >= 3 by { SplitOnCharCount(s, '-'); }
    assert '-' !in parts[0] && '-' !in parts[1] by { SplitOnCharPieces(s, '-'); }
    var two := parts[0] + Dash + parts[1];
    assert Join(parts[..2], Dash) == two by {
      assert parts[..2] == [parts[0]] + [parts[1]];
      JoinCons(parts[0], [parts[1]], Dash);
    }
    assert two <= s by {
      JoinSplitOn(s, Dash);
      JoinFirstTwo(parts, Dash);
    }
    OneDash(parts[0], parts[1]);
  }

  lemma JoinFirstTwo(parts: seq<string>, sep: string)
    requires |parts| >= 3
    ensures Join(parts, sep) == parts[0] + sep + parts[1] + (sep + Join(parts[2..], sep))
  {
    assert parts[1..][1..] == parts[2..];
    JoinCons(parts[1], parts[2..], sep);
    assert parts[1..] == [parts[1]] + parts[2..];
  }

  lemma NoOccurrence(s: string, c: char)
    requires c !in s
    ensures CountChar(s, c) == 0
  {
    NoOccurrenceCount(s, c);
  }

  /** `a-b-n` (dash-free segments) splits back into its three segments. */
  lemma SplitThree(a: string, b: string, n: string)
    requires '-' !in a && '-' !in b && '-' !in n
    ensures SplitOn(a + "-" + b + "-" + n, Dash) == [a, b, n]
  {
    SplitOnCharNone(n, '-');
    SplitOnCharCons(b, '-', n);
    assert a + "-" + b + "-" + n == a + ['-'] + (b + ['-'] + n);
    SplitOnCharCons(a, '-', b + ['-'] + n);
  }

  lemma WithoutLastOf(a: string, n: string)
    requires '-' !in n
    ensures WithoutLast(a + "-" + n) == a
  {
    LastIndexOfCons(a, '-', n);
    assert (a + "-" + n)[..|a|] == a;
  }

  lemma OneDash(a: string, b: string)
    requires '-' !in a && '-' !in b
    ensures CountChar(a + "-" + b, '-') == 1
  {
    NoOccurrence(a, '-');
    NoOccurrence(b, '-');
    CountCharAppend(a, "-", '-');
    CountCharAppend(a + "-", b, '-');
  }

  /** A build key `plan1-plan2-number` gives `plan1-plan2`. */
  lemma PlanKeyOfBuildKey(a: string, b: string, n: string)
    requires '-' !in a && '-' !in b && '-' !in n
    ensures ExtractPlanKey(a + "-" + b + "-" + n) == a + "-" + b
  {
    var key := a + "-" + b + "-" + n;
    assert key[|a|] == '-';
    WithoutLastOf(a + "-" + b, n);
    OneDash(a, b);
  }

  /** A job key `plan1-plan2-job-number` also gives `plan1-plan2`. */
  lemma PlanKeyOfJobKey(a: string, b: string, j: string, n: string)
    requires '-' !in a && '-' !in b && '-' !in j && '-' !in n
    ensures ExtractPlanKey(a + "-" + b + "-" + j + "-" + n) == a + "-" + b
  {
    var key := a + "-" + b + "-" + j + "-" + n;
    var without := a + "-" + b + "-" + j;
    assert '-' in key by { assert '-' in a + "-"; }
    assert WithoutLast(key) == without by { WithoutLastOf(without, n); }
    assert CountChar(without, '-') == 2 by {
      OneDash(a, b);
      CountCharAppend(a + "-" + b, "-", '-');
      CountCharAppend(a + "-" + b + "-", j, '-');
      NoOccurrence(j, '-');
    }
    assert SplitOn(without, Dash) == [a, b, j] by { SplitThree(a, b, j); }
    assert Join([a, b, j][..2], Dash) == a + "-" + b by {
      assert [a, b, j][..2] == [a] + [b];
      JoinCons(a, [b], Dash);
    }
  }

  /** The segments of the documented keys have no dash. */
  lemma ExampleSegments()
    ensures '-' !in "FRR" && '-' !in "PULLREQ3" && '-' !in "TOPO0D12ARM8" && '-' !in "12091"
  {
  }

  /** The documented examples of `extract_plan_key`. */
  lemma PlanKeyExampleBuild()
    ensures ExtractPlanKey("FRR" + "-" + "PULLREQ3" + "-" + "12091") == "FRR" + "-" + "PULLREQ3"
  {
    ExampleSegments();
    PlanKeyOfBuildKey("FRR", "PULLREQ3", "12091");
  }

  lemma PlanKeyExampleJob()
    ensures ExtractPlanKey("FRR" + "-" + "PULLREQ3" + "-" + "TOPO0D12ARM8" + "-" + "12091") == "FRR" + "-" + "PULLREQ3"
  {
    ExampleSegments();
    PlanKeyOfJobKey("FRR", "PULLREQ3", "TOPO0D12ARM8", "12091");
  }

  /** The documented example of `extract_job_short_name`. */
  lemma JobShortNameExample()
    ensures JobShortName("FRR" + "-" + "PULLREQ3" + "-" + "TOPO0D12ARM8" + "-" + "12091") == "TOPO0D12ARM8"
  {
    ExampleSegments();
    JobShortNameOf("FRR", "PULLREQ3", "TOPO0D12ARM8", "12091");
  }

  /** Which suffix `ShortSuffix` picks: index `i >= 1` is the largest index up to `start`
      whose suffix is longer than four characters; `i == 0` says there is none and the last
      part is taken. */
  lemma {:induction false} ShortSuffixChoice(parts: seq<string>, start: nat) returns (i: nat)
    requires 1 <= start < |parts|
    ensures i <= start
    ensures forall k :: i < k <= start ==> |Join(parts[k..], Dash)| <= 4
    ensures i >= 1 ==> |Join(parts[i..], Dash)| > 4 && ShortSuffix(parts, start) == Join(parts[i..], Dash)
    ensures i == 0 ==> ShortSuffix(parts, start) == parts[|parts| - 1]
  {
    if |Join(parts[start..], Dash)| > 4 {
      i := start;
    } else if start == 1 {
      i := 0;
    } else {
      i := ShortSuffixChoice(parts, start - 1);
    }
  }

  /** The short name of a job key with three dash segments or more before the build number
      is a suffix of those segments that leaves the first one out: the shortest one longer
      than four characters, else the last segment. */
  lemma JobShortNameChoice(jobKey: string) returns (i: nat)
    requires '-' in jobKey && |SplitOn(WithoutLast(jobKey), Dash)| > 2
    ensures var parts := SplitOn(WithoutLast(jobKey), Dash);
      i < |parts|
      && (forall k :: i < k < |parts| ==> |Join(parts[k..], Dash)| <= 4)
      && (i >= 1 ==> |Join(parts[i..], Dash)| > 4 && JobShortName(jobKey) == Join(parts[i..], Dash))
      && (i == 0 ==> JobShortName(jobKey) == parts[|parts| - 1])
  {
    var parts := SplitOn(WithoutLast(jobKey), Dash);
    assert JobShortName(jobKey) == ShortSuffix(parts, |parts| - 1);
    i := ShortSuffixChoice(parts, |parts| - 1);
  }

  /** A job key `plan1-plan2-job-number` whose job segment is longer than four characters
      gives that segment. */
  lemma JobShortNameOf(a: string, b: string, j: string, n: string)
    requires '-' !in a && '-' !in b && '-' !in j && '-' !in n && |j| > 4
    ensures JobShortName(a + "-" + b + "-" + j + "-" + n) == j
  {
    var key := a + "-" + b + "-" + j + "-" + n;
    var without := a + "-" + b + "-" + j;
    assert '-' in key by { assert '-' in a + "-"; }
    assert WithoutLast(key) == without by { WithoutLastOf(without, n); }
    assert SplitOn(without, Dash) == [a, b, j] by { SplitThree(a, b, j); }
    assert [a, b, j][2..] == [j];
  }

  // ----- Properties of the sanitiser -----

  /** A sanitised job name consists of word characters only: it has no white space and no
      dash. */
  lemma SafeJobNameChars(name: string)
    ensures forall i :: 0 <= i < |SafeJobName(name)| ==> IsWordChar(SafeJobName(name)[i])
    ensures forall i :: 0 <= i < |SafeJobName(name)| ==> !IsSpace(SafeJobName(name)[i]) && SafeJobName(name)[i] != '-'
  {
    var kept := KeepChars(name);
    var t := Strip(kept);
    assert forall i :: 0 <= i < |t| ==> Kept(t[i]) by {
      var l := LStrip(kept);
      forall i | 0 <= i < |l| ensures Kept(l[i]) {
        assert l[i] == kept[|kept| - |l| + i];
      }
      forall i | 0 <= i < |t| ensures Kept(t[i]) {
        assert t[i] == l[i];
      }
    }
    UnderscoreRunsWordChars(t);
  }

  lemma {:induction false} UnderscoreRunsWordChars(s: string)
    requires forall i :: 0 <= i < |s| ==> Kept(s[i])
    ensures forall i :: 0 <= i < |UnderscoreRuns(s)| ==> IsWordChar(UnderscoreRuns(s)[i])
    decreases |s|
  {
    if s != [] {
      if Separator(s[0]) {
        var d := DropSeparators(s);
        forall i | 0 <= i < |d| ensures Kept(d[i]) {
          assert d[i] == s[|s| - |d| + i];
        }
        UnderscoreRunsWordChars(d);
      } else {
        assert forall i :: 0 <= i < |s[1..]| ==> Kept(s[1..][i]) by {
          forall i | 0 <= i < |s[1..]| ensures Kept(s[1..][i]) {
            assert s[1..][i] == s[i + 1];
          }
        }
        UnderscoreRunsWordChars(s[1..]);
      }
    }
  }

  /** A name made of word characters only is its own sanitised form. */
  lemma WordNameUnchanged(y: string)
    requires forall i :: 0 <= i < |y| ==> IsWordChar(y[i])
    ensures SafeJobName(y) == y
  {
    KeepWordChars(y);
    StripWordChars(y);
    UnderscoreRunsWordOnly(y);
  }

  lemma StripWordChars(y: string)
    requires forall i :: 0 <= i < |y| ==> IsWordChar(y[i])
    ensures Strip(y) == y
  {
    if y != [] {
      assert IsWordChar(y[0]) && IsWordChar(y[|y| - 1]);
    }
    assert LStrip(y) == y;
  }

  lemma {:induction false} KeepWordChars(y: string)
    requires forall i :: 0 <= i < |y| ==> IsWordChar(y[i])
    ensures KeepChars(y) == y
  {
    if y != [] {
      assert IsWordChar(y[0]);
      KeepWordChars(y[1..]);
      assert y == [y[0]] + y[1..];
    }
  }

  lemma {:induction false} UnderscoreRunsWordOnly(y: string)
    requires forall i :: 0 <= i < |y| ==> IsWordChar(y[i])
    ensures UnderscoreRuns(y) == y
  {
    if y != [] {
      assert IsWordChar(y[0]);
      UnderscoreRunsWordOnly(y[1..]);
      assert y == [y[0]] + y[1..];
    }
  }

  /** Sanitising twice gives the same name as sanitising once. */
  lemma SafeJobNameIdempotent(name: string)
    ensures SafeJobName(SafeJobName(name)) == SafeJobName(name)
  {
    SafeJobNameChars(name);
    WordNameUnchanged(SafeJobName(name));
  }

  // ----- Properties of the de-duplication -----

  /** The kept jobs have distinct keys, they are jobs of the input, and every key of the
      input is the key of a kept job. */
  lemma UniqueKeys(jobs: seq<BambooJob>, n: nat)
    requires n <= |jobs|
    ensures KeysOf(Unique(jobs, n)) == KeysOf(jobs[..n])
    ensures forall i, j :: 0 <= i < j < |Unique(jobs, n)| ==> Unique(jobs, n)[i].key != Unique(jobs, n)[j].key
    ensures forall x :: x in Unique(jobs, n) ==> x in jobs[..n]
  {
    UniqueKeySet(jobs, n);
    UniqueDistinct(jobs, n);
    UniqueFromInput(jobs, n);
  }

  lemma {:induction false} UniqueKeySet(jobs: seq<BambooJob>, n: nat)
    requires n <= |jobs|
    ensures KeysOf(Unique(jobs, n)) == KeysOf(jobs[..n])
  {
    if n > 0 {
      UniqueKeySet(jobs, n - 1);
      var kept := Unique(jobs, n - 1);
      var x := jobs[n - 1];
      assert jobs[..n] == jobs[..n - 1] + [x];
      KeysAppend(jobs[..n - 1], x);
      KeysAppend(kept, x);
    }
  }

  lemma KeysAppend(xs: seq<BambooJob>, x: BambooJob)
    ensures KeysOf(xs + [x]) == KeysOf(xs) + {x.key}
  {
    forall k ensures k in KeysOf(xs + [x]) <==> k in KeysOf(xs) + {x.key} {
      if k in KeysOf(xs + [x]) {
        var y :| y in xs + [x] && y.key == k;
        if y != x { assert y in xs; }
      }
      if k in KeysOf(xs) {
        var y :| y in xs && y.key == k;
        assert y in xs + [x];
      }
    }
  }

  lemma {:induction false} UniqueDistinct(jobs: seq<BambooJob>, n: nat)
    requires n <= |jobs|
    ensures forall i, j :: 0 <= i < j < |Unique(jobs, n)| ==> Unique(jobs, n)[i].key != Unique(jobs, n)[j].key
  {
    if n > 0 {
      UniqueDistinct(jobs, n - 1);
      var kept := Unique(jobs, n - 1);
      var x := jobs[n - 1];
      if x.key !in KeysOf(kept) {
        var r := kept + [x];
        forall i, j | 0 <= i < j < |r| ensures r[i].key != r[j].key {
          assert r[i] == kept[i];
          if j == |kept| {
            assert kept[i] in kept;
          } else {
            assert r[j] == kept[j];
          }
        }
      }
    }
  }

  lemma {:induction false} UniqueFromInput(jobs: seq<BambooJob>, n: nat)
    requires n <= |jobs|
    ensures forall x :: x in Unique(jobs, n) ==> x in jobs[..n]
  {
    if n > 0 {
      UniqueFromInput(jobs, n - 1);
      assert jobs[..n] == jobs[..n - 1] + [jobs[n - 1]];
    }
  }

  /** Job `i` is the first job with its key. */
  predicate FirstOfKey(jobs: seq<BambooJob>, i: nat)
    requires i < |jobs|
  {
    forall k :: 0 <= k < i ==> jobs[k].key != jobs[i].key
  }

  /** Reference definition: the jobs among the first `n` that are the first with their
      key, in input order. */
  function Firsts(jobs: seq<BambooJob>, n: nat): seq<BambooJob>
    requires n <= |jobs|
  {
    if n == 0 then []
    else Firsts(jobs, n - 1) + (if FirstOfKey(jobs, n - 1) then [jobs[n - 1]] else [])
  }

  /** Job `m` is the first of its key exactly when no earlier job has its key. */
  lemma KeyInPrefix(jobs: seq<BambooJob>, m: nat)
    requires m < |jobs|
    ensures FirstOfKey(jobs, m) <==> jobs[m].key !in KeysOf(jobs[..m])
  {
    var x := jobs[m];
    if !FirstOfKey(jobs, m) {
      var k :| 0 <= k < m && jobs[k].key == x.key;
      assert jobs[..m][k] == jobs[k];
    }
  }

  /** The de-duplication keeps exactly the first job of each key, in input order. */
  lemma {:induction false} UniqueIsFirsts(jobs: seq<BambooJob>, n: nat)
    requires n <= |jobs|
    ensures Unique(jobs, n) == Firsts(jobs, n)
  {
    if n > 0 {
      UniqueIsFirsts(jobs, n - 1);
      UniqueKeySet(jobs, n - 1);
      KeyInPrefix(jobs, n - 1);
    }
  }

  // ----- Properties of the chunk mode -----

  /** An artifact URL `pre/browse/KEY/artifact`, with no `/b` in `pre` and no slash in the
      key, gives the key. */
  lemma ChunkJobKeyOf(pre: string, key: string)
    requires forall i :: 0 <= i < |pre| - 1 ==> !(pre[i] == '/' && pre[i + 1] == 'b')
    requires '/' !in key
    ensures ChunkJobKey(pre + "/browse/" + key + "/artifact") == Some(key)
  {
    var rest := key + "/artifact";
    assert pre + "/browse/" + key + "/artifact" == pre + "/browse/" + rest;
    assert SplitOn(pre + "/browse/" + rest, "/browse/")[1] == rest by {
      assert !Contains(rest, "/browse/") by { ArtifactNoBrowse(key); }
      SplitAfterBrowse(pre, rest);
    }
    ArtifactKey(key);
  }

  /** The first `/browse/` of `pre/browse/rest` is the one after `pre`. */
  lemma SplitAfterBrowse(pre: string, rest: string)
    requires forall i :: 0 <= i < |pre| - 1 ==> !(pre[i] == '/' && pre[i + 1] == 'b')
    requires !Contains(rest, "/browse/")
    ensures SplitOn(pre + "/browse/" + rest, "/browse/") == [pre, rest]
  {
    var w := "/browse/";
    var url := pre + w + rest;
    assert HasAt(url, |pre|, w) by { assert url[|pre|..|pre| + |w|] == w; }
    forall p | 0 <= p < |pre| ensures !HasAt(url, p, w) {
      assert url[p] == pre[p];
      if p + 1 < |pre| {
        assert url[p + 1] == pre[p + 1];
      } else {
        assert url[p + 1] == '/';
      }
    }
    assert Find(url, w) == |pre|;
    assert url[..|pre|] == pre;
    assert url[|pre| + |w|..] == rest;
    assert SplitOn(rest, w) == [rest];
  }

  /** `KEY/artifact`, with no slash in the key, holds no `/browse/`. */
  lemma ArtifactNoBrowse(key: string)
    requires '/' !in key
    ensures !Contains(key + "/artifact", "/browse/")
  {
    var rest := key + "/artifact";
    var w := "/browse/";
    forall i | 0 <= i < |rest| - 1 ensures !(rest[i] == w[0] && rest[i + 1] == w[1]) {
      if i < |key| {
        assert rest[i] == key[i];
      } else {
        assert rest[i + 1] == "/artifact"[i + 1 - |key|];
      }
    }
    NoPairNotContains(rest, w);
  }

  /** Stripping trailing slashes and deleting `/artifact` from `KEY/artifact` leaves the key. */
  lemma ArtifactKey(key: string)
    requires '/' !in key
    ensures ReplaceAll(RStripChar(key + "/artifact", '/'), "/artifact", "") == key
  {
    var rest := key + "/artifact";
    assert RStripChar(rest, '/') == rest by { assert rest[|rest| - 1] == 't'; }
    assert rest == key + "/artifact" + "";
    forall i | 0 <= i < |key| ensures !((key + "/artifact" + "")[i] == '/' && (key + "/artifact" + "")[i + 1] == 'a') {
      assert (key + "/artifact" + "")[i] == key[i];
    }
    ReplaceOncePair(key, "/artifact", "", "");
  }

  /** `a-b-c-d` (dash-free segments) splits back into its four segments. */
  lemma SplitFour(a: string, b: string, c: string, d: string)
    requires '-' !in a && '-' !in b && '-' !in c && '-' !in d
    ensures SplitOn(a + "-" + b + "-" + c + "-" + d, Dash) == [a, b, c, d]
  {
    var rest := b + "-" + c + "-" + d;
    DashAssoc(a, b, c, d);
    SplitThree(b, c, d);
    SplitOnCharCons(a, '-', rest);
  }

  lemma DashAssoc(a: string, b: string, c: string, d: string)
    ensures a + "-" + b + "-" + c + "-" + d == a + ['-'] + (b + "-" + c + "-" + d)
  {
  }

  /** A job key `plan1-plan2-job-number` gives the build key `plan1-plan2-number`. */
  lemma ChunkBuildKeyOf(a: string, b: string, j: string, n: string)
    requires '-' !in a && '-' !in b && '-' !in j && '-' !in n
    ensures ChunkBuildKey(a + "-" + b + "-" + j + "-" + n) == a + "-" + b + "-" + n
  {
    var key := a + "-" + b + "-" + j + "-" + n;
    var without := a + "-" + b + "-" + j;
    WithoutLastOf(without, n);
    assert '-' in without by { assert '-' in a + "-"; }
    SplitFour(a, b, j, n);
    ChunkBuildKeyFrom(key, [a, b, j, n]);
  }

  /** With two dashes before the last segment, the chunk build key is the first, second
      and last dash segments. */
  lemma ChunkBuildKeyFrom(key: string, parts: seq<string>)
    requires '-' in WithoutLast(key) && SplitOn(key, Dash) == parts && |parts| >= 3
    ensures ChunkBuildKey(key) == parts[0] + "-" + parts[1] + "-" + parts[|parts| - 1]
  {
  }

  lemma JoinFirstTwoAndLast(parts: seq<string>)
    requires |parts| >= 3
    ensures Join(parts[..2] + [parts[|parts| - 1]], Dash) == parts[0] + "-" + parts[1] + "-" + parts[|parts| - 1]
  {
    assert parts[..2] + [parts[|parts| - 1]] == [parts[0], parts[1], parts[|parts| - 1]];
    JoinThree(parts[0], parts[1], parts[|parts| - 1]);
  }

  lemma JoinThree(a: string, b: string, n: string)
    ensures Join([a, b, n], Dash) == a + "-" + b + "-" + n
  {
    assert [a, b, n] == [a] + ([b] + [n]);
    JoinCons(b, [n], Dash);
    JoinCons(a, [b] + [n], Dash);
  }

  /** A build key `plan1-plan2-number` is its own chunk build key. */
  lemma ChunkBuildKeyOfBuildKey(a: string, b: string, n: string)
    requires '-' !in a && '-' !in b && '-' !in n
    ensures ChunkBuildKey(a + "-" + b + "-" + n) == a + "-" + b + "-" + n
  {
    var key := a + "-" + b + "-" + n;
    assert '-' in WithoutLast(key) by {
      WithoutLastOf(a + "-" + b, n);
      assert (a + "-" + b)[|a|] == '-';
    }
    assert SplitOn(key, Dash) == [a, b, n] by { SplitThree(a, b, n); }
    ChunkBuildKeyFrom(key, [a, b, n]);
  }

  /** The documented example of the chunk mode. */
  lemma ChunkExample()
    ensures ChunkBuildKey("FRR" + "-" + "PULLREQ3" + "-" + "ASAN6D12AMD64" + "-" + "12091")
      == "FRR" + "-" + "PULLREQ3" + "-" + "12091"
  {
    ExampleSegments();
    assert '-' !in "ASAN6D12AMD64";
    ChunkBuildKeyOf("FRR", "PULLREQ3", "ASAN6D12AMD64", "12091");
  }

  /** The documented artifact URL gives its job key. */
  lemma ChunkUrlExample()
    ensures ChunkJobKey("https://ci1.netdef.org" + "/browse/" + "FRR-PULLREQ3-ASAN6D12AMD64-12091" + "/artifact")
      == Some("FRR-PULLREQ3-ASAN6D12AMD64-12091")
  {
    var pre := "https://ci1.netdef.org";
    assert forall i :: 0 <= i < |pre| - 1 ==> !(pre[i] == '/' && pre[i + 1] == 'b');
    assert '/' !in "FRR-PULLREQ3-ASAN6D12AMD64-12091";
    ChunkJobKeyOf(pre, "FRR-PULLREQ3-ASAN6D12AMD64-12091");
  }
}
