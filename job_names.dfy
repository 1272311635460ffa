/**
 * `normalize_job_name` and `jobs_match` of analyze_ci.py; analyze_ci_week.py carries an
 * identical copy of both, so one definition serves the two analyzers.
 */
module JobNames {
  import opened Text

  /** The words deleted from a job name, in the order they are deleted. */
  const FillerWords: seq<string> := ["testing", "protocol", "on", "the", "test", "tests", "ipv4", "ipv6", "basic"]

  /** Words that never count towards a match. */
  const CommonWords: set<string> := {"part", "build", "amd64", "arm8", "i386"}

  /** `s` after `s.replace(word, "")` for the first `n` filler words, in list order. */
  function RemoveFillers(s: string, n: nat): string
    requires n <= |FillerWords|
  {
    if n == 0 then s else ReplaceAll(RemoveFillers(s, n - 1), FillerWords[n - 1], "")
  }

  /** The normalised name: lower-cased, filler words deleted as raw substrings (also inside
      other words), white space collapsed. */
  function Normalized(name: string): string {
    Collapse(RemoveFillers(Lower(name), |FillerWords|))
  }

  /** `normalize_job_name`, as the script runs it. */
  method NormalizeJobName(name: string) returns (r: string)
    ensures r == Normalized(name)
    ensures Collapsed(r)
  {
    var normalized := Lower(name);
    var i := 0;
    while i < |FillerWords|
      invariant 0 <= i <= |FillerWords|
      invariant normalized == RemoveFillers(Lower(name), i)
    {
      normalized := ReplaceAll(normalized, FillerWords[i], "");
      i := i + 1;
    }
    r := Join(Words(normalized), " ");
    CollapseIsCollapsed(normalized);
  }

  /** The set of words of a string, as `set(s.split())`. */
  function WordSet(s: string): (ws: set<string>)
    ensures forall w :: w in ws <==> w in Words(s)
  {
    set w | w in Words(s)
  }

  /** The words of a name that count towards a match. */
  function Significant(s: string): set<string> {
    WordSet(s) - CommonWords
  }

  /** `jobs_match`: one name contains the other, or, with the common words removed, both
      have words and they share at least 66% of the smaller word set. */
  function JobsMatch(a: string, b: string): (r: bool)
    ensures Contains(b, a) || Contains(a, b) ==> r
    ensures !(Contains(b, a) || Contains(a, b)) ==>
      (r <==> Significant(a) != {} && Significant(b) != {}
              && 100 * |Significant(a) * Significant(b)| >= 66 * Min(|Significant(a)|, |Significant(b)|))
  {
    if Contains(b, a) || Contains(a, b) then true
    else
      var w1 := Significant(a);
      var w2 := Significant(b);
      if w1 == {} || w2 == {} then false
      else
        var shared := w1 * w2;
        var m := Min(|w1|, |w2|);
        m > 0 && 100 * |shared| >= 66 * m
  }

  function Min(x: nat, y: nat): (m: nat)
    ensures m <= x && m <= y && (m == x || m == y)
  {
    if x <= y then x else y
  }

  // ----- Properties -----

  /** Every name matches itself. */
  lemma JobsMatchReflexive(a: string)
    ensures JobsMatch(a, a)
  {
    assert HasAt(a, 0, a);
  }

  /** The empty name matches every name, in either position. */
  lemma JobsMatchEmpty(a: string)
    ensures JobsMatch("", a) && JobsMatch(a, "")
  {
    assert HasAt(a, 0, "");
  }

  /** Matching does not depend on the order of the two names. */
  lemma JobsMatchSymmetric(a: string, b: string)
    ensures JobsMatch(a, b) == JobsMatch(b, a)
  {
    assert Significant(a) * Significant(b) == Significant(b) * Significant(a);
  }

  /** Two names whose significant words are the same non-empty set always match. */
  lemma SameWordsMatch(a: string, b: string)
    requires Significant(a) == Significant(b) != {}
    ensures JobsMatch(a, b)
  {
    var w := Significant(a);
    assert w * w == w;
  }

  /** Names whose significant words are disjoint match only when one contains the other. */
  lemma DisjointWordsMatch(a: string, b: string)
    requires Significant(a) * Significant(b) == {}
    ensures JobsMatch(a, b) <==> Contains(b, a) || Contains(a, b)
  {
    if !(Contains(b, a) || Contains(a, b)) && Significant(a) != {} && Significant(b) != {} {
      var x :| x in Significant(a);
      var y :| y in Significant(b);
      assert |Significant(a)| >= 1 by { assert x in Significant(a); }
      assert |Significant(b)| >= 1 by { assert y in Significant(b); }
    }
  }

  /** A normalised name has no leading, trailing or doubled white space. */
  lemma NormalizedCollapsed(name: string)
    ensures Collapsed(Normalized(name))
  {
    CollapseIsCollapsed(RemoveFillers(Lower(name), |FillerWords|));
  }

  /** A normalised name has no upper-case ASCII letter. */
  lemma NormalizedLowerCase(name: string)
    ensures forall i :: 0 <= i < |Normalized(name)| ==> !('A' <= Normalized(name)[i] <= 'Z')
  {
    var low := Lower(name);
    forall i | 0 <= i < |low| ensures !('A' <= low[i] <= 'Z') {
      assert low[i] == LowerChar(name[i]);
    }
    RemoveFillersKeeps(low, |FillerWords|);
    var s := RemoveFillers(low, |FillerWords|);
    CollapseKeeps(s);
  }

  /** No upper-case ASCII letter in `s`. */
  predicate NoUpper(s: string) {
    forall i :: 0 <= i < |s| ==> !('A' <= s[i] <= 'Z')
  }

  lemma {:induction false} RemoveFillersKeeps(s: string, n: nat)
    requires n <= |FillerWords| && NoUpper(s)
    ensures NoUpper(RemoveFillers(s, n))
  {
    if n > 0 {
      RemoveFillersKeeps(s, n - 1);
      ReplaceEmptyKeeps(RemoveFillers(s, n - 1), FillerWords[n - 1]);
    }
  }

  lemma {:induction false} ReplaceEmptyKeeps(s: string, w: string)
    requires w != [] && NoUpper(s)
    ensures NoUpper(ReplaceAll(s, w, ""))
    decreases |s|
  {
    if s != [] {
      if w <= s {
        ReplaceEmptyKeeps(s[|w|..], w);
        assert ReplaceAll(s, w, "") == ReplaceAll(s[|w|..], w, "");
      } else {
        ReplaceEmptyKeeps(s[1..], w);
      }
    }
  }

  lemma CollapseKeeps(s: string)
    requires NoUpper(s)
    ensures NoUpper(Collapse(s))
  {
    WordsKeep(s);
    var ws := Words(s);
    assert forall k :: 0 <= k < |ws| ==> NoUpper(ws[k]) by {
      forall k | 0 <= k < |ws| ensures NoUpper(ws[k]) {
        assert ws[k] in ws;
      }
    }
    JoinKeeps(ws);
  }

  lemma NoUpperSlice(s: string, i: nat, j: nat)
    requires i <= j <= |s| && NoUpper(s)
    ensures NoUpper(s[i..j])
  {
    forall k | 0 <= k < j - i ensures !('A' <= s[i..j][k] <= 'Z') {
      assert s[i..j][k] == s[i + k];
    }
  }

  lemma {:induction false} WordsKeep(s: string)
    requires NoUpper(s)
    ensures forall w :: w in Words(s) ==> NoUpper(w)
    decreases |s|
  {
    var t := LStrip(s);
    if t != [] {
      var n := NonSpaceRun(t);
      var tail := t[n..];
      assert NoUpper(t) by {
        NoUpperSlice(s, |s| - |t|, |s|);
        assert t == s[|s| - |t|..|s|];
      }
      NoUpperSlice(t, 0, n);
      NoUpperSlice(t, n, |t|);
      assert tail == t[n..|t|];
      WordsKeep(tail);
      WordsUnfold(s);
    }
  }

  lemma WordsUnfold(s: string)
    requires LStrip(s) != []
    ensures Words(s) == [LStrip(s)[..NonSpaceRun(LStrip(s))]] + Words(LStrip(s)[NonSpaceRun(LStrip(s))..])
  {
  }

  lemma {:induction false} JoinKeeps(ws: seq<string>)
    requires forall k :: 0 <= k < |ws| ==> NoUpper(ws[k])
    ensures NoUpper(Join(ws, " "))
    decreases |ws|
  {
    if |ws| >= 2 {
      JoinKeeps(ws[1..]);
      var rest := Join(ws[1..], " ");
      var r := ws[0] + " " + rest;
      assert NoUpper(ws[0]);
      forall i | 0 <= i < |r| ensures !('A' <= r[i] <= 'Z') {
        if i > |ws[0]| {
          assert r[i] == rest[i - |ws[0]| - 1];
        }
      }
    }
  }

}
