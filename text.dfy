/**
 * The Python string operations the CI scripts rely on, over `string` (`seq<char>`):
 * `in`, `find`, `lower`, `strip`, `split()`, `split(sep)`, `join`, `replace`,
 * `rsplit(sep, 1)`, `count`, `int`.
 */
module Text {
  import opened Wrappers

  /** Python's whitespace: `str.isspace`, and what `split()`, `strip()` and `\s` treat as space. */
  predicate IsSpace(c: char) {
    var n := c as int;
    (9 <= n <= 13) || (28 <= n <= 32) || n == 0x85 || n == 0xA0 || n == 0x1680
    || (0x2000 <= n <= 0x200A) || n == 0x2028 || n == 0x2029 || n == 0x202F
    || n == 0x205F || n == 0x3000
  }

  predicate IsDigit(c: char) { '0' <= c <= '9' }

  predicate IsAsciiLetter(c: char) { 'a' <= c <= 'z' || 'A' <= c <= 'Z' }

  /** The ASCII part of `\w`: letters, digits and the underscore. */
  predicate IsWordChar(c: char) { IsAsciiLetter(c) || IsDigit(c) || c == '_' }

  function LowerChar(c: char): char {
    if 'A' <= c <= 'Z' then (c as int + 32) as char else c
  }

  /** `s.lower()` on ASCII letters. */
  function Lower(s: string): (r: string)
    ensures |r| == |s|
    ensures forall i :: 0 <= i < |s| ==> r[i] == LowerChar(s[i])
  {
    seq(|s|, i requires 0 <= i < |s| => LowerChar(s[i]))
  }

  /** `w` occurs in `s` starting at position `p`. */
  predicate HasAt(s: string, p: nat, w: string) {
    p <= |s| && w <= s[p..]
  }

  /** `w` occurs at `p`, ASCII letters compared without regard to case. */
  predicate HasAtI(s: string, p: nat, w: string) {
    p + |w| <= |s| && Lower(s[p..p + |w|]) == Lower(w)
  }

  /** Python `w in s`. */
  predicate Contains(s: string, w: string) {
    exists p :: 0 <= p <= |s| && HasAt(s, p, w)
  }

  /** Python `s.find(w, from)`: the first position at or after `from` where `w` occurs, or -1. */
  function FindFrom(s: string, w: string, from: nat): (r: int)
    decreases |s| - from
    ensures -1 <= r
    ensures r >= 0 ==> from <= r <= |s| && HasAt(s, r, w)
    ensures r >= 0 ==> forall p :: from <= p < r ==> !HasAt(s, p, w)
    ensures r < 0 <==> forall p :: from <= p <= |s| ==> !HasAt(s, p, w)
  {
    if from > |s| then -1
    else if HasAt(s, from, w) then from
    else FindFrom(s, w, from + 1)
  }

  /** Python `s.find(w)`. */
  function Find(s: string, w: string): (r: int)
    ensures -1 <= r
    ensures r >= 0 <==> Contains(s, w)
    ensures r >= 0 ==> r <= |s| && HasAt(s, r, w) && forall p :: 0 <= p < r ==> !HasAt(s, p, w)
  {
    FindFrom(s, w, 0)
  }

  /** `s.lstrip()`. */
  function LStrip(s: string): (r: string)
    ensures |r| <= |s| && r == s[|s| - |r|..]
    ensures r != [] ==> !IsSpace(r[0])
    ensures forall i :: 0 <= i < |s| - |r| ==> IsSpace(s[i])
  {
    if s != [] && IsSpace(s[0]) then LStrip(s[1..]) else s
  }

  /** `s.rstrip()`. */
  function RStrip(s: string): (r: string)
    ensures |r| <= |s| && r == s[..|r|]
    ensures r != [] ==> !IsSpace(r[|r| - 1])
    ensures forall i :: |r| <= i < |s| ==> IsSpace(s[i])
  {
    if s != [] && IsSpace(s[|s| - 1]) then RStrip(s[..|s| - 1]) else s
  }

  /** `s.strip()`. */
  function Strip(s: string): string {
    RStrip(LStrip(s))
  }

  /** `s.rstrip(c)` for one character `c`. */
  function RStripChar(s: string, c: char): (r: string)
    ensures |r| <= |s| && r == s[..|r|]
    ensures r != [] ==> r[|r| - 1] != c
    ensures forall i :: |r| <= i < |s| ==> s[i] == c
  {
    if s != [] && s[|s| - 1] == c then RStripChar(s[..|s| - 1], c) else s
  }

  /** Length of the leading run of non-space characters. */
  function NonSpaceRun(s: string): (n: nat)
    ensures n <= |s|
    ensures forall i :: 0 <= i < n ==> !IsSpace(s[i])
    ensures n < |s| ==> IsSpace(s[n])
  {
    if s == [] || IsSpace(s[0]) then 0 else 1 + NonSpaceRun(s[1..])
  }

  /** What `split()` can produce: a non-empty run of non-space characters. */
  predicate IsWord(w: string) {
    w != [] && forall i :: 0 <= i < |w| ==> !IsSpace(w[i])
  }

  /** Python `s.split()`: the maximal runs of non-space characters, in order. */
  function Words(s: string): seq<string>
    decreases |s|
  {
    var t := LStrip(s);
    if t == [] then []
    else
      var n := NonSpaceRun(t);
      [t[..n]] + Words(t[n..])
  }

  /** Every piece `split()` yields is a word. */
  lemma {:induction false} WordsAreWords(s: string)
    ensures forall i :: 0 <= i < |Words(s)| ==> IsWord(Words(s)[i])
    decreases |s|
  {
    var t := LStrip(s);
    if t != [] {
      var n := NonSpaceRun(t);
      var w := t[..n];
      assert IsWord(w) by {
        assert !IsSpace(t[0]);
        forall i | 0 <= i < |w| ensures !IsSpace(w[i]) { assert w[i] == t[i]; }
      }
      var rest := Words(t[n..]);
      WordsAreWords(t[n..]);
      assert Words(s) == [w] + rest;
      forall i | 0 <= i < |Words(s)| ensures IsWord(Words(s)[i]) {
        if i > 0 { assert Words(s)[i] == rest[i - 1]; }
      }
    }
  }

  /** Python `sep.join(parts)`. */
  function Join(parts: seq<string>, sep: string): string {
    if |parts| == 0 then ""
    else if |parts| == 1 then parts[0]
    else parts[0] + sep + Join(parts[1..], sep)
  }

  /** Python `" ".join(s.split())`: whitespace runs collapsed to one space, ends trimmed. */
  function Collapse(s: string): string {
    Join(Words(s), " ")
  }

  /** Python `s.replace(w, rep)` for a non-empty `w`: occurrences replaced left to right. */
  function ReplaceAll(s: string, w: string, rep: string): string
    requires w != []
    decreases |s|
  {
    if s == [] then []
    else if w <= s then rep + ReplaceAll(s[|w|..], w, rep)
    else [s[0]] + ReplaceAll(s[1..], w, rep)
  }

  /** Python `s.split(sep)` for a non-empty `sep`. */
  function SplitOn(s: string, sep: string): (parts: seq<string>)
    requires sep != []
    ensures |parts| >= 1
    decreases |s|
  {
    var i := Find(s, sep);
    if i < 0 then [s] else [s[..i]] + SplitOn(s[i + |sep|..], sep)
  }

  /** `s.count(c)` for one character. */
  function CountChar(s: string, c: char): nat {
    if s == [] then 0 else (if s[0] == c then 1 else 0) + CountChar(s[1..], c)
  }

  /** The position of the last `c` in `s`, if any (`s.rfind(c)`). */
  function LastIndexOf(s: string, c: char): (r: Option<nat>)
    ensures r.Some? ==> r.value < |s| && s[r.value] == c
    ensures r.Some? ==> forall k :: r.value < k < |s| ==> s[k] != c
    ensures r.None? <==> forall k :: 0 <= k < |s| ==> s[k] != c
  {
    if s == [] then None
    else if s[|s| - 1] == c then Some(|s| - 1)
    else LastIndexOf(s[..|s| - 1], c)
  }

  predicate AllDigits(s: string) {
    forall i :: 0 <= i < |s| ==> IsDigit(s[i])
  }

  /** Python `int(s)` for a string of ASCII digits. */
  function DigitsValue(s: string): nat
    requires AllDigits(s)
  {
    if s == [] then 0 else DigitsValue(s[..|s| - 1]) * 10 + (s[|s| - 1] as int - '0' as int)
  }

  // ---------------------------------------------------------------------------
  // Facts about these operations
  // ---------------------------------------------------------------------------

  /** `int(s) > 0` exactly when some digit is not `0`. */
  lemma {:induction false} DigitsValuePositive(s: string)
    requires AllDigits(s)
    ensures DigitsValue(s) > 0 <==> exists i :: 0 <= i < |s| && s[i] != '0'
  {
    if s != [] {
      var init := s[..|s| - 1];
      DigitsValuePositive(init);
      if DigitsValue(s) > 0 {
        if DigitsValue(init) > 0 {
          var i :| 0 <= i < |init| && init[i] != '0';
          assert s[i] != '0';
        } else {
          assert s[|s| - 1] != '0';
        }
      } else {
        forall i | 0 <= i < |s| ensures s[i] == '0' {
          if i < |s| - 1 { assert init[i] == s[i]; }
        }
      }
    }
  }

  /** Every element is a word and none is separated by more than one space: the shape of
      `" ".join(words)`. A string of this shape has no leading, trailing or doubled space,
      and its only space character is `' '`. */
  predicate Collapsed(r: string) {
    && (r != [] ==> !IsSpace(r[0]) && !IsSpace(r[|r| - 1]))
    && (forall i :: 0 <= i < |r| && IsSpace(r[i]) ==> r[i] == ' ')
    && (forall i :: 0 <= i < |r| - 1 && IsSpace(r[i]) ==> !IsSpace(r[i + 1]))
  }

  lemma {:induction false} JoinWordsCollapsed(ws: seq<string>)
    requires forall i :: 0 <= i < |ws| ==> IsWord(ws[i])
    ensures Collapsed(Join(ws, " "))
    decreases |ws|
  {
    if |ws| >= 2 {
      var rest := Join(ws[1..], " ");
      JoinWordsCollapsed(ws[1..]);
      var w := ws[0];
      var r := w + " " + rest;
      assert Join(ws, " ") == r;
      assert IsWord(w);
      assert rest != [] by { assert IsWord(ws[1]); JoinNonEmpty(ws[1..]); }
      forall i | 0 <= i < |r| && IsSpace(r[i]) ensures r[i] == ' ' {
        if i > |w| { assert r[i] == rest[i - |w| - 1]; }
      }
      forall i | 0 <= i < |r| - 1 && IsSpace(r[i]) ensures !IsSpace(r[i + 1]) {
        if i > |w| {
          assert r[i] == rest[i - |w| - 1];
          assert r[i + 1] == rest[i - |w|];
        } else if i == |w| {
          assert r[i + 1] == rest[0];
        }
      }
      assert r[|r| - 1] == rest[|rest| - 1];
    }
  }

  lemma {:induction false} JoinNonEmpty(ws: seq<string>)
    requires |ws| >= 1 && ws[0] != []
    ensures Join(ws, " ") != []
  {
  }

  /** `" ".join(s.split())` never has leading, trailing or doubled whitespace. */
  lemma CollapseIsCollapsed(s: string)
    ensures Collapsed(Collapse(s))
  {
    WordsAreWords(s);
    JoinWordsCollapsed(Words(s));
  }

  /** `sep.join(s.split(sep)) == s`. */
  lemma {:induction false} JoinSplitOn(s: string, sep: string)
    requires sep != []
    ensures Join(SplitOn(s, sep), sep) == s
    decreases |s|
  {
    var i := Find(s, sep);
    if i >= 0 {
      var tail := s[i + |sep|..];
      var rest := SplitOn(tail, sep);
      JoinSplitOn(tail, sep);
      assert SplitOn(s, sep) == [s[..i]] + rest;
      JoinCons(s[..i], rest, sep);
      RejoinAt(s, i, sep);
    }
  }

  /** Cutting `s` around an occurrence of `sep` and gluing it back gives `s`. */
  lemma RejoinAt(s: string, i: nat, sep: string)
    requires HasAt(s, i, sep)
    ensures s[..i] + sep + s[i + |sep|..] == s
  {
    assert s[i..] == sep + s[i + |sep|..];
    assert s == s[..i] + s[i..];
  }

  lemma JoinCons(a: string, rest: seq<string>, sep: string)
    requires |rest| >= 1
    ensures Join([a] + rest, sep) == a + sep + Join(rest, sep)
  {
    assert ([a] + rest)[1..] == rest;
  }

  lemma HasAtChar(s: string, j: nat, c: char)
    ensures HasAt(s, j, [c]) <==> j < |s| && s[j] == c
  {
    if j < |s| { assert s[j..][0] == s[j]; }
  }

  /** No piece of `s.split(c)` contains the separator character. */
  lemma {:induction false} SplitOnCharPieces(s: string, c: char)
    ensures forall k :: 0 <= k < |SplitOn(s, [c])| ==> c !in SplitOn(s, [c])[k]
    decreases |s|
  {
    var i := Find(s, [c]);
    if i < 0 {
      forall j | 0 <= j < |s| ensures s[j] != c {
        HasAtChar(s, j, c);
      }
      assert SplitOn(s, [c]) == [s];
    } else {
      var tail := s[i + 1..];
      var rest := SplitOn(tail, [c]);
      SplitOnCharPieces(tail, c);
      forall j | 0 <= j < i ensures s[j] != c {
        HasAtChar(s, j, c);
      }
      var parts := SplitOn(s, [c]);
      assert parts == [s[..i]] + rest;
      forall k | 0 <= k < |parts| ensures c !in parts[k] {
        if k > 0 { assert parts[k] == rest[k - 1]; }
      }
    }
  }

  /** `s.split(c)` has one more piece than `s` has occurrences of `c`. */
  lemma {:induction false} SplitOnCharCount(s: string, c: char)
    ensures |SplitOn(s, [c])| == CountChar(s, c) + 1
    decreases |s|
  {
    var i := Find(s, [c]);
    if i < 0 {
      forall j | 0 <= j < |s| ensures s[j] != c {
        HasAtChar(s, j, c);
      }
      NoOccurrenceCount(s, c);
      assert SplitOn(s, [c]) == [s];
    } else {
      HasAtChar(s, i, c);
      var tail := s[i + 1..];
      SplitOnCharCount(tail, c);
      forall j | 0 <= j < i ensures s[..i][j] != c {
        HasAtChar(s, j, c);
      }
      NoOccurrenceCount(s[..i], c);
      assert s == s[..i] + ([c] + tail);
      CountCharAppend(s[..i], [c] + tail, c);
      assert ([c] + tail)[1..] == tail;
      assert SplitOn(s, [c]) == [s[..i]] + SplitOn(tail, [c]);
    }
  }

  lemma {:induction false} NoOccurrenceCount(s: string, c: char)
    requires forall j :: 0 <= j < |s| ==> s[j] != c
    ensures CountChar(s, c) == 0
    decreases |s|
  {
    if s != [] {
      NoOccurrenceCount(s[1..], c);
    }
  }

  lemma {:induction false} CountCharAppend(a: string, b: string, c: char)
    ensures CountChar(a + b, c) == CountChar(a, c) + CountChar(b, c)
    decreases |a|
  {
    if a != [] {
      assert (a + b)[1..] == a[1..] + b;
      CountCharAppend(a[1..], b, c);
    } else {
      assert a + b == b;
    }
  }

  /** `s.replace(w, rep)` leaves a string without `w` unchanged. */
  lemma {:induction false} ReplaceAbsent(s: string, w: string, rep: string)
    requires w != []
    requires !Contains(s, w)
    ensures ReplaceAll(s, w, rep) == s
    decreases |s|
  {
    if s != [] {
      assert !HasAt(s, 0, w);
      assert !Contains(s[1..], w) by {
        forall p | 0 <= p <= |s[1..]| ensures !HasAt(s[1..], p, w) {
          assert !HasAt(s, p + 1, w);
          assert s[1..][p..] == s[p + 1..];
        }
      }
      ReplaceAbsent(s[1..], w, rep);
    }
  }

  /** A string in which the first two characters of `w` never occur side by side does
      not contain `w`. */
  lemma NoPairNotContains(s: string, w: string)
    requires |w| >= 2
    requires forall i :: 0 <= i < |s| - 1 ==> !(s[i] == w[0] && s[i + 1] == w[1])
    ensures !Contains(s, w)
  {
    forall p | 0 <= p <= |s| ensures !HasAt(s, p, w) {
      if p + 1 < |s| {
        assert s[p..][0] == s[p] && s[p..][1] == s[p + 1];
      }
    }
  }

  /** `replace` on `a + w + b`, when `w` does not start inside `a`: `a` is kept, the first
      `w` is replaced, and the rest is processed further. */
  lemma {:induction false} ReplaceFirst(a: string, w: string, b: string, rep: string)
    requires w != []
    requires forall p :: 0 <= p < |a| ==> !HasAt(a + w + b, p, w)
    ensures ReplaceAll(a + w + b, w, rep) == a + rep + ReplaceAll(b, w, rep)
    decreases |a|
  {
    var s := a + w + b;
    if a == [] {
      assert s == w + b;
      assert w <= s;
      assert s[|w|..] == b;
    } else {
      assert !HasAt(s, 0, w);
      assert s[1..] == a[1..] + w + b;
      forall p | 0 <= p < |a[1..]| ensures !HasAt(a[1..] + w + b, p, w) {
        assert !HasAt(s, p + 1, w);
        assert s[p + 1..] == (a[1..] + w + b)[p..];
      }
      ReplaceFirst(a[1..], w, b, rep);
      assert s[0] == a[0];
      assert a == [a[0]] + a[1..];
    }
  }

  /** `ReplaceFirst` when the first two characters of `w` never occur side by side in `a`
      or across into `w`. */
  lemma ReplaceFirstPair(a: string, w: string, b: string, rep: string)
    requires |w| >= 2
    requires forall i :: 0 <= i < |a| ==> !((a + w + b)[i] == w[0] && (a + w + b)[i + 1] == w[1])
    ensures ReplaceAll(a + w + b, w, rep) == a + rep + ReplaceAll(b, w, rep)
  {
    var s := a + w + b;
    forall p | 0 <= p < |a| ensures !HasAt(s, p, w) {
      assert s[p..][0] == s[p] && s[p..][1] == s[p + 1];
    }
    ReplaceFirst(a, w, b, rep);
  }

  /** `replace` leaves `s` unchanged when the first two characters of `w` never occur
      side by side in it. */
  lemma ReplaceAbsentPair(s: string, w: string, rep: string)
    requires |w| >= 2
    requires forall i :: 0 <= i < |s| - 1 ==> !(s[i] == w[0] && s[i + 1] == w[1])
    ensures ReplaceAll(s, w, rep) == s
  {
    NoPairNotContains(s, w);
    ReplaceAbsent(s, w, rep);
  }

  /** `replace` of the one occurrence of `w` in `a + w + b`, found by its first two
      characters. */
  lemma ReplaceOncePair(a: string, w: string, b: string, rep: string)
    requires |w| >= 2
    requires forall i :: 0 <= i < |a| ==> !((a + w + b)[i] == w[0] && (a + w + b)[i + 1] == w[1])
    requires forall i :: 0 <= i < |b| - 1 ==> !(b[i] == w[0] && b[i + 1] == w[1])
    ensures ReplaceAll(a + w + b, w, rep) == a + rep + b
  {
    ReplaceFirstPair(a, w, b, rep);
    ReplaceAbsentPair(b, w, rep);
  }

  /** `split(c)` of a string without `c` is that string alone. */
  lemma SplitOnCharNone(a: string, c: char)
    requires c !in a
    ensures SplitOn(a, [c]) == [a]
  {
    forall p | 0 <= p <= |a| ensures !HasAt(a, p, [c]) {
      HasAtChar(a, p, c);
    }
  }

  /** `split(c)` of `a + c + rest`, with `c` not in `a`, starts with `a`. */
  lemma SplitOnCharCons(a: string, c: char, rest: string)
    requires c !in a
    ensures SplitOn(a + [c] + rest, [c]) == [a] + SplitOn(rest, [c])
  {
    var s := a + [c] + rest;
    forall p | 0 <= p < |a| ensures !HasAt(s, p, [c]) {
      HasAtChar(s, p, c);
      assert s[p] == a[p];
    }
    HasAtChar(s, |a|, c);
    assert Find(s, [c]) == |a|;
    assert s[..|a|] == a;
    assert s[|a| + 1..] == rest;
  }

  /** The last `c` of `a + c + b`, with `c` not in `b`, is the one between them. */
  lemma {:induction false} LastIndexOfCons(a: string, c: char, b: string)
    requires c !in b
    ensures LastIndexOf(a + [c] + b, c) == Some(|a|)
    decreases |b|
  {
    var s := a + [c] + b;
    if b == [] {
      assert s[|s| - 1] == c;
    } else {
      var b' := b[..|b| - 1];
      assert s[|s| - 1] == b[|b| - 1];
      assert b[|b| - 1] in b;
      assert s[..|s| - 1] == a + [c] + b';
      assert c !in b' by {
        forall k | 0 <= k < |b'| ensures b'[k] != c {
          assert b'[k] == b[k];
        }
      }
      LastIndexOfCons(a, c, b');
    }
  }

  /** `c` occurs in `s` exactly when `s.count(c) > 0`. */
  lemma {:induction false} CountCharPositive(s: string, c: char)
    ensures CountChar(s, c) > 0 <==> c in s
    decreases |s|
  {
    if s != [] {
      CountCharPositive(s[1..], c);
      assert c in s <==> s[0] == c || c in s[1..];
    }
  }
}
