/**
 * `get_builds_from_week` of analyze_ci.py and of analyze_ci_week.py: walk build numbers
 * downwards from a starting build and collect the parsed pages until a date cutoff, a cap on
 * the number of ids tried, or build number 0.
 *
 * Downloading and parsing a page is the oracle `fetch` (None: the download or the parse
 * raised). Matching the date at the start of a completion time and `strptime` together are the
 * oracle `dayOf`, from the completion-time text to a day ordinal counted as `date.toordinal`
 * counts (1 January of year 1 is day 1; None: no match, or a date `strptime` rejects).
 */
module Walker {
  import opened Wrappers
  import opened Report

  /** The cap on ids tried by analyze_ci.py. */
  const DayWalkCap: nat := 200
  /** The cap on ids tried by analyze_ci_week.py. */
  const WeekWalkCap: nat := 100
  /** The largest magnitude of `timedelta(days=...)`. */
  const MaxDeltaDays: int := 999_999_999
  /** The ordinals of `datetime.min` (1 January of year 1) and `datetime.max` (31 December 9999). */
  const MinOrdinal: int := 1
  const MaxOrdinal: int := 3_652_059
  /** `datetime` resolution: microseconds in one day. */
  const MicrosPerDay: int := 86_400_000_000

  /** The day a page was completed, when its completion time is non-empty and parses. */
  function DateOf(r: BuildReport, dayOf: string -> Option<int>): Option<int> {
    if r.completedTime.Some? && r.completedTime.value != [] then dayOf(r.completedTime.value) else None
  }

  /** The page is dated, and its date, counted in units of `scale` per day, lies before
      `cutoff`. */
  predicate TooOld(r: BuildReport, dayOf: string -> Option<int>, scale: int, cutoff: int) {
    match DateOf(r, dayOf)
    case Some(d) => d * scale < cutoff
    case None => false
  }

  /** The builds collected from attempt `i` on: id `start - i`, skipped when it cannot be
      fetched, ending the walk (and not collected) when it is dated before the cutoff. */
  function Walk(fetch: int -> Option<BuildReport>, dayOf: string -> Option<int>, scale: int, cutoff: int,
                start: int, cap: nat, i: nat): seq<Build>
    decreases cap - i
  {
    if i >= cap || start - i < 1 then []
    else
      match fetch(start - i)
      case None => Walk(fetch, dayOf, scale, cutoff, start, cap, i + 1)
      case Some(r) =>
        if TooOld(r, dayOf, scale, cutoff) then []
        else [Build(start - i, r)] + Walk(fetch, dayOf, scale, cutoff, start, cap, i + 1)
  }

  /** The loop of both walkers. */
  method WalkLoop(fetch: int -> Option<BuildReport>, dayOf: string -> Option<int>, scale: int, cutoff: int,
                  start: int, cap: nat) returns (builds: seq<Build>)
    ensures builds == Walk(fetch, dayOf, scale, cutoff, start, cap, 0)
  {
    builds := [];
    var i := 0;
    while i < cap
      invariant i <= cap
      invariant builds + Walk(fetch, dayOf, scale, cutoff, start, cap, i) == Walk(fetch, dayOf, scale, cutoff, start, cap, 0)
      decreases cap - i
    {
      var buildNum := start - i;
      if buildNum < 1 {
        break;
      }
      var fetched := fetch(buildNum);
      if fetched.None? {
        i := i + 1;
        continue;
      }
      var results := fetched.value;
      if results.completedTime.Some? && results.completedTime.value != [] {
        var day := dayOf(results.completedTime.value);
        if day.Some? && day.value * scale < cutoff {
          break;
        }
      }
      builds := builds + [Build(buildNum, results)];
      i := i + 1;
    }
  }

  /** `reference_date - timedelta(days=days)` raises `OverflowError`: `days` is beyond what a
      `timedelta` holds, or the difference leaves the range of `datetime`. */
  predicate CutoffOverflows(refDay: int, days: int) {
    days < -MaxDeltaDays || days > MaxDeltaDays || refDay - days < MinOrdinal || refDay - days > MaxOrdinal
  }

  /** analyze_ci.py: the window ends `days` days before the reference build's completion day;
      an unfetched or undated reference build gives no builds, and a cutoff that overflows
      raises out of the script (None). */
  function DayWindow(fetch: int -> Option<BuildReport>, dayOf: string -> Option<int>, latest: int, days: int): Option<seq<Build>> {
    match fetch(latest)
    case None => Some([])
    case Some(ref) =>
      match DateOf(ref, dayOf)
      case None => Some([])
      case Some(refDay) =>
        if CutoffOverflows(refDay, days) then None
        else Some(Walk(fetch, dayOf, 1, refDay - days, latest, DayWalkCap, 0))
  }

  /** `get_builds_from_week` of analyze_ci.py; None is the uncaught `OverflowError`. */
  method GetBuildsFromWeek(fetch: int -> Option<BuildReport>, dayOf: string -> Option<int>, latest: int, days: int)
    returns (builds: Option<seq<Build>>)
    ensures builds == DayWindow(fetch, dayOf, latest, days)
  {
    builds := Some([]);
    var reference := fetch(latest);
    if reference.None? {
      return;
    }
    var referenceDate := DateOf(reference.value, dayOf);
    if referenceDate.None? {
      return;
    }
    if CutoffOverflows(referenceDate.value, days) {
      return None;
    }
    var cutoffDate := referenceDate.value - days;
    var walked := WalkLoop(fetch, dayOf, 1, cutoffDate, latest, DayWalkCap);
    builds := Some(walked);
  }

  /** analyze_ci_week.py: the cutoff is `now - days` at microsecond resolution, and a build
      dated `d` means midnight of day `d`. */
  function WeekWindow(fetch: int -> Option<BuildReport>, dayOf: string -> Option<int>, latest: int, days: int, now: int): seq<Build> {
    Walk(fetch, dayOf, MicrosPerDay, now - days * MicrosPerDay, latest, WeekWalkCap, 0)
  }

  /** `get_builds_from_week` of analyze_ci_week.py; `now` is `datetime.now()` in microseconds. */
  method GetBuildsFromWeekNow(fetch: int -> Option<BuildReport>, dayOf: string -> Option<int>, latest: int, days: int, now: int)
    returns (builds: seq<Build>)
    ensures builds == WeekWindow(fetch, dayOf, latest, days, now)
  {
    var cutoffDate := now - days * MicrosPerDay;
    builds := WalkLoop(fetch, dayOf, MicrosPerDay, cutoffDate, latest, WeekWalkCap);
  }

  // ----- Properties of the walk -----

  /** Every collected build was fetched under its own number, is not dated before the cutoff,
      and has a number in `[1, start - i]` above `start - cap`; numbers strictly descend; at
      most `cap - i` builds are collected. */
  lemma {:induction false} WalkFacts(fetch: int -> Option<BuildReport>, dayOf: string -> Option<int>, scale: int, cutoff: int,
                                     start: int, cap: nat, i: nat)
    requires i <= cap
    ensures var w := Walk(fetch, dayOf, scale, cutoff, start, cap, i);
      |w| <= cap - i
      && (forall k :: 0 <= k < |w| ==>
            1 <= w[k].number <= start - i && w[k].number > start - cap
            && fetch(w[k].number) == Some(w[k].results) && !TooOld(w[k].results, dayOf, scale, cutoff))
      && (forall k, m :: 0 <= k < m < |w| ==> w[k].number > w[m].number)
    decreases cap - i
  {
    if !(i >= cap || start - i < 1) {
      WalkFacts(fetch, dayOf, scale, cutoff, start, cap, i + 1);
      var rest := Walk(fetch, dayOf, scale, cutoff, start, cap, i + 1);
      match fetch(start - i)
      case None =>
      case Some(r) =>
        if !TooOld(r, dayOf, scale, cutoff) {
          var w := [Build(start - i, r)] + rest;
          forall k | 0 <= k < |w| ensures
            1 <= w[k].number <= start - i && w[k].number > start - cap
            && fetch(w[k].number) == Some(w[k].results) && !TooOld(w[k].results, dayOf, scale, cutoff)
          {
            if k > 0 {
              assert w[k] == rest[k - 1];
            }
          }
          forall k, m | 0 <= k < m < |w| ensures w[k].number > w[m].number {
            assert w[m] == rest[m - 1];
            if k > 0 {
              assert w[k] == rest[k - 1];
            }
          }
        }
    }
  }

  /** The walk collects the build at attempt `i` when it can be fetched and is recent. */
  lemma WalkStartsAt(fetch: int -> Option<BuildReport>, dayOf: string -> Option<int>, scale: int, cutoff: int,
                     start: int, cap: nat, i: nat)
    requires i < cap && start - i >= 1
    requires fetch(start - i).Some? && !TooOld(fetch(start - i).value, dayOf, scale, cutoff)
    ensures var w := Walk(fetch, dayOf, scale, cutoff, start, cap, i);
      w != [] && w[0] == Build(start - i, fetch(start - i).value)
  {
  }

  /** Every number the walk passes over either could not be fetched or is collected. */
  lemma {:induction false} WalkSkipsOnlyUnfetched(fetch: int -> Option<BuildReport>, dayOf: string -> Option<int>,
                                                  scale: int, cutoff: int, start: int, cap: nat, i: nat, n: int)
    requires start - cap < n <= start - i && n >= 1
    requires var w := Walk(fetch, dayOf, scale, cutoff, start, cap, i); w != [] && w[|w| - 1].number <= n
    ensures fetch(n).None? || Build(n, fetch(n).value) in Walk(fetch, dayOf, scale, cutoff, start, cap, i)
    decreases cap - i
  {
    var rest := Walk(fetch, dayOf, scale, cutoff, start, cap, i + 1);
    if n < start - i {
      match fetch(start - i)
      case None =>
        WalkSkipsOnlyUnfetched(fetch, dayOf, scale, cutoff, start, cap, i + 1, n);
      case Some(r) =>
        if rest == [] {
          assert false;
        } else {
          var w := [Build(start - i, r)] + rest;
          assert w[|w| - 1] == rest[|rest| - 1];
          WalkSkipsOnlyUnfetched(fetch, dayOf, scale, cutoff, start, cap, i + 1, n);
        }
    }
  }

  /** analyze_ci.py: with a fetchable and dated reference build, `days >= 0` and a cutoff
      inside `datetime`'s range, the reference build is the first one collected, whatever the
      other pages hold. */
  lemma DayWindowStartsAtReference(fetch: int -> Option<BuildReport>, dayOf: string -> Option<int>, latest: int, days: int)
    requires latest >= 1 && days >= 0
    requires fetch(latest).Some? && DateOf(fetch(latest).value, dayOf).Some?
    requires !CutoffOverflows(DateOf(fetch(latest).value, dayOf).value, days)
    ensures var w := DayWindow(fetch, dayOf, latest, days);
      w.Some? && w.value != [] && w.value[0] == Build(latest, fetch(latest).value)
  {
    var refDay := DateOf(fetch(latest).value, dayOf).value;
    WalkStartsAt(fetch, dayOf, 1, refDay - days, latest, DayWalkCap, 0);
  }

  /** analyze_ci.py: an unfetched or undated reference build gives no builds. */
  lemma DayWindowNeedsReference(fetch: int -> Option<BuildReport>, dayOf: string -> Option<int>, latest: int, days: int)
    requires fetch(latest).None? || DateOf(fetch(latest).value, dayOf).None?
    ensures DayWindow(fetch, dayOf, latest, days) == Some([])
  {
  }

  /** analyze_ci.py raises exactly when the reference build is fetched and dated and its
      cutoff overflows; a reference date and a `days` a user can give (at least 1 and at most
      the reference's own ordinal minus one) never overflow. */
  lemma DayWindowOverflow(fetch: int -> Option<BuildReport>, dayOf: string -> Option<int>, latest: int, days: int)
    ensures DayWindow(fetch, dayOf, latest, days).None? <==>
      fetch(latest).Some? && DateOf(fetch(latest).value, dayOf).Some?
      && CutoffOverflows(DateOf(fetch(latest).value, dayOf).value, days)
    ensures forall refDay :: MinOrdinal <= refDay <= MaxOrdinal ==>
      (CutoffOverflows(refDay, days) <==> days > refDay - MinOrdinal || days < refDay - MaxOrdinal)
  {
  }

  /** analyze_ci.py: at most 200 builds, numbered from `latest` down and at least 1, strictly
      descending, none dated before the cutoff. */
  lemma DayWindowFacts(fetch: int -> Option<BuildReport>, dayOf: string -> Option<int>, latest: int, days: int)
    ensures DayWindow(fetch, dayOf, latest, days).Some? ==>
      var w := DayWindow(fetch, dayOf, latest, days).value;
      |w| <= DayWalkCap
      && (forall k :: 0 <= k < |w| ==>
            1 <= w[k].number <= latest && w[k].number > latest - DayWalkCap && fetch(w[k].number) == Some(w[k].results))
      && (forall k, m :: 0 <= k < m < |w| ==> w[k].number > w[m].number)
  {
    var r := DayWindow(fetch, dayOf, latest, days);
    if fetch(latest).Some? && DateOf(fetch(latest).value, dayOf).Some? {
      var refDay := DateOf(fetch(latest).value, dayOf).value;
      if !CutoffOverflows(refDay, days) {
        assert r == Some(Walk(fetch, dayOf, 1, refDay - days, latest, DayWalkCap, 0));
        WalkFacts(fetch, dayOf, 1, refDay - days, latest, DayWalkCap, 0);
      }
    } else {
      assert r == Some([]);
    }
  }

  /** analyze_ci_week.py: at most 100 builds, numbered from `latest` down and at least 1,
      strictly descending; a dated build is collected only when its midnight is not before
      `now - days`. */
  lemma WeekWindowFacts(fetch: int -> Option<BuildReport>, dayOf: string -> Option<int>, latest: int, days: int, now: int)
    ensures var w := WeekWindow(fetch, dayOf, latest, days, now);
      |w| <= WeekWalkCap
      && (forall k :: 0 <= k < |w| ==>
            1 <= w[k].number <= latest && w[k].number > latest - WeekWalkCap && fetch(w[k].number) == Some(w[k].results)
            && !TooOld(w[k].results, dayOf, MicrosPerDay, now - days * MicrosPerDay))
      && (forall k, m :: 0 <= k < m < |w| ==> w[k].number > w[m].number)
  {
    WalkFacts(fetch, dayOf, MicrosPerDay, now - days * MicrosPerDay, latest, WeekWalkCap, 0);
  }
}
