/**
 * The grouping half of `print_detailed_failures` (analyze_ci.py and its copy in
 * analyze_ci_week.py): every build not in status SUCCESS gets a failure signature, the
 * sorted tuple of its failure items, and builds with equal signatures are grouped.
 */
module Signatures {
  import opened Wrappers
  import opened Report
  import opened Aggregate

  // ----- Python's ordering of strings and of item pairs -----

  /** `a <= b` on Python strings: code points compared left to right, a proper prefix first. */
  predicate StrLe(a: string, b: string)
    decreases |a|
  {
    if a == [] then true
    else if b == [] then false
    else if a[0] != b[0] then a[0] < b[0]
    else StrLe(a[1..], b[1..])
  }

  lemma {:induction false} StrLeTotal(a: string, b: string)
    ensures StrLe(a, b) || StrLe(b, a)
    decreases |a|
  {
    if a != [] && b != [] && a[0] == b[0] {
      StrLeTotal(a[1..], b[1..]);
    }
  }

  lemma {:induction false} StrLeAntisymmetric(a: string, b: string)
    requires StrLe(a, b) && StrLe(b, a)
    ensures a == b
    decreases |a|
  {
    if a != [] {
      StrLeAntisymmetric(a[1..], b[1..]);
      assert a == [a[0]] + a[1..] && b == [b[0]] + b[1..];
    }
  }

  lemma {:induction false} StrLeTransitive(a: string, b: string, c: string)
    requires StrLe(a, b) && StrLe(b, c)
    ensures StrLe(a, c)
    decreases |a|
  {
    if a != [] && a[0] == b[0] && b[0] == c[0] {
      StrLeTransitive(a[1..], b[1..], c[1..]);
    }
  }

  /** A signature item: the kind ("combined", "hung" or "job_only") and its text. */
  datatype Item = Item(kind: string, text: string)

  const CombinedKind: string := "combined"
  const HungKind: string := "hung"
  const JobOnlyKind: string := "job_only"

  /** Python's tuple order on `(kind, text)`. */
  predicate ItemLe(x: Item, y: Item) {
    if x.kind == y.kind then StrLe(x.text, y.text) else StrLe(x.kind, y.kind)
  }

  lemma ItemLeTotal(x: Item, y: Item)
    ensures ItemLe(x, y) || ItemLe(y, x)
  {
    StrLeTotal(x.kind, y.kind);
    StrLeTotal(x.text, y.text);
  }

  lemma ItemLeAntisymmetric(x: Item, y: Item)
    requires ItemLe(x, y) && ItemLe(y, x)
    ensures x == y
  {
    if x.kind == y.kind {
      StrLeAntisymmetric(x.text, y.text);
    } else {
      StrLeAntisymmetric(x.kind, y.kind);
    }
  }

  lemma ItemLeTransitive(x: Item, y: Item, z: Item)
    requires ItemLe(x, y) && ItemLe(y, z)
    ensures ItemLe(x, z)
  {
    if x.kind == y.kind && y.kind == z.kind {
      StrLeTransitive(x.text, y.text, z.text);
    } else if x.kind == y.kind {
      assert StrLe(x.kind, z.kind);
    } else if y.kind == z.kind {
      assert StrLe(x.kind, z.kind);
    } else {
      StrLeTransitive(x.kind, y.kind, z.kind);
      if x.kind == z.kind {
        StrLeAntisymmetric(x.kind, y.kind);
      }
    }
  }

  // ----- `sorted` -----

  predicate SortedItems(xs: seq<Item>) {
    forall i, j :: 0 <= i < j < |xs| ==> ItemLe(xs[i], xs[j])
  }

  lemma {:induction false} StrLeReflexive(a: string)
    ensures StrLe(a, a)
    decreases |a|
  {
    if a != [] {
      StrLeReflexive(a[1..]);
    }
  }

  lemma SortedTail(xs: seq<Item>)
    requires xs != [] && SortedItems(xs)
    ensures SortedItems(xs[1..])
  {
    forall i, j | 0 <= i < j < |xs| - 1 ensures ItemLe(xs[1..][i], xs[1..][j]) {
      assert xs[1..][i] == xs[i + 1] && xs[1..][j] == xs[j + 1];
    }
  }

  /** `x` inserted before the first element it does not exceed. */
  function Insert(x: Item, xs: seq<Item>): (r: seq<Item>)
    ensures multiset(r) == multiset(xs) + multiset{x}
  {
    if xs == [] then [x]
    else if ItemLe(x, xs[0]) then [x] + xs
    else
      assert xs == [xs[0]] + xs[1..];
      [xs[0]] + Insert(x, xs[1..])
  }

  /** Inserting into a sorted list keeps it sorted. */
  lemma {:induction false} InsertSorted(x: Item, xs: seq<Item>)
    requires SortedItems(xs)
    ensures SortedItems(Insert(x, xs))
    decreases |xs|
  {
    if xs == [] {
    } else if ItemLe(x, xs[0]) {
      forall j | 0 <= j < |xs| ensures ItemLe(x, xs[j]) {
        if j > 0 {
          ItemLeTransitive(x, xs[0], xs[j]);
        }
      }
      ConsSorted(x, xs);
    } else {
      var rest := Insert(x, xs[1..]);
      SortedTail(xs);
      InsertSorted(x, xs[1..]);
      ItemLeTotal(x, xs[0]);
      forall j | 0 <= j < |rest| ensures ItemLe(xs[0], rest[j]) {
        InsertMember(x, xs[1..], rest[j]);
        if rest[j] != x {
          var k :| 0 <= k < |xs[1..]| && xs[1..][k] == rest[j];
          assert xs[1..][k] == xs[k + 1];
        }
      }
      ConsSorted(xs[0], rest);
    }
  }

  /** An element of `Insert(x, xs)` is `x` or an element of `xs`. */
  lemma InsertMember(x: Item, xs: seq<Item>, y: Item)
    requires y in Insert(x, xs)
    ensures y == x || y in xs
  {
    assert y in multiset(Insert(x, xs));
  }

  lemma ConsSorted(h: Item, rest: seq<Item>)
    requires SortedItems(rest) && forall j :: 0 <= j < |rest| ==> ItemLe(h, rest[j])
    ensures SortedItems([h] + rest)
  {
    forall i, j | 0 <= i < j < |rest| + 1 ensures ItemLe(([h] + rest)[i], ([h] + rest)[j]) {
      assert ([h] + rest)[j] == rest[j - 1];
      if i > 0 {
        assert ([h] + rest)[i] == rest[i - 1];
      }
    }
  }

  /** Python's `sorted` on a list of items, as an insertion sort. */
  function Sort(xs: seq<Item>): (r: seq<Item>)
    ensures SortedItems(r)
    ensures multiset(r) == multiset(xs)
  {
    if xs == [] then []
    else
      assert xs == [xs[0]] + xs[1..];
      InsertSorted(xs[0], Sort(xs[1..]));
      Insert(xs[0], Sort(xs[1..]))
  }

  /** Sorted lists with the same elements are equal: a sorted tuple depends only on the
      multiset of its items. */
  lemma {:induction false} SortedUnique(a: seq<Item>, b: seq<Item>)
    requires SortedItems(a) && SortedItems(b) && multiset(a) == multiset(b)
    ensures a == b
    decreases |a|
  {
    if a != [] {
      assert |b| == |a| by { assert |multiset(a)| == |multiset(b)|; }
      SameHead(a, b);
      assert a == [a[0]] + a[1..] && b == [b[0]] + b[1..];
      assert multiset(a) == multiset{a[0]} + multiset(a[1..]);
      assert multiset(b) == multiset{b[0]} + multiset(b[1..]);
      assert multiset(a[1..]) == multiset(a) - multiset{a[0]};
      assert multiset(b[1..]) == multiset(b) - multiset{b[0]};
      SortedTail(a);
      SortedTail(b);
      SortedUnique(a[1..], b[1..]);
    }
  }

  /** The first element of a sorted list is its least element, so two sorted lists with the
      same elements start alike. */
  lemma SameHead(a: seq<Item>, b: seq<Item>)
    requires a != [] && b != []
    requires SortedItems(a) && SortedItems(b) && multiset(a) == multiset(b)
    ensures a[0] == b[0]
  {
    assert a[0] in multiset(b);
    assert b[0] in multiset(a);
    var i :| 0 <= i < |b| && b[i] == a[0];
    var k :| 0 <= k < |a| && a[k] == b[0];
    if i != 0 && k != 0 {
      assert ItemLe(b[0], b[i]);
      assert ItemLe(a[0], a[k]);
      ItemLeAntisymmetric(a[0], b[0]);
    }
  }

  /** Two item lists sort to the same tuple exactly when they hold the same items with the
      same multiplicities. */
  lemma SortEqualIff(a: seq<Item>, b: seq<Item>)
    ensures Sort(a) == Sort(b) <==> multiset(a) == multiset(b)
  {
    if multiset(a) == multiset(b) {
      SortedUnique(Sort(a), Sort(b));
    }
  }

  // ----- The signature of one build -----

  /** The items `("combined", "job - case")` of the first `n` failures. */
  function FailureItems(fs: seq<Failure>, n: nat): seq<Item>
    requires n <= |fs|
  {
    if n == 0 then [] else FailureItems(fs, n - 1) + [Item(CombinedKind, CombinedKey(fs[n - 1].job, fs[n - 1].case_))]
  }

  /** The exact job names of the first `n` failures (`jobs_with_tests`; not normalised). */
  function FailureJobNames(fs: seq<Failure>, n: nat): set<string>
    requires n <= |fs|
  {
    if n == 0 then {} else FailureJobNames(fs, n - 1) + {fs[n - 1].job}
  }

  /** The item of one failed-job entry, if any: `("hung", name)` for an Unknown job,
      `("job_only", name)` for a Failed job without test failures under its exact name. */
  function JobItem(job: FailedJob, withTests: set<string>): seq<Item> {
    if job.state == JobUnknown then [Item(HungKind, job.name)]
    else if job.name !in withTests then [Item(JobOnlyKind, job.name)]
    else []
  }

  function JobItems(jobs: seq<FailedJob>, withTests: set<string>, n: nat): seq<Item>
    requires n <= |jobs|
  {
    if n == 0 then [] else JobItems(jobs, withTests, n - 1) + JobItem(jobs[n - 1], withTests)
  }

  /** The job names of a build's new and existing failures. */
  function TestJobNames(r: BuildReport): set<string> {
    FailureJobNames(r.newFailures, |r.newFailures|) + FailureJobNames(r.existingFailures, |r.existingFailures|)
  }

  /** `failure_signature` before sorting. */
  function Items(r: BuildReport): seq<Item> {
    FailureItems(r.newFailures, |r.newFailures|) + FailureItems(r.existingFailures, |r.existingFailures|)
    + JobItems(r.failedJobs, TestJobNames(r), |r.failedJobs|)
  }

  /** `tuple(sorted(failure_signature))`. */
  function Signature(r: BuildReport): seq<Item> {
    Sort(Items(r))
  }

  /** The loops that build one build's signature. */
  method SignatureOf(r: BuildReport) returns (signature: seq<Item>)
    ensures signature == Signature(r)
  {
    var items: seq<Item> := [];
    var jobsWithTests: set<string> := {};
    for i := 0 to |r.newFailures|
      invariant items == FailureItems(r.newFailures, i)
      invariant jobsWithTests == FailureJobNames(r.newFailures, i)
    {
      var failure := r.newFailures[i];
      items := items + [Item(CombinedKind, CombinedKey(failure.job, failure.case_))];
      jobsWithTests := jobsWithTests + {failure.job};
    }
    var base := items;
    var baseJobs := jobsWithTests;
    for i := 0 to |r.existingFailures|
      invariant items == base + FailureItems(r.existingFailures, i)
      invariant jobsWithTests == baseJobs + FailureJobNames(r.existingFailures, i)
    {
      var failure := r.existingFailures[i];
      items := items + [Item(CombinedKind, CombinedKey(failure.job, failure.case_))];
      jobsWithTests := jobsWithTests + {failure.job};
    }
    base := items;
    for i := 0 to |r.failedJobs|
      invariant items == base + JobItems(r.failedJobs, jobsWithTests, i)
    {
      var job := r.failedJobs[i];
      if job.state == JobUnknown {
        items := items + [Item(HungKind, job.name)];
      } else if job.name !in jobsWithTests {
        items := items + [Item(JobOnlyKind, job.name)];
      }
    }
    signature := Sort(items);
  }

  // ----- What a signature holds -----

  lemma {:induction false} FailureItemsMembers(fs: seq<Failure>, n: nat, x: Item)
    requires n <= |fs|
    ensures x in FailureItems(fs, n) <==>
      x.kind == CombinedKind && exists i :: 0 <= i < n && x.text == CombinedKey(fs[i].job, fs[i].case_)
  {
    if n > 0 {
      FailureItemsMembers(fs, n - 1, x);
    }
  }

  lemma {:induction false} FailureJobNamesMembers(fs: seq<Failure>, n: nat, name: string)
    requires n <= |fs|
    ensures name in FailureJobNames(fs, n) <==> exists i :: 0 <= i < n && fs[i].job == name
  {
    if n > 0 {
      FailureJobNamesMembers(fs, n - 1, name);
    }
  }

  lemma {:induction false} JobItemsMembers(jobs: seq<FailedJob>, w: set<string>, n: nat, x: Item)
    requires n <= |jobs|
    ensures x in JobItems(jobs, w, n) <==>
      exists i :: 0 <= i < n && x.text == jobs[i].name &&
        ((x.kind == HungKind && jobs[i].state == JobUnknown)
         || (x.kind == JobOnlyKind && jobs[i].state == JobFailed && jobs[i].name !in w))
  {
    if n > 0 {
      JobItemsMembers(jobs, w, n - 1, x);
    }
  }

  /** A `("combined", t)` item is in a build's signature exactly when `t` is the `"job - case"`
      of one of its new or existing failures. */
  lemma CombinedItems(r: BuildReport, t: string)
    ensures Item(CombinedKind, t) in Signature(r) <==>
      (exists i :: 0 <= i < |r.newFailures| && t == CombinedKey(r.newFailures[i].job, r.newFailures[i].case_))
      || (exists i :: 0 <= i < |r.existingFailures| && t == CombinedKey(r.existingFailures[i].job, r.existingFailures[i].case_))
  {
    var x := Item(CombinedKind, t);
    assert x in multiset(Signature(r)) <==> x in multiset(Items(r));
    FailureItemsMembers(r.newFailures, |r.newFailures|, x);
    FailureItemsMembers(r.existingFailures, |r.existingFailures|, x);
    JobItemsMembers(r.failedJobs, TestJobNames(r), |r.failedJobs|, x);
  }

  /** A `("hung", name)` item is in a build's signature exactly when an Unknown job of that
      name is. */
  lemma HungItems(r: BuildReport, name: string)
    ensures Item(HungKind, name) in Signature(r) <==>
      exists i :: 0 <= i < |r.failedJobs| && r.failedJobs[i].state == JobUnknown && r.failedJobs[i].name == name
  {
    var x := Item(HungKind, name);
    assert x in multiset(Signature(r)) <==> x in multiset(Items(r));
    FailureItemsMembers(r.newFailures, |r.newFailures|, x);
    FailureItemsMembers(r.existingFailures, |r.existingFailures|, x);
    JobItemsMembers(r.failedJobs, TestJobNames(r), |r.failedJobs|, x);
  }

  /** A `("job_only", name)` item is in a build's signature exactly when a Failed job of that
      name is and no new or existing failure names that exact job. */
  lemma JobOnlyItems(r: BuildReport, name: string)
    ensures Item(JobOnlyKind, name) in Signature(r) <==>
      (exists i :: 0 <= i < |r.failedJobs| && r.failedJobs[i].state == JobFailed && r.failedJobs[i].name == name)
      && (forall i :: 0 <= i < |r.newFailures| ==> r.newFailures[i].job != name)
      && (forall i :: 0 <= i < |r.existingFailures| ==> r.existingFailures[i].job != name)
  {
    var x := Item(JobOnlyKind, name);
    assert x in multiset(Signature(r)) <==> x in multiset(Items(r));
    FailureItemsMembers(r.newFailures, |r.newFailures|, x);
    FailureItemsMembers(r.existingFailures, |r.existingFailures|, x);
    JobItemsMembers(r.failedJobs, TestJobNames(r), |r.failedJobs|, x);
    FailureJobNamesMembers(r.newFailures, |r.newFailures|, name);
    FailureJobNamesMembers(r.existingFailures, |r.existingFailures|, name);
  }

  /** Two builds have the same signature exactly when their unsorted item lists hold the same
      items, duplicates counted: the order of failures and jobs on the page does not matter. */
  lemma SameSignatureIff(r1: BuildReport, r2: BuildReport)
    ensures Signature(r1) == Signature(r2) <==> multiset(Items(r1)) == multiset(Items(r2))
  {
    SortEqualIff(Items(r1), Items(r2));
  }

  // ----- Grouping builds by signature -----

  /** One entry of `failures_to_builds`: a signature and the build numbers carrying it. */
  datatype Group = Group(signature: seq<Item>, builds: seq<int>)

  /** The position of `signature` among the groups, looked up as the dictionary does. */
  function FindGroup(gs: seq<Group>, signature: seq<Item>): (r: Option<nat>)
    ensures r.Some? ==> r.value < |gs| && gs[r.value].signature == signature
    ensures r.None? ==> forall i :: 0 <= i < |gs| ==> gs[i].signature != signature
  {
    if gs == [] then None
    else if gs[|gs| - 1].signature == signature then Some(|gs| - 1)
    else FindGroup(gs[..|gs| - 1], signature)
  }

  /** `failures_to_builds[signature].append(number)`: a new key is appended at the end. */
  function AddToGroup(gs: seq<Group>, signature: seq<Item>, number: int): seq<Group> {
    match FindGroup(gs, signature)
    case Some(i) => gs[i := Group(signature, gs[i].builds + [number])]
    case None => gs + [Group(signature, [number])]
  }

  /** The signature of every build, in build order. */
  function Signatures(builds: seq<Build>): (sigs: seq<seq<Item>>)
    ensures |sigs| == |builds|
  {
    seq(|builds|, k requires 0 <= k < |builds| => Signature(builds[k].results))
  }

  /** The groups after the first `n` builds, signature `sigs[k]` for build `k`; SUCCESS builds
      are skipped. */
  function GroupPrefix(builds: seq<Build>, sigs: seq<seq<Item>>, n: nat): seq<Group>
    requires n <= |builds| == |sigs|
  {
    if n == 0 then []
    else
      var gs := GroupPrefix(builds, sigs, n - 1);
      var b := builds[n - 1];
      if b.results.status == Success then gs else AddToGroup(gs, sigs[n - 1], b.number)
  }

  /** `failures_to_builds` after the loop. */
  function Grouped(builds: seq<Build>): seq<Group> {
    GroupPrefix(builds, Signatures(builds), |builds|)
  }

  /** The grouping loop of `print_detailed_failures`. */
  method GroupBuilds(builds: seq<Build>) returns (groups: seq<Group>)
    ensures groups == Grouped(builds)
  {
    groups := [];
    for k := 0 to |builds|
      invariant groups == GroupPrefix(builds, Signatures(builds), k)
    {
      var results := builds[k].results;
      if results.status != Success {
        var signature := SignatureOf(results);
        groups := AddToGroup(groups, signature, builds[k].number);
      }
    }
  }

  /** The reference: the numbers, in build order, of the first `n` builds that are not in
      status SUCCESS and have signature `sig`. */
  function NumbersWith(builds: seq<Build>, sigs: seq<seq<Item>>, n: nat, sig: seq<Item>): seq<int>
    requires n <= |builds| == |sigs|
  {
    if n == 0 then []
    else
      var b := builds[n - 1];
      NumbersWith(builds, sigs, n - 1, sig) + (if b.results.status != Success && sigs[n - 1] == sig then [b.number] else [])
  }

  /** The groups hold distinct signatures, each holds, in build order, exactly the numbers
      of the non-SUCCESS builds with its signature, and every such build is in a group. */
  ghost predicate GroupsExact(builds: seq<Build>, sigs: seq<seq<Item>>, n: nat, gs: seq<Group>)
    requires n <= |builds| == |sigs|
  {
    (forall i, j :: 0 <= i < j < |gs| ==> gs[i].signature != gs[j].signature)
    && (forall i :: 0 <= i < |gs| ==> gs[i].builds == NumbersWith(builds, sigs, n, gs[i].signature) && gs[i].builds != [])
    && (forall k :: 0 <= k < n && builds[k].results.status != Success ==>
          exists i :: 0 <= i < |gs| && gs[i].signature == sigs[k])
  }

  lemma GroupStep(builds: seq<Build>, sigs: seq<seq<Item>>, n: nat)
    requires n < |builds| == |sigs| && GroupsExact(builds, sigs, n, GroupPrefix(builds, sigs, n))
    ensures GroupsExact(builds, sigs, n + 1, GroupPrefix(builds, sigs, n + 1))
  {
    var gs := GroupPrefix(builds, sigs, n);
    if builds[n].results.status != Success {
      match FindGroup(gs, sigs[n])
      case Some(i) => GroupStepFound(builds, sigs, n, gs, i);
      case None => GroupStepNew(builds, sigs, n, gs);
    } else {
      forall i | 0 <= i < |gs|
        ensures NumbersWith(builds, sigs, n + 1, gs[i].signature) == NumbersWith(builds, sigs, n, gs[i].signature)
      {
      }
    }
  }

  lemma GroupStepFound(builds: seq<Build>, sigs: seq<seq<Item>>, n: nat, gs: seq<Group>, i: nat)
    requires n < |builds| == |sigs| && GroupsExact(builds, sigs, n, gs)
    requires builds[n].results.status != Success
    requires i < |gs| && gs[i].signature == sigs[n]
    ensures GroupsExact(builds, sigs, n + 1, gs[i := Group(sigs[n], gs[i].builds + [builds[n].number])])
  {
    var r := gs[i := Group(sigs[n], gs[i].builds + [builds[n].number])];
    forall j | 0 <= j < |r| ensures r[j].builds == NumbersWith(builds, sigs, n + 1, r[j].signature) && r[j].builds != [] {
      if j != i {
        assert r[j] == gs[j];
      }
    }
    forall k | 0 <= k < n + 1 && builds[k].results.status != Success
      ensures exists j :: 0 <= j < |r| && r[j].signature == sigs[k]
    {
      if k < n {
        var j :| 0 <= j < |gs| && gs[j].signature == sigs[k];
        assert r[j].signature == gs[j].signature;
      } else {
        assert r[i].signature == sigs[n];
      }
    }
  }

  lemma GroupStepNew(builds: seq<Build>, sigs: seq<seq<Item>>, n: nat, gs: seq<Group>)
    requires n < |builds| == |sigs| && GroupsExact(builds, sigs, n, gs)
    requires builds[n].results.status != Success
    requires forall i :: 0 <= i < |gs| ==> gs[i].signature != sigs[n]
    ensures GroupsExact(builds, sigs, n + 1, gs + [Group(sigs[n], [builds[n].number])])
  {
    var r := gs + [Group(sigs[n], [builds[n].number])];
    NoGroupNoNumbers(builds, sigs, n, gs, sigs[n]);
    forall j | 0 <= j < |r| ensures r[j].builds == NumbersWith(builds, sigs, n + 1, r[j].signature) && r[j].builds != [] {
      if j < |gs| {
        assert r[j] == gs[j];
      }
    }
    forall k | 0 <= k < n + 1 && builds[k].results.status != Success
      ensures exists j :: 0 <= j < |r| && r[j].signature == sigs[k]
    {
      if k < n {
        var j :| 0 <= j < |gs| && gs[j].signature == sigs[k];
        assert r[j].signature == gs[j].signature;
      } else {
        assert r[|gs|].signature == sigs[n];
      }
    }
  }

  /** A signature with no group has no builds yet. */
  lemma NoGroupNoNumbers(builds: seq<Build>, sigs: seq<seq<Item>>, n: nat, gs: seq<Group>, sig: seq<Item>)
    requires n <= |builds| == |sigs| && GroupsExact(builds, sigs, n, gs)
    requires forall i :: 0 <= i < |gs| ==> gs[i].signature != sig
    ensures NumbersWith(builds, sigs, n, sig) == []
  {
    NumbersWithMembers(builds, sigs, n, sig);
  }

  /** Every build counted under a signature is a non-SUCCESS build with that signature. */
  lemma {:induction false} NumbersWithMembers(builds: seq<Build>, sigs: seq<seq<Item>>, n: nat, sig: seq<Item>)
    requires n <= |builds| == |sigs|
    ensures NumbersWith(builds, sigs, n, sig) != [] ==>
      exists k :: 0 <= k < n && builds[k].results.status != Success && sigs[k] == sig
  {
    if n > 0 {
      NumbersWithMembers(builds, sigs, n - 1, sig);
    }
  }

  /** Builds with equal signatures end up in one group, a group holds, in build order, only
      the builds with its signature, and no two groups share a signature. */
  lemma GroupsAreExact(builds: seq<Build>)
    ensures GroupsExact(builds, Signatures(builds), |builds|, Grouped(builds))
  {
    var sigs := Signatures(builds);
    for k := 0 to |builds|
      invariant GroupsExact(builds, sigs, k, GroupPrefix(builds, sigs, k))
    {
      GroupStep(builds, sigs, k);
    }
  }

  /** The number of builds over all groups. */
  function SumSizes(gs: seq<Group>): nat {
    if gs == [] then 0 else SumSizes(gs[..|gs| - 1]) + |gs[|gs| - 1].builds|
  }

  lemma {:induction false} SumSizesUpdate(gs: seq<Group>, i: nat, g: Group)
    requires i < |gs|
    ensures SumSizes(gs[i := g]) + |gs[i].builds| == SumSizes(gs) + |g.builds|
    decreases |gs|
  {
    var r := gs[i := g];
    if i < |gs| - 1 {
      assert r[..|r| - 1] == gs[..|gs| - 1][i := g];
      SumSizesUpdate(gs[..|gs| - 1], i, g);
    } else {
      assert r[..|r| - 1] == gs[..|gs| - 1];
    }
  }

  /** Every added build lands in exactly one group. */
  lemma AddToGroupSize(gs: seq<Group>, sig: seq<Item>, number: int)
    ensures SumSizes(AddToGroup(gs, sig, number)) == SumSizes(gs) + 1
  {
    match FindGroup(gs, sig)
    case Some(i) => SumSizesUpdate(gs, i, Group(sig, gs[i].builds + [number]));
    case None => assert (gs + [Group(sig, [number])])[..|gs|] == gs;
  }

  /** The groups together hold one entry per build that is not in status SUCCESS. */
  lemma GroupSizes(builds: seq<Build>)
    ensures SumSizes(Grouped(builds)) == |Numbers(builds, |builds|, false)|
  {
    var sigs := Signatures(builds);
    for k := 0 to |builds|
      invariant SumSizes(GroupPrefix(builds, sigs, k)) == |Numbers(builds, k, false)|
    {
      GroupSizeStep(builds, sigs, k);
    }
  }

  lemma GroupSizeStep(builds: seq<Build>, sigs: seq<seq<Item>>, n: nat)
    requires n < |builds| == |sigs|
    requires SumSizes(GroupPrefix(builds, sigs, n)) == |Numbers(builds, n, false)|
    ensures SumSizes(GroupPrefix(builds, sigs, n + 1)) == |Numbers(builds, n + 1, false)|
  {
    if builds[n].results.status != Success {
      AddToGroupSize(GroupPrefix(builds, sigs, n), sigs[n], builds[n].number);
    }
  }

  // ----- Ordering the patterns -----

  /** `g` inserted before the first group that is not larger: the place a stable sort by
      size, largest first, gives an element that precedes all of `gs`. */
  function InsertBySize(g: Group, gs: seq<Group>): (r: seq<Group>)
    ensures multiset(r) == multiset(gs) + multiset{g}
  {
    if gs == [] then [g]
    else if |g.builds| >= |gs[0].builds| then [g] + gs
    else
      assert gs == [gs[0]] + gs[1..];
      [gs[0]] + InsertBySize(g, gs[1..])
  }

  /** `sorted(failures_to_builds.items(), key=lambda x: len(x[1]), reverse=True)`. */
  function SortBySize(gs: seq<Group>): (r: seq<Group>)
    ensures multiset(r) == multiset(gs)
  {
    if gs == [] then []
    else
      assert gs == [gs[0]] + gs[1..];
      InsertBySize(gs[0], SortBySize(gs[1..]))
  }

  predicate SizesDescending(gs: seq<Group>) {
    forall i, j :: 0 <= i < j < |gs| ==> |gs[i].builds| >= |gs[j].builds|
  }

  /** The groups of size `k`, in order. */
  function OfSize(gs: seq<Group>, k: nat): seq<Group> {
    if gs == [] then []
    else (if |gs[0].builds| == k then [gs[0]] else []) + OfSize(gs[1..], k)
  }

  lemma SizesDescendingTail(gs: seq<Group>)
    requires gs != [] && SizesDescending(gs)
    ensures SizesDescending(gs[1..])
  {
    forall i, j | 0 <= i < j < |gs| - 1 ensures |gs[1..][i].builds| >= |gs[1..][j].builds| {
      assert gs[1..][i] == gs[i + 1] && gs[1..][j] == gs[j + 1];
    }
  }

  lemma {:induction false} InsertBySizeDescending(g: Group, gs: seq<Group>)
    requires SizesDescending(gs)
    ensures SizesDescending(InsertBySize(g, gs))
    decreases |gs|
  {
    if gs != [] {
      if |g.builds| >= |gs[0].builds| {
        var r := [g] + gs;
        forall i, j | 0 <= i < j < |r| ensures |r[i].builds| >= |r[j].builds| {
          if i > 0 {
            assert r[i] == gs[i - 1];
          }
          assert r[j] == gs[j - 1];
        }
      } else {
        SizesDescendingTail(gs);
        InsertBySizeDescending(g, gs[1..]);
        var rest := InsertBySize(g, gs[1..]);
        var r := [gs[0]] + rest;
        forall j | 0 <= j < |rest| ensures |gs[0].builds| >= |rest[j].builds| {
          assert rest[j] in multiset(rest);
          if rest[j] != g {
            assert rest[j] in multiset(gs[1..]);
            var m :| 0 <= m < |gs[1..]| && gs[1..][m] == rest[j];
            assert gs[1..][m] == gs[m + 1];
          }
        }
        forall i, j | 0 <= i < j < |r| ensures |r[i].builds| >= |r[j].builds| {
          assert r[j] == rest[j - 1];
          if i > 0 {
            assert r[i] == rest[i - 1];
          }
        }
      }
    }
  }

  lemma {:induction false} InsertBySizeOfSize(g: Group, gs: seq<Group>, k: nat)
    ensures OfSize(InsertBySize(g, gs), k) == (if |g.builds| == k then [g] else []) + OfSize(gs, k)
    decreases |gs|
  {
    if gs == [] {
      OfSizeCons(g, [], k);
    } else if |g.builds| >= |gs[0].builds| {
      OfSizeCons(g, gs, k);
    } else {
      InsertBySizeOfSize(g, gs[1..], k);
      OfSizeCons(gs[0], InsertBySize(g, gs[1..]), k);
      OfSizeCons(gs[0], gs[1..], k);
      assert gs == [gs[0]] + gs[1..];
    }
  }

  lemma OfSizeCons(h: Group, t: seq<Group>, k: nat)
    ensures OfSize([h] + t, k) == (if |h.builds| == k then [h] else []) + OfSize(t, k)
  {
    assert ([h] + t)[1..] == t;
  }

  /** The patterns are ordered by size, largest first; the sort keeps every group, and groups
      of equal size keep their first-seen order. */
  lemma {:induction false} SortBySizeFacts(gs: seq<Group>, k: nat)
    ensures SizesDescending(SortBySize(gs))
    ensures OfSize(SortBySize(gs), k) == OfSize(gs, k)
    decreases |gs|
  {
    if gs != [] {
      SortBySizeFacts(gs[1..], k);
      InsertBySizeDescending(gs[0], SortBySize(gs[1..]));
      InsertBySizeOfSize(gs[0], SortBySize(gs[1..]), k);
    }
  }
}
