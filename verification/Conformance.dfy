/**
 * The conformance runner: sharding of the file list, the executions planned for each file, and the
 * results kept across crashes and resumed runs with the same arguments.
 */
module Conformance {
  import opened Prelude

  /** A test file: its path relative to the suite, its flags and whether the profile skips it. */
  datatype File = File(rel: string, flags: set<string>, skipped: bool)

  /** One execution: a test in one variant. */
  datatype Execution = Execution(test: string, variant: string)

  datatype Result = Result(execution: Execution, status: string)

  // ---------------------------------------------------------------- shards

  /** The files at the positions of one shard. */
  method Shard<P>(paths: seq<P>, index: nat, count: nat) returns (r: seq<P>)
    requires index < count
    ensures r == ShardOf(paths, index, count)
  {
    r := [];
    for i := 0 to |paths|
      invariant r == ShardOf(paths[..i], index, count)
    {
      assert paths[..i + 1][..i] == paths[..i];
      if i % count == index {
        r := r + [paths[i]];
      }
    }
    assert paths[..|paths|] == paths;
  }

  function ShardOf<P>(paths: seq<P>, index: nat, count: nat): seq<P>
    requires index < count
  {
    if paths == [] then []
    else
      var n := |paths| - 1;
      ShardOf(paths[..n], index, count) + (if n % count == index then [paths[n]] else [])
  }

  /** The j-th position of a shard: its index, and `count` further each time. */
  function Place(index: nat, count: nat, j: nat): nat {
    if j == 0 then index else Place(index, count, j - 1) + count
  }

  lemma Multiple(k: int, d: int)
    requires d > 0
    ensures (k >= 1 ==> k * d >= d) && (k <= -1 ==> k * d <= -d)
  {
  }

  lemma SameRemainder(a: nat, b: nat, d: nat)
    requires d > 0 && a % d == b % d && a <= b < a + d
    ensures a == b
  {
    var k := b / d - a / d;
    assert a == d * (a / d) + a % d && b == d * (b / d) + b % d;
    assert b - a == d * (b / d) - d * (a / d);
    assert k * d == b - a;
    Multiple(k, d);
  }

  lemma RemainderShift(a: nat, d: nat)
    requires d > 0
    ensures (a + d) % d == a % d
  {
    assert a + d == d * (a / d + 1) + a % d;
    var k := (a + d) / d - (a / d + 1);
    assert a + d == d * ((a + d) / d) + (a + d) % d;
    assert k * d == a % d - (a + d) % d;
    Multiple(k, d);
  }

  lemma {:induction false} PlaceRemainder(index: nat, count: nat, j: nat)
    requires index < count
    ensures Place(index, count, j) % count == index
    decreases j
  {
    if j > 0 {
      PlaceRemainder(index, count, j - 1);
      RemainderShift(Place(index, count, j - 1), count);
    }
  }

  /** Between two positions of a shard there is none of its files. */
  lemma NextPlace(n: nat, index: nat, count: nat, j: nat)
    requires index < count && n <= Place(index, count, j) && (j > 0 ==> Place(index, count, j - 1) < n)
    ensures n % count == index <==> n == Place(index, count, j)
  {
    PlaceRemainder(index, count, j);
    if n % count == index {
      SameRemainder(n, Place(index, count, j), count);
    }
  }

  /** A shard takes the files at its positions, up to the end of the list. */
  lemma {:induction false} ShardAt<P>(paths: seq<P>, index: nat, count: nat)
    requires index < count
    ensures var r := ShardOf(paths, index, count);
            && |paths| <= Place(index, count, |r|)
            && forall j :: 0 <= j < |r| ==> Place(index, count, j) < |paths| && r[j] == paths[Place(index, count, j)]
    decreases |paths|
  {
    if paths != [] {
      var n := |paths| - 1;
      var r := ShardOf(paths[..n], index, count);
      ShardAt(paths[..n], index, count);
      NextPlace(n, index, count, |r|);
    }
  }

  /** How often a file occurs in each shard. */
  function ShardCounts<P(==)>(paths: seq<P>, count: nat, x: P): (r: seq<nat>)
    ensures |r| == count && forall i :: 0 <= i < count ==> r[i] == multiset(ShardOf(paths, i, count))[x]
  {
    seq(count, i requires 0 <= i < count => multiset(ShardOf(paths, i, count))[x])
  }

  lemma ShardGrows<P>(paths: seq<P>, p: P, index: nat, count: nat, x: P)
    requires index < count
    ensures multiset(ShardOf(paths + [p], index, count))[x]
         == multiset(ShardOf(paths, index, count))[x] + Ind(|paths| % count == index && x == p)
  {
    assert (paths + [p])[..|paths|] == paths;
  }

  lemma ShardCountsGrow<P>(paths: seq<P>, p: P, count: nat, k: nat, x: P)
    requires count > 0 && k == |paths| % count
    ensures k < count
         && ShardCounts(paths + [p], count, x) == ShardCounts(paths, count, x)[k := ShardCounts(paths, count, x)[k] + Ind(x == p)]
  {
    forall i | 0 <= i < count
      ensures ShardCounts(paths + [p], count, x)[i] == ShardCounts(paths, count, x)[i] + Ind(i == k && x == p)
    {
      ShardGrows(paths, p, i, count, x);
    }
  }

  lemma OneMoreFile<P>(paths: seq<P>, p: P, count: nat, x: P)
    requires count > 0
    ensures Total(ShardCounts(paths + [p], count, x)) == Total(ShardCounts(paths, count, x)) + Ind(x == p)
  {
    var k := |paths| % count;
    ShardCountsGrow(paths, p, count, k, x);
    TotalUpdate(ShardCounts(paths, count, x), k, ShardCounts(paths, count, x)[k] + Ind(x == p));
  }

  lemma OneMoreCopy<P>(paths: seq<P>, p: P, x: P)
    ensures multiset(paths + [p])[x] == multiset(paths)[x] + Ind(x == p)
  {
  }

  /** All shards together hold every file exactly as often as the list does. */
  lemma {:induction false} ShardsPartition<P>(paths: seq<P>, count: nat, x: P)
    requires count > 0
    ensures Total(ShardCounts(paths, count, x)) == multiset(paths)[x]
    decreases |paths|
  {
    if paths == [] {
      TotalZero(ShardCounts(paths, count, x));
    } else {
      var init, last := paths[..|paths| - 1], paths[|paths| - 1];
      assert paths == init + [last];
      ShardsPartition(init, count, x);
      OneMoreFile(init, last, count, x);
      OneMoreCopy(init, last, x);
    }
  }

  // ---------------------------------------------------------------- keys

  /** result_key */
  function Key(e: Execution): string {
    e.test + ['\0'] + e.variant
  }

  /** The key determines the execution, because no variant contains the separator. */
  lemma KeyIsInjective(a: Execution, b: Execution)
    requires '\0' !in a.variant && '\0' !in b.variant && Key(a) == Key(b)
    ensures a == b
  {
    var k := Key(a);
    assert k[|a.test|] == '\0' && k[|a.test| + 1..] == a.variant && k[..|a.test|] == a.test;
    assert k[|b.test|] == '\0' && k[|b.test| + 1..] == b.variant && k[..|b.test|] == b.test;
  }

  // ---------------------------------------------------------------- planned executions

  const VARIANTS := {"module", "raw", "strict", "sloppy"}

  /** variants, cut to one with --single-variant */
  function Selected(flags: set<string>, single: bool): (vs: seq<string>)
    ensures 1 <= |vs| <= 2 && (single ==> |vs| == 1)
    ensures forall i :: 0 <= i < |vs| ==> vs[i] in VARIANTS
    ensures |vs| == 2 ==> vs == ["sloppy", "strict"]
    ensures "module" in vs <==> "module" in flags
    ensures "raw" in vs <==> "raw" in flags && "module" !in flags
    ensures "strict" in vs <==> flags !! {"module", "raw"} && ("onlyStrict" in flags || ("noStrict" !in flags && !single))
    ensures "sloppy" in vs <==> flags !! {"module", "raw", "onlyStrict"}
  {
    if "module" in flags then ["module"]
    else if "raw" in flags then ["raw"]
    else if "onlyStrict" in flags then ["strict"]
    else if "noStrict" in flags then ["sloppy"]
    else if single then ["sloppy"]
    else ["sloppy", "strict"]
  }

  function Executions(test: string, vs: seq<string>): (r: seq<Execution>)
    ensures |r| == |vs| && forall i :: 0 <= i < |vs| ==> r[i] == Execution(test, vs[i])
  {
    seq(|vs|, i requires 0 <= i < |vs| => Execution(test, vs[i]))
  }

  /** The executions of the files that are skipped, or of those that are not. */
  function Planned(files: seq<File>, skipped: bool, single: bool): seq<Execution> {
    if files == [] then []
    else
      var n := |files| - 1;
      Planned(files[..n], skipped, single)
      + (if files[n].skipped == skipped then Executions(files[n].rel, Selected(files[n].flags, single)) else [])
  }

  lemma PlannedLast(files: seq<File>, init: seq<File>, f: File, skipped: bool, single: bool)
    requires files == init + [f]
    ensures Planned(files, skipped, single)
         == Planned(init, skipped, single) + (if f.skipped == skipped then Executions(f.rel, Selected(f.flags, single)) else [])
  {
    assert files[..|files| - 1] == init;
  }

  /** Files are planned one after the other, each with its variants in order. */
  lemma {:induction false} PlannedConcat(a: seq<File>, b: seq<File>, skipped: bool, single: bool)
    ensures Planned(a + b, skipped, single) == Planned(a, skipped, single) + Planned(b, skipped, single)
    decreases |b|
  {
    if b == [] {
      assert a + b == a;
    } else {
      var n := |b| - 1;
      PlannedConcat(a, b[..n], skipped, single);
      PlannedLast(a + b, a + b[..n], b[n], skipped, single);
      PlannedLast(b, b[..n], b[n], skipped, single);
      var last := if b[n].skipped == skipped then Executions(b[n].rel, Selected(b[n].flags, single)) else [];
      ConcatLast(Planned(a + b, skipped, single), Planned(a, skipped, single), Planned(b, skipped, single),
                 Planned(b[..n], skipped, single), last);
    }
  }

  /** An execution the arguments ask for. */
  predicate Expected(files: seq<File>, single: bool, e: Execution) {
    exists f :: f in files && Asks(f, f.skipped, single, e)
  }

  ghost predicate DistinctFiles(files: seq<File>) {
    forall i, j :: 0 <= i < j < |files| ==> files[i].rel != files[j].rel
  }

  ghost predicate Distinct(es: seq<Execution>) {
    forall i, j :: 0 <= i < j < |es| ==> es[i] != es[j]
  }

  lemma DistinctConcat(a: seq<Execution>, b: seq<Execution>)
    requires Distinct(a) && Distinct(b) && forall e :: e in a ==> e !in b
    ensures Distinct(a + b)
  {
    forall i, j | 0 <= i < j < |a + b| ensures (a + b)[i] != (a + b)[j] {
      if i < |a| <= j {
        assert a[i] in a && b[j - |a|] in b;
      }
    }
  }

  predicate Asks(f: File, skipped: bool, single: bool, e: Execution) {
    f.skipped == skipped && f.rel == e.test && e.variant in Selected(f.flags, single)
  }

  lemma AskedOfLast(f: File, single: bool, e: Execution)
    ensures e in Executions(f.rel, Selected(f.flags, single)) <==> f.rel == e.test && e.variant in Selected(f.flags, single)
  {
    var vs := Selected(f.flags, single);
    if f.rel == e.test && e.variant in vs {
      var k :| 0 <= k < |vs| && vs[k] == e.variant;
      assert Executions(f.rel, vs)[k] == e;
    }
  }

  lemma InSplit(files: seq<File>, skipped: bool, single: bool, e: Execution)
    requires files != []
    ensures
      var n := |files| - 1;
      (exists f :: f in files && Asks(f, skipped, single, e)) <==>
      Asks(files[n], skipped, single, e) || exists f :: f in files[..n] && Asks(f, skipped, single, e)
  {
    var n := |files| - 1;
    assert files[n] in files;
    assert forall f :: f in files <==> f in files[..n] || f == files[n];
  }

  /** The planned executions come from the right files. */
  lemma {:induction false} PlannedFrom(files: seq<File>, skipped: bool, single: bool, e: Execution)
    ensures e in Planned(files, skipped, single) <==> exists f :: f in files && Asks(f, skipped, single, e)
    decreases |files|
  {
    if files != [] {
      var n := |files| - 1;
      PlannedFrom(files[..n], skipped, single, e);
      AskedOfLast(files[n], single, e);
      InSplit(files, skipped, single, e);
    }
  }

  lemma {:induction false} PlannedDistinct(files: seq<File>, skipped: bool, single: bool)
    requires DistinctFiles(files)
    ensures Distinct(Planned(files, skipped, single))
    decreases |files|
  {
    if files != [] {
      var n := |files| - 1;
      PlannedDistinct(files[..n], skipped, single);
      if files[n].skipped == skipped {
        var last := Executions(files[n].rel, Selected(files[n].flags, single));
        forall e | e in Planned(files[..n], skipped, single) ensures e !in last {
          PlannedFrom(files[..n], skipped, single, e);
        }
        DistinctConcat(Planned(files[..n], skipped, single), last);
      }
    }
  }

  lemma PlannedAreExpected(files: seq<File>, single: bool, e: Execution)
    ensures Expected(files, single, e) <==> e in Planned(files, true, single) || e in Planned(files, false, single)
  {
    PlannedFrom(files, true, single, e);
    PlannedFrom(files, false, single, e);
  }

  // ---------------------------------------------------------------- reports

  datatype Report = Report(results: seq<Result>, counts: map<string, nat>, completed: bool)

  function Done(results: seq<Result>): (r: seq<Execution>)
    ensures |r| == |results| && forall i :: 0 <= i < |results| ==> r[i] == results[i].execution
  {
    seq(|results|, i requires 0 <= i < |results| => results[i].execution)
  }

  function Tally(counts: map<string, nat>, status: string): nat {
    if status in counts then counts[status] else 0
  }

  function Bumped(counts: map<string, nat>, status: string): (r: map<string, nat>)
    ensures forall s :: Tally(r, s) == Tally(counts, s) + Ind(s == status)
  {
    counts[status := Tally(counts, status) + 1]
  }

  /** How many results have the given status. */
  function WithStatus(results: seq<Result>, status: string): nat {
    if results == [] then 0
    else WithStatus(results[..|results| - 1], status) + Ind(results[|results| - 1].status == status)
  }

  ghost predicate CountsAgree(results: seq<Result>, counts: map<string, nat>) {
    forall s :: Tally(counts, s) == WithStatus(results, s)
  }

  /** No execution twice, none that was not asked for, and all skipped ones. */
  ghost predicate Sound(files: seq<File>, single: bool, results: seq<Result>) {
    && Distinct(Done(results))
    && (forall e :: e in Done(results) ==> Expected(files, single, e))
    && (forall e :: e in Planned(files, true, single) ==> e in Done(results))
  }

  ghost predicate Complete(files: seq<File>, single: bool, results: seq<Result>) {
    Sound(files, single, results) && forall e :: Expected(files, single, e) ==> e in Done(results)
  }

  ghost predicate GoodReport(files: seq<File>, single: bool, r: Report) {
    && Sound(files, single, r.results)
    && CountsAgree(r.results, r.counts)
    && (r.completed ==> Complete(files, single, r.results))
  }

  lemma {:induction false} OccursOnce(es: seq<Execution>, e: Execution)
    requires Distinct(es)
    ensures multiset(es)[e] == Ind(e in es)
    decreases |es|
  {
    if es != [] {
      var n := |es| - 1;
      assert es == es[..n] + [es[n]];
      OccursOnce(es[..n], e);
    }
  }

  /** A complete report holds exactly one result for each execution asked for, and no other. */
  lemma CompleteMeansExactlyOnce(files: seq<File>, single: bool, results: seq<Result>, e: Execution)
    requires Complete(files, single, results)
    ensures multiset(Done(results))[e] == Ind(Expected(files, single, e))
  {
    OccursOnce(Done(results), e);
  }

  // ---------------------------------------------------------------- one run

  /** The skipped executions as results. */
  function Skips(es: seq<Execution>): (r: seq<Result>)
    ensures Done(r) == es && forall i :: 0 <= i < |r| ==> r[i].status == "skip"
  {
    seq(|es|, i requires 0 <= i < |es| => Result(es[i], "skip"))
  }

  lemma SkipsAreSound(files: seq<File>, single: bool)
    requires DistinctFiles(files)
    ensures Sound(files, single, Skips(Planned(files, true, single)))
  {
    PlannedDistinct(files, true, single);
    forall e | e in Planned(files, true, single) ensures Expected(files, single, e) {
      PlannedAreExpected(files, single, e);
    }
  }

  /** The planned executions that have no result yet. */
  function Pending(jobs: seq<Execution>, done: seq<Execution>): seq<Execution> {
    if jobs == [] then []
    else
      var n := |jobs| - 1;
      Pending(jobs[..n], done) + (if jobs[n] in done then [] else [jobs[n]])
  }

  lemma {:induction false} PendingMembers(jobs: seq<Execution>, done: seq<Execution>, e: Execution)
    ensures e in Pending(jobs, done) <==> e in jobs && e !in done
    decreases |jobs|
  {
    if jobs != [] {
      var n := |jobs| - 1;
      PendingMembers(jobs[..n], done, e);
      assert jobs == jobs[..n] + [jobs[n]];
    }
  }

  lemma {:induction false} PendingDistinct(jobs: seq<Execution>, done: seq<Execution>)
    requires Distinct(jobs)
    ensures Distinct(Pending(jobs, done))
    decreases |jobs|
  {
    if jobs != [] {
      var n := |jobs| - 1;
      PendingDistinct(jobs[..n], done);
      if jobs[n] !in done {
        PendingMembers(jobs[..n], done, jobs[n]);
        DistinctConcat(Pending(jobs[..n], done), [jobs[n]]);
      }
    }
  }

  lemma PendingLast(jobs: seq<Execution>, init: seq<Execution>, e: Execution, done: seq<Execution>)
    requires jobs == init + [e]
    ensures Pending(jobs, done) == Pending(init, done) + (if e in done then [] else [e])
  {
    assert jobs[..|jobs| - 1] == init;
  }

  /** The pending executions keep the order of the planned ones. */
  lemma {:induction false} PendingConcat(a: seq<Execution>, b: seq<Execution>, done: seq<Execution>)
    ensures Pending(a + b, done) == Pending(a, done) + Pending(b, done)
    decreases |b|
  {
    if b == [] {
      assert a + b == a;
    } else {
      var n := |b| - 1;
      PendingConcat(a, b[..n], done);
      PendingLast(a + b, a + b[..n], b[n], done);
      PendingLast(b, b[..n], b[n], done);
      ConcatLast(Pending(a + b, done), Pending(a, done), Pending(b, done), Pending(b[..n], done), if b[n] in done then [] else [b[n]]);
    }
  }

  /** The set of keys decides membership, since the results are of executions asked for. */
  lemma KeysDecide(files: seq<File>, single: bool, results: seq<Result>, keys: set<string>, e: Execution)
    requires Sound(files, single, results) && Expected(files, single, e)
    requires forall k :: k in keys <==> exists i :: 0 <= i < |results| && k == Key(results[i].execution)
    ensures Key(e) in keys <==> e in Done(results)
  {
    VariantsHaveNoSeparator(files, single, e);
    if Key(e) in keys {
      var i :| 0 <= i < |results| && Key(e) == Key(results[i].execution);
      assert Done(results)[i] in Done(results);
      VariantsHaveNoSeparator(files, single, results[i].execution);
      KeyIsInjective(e, results[i].execution);
    }
    if e in Done(results) {
      var i :| 0 <= i < |results| && Done(results)[i] == e;
      assert Key(e) == Key(results[i].execution);
    }
  }

  lemma JobDecided(files: seq<File>, single: bool, results: seq<Result>, keys: set<string>, i: nat)
    requires Sound(files, single, results) && i < |Planned(files, false, single)|
    requires forall k :: k in keys <==> exists j :: 0 <= j < |results| && k == Key(results[j].execution)
    ensures Key(Planned(files, false, single)[i]) in keys <==> Planned(files, false, single)[i] in Done(results)
  {
    var e := Planned(files, false, single)[i];
    PlannedAreExpected(files, single, e);
    KeysDecide(files, single, results, keys, e);
  }

  lemma VariantsHaveNoSeparator(files: seq<File>, single: bool, e: Execution)
    requires Expected(files, single, e)
    ensures '\0' !in e.variant
  {
    assert e.variant in VARIANTS;
  }

  method CollectKeys(results: seq<Result>) returns (keys: set<string>)
    ensures forall k :: k in keys <==> exists i :: 0 <= i < |results| && k == Key(results[i].execution)
  {
    keys := {};
    for i := 0 to |results|
      invariant forall k :: k in keys <==> exists j :: 0 <= j < i && k == Key(results[j].execution)
    {
      keys := keys + {Key(results[i].execution)};
    }
  }

  /** The resume step: completed keys are collected and the other jobs kept. */
  method Remaining(files: seq<File>, single: bool, results: seq<Result>) returns (pending: seq<Execution>)
    requires Sound(files, single, results)
    ensures pending == Pending(Planned(files, false, single), Done(results))
  {
    var keys := CollectKeys(results);
    var jobs := Planned(files, false, single);
    ghost var done := Done(results);
    pending := [];
    for i := 0 to |jobs|
      invariant pending == Pending(jobs[..i], done)
    {
      PendingLast(jobs[..i + 1], jobs[..i], jobs[i], done);
      JobDecided(files, single, results, keys, i);
      if Key(jobs[i]) !in keys {
        pending := pending + [jobs[i]];
      }
    }
    assert jobs[..|jobs|] == jobs;
  }

  /** Counter over the statuses of a list of results. */
  method CountAll(results: seq<Result>) returns (counts: map<string, nat>)
    ensures CountsAgree(results, counts)
  {
    counts := map[];
    for i := 0 to |results|
      invariant CountsAgree(results[..i], counts)
    {
      assert results[..i + 1][..i] == results[..i];
      counts := Bumped(counts, results[i].status);
    }
    assert results[..|results|] == results;
  }

  /** One more result keeps a partial report sound. */
  lemma OneMore(files: seq<File>, single: bool, results: seq<Result>, r: Result)
    requires Sound(files, single, results) && Expected(files, single, r.execution) && r.execution !in Done(results)
    ensures Sound(files, single, results + [r]) && Done(results + [r]) == Done(results) + [r.execution]
  {
    assert Done(results + [r]) == Done(results) + [r.execution];
    DistinctConcat(Done(results), [r.execution]);
  }

  lemma OneMoreCount(results: seq<Result>, counts: map<string, nat>, r: Result)
    requires CountsAgree(results, counts)
    ensures CountsAgree(results + [r], Bumped(counts, r.status))
  {
    var more := Bumped(counts, r.status);
    assert (results + [r])[..|results|] == results;
    forall s ensures Tally(more, s) == WithStatus(results + [r], s) {
      assert Tally(counts, s) == WithStatus(results, s);
    }
  }

  /** When all pending executions have results, every execution asked for has. */
  lemma NowComplete(files: seq<File>, single: bool, before: seq<Execution>, results: seq<Result>)
    requires Sound(files, single, results)
    requires Done(results) == before + Pending(Planned(files, false, single), before)
    ensures Complete(files, single, results)
  {
    forall e | Expected(files, single, e) ensures e in Done(results) {
      PlannedAreExpected(files, single, e);
      PendingMembers(Planned(files, false, single), before, e);
    }
  }

  /** What a run starts from: the stored results when it resumes, else the skipped executions. */
  function StartResults(files: seq<File>, single: bool, stored: Option<Report>, resume: bool): seq<Result> {
    if resume && stored.Some? then stored.value.results else Skips(Planned(files, true, single))
  }

  function StartPending(files: seq<File>, single: bool, stored: Option<Report>, resume: bool): seq<Execution> {
    Pending(Planned(files, false, single), Done(StartResults(files, single, stored, resume)))
  }

  /** The results are those of `first`, then one for each of the first k pending executions, with the status it had. */
  ghost predicate Carries(results: seq<Result>, first: seq<Result>, pending: seq<Execution>, statuses: seq<string>, k: nat) {
    && k <= |pending| && k <= |statuses| && |results| == |first| + k
    && (forall i :: 0 <= i < |first| ==> results[i] == first[i])
    && (forall i :: 0 <= i < k ==> results[|first| + i] == Result(pending[i], statuses[i]))
  }

  predicate CheckpointDue(k: nat, every: nat)
    requires every > 0
  {
    k % every == 0
  }

  /** The last checkpoint among the first k results was due after c of them. */
  ghost predicate LastDue(c: nat, k: nat, every: nat)
    requires every > 0
  {
    c <= k && CheckpointDue(c, every) && forall i :: c < i <= k ==> !CheckpointDue(i, every)
  }

  /** After k results the stored report is the one of the last checkpoint, or still the old one if there was none. */
  ghost predicate Checkpointed(report: Option<Report>, stored: Option<Report>, first: seq<Result>, pending: seq<Execution>,
                               statuses: seq<string>, k: nat, every: nat)
    requires every > 0
  {
    exists c :: LastDue(c, k, every) &&
      if c == 0 then report == stored
      else report.Some? && !report.value.completed && Carries(report.value.results, first, pending, statuses, c)
  }

  lemma FirstDue(every: nat)
    requires every > 0
    ensures LastDue(0, 0, every)
  {
  }

  lemma StillCheckpointed(report: Option<Report>, stored: Option<Report>, first: seq<Result>, pending: seq<Execution>,
                          statuses: seq<string>, k: nat, every: nat)
    requires every > 0 && Checkpointed(report, stored, first, pending, statuses, k, every) && !CheckpointDue(k + 1, every)
    ensures Checkpointed(report, stored, first, pending, statuses, k + 1, every)
  {
    var c :| LastDue(c, k, every) &&
      if c == 0 then report == stored
      else report.Some? && !report.value.completed && Carries(report.value.results, first, pending, statuses, c);
    assert LastDue(c, k + 1, every);
  }

  lemma NowCheckpointed(report: Report, stored: Option<Report>, first: seq<Result>, pending: seq<Execution>,
                        statuses: seq<string>, k: nat, every: nat)
    requires every > 0 && k > 0 && CheckpointDue(k, every)
    requires !report.completed && Carries(report.results, first, pending, statuses, k)
    ensures Checkpointed(Some(report), stored, first, pending, statuses, k, every)
  {
    assert LastDue(k, k, every);
  }

  /**
   * One run of the program.  `statuses` are the outcomes of the executions in order; when there are
   * fewer than pending executions the run dies after the last of them, and when `dies` holds it dies
   * just before the final report is written; then only the last report written survives.
   */
  method RunOnce(files: seq<File>, single: bool, stored: Option<Report>, resume: bool, statuses: seq<string>, every: nat, dies: bool)
    returns (report: Option<Report>, finished: bool)
    requires DistinctFiles(files) && every > 0
    requires stored.Some? ==> GoodReport(files, single, stored.value)
    ensures report.Some? ==> GoodReport(files, single, report.value)
    ensures finished <==> |statuses| >= |StartPending(files, single, stored, resume)| && !dies
    ensures var first, pending := StartResults(files, single, stored, resume), StartPending(files, single, stored, resume);
            if finished then
              report.Some? && report.value.completed && Carries(report.value.results, first, pending, statuses, |pending|)
            else
              Checkpointed(report, stored, first, pending, statuses, Min(|statuses|, |pending|), every)
  {
    SkipsAreSound(files, single);
    var results := Skips(Planned(files, true, single));
    if resume && stored.Some? {
      results := stored.value.results;
    }
    var pending := Remaining(files, single, results);
    var counts := CountAll(results);
    PlannedDistinct(files, false, single);
    PendingDistinct(Planned(files, false, single), Done(results));
    report, finished := Process(files, single, stored, results, counts, pending, statuses, every, dies);
  }

  /** The loop over the pending executions, with its checkpoints and the final report. */
  method Process(files: seq<File>, single: bool, stored: Option<Report>, first: seq<Result>, firstCounts: map<string, nat>,
                 pending: seq<Execution>, statuses: seq<string>, every: nat, dies: bool)
    returns (report: Option<Report>, finished: bool)
    requires every > 0 && Sound(files, single, first) && CountsAgree(first, firstCounts)
    requires pending == Pending(Planned(files, false, single), Done(first)) && Distinct(pending)
    requires stored.Some? ==> GoodReport(files, single, stored.value)
    ensures report.Some? ==> GoodReport(files, single, report.value)
    ensures finished <==> |statuses| >= |pending| && !dies
    ensures if finished then
              report.Some? && report.value.completed && Carries(report.value.results, first, pending, statuses, |pending|)
            else
              Checkpointed(report, stored, first, pending, statuses, Min(|statuses|, |pending|), every)
  {
    report := stored;
    FirstDue(every);
    var results, counts := first, firstCounts;
    for k := 0 to |pending|
      invariant Sound(files, single, results) && CountsAgree(results, counts)
      invariant Done(results) == Done(first) + pending[..k]
      invariant report.Some? ==> GoodReport(files, single, report.value)
      invariant k <= |statuses| && Carries(results, first, pending, statuses, k)
      invariant Checkpointed(report, stored, first, pending, statuses, k, every)
    {
      if k == |statuses| {
        return report, false;
      }
      results, counts := Record(files, single, first, pending, k, results, counts, statuses);
      if CheckpointDue(k + 1, every) {
        report := Some(Report(results, counts, false));
        NowCheckpointed(report.value, stored, first, pending, statuses, k + 1, every);
      } else {
        StillCheckpointed(report, stored, first, pending, statuses, k, every);
      }
    }
    if dies {
      return report, false;
    }
    assert pending[..|pending|] == pending;
    NowComplete(files, single, Done(first), results);
    return Some(Report(results, counts, true)), true;
  }

  /** One result is appended and counted. */
  method Record(files: seq<File>, single: bool, ghost first: seq<Result>, pending: seq<Execution>, k: nat,
                results: seq<Result>, counts: map<string, nat>, statuses: seq<string>)
    returns (results': seq<Result>, counts': map<string, nat>)
    requires pending == Pending(Planned(files, false, single), Done(first)) && Distinct(pending) && k < |pending| && k < |statuses|
    requires Sound(files, single, results) && CountsAgree(results, counts) && Done(results) == Done(first) + pending[..k]
    requires Carries(results, first, pending, statuses, k)
    ensures Sound(files, single, results') && CountsAgree(results', counts') && Done(results') == Done(first) + pending[..k + 1]
    ensures Carries(results', first, pending, statuses, k + 1)
  {
    var r := Result(pending[k], statuses[k]);
    RecordKeeps(files, single, Done(first), pending, k, results, r);
    OneMoreCount(results, counts, r);
    results' := results + [r];
    counts' := Bumped(counts, r.status);
  }

  lemma RecordKeeps(files: seq<File>, single: bool, before: seq<Execution>, pending: seq<Execution>, k: nat, results: seq<Result>, r: Result)
    requires pending == Pending(Planned(files, false, single), before) && Distinct(pending) && k < |pending|
    requires Sound(files, single, results) && Done(results) == before + pending[..k] && r.execution == pending[k]
    ensures Sound(files, single, results + [r]) && Done(results + [r]) == before + pending[..k + 1]
  {
    NextIsNew(files, single, before, pending, k);
    OneMore(files, single, results, r);
    Extend(before, pending, k);
  }

  lemma Extend(before: seq<Execution>, pending: seq<Execution>, k: nat)
    requires k < |pending|
    ensures before + pending[..k] + [pending[k]] == before + pending[..k + 1]
  {
  }

  lemma NextIsNew(files: seq<File>, single: bool, before: seq<Execution>, pending: seq<Execution>, k: nat)
    requires pending == Pending(Planned(files, false, single), before) && Distinct(pending) && k < |pending|
    ensures Expected(files, single, pending[k]) && pending[k] !in before + pending[..k]
  {
    assert pending[k] in pending;
    PendingMembers(Planned(files, false, single), before, pending[k]);
    PlannedAreExpected(files, single, pending[k]);
  }

  // ---------------------------------------------------------------- any number of runs

  datatype Attempt = Attempt(resume: bool, statuses: seq<string>, every: nat, dies: bool)

  /**
   * Any sequence of runs with the same arguments, each possibly dying at any point: once the last
   * of them finishes, the report is complete and its counts are those of its results.
   */
  method Session(files: seq<File>, single: bool, attempts: seq<Attempt>) returns (report: Option<Report>, finished: bool)
    requires DistinctFiles(files)
    requires forall i :: 0 <= i < |attempts| ==> attempts[i].every > 0
    ensures report.Some? ==> GoodReport(files, single, report.value)
    ensures finished ==>
      && report.Some?
      && CountsAgree(report.value.results, report.value.counts)
      && forall e :: multiset(Done(report.value.results))[e] == Ind(Expected(files, single, e))
  {
    report, finished := None, false;
    for i := 0 to |attempts|
      invariant report.Some? ==> GoodReport(files, single, report.value)
      invariant finished ==> report.Some? && report.value.completed
    {
      report, finished := RunOnce(files, single, report, attempts[i].resume, attempts[i].statuses, attempts[i].every, attempts[i].dies);
    }
    if finished {
      forall e ensures multiset(Done(report.value.results))[e] == Ind(Expected(files, single, e)) {
        CompleteMeansExactlyOnce(files, single, report.value.results, e);
      }
    }
  }
}
