/**
 * The download phase: every scheduled job becomes a task, the tasks complete
 * in an order nobody controls, and each completed task moves one of three
 * counters. The completion order is a parameter; the counters do not depend
 * on it.
 */
module DownloadPhase {
  import opened Download

  /** What awaiting a completed task gives: the string it returned, or an exception. */
  datatype TaskResult = Returned(text: string) | Raised

  /** The three counters of the download phase. */
  datatype Stats = Stats(success: nat, notFound: nat, failed: nat)

  function Total(s: Stats): nat
  {
    s.success + s.notFound + s.failed
  }

  /** One completed task: "success" and "404" have their own counters, everything else is a failure. */
  function Count(s: Stats, r: TaskResult): Stats
  {
    if r == Returned("success") then s.(success := s.success + 1)
    else if r == Returned("404") then s.(notFound := s.notFound + 1)
    else s.(failed := s.failed + 1)
  }

  /** The counters after the results `rs`, in the order given; every result is counted once. */
  function Tally(rs: seq<TaskResult>): Stats
  {
    if rs == [] then Stats(0, 0, 0)
    else Count(Tally(rs[..|rs| - 1]), rs[|rs| - 1])
  }

  /**
   * Each counter is the number of results of its kind: "success" and "404"
   * are counted where they belong, and every other result is a failure.
   */
  lemma {:induction false} TallyCounts(rs: seq<TaskResult>)
    ensures Tally(rs).success == multiset(rs)[Returned("success")]
    ensures Tally(rs).notFound == multiset(rs)[Returned("404")]
    ensures Tally(rs).failed == |rs| - multiset(rs)[Returned("success")] - multiset(rs)[Returned("404")]
  {
    if rs != [] {
      var init := rs[..|rs| - 1];
      assert rs == init + [rs[|rs| - 1]];
      TallyCounts(init);
    }
  }

  /** The results of the jobs, in the order they complete. */
  function Results<J>(order: seq<J>, resultOf: J -> TaskResult): seq<TaskResult>
  {
    seq(|order|, i requires 0 <= i < |order| => resultOf(order[i]))
  }

  /** Every job completes exactly once. */
  ghost predicate IsCompletionOrder<J>(order: seq<J>, jobs: set<J>)
  {
    multiset(order) == multiset(jobs)
  }

  /** Some order in which the tasks may complete: each job once, in whatever order. */
  method SomeCompletionOrder<J>(jobs: set<J>) returns (order: seq<J>)
    ensures IsCompletionOrder(order, jobs)
  {
    order := [];
    var pending := jobs;
    while pending != {}
      invariant pending <= jobs
      invariant multiset(order) + multiset(pending) == multiset(jobs)
      decreases |pending|
    {
      var job :| job in pending;
      order := order + [job];
      pending := pending - {job};
    }
  }

  /**
   * Await the tasks as they complete and count their results. `resultOf`
   * says what each job's task gives; `order` is the order of completion.
   */
  method RunAllDownloads<J>(jobs: set<J>, order: seq<J>, resultOf: J -> TaskResult) returns (stats: Stats)
    requires IsCompletionOrder(order, jobs)
    ensures stats == Tally(Results(order, resultOf))
    ensures Total(stats) == |jobs|
  {
    stats := Stats(0, 0, 0);
    for i := 0 to |order|
      invariant stats == Tally(Results(order[..i], resultOf))
    {
      var result := resultOf(order[i]);
      stats := Count(stats, result);
      assert order[..i + 1] == order[..i] + [order[i]];
      ResultsAppend(order[..i], [order[i]], resultOf);
      TallyStep(Results(order[..i], resultOf), result);
    }
    assert order[..|order|] == order;
    TallyCounts(Results(order, resultOf));
    assert |multiset(order)| == |multiset(jobs)|;
  }

  /** Counting one more result is one more step of the fold. */
  lemma TallyStep(rs: seq<TaskResult>, r: TaskResult)
    ensures Tally(rs + [r]) == Count(Tally(rs), r)
  {
    assert (rs + [r])[..|rs|] == rs;
  }

  lemma ResultsAppend<J>(a: seq<J>, b: seq<J>, f: J -> TaskResult)
    ensures Results(a + b, f) == Results(a, f) + Results(b, f)
  {
  }

  /** Reordering the jobs reorders their results and nothing more. */
  lemma {:induction false} ResultsPermute<J>(xs: seq<J>, ys: seq<J>, f: J -> TaskResult)
    requires multiset(xs) == multiset(ys)
    ensures multiset(Results(xs, f)) == multiset(Results(ys, f))
    decreases |xs|
  {
    if xs == [] {
      assert |multiset(ys)| == 0;
    } else {
      var x := xs[|xs| - 1];
      var xs' := xs[..|xs| - 1];
      assert xs == xs' + [x];
      assert x in multiset(ys);
      var i :| 0 <= i < |ys| && ys[i] == x;
      var ys' := ys[..i] + ys[i + 1..];
      assert ys == ys[..i] + [x] + ys[i + 1..];
      assert multiset(ys) == multiset(ys[..i]) + multiset{x} + multiset(ys[i + 1..]);
      assert multiset(xs) == multiset(xs') + multiset{x};
      assert multiset(ys') == multiset(ys[..i]) + multiset(ys[i + 1..]);
      assert multiset(xs') == multiset(xs) - multiset{x};
      assert multiset(ys') == multiset(ys) - multiset{x};
      ResultsPermute(xs', ys', f);
      ResultsAppend(xs', [x], f);
      ResultsAppend(ys[..i], ys[i + 1..], f);
      ResultsAppend(ys[..i] + [x], ys[i + 1..], f);
      ResultsAppend(ys[..i], [x], f);
    }
  }

  /** The counters do not depend on the order in which the tasks complete. */
  lemma TallyOrderIndependent<J>(jobs: set<J>, o1: seq<J>, o2: seq<J>, resultOf: J -> TaskResult)
    requires IsCompletionOrder(o1, jobs) && IsCompletionOrder(o2, jobs)
    ensures Tally(Results(o1, resultOf)) == Tally(Results(o2, resultOf))
  {
    ResultsPermute(o1, o2, resultOf);
    TallyCounts(Results(o1, resultOf));
    TallyCounts(Results(o2, resultOf));
  }

  /** The results of tasks that returned the downloader's outcomes. */
  function Labelled(os: seq<Outcome>): seq<TaskResult>
  {
    seq(|os|, i requires 0 <= i < |os| => Returned(Label(os[i])))
  }

  /** Each counter counts exactly the downloader outcomes of its kind. */
  lemma {:induction false} TallyOfOutcomes(os: seq<Outcome>)
    ensures Tally(Labelled(os)) == Stats(multiset(os)[Success], multiset(os)[NotFound], multiset(os)[Failed])
  {
    if os != [] {
      var init := os[..|os| - 1];
      var o := os[|os| - 1];
      assert os == init + [o];
      assert Labelled(os) == Labelled(init) + [Returned(Label(o))];
      TallyOfOutcomes(init);
    }
  }
}
