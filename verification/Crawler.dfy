/** The crawl orchestrator: seeding, the FIFO frontier with its visited set, per-job failure
    isolation and run statistics. The page executor is an oracle. */
module Crawler {
  import opened Wrappers
  import opened Config
  import opened Seeds
  import opened LinkFilter

  /** What executing one URL gives: it threw, or the page loaded and these entries were discovered. */
  datatype Fetch = Threw | Loaded(links: seq<Option<string>>)

  /** The record kept for a page that was executed successfully. */
  datatype PageInfo = PageInfo(loadedUrl: string, kind: Label)

  /** Run statistics. */
  datatype Stats = Stats(queued: nat, crawled: nat, failed: nat)

  /** The frontier and the run's results, as `run` holds them in local variables. */
  datatype CrawlState = CrawlState(queue: seq<Job>, visited: set<string>, results: seq<PageInfo>, stats: Stats)

  /** The one error that aborts a run. */
  datatype RunError = NoStartUrls

  /** What a completed run returns. */
  datatype RunOutput = RunOutput(results: seq<PageInfo>, stats: Stats)

  /** The page executor as an oracle: a URL it has no entry for throws. */
  function Execute(executor: map<string, Fetch>, url: string): (f: Fetch)
    ensures f.Loaded? ==> url in executor && executor[url] == f
  {
    if url in executor then executor[url] else Threw
  }

  /** The seed jobs: every start URL at depth 0, labelled START, in order. */
  function SeedJobs(urls: seq<string>): seq<Job>
  {
    seq(|urls|, k requires 0 <= k < |urls| => Job(urls[k], 0, Start))
  }

  /** The page records that a sequence of executed jobs leaves, in execution order: one for each
      job whose execution did not throw. */
  function Pages(executed: seq<Job>, executor: map<string, Fetch>): (pages: seq<PageInfo>)
    ensures |pages| <= |executed|
  {
    if executed == [] then []
    else
      var before := Pages(executed[..|executed| - 1], executor);
      var job := executed[|executed| - 1];
      if Execute(executor, job.url).Loaded? then before + [PageInfo(job.url, job.kind)] else before
  }

  /** Failure isolation: a page record exists exactly for the executed jobs that did not throw. */
  lemma {:induction false} PagesMembership(executed: seq<Job>, executor: map<string, Fetch>, page: PageInfo)
    ensures page in Pages(executed, executor) <==>
      exists p :: 0 <= p < |executed| && Execute(executor, executed[p].url).Loaded? &&
        page == PageInfo(executed[p].url, executed[p].kind)
  {
    if executed != [] {
      var init := executed[..|executed| - 1];
      PagesMembership(init, executor, page);
      if exists p :: 0 <= p < |init| && Execute(executor, init[p].url).Loaded? && page == PageInfo(init[p].url, init[p].kind) {
        var p :| 0 <= p < |init| && Execute(executor, init[p].url).Loaded? && page == PageInfo(init[p].url, init[p].kind);
        assert executed[p] == init[p];
      }
      if exists p :: 0 <= p < |executed| && Execute(executor, executed[p].url).Loaded? && page == PageInfo(executed[p].url, executed[p].kind) {
        var p :| 0 <= p < |executed| && Execute(executor, executed[p].url).Loaded? && page == PageInfo(executed[p].url, executed[p].kind);
        if p < |init| {
          assert executed[p] == init[p];
        }
      }
    }
  }

  /** The URLs of some jobs. */
  function UrlsOf(jobs: seq<Job>): set<string>
  {
    set k | 0 <= k < |jobs| :: jobs[k].url
  }

  /** No two jobs share a URL. */
  predicate DistinctUrls(jobs: seq<Job>)
  {
    forall p, q :: 0 <= p < q < |jobs| ==> jobs[p].url != jobs[q].url
  }

  /** Later jobs are never shallower. */
  predicate DepthsNondecreasing(jobs: seq<Job>)
  {
    forall p, q :: 0 <= p < q < |jobs| ==> jobs[p].depth <= jobs[q].depth
  }

  /** Every URL the executor can report, normalised as the link filter does. */
  ghost function LinkTargets(executor: map<string, Fetch>): set<string>
  {
    set u, i | u in executor && executor[u].Loaded? && 0 <= i < |executor[u].links| :: Normalized(executor[u].links[i])
  }

  /** The children a turn enqueues: the filtered links of the head job's page when the job is
      executed and its page loads, and none otherwise. */
  function TurnChildren(st: CrawlState, options: Options, executor: map<string, Fetch>): seq<Job>
    requires st.queue != []
  {
    var job := st.queue[0];
    if job.url !in st.visited && Execute(executor, job.url).Loaded? then
      Children(Execute(executor, job.url).links, MaxDepthOf(options), MaxLinksPerPageOf(options),
               st.visited + {job.url}, job.depth)
    else []
  }

  /** One turn of `run`'s loop as a function of the state: dequeue the head job; skip it if its URL
      is visited; otherwise mark it visited and execute it, then either count the failure, or record
      the page, count it and enqueue its children at the tail. */
  function Turn(st: CrawlState, options: Options, executor: map<string, Fetch>): (next: CrawlState)
    requires st.queue != []
    ensures next.visited == st.visited + {st.queue[0].url}
    ensures |st.results| <= |next.results| <= |st.results| + 1
  {
    var job := st.queue[0];
    var children := TurnChildren(st, options, executor);
    if job.url in st.visited then st.(queue := st.queue[1..])
    else if Execute(executor, job.url).Threw? then
      CrawlState(st.queue[1..], st.visited + {job.url}, st.results, st.stats.(failed := st.stats.failed + 1))
    else
      CrawlState(st.queue[1..] + children, st.visited + {job.url}, st.results + [PageInfo(job.url, job.kind)],
                 Stats(st.stats.queued + |children|, st.stats.crawled + 1, st.stats.failed))
  }

  /** What one turn does: the head leaves the queue and anything added goes behind the rest (FIFO);
      a visited job changes nothing else; an executed job is marked visited; a job that throws
      adds one failure and nothing else; a page that loads adds one record for its URL and at most
      the per-page cap of children, each one level deeper and labelled FOLLOWED. */
  lemma TurnFacts(st: CrawlState, options: Options, executor: map<string, Fetch>)
    requires st.queue != []
    ensures var next := Turn(st, options, executor);
      var job := st.queue[0];
      && |st.queue| - 1 <= |next.queue| && next.queue[..|st.queue| - 1] == st.queue[1..]
      && next.stats.queued == st.stats.queued + (|next.queue| - (|st.queue| - 1))
      && (job.url in st.visited ==>
            next.queue == st.queue[1..] && next.visited == st.visited &&
            next.results == st.results && next.stats == st.stats)
      && (job.url !in st.visited ==> next.visited == st.visited + {job.url})
      && (job.url !in st.visited && Execute(executor, job.url).Threw? ==>
            next.queue == st.queue[1..] && next.results == st.results &&
            next.stats.crawled == st.stats.crawled && next.stats.failed == st.stats.failed + 1)
      && (job.url !in st.visited && Execute(executor, job.url).Loaded? ==>
            next.results == st.results + [PageInfo(job.url, job.kind)] &&
            next.stats.crawled == st.stats.crawled + 1 && next.stats.failed == st.stats.failed &&
            |next.queue| - (|st.queue| - 1) <= MaxLinksPerPageOf(options) &&
            forall k :: |st.queue| - 1 <= k < |next.queue| ==>
              next.queue[k].depth == job.depth + 1 && next.queue[k].kind == Followed)
  {
    var job := st.queue[0];
    var next := Turn(st, options, executor);
    var rest := st.queue[1..];
    if job.url !in st.visited && Execute(executor, job.url).Loaded? {
      var children := TurnChildren(st, options, executor);
      ChildrenShape(Execute(executor, job.url).links, MaxDepthOf(options), MaxLinksPerPageOf(options),
                    st.visited + {job.url}, job.depth);
      assert next.queue == rest + children;
      assert next.queue[..|rest|] == rest;
      forall k | |rest| <= k < |next.queue|
        ensures next.queue[k].depth == job.depth + 1 && next.queue[k].kind == Followed
      {
        assert next.queue[k] == children[k - |rest|];
      }
    } else {
      assert next.queue == rest;
    }
  }

  /** `run`'s loop body: dequeue, skip or execute, record, and push the filtered children one by
      one, counting each. */
  method Step(st: CrawlState, options: Options, executor: map<string, Fetch>) returns (next: CrawlState)
    requires st.queue != []
    ensures next == Turn(st, options, executor)
  {
    var job := st.queue[0];
    var queue := st.queue[1..];
    if job.url in st.visited {
      return st.(queue := queue);
    }
    var visited := st.visited + {job.url};
    var results := st.results;
    var stats := st.stats;
    match Execute(executor, job.url) {
      case Threw =>
        stats := stats.(failed := stats.failed + 1);
      case Loaded(links) =>
        results := results + [PageInfo(job.url, job.kind)];
        stats := stats.(crawled := stats.crawled + 1);
        var newJobs := FilterDiscoveredUrls(links, options, visited, job.depth);
        var queued;
        queue, queued := Enqueue(queue, stats.queued, newJobs);
        stats := stats.(queued := queued);
    }
    next := CrawlState(queue, visited, results, stats);
  }

  /** Pushes jobs at the tail of the queue one by one, counting each as queued. */
  method Enqueue(queue: seq<Job>, queued: nat, jobs: seq<Job>) returns (queue': seq<Job>, queued': nat)
    ensures queue' == queue + jobs
    ensures queued' == queued + |jobs|
  {
    queue', queued' := queue, queued;
    var j := 0;
    while j < |jobs|
      invariant 0 <= j <= |jobs|
      invariant queue' == queue + jobs[..j]
      invariant queued' == queued + j
    {
      queue' := queue' + [jobs[j]];
      queued' := queued' + 1;
      j := j + 1;
    }
    assert jobs[..j] == jobs;
  }

  /** The ghost record a run keeps beside its state: the dequeued jobs, the executed jobs, every
      job ever enqueued, and the depth of the last dequeued job. */
  datatype Ledger = Ledger(trace: seq<Job>, executed: seq<Job>, enqueued: seq<Job>, last: nat)

  /** The ledger after one turn from `st`. */
  ghost function Advance(l: Ledger, st: CrawlState, options: Options, executor: map<string, Fetch>): Ledger
    requires st.queue != []
  {
    var job := st.queue[0];
    Ledger(l.trace + [job],
           if job.url in st.visited then l.executed else l.executed + [job],
           l.enqueued + TurnChildren(st, options, executor),
           job.depth)
  }

  /** The loop invariant of `run`. */
  ghost predicate RunInv(st: CrawlState, l: Ledger, seeds: seq<string>, maxDepth: nat,
                         universe: set<string>, executor: map<string, Fetch>)
  {
    && QueueInv(l.trace, st.queue, l.enqueued, l.last, seeds, maxDepth)
    && st.stats.queued == |l.enqueued|
    && ExecInv(st, l.trace, l.executed, executor)
    && WithinUniverse(st.queue, st.visited, universe)
  }

  /** A turn keeps the loop invariant and makes progress: either one more URL of the finite
      universe is visited, or the visited set stays and the queue shrinks. */
  lemma TurnPreserves(st: CrawlState, l: Ledger, seeds: seq<string>, options: Options,
                      universe: set<string>, executor: map<string, Fetch>)
    requires st.queue != [] && LinkTargets(executor) <= universe
    requires RunInv(st, l, seeds, MaxDepthOf(options), universe, executor)
    ensures var next := Turn(st, options, executor);
      RunInv(next, Advance(l, st, options, executor), seeds, MaxDepthOf(options), universe, executor)
    ensures var next := Turn(st, options, executor);
      || |universe - next.visited| < |universe - st.visited|
      || (next.visited == st.visited && |next.queue| < |st.queue|)
  {
    TurnKeepsQueue(st, l, seeds, options, executor);
    TurnKeepsUniverse(st, options, universe, executor);
    TurnFacts(st, options, executor);
    var next := Turn(st, options, executor);
    if st.queue[0].url in st.visited {
      ExecInvSkip(st, next, l.trace, l.executed, executor);
    } else {
      ExecInvExecute(st, next, l.trace, l.executed, executor);
    }
  }

  /** A turn keeps the frontier's shape and counts every enqueued job. */
  lemma TurnKeepsQueue(st: CrawlState, l: Ledger, seeds: seq<string>, options: Options,
                       executor: map<string, Fetch>)
    requires st.queue != []
    requires QueueInv(l.trace, st.queue, l.enqueued, l.last, seeds, MaxDepthOf(options))
    requires st.stats.queued == |l.enqueued|
    ensures var next := Turn(st, options, executor);
      var l' := Advance(l, st, options, executor);
      && QueueInv(l'.trace, next.queue, l'.enqueued, l'.last, seeds, MaxDepthOf(options))
      && next.stats.queued == |l'.enqueued|
  {
    var job := st.queue[0];
    var children := TurnChildren(st, options, executor);
    if job.url !in st.visited && Execute(executor, job.url).Loaded? {
      ChildrenShape(Execute(executor, job.url).links, MaxDepthOf(options), MaxLinksPerPageOf(options),
                    st.visited + {job.url}, job.depth);
    }
    assert Turn(st, options, executor).queue == st.queue[1..] + children;
    QueueInvStep(l.trace, st.queue, l.enqueued, l.last, seeds, MaxDepthOf(options), children);
  }

  /** A turn stays within the universe and makes progress towards exhausting it. */
  lemma TurnKeepsUniverse(st: CrawlState, options: Options, universe: set<string>,
                          executor: map<string, Fetch>)
    requires st.queue != [] && LinkTargets(executor) <= universe
    requires WithinUniverse(st.queue, st.visited, universe)
    ensures var next := Turn(st, options, executor);
      WithinUniverse(next.queue, next.visited, universe)
    ensures var next := Turn(st, options, executor);
      || |universe - next.visited| < |universe - st.visited|
      || (next.visited == st.visited && |next.queue| < |st.queue|)
  {
    var job := st.queue[0];
    var next := Turn(st, options, executor);
    var children := TurnChildren(st, options, executor);
    if job.url !in st.visited && Execute(executor, job.url).Loaded? {
      ChildrenInTargets(executor, job.url, MaxDepthOf(options), MaxLinksPerPageOf(options),
                        st.visited + {job.url}, job.depth);
    }
    assert next.queue == st.queue[1..] + children;
    UniverseStep(st.queue, children, st.visited, next.visited, universe);
    if job.url !in st.visited {
      RemainingShrinks(universe, st.visited, job.url);
    }
  }

  /** The URLs a run can ever meet: its seeds and every link target of the executor. */
  ghost function Universe(seeds: seq<string>, executor: map<string, Fetch>): set<string>
  {
    (set k | 0 <= k < |seeds| :: seeds[k]) + LinkTargets(executor)
  }

  /** The state before the first turn: the seed jobs queued and counted, nothing visited, no
      results. */
  function Seeded(seeds: seq<string>): CrawlState
  {
    CrawlState(SeedJobs(seeds), {}, [], Stats(|seeds|, 0, 0))
  }

  /** `run`'s loop as a function: turns are taken until the queue is empty, with the ledger kept
      beside the state. */
  ghost function Crawl(st: CrawlState, l: Ledger, options: Options, executor: map<string, Fetch>,
                       universe: set<string>): (final: (CrawlState, Ledger))
    requires LinkTargets(executor) <= universe && WithinUniverse(st.queue, st.visited, universe)
    ensures final.0.queue == []
    ensures st.visited <= final.0.visited && |final.0.results| >= |st.results|
    decreases |universe - st.visited|, |st.queue|
  {
    if st.queue == [] then (st, l)
    else
      TurnKeepsUniverse(st, options, universe, executor);
      Crawl(Turn(st, options, executor), Advance(l, st, options, executor), options, executor, universe)
  }

  /** A crawl from a state with a non-empty queue is the crawl from the state after one turn. */
  lemma CrawlUnfold(st: CrawlState, l: Ledger, options: Options, executor: map<string, Fetch>,
                    universe: set<string>)
    requires LinkTargets(executor) <= universe && WithinUniverse(st.queue, st.visited, universe)
    requires st.queue != []
    ensures WithinUniverse(Turn(st, options, executor).queue, Turn(st, options, executor).visited, universe)
    ensures Crawl(st, l, options, executor, universe) ==
      Crawl(Turn(st, options, executor), Advance(l, st, options, executor), options, executor, universe)
  {
    TurnKeepsUniverse(st, options, universe, executor);
  }

  /** The final state and ledger of a run from these seeds. */
  ghost function RunFinal(seeds: seq<string>, options: Options, executor: map<string, Fetch>): (CrawlState, Ledger)
  {
    SeedsInUniverse(seeds, executor);
    Crawl(Seeded(seeds), Ledger([], [], SeedJobs(seeds), 0), options, executor, Universe(seeds, executor))
  }

  /** The seed jobs lie within the universe. */
  lemma SeedsInUniverse(seeds: seq<string>, executor: map<string, Fetch>)
    ensures LinkTargets(executor) <= Universe(seeds, executor)
    ensures WithinUniverse(SeedJobs(seeds), {}, Universe(seeds, executor))
  {
    var queue := SeedJobs(seeds);
    forall k | 0 <= k < |queue| ensures queue[k].url in Universe(seeds, executor) {
      assert queue[k].url == seeds[k];
    }
  }

  /** Every turn of a crawl keeps the loop invariant, so the final state satisfies it. */
  lemma {:induction false} CrawlKeepsInv(st: CrawlState, l: Ledger, seeds: seq<string>, options: Options,
                                         universe: set<string>, executor: map<string, Fetch>)
    requires LinkTargets(executor) <= universe
    requires RunInv(st, l, seeds, MaxDepthOf(options), universe, executor)
    ensures var final := Crawl(st, l, options, executor, universe);
      RunInv(final.0, final.1, seeds, MaxDepthOf(options), universe, executor)
    decreases |universe - st.visited|, |st.queue|
  {
    if st.queue != [] {
      TurnPreserves(st, l, seeds, options, universe, executor);
      CrawlKeepsInv(Turn(st, options, executor), Advance(l, st, options, executor), seeds, options,
                    universe, executor);
    }
  }

  /** What a completed run promises about its dequeued jobs (`trace`), its executed jobs, its
      results and its counters:
      - seeding: the seeds come first, at depth 0, labelled START; all the rest are followed links;
      - every job queued was dequeued;
      - breadth-first order and the depth limit;
      - every dequeued URL is executed exactly once, by a job that was dequeued;
      - the results are the pages of the executions that did not throw, and the counters agree. */
  ghost predicate Completed(seeds: seq<string>, maxDepth: nat, trace: seq<Job>, executed: seq<Job>,
                            results: seq<PageInfo>, stats: Stats, executor: map<string, Fetch>)
  {
    && |seeds| <= |trace| && trace[..|seeds|] == SeedJobs(seeds)
    && (forall k :: |seeds| <= k < |trace| ==> trace[k].kind == Followed && trace[k].depth >= 1)
    && stats.queued == |trace|
    && DepthsNondecreasing(trace)
    && (maxDepth > 0 ==> forall k :: 0 <= k < |trace| ==> trace[k].depth <= maxDepth)
    && DistinctUrls(executed)
    && UrlsOf(executed) == UrlsOf(trace)
    && (forall p :: 0 <= p < |executed| ==> executed[p] in trace)
    && results == Pages(executed, executor)
    && stats.crawled == |results|
    && stats.crawled + stats.failed == |executed| == |UrlsOf(trace)|
  }

  /** A crawl from the seeds ends in a completed run. */
  lemma RunFinalCompleted(seeds: seq<string>, options: Options, executor: map<string, Fetch>)
    ensures var (st, l) := RunFinal(seeds, options, executor);
      Completed(seeds, MaxDepthOf(options), l.trace, l.executed, st.results, st.stats, executor)
  {
    var universe := Universe(seeds, executor);
    RunInvInit(seeds, MaxDepthOf(options), universe, executor);
    SeedsInUniverse(seeds, executor);
    CrawlKeepsInv(Seeded(seeds), Ledger([], [], SeedJobs(seeds), 0), seeds, options, universe, executor);
    var (st, l) := RunFinal(seeds, options, executor);
    RunOutcome(l.trace, l.enqueued, l.last, seeds, MaxDepthOf(options), st, l.executed, executor);
  }

  /** `run`: read the seeds, fail when there are none, otherwise crawl breadth-first until the
      queue is empty. The results and counters are those of `RunFinal`; `trace` is every dequeued
      job in dequeue order and `executed` every job handed to the executor, in order. */
  method Run(options: Options, inputFile: Option<string>, executor: map<string, Fetch>)
    returns (r: Result<RunOutput, RunError>, ghost trace: seq<Job>, ghost executed: seq<Job>)
    ensures var seeds := ReadInputUrls(inputFile, StartUrlsFallback(options));
      r.Failure? <==> seeds == []
    ensures r.Failure? ==> r.error == NoStartUrls && executed == []
    ensures r.Success? ==>
      var seeds := ReadInputUrls(inputFile, StartUrlsFallback(options));
      var (final, l) := RunFinal(seeds, options, executor);
      && r.value == RunOutput(final.results, final.stats)
      && trace == l.trace && executed == l.executed
    ensures r.Success? ==>
      Completed(ReadInputUrls(inputFile, StartUrlsFallback(options)), MaxDepthOf(options), trace, executed,
                r.value.results, r.value.stats, executor)
  {
    var startUrls := ReadInputUrls(inputFile, StartUrlsFallback(options));
    if startUrls == [] {
      return Failure(NoStartUrls), [], [];
    }

    var queue := SeedQueue(startUrls);
    var st := CrawlState(queue, {}, [], Stats(|queue|, 0, 0));
    ghost var universe := Universe(startUrls, executor);
    ghost var ledger := Ledger([], [], queue, 0);
    ghost var final := RunFinal(startUrls, options, executor);
    SeedsInUniverse(startUrls, executor);

    while st.queue != []
      invariant WithinUniverse(st.queue, st.visited, universe)
      invariant Crawl(st, ledger, options, executor, universe) == final
      decreases |universe - st.visited|, |st.queue|
    {
      TurnKeepsUniverse(st, options, universe, executor);
      ledger := Advance(ledger, st, options, executor);
      st := Step(st, options, executor);
    }
    trace, executed := ledger.trace, ledger.executed;
    RunFinalCompleted(startUrls, options, executor);
    r := Success(RunOutput(st.results, st.stats));
  }

  /** The seeding loop: one START job at depth 0 per start URL, in order. */
  method SeedQueue(startUrls: seq<string>) returns (queue: seq<Job>)
    ensures |queue| == |startUrls|
    ensures forall k :: 0 <= k < |queue| ==> queue[k] == Job(startUrls[k], 0, Start)
    ensures queue == SeedJobs(startUrls)
  {
    queue := [];
    var i := 0;
    while i < |startUrls|
      invariant 0 <= i <= |startUrls|
      invariant |queue| == i
      invariant forall k :: 0 <= k < i ==> queue[k] == Job(startUrls[k], 0, Start)
    {
      queue := queue + [Job(startUrls[i], 0, Start)];
      i := i + 1;
    }
  }

  /** When the queue is empty, the invariants give what a completed run promises. */
  lemma RunOutcome(trace: seq<Job>, enqueued: seq<Job>, last: nat, seeds: seq<string>, maxDepth: nat,
                   st: CrawlState, executed: seq<Job>, executor: map<string, Fetch>)
    requires QueueInv(trace, [], enqueued, last, seeds, maxDepth)
    requires ExecInv(st, trace, executed, executor)
    requires st.stats.queued == |enqueued|
    ensures Completed(seeds, maxDepth, trace, executed, st.results, st.stats, executor)
  {
    assert trace == enqueued;
    forall u | u in UrlsOf(executed) ensures u in UrlsOf(trace) {
      var p :| 0 <= p < |executed| && executed[p].url == u;
      var k :| 0 <= k < |trace| && trace[k] == executed[p];
    }
  }

  /** The shape of the frontier during a run: `trace` (dequeued jobs) followed by the queue is
      every job ever enqueued, seeds first; the depths along it never decrease and the queue spans
      at most two adjacent depths starting at the last dequeued one. */
  ghost predicate QueueInv(trace: seq<Job>, queue: seq<Job>, enqueued: seq<Job>, last: nat,
                           seeds: seq<string>, maxDepth: nat)
  {
    && trace + queue == enqueued
    && |seeds| <= |enqueued| && enqueued[..|seeds|] == SeedJobs(seeds)
    && (forall k :: |seeds| <= k < |enqueued| ==> enqueued[k].kind == Followed && enqueued[k].depth >= 1)
    && (maxDepth > 0 ==> forall k :: 0 <= k < |enqueued| ==> enqueued[k].depth <= maxDepth)
    && DepthsNondecreasing(enqueued)
    && (forall k :: 0 <= k < |trace| ==> trace[k].depth <= last)
    && (forall k :: 0 <= k < |queue| ==> last <= queue[k].depth <= last + 1)
  }

  /** The seeded queue has the frontier's shape. */
  lemma QueueInvInit(seeds: seq<string>, maxDepth: nat)
    ensures QueueInv([], SeedJobs(seeds), SeedJobs(seeds), 0, seeds, maxDepth)
  {
    assert SeedJobs(seeds)[..|seeds|] == SeedJobs(seeds);
  }

  /** The seeded state satisfies the loop invariant of `run`. */
  lemma RunInvInit(seeds: seq<string>, maxDepth: nat, universe: set<string>, executor: map<string, Fetch>)
    requires universe == Universe(seeds, executor)
    ensures RunInv(Seeded(seeds), Ledger([], [], SeedJobs(seeds), 0), seeds, maxDepth, universe, executor)
  {
    QueueInvInit(seeds, maxDepth);
    SeedsInUniverse(seeds, executor);
  }

  /** Dequeuing the head and appending its children one level deeper keeps the frontier's shape. */
  lemma QueueInvStep(trace: seq<Job>, queue: seq<Job>, enqueued: seq<Job>, last: nat,
                     seeds: seq<string>, maxDepth: nat, children: seq<Job>)
    requires QueueInv(trace, queue, enqueued, last, seeds, maxDepth) && queue != []
    requires forall k :: 0 <= k < |children| ==>
      children[k].depth == queue[0].depth + 1 && children[k].kind == Followed
    requires maxDepth > 0 ==> forall k :: 0 <= k < |children| ==> children[k].depth <= maxDepth
    ensures QueueInv(trace + [queue[0]], queue[1..] + children, enqueued + children, queue[0].depth, seeds, maxDepth)
  {
    var job := queue[0];
    var all := enqueued + children;
    assert (trace + [job]) + (queue[1..] + children) == all;
    assert all[..|seeds|] == enqueued[..|seeds|];
    assert forall k :: 0 <= k < |enqueued| ==> enqueued[k].depth <= job.depth + 1 by {
      forall k | 0 <= k < |enqueued| ensures enqueued[k].depth <= job.depth + 1 {
        if k < |trace| {
          assert enqueued[k] == trace[k];
        } else {
          assert enqueued[k] == queue[k - |trace|];
        }
      }
    }
    forall p, q | 0 <= p < q < |all| ensures all[p].depth <= all[q].depth {
      if q >= |enqueued| {
        assert all[q] == children[q - |enqueued|];
        if p >= |enqueued| {
          assert all[p] == children[p - |enqueued|];
        }
      }
    }
    forall k | 0 <= k < |trace| + 1 ensures (trace + [job])[k].depth <= job.depth {
      if k < |trace| {
        assert enqueued[k] == trace[k] && enqueued[|trace|] == job;
      }
    }
    assert forall k :: 0 <= k < |queue| ==> job.depth <= queue[k].depth by {
      forall k | 0 <= k < |queue| ensures job.depth <= queue[k].depth {
        assert enqueued[|trace|] == job && enqueued[|trace| + k] == queue[k];
      }
    }
  }

  /** What the executed jobs account for: the page records, the counters and the visited set. */
  ghost predicate ExecInv(st: CrawlState, trace: seq<Job>, executed: seq<Job>, executor: map<string, Fetch>)
  {
    && st.results == Pages(executed, executor)
    && st.stats.crawled == |st.results|
    && st.stats.crawled + st.stats.failed == |executed| == |st.visited|
    && DistinctUrls(executed) && st.visited == UrlsOf(executed)
    && UrlsOf(trace) <= st.visited
    && (forall p :: 0 <= p < |executed| ==> executed[p] in trace)
  }

  /** A skipped job changes none of the accounting. */
  lemma ExecInvSkip(st: CrawlState, next: CrawlState, trace: seq<Job>, executed: seq<Job>,
                    executor: map<string, Fetch>)
    requires ExecInv(st, trace, executed, executor) && st.queue != []
    requires st.queue[0].url in st.visited
    requires next.visited == st.visited && next.results == st.results && next.stats.crawled == st.stats.crawled
    requires next.stats.failed == st.stats.failed
    ensures ExecInv(next, trace + [st.queue[0]], executed, executor)
  {
    UrlsOfAppend(trace, st.queue[0]);
  }

  /** An executed job is recorded once, with a page record exactly when it did not throw. */
  lemma ExecInvExecute(st: CrawlState, next: CrawlState, trace: seq<Job>, executed: seq<Job>,
                       executor: map<string, Fetch>)
    requires ExecInv(st, trace, executed, executor) && st.queue != []
    requires st.queue[0].url !in st.visited
    requires next.visited == st.visited + {st.queue[0].url}
    requires next.results == st.results +
      (if Execute(executor, st.queue[0].url).Loaded? then [PageInfo(st.queue[0].url, st.queue[0].kind)] else [])
    requires next.stats.crawled + next.stats.failed == st.stats.crawled + st.stats.failed + 1
    requires next.stats.crawled == st.stats.crawled + |next.results| - |st.results|
    ensures ExecInv(next, trace + [st.queue[0]], executed + [st.queue[0]], executor)
  {
    var job := st.queue[0];
    UrlsOfAppend(trace, job);
    UrlsOfAppend(executed, job);
    PagesAppend(executed, job, executor);
    DistinctAppend(executed, job);
    ExecutedInTrace(executed, trace, job);
  }

  /** Executing one more job adds a page record exactly when it does not throw. */
  lemma PagesAppend(executed: seq<Job>, job: Job, executor: map<string, Fetch>)
    ensures Pages(executed + [job], executor) ==
      Pages(executed, executor) + (if Execute(executor, job.url).Loaded? then [PageInfo(job.url, job.kind)] else [])
  {
    assert (executed + [job])[..|executed|] == executed;
  }

  /** A job with a new URL keeps the URLs distinct. */
  lemma DistinctAppend(executed: seq<Job>, job: Job)
    requires DistinctUrls(executed) && job.url !in UrlsOf(executed)
    ensures DistinctUrls(executed + [job])
  {
    var done := executed + [job];
    forall p, q | 0 <= p < q < |done| ensures done[p].url != done[q].url {
      if q == |executed| {
        assert done[p] == executed[p];
        assert executed[p].url in UrlsOf(executed);
      } else {
        assert done[p] == executed[p] && done[q] == executed[q];
      }
    }
  }

  /** Executed jobs stay among the dequeued ones when the job just dequeued is executed. */
  lemma ExecutedInTrace(executed: seq<Job>, trace: seq<Job>, job: Job)
    requires forall p :: 0 <= p < |executed| ==> executed[p] in trace
    ensures forall p :: 0 <= p < |executed| + 1 ==> (executed + [job])[p] in trace + [job]
  {
    forall p | 0 <= p < |executed| + 1 ensures (executed + [job])[p] in trace + [job] {
      if p < |executed| {
        assert (executed + [job])[p] == executed[p];
      }
    }
  }

  /** Every queued and every visited URL lies in a finite universe. */
  ghost predicate WithinUniverse(queue: seq<Job>, visited: set<string>, universe: set<string>)
  {
    && visited <= universe
    && forall k :: 0 <= k < |queue| ==> queue[k].url in universe
  }

  /** Dequeuing the head, possibly visiting it, and appending children from the universe stays
      within the universe. */
  lemma UniverseStep(queue: seq<Job>, children: seq<Job>, visited: set<string>, visited': set<string>,
                     universe: set<string>)
    requires WithinUniverse(queue, visited, universe) && queue != []
    requires forall k :: 0 <= k < |children| ==> children[k].url in universe
    requires visited' == visited || visited' == visited + {queue[0].url}
    ensures WithinUniverse(queue[1..] + children, visited', universe)
  {
    var rest := queue[1..] + children;
    forall k | 0 <= k < |rest| ensures rest[k].url in universe {
      if k < |queue| - 1 {
        assert rest[k] == queue[k + 1];
      } else {
        assert rest[k] == children[k - |queue| + 1];
      }
    }
  }

  /** Visiting one more URL of a finite universe leaves fewer of it unvisited. */
  lemma RemainingShrinks<T>(universe: set<T>, visited: set<T>, x: T)
    requires x in universe && x !in visited
    ensures |universe - (visited + {x})| < |universe - visited|
  {
    assert universe - (visited + {x}) == (universe - visited) - {x};
  }

  /** Appending a job adds its URL to the URL set. */
  lemma UrlsOfAppend(jobs: seq<Job>, job: Job)
    ensures UrlsOf(jobs + [job]) == UrlsOf(jobs) + {job.url}
  {
    var all := jobs + [job];
    assert all[|jobs|] == job;
    forall u | u in UrlsOf(jobs) ensures u in UrlsOf(all) {
      var k :| 0 <= k < |jobs| && jobs[k].url == u;
      assert all[k] == jobs[k];
    }
  }

  /** Every child the filter emits for a loaded page is one of the executor's link targets. */
  lemma ChildrenInTargets(executor: map<string, Fetch>, url: string, maxDepth: nat, maxPerPage: nat,
                          visited: set<string>, depth: nat)
    requires Execute(executor, url).Loaded?
    ensures var jobs := Children(Execute(executor, url).links, maxDepth, maxPerPage, visited, depth);
      forall k :: 0 <= k < |jobs| ==> jobs[k].url in LinkTargets(executor)
  {
    var links := Execute(executor, url).links;
    var jobs := Children(links, maxDepth, maxPerPage, visited, depth);
    if !(maxDepth > 0 && depth >= maxDepth) {
      ChildrenComplete(links, maxDepth, maxPerPage, visited, depth);
      forall k | 0 <= k < |jobs| ensures jobs[k].url in LinkTargets(executor) {
        var i :| 0 <= i < |links| && Normalized(links[i]) == jobs[k].url;
        assert executor[url].links[i] == links[i];
      }
    }
  }
}
