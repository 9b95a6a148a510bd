/** Concrete runs of the link filter and of loop turns. */
module Scenarios {
  import opened Wrappers
  import opened Text
  import opened Config
  import opened LinkFilter
  import opened Crawler

  /** A seed page that repeats a link: with a depth limit of 1 and the default cap, the seed's page
      yields each distinct link once, one level deeper, and those children yield nothing. */
  lemma DuplicateLinksOnSeedPage()
    ensures var links := [Some("http://b.test"), Some("http://b.test"), Some("http://c.test")];
      && Children(links, 1, 10, {"http://a.test"}, 0) ==
           [Job("http://b.test", 1, Followed), Job("http://c.test", 1, Followed)]
      && Children(links, 1, 10, {"http://a.test", "http://b.test"}, 1) == []
  {
    var links := [Some("http://b.test"), Some("http://b.test"), Some("http://c.test")];
    assert Trim("http://b.test") == "http://b.test";
    assert Trim("http://c.test") == "http://c.test";
    assert links[..2][..1] == links[..1];
    assert links[..1][..0] == [];
    assert links[..2] == links[..2][..1] + [links[1]];
    assert Eligible(links[..1], {"http://a.test"}) == ["http://b.test"];
    assert Eligible(links[..2], {"http://a.test"}) == ["http://b.test"];
    assert Eligible(links, {"http://a.test"}) == ["http://b.test", "http://c.test"];
  }

  /** A cap of one with five discovered links: exactly one child, the first link. */
  lemma CapOneKeepsFirstLink()
    ensures var links := [Some("http://b.test"), Some("http://c.test"), Some("http://d.test"),
                          Some("http://e.test"), Some("http://f.test")];
      Children(links, 0, 1, {"http://a.test"}, 0) == [Job("http://b.test", 1, Followed)]
  {
    var links := [Some("http://b.test"), Some("http://c.test"), Some("http://d.test"),
                  Some("http://e.test"), Some("http://f.test")];
    assert Trim("http://b.test") == "http://b.test";
    ChildrenCapOne(links, 0, {"http://a.test"}, 0, 0);
  }

  /** A job whose execution throws is counted as one failure and leaves no record, and the job
      queued after it is still executed and recorded. */
  lemma ThrowingJobIsIsolated()
    ensures var executor := map["http://ok.test" := Loaded([])];
      var st := CrawlState([Job("http://bad.test", 1, Followed), Job("http://ok.test", 1, Followed)],
                           {"http://a.test"}, [PageInfo("http://a.test", Start)], Stats(3, 1, 0));
      var st1 := Turn(st, map[], executor);
      && st1.stats == Stats(3, 1, 1)
      && st1.results == st.results
      && st1.queue == [Job("http://ok.test", 1, Followed)]
      && Turn(st1, map[], executor).results ==
           [PageInfo("http://a.test", Start), PageInfo("http://ok.test", Followed)]
      && Turn(st1, map[], executor).stats == Stats(3, 2, 1)
  {
  }

  /** The executor of the two-page run: page a links to page b, which links nowhere. */
  function TwoPages(): map<string, Fetch>
  {
    map["http://a.test" := Loaded([Some("http://b.test")]), "http://b.test" := Loaded([])]
  }

  /** The first turn of the two-page run crawls a and queues b. */
  lemma TwoPagesFirstTurn()
    ensures Turn(Seeded(["http://a.test"]), map[], TwoPages()) == AfterA()
  {
    var links := [Some("http://b.test")];
    assert Trim("http://b.test") == "http://b.test";
    assert links[..0] == [];
    assert Eligible(links, {"http://a.test"}) == ["http://b.test"];
    assert Children(links, 0, 10, {"http://a.test"}, 0) == [Job("http://b.test", 1, Followed)];
    assert TurnChildren(Seeded(["http://a.test"]), map[], TwoPages()) == [Job("http://b.test", 1, Followed)];
  }

  /** The second turn of the two-page run crawls b and queues nothing. */
  lemma TwoPagesSecondTurn()
    ensures Turn(AfterA(), map[], TwoPages()) ==
      CrawlState([], {"http://a.test", "http://b.test"},
                 [PageInfo("http://a.test", Start), PageInfo("http://b.test", Followed)], Stats(2, 2, 0))
  {
    assert TurnChildren(AfterA(), map[], TwoPages()) == [];
  }

  /** The state after the first turn of the two-page run. */
  function AfterA(): CrawlState
  {
    CrawlState([Job("http://b.test", 1, Followed)], {"http://a.test"}, [PageInfo("http://a.test", Start)], Stats(2, 1, 0))
  }

  /** From the state after the first turn, the crawl takes one more turn, for b, and stops. */
  lemma TwoPagesRest(l: Ledger)
    requires WithinUniverse(AfterA().queue, AfterA().visited, Universe(["http://a.test"], TwoPages()))
    ensures var (final, l') := Crawl(AfterA(), l, map[], TwoPages(), Universe(["http://a.test"], TwoPages()));
      && final.results == [PageInfo("http://a.test", Start), PageInfo("http://b.test", Followed)]
      && final.stats == Stats(2, 2, 0)
      && l'.trace == l.trace + [Job("http://b.test", 1, Followed)]
  {
    var universe := Universe(["http://a.test"], TwoPages());
    SeedsInUniverse(["http://a.test"], TwoPages());
    TwoPagesSecondTurn();
    CrawlUnfold(AfterA(), l, map[], TwoPages(), universe);
  }

  /** A run from one seed whose page links to a second page crawls both, the link one level
      deeper and labelled FOLLOWED. */
  lemma LinkFromSeedIsCrawled()
    ensures var (final, l) := RunFinal(["http://a.test"], map[], TwoPages());
      && final.results == [PageInfo("http://a.test", Start), PageInfo("http://b.test", Followed)]
      && final.stats == Stats(2, 2, 0)
      && l.trace == [Job("http://a.test", 0, Start), Job("http://b.test", 1, Followed)]
  {
    var seeds := ["http://a.test"];
    var universe := Universe(seeds, TwoPages());
    var l0 := Ledger([], [], SeedJobs(seeds), 0);
    SeedsInUniverse(seeds, TwoPages());
    TwoPagesFirstTurn();
    CrawlUnfold(Seeded(seeds), l0, map[], TwoPages(), universe);
    TwoPagesRest(Advance(l0, Seeded(seeds), map[], TwoPages()));
  }
}
