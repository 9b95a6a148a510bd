/** The link filter: turns the URLs discovered on one page into the next generation of jobs. */
module LinkFilter {
  import opened Wrappers
  import opened Text
  import opened Config

  /** Provenance of a job: a seed, or a link followed from a crawled page. */
  datatype Label = Start | Followed

  /** One unit of crawl work. */
  datatype Job = Job(url: string, depth: nat, kind: Label)

  /** A discovered entry as the filter normalises it: a string is trimmed; an entry that is not a
      string normalises to "", which the filter skips like an empty or blank string. */
  function Normalized(entry: Option<string>): (u: string)
    ensures IsTrimmed(u)
    ensures entry.None? ==> u == ""
  {
    if entry.Some? then Trim(entry.value) else ""
  }

  /** No URL occurs twice. */
  predicate Distinct(urls: seq<string>)
  {
    forall p, q :: 0 <= p < q < |urls| ==> urls[p] != urls[q]
  }

  /** The filter without its cap: the normalised, non-empty entries that are not visited, each at
      its first occurrence, in input order. */
  function Eligible(entries: seq<Option<string>>, visited: set<string>): (urls: seq<string>)
    ensures Distinct(urls)
    ensures forall k :: 0 <= k < |urls| ==> urls[k] != "" && IsTrimmed(urls[k]) && urls[k] !in visited
    ensures |urls| <= |entries|
  {
    if entries == [] then []
    else
      var before := Eligible(entries[..|entries| - 1], visited);
      var u := Normalized(entries[|entries| - 1]);
      if u == "" || u in visited || u in before then before else before + [u]
  }

  /** The first `n` elements of `s`, or all of them when there are fewer. */
  function Take<T>(s: seq<T>, n: nat): seq<T>
  {
    if n < |s| then s[..n] else s
  }

  /** Followed jobs at `depth` for `urls`, in order. */
  function FollowedJobs(urls: seq<string>, depth: nat): seq<Job>
  {
    seq(|urls|, k requires 0 <= k < |urls| => Job(urls[k], depth, Followed))
  }

  /** What `filterDiscoveredUrls` returns: nothing at or past a positive depth limit, otherwise
      the first `maxPerPage` eligible URLs as followed jobs one level deeper. */
  function Children(entries: seq<Option<string>>, maxDepth: nat, maxPerPage: nat,
                    visited: set<string>, currentDepth: nat): (jobs: seq<Job>)
    ensures |jobs| <= maxPerPage && |jobs| <= |entries|
  {
    if maxDepth > 0 && currentDepth >= maxDepth then []
    else FollowedJobs(Take(Eligible(entries, visited), maxPerPage), currentDepth + 1)
  }

  /** An entry that the filter may emit: it normalises to a non-empty, unvisited URL. */
  predicate IsEligibleAt(entries: seq<Option<string>>, visited: set<string>, i: int)
    requires 0 <= i < |entries|
  {
    Normalized(entries[i]) != "" && Normalized(entries[i]) !in visited
  }

  /** Some entry normalises to `u`. */
  predicate Occurs(entries: seq<Option<string>>, u: string)
  {
    exists i :: 0 <= i < |entries| && Normalized(entries[i]) == u
  }

  /** Occurring in all but the last entry, or in the last one. */
  lemma OccursSplit(entries: seq<Option<string>>, u: string)
    requires entries != []
    ensures Occurs(entries, u) <==>
      Occurs(entries[..|entries| - 1], u) || Normalized(entries[|entries| - 1]) == u
  {
    var init := entries[..|entries| - 1];
    if Occurs(init, u) {
      var i :| 0 <= i < |init| && Normalized(init[i]) == u;
      assert Normalized(entries[i]) == u;
    }
    if Occurs(entries, u) {
      var i :| 0 <= i < |entries| && Normalized(entries[i]) == u;
      if i < |init| {
        assert Normalized(init[i]) == u;
      }
    }
  }

  /** A URL is eligible exactly when it is non-empty, unvisited and some entry normalises to it. */
  lemma {:induction false} EligibleMembership(entries: seq<Option<string>>, visited: set<string>, u: string)
    ensures u in Eligible(entries, visited) <==> u != "" && u !in visited && Occurs(entries, u)
  {
    if entries != [] {
      EligibleMembership(entries[..|entries| - 1], visited, u);
      OccursSplit(entries, u);
    }
  }

  /** Filtering one more entry: its normalised URL is appended unless it is empty, visited or
      already emitted. */
  lemma EligibleSnoc(entries: seq<Option<string>>, visited: set<string>, i: nat)
    requires i < |entries|
    ensures var before := Eligible(entries[..i], visited);
      var u := Normalized(entries[i]);
      Eligible(entries[..i + 1], visited) ==
        if u == "" || u in visited || u in before then before else before + [u]
  {
    assert entries[..i + 1][..i] == entries[..i];
  }

  /** One more URL gives one more job. */
  lemma FollowedJobsSnoc(urls: seq<string>, u: string, depth: nat)
    ensures FollowedJobs(urls + [u], depth) == FollowedJobs(urls, depth) + [Job(u, depth, Followed)]
  {
  }

  /** Filtering a prefix of the entries gives a prefix of the result: earlier entries are never
      displaced by later ones. */
  lemma {:induction false} EligiblePrefix(entries: seq<Option<string>>, visited: set<string>, m: nat)
    requires m <= |entries|
    ensures Eligible(entries[..m], visited) <= Eligible(entries, visited)
    decreases |entries|
  {
    if m < |entries| {
      var init := entries[..|entries| - 1];
      assert init[..m] == entries[..m];
      EligiblePrefix(init, visited, m);
    } else {
      assert entries[..m] == entries;
    }
  }

  /** Input order as first occurrences: if an eligible URL `u` occurs at entry `i`, and an eligible
      URL `v` first occurs at entry `j > i`, then `u` is emitted before `v`. */
  lemma EligibleOrder(entries: seq<Option<string>>, visited: set<string>, i: nat, j: nat)
    requires i < j < |entries|
    requires IsEligibleAt(entries, visited, i) && IsEligibleAt(entries, visited, j)
    requires forall k :: 0 <= k <= i ==> Normalized(entries[k]) != Normalized(entries[j])
    ensures var urls := Eligible(entries, visited);
      exists p, q :: 0 <= p < q < |urls| && urls[p] == Normalized(entries[i]) && urls[q] == Normalized(entries[j])
  {
    var u, v := Normalized(entries[i]), Normalized(entries[j]);
    var urls := Eligible(entries, visited);
    var front := entries[..i + 1];
    var head := Eligible(front, visited);
    EligiblePrefix(entries, visited, i + 1);
    assert front[i] == entries[i];
    EligibleMembership(front, visited, u);
    EligibleMembership(front, visited, v);
    assert !Occurs(front, v) by {
      forall k | 0 <= k < |front| ensures Normalized(front[k]) != v {
        assert front[k] == entries[k];
      }
    }
    assert entries[j] == entries[j];
    EligibleMembership(entries, visited, u);
    EligibleMembership(entries, visited, v);
    var p :| 0 <= p < |head| && head[p] == u;
    var q :| 0 <= q < |urls| && urls[q] == v;
    assert forall k :: 0 <= k < |head| ==> urls[k] == head[k];
    assert v !in head;
    assert urls[p] == u && p < |head| <= q;
  }

  /** Branch bound and child shape: at most `maxPerPage` children, each one level below the
      parent and labelled FOLLOWED, so within a positive depth limit; their URLs are trimmed,
      non-empty, unvisited and pairwise distinct. */
  lemma ChildrenShape(entries: seq<Option<string>>, maxDepth: nat, maxPerPage: nat,
                      visited: set<string>, currentDepth: nat)
    ensures var jobs := Children(entries, maxDepth, maxPerPage, visited, currentDepth);
      && |jobs| <= maxPerPage
      && (maxDepth > 0 && currentDepth >= maxDepth ==> jobs == [])
      && (forall k :: 0 <= k < |jobs| ==> jobs[k].depth == currentDepth + 1 && jobs[k].kind == Followed)
      && (maxDepth > 0 ==> forall k :: 0 <= k < |jobs| ==> jobs[k].depth <= maxDepth)
      && (forall k :: 0 <= k < |jobs| ==>
            jobs[k].url != "" && IsTrimmed(jobs[k].url) && jobs[k].url !in visited)
      && (forall p, q :: 0 <= p < q < |jobs| ==> jobs[p].url != jobs[q].url)
  {
    var jobs := Children(entries, maxDepth, maxPerPage, visited, currentDepth);
    var urls := Eligible(entries, visited);
    if !(maxDepth > 0 && currentDepth >= maxDepth) {
      var kept := Take(urls, maxPerPage);
      assert forall k :: 0 <= k < |kept| ==> kept[k] == urls[k];
      assert forall k :: 0 <= k < |jobs| ==> jobs[k].url == kept[k];
    }
  }

  /** Nothing else is emitted, and below the cap nothing eligible is dropped: every child's URL
      is eligible and occurs among the entries, and when the eligible URLs number at most
      `maxPerPage`, every eligible entry yields a child. */
  lemma ChildrenComplete(entries: seq<Option<string>>, maxDepth: nat, maxPerPage: nat,
                         visited: set<string>, currentDepth: nat)
    requires !(maxDepth > 0 && currentDepth >= maxDepth)
    ensures var jobs := Children(entries, maxDepth, maxPerPage, visited, currentDepth);
      forall k :: 0 <= k < |jobs| ==> jobs[k].url !in visited && Occurs(entries, jobs[k].url)
    ensures var jobs := Children(entries, maxDepth, maxPerPage, visited, currentDepth);
      |Eligible(entries, visited)| <= maxPerPage ==>
        forall i :: 0 <= i < |entries| && IsEligibleAt(entries, visited, i) ==>
          Job(Normalized(entries[i]), currentDepth + 1, Followed) in jobs
  {
    var jobs := Children(entries, maxDepth, maxPerPage, visited, currentDepth);
    var urls := Eligible(entries, visited);
    forall k | 0 <= k < |jobs|
      ensures jobs[k].url !in visited && Occurs(entries, jobs[k].url)
    {
      assert jobs[k].url == urls[k];
      EligibleMembership(entries, visited, urls[k]);
    }
    if |urls| <= maxPerPage {
      forall i | 0 <= i < |entries| && IsEligibleAt(entries, visited, i)
        ensures Job(Normalized(entries[i]), currentDepth + 1, Followed) in jobs
      {
        var u := Normalized(entries[i]);
        EligibleMembership(entries, visited, u);
        var p :| 0 <= p < |urls| && urls[p] == u;
        assert jobs[p] == Job(u, currentDepth + 1, Followed);
      }
    }
  }

  /** With a cap of one, the only child is the first eligible entry. */
  lemma ChildrenCapOne(entries: seq<Option<string>>, maxDepth: nat, visited: set<string>,
                       currentDepth: nat, i: nat)
    requires !(maxDepth > 0 && currentDepth >= maxDepth)
    requires i < |entries| && IsEligibleAt(entries, visited, i)
    requires forall k :: 0 <= k < i ==> !IsEligibleAt(entries, visited, k)
    ensures Children(entries, maxDepth, 1, visited, currentDepth) == [Job(Normalized(entries[i]), currentDepth + 1, Followed)]
  {
    var front := entries[..i];
    var head := Eligible(front, visited);
    if head != [] {
      EligibleMembership(front, visited, head[0]);
      var k :| 0 <= k < |front| && Normalized(front[k]) == head[0];
      assert front[k] == entries[k];
      assert IsEligibleAt(entries, visited, k);
      assert false;
    }
    assert entries[..i + 1][..i] == front;
    assert entries[..i + 1][i] == entries[i];
    assert Eligible(entries[..i + 1], visited) == [Normalized(entries[i])];
    EligiblePrefix(entries, visited, i + 1);
  }

  /** Where the filter's loop stops, at the end of the entries or at the cap, what it has
      emitted is the capped result. */
  lemma FilterDone(entries: seq<Option<string>>, visited: set<string>, i: nat, maxPerPage: nat)
    requires i <= |entries| && |Eligible(entries[..i], visited)| <= maxPerPage
    requires i == |entries| || |Eligible(entries[..i], visited)| == maxPerPage
    ensures Take(Eligible(entries, visited), maxPerPage) == Eligible(entries[..i], visited)
  {
    if i < |entries| {
      EligiblePrefix(entries, visited, i);
    } else {
      assert entries[..i] == entries;
    }
  }

  /** `filterDiscoveredUrls`: a loop over the entries that stops once the cap is reached, with a
      local `seen` set for same-page duplicates. */
  method FilterDiscoveredUrls(entries: seq<Option<string>>, options: Options, visited: set<string>,
                              currentDepth: nat)
    returns (out: seq<Job>)
    ensures out == Children(entries, MaxDepthOf(options), MaxLinksPerPageOf(options), visited, currentDepth)
  {
    var maxDepth := MaxDepthOf(options);
    if maxDepth > 0 && currentDepth >= maxDepth {
      return [];
    }
    var maxPerPage := MaxLinksPerPageOf(options);
    out := [];
    var seen: set<string> := {};
    ghost var emitted: seq<string> := [];
    var i := 0;
    while i < |entries| && |out| < maxPerPage
      invariant 0 <= i <= |entries|
      invariant emitted == Eligible(entries[..i], visited)
      invariant |emitted| <= maxPerPage
      invariant out == FollowedJobs(emitted, currentDepth + 1)
      invariant forall u :: u in seen <==> u in emitted
    {
      var entry := entries[i];
      EligibleSnoc(entries, visited, i);
      var normalized := if entry.Some? && entry.value != "" then Trim(entry.value) else "";
      if normalized != "" && normalized !in visited && normalized !in seen {
        seen := seen + {normalized};
        FollowedJobsSnoc(emitted, normalized, currentDepth + 1);
        out := out + [Job(normalized, currentDepth + 1, Followed)];
        emitted := emitted + [normalized];
      }
      i := i + 1;
    }
    FilterDone(entries, visited, i, maxPerPage);
  }
}
