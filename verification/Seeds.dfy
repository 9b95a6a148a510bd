/** Reading the seed list: one URL per line of the input file, with a fallback list. */
module Seeds {
  import opened Wrappers
  import opened Text

  /** A trimmed line is kept when it is non-empty and does not start with '#'. */
  predicate KeepLine(line: string)
    ensures line == [] || line[0] == '#' ==> !KeepLine(line)
  {
    |line| > 0 && line[0] != '#'
  }

  /** The map-trim / filter chain over the file's lines. */
  function ParseSeedLines(lines: seq<string>): (urls: seq<string>)
    ensures |urls| <= |lines|
    ensures forall k :: 0 <= k < |urls| ==> IsTrimmed(urls[k]) && KeepLine(urls[k])
  {
    if lines == [] then []
    else
      var t := Trim(lines[0]);
      (if KeepLine(t) then [t] else []) + ParseSeedLines(lines[1..])
  }

  /** The parse works line by line and keeps file order: parsing two blocks of lines one after
      the other is parsing their concatenation. */
  lemma {:induction false} ParseSeedLinesAppend(a: seq<string>, b: seq<string>)
    ensures ParseSeedLines(a + b) == ParseSeedLines(a) + ParseSeedLines(b)
  {
    if a == [] {
      assert a + b == b;
    } else {
      assert (a + b)[0] == a[0];
      assert (a + b)[1..] == a[1..] + b;
      ParseSeedLinesAppend(a[1..], b);
    }
  }

  /** A URL is returned exactly when some line trims to it and the trimmed line is kept. */
  lemma {:induction false} ParseSeedLinesMembership(lines: seq<string>, u: string)
    ensures u in ParseSeedLines(lines) <==> KeepLine(u) && exists k :: 0 <= k < |lines| && Trim(lines[k]) == u
  {
    if lines != [] {
      ParseSeedLinesMembership(lines[1..], u);
      if u in ParseSeedLines(lines[1..]) {
        var k :| 0 <= k < |lines[1..]| && Trim(lines[1..][k]) == u;
        assert Trim(lines[k + 1]) == u;
      }
      if KeepLine(u) && (exists k :: 0 <= k < |lines| && Trim(lines[k]) == u) {
        var k :| 0 <= k < |lines| && Trim(lines[k]) == u;
        if k > 0 {
          assert Trim(lines[1..][k - 1]) == u;
        }
      }
    }
  }

  /** The URLs the seed file yields, given its contents. */
  function FileSeeds(content: string): (urls: seq<string>)
    ensures |urls| <= |SplitLines(content)|
    ensures forall k :: 0 <= k < |urls| ==> IsTrimmed(urls[k]) && KeepLine(urls[k])
  {
    ParseSeedLines(SplitLinesCrLf(content))
  }

  /** `readInputUrls`: `file` is the file's contents, `None` when it cannot be read; `fallback` is
      the fallback value, `None` when it is not an array. The file's URLs are used when there are
      any; otherwise the fallback array, copied; otherwise the empty list. */
  function ReadInputUrls(file: Option<string>, fallback: Option<seq<string>>): (urls: seq<string>)
    ensures file.Some? && FileSeeds(file.value) != [] ==> urls == FileSeeds(file.value)
    ensures (file.None? || FileSeeds(file.value) == []) ==> urls == (if fallback.Some? then fallback.value else [])
    ensures urls == [] ==> fallback.None? || fallback.value == []
  {
    var fromFile := if file.Some? then FileSeeds(file.value) else [];
    if fromFile == [] && fallback.Some? then fallback.value else fromFile
  }

  /** When the file yields URLs, every returned URL is trimmed, non-empty and not a comment, and
      each comes from some line of the file. */
  lemma ReadInputUrlsFromFile(content: string, fallback: Option<seq<string>>)
    requires FileSeeds(content) != []
    ensures var urls := ReadInputUrls(Some(content), fallback);
      forall k :: 0 <= k < |urls| ==>
        IsTrimmed(urls[k]) && KeepLine(urls[k]) &&
        exists j :: 0 <= j < |SplitLinesCrLf(content)| && Trim(SplitLinesCrLf(content)[j]) == urls[k]
  {
    var urls := ReadInputUrls(Some(content), fallback);
    forall k | 0 <= k < |urls|
      ensures exists j :: 0 <= j < |SplitLinesCrLf(content)| && Trim(SplitLinesCrLf(content)[j]) == urls[k]
    {
      ParseSeedLinesMembership(SplitLinesCrLf(content), urls[k]);
    }
  }

  /** A missing file, or one holding only blank and comment lines, gives the fallback unchanged. */
  lemma {:induction false} ReadInputUrlsFallback(content: Option<string>, fallback: seq<string>)
    requires content.Some? ==> forall j :: 0 <= j < |SplitLinesCrLf(content.value)| ==>
      !KeepLine(Trim(SplitLinesCrLf(content.value)[j]))
    ensures ReadInputUrls(content, Some(fallback)) == fallback
  {
    if content.Some? {
      var lines := SplitLinesCrLf(content.value);
      if FileSeeds(content.value) != [] {
        var u := FileSeeds(content.value)[0];
        ParseSeedLinesMembership(lines, u);
      }
    }
  }
}
