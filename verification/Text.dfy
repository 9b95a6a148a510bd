/** String helpers used by the crawler: whitespace trimming and line splitting. */
module Text {

  /** The characters the model's `trim` removes: ASCII whitespace
      (space, tab, line feed, vertical tab, form feed, carriage return). */
  predicate IsSpace(c: char) {
    c == ' ' || c == '\t' || c == '\n' || c == '\U{0B}' || c == '\U{0C}' || c == '\r'
  }

  /** Every character is whitespace. */
  predicate AllSpace(s: string)
  {
    forall k :: 0 <= k < |s| ==> IsSpace(s[k])
  }

  /** A string with no whitespace at either end. */
  predicate IsTrimmed(s: string) {
    s == [] || (!IsSpace(s[0]) && !IsSpace(s[|s| - 1]))
  }

  /** The first index at or after `i` that does not hold whitespace, or `|s|`. */
  function SkipSpace(s: string, i: nat): (j: nat)
    requires i <= |s|
    ensures i <= j <= |s|
    ensures j < |s| ==> !IsSpace(s[j])
    decreases |s| - i
  {
    if i < |s| && IsSpace(s[i]) then SkipSpace(s, i + 1) else i
  }

  /** The end of `s[lo..j]` once trailing whitespace is dropped. */
  function SkipSpaceBack(s: string, lo: nat, j: nat): (k: nat)
    requires lo <= j <= |s|
    ensures lo <= k <= j
    ensures k > lo ==> !IsSpace(s[k - 1])
  {
    if j > lo && IsSpace(s[j - 1]) then SkipSpaceBack(s, lo, j - 1) else j
  }

  /** What `SkipSpace` passes over is whitespace. */
  lemma {:induction false} SkipSpaceSkipsSpace(s: string, i: nat)
    requires i <= |s|
    ensures forall k :: i <= k < SkipSpace(s, i) ==> IsSpace(s[k])
    decreases |s| - i
  {
    if i < |s| && IsSpace(s[i]) {
      SkipSpaceSkipsSpace(s, i + 1);
    }
  }

  /** What `SkipSpaceBack` passes over is whitespace. */
  lemma {:induction false} SkipSpaceBackSkipsSpace(s: string, lo: nat, j: nat)
    requires lo <= j <= |s|
    ensures forall k :: SkipSpaceBack(s, lo, j) <= k < j ==> IsSpace(s[k])
  {
    if j > lo && IsSpace(s[j - 1]) {
      SkipSpaceBackSkipsSpace(s, lo, j - 1);
    }
  }

  /** `String.prototype.trim`, restricted to ASCII whitespace. */
  function Trim(s: string): (r: string)
    ensures IsTrimmed(r)
    ensures IsTrimmed(s) ==> r == s
  {
    var i := SkipSpace(s, 0);
    var j := SkipSpaceBack(s, i, |s|);
    assert j > i ==> s[i..j][0] == s[i] && s[i..j][j - i - 1] == s[j - 1];
    s[i..j]
  }

  /** What `trim` keeps is the slice `s[i..j]` of the input, and everything before `i` and from
      `j` on is whitespace. */
  lemma TrimIsSlice(s: string)
    ensures var i := SkipSpace(s, 0);
      var j := SkipSpaceBack(s, i, |s|);
      && Trim(s) == s[i..j]
      && (forall k :: 0 <= k < i ==> IsSpace(s[k]))
      && (forall k :: j <= k < |s| ==> IsSpace(s[k]))
  {
    var i := SkipSpace(s, 0);
    SkipSpaceSkipsSpace(s, 0);
    SkipSpaceBackSkipsSpace(s, i, |s|);
  }

  /** Trimming gives the empty string exactly when the input is all whitespace. */
  lemma TrimEmpty(s: string)
    ensures Trim(s) == [] <==> AllSpace(s)
  {
    var i := SkipSpace(s, 0);
    TrimIsSlice(s);
    if Trim(s) != [] {
      assert !IsSpace(s[i]);
    }
  }

  /** Trimming twice is trimming once. */
  lemma TrimIdempotent(s: string)
    ensures Trim(Trim(s)) == Trim(s)
  {
  }

  /** Splits at every line feed; the pieces never contain a line feed. */
  function SplitLines(s: string): (lines: seq<string>)
    ensures |lines| >= 1
    ensures forall k :: 0 <= k < |lines| ==> '\n' !in lines[k]
  {
    if s == [] then [""]
    else
      var rest := SplitLines(s[1..]);
      if s[0] == '\n' then [""] + rest
      else [[s[0]] + rest[0]] + rest[1..]
  }

  /** Joins lines with a line feed between each two. */
  function JoinLines(lines: seq<string>): string
  {
    if lines == [] then ""
    else if |lines| == 1 then lines[0]
    else lines[0] + "\n" + JoinLines(lines[1..])
  }

  /** Splitting loses nothing: joining the pieces gives back the input. */
  lemma {:induction false} JoinSplitLines(s: string)
    ensures JoinLines(SplitLines(s)) == s
  {
    if s != [] {
      var rest := SplitLines(s[1..]);
      JoinSplitLines(s[1..]);
      if s[0] == '\n' {
        assert SplitLines(s) == [""] + rest;
        assert ([""] + rest)[1..] == rest;
      } else {
        var lines := SplitLines(s);
        assert lines == [[s[0]] + rest[0]] + rest[1..];
        if |rest| == 1 {
          assert JoinLines(lines) == [s[0]] + rest[0];
        } else {
          assert lines[1..] == rest[1..];
          assert JoinLines(rest) == rest[0] + "\n" + JoinLines(rest[1..]);
          assert JoinLines(lines) == [s[0]] + rest[0] + "\n" + JoinLines(rest[1..]);
        }
      }
    }
  }

  /** Removes one carriage return at the end, if there is one. */
  function DropCarriageReturn(line: string): string
  {
    if line != [] && line[|line| - 1] == '\r' then line[..|line| - 1] else line
  }

  /** The carriage returns that belong to separators, dropped: every piece but the last was
      followed by a line feed, and a carriage return that ends it was part of that separator. */
  function DropSeparatorCrs(pieces: seq<string>): (lines: seq<string>)
    ensures |lines| == |pieces|
  {
    seq(|pieces|, k requires 0 <= k < |pieces| =>
      if k < |pieces| - 1 then DropCarriageReturn(pieces[k]) else pieces[k])
  }

  /** `split(/\r?\n/)`: a separator is a line feed with an optional carriage return before it,
      so every piece but the last loses a carriage return that ends it. */
  function SplitLinesCrLf(s: string): (lines: seq<string>)
    ensures |lines| == |SplitLines(s)|
    ensures forall k :: 0 <= k < |lines| ==> '\n' !in lines[k]
    ensures lines[|lines| - 1] == SplitLines(s)[|lines| - 1]
  {
    DropSeparatorCrs(SplitLines(s))
  }

  /** The separator that `/\r?\n/` matches after a piece of the line-feed split: "\r\n" when the
      piece ends with a carriage return, "\n" otherwise. */
  function Separator(piece: string): string
  {
    if piece != [] && piece[|piece| - 1] == '\r' then "\r\n" else "\n"
  }

  /** The separators after each piece but the last. */
  function SeparatorsOf(pieces: seq<string>): (seps: seq<string>)
    requires |pieces| >= 1
    ensures |seps| == |pieces| - 1
  {
    seq(|pieces| - 1, k requires 0 <= k < |pieces| - 1 => Separator(pieces[k]))
  }

  /** The separators `split(/\r?\n/)` matches in `s`, in order. */
  function Separators(s: string): seq<string>
  {
    SeparatorsOf(SplitLines(s))
  }

  /** Interleaves pieces with separators. */
  function JoinWith(lines: seq<string>, seps: seq<string>): string
    requires |lines| == |seps| + 1
    decreases |seps|
  {
    if seps == [] then lines[0] else lines[0] + seps[0] + JoinWith(lines[1..], seps[1..])
  }

  /** Dropping separator carriage returns and putting them back into the separators rebuilds the
      line-feed join. */
  lemma {:induction false} JoinDropped(pieces: seq<string>)
    requires |pieces| >= 1
    ensures JoinWith(DropSeparatorCrs(pieces), SeparatorsOf(pieces)) == JoinLines(pieces)
    decreases |pieces|
  {
    var lines, seps := DropSeparatorCrs(pieces), SeparatorsOf(pieces);
    if |pieces| > 1 {
      var rest := pieces[1..];
      assert lines[1..] == DropSeparatorCrs(rest);
      assert seps[1..] == SeparatorsOf(rest);
      JoinDropped(rest);
      assert lines[0] + seps[0] == pieces[0] + "\n";
      calc {
        JoinWith(lines, seps);
        lines[0] + seps[0] + JoinWith(lines[1..], seps[1..]);
        (pieces[0] + "\n") + JoinLines(rest);
        JoinLines(pieces);
      }
    }
  }

  /** `split(/\r?\n/)` completes a round trip, and the separators are the ones the regular
      expression matches: each is "\n" or "\r\n", and a bare "\n" never follows a carriage
      return, which the leftmost match would have taken into the separator. */
  lemma SplitLinesCrLfRoundTrip(s: string)
    ensures var lines, seps := SplitLinesCrLf(s), Separators(s);
      && |seps| == |lines| - 1
      && (forall k :: 0 <= k < |seps| ==> seps[k] == "\n" || seps[k] == "\r\n")
      && (forall k :: 0 <= k < |seps| && seps[k] == "\n" ==> lines[k] == [] || lines[k][|lines[k]| - 1] != '\r')
      && JoinWith(lines, seps) == s
  {
    JoinDropped(SplitLines(s));
    JoinSplitLines(s);
  }
}
