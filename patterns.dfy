/** The matchers a backtrace formatter holds in its exclusion and inclusion
    lists, and what it means for a line to match one of them. */
module Patterns {
  import opened Text

  /** The path separator (`File::SEPARATOR` on a POSIX system). */
  const Separator: char := '/'

  datatype Pattern =
    /** A regular expression whose source is plain text, such as `/discard/`. */
    | Literal(text: string)
    /** The working directory as a pattern, compared with the directory
        current at the moment a line is tested, not when it was added. */
    | WorkingDirectory
    /** The pattern `filter_gem(name)` adds: `/name(-[^/]+)?/`, a path
        component `name`, optionally followed by `-` and a version or hash. */
    | GemDirectory(name: string)

  /** At index `j` of `line`, right after the gem name, stands either a
      separator or `-`, at least one non-separator character and a separator. */
  predicate GemSuffixAt(line: string, j: int)
  {
    0 <= j < |line| &&
    (line[j] == Separator ||
     (line[j] == '-' && j + 1 < |line| && line[j + 1] != Separator && Separator in line[j + 1..]))
  }

  /** The gem-directory pattern for `name` matches `line` starting at `i`. */
  predicate GemDirectoryAt(line: string, name: string, i: int)
  {
    OccursAt(line, [Separator] + name, i) && GemSuffixAt(line, i + 1 + |name|)
  }

  /** Leftmost index at or after `from` where the gem-directory pattern
      for `name` matches `line`. */
  function FindGemDirectory(line: string, name: string, from: nat): (r: Option<nat>)
    ensures r.Some? ==> from <= r.value && GemDirectoryAt(line, name, r.value)
    ensures r.Some? ==> forall i :: from <= i < r.value ==> !GemDirectoryAt(line, name, i)
    ensures r.None? ==> forall i :: from <= i ==> !GemDirectoryAt(line, name, i)
    decreases |line| - from
  {
    var next := IndexOf(line, [Separator] + name, from);
    if next.None? then None
    else if GemSuffixAt(line, next.value + 1 + |name|) then next
    else
      assert !GemDirectoryAt(line, name, next.value);
      FindGemDirectory(line, name, next.value + 1)
  }

  /** `line =~ p`, with `cwd` the working directory at the time of the call. */
  predicate Matches(p: Pattern, line: string, cwd: string)
  {
    match p
    case Literal(text) => Contains(line, text)
    case WorkingDirectory => Contains(line, cwd)
    case GemDirectory(name) => FindGemDirectory(line, name, 0).Some?
  }

  /** A pattern matches a line exactly when it matches at some position of
      it, independently of where the search starts or stops. */
  lemma MatchesSomewhere(p: Pattern, line: string, cwd: string)
    ensures p.Literal? ==> (Matches(p, line, cwd) <==> exists i :: OccursAt(line, p.text, i))
    ensures p.WorkingDirectory? ==> (Matches(p, line, cwd) <==> exists i :: OccursAt(line, cwd, i))
    ensures p.GemDirectory? ==> (Matches(p, line, cwd) <==> exists i :: GemDirectoryAt(line, p.name, i))
  {
  }

  /** `patterns.any? { |p| line =~ p }`. */
  function AnyMatches(patterns: seq<Pattern>, line: string, cwd: string): (r: bool)
    ensures r <==> exists k :: 0 <= k < |patterns| && Matches(patterns[k], line, cwd)
  {
    if patterns == [] then false
    else if Matches(patterns[0], line, cwd) then true
    else
      assert forall k :: 1 <= k < |patterns| ==> patterns[k] == patterns[1..][k - 1];
      AnyMatches(patterns[1..], line, cwd)
  }

  /** Matching against a list that was extended: the old list or the new part. */
  lemma AnyMatchesAppend(ps: seq<Pattern>, qs: seq<Pattern>, line: string, cwd: string)
    ensures AnyMatches(ps + qs, line, cwd) <==> AnyMatches(ps, line, cwd) || AnyMatches(qs, line, cwd)
  {
    if AnyMatches(qs, line, cwd) {
      var k :| 0 <= k < |qs| && Matches(qs[k], line, cwd);
      assert (ps + qs)[|ps| + k] == qs[k];
    }
    if AnyMatches(ps, line, cwd) {
      var k :| 0 <= k < |ps| && Matches(ps[k], line, cwd);
      assert (ps + qs)[k] == ps[k];
    }
    if AnyMatches(ps + qs, line, cwd) && !AnyMatches(ps, line, cwd) {
      var k :| 0 <= k < |ps + qs| && Matches((ps + qs)[k], line, cwd);
      assert (ps + qs)[k] == qs[k - |ps|];
    }
  }

  /** Every line of the shape `<root>/<name>[-<version or hash>]/<rest>`
      matches the gem-directory pattern for `name`. */
  lemma {:induction false} GemPathMatches(root: string, name: string, suffix: string, rest: string, cwd: string)
    requires suffix == [] || (|suffix| >= 2 && suffix[0] == '-' && Separator !in suffix)
    ensures Matches(GemDirectory(name), root + [Separator] + name + suffix + [Separator] + rest, cwd)
  {
    var line := root + [Separator] + name + suffix + [Separator] + rest;
    var i := |root|;
    var j := i + 1 + |name|;
    assert line[i..i + 1 + |name|] == [Separator] + name;
    if suffix == [] {
      assert line[j] == Separator;
    } else {
      assert line[j] == '-';
      assert line[j + 1] == suffix[1];
      assert line[j + |suffix|] == Separator;
      assert line[j + 1..][|suffix| - 1] == Separator;
    }
    assert GemDirectoryAt(line, name, i);
  }
}
