/** rspec-core's BacktraceFormatter: which backtrace lines a failure report
    hides, how the kept lines are displayed, and the formatter object whose
    pattern lists and full-backtrace flag are configured by setters. */
module BacktraceFormatting {
  import opened Text
  import opened Patterns

  /** The formatter's settings at one moment. */
  datatype Filter = Filter(exclusionPatterns: seq<Pattern>, inclusionPatterns: seq<Pattern>, fullBacktrace: bool)

  /** `exclude?(line)`: never while the flag is set; otherwise a line is
      hidden when some exclusion pattern and no inclusion pattern matches it.
      The contract states both directions of the rule, pattern by pattern. */
  predicate Excluded(f: Filter, line: string, cwd: string): (r: bool)
    ensures r <==>
      !f.fullBacktrace &&
      (exists k :: 0 <= k < |f.exclusionPatterns| && Matches(f.exclusionPatterns[k], line, cwd)) &&
      (forall k :: 0 <= k < |f.inclusionPatterns| ==> !Matches(f.inclusionPatterns[k], line, cwd))
  {
    !f.fullBacktrace && AnyMatches(f.exclusionPatterns, line, cwd) && !AnyMatches(f.inclusionPatterns, line, cwd)
  }

  /** `full_backtrace?`: the flag, or no pattern at all to filter with.
      Whenever it holds, no line whatever is excluded. */
  predicate IsFullBacktrace(f: Filter): (r: bool)
    ensures r ==> forall line, cwd :: !Excluded(f, line, cwd)
  {
    f.fullBacktrace || (f.exclusionPatterns == [] && f.inclusionPatterns == [])
  }

  /** The settings after `filter_gem(name)`: the gem-directory pattern is
      added after every earlier exclusion pattern, and nothing else changes. */
  function WithGemFilter(f: Filter, name: string): (r: Filter)
    ensures |r.exclusionPatterns| == |f.exclusionPatterns| + 1
    ensures r.exclusionPatterns[..|f.exclusionPatterns|] == f.exclusionPatterns
    ensures r.exclusionPatterns[|f.exclusionPatterns|] == GemDirectory(name)
    ensures r.inclusionPatterns == f.inclusionPatterns && r.fullBacktrace == f.fullBacktrace
  {
    f.(exclusionPatterns := f.exclusionPatterns + [GemDirectory(name)])
  }

  /** `backtrace_line(line)`: a line under the working directory is shown
      relative to it, `<cwd>/rest` as `./rest`; any other line as it is. */
  function BacktraceLine(line: string, cwd: string): (shown: string)
  {
    var prefix := cwd + [Separator];
    if StartsWith(line, prefix) then ['.', Separator] + line[|prefix|..] else line
  }

  /** The lines that are not excluded, each in its display form, in input
      order. It is empty exactly when every line is excluded. */
  function Survivors(f: Filter, lines: seq<string>, cwd: string): (r: seq<string>)
    ensures |r| <= |lines|
  {
    if lines == [] then []
    else (if Excluded(f, lines[0], cwd) then [] else [BacktraceLine(lines[0], cwd)]) + Survivors(f, lines[1..], cwd)
  }

  /** Reference definition of "the kept lines": the indices, at or after
      `from`, of the lines that are not excluded, in increasing order. */
  function KeptIndices(f: Filter, lines: seq<string>, cwd: string, from: nat): (r: seq<nat>)
    requires from <= |lines|
    ensures forall k :: 0 <= k < |r| ==> from <= r[k] < |lines|
    ensures forall k, m :: 0 <= k < m < |r| ==> r[k] < r[m]
    ensures forall i :: from <= i < |lines| ==> (i in r <==> !Excluded(f, lines[i], cwd))
    decreases |lines| - from
  {
    if from == |lines| then []
    else (if Excluded(f, lines[from], cwd) then [] else [from]) + KeptIndices(f, lines, cwd, from + 1)
  }

  /** The trailing line of a backtrace shown in full because filtering removed every line. */
  const FullBacktracePhrase: string := "Showing full backtrace"
  const FullBacktraceNotice: string := FullBacktracePhrase + " because every line was filtered out."

  /** `format_backtrace(lines)`. */
  function FormatBacktrace(f: Filter, lines: seq<string>, cwd: string): (r: seq<string>)
    ensures lines == [] ==> r == []
    ensures lines != [] && (forall i :: 0 <= i < |lines| ==> Excluded(f, lines[i], cwd)) ==>
              r == lines + [FullBacktraceNotice]
    ensures (exists i :: 0 <= i < |lines| && !Excluded(f, lines[i], cwd)) ==>
              |r| == |KeptIndices(f, lines, cwd, 0)| &&
              forall k :: 0 <= k < |r| ==> r[k] == BacktraceLine(lines[KeptIndices(f, lines, cwd, 0)[k]], cwd)
  {
    SurvivorsSelectKeptLines(f, lines, cwd, 0);
    SurvivorsEmptyIff(f, lines, cwd);
    var kept := Survivors(f, lines, cwd);
    if kept == [] && lines != [] then lines + [FullBacktraceNotice] else kept
  }

  // ---------------------------------------------------------------------
  // The exclusion rule

  /** An inclusion match keeps a line whatever exclusion patterns match it. */
  lemma InclusionWins(f: Filter, line: string, cwd: string, k: nat)
    requires k < |f.inclusionPatterns| && Matches(f.inclusionPatterns[k], line, cwd)
    ensures !Excluded(f, line, cwd)
  {
  }

  /** A line that no exclusion pattern matches is kept. */
  lemma UnmatchedLineKept(f: Filter, line: string, cwd: string)
    requires forall k :: 0 <= k < |f.exclusionPatterns| ==> !Matches(f.exclusionPatterns[k], line, cwd)
    ensures !Excluded(f, line, cwd)
  {
  }

  /** The flag only switches filtering off: once it is cleared, exclusion
      is decided by the stored pattern lists alone. */
  lemma FlagDoesNotTouchPatterns(f: Filter, line: string, cwd: string)
    ensures Excluded(f.(fullBacktrace := false), line, cwd) <==>
      AnyMatches(f.exclusionPatterns, line, cwd) && !AnyMatches(f.inclusionPatterns, line, cwd)
  {
  }

  /** Assigning the exclusion list replaces it: what the earlier list
      excluded no longer matters. */
  lemma ReplacedExclusionsDecide(f: Filter, ps: seq<Pattern>, line: string, cwd: string)
    ensures Excluded(f.(exclusionPatterns := ps), line, cwd) <==>
      !f.fullBacktrace && AnyMatches(ps, line, cwd) && !AnyMatches(f.inclusionPatterns, line, cwd)
  {
  }

  /** An inclusion pattern for the working directory keeps every line that
      contains it, even after any number of `filter_gem` calls. */
  lemma {:induction false} CwdInclusionKeepsCwdLines(f: Filter, names: seq<string>, rest: string, cwd: string)
    requires WorkingDirectory in f.inclusionPatterns
    ensures !Excluded(GemFilters(f, names), cwd + rest, cwd)
  {
    InfixIsContained([], cwd, rest);
    assert [] + cwd + rest == cwd + rest;
    var k :| 0 <= k < |f.inclusionPatterns| && f.inclusionPatterns[k] == WorkingDirectory;
    GemFiltersKeepInclusions(f, names);
    assert GemFilters(f, names).inclusionPatterns[k] == WorkingDirectory;
  }

  /** The settings after `filter_gem` for each of `names` in turn. */
  function GemFilters(f: Filter, names: seq<string>): (filtered: Filter)
    decreases |names|
  {
    if names == [] then f else GemFilters(WithGemFilter(f, names[0]), names[1..])
  }

  lemma {:induction false} GemFiltersKeepInclusions(f: Filter, names: seq<string>)
    ensures GemFilters(f, names).inclusionPatterns == f.inclusionPatterns
    ensures GemFilters(f, names).fullBacktrace == f.fullBacktrace
    decreases |names|
  {
    if names != [] {
      GemFiltersKeepInclusions(WithGemFilter(f, names[0]), names[1..]);
    }
  }

  // ---------------------------------------------------------------------
  // filter_gem

  /** `filter_gem` only adds: every line excluded before is excluded after. */
  lemma WithGemFilterKeepsExclusions(f: Filter, name: string, line: string, cwd: string)
    requires Excluded(f, line, cwd)
    ensures Excluded(WithGemFilter(f, name), line, cwd)
  {
    AnyMatchesAppend(f.exclusionPatterns, [GemDirectory(name)], line, cwd);
  }

  /** After `filter_gem(name)` a line under `<root>/name[-version]/` is
      excluded, unless the flag is set or an inclusion pattern matches it. */
  lemma WithGemFilterExcludesGemLines(f: Filter, name: string, root: string, suffix: string, rest: string, cwd: string)
    requires suffix == [] || (|suffix| >= 2 && suffix[0] == '-' && Separator !in suffix)
    requires !f.fullBacktrace
    requires !AnyMatches(f.inclusionPatterns, root + [Separator] + name + suffix + [Separator] + rest, cwd)
    ensures Excluded(WithGemFilter(f, name), root + [Separator] + name + suffix + [Separator] + rest, cwd)
  {
    var line := root + [Separator] + name + suffix + [Separator] + rest;
    GemPathMatches(root, name, suffix, rest, cwd);
    AnyMatchesAppend(f.exclusionPatterns, [GemDirectory(name)], line, cwd);
  }

  // ---------------------------------------------------------------------
  // backtrace_line

  /** `<cwd>/rest` is displayed as `./rest`. */
  lemma BacktraceLineTrimsCwd(cwd: string, rest: string)
    ensures BacktraceLine(cwd + [Separator] + rest, cwd) == ['.', Separator] + rest
  {
  }

  /** Trimming loses nothing: a line under the working directory is read
      back from its display form by putting `<cwd>/` in place of `./`. */
  lemma BacktraceLineRecoversLine(line: string, cwd: string)
    requires StartsWith(line, cwd + [Separator])
    ensures StartsWith(BacktraceLine(line, cwd), ['.', Separator])
    ensures cwd + [Separator] + BacktraceLine(line, cwd)[2..] == line
  {
    var prefix := cwd + [Separator];
    assert BacktraceLine(line, cwd)[2..] == line[|prefix|..];
    assert line == line[..|prefix|] + line[|prefix|..];
  }

  /** A line that does not begin with `<cwd>/` is displayed unchanged. */
  lemma BacktraceLineKeepsOtherLines(line: string, cwd: string)
    requires !StartsWith(line, cwd + [Separator])
    ensures BacktraceLine(line, cwd) == line
  {
  }

  /** For an absolute working directory, a displayed line displays as itself. */
  lemma BacktraceLineIdempotent(line: string, cwd: string)
    requires cwd != [] && cwd[0] == Separator
    ensures BacktraceLine(BacktraceLine(line, cwd), cwd) == BacktraceLine(line, cwd)
  {
    var shown := BacktraceLine(line, cwd);
    if shown != line {
      assert shown[0] == '.';
      assert (cwd + [Separator])[0] == Separator;
    }
  }

  // ---------------------------------------------------------------------
  // format_backtrace

  /** The survivors are the display forms of exactly the kept lines, in order. */
  lemma {:induction false} SurvivorsSelectKeptLines(f: Filter, lines: seq<string>, cwd: string, from: nat)
    requires from <= |lines|
    ensures |Survivors(f, lines[from..], cwd)| == |KeptIndices(f, lines, cwd, from)|
    ensures forall k :: 0 <= k < |KeptIndices(f, lines, cwd, from)| ==>
              Survivors(f, lines[from..], cwd)[k] == BacktraceLine(lines[KeptIndices(f, lines, cwd, from)[k]], cwd)
    decreases |lines| - from
  {
    if from < |lines| {
      SurvivorsSelectKeptLines(f, lines, cwd, from + 1);
      var excluded := Excluded(f, lines[from], cwd);
      assert lines[from..][0] == lines[from] && lines[from..][1..] == lines[from + 1..];
      assert Survivors(f, lines[from..], cwd) ==
        (if excluded then [] else [BacktraceLine(lines[from], cwd)]) + Survivors(f, lines[from + 1..], cwd);
      assert KeptIndices(f, lines, cwd, from) ==
        (if excluded then [] else [from]) + KeptIndices(f, lines, cwd, from + 1);
    }
  }

  /** Filtering removes everything exactly when every line is excluded. */
  lemma {:induction false} SurvivorsEmptyIff(f: Filter, lines: seq<string>, cwd: string)
    ensures Survivors(f, lines, cwd) == [] <==> forall i :: 0 <= i < |lines| ==> Excluded(f, lines[i], cwd)
  {
    if lines != [] {
      SurvivorsEmptyIff(f, lines[1..], cwd);
      assert forall i :: 1 <= i < |lines| ==> lines[i] == lines[1..][i - 1];
    }
  }

  /** Filtering distributes over concatenation: no line's fate depends on
      its neighbours, and the order of the input is kept. */
  lemma {:induction false} SurvivorsAppend(f: Filter, a: seq<string>, b: seq<string>, cwd: string)
    ensures Survivors(f, a + b, cwd) == Survivors(f, a, cwd) + Survivors(f, b, cwd)
  {
    if a != [] {
      var head := if Excluded(f, a[0], cwd) then [] else [BacktraceLine(a[0], cwd)];
      assert (a + b)[0] == a[0] && (a + b)[1..] == a[1..] + b;
      assert Survivors(f, a + b, cwd) == head + Survivors(f, a[1..] + b, cwd);
      SurvivorsAppend(f, a[1..], b, cwd);
    } else {
      assert a + b == b;
    }
  }

  /** With nothing excluded, every line is kept, in place, in display form. */
  lemma {:induction false} SurvivorsWhenNothingExcluded(f: Filter, lines: seq<string>, cwd: string)
    requires forall i :: 0 <= i < |lines| ==> !Excluded(f, lines[i], cwd)
    ensures |Survivors(f, lines, cwd)| == |lines|
    ensures forall i :: 0 <= i < |lines| ==> Survivors(f, lines, cwd)[i] == BacktraceLine(lines[i], cwd)
  {
    if lines != [] {
      SurvivorsWhenNothingExcluded(f, lines[1..], cwd);
    }
  }

  /** Whenever `full_backtrace?` holds (the flag, or both lists empty),
      `format_backtrace` is the plain filtering and shows every line in
      display form, with no notice added. */
  lemma FullBacktraceFormatsEveryLine(f: Filter, lines: seq<string>, cwd: string)
    requires IsFullBacktrace(f)
    ensures FormatBacktrace(f, lines, cwd) == Survivors(f, lines, cwd)
    ensures |FormatBacktrace(f, lines, cwd)| == |lines|
    ensures forall i :: 0 <= i < |lines| ==> FormatBacktrace(f, lines, cwd)[i] == BacktraceLine(lines[i], cwd)
  {
    SurvivorsWhenNothingExcluded(f, lines, cwd);
  }

  /** When one line survives, the formatted backtrace is that line alone. */
  lemma FormatSingleSurvivor(f: Filter, lines: seq<string>, cwd: string, k: nat)
    requires k < |lines| && !Excluded(f, lines[k], cwd)
    requires forall i :: 0 <= i < |lines| && i != k ==> Excluded(f, lines[i], cwd)
    ensures FormatBacktrace(f, lines, cwd) == [BacktraceLine(lines[k], cwd)]
  {
    SurvivorsOfSingleKeptLine(f, lines, cwd, k);
  }

  /** The filtering step of `FormatSingleSurvivor`. */
  lemma SurvivorsOfSingleKeptLine(f: Filter, lines: seq<string>, cwd: string, k: nat)
    requires k < |lines| && !Excluded(f, lines[k], cwd)
    requires forall i :: 0 <= i < |lines| && i != k ==> Excluded(f, lines[i], cwd)
    ensures Survivors(f, lines, cwd) == [BacktraceLine(lines[k], cwd)]
  {
    var before, after := lines[0..k], lines[k + 1..|lines|];
    SplitAround(lines, k);
    AllExcludedLeavesNothing(f, lines, cwd, 0, k);
    AllExcludedLeavesNothing(f, lines, cwd, k + 1, |lines|);
    SurvivorsOfOneKeptLine(f, before, lines[k], after, cwd);
  }

  /** A sequence is the part before index `k`, the element there, and the rest. */
  lemma SplitAround<T>(s: seq<T>, k: nat)
    requires k < |s|
    ensures s == s[0..k] + [s[k]] + s[k + 1..|s|]
  {
    assert s[0..k] + [s[k]] == s[0..k + 1];
  }

  /** Nothing survives from a stretch of lines that are all excluded. */
  lemma AllExcludedLeavesNothing(f: Filter, lines: seq<string>, cwd: string, lo: nat, hi: nat)
    requires lo <= hi <= |lines|
    requires forall i :: lo <= i < hi ==> Excluded(f, lines[i], cwd)
    ensures Survivors(f, lines[lo..hi], cwd) == []
  {
    assert forall i :: 0 <= i < hi - lo ==> lines[lo..hi][i] == lines[lo + i];
    SurvivorsEmptyIff(f, lines[lo..hi], cwd);
  }

  /** A kept line between two runs of excluded lines is all that survives. */
  lemma SurvivorsOfOneKeptLine(f: Filter, before: seq<string>, line: string, after: seq<string>, cwd: string)
    requires Survivors(f, before, cwd) == [] && Survivors(f, after, cwd) == []
    requires !Excluded(f, line, cwd)
    ensures Survivors(f, before + [line] + after, cwd) == [BacktraceLine(line, cwd)]
  {
    SurvivorsAppend(f, before + [line], after, cwd);
    SurvivorsAppend(f, before, [line], cwd);
    assert Survivors(f, [line], cwd) == [BacktraceLine(line, cwd)] + Survivors(f, [], cwd);
  }

  /** When every line is filtered out, the original lines come back untouched,
      followed by a notice that says the full backtrace is shown. */
  lemma FallbackShowsFullBacktrace(f: Filter, lines: seq<string>, cwd: string)
    requires lines != []
    requires forall i :: 0 <= i < |lines| ==> Excluded(f, lines[i], cwd)
    ensures |FormatBacktrace(f, lines, cwd)| == |lines| + 1
    ensures FormatBacktrace(f, lines, cwd)[..|lines|] == lines
    ensures Contains(FormatBacktrace(f, lines, cwd)[|lines|], FullBacktracePhrase)
  {
  }

  // ---------------------------------------------------------------------
  // The formatter object

  class BacktraceFormatter {
    var exclusionPatterns: seq<Pattern>
    var inclusionPatterns: seq<Pattern>
    var fullBacktrace: bool

    /** The settings the queries `exclude?`, `full_backtrace?` and
        `format_backtrace` read. */
    function Settings(): (settings: Filter)
      reads this
    {
      Filter(exclusionPatterns, inclusionPatterns, fullBacktrace)
    }

    /** `BacktraceFormatter.new`, with the built-in pattern lists given. */
    constructor (defaultExclusions: seq<Pattern>, defaultInclusions: seq<Pattern>)
      ensures Settings() == Filter(defaultExclusions, defaultInclusions, false)
    {
      exclusionPatterns := defaultExclusions;
      inclusionPatterns := defaultInclusions;
      fullBacktrace := false;
    }

    /** `exclusion_patterns=`: replaces the list, defaults included. */
    method SetExclusionPatterns(patterns: seq<Pattern>)
      modifies this
      ensures Settings() == old(Settings()).(exclusionPatterns := patterns)
    {
      exclusionPatterns := patterns;
    }

    /** `inclusion_patterns=`: replaces the list, defaults included. */
    method SetInclusionPatterns(patterns: seq<Pattern>)
      modifies this
      ensures Settings() == old(Settings()).(inclusionPatterns := patterns)
    {
      inclusionPatterns := patterns;
    }

    /** `full_backtrace=`: leaves both pattern lists as they are. */
    method SetFullBacktrace(full: bool)
      modifies this
      ensures Settings() == old(Settings()).(fullBacktrace := full)
    {
      fullBacktrace := full;
    }

    /** `filter_gem(name)`: appends the gem-directory pattern to the
        exclusion list, keeping what was there. */
    method FilterGem(name: string)
      modifies this
      ensures Settings() == WithGemFilter(old(Settings()), name)
    {
      exclusionPatterns := exclusionPatterns + [GemDirectory(name)];
    }
  }
}
