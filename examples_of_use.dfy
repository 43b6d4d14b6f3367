/** The behaviour the formatter's examples pin down, stated for the
    concrete patterns and lines they use. */
module FormatterExamples {
  import opened Text
  import opened Patterns
  import opened BacktraceFormatting

  /** Exclusion `/discard/` with inclusion `/keep/`: a line matching only the
      exclusion is hidden; one matching both, or neither, is kept; and the
      formatter does not report a full backtrace. The texts are parameters
      fixed to the examples' values because substring search over literal
      arguments is unfolded by the solver at a prohibitive cost; so "discard/keep"
      is written `discard + "/" + keep`. */
  lemma DiscardKeepExamples(discard: string, keep: string, cwd: string)
    requires discard == "discard" && keep == "keep"
    ensures Excluded(Filter([Literal(discard)], [Literal(keep)], false), discard, cwd)
    ensures !Excluded(Filter([Literal(discard)], [Literal(keep)], false), discard + "/" + keep, cwd)
    ensures !Excluded(Filter([Literal(discard)], [Literal(keep)], false), "fish", cwd)
    ensures !IsFullBacktrace(Filter([Literal(discard)], [Literal(keep)], false))
  {
    InfixIsContained([], discard, []);
    assert [] + discard + [] == discard;
    MissingCharNotContained(discard, keep, 'k');
    InfixIsContained(discard + "/", keep, []);
    assert discard + "/" + keep + [] == discard + "/" + keep;
    MissingCharNotContained("fish", discard, 'd');
  }

  /** Exclusion `/discard/` and no inclusion pattern: "discard me" is hidden,
      "apple" kept, and the backtrace is partial. The text is a parameter for
      the same reason as above. */
  lemma ExclusionOnlyExamples(discard: string, cwd: string)
    requires discard == "discard"
    ensures Excluded(Filter([Literal(discard)], [], false), discard + " me", cwd)
    ensures !Excluded(Filter([Literal(discard)], [], false), "apple", cwd)
    ensures !IsFullBacktrace(Filter([Literal(discard)], [], false))
  {
  }

  /** Replacing the exclusion list with `/spec_helper/` keeps a line of
      rspec-expectations that the earlier list excluded. That the built-in
      defaults exclude the line (the "from true" half of the example) is a
      premise here, not a conclusion, because the contents of the defaults are
      not modelled; the conclusion holds whatever the earlier settings were. */
  lemma ReplacedExclusionsExample(f: Filter, line: string, cwd: string)
    requires line == "/path/to/lib/rspec/expectations/foo.rb"
    requires Excluded(f, line, cwd)
    ensures !Excluded(f.(exclusionPatterns := [Literal("spec_helper")]), line, cwd)
  {
    MissingCharNotContained(line, "spec_helper", '_');
  }

  /** `full_backtrace = true` then `false` on a formatter configured with
      `/discard/` and `/keep/`: what `full_backtrace?`, `exclude?("discard")`
      and the pattern lists report at each step. */
  method FullBacktraceToggle(defaultExclusions: seq<Pattern>, defaultInclusions: seq<Pattern>, cwd: string)
    returns (fullWhenSet: bool, excludedWhenSet: bool, fullWhenCleared: bool, excludedWhenCleared: bool,
             patternsKept: bool)
    ensures fullWhenSet && !excludedWhenSet
    ensures !fullWhenCleared && excludedWhenCleared
    ensures patternsKept
  {
    var formatter := new BacktraceFormatter(defaultExclusions, defaultInclusions);
    formatter.SetExclusionPatterns([Literal("discard")]);
    formatter.SetInclusionPatterns([Literal("keep")]);
    formatter.SetFullBacktrace(true);
    fullWhenSet := IsFullBacktrace(formatter.Settings());
    excludedWhenSet := Excluded(formatter.Settings(), "discard", cwd);
    patternsKept := formatter.exclusionPatterns == [Literal("discard")] && formatter.inclusionPatterns == [Literal("keep")];
    formatter.SetFullBacktrace(false);
    fullWhenCleared := IsFullBacktrace(formatter.Settings());
    excludedWhenCleared := Excluded(formatter.Settings(), "discard", cwd);
    patternsKept := patternsKept && formatter.exclusionPatterns == [Literal("discard")] && formatter.inclusionPatterns == [Literal("keep")];
    DiscardKeepExamples("discard", "keep", cwd);
  }

  /** `filter_gem(name)` on a new formatter: a line under an installation
      directory of the gem, kept before the call, is excluded after it,
      provided no default inclusion pattern matches it. */
  method FilterGemOnFormatter(defaultExclusions: seq<Pattern>, defaultInclusions: seq<Pattern>,
                              name: string, root: string, suffix: string, rest: string, cwd: string)
    returns (excludedBefore: bool, excludedAfter: bool)
    requires suffix == [] || (|suffix| >= 2 && suffix[0] == '-' && Separator !in suffix)
    requires !AnyMatches(defaultInclusions, root + [Separator] + name + suffix + [Separator] + rest, cwd)
    ensures excludedAfter
    ensures excludedBefore <==> AnyMatches(defaultExclusions, root + [Separator] + name + suffix + [Separator] + rest, cwd)
  {
    var line := root + [Separator] + name + suffix + [Separator] + rest;
    var formatter := new BacktraceFormatter(defaultExclusions, defaultInclusions);
    excludedBefore := Excluded(formatter.Settings(), line, cwd);
    formatter.FilterGem(name);
    excludedAfter := Excluded(formatter.Settings(), line, cwd);
    WithGemFilterExcludesGemLines(Filter(defaultExclusions, defaultInclusions, false), name, root, suffix, rest, cwd);
  }
}
