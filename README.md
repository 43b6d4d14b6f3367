# rspec-core BacktraceFormatter, modelled in Dafny

rspec-core shows a backtrace when an example fails. The `BacktraceFormatter` decides which lines of that backtrace to show. It hides the framework's own frames and keeps the user's frames. This project models the formatter and proves what its examples promise.

The formatter holds three things:

- an exclusion-pattern list;
- an inclusion-pattern list;
- a `full_backtrace` flag.

The model has four modules:

- `Text` (`text.dfy`): literal substring search. `IndexOf` is the leftmost-match index that Ruby's `line =~ pattern` reports for a pattern without metacharacters.
- `Patterns` (`patterns.dfy`): the three kinds of matcher.
  - `Literal(text)` is a pattern such as `/discard/`.
  - `WorkingDirectory` is compared with the working directory passed in at the moment a line is tested. So a later change of directory is seen, as the design requires.
  - `GemDirectory(name)` is the pattern `filter_gem(name)` appends: `/name(-[^/]+)?/`.
- `BacktraceFormatting` (`formatter.dfy`): the pure queries and the stateful object.
  - The queries are functions over a `Filter` value: `exclude?` (`Excluded`), `full_backtrace?` (`IsFullBacktrace`), `backtrace_line` (`BacktraceLine`) and `format_backtrace` (`FormatBacktrace`).
  - The object is the class `BacktraceFormatter`. Its fields are the two lists and the flag. Its setters and `FilterGem` are methods with `modifies this`. Each states the new settings in terms of the old ones.
- `FormatterExamples` (`examples_of_use.dfy`): the examples stated for their concrete patterns and lines. Two client methods drive the class.

The working directory (`Dir.getwd`) is an explicit `cwd` parameter of every query that reads a line.

The implementation file of the formatter is not part of this model. Its behaviour is taken from the examples in `spec/rspec/core/backtrace_formatter_spec.rb`. The exclusion rule is modelled as written for the formatter: a line is excluded when the flag is off, some exclusion pattern matches it, and no inclusion pattern matches it.

The built-in default pattern lists are constructor parameters. The examples need different defaults in different places:

- The examples at lines 34-41 and 61-63 keep `<cwd>/arbitrary`, and keep `<cwd>/foo` even when `/foo/` is an exclusion pattern.
- The examples at lines 98-101 and 148-159 expect some lines under the working directory to be excluded: rspec's own library files and a gem vendored there.

A regular expression could tell these lines apart, but the three pattern kinds of this model cannot. No inclusion list of these kinds keeps `<cwd>/foo` for every working directory without also keeping the rspec lines of 151-155 and the gem line of 100. A literal that does so is part of `/foo`, which those lines contain, and `WorkingDirectory` matches all of them. `CwdInclusionKeepsCwdLines` proves that once the inclusion list holds `WorkingDirectory`, no line that starts with the directory can be excluded, however many `filter_gem` calls follow. So each general lemma states its property for whatever defaults the formatter was built with.

## Model

| member | source | states |
|---|---|---|
| Text.IndexOf | spec/rspec/core/backtrace_formatter_spec.rb:242-278 | the literal part of `line =~ pattern`: the leftmost index where the text occurs, or None exactly when it occurs nowhere |
| Patterns.MatchesSomewhere | spec/rspec/core/backtrace_formatter_spec.rb:34-101 | `line =~ p` (`Patterns.Matches`): a literal, the working directory or a gem directory matches exactly when it matches at some position of the line |
| Patterns.FindGemDirectory | spec/rspec/core/backtrace_formatter_spec.rb:79-96 | finds the leftmost position where `/name(-[^/]+)?/` matches a line, or reports that there is none at all |
| Patterns.AnyMatches | spec/rspec/core/backtrace_formatter_spec.rb:259-273 | a pattern list matches a line exactly when some pattern in it does |
| Patterns.GemPathMatches | spec/rspec/core/backtrace_formatter_spec.rb:67-101 | every line `<root>/name[-version or hash]/<rest>` matches the gem pattern for `name`: system gem, vendored bundle, bundler `:git` checkout, local path, bundle under the working directory |
| BacktraceFormatting.WithGemFilter | spec/rspec/core/backtrace_formatter_spec.rb:67-77 | the settings after `filter_gem(name)`: the gem pattern comes after every earlier exclusion pattern; inclusions and flag unchanged |
| BacktraceFormatting.BacktraceLineRecoversLine | spec/rspec/core/backtrace_formatter_spec.rb:208-213 | `backtrace_line` (`BacktraceFormatting.BacktraceLine`): a line under `<cwd>/` is displayed as `./` and the rest, from which the original line is read back exactly |
| BacktraceFormatting.KeptIndices | spec/rspec/core/backtrace_formatter_spec.rb:104-115 | reference definition of the kept lines: increasing indices, each in range, holding exactly the lines that are not excluded |
| BacktraceFormatting.FormatBacktrace | spec/rspec/core/backtrace_formatter_spec.rb:104-146 | empty input gives empty output; if every line is excluded, the original lines are returned followed by the notice; otherwise the result is the display form of exactly the kept lines, in input order |
| BacktraceFormatting.Excluded | spec/rspec/core/backtrace_formatter_spec.rb:259-278 | `exclude?`, both directions of the rule: excluded iff the flag is off, some exclusion pattern matches and no inclusion pattern matches |
| BacktraceFormatting.InclusionWins | spec/rspec/core/backtrace_formatter_spec.rb:38-41 | a line matched by an inclusion pattern is kept, whatever exclusion patterns match it |
| BacktraceFormatting.UnmatchedLineKept | spec/rspec/core/backtrace_formatter_spec.rb:248-251 | a line that no exclusion pattern matches is kept |
| BacktraceFormatting.IsFullBacktrace | spec/rspec/core/backtrace_formatter_spec.rb:230-257 | `full_backtrace?`: whenever it holds (flag set, or both lists empty) no line whatever is excluded |
| BacktraceFormatting.FlagDoesNotTouchPatterns | spec/rspec/core/backtrace_formatter_spec.rb:200-205 | once the flag is cleared, exclusion is decided by the stored pattern lists alone |
| BacktraceFormatting.ReplacedExclusionsDecide | spec/rspec/core/backtrace_formatter_spec.rb:43-50 | after the exclusion list is assigned, only the new list decides exclusion; the replaced defaults play no part |
| BacktraceFormatting.CwdInclusionKeepsCwdLines | spec/rspec/core/backtrace_formatter_spec.rb:34-41 | with the working directory among the inclusion patterns, every line starting with it is kept, even after any sequence of `filter_gem` calls |
| BacktraceFormatting.GemFiltersKeepInclusions | spec/rspec/core/backtrace_formatter_spec.rb:67-77 | `filter_gem` calls change neither the inclusion list nor the flag |
| BacktraceFormatting.WithGemFilterKeepsExclusions | spec/rspec/core/backtrace_formatter_spec.rb:67-77 | `filter_gem` only adds exclusions: every line excluded before is still excluded |
| BacktraceFormatting.WithGemFilterExcludesGemLines | spec/rspec/core/backtrace_formatter_spec.rb:67-101 | after `filter_gem(name)`, a line under `<root>/name[-version]/` is excluded unless the flag is set or an inclusion pattern matches it |
| BacktraceFormatting.BacktraceLineTrimsCwd | spec/rspec/core/backtrace_formatter_spec.rb:211-213 | `<cwd>/rest` is displayed as `./rest`, with the rest of the line intact |
| BacktraceFormatting.BacktraceLineKeepsOtherLines | spec/rspec/core/backtrace_formatter_spec.rb:104-115 | a line not starting with `<cwd>/` is displayed unchanged, such as `./my_spec.rb:5` |
| BacktraceFormatting.BacktraceLineIdempotent | spec/rspec/core/backtrace_formatter_spec.rb:211-219 | for an absolute working directory, trimming a displayed line again changes nothing |
| BacktraceFormatting.SurvivorsSelectKeptLines | spec/rspec/core/backtrace_formatter_spec.rb:104-115 | the filtered list has one entry per kept index, and entry k is the display form of the k-th kept line |
| BacktraceFormatting.Survivors | spec/rspec/core/backtrace_formatter_spec.rb:104-115 | the filtered display lines of `format_backtrace`: filtering only removes lines, so the result is never longer than the input |
| BacktraceFormatting.SurvivorsEmptyIff | spec/rspec/core/backtrace_formatter_spec.rb:129-146 | filtering leaves nothing exactly when every line is excluded |
| BacktraceFormatting.SurvivorsAppend | spec/rspec/core/backtrace_formatter_spec.rb:104-115 | filtering distributes over concatenation, so no line's fate depends on its neighbours and input order is kept |
| BacktraceFormatting.SurvivorsWhenNothingExcluded | spec/rspec/core/backtrace_formatter_spec.rb:230-235 | when no line is excluded, every line is kept in place, in display form |
| BacktraceFormatting.FullBacktraceFormatsEveryLine | spec/rspec/core/backtrace_formatter_spec.rb:177-181 | whenever `full_backtrace?` holds (flag set, or both lists empty), `format_backtrace` is the plain filtering, adds no notice, and returns every input line, in order, in display form |
| BacktraceFormatting.FormatSingleSurvivor | spec/rspec/core/backtrace_formatter_spec.rb:148-159 | when exactly one line is not excluded, the result is that line alone, in display form |
| BacktraceFormatting.FallbackShowsFullBacktrace | spec/rspec/core/backtrace_formatter_spec.rb:129-146 | when every line of a non-empty input is excluded: N+1 lines, the first N are the input untouched, the last contains "Showing full backtrace" |
| BacktraceFormatting.BacktraceFormatter.constructor | spec/rspec/core/backtrace_formatter_spec.rb:5-10 | a new formatter holds the given default lists with the flag off |
| BacktraceFormatting.BacktraceFormatter.SetExclusionPatterns | spec/rspec/core/backtrace_formatter_spec.rb:7 | `exclusion_patterns=` replaces the exclusion list and leaves the rest |
| BacktraceFormatting.BacktraceFormatter.SetInclusionPatterns | spec/rspec/core/backtrace_formatter_spec.rb:8 | `inclusion_patterns=` replaces the inclusion list and leaves the rest |
| BacktraceFormatting.BacktraceFormatter.SetFullBacktrace | spec/rspec/core/backtrace_formatter_spec.rb:163-175 | `full_backtrace=` changes the flag only; both pattern lists keep their values |
| BacktraceFormatting.BacktraceFormatter.FilterGem | spec/rspec/core/backtrace_formatter_spec.rb:67-77 | `filter_gem` changes the settings exactly as `WithGemFilter` does |
| FormatterExamples.DiscardKeepExamples | spec/rspec/core/backtrace_formatter_spec.rb:259-278 | with `/discard/` and `/keep/`: "discard" is excluded, "discard/keep" and "fish" are kept, and the backtrace is partial |
| FormatterExamples.ExclusionOnlyExamples | spec/rspec/core/backtrace_formatter_spec.rb:242-257 | with `/discard/` alone: "discard me" is excluded, "apple" is kept, and the backtrace is partial |
| FormatterExamples.ReplacedExclusionsExample | spec/rspec/core/backtrace_formatter_spec.rb:43-50 | a line of rspec-expectations excluded by the defaults is kept once the exclusion list is `/spec_helper/` |
| FormatterExamples.FullBacktraceToggle | spec/rspec/core/backtrace_formatter_spec.rb:163-205 | on the object: with the flag set, full and "discard" kept; cleared again, partial and "discard" excluded; both lists as assigned throughout |
| FormatterExamples.FilterGemOnFormatter | spec/rspec/core/backtrace_formatter_spec.rb:67-101 | on the object: a gem-directory line is excluded after `FilterGem`, and was excluded before exactly when a default exclusion matched it |

## Left out

- Regular expressions: patterns are literal text, the working directory, or the gem-directory shape. The working-directory pattern is compared as literal text. So a directory name holding regular-expression metacharacters is not modelled.
- Default pattern lists: their contents are not part of this model, so they are constructor parameters. The examples at lines 13-32 exclude rspec's library files and `exe/rspec`, and keep a project whose name contains `gems`. Those examples depend on the default contents and are not stated.
- JRuby `org/jruby/` frames (lines 26-28): platform-specific default.
- Windows backslash paths (lines 117-127): the separator is `/`, with no normalisation.
- Process state: `Dir.getwd`, `Dir.chdir` and `Dir.mktmpdir` (lines 53-59, 100). The working directory is the `cwd` parameter of each query.
- SecurityError recovery in `backtrace_line` (lines 221-227): runtime-environment behaviour.
- "preserves the original line" (lines 215-219): strings are values in Dafny, so no call can alter its argument. Nothing is left to state.
- BacktraceFormatting.FormatBacktrace: the notice is one line containing "Showing full backtrace". The exact wording, and the number of lines rspec appends, are not part of this model. Only "contains the phrase" is promised.
- BacktraceFormatting.FormatSingleSurvivor: the examples at lines 104-115 and 148-159 are stated through this general lemma and `BacktraceLineTrimsCwd`, not for their literal lines. Solver cost of long literal strings is the reason.
- The concrete gem paths of lines 79-101 are covered by `GemPathMatches` for any root and version shape, not as literal strings, for the same reason.
- BacktraceFormatting.CwdInclusionKeepsCwdLines: the default formatter of lines 34-41 together with the exclusions of lines 98-101 and 148-159 cannot be represented, and neither can built-in exclusions that take precedence over the working-directory inclusion. `BacktraceFormatting.WithGemFilterExcludesGemLines` therefore requires that no inclusion pattern matches the gem line.
- BacktraceFormatting.IsFullBacktrace: follows the stated rule (flag set, or both lists empty). With no exclusion but some inclusion pattern nothing can be excluded, yet `full_backtrace?` is false. The examples do not test that case.
