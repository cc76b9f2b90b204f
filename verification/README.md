# Bump decision logic of cocogitto, modelled in Dafny

This project models the pure decision logic of cocogitto's `cog bump` command
(`src/command/bump/mod.rs`). The logic covers:

- the gate that requires a new tag to be strictly greater than the current one;
- the fallback to the `0.0.0` tag when the repository has no tag yet;
- the commit range a bump inspects;
- the preconditions checked before any bump: a clean working tree and an allowed branch;
- choosing, parsing and running pre- and post-bump hooks;
- the summary that sorts the release's commits into bump-relevant and skipped ones.

Every piece is a pure function over immutable datatypes. The repository and
settings are explicit arguments, not the process-wide `SETTINGS` value. Git
answers are a `Repository.Snapshot` value. Each query in it either answers or
fails with git's message. Glob matching, hook template parsing, version
substitution, command printing and process execution are function parameters.

Modules:

- `Wrappers`: `Option`, `Result` and `Outcome`.
- `Orderings`: three-way comparison and lexicographic comparison of sequences.
- `SemVer`: versions and their precedence, per section 11 of Semantic Versioning 2.0.0.
- `Tags`: tags, the zero tag, and tag lookup errors.
- `Repository`: the repository snapshot and commit ranges.
- `BumpErrors`: the errors as data, plus the exact text of the rejected-branch message.
- `BumpChecks`: the ordering gate, the zero fallback, the range origin and the preconditions.
- `Hooks`: hook selection, parse-all-then-run, and sequential execution.
- `CommitTypes`: the commit-type order, sorting, and `dedup_by_with_count`.
- `BumpSummary`: classification of commits and the summary.

Two facts about the hook run:

- Version placeholders are substituted (`insert_versions`) inside the run loop (mod.rs:231-232), not when templates are parsed. A substitution failure therefore stops the loop after earlier hooks ran, and its error carries no hook index.
- Stashing on hook failure is done by the callers, through `unwrap_or_stash_and_exit` (mod.rs:51-70), not by `run_hooks`.

## Model

| member | source | states |
|---|---|---|
| BumpChecks.EnsureTagIsGreaterThanPrevious | src/command/bump/mod.rs:27-40 | The gate passes exactly when the current version strictly precedes the next one. The source tests `next <= current`; the contract gives the same answer through antisymmetry of precedence. On failure the error names both tags. |
| BumpChecks.EqualVersionRejected | src/command/bump/mod.rs:27-40 | A next tag of equal precedence, including an identical one, is always rejected with the ordering error. |
| BumpChecks.BuildMetadataDoesNotAdvance | src/command/bump/mod.rs:27-40 | A next tag that differs from the current one only in build metadata is rejected. |
| BumpChecks.GateOnPlainVersions | src/command/bump/mod.rs:27-40 | For tags without pre-release parts, the gate passes iff (major, minor, patch) increases lexicographically. |
| BumpChecks.GateChains | src/command/bump/mod.rs:27-40 | Accepted bumps compose: a<b and b<c give a<c. The reverse bump from c to a is rejected, so a chain of bumps never returns to an earlier version. |
| BumpChecks.TagOrFallbackToZero | src/command/bump/mod.rs:42-48 | A found tag is returned unchanged. "No tag" becomes the zero tag. Every other lookup error is passed through as an error. The result is an error iff the lookup failed with something other than "no tag". |
| BumpChecks.FirstReleaseOverZero | src/command/bump/mod.rs:27-48 | With no prior tag, the fallback zero tag accepts 0.1.0 as the next version. |
| BumpChecks.GetRevspecForTag | src/command/bump/mod.rs:248-258 | The range ends at HEAD. It starts at the first commit when the tag is zero, otherwise at the tag's commit. It fails iff HEAD is unknown, or the tag is zero and the first commit is unknown. The error is the first of those failures, in the order the source queries them. |
| BumpChecks.NoTagRangeStartsAtFirstCommit | src/command/bump/mod.rs:42-48 | A repository with no tag gets the zero tag, and its range runs from the first commit to HEAD. |
| BumpChecks.AnyPatternMatches | src/command/bump/mod.rs:88-96 | The allow-list search is true iff some pattern in the list matches the branch. |
| BumpChecks.PreBumpChecks | src/command/bump/mod.rs:83-105 | A failed status query is reported as that git error. A non-empty status list fails with the dirty-tree error. Otherwise the check passes iff the allow-list is empty, or no branch name is known, or some pattern matches the branch. A clean tree on a known branch that no pattern of a non-empty allow-list matches fails with the branch error naming the allow-list and the branch. |
| BumpChecks.ReleaseBranchAllowed | tests/lib_tests/bump.rs:221-246 | A clean checkout of release/1.0.0 passes the allow-list ["main", "release/**"] whenever that glob matches the branch. |
| BumpChecks.MasterRejectedByMain | tests/lib_tests/bump.rs:194-219 | A clean checkout of master fails the allow-list ["main"] with the branch error. The error prints as the exact message the test expects. |
| BumpErrors.BranchNotAllowedMessage | src/command/bump/mod.rs:98-103 | The rejection message is the fixed opening, the allow-list in debug form, the branch verbatim in single quotes, and the fixed closing, each at its stated position. |
| BumpErrors.BranchNotAllowedMessageNamesBranch | src/command/bump/mod.rs:98-103 | For one allow-list, different branches give different messages, so the message identifies the rejected branch. |
| BumpErrors.MainOnMasterMessage | src/command/bump/mod.rs:98-103 | The rejection message prints the allow-list in Rust's debug format: `No patterns matched in ["main"] for branch 'master', bump is not allowed`. |
| BumpErrors.EscapeAllPlain | src/command/bump/mod.rs:98-103 | A pattern with no quote, backslash or control character appears verbatim between quotes in the message. |
| SemVer.PrecedenceAntisymmetric | src/command/bump/mod.rs:28 | Swapping the two versions of the tag comparison flips its answer, so `next <= current` is exactly "not current < next". |
| SemVer.PrecedenceEqual | src/command/bump/mod.rs:28 | Two versions have equal precedence iff they agree on major, minor, patch and pre-release identifiers. Build metadata is ignored. |
| SemVer.PrecedenceTransitive | src/command/bump/mod.rs:28 | Version precedence is transitive. |
| SemVer.TripleOrderIsLexicographic | src/command/bump/mod.rs:28 | Without pre-release identifiers, precedence is the lexicographic order of (major, minor, patch). |
| SemVer.PreReleaseBelowRelease | src/command/bump/mod.rs:28 | A pre-release ranks strictly below the normal version with the same numbers. |
| SemVer.StandardExampleChain | src/command/bump/mod.rs:28 | The example ordering of section 11 of Semantic Versioning 2.0.0 holds: 1.0.0-alpha < 1.0.0-alpha.1 < … < 1.0.0-rc.1 < 1.0.0. |
| SemVer.IdentifiersTotalOrder | src/command/bump/mod.rs:28 | Pre-release identifiers are totally ordered: numeric ones numerically, alphanumeric ones lexically, numeric below alphanumeric. |
| Hooks.SelectHookTemplates | src/command/bump/mod.rs:165-208 | Each (package, profile) combination selects exactly one list: the settings profile, the package profile, the package hooks or the settings hooks. |
| Hooks.SelectionDoesNotMerge | src/command/bump/mod.rs:165-208 | The selected list fully replaces every other one. Two configurations that agree on the chosen list of the requested hook type select the same templates, whatever their other profiles, other hook types, package directory, or (when a package is given) settings. |
| Hooks.ParseFrom | src/command/bump/mod.rs:169-177 | Parsing from a position succeeds iff every remaining template parses, and keeps their order. Otherwise it reports the first failing template's index in the whole list. |
| Hooks.ParseHooks | src/command/bump/mod.rs:165-208 | All templates are parsed before anything runs. On success the hooks match the templates one to one. On failure the error carries the selected profile and the index of the first template that does not parse, and every earlier template parsed. |
| Hooks.ExecuteHooks | src/command/bump/mod.rs:231-245 | Hooks run in declared order. Every hook before the stopping point succeeded. The run passes iff all hooks succeeded. On failure the stopping hook failed, the error is its substitution or run error, and only hooks up to it were started, with their printed command lines in order. |
| Hooks.RunHooks | src/command/bump/mod.rs:154-246 | Unreadable settings stop everything. If any selected template fails to parse, no hook starts, and the error names the selected profile, the first bad index and that template's parse error. The call passes iff every template parses and every hook succeeds. When all templates parse but the run fails, it stopped at a hook that did not succeed, with that hook's error. Every earlier hook succeeded, and at most the stopping hook was started beyond them. Each started command line is the rendered, substituted form of its template, in order. |
| Hooks.RunTemplates | src/command/bump/mod.rs:169-245 | For the selected templates: a template that does not parse stops everything before any hook starts, naming the profile, the first bad index and that template's parse error. Otherwise the hooks run in order, the run passes iff every hook succeeds, and a failure stops at the first hook that does not succeed, with its error. |
| Hooks.RunHooksReportsStartedHooks | src/command/bump/mod.rs:231-245 | When every template parses, a passing run started and completed every hook. A failing run started every completed hook plus the stopping one, unless the stopping hook's versions could not be substituted. |
| Hooks.SecondOfThreeHooksFails | src/command/bump/mod.rs:231-245 | When the second of three hooks fails to run, exactly the first two commands were started, the third never was, and the error carries the second command line. |
| CommitTypes.CommitTypesTotalOrder | src/command/bump/mod.rs:280 | The order the skipped types are sorted by is a strict total order. |
| CommitTypes.Insert | src/command/bump/mod.rs:280 | Inserting into a sorted list keeps it sorted and adds exactly the one element. |
| CommitTypes.Sort | src/command/bump/mod.rs:280 | The sorted types are ordered and are a permutation of the input. |
| CommitTypes.DedupWithCount | src/command/bump/mod.rs:282-285 | Run-length counting is lossless: expanding the runs gives back the input. Each run is non-empty, each run's type occurs in the input, and neighbouring runs differ. |
| CommitTypes.SumCountsIsLength | src/command/bump/mod.rs:282-285 | The counts add up to the length of the expanded sequence. |
| CommitTypes.SortedRunsIncrease | src/command/bump/mod.rs:280-285 | After sorting, the counted types are strictly increasing, so each type has a single run. |
| CommitTypes.SortedRunsCountOccurrences | src/command/bump/mod.rs:280-285 | After sorting, each run's count is the number of occurrences of its type in the whole input. |
| CommitTypes.ExpandedTypeHasRun | src/command/bump/mod.rs:282-285 | Every type in the counted sequence has a run, so no skipped type is lost by the counting. |
| BumpSummary.SkippedType | src/command/bump/mod.rs:271-278 | The filter_map arm drops a commit iff it is a feature, a bug fix or breaking. When it keeps a commit, it keeps that commit's type. |
| BumpSummary.BumpCommits | src/command/bump/mod.rs:296-303 | The filter keeps only bump-relevant commits, and keeps every bump-relevant commit as often as it occurs in the release. Its order is stated by BumpCommitsAppend. |
| BumpSummary.BumpCommitsAppend | src/command/bump/mod.rs:296-303 | The filter keeps commit order: filtering two consecutive stretches of commits gives the two filtered stretches, in the same order. |
| BumpSummary.PartitionIsComplete | src/command/bump/mod.rs:269-303 | Bump commits and skipped commits together are exactly the release's commits (as multisets), so the skipped list is the complement of the bump list. |
| BumpSummary.NonBumpTypes | src/command/bump/mod.rs:271-278 | The filter_map yields exactly the types of the complement of the bump commits, in commit order. |
| BumpSummary.SkippedTypesAreListed | src/command/bump/mod.rs:271-278 | The type of every skipped commit is among the collected non-bump types. |
| BumpSummary.SkippedRuns | src/command/bump/mod.rs:271-285 | The skipped types, sorted and counted, come out in strictly increasing type order. Each count is positive and equals the number of skipped commits of that type, every skipped commit's type has a run, and the counts add up to the number of skipped commits. |
| BumpSummary.KindOf | src/command/bump/mod.rs:305-320 | A bump commit is reported as breaking iff it is breaking, including a breaking feature or fix. Otherwise it is reported as a feature or a bug fix, according to its type. |
| BumpSummary.Findings | src/command/bump/mod.rs:305-321 | There is one finding per bump commit, in order, each carrying its shorthand, kind and type. |
| BumpSummary.PrettyPrintBumpSummary | src/command/bump/mod.rs:262-324 | Skipped counts are positive, strictly increasing by type, and equal the number of skipped commits of that type. Every skipped commit's type is counted. The counts plus the findings add up to the number of commits. The findings list the bump commits in order with their kinds. |
| BumpSummary.BreakingFeatureIsReportedAsBreaking | src/command/bump/mod.rs:305-314 | A single breaking feature commit yields one breaking-change finding and no skipped types. |

## Left out

- `unwrap_or_stash_and_exit` (mod.rs:51-70): a git stash and a process exit. Neither has a pure counterpart.
- The default-configuration warning in `pre_bump_checks` (mod.rs:73-82): it only logs, and it depends on the global settings value.
- `get_changelog_with_target_version` and its package and monorepo variants (mod.rs:110-152): thin wrappers over repository range queries.
- Logging, colours, the hook-section header that uses `package_name`, the command truncation (a no-op slice, mod.rs:234-238), and the text of the skip and "Found" lines.
- The text of the ordering error and of the hook parse context: they are modelled as data. Tag display is not part of this model.
- BumpChecks.PreBumpChecks: glob matching is the parameter `matches`. An invalid glob pattern, which panics at the `expect` in the source, is not modelled.
- BumpChecks.PreBumpChecks: the status list is read twice, once to test it and once to print it. The snapshot gives both reads the same answer.
- BumpChecks.GetRevspecForTag: a non-zero tag without a commit id panics in the source (`oid_unchecked`). The model requires the id instead.
- Hooks.SelectHookTemplates: looking up a bump profile that does not exist panics in the settings code. The model requires the profile to exist (`ProfileKnown`).
- Hooks.RunHooks: it selects the templates with the same lookup, so it has the same requirement (`ProfileKnown`) whenever the settings were read.
- Hook template parsing, version substitution, command printing and process execution: abstract function parameters. The working directory passed to a hook is the package path when there is a package.
- Tag precedence follows section 11 of Semantic Versioning 2.0.0, which ignores build metadata. The semver library's own ordering is not part of this model, and neither are `Tag::default`, `Tag::is_zero` or `TagError`. The zero tag is version 0.0.0 with no prefix, package or commit id.
- Well-formedness of pre-release identifiers (no leading zeros, non-numeric alphanumerics) belongs to version parsing and is not modelled.
- The commit types and their declaration order come from the conventional-commit parser, which is not part of this model.
- BumpErrors.EscapeAllPlain: the debug format's `\u{…}` escapes for other non-printable characters are not modelled.
- Computing the next version (`IncrementCommand`), `create_version`, the package and monorepo bumps, and the CLI in `src/bin/cog.rs`: not part of this model.
