/** The summary a bump prints about the release's commits: the commits that
    decide the bump (features, bug fixes and breaking changes), each with the
    reason it counts, and a per-type tally of the commits skipped as
    irrelevant. */
module BumpSummary {
  import opened Wrappers
  import opened CommitTypes

  /** A conventional commit of the release being bumped. */
  datatype Commit = Commit(shorthand: string, commitType: CommitType, scope: Option<string>,
                           breaking: bool, description: string)

  /** Why a commit counts for the bump. */
  datatype BumpKind = BreakingChange | NewFeature | Fix

  /** One "Found ... commit" line. */
  datatype Finding = Finding(shorthand: string, kind: BumpKind, commitType: CommitType)

  datatype Summary = Summary(skipped: seq<TypeCount>, found: seq<Finding>)

  /** Reference classification: a commit moves the version when it is a
      feature, a bug fix, or a breaking change of any type. */
  predicate IsBumpRelevant(c: Commit) {
    c.commitType == Feature || c.commitType == BugFix || c.breaking
  }

  /** The `filter_map` arm that keeps the type of a skipped commit. */
  function SkippedType(c: Commit): (r: Option<CommitType>)
    ensures r.None? <==> IsBumpRelevant(c)
    ensures r.Some? ==> r.value == c.commitType
  {
    match c.commitType
    case Feature => None
    case BugFix => None
    case _ => if c.breaking then None else Some(c.commitType)
  }

  /** The `filter_map` over the commits: exactly the types of the reference
      complement of the bump commits, in commit order. */
  function NonBumpTypes(commits: seq<Commit>): (r: seq<CommitType>)
    ensures r == Types(SkippedCommits(commits))
  {
    if |commits| == 0 then []
    else
      match SkippedType(commits[0])
      case Some(t) => [t] + NonBumpTypes(commits[1..])
      case None => NonBumpTypes(commits[1..])
  }

  /** The commits that decide the bump, in commit order. */
  function BumpCommits(commits: seq<Commit>): (r: seq<Commit>)
    ensures forall c :: c in r ==> IsBumpRelevant(c)
    ensures multiset(r) <= multiset(commits)
    ensures forall c :: c in commits && IsBumpRelevant(c) ==> multiset(r)[c] == multiset(commits)[c]
  {
    if |commits| == 0 then []
    else
      assert commits == [commits[0]] + commits[1..];
      if IsBumpRelevant(commits[0]) then [commits[0]] + BumpCommits(commits[1..])
      else BumpCommits(commits[1..])
  }

  /** One commit in front is kept, in front, iff it decides the bump. */
  lemma BumpCommitsCons(c: Commit, rest: seq<Commit>)
    ensures BumpCommits([c] + rest) == (if IsBumpRelevant(c) then [c] else []) + BumpCommits(rest)
  {
    assert ([c] + rest)[0] == c && ([c] + rest)[1..] == rest;
  }

  /** The filter keeps commit order: it distributes over concatenation. */
  lemma {:induction false} BumpCommitsAppend(a: seq<Commit>, b: seq<Commit>)
    ensures BumpCommits(a + b) == BumpCommits(a) + BumpCommits(b)
  {
    if |a| == 0 {
      assert a + b == b;
    } else {
      var t := a[1..];
      BumpCommitsAppend(t, b);
      ConsSplit(a, b);
      BumpCommitsCons(a[0], t + b);
      BumpCommitsCons(a[0], t);
      ConcatAssoc(if IsBumpRelevant(a[0]) then [a[0]] else [], BumpCommits(t), BumpCommits(b));
    }
  }

  /** Splits off the first commit of a non-empty prefix. */
  lemma ConsSplit(a: seq<Commit>, b: seq<Commit>)
    requires |a| > 0
    ensures a == [a[0]] + a[1..] && a + b == [a[0]] + (a[1..] + b)
  {
  }

  lemma ConcatAssoc(x: seq<Commit>, y: seq<Commit>, z: seq<Commit>)
    ensures x + (y + z) == (x + y) + z
  {
  }

  /** Reference: the commits that do not decide the bump. */
  function SkippedCommits(commits: seq<Commit>): (r: seq<Commit>)
    ensures forall c :: c in r ==> !IsBumpRelevant(c)
  {
    if |commits| == 0 then []
    else if IsBumpRelevant(commits[0]) then SkippedCommits(commits[1..])
    else [commits[0]] + SkippedCommits(commits[1..])
  }

  function Types(commits: seq<Commit>): (r: seq<CommitType>)
    ensures |r| == |commits|
    ensures forall i :: 0 <= i < |commits| ==> r[i] == commits[i].commitType
  {
    if |commits| == 0 then [] else [commits[0].commitType] + Types(commits[1..])
  }

  /** Bump-relevant and skipped commits split the release: together they are
      all its commits, each exactly once. */
  lemma {:induction false} PartitionIsComplete(commits: seq<Commit>)
    ensures multiset(BumpCommits(commits)) + multiset(SkippedCommits(commits)) == multiset(commits)
    ensures |BumpCommits(commits)| + |SkippedCommits(commits)| == |commits|
  {
    if |commits| > 0 {
      PartitionIsComplete(commits[1..]);
      assert commits == [commits[0]] + commits[1..];
    }
  }

  /** Every skipped commit contributes its type. */
  lemma {:induction false} SkippedTypesAreListed(commits: seq<Commit>)
    ensures forall c :: c in commits && !IsBumpRelevant(c) ==> c.commitType in NonBumpTypes(commits)
  {
    if |commits| > 0 {
      SkippedTypesAreListed(commits[1..]);
      assert forall c :: c in commits ==> c == commits[0] || c in commits[1..];
    }
  }

  /** A bump commit is reported as breaking whenever it is breaking, even when
      it is also a feature or a fix. */
  function KindOf(c: Commit): (r: BumpKind)
    requires IsBumpRelevant(c)
    ensures r == BreakingChange <==> c.breaking
    ensures r == NewFeature <==> !c.breaking && c.commitType == Feature
    ensures r == Fix <==> !c.breaking && c.commitType == BugFix
  {
    if c.breaking then BreakingChange
    else if c.commitType == Feature then NewFeature
    else Fix
  }

  function Findings(bump: seq<Commit>): (r: seq<Finding>)
    requires forall c :: c in bump ==> IsBumpRelevant(c)
    ensures |r| == |bump|
    ensures forall i :: 0 <= i < |bump| ==>
              r[i] == Finding(bump[i].shorthand, KindOf(bump[i]), bump[i].commitType)
  {
    if |bump| == 0 then []
    else [Finding(bump[0].shorthand, KindOf(bump[0]), bump[0].commitType)] + Findings(bump[1..])
  }

  /** The number of skipped commits of type t. */
  function SkippedCount(commits: seq<Commit>, t: CommitType): nat {
    multiset(Types(SkippedCommits(commits)))[t]
  }

  /** The skipped types, sorted and counted run by run. */
  function SkippedRuns(commits: seq<Commit>): (skipped: seq<TypeCount>)
    ensures StrictlyIncreasing(skipped)
    ensures forall i :: 0 <= i < |skipped| ==>
              && skipped[i].count > 0
              && skipped[i].count == SkippedCount(commits, skipped[i].commitType)
    ensures forall c :: c in commits && !IsBumpRelevant(c) ==>
              exists i :: 0 <= i < |skipped| && skipped[i].commitType == c.commitType
    ensures SumCounts(skipped) == |SkippedCommits(commits)|
  {
    var types := NonBumpTypes(commits);
    var sorted := Sort(types);
    var skipped := DedupWithCount(sorted);
    SortedRunsIncrease(sorted);
    SortedRunsCountOccurrences(sorted);
    SumCountsIsLength(skipped);
    SkippedTypesAreListed(commits);
    assert forall c :: c in commits && !IsBumpRelevant(c) ==> c.commitType in Expand(skipped) by {
      forall c | c in commits && !IsBumpRelevant(c)
        ensures c.commitType in Expand(skipped)
      {
        assert c.commitType in multiset(types);
      }
    }
    forall c | c in commits && !IsBumpRelevant(c)
      ensures exists i :: 0 <= i < |skipped| && skipped[i].commitType == c.commitType
    {
      ExpandedTypeHasRun(skipped, c.commitType);
    }
    skipped
  }

  /** The bump summary: skipped types sorted and counted, then one finding per
      bump commit. */
  function PrettyPrintBumpSummary(commits: seq<Commit>): (s: Summary)
    ensures StrictlyIncreasing(s.skipped)
    ensures forall i :: 0 <= i < |s.skipped| ==>
              && s.skipped[i].count > 0
              && s.skipped[i].count == SkippedCount(commits, s.skipped[i].commitType)
    ensures forall c :: c in commits && !IsBumpRelevant(c) ==>
              exists i :: 0 <= i < |s.skipped| && s.skipped[i].commitType == c.commitType
    ensures SumCounts(s.skipped) + |s.found| == |commits|
    ensures |s.found| == |BumpCommits(commits)|
    ensures forall i :: 0 <= i < |s.found| ==>
              var c := BumpCommits(commits)[i];
              s.found[i] == Finding(c.shorthand, KindOf(c), c.commitType)
  {
    PartitionIsComplete(commits);
    Summary(SkippedRuns(commits), Findings(BumpCommits(commits)))
  }

  /** A breaking feature is reported as a breaking change, not as a feature. */
  lemma BreakingFeatureIsReportedAsBreaking(c: Commit)
    requires c.commitType == Feature && c.breaking
    ensures PrettyPrintBumpSummary([c]).found == [Finding(c.shorthand, BreakingChange, Feature)]
    ensures PrettyPrintBumpSummary([c]).skipped == []
  {
    var s := PrettyPrintBumpSummary([c]);
    assert BumpCommits([c]) == [c];
    assert SumCounts(s.skipped) == 0;
  }
}
