/** The gates and lookups that precede a version bump: the working tree and
    branch preconditions, the fallback to the zero tag when no release exists
    yet, the commit range to inspect, and the strict ordering of the new tag
    over the current one. */
module BumpChecks {
  import opened Wrappers
  import opened Orderings
  import opened SemVer
  import opened Repository
  import opened Tags
  import opened BumpErrors

  /** Tags compare by the precedence of their versions; `next <= current` is a
      comparison answering Less or Equal. */
  function EnsureTagIsGreaterThanPrevious(current: Tag, next: Tag): (r: Outcome<BumpError>)
    ensures r.Pass? <==> Precedes(current.version, next.version)
    ensures r.Fail? ==> r.error == SemVerOrdering(current, next)
  {
    PrecedenceAntisymmetric(next.version, current.version);
    if ComparePrecedence(next.version, current.version) != Greater then Fail(SemVerOrdering(current, next))
    else Pass
  }

  /** A missing tag becomes the zero tag; every other lookup error stays an error. */
  function TagOrFallbackToZero(lookup: Result<Tag, TagError>): (r: Result<Tag, BumpError>)
    ensures lookup.Success? ==> r == Success(lookup.value)
    ensures lookup == Failure(NoTag) ==> r == Success(ZeroTag)
    ensures r.Failure? <==> lookup.Failure? && lookup.error != NoTag
    ensures r.Failure? ==> r.error == TagLookup(lookup.error)
  {
    match lookup
    case Success(tag) => Success(tag)
    case Failure(NoTag) => Success(ZeroTag)
    case Failure(err) => Failure(TagLookup(err))
  }

  /** The range of commits a bump inspects: from the first commit for the
      zero tag, otherwise from the tag's commit, up to HEAD. A non-zero tag
      must carry its commit id. */
  function GetRevspecForTag(repo: Snapshot, tag: Tag): (r: Result<Revspec, BumpError>)
    requires tag.IsZero() || tag.oid.Some?
    ensures r.Success? <==> (tag.IsZero() ==> repo.firstCommit.Success?) && repo.head.Success?
    ensures r.Success? ==> r.value.target == repo.head.value
    ensures r.Success? && tag.IsZero() ==> r.value.origin == repo.firstCommit.value
    ensures r.Success? && !tag.IsZero() ==> r.value.origin == tag.oid.value
    ensures r.Failure? && tag.IsZero() && repo.firstCommit.Failure? ==> r.error == Git(repo.firstCommit.error)
    ensures r.Failure? && (!tag.IsZero() || repo.firstCommit.Success?) ==> r.error == Git(repo.head.error)
  {
    var origin :-
      if tag.IsZero() then
        (match repo.firstCommit
         case Success(first) => Success(first)
         case Failure(e) => Failure(Git(e)))
      else Success(tag.oid.value);
    match repo.head
    case Success(head) => Success(Revspec(origin, head))
    case Failure(e) => Failure(Git(e))
  }

  /** Whether some pattern of the allow-list matches the branch; `matches`
      stands for compiling the glob and testing the branch name. */
  function AnyPatternMatches(patterns: seq<string>, branch: string, matches: (string, string) -> bool): (r: bool)
    ensures r <==> exists i :: 0 <= i < |patterns| && matches(patterns[i], branch)
  {
    if |patterns| == 0 then false
    else if matches(patterns[0], branch) then true
    else
      var rest := AnyPatternMatches(patterns[1..], branch, matches);
      assert forall i :: 1 <= i < |patterns| ==> patterns[i] == patterns[1..][i - 1];
      rest
  }

  /** The working tree must be clean, and when an allow-list is configured and
      the branch is known, some pattern must match the branch. */
  function PreBumpChecks(repo: Snapshot, whitelist: seq<string>, matches: (string, string) -> bool): (r: Outcome<BumpError>)
    ensures repo.statuses.Failure? ==> r == Fail(Git(repo.statuses.error))
    ensures repo.statuses.Success? && |repo.statuses.value| > 0 ==> r == Fail(DirtyWorkingTree(repo.statuses.value))
    ensures r.Pass? <==>
              && repo.statuses == Success([])
              && (|whitelist| == 0 || repo.branch.None?
                  || exists p :: p in whitelist && matches(p, repo.branch.value))
    ensures && repo.statuses == Success([]) && |whitelist| > 0 && repo.branch.Some?
            && !(exists p :: p in whitelist && matches(p, repo.branch.value)) ==>
              r == Fail(BranchNotAllowed(whitelist, repo.branch.value))
    ensures r.Fail? && r.error.BranchNotAllowed? ==>
              && repo.branch.Some?
              && r.error == BranchNotAllowed(whitelist, repo.branch.value)
              && forall p :: p in whitelist ==> !matches(p, repo.branch.value)
  {
    match repo.statuses
    case Failure(e) => Fail(Git(e))
    case Success(statuses) =>
      if |statuses| > 0 then Fail(DirtyWorkingTree(statuses))
      else if |whitelist| == 0 then Pass
      else
        match repo.branch
        case None => Pass
        case Some(branch) =>
          if AnyPatternMatches(whitelist, branch, matches) then Pass
          else Fail(BranchNotAllowed(whitelist, branch))
  }

  /** With no tag yet, the bump inspects history from the first commit to HEAD. */
  lemma NoTagRangeStartsAtFirstCommit(repo: Snapshot)
    requires repo.firstCommit.Success? && repo.head.Success?
    ensures var current := TagOrFallbackToZero(Failure(NoTag));
            && current == Success(ZeroTag)
            && GetRevspecForTag(repo, current.value) == Success(Revspec(repo.firstCommit.value, repo.head.value))
  {
  }

  /** Equal tags are rejected: a bump never re-tags the current version. */
  lemma EqualVersionRejected(current: Tag, next: Tag)
    requires ComparePrecedence(current.version, next.version) == Equal
    ensures EnsureTagIsGreaterThanPrevious(current, next) == Fail(SemVerOrdering(current, next))
  {
  }

  /** A version that differs only in build metadata does not advance. */
  lemma BuildMetadataDoesNotAdvance(current: Tag, next: Tag)
    requires current.version.major == next.version.major && current.version.minor == next.version.minor
    requires current.version.patch == next.version.patch && current.version.pre == next.version.pre
    ensures EnsureTagIsGreaterThanPrevious(current, next).Fail?
  {
    PrecedenceEqual(current.version, next.version);
  }

  /** Among plain `major.minor.patch` tags the gate is the lexicographic order
      of the triples. */
  lemma GateOnPlainVersions(current: Tag, next: Tag)
    requires current.version.pre == [] && next.version.pre == []
    ensures EnsureTagIsGreaterThanPrevious(current, next).Pass? <==> TripleLess(current.version, next.version)
  {
    TripleOrderIsLexicographic(current.version, next.version);
  }

  /** Successive accepted bumps keep increasing: the gate is transitive and so
      can never let a later bump fall back to an earlier version. */
  lemma GateChains(a: Tag, b: Tag, c: Tag)
    requires EnsureTagIsGreaterThanPrevious(a, b).Pass? && EnsureTagIsGreaterThanPrevious(b, c).Pass?
    ensures EnsureTagIsGreaterThanPrevious(a, c).Pass?
    ensures EnsureTagIsGreaterThanPrevious(c, a).Fail?
  {
    PrecedenceTransitive(a.version, b.version, c.version);
    PrecedenceAntisymmetric(a.version, c.version);
  }

  /** The first release from no tag: 0.1.0 is accepted over the zero tag. */
  lemma FirstReleaseOverZero(next: Tag)
    requires next.version == Version(0, 1, 0, [], [])
    ensures EnsureTagIsGreaterThanPrevious(TagOrFallbackToZero(Failure(NoTag)).value, next).Pass?
  {
  }

  /** The allow-list of "main" and the recursive glob over release branches
      admits a clean checkout of release/1.0.0 whenever that glob matches it. */
  lemma ReleaseBranchAllowed(repo: Snapshot, matches: (string, string) -> bool)
    requires repo.statuses == Success([]) && repo.branch == Some("release/1.0.0")
    requires matches("release/**", "release/1.0.0")
    ensures PreBumpChecks(repo, ["main", "release/**"], matches) == Pass
  {
    assert "release/**" in ["main", "release/**"];
  }

  /** The allow-list ["main"] rejects a clean checkout of master, with the
      message the command prints. */
  lemma MasterRejectedByMain(repo: Snapshot, matches: (string, string) -> bool)
    requires repo.statuses == Success([]) && repo.branch == Some("master")
    requires !matches("main", "master")
    ensures PreBumpChecks(repo, ["main"], matches) == Fail(BranchNotAllowed(["main"], "master"))
    ensures BranchNotAllowedMessage(["main"], "master")
            == "No patterns matched in [\"main\"] for branch 'master', bump is not allowed"
  {
    MainOnMasterMessage();
  }
}
