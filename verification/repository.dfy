/** The answers of the git repository that the bump logic consults, taken as a
    snapshot value: each query either answers or fails with git's message. */
module Repository {
  import opened Wrappers

  /** A commit id as text. */
  type Oid = string

  /** One entry of `git status`: a path with staged or unstaged changes. */
  datatype FileStatus = FileStatus(path: string, change: string)

  datatype Snapshot = Snapshot(
    statuses: Result<seq<FileStatus>, string>,
    branch: Option<string>,
    firstCommit: Result<Oid, string>,
    head: Result<Oid, string>)

  /** A commit range `origin..target`. */
  datatype Revspec = Revspec(origin: Oid, target: Oid)
}
