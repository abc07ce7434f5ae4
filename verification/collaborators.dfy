/**
 * What the worker observes from the outside world. The hosting-service API, the URL
 * parser and the local git update are not modelled; their answers are total functions
 * carried in a `World`, and every call the worker makes is recorded as a `Call`.
 */
module Collaborators {
  import opened Wrappers

  /** The nanosecond part of a Go `time.Time`, always within one second. */
  type Nanos = n: int | 0 <= n < 1_000_000_000

  /** A Go `time.Time`: seconds and nanoseconds since January 1, year 1 UTC. */
  datatype Instant = Instant(seconds: int, nanos: Nanos)

  /** The zero `time.Time`, which go-github returns for a nil timestamp. */
  const ZeroInstant: Instant := Instant(0, 0)

  /** A go-github `PullRequestBranch`; only its label (`Label`) is read. */
  datatype Branch = Branch(branchLabel: Option<string>)

  /**
   * The fields of a go-github `PullRequest` that the worker reads; each is a pointer
   * in Go and may be nil, hence `Option`.
   */
  datatype Snapshot = Snapshot(
    title: Option<string>,
    mergeable: Option<bool>,
    merged: Option<bool>,
    closedAt: Option<Instant>,
    base: Option<Branch>,
    head: Option<Branch>)

  /** The error envelope go-github returns from the merge endpoint. */
  datatype ErrorResponse = ErrorResponse(statusCode: int, message: string)

  /**
   * Arguments of `PullRequests.Merge`: the pull request, the commit message (the worker
   * passes the pull request's title) and the merge method.
   */
  datatype MergeRequest = MergeRequest(
    owner: string,
    repo: string,
    number: int,
    commitMessage: string,
    mergeMethod: string)

  /** A remote or local side effect the worker performs. */
  datatype Call =
    | Fetch(owner: string, repo: string, number: int)
    | Merge(request: MergeRequest)
    | Update(path: string, branch: string)

  /**
   * The answers of the collaborators:
   * `urlPath` is `url.Parse(s)` followed by `.Path`, or the parse error;
   * `fetch` is `PullRequests.Get`; `merge` is the error `PullRequests.Merge` returns,
   * `None` for a nil error (a merge that went through) and otherwise the error envelope;
   * `update` is the git pull-and-push, true on success.
   */
  datatype World = World(
    urlPath: string -> Result<string, string>,
    fetch: (string, string, int) -> Result<Snapshot, string>,
    merge: MergeRequest -> Option<ErrorResponse>,
    update: (string, string) -> bool)
}
