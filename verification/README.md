# gh-auto-merge, modelled in Dafny

gh-auto-merge is a small command that keeps trying to merge GitHub pull requests until
they are merged. The command line lists pull-request URLs, and each one goes into a queue.
A single worker loop takes a URL off the queue and waits a fixed interval. It then parses
the URL into owner, repository and number and fetches the pull request. A merged or closed
pull request is dropped. An open pull request that is not mergeable goes back on the queue
without a merge call. Otherwise the worker tries the merge. The reply is classified as:

- conflict;
- still a draft;
- review required;
- not up to date, which covers everything else under status 405.

If the branch is not up to date, the worker pulls and pushes a local mirror. Every blocked
pull request goes back on the queue.

This project models that decision core as pure functions and proves properties of it.

- `Wrappers`: `Option` and `Result`.
- `Strings`, `Strconv`, `Paths`: the parts of Go's `strings.Split`/`Join`/`Contains`,
  `strconv.Atoi`, `path.Match`, `path.Clean` and `path.Join` that the worker relies on.
  Each is written out by its documented rules.
- `Collaborators`: what the worker reads from go-github (title, mergeable, merged,
  closed-at, base and head branch labels, each possibly nil). It also holds a `World` of
  total functions standing for the URL parser, the fetch, the merge and the git update.
  Every call the worker makes is recorded as a `Call`, so "no merge was attempted" and "the
  update ran once" can be stated.
- `PullRequests` (`github/pull_request.go`): URL parsing, building a pull request, and the
  field predicates.
- `GitHub` (`github/github.go`): merge-error classification, and one loop iteration as the
  function `Step`. It also holds the loop as `Run`/`AutoMerge` over an unbounded FIFO, where
  every round may see a different outside world. Its lemmas state that no item is lost, that
  items come out in FIFO order, that an item whose world stops changing is retried forever,
  and that a requeued item leaves once a later round drops it.
- `Cli` (`cmd/gh-auto-merge/main.go`): merge-method selection, the repository root under
  GOPATH, and seeding the queue.
- `Scenarios`: end-to-end behaviour of the worker on one queued URL.

The code's behaviour is followed where it is surprising:

- The branch handed to the update is the label of the BASE branch: `headBranch` reads
  `GetBase().GetLabel()`, although its name speaks of the head branch.
- The owner and repository segments of a URL may be empty, and the number may carry a sign.
  `path.Match` and `strconv.Atoi` accept both.
- `-merge` is parsed but never read.

## Model

| member | source | states |
|---|---|---|
| `Strings.Split` | github/pull_request.go:53 | splitting on '/' always yields at least one piece, and no piece contains '/' |
| `Strings.JoinSplit` | github/pull_request.go:53 | joining the pieces of a split with the separator gives back the original string |
| `Strings.SplitJoin` | github/pull_request.go:53 | splitting a join of separator-free pieces gives back exactly those pieces |
| `Strings.SplitSingle` | github/pull_request.go:53 | a string splits into a single piece exactly when it contains no separator |
| `Strings.Contains` | github/github.go:166-169 | a phrase found in the message is no longer than the message, and a message that starts with the phrase contains it |
| `Strings.ContainsIffOccurs` | github/github.go:166-171 | the `strings.Contains` test on the merge message holds exactly when the phrase occurs at some position of the message |
| `Strconv.Atoi` | github/pull_request.go:54-57 | a string is accepted exactly when it is an optional sign followed by one or more digits whose signed value lies in the int64 range, and the result is that signed value; a failure carries the input; a plain run of digits within range parses to its decimal value |
| `Strconv.AtoiCanonical` | github/pull_request.go:54 | the converse of AtoiItoa: an accepted string is an optional sign, leading zeros and the canonical decimal digits of the value's magnitude, and a negative value needs a '-' |
| `Strconv.AtoiRejectsNonDigit` | github/pull_request.go:54-57 | any character that is neither a digit nor a leading sign makes Atoi fail |
| `Strconv.AtoiItoa` | github/pull_request.go:54 | Atoi parses every 64-bit integer back from its decimal form |
| `Strconv.AtoiExamples` | github/pull_request.go:54-57 | Atoi accepts a leading sign and leading zeros, and rejects the empty string, a lone sign and trailing non-digits |
| `Paths.Match` | github/pull_request.go:46 | a pattern without `*` matches only itself, and a name holding '/' matches only a pattern holding '/', so `*` never crosses a separator |
| `Paths.MatchFinalStar` | github/pull_request.go:46 | a trailing `*` of the pattern matches exactly the names that contain no '/' |
| `Paths.MatchStar` | github/pull_request.go:46 | a `*` followed by '/' or by the end of the pattern consumes exactly the text up to the next '/' |
| `Paths.PullPatternSegments` | github/pull_request.go:46-53 | the path matches "/*/*/pull/*" exactly when it splits on '/' into five pieces, the first empty and the fourth "pull"; this is why segment 4 always exists |
| `Paths.Clean` | cmd/gh-auto-merge/main.go:68 | the cleaned path is never empty, is rooted exactly when the input is, and ends in '/' only when it is the root itself |
| `Paths.CleanIdempotent` | cmd/gh-auto-merge/main.go:68 | path cleaning is idempotent |
| `Paths.Join` | cmd/gh-auto-merge/main.go:68 | path.Join gives "" exactly when every element is empty |
| `Paths.JoinIsClean` | cmd/gh-auto-merge/main.go:68 | every non-empty result of path.Join is already clean |
| `Paths.JoinNames` | github/github.go:110 | joining plain names under a root appends them, '/'-separated, to the cleaned root ("" for ".", nothing extra for "/") |
| `Paths.JoinTwoNames` | github/github.go:110 | a root joined with two plain names is the cleaned root's directory prefix followed by "a/b" |
| `PullRequests.ParsePath` | github/pull_request.go:45-58 | succeeds exactly when the path has the pull shape and segment 4 passes Atoi; the owner, repo and number are segments 1, 2 and the value of 4; a shape mismatch is reported as NotPullRequestURL and only then |
| `PullRequests.ParsePRURL` | github/pull_request.go:40-59 | a URL-parse error is reported as that error; otherwise the URL is accepted exactly when its path has the pull shape and its last segment is a decimal int, and the result is segments 1, 2 and the value of 4; a shape mismatch, and only that, is NotPullRequestURL; a number error carries segment 4 |
| `PullRequests.NewPR` | github/pull_request.go:25-37 | a parse failure returns the error with no call made; a parsed reference is fetched exactly once; the result succeeds exactly when the fetch does and then carries the URL, the reference and the fetched snapshot |
| `PullRequests.Mergeable` | github/pull_request.go:61-63 | true exactly when the mergeable flag is present and true (nil reads as false) |
| `PullRequests.Merged` | github/pull_request.go:65-67 | true exactly when the merged flag is present and true |
| `PullRequests.Closed` | github/pull_request.go:69-71 | true exactly when a closing time is present and is not the zero time |
| `PullRequests.Title` | github/pull_request.go:73-75 | the title, or "" when it is nil |
| `PullRequests.HeadBranch` | github/pull_request.go:77-79 | the base branch's label, or "" when the base or its label is nil |
| `PullRequests.HeadBranchIgnoresHead` | github/pull_request.go:77-79 | changing the head branch never changes the branch handed to the update |
| `PullRequests.ParsePathRoundTrip` | github/pull_request.go:53-58 | "/owner/repo/pull/n" parses back to owner, repo and n for every '/'-free owner and repo (empty ones included) and every 64-bit n |
| `PullRequests.PullPathSplits` | github/pull_request.go:53 | "/owner/repo/pull/digits" splits on '/' into "", owner, repo, "pull" and digits, as the source's comment on the split says |
| `PullRequests.ParseExample` | github/pull_request.go:45-58 | "/yagi5/gh-auto-merge/pull/1" parses to yagi5, gh-auto-merge, 1 |
| `PullRequests.ParseRejectsOtherLiteral` | github/pull_request.go:46-52 | a fourth segment other than "pull" is rejected as not a pull-request URL |
| `PullRequests.ParseRejectsExtraSegment` | github/pull_request.go:46-52 | a sixth segment is rejected as not a pull-request URL |
| `PullRequests.ParseRejectsNonNumeric` | github/pull_request.go:54-57 | a last segment holding any character that is neither a digit nor its leading sign is rejected as a bad number carrying that segment |
| `GitHub.MessageToErr` | github/github.go:165-174 | still-a-draft exactly when the draft phrase occurs; review-required exactly when only the review phrase occurs; not-up-to-date exactly when neither occurs; never conflict |
| `GitHub.DraftWinsOverReview` | github/github.go:165-171 | a message holding both phrases, in either order, is classified as a draft |
| `GitHub.ClassifyResponse` | github/github.go:154-162 | conflict exactly for 409; success exactly for a status that is neither 409 nor 405; a 405 is classified by its message |
| `GitHub.MergeAsWritten` | github/github.go:152-162 | the merge as written: a nil error crashes, and an error envelope is classified by its status |
| `GitHub.ClassifyMerge` | github/github.go:150-163 | a nil error is success; conflict exactly for a 409 envelope; success exactly for nil or a status other than 409 and 405; a 405 envelope is classified by its message |
| `GitHub.MergeAsWrittenDiffers` | github/github.go:153-161 | the written and the intended merge agree on every error envelope and differ only on the nil error: crash versus success |
| `GitHub.MergeRequestFor` | github/github.go:152 | the merge call names the pull request's owner, repository and number, passes its title as the commit message ("" for a nil title), and uses the configured method |
| `GitHub.UpdatePath` | github/github.go:110 | for plain owner and repo names, the mirror updated is the cleaned repository root's directory prefix followed by "owner/repo" |
| `GitHub.Step` | github/github.go:59-119 | at most one fetch, merge and update each, in that order; a parse or fetch failure drops the item with newPR's calls only (none on a parse failure, the fetch on a fetch failure); merged or closed drops it after the fetch alone; open but unmergeable requeues it with no merge call; a merge is attempted exactly when the pull request is open and mergeable; an update is made exactly when the decision is update-then-requeue; only open pull requests are requeued |
| `GitHub.AfterFetch` | github/github.go:65-119 | after a fetch: merged, closed and unmergeable decide without a call; otherwise exactly one merge with the pull request's request; success drops, conflict, draft and review-required requeue with no further call, and not-up-to-date makes exactly one update on the mirror of owner/repo with the base label and requeues whatever the update returns |
| `GitHub.StepAfterMerge` | github/github.go:81-119 | in a whole iteration, the second call is the merge with the pull request's title and the configured method; the classified reply decides drop, requeue or update; the third call, when there is one, is the update of owner/repo's mirror on the base label, and the item is requeued whether or not it succeeded |
| `GitHub.Run` | github/github.go:55-120 | the loop performs exactly one iteration per round and stops early only when the queue is empty; what it keeps is stated by `GitHub.NoItemLost` and `GitHub.FifoOrder` |
| `GitHub.RunStepAt` | github/github.go:55-59 | entry i of a run's trace is the decision of round `round + i` on the item taken in that round |
| `GitHub.AutoMerge` | github/github.go:54-120 | AutoMerge performs one iteration per round, as many as it is given, unless the queue empties first |
| `GitHub.AutoMergeStepAt` | github/github.go:55-59 | iteration i of AutoMerge is one Step against the outside world of round i, so every round fetches afresh |
| `GitHub.NoItemLost` | github/github.go:55-120 | whatever each round's outside world answers, after any number of rounds the items still queued plus the items dropped are exactly the items first queued, as a multiset |
| `GitHub.Conserved` | github/github.go:55-120 | the same conservation, for a given run result, by induction on the number of rounds |
| `GitHub.FifoOrder` | github/github.go:55-120 | within the first pass over the queue, items are processed in queue order, one per round, whatever each round decides |
| `GitHub.StuckItemRepeats` | github/github.go:55-120 | an item alone in the queue, requeued in a round from which its world stops changing, is requeued on every later round, with the same decision and the same calls |
| `GitHub.DroppedItemLeaves` | github/github.go:59-87 | an item alone in the queue that is dropped is processed once, and the queue is then empty |
| `GitHub.RequeueThenDrop` | github/github.go:55-120 | an item alone in the queue, requeued in one round and dropped in the next, is processed exactly twice, and the queue is then empty |
| `GitHub.AutoMergeRequeueThenDrop` | github/github.go:55-120 | the same for AutoMerge's first two rounds on a single queued item, with the two iterations as the trace |
| `Cli.SelectMergeMethod` | cmd/gh-auto-merge/main.go:55-63 | the method is one of merge, squash, rebase; squash exactly when -squash is set; rebase exactly when -rebase is set without -squash; merge exactly when neither is set |
| `Cli.MergeFlagIgnored` | cmd/gh-auto-merge/main.go:47-63 | the value of -merge never changes the method |
| `Cli.ParseOpt` | cmd/gh-auto-merge/main.go:38-64 | the positional arguments are kept in order; the interval is the flags' interval; the method is the one the squash and rebase flags select; the default flags give a 10-second interval and "merge" |
| `Cli.RepoPath` | cmd/gh-auto-merge/main.go:66-69 | the repository root is the cleaned GOPATH's directory prefix followed by "src/github.com" |
| `Cli.RepoPathShape` | cmd/gh-auto-merge/main.go:68 | path.Join of GOPATH, "src" and "github.com" is the cleaned GOPATH's directory prefix followed by "src/github.com" |
| `Cli.RepoPathIsClean` | cmd/gh-auto-merge/main.go:66-69 | the repository root is already a clean path |
| `Cli.UpdatePathUnderRepoPath` | github/github.go:110 | for plain owner and repo names, the update's mirror is the repository root followed by "/owner/repo" |
| `Cli.NewConfig` | cmd/gh-auto-merge/main.go:24-25 | the worker gets the chosen method, the interval, and the repository root under GOPATH |
| `Cli.Seed` | cmd/gh-auto-merge/main.go:31-33 | every URL is pushed after what is queued, in argument order |
| `Cli.Start` | cmd/gh-auto-merge/main.go:19-33 | after start-up the method follows -squash and -rebase as parseOpt chooses it, the sleep is the -interval value, the root is the one under GOPATH, and the queue holds exactly the arguments in order |
| `Cli.SeedsProcessedInOrder` | cmd/gh-auto-merge/main.go:27-33 | whatever each round's world answers, the first rounds process the seeded URLs in command-line order |
| `Scenarios.ReviewBlocks` | github/github.go:101-105 | a 405 naming a required review, and not a draft, requeues the item after exactly a fetch and a merge call |
| `Scenarios.MergeGoesThrough` | github/github.go:83-87 | a merge with a nil error drops the item after exactly a fetch and a merge call |
| `Scenarios.CleanMergeDropsItem` | github/github.go:75-86 | an open, mergeable pull request whose merge goes through is fetched once, merged once, and leaves the queue |
| `Scenarios.ReviewRequiredRetriesForever` | github/github.go:101-105 | a 405 naming a required review requeues the item on every round with a fetch and a merge call and never an update |
| `Scenarios.StaleBranchUpdatedEachRound` | github/github.go:107-119 | a 405 with neither phrase updates the mirror of owner/repo on the base label once per round and keeps the item queued |
| `Scenarios.ReviewThenMerge` | github/github.go:83-105 | a review that arrives between two rounds: the first round requeues for want of a review, the second merges, and the queue is then empty after exactly two iterations |
| `Scenarios.NonPullURLDroppedWithoutCalls` | github/github.go:59-63 | a URL whose path is not a pull-request path is dropped on its first round with no call to the hosting service |

## Left out

- The queue is a Go channel of capacity 1, and the worker is its only reader. The model seeds every URL first and then runs the worker over an unbounded FIFO. Neither the channel's blocking nor the interleaving of `main`'s pushes with the worker goroutine is modelled.
- `GitHub.Run`: with two or more URLs pending, the real program stops for good. When the worker pushes an item back while another URL already fills the one slot, the push blocks forever. The model instead keeps going. `GitHub.NoItemLost`, `GitHub.FifoOrder` and `Cli.SeedsProcessedInOrder` therefore describe the program as written only while at most one URL is pending, for example with a single seeded URL. With more URLs they describe the loop over an unbounded queue.
- `GitHub.AutoMerge`: modelled for a given number of rounds, because the source's loop never terminates. Cancellation through the context (`<-ctx.Done()`) is not modelled.
- `GitHub.Step`: it classifies the merge reply with `GitHub.ClassifyMerge`, the corrected merge. A merge that goes through therefore drops the item. As written, the source panics at that point instead (see Findings, and `GitHub.MergeAsWritten`).
- The backoff `time.Sleep` is not modelled. The interval is carried in the configuration only.
- Building the API client (`New`, the OAuth token from `GITHUB_TOKEN`) is not modelled.
- `os.Getenv("GOPATH")`, `flag.Parse` and `url.Parse` become parameters: the GOPATH string, the `Flags` value, and `World.urlPath`.
- The git update (open the mirror, worktree, pull, push, basic authentication) is the opaque `World.update`. Only its success or failure is observed.
- Merge errors other than nil or an error envelope are not modelled. A transport error, for example, would also crash at the type assertion.
- `Strconv.Atoi`: it does not tell a syntax error from a range error, because the worker only logs the error. Go's `int` is taken to be 64 bits.
- `Paths.Match` handles only literal characters and `*`. The pattern the source uses has no `?`, `[` or `\`, and its `ErrBadPattern` branch cannot be reached with that constant pattern.
- `Paths.Clean` is defined by the documented rules of `path.Clean` (drop empty and `.` elements, let `..` cancel a name, drop `..` at the root), not by its byte-by-byte loop.
- Log messages are not modelled.

## Findings

| source | as written | input that shows it | evidently intended | confidence | as-written member | corrected member |
|---|---|---|---|---|---|---|
| github/github.go:153 | the merge call's error is type-asserted to an error envelope without a nil check, so the status switch is reached only with a non-nil error | a merge that goes through: `PullRequests.Merge` returns a nil error and the assertion panics; the panic is not recovered, so it terminates the whole process | a nil error means the merge succeeded and the item is dropped, as the `default: return nil // 200` branch shows | high (Go type assertion on a nil interface); not executed | `GitHub.MergeAsWritten`, with `GitHub.MergeAsWrittenDiffers` | `GitHub.ClassifyMerge`, with `Scenarios.CleanMergeDropsItem` |
