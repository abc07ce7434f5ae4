/**
 * The auto-merge worker: classification of the merge endpoint's error, one iteration
 * of the merge loop as a step function, and the loop itself over an abstract FIFO.
 */
module GitHub {
  import opened Wrappers
  import opened Strings
  import Paths
  import opened Collaborators
  import opened PullRequests

  /** http.StatusConflict */
  const StatusConflict: int := 409
  /** http.StatusMethodNotAllowed */
  const StatusMethodNotAllowed: int := 405

  const DraftPhrase: string := "still a draft"
  const ReviewPhrase: string := "review is required"

  /** The sentinel errors a blocked merge is classified into. */
  datatype MergeError = Conflict | StillDraft | ReviewIsRequired | NotUpToDate

  /** What a merge attempt amounts to: done, or blocked for a classified reason. */
  datatype MergeOutcome = MergeOk | Blocked(err: MergeError)

  /**
   * messageToErr: the draft phrase is looked for first, then the review phrase;
   * every other message means the branch is not up to date.
   */
  function MessageToErr(msg: string): (e: MergeError)
    ensures e != Conflict
    ensures e == StillDraft <==> Contains(msg, DraftPhrase)
    ensures e == ReviewIsRequired <==> !Contains(msg, DraftPhrase) && Contains(msg, ReviewPhrase)
    ensures e == NotUpToDate <==> !Contains(msg, DraftPhrase) && !Contains(msg, ReviewPhrase)
  {
    if Contains(msg, DraftPhrase) then StillDraft
    else if Contains(msg, ReviewPhrase) then ReviewIsRequired
    else NotUpToDate
  }

  /** A message holding both phrases, in either order, is a draft. */
  lemma DraftWinsOverReview(a: string, b: string, c: string)
    ensures MessageToErr(a + ReviewPhrase + b + DraftPhrase + c) == StillDraft
    ensures MessageToErr(a + DraftPhrase + b + ReviewPhrase + c) == StillDraft
  {
    assert a + ReviewPhrase + b + DraftPhrase + c == (a + ReviewPhrase + b) + DraftPhrase + c;
    ContainsInfix(a + ReviewPhrase + b, DraftPhrase, c);
    assert a + DraftPhrase + b + ReviewPhrase + c == a + DraftPhrase + (b + ReviewPhrase + c);
    ContainsInfix(a, DraftPhrase, b + ReviewPhrase + c);
  }

  /**
   * The status switch of merge: 409 is a conflict, 405 is classified by its message,
   * and every other status is taken as success.
   */
  function ClassifyResponse(resp: ErrorResponse): (o: MergeOutcome)
    ensures o == Blocked(Conflict) <==> resp.statusCode == StatusConflict
    ensures o == MergeOk <==>
              resp.statusCode != StatusConflict && resp.statusCode != StatusMethodNotAllowed
    ensures resp.statusCode == StatusMethodNotAllowed ==> o == Blocked(MessageToErr(resp.message))
  {
    if resp.statusCode == StatusConflict then Blocked(Conflict)
    else if resp.statusCode == StatusMethodNotAllowed then Blocked(MessageToErr(resp.message))
    else MergeOk
  }

  /**
   * merge as it is written: the returned error is asserted to be an error envelope
   * before its status is read, so a nil error, which is what a merge that went through
   * returns, panics; nothing recovers it, so the process ends. `None` stands for that panic.
   */
  function MergeAsWritten(reply: Option<ErrorResponse>): (r: Option<MergeOutcome>)
    ensures r.None? <==> reply.None?
    ensures r.Some? ==>
              (r.value == MergeOk <==>
                 reply.value.statusCode != StatusConflict && reply.value.statusCode != StatusMethodNotAllowed)
  {
    match reply
    case None => None
    case Some(resp) => Some(ClassifyResponse(resp))
  }

  /**
   * merge as intended: a nil error is a merge that went through, and an error envelope
   * is classified by its status. This is the classification the worker model uses.
   */
  function ClassifyMerge(reply: Option<ErrorResponse>): (o: MergeOutcome)
    ensures reply.None? ==> o == MergeOk
    ensures o == Blocked(Conflict) <==> reply.Some? && reply.value.statusCode == StatusConflict
    ensures o == MergeOk <==>
              reply.None? || (reply.value.statusCode != StatusConflict && reply.value.statusCode != StatusMethodNotAllowed)
    ensures reply.Some? && reply.value.statusCode == StatusMethodNotAllowed ==>
              o == Blocked(MessageToErr(reply.value.message))
  {
    match reply
    case None => MergeOk
    case Some(resp) => ClassifyResponse(resp)
  }

  /**
   * The two agree on every error envelope; they differ only on the nil error, where the
   * code as written panics, ending the whole process, and the intended reading is success.
   */
  lemma MergeAsWrittenDiffers(reply: Option<ErrorResponse>)
    ensures reply.Some? ==> MergeAsWritten(reply) == Some(ClassifyMerge(reply))
    ensures MergeAsWritten(None) == None && ClassifyMerge(None) == MergeOk
  {
  }

  /** The worker's settings: merge method, backoff interval (nanoseconds) and local mirror root. */
  datatype Config = Config(mergeMethod: string, sleep: int, repoPath: string)

  /** Why an item leaves the queue for good. */
  datatype DropReason = InvalidPR(err: NewPRError) | AlreadyMerged | AlreadyClosed | MergeSucceeded

  /** Why an item goes back on the queue without an update. */
  datatype Blocker = NotMergeable | MergeBlocked(err: MergeError)

  /** What one iteration decides for its item. */
  datatype Action =
    | Drop(why: DropReason)
    | Requeue(blocker: Blocker)
    | UpdateThenRequeue(path: string, branch: string, updated: bool)

  /** The decision of one iteration and the side effects it performed, in order. */
  datatype Iteration = Iteration(action: Action, calls: seq<Call>)

  predicate Requeues(a: Action) {
    !a.Drop?
  }

  /**
   * The merge call for a fetched pull request: the pull request's own coordinates, its
   * title as the commit message ("" for a nil title) and the configured method.
   */
  function MergeRequestFor(cfg: Config, pr: PullRequest): (r: MergeRequest)
    ensures r.owner == pr.owner && r.repo == pr.repo && r.number == pr.number
    ensures pr.snapshot.title.Some? ==> r.commitMessage == pr.snapshot.title.value
    ensures pr.snapshot.title.None? ==> r.commitMessage == ""
    ensures r.mergeMethod == cfg.mergeMethod
  {
    MergeRequest(pr.owner, pr.repo, pr.number, Title(pr), cfg.mergeMethod)
  }

  /**
   * The local mirror the update works in: the repository root joined with owner and repo;
   * for plain names, the cleaned root's directory prefix followed by "owner/repo".
   */
  function UpdatePath(cfg: Config, pr: PullRequest): (r: string)
    ensures Paths.IsName(pr.owner) && Paths.IsName(pr.repo) ==>
              r == Paths.DirPrefix(Paths.Clean(cfg.repoPath)) + pr.owner + "/" + pr.repo
  {
    if Paths.IsName(pr.owner) && Paths.IsName(pr.repo) then
      Paths.JoinTwoNames(cfg.repoPath, pr.owner, pr.repo);
      Paths.Join([cfg.repoPath, pr.owner, pr.repo])
    else
      Paths.Join([cfg.repoPath, pr.owner, pr.repo])
  }

  /** Position of each kind of call in an iteration: fetch, then merge, then update. */
  function CallRank(c: Call): nat {
    match c
    case Fetch(_, _, _) => 0
    case Merge(_) => 1
    case Update(_, _) => 2
  }

  /** The item was parsed and fetched, and the pull request is still open. */
  predicate IsOpen(a: Attempt) {
    a.result.Success? && !Merged(a.result.value) && !Closed(a.result.value)
  }

  /**
   * One iteration of AutoMerge for the work item `item` (after the backoff sleep).
   * The checks run in the source's order: build the pull request, merged, closed,
   * mergeable, merge, classify, and for a stale branch update then requeue.
   */
  function Step(cfg: Config, w: World, item: string): (it: Iteration)
    // Calls happen at most once each, in the order fetch, merge, update.
    ensures |it.calls| <= 3
    ensures NewPR(item, w).calls <= it.calls
    ensures forall i :: 0 <= i < |it.calls| ==> CallRank(it.calls[i]) == i
    // An item is only requeued while its pull request is open.
    ensures Requeues(it.action) ==> IsOpen(NewPR(item, w))
    // A parse or fetch failure drops the item; nothing but the fetch was attempted.
    ensures var a := NewPR(item, w);
            a.result.Failure? ==> it.action == Drop(InvalidPR(a.result.error)) && it.calls == a.calls
    // A merged pull request is dropped whatever its other fields are.
    ensures var a := NewPR(item, w);
            a.result.Success? && Merged(a.result.value) ==>
              it.action == Drop(AlreadyMerged) && |it.calls| == 1
    // A closed, unmerged pull request is dropped whatever its mergeable flag is.
    ensures var a := NewPR(item, w);
            a.result.Success? && !Merged(a.result.value) && Closed(a.result.value) ==>
              it.action == Drop(AlreadyClosed) && |it.calls| == 1
    // An open, unmergeable pull request is requeued with neither merge nor update.
    ensures var a := NewPR(item, w);
            IsOpen(a) && !Mergeable(a.result.value) ==>
              it.action == Requeue(NotMergeable) && |it.calls| == 1
    // An open, mergeable pull request gets exactly one merge call.
    ensures var a := NewPR(item, w);
            |it.calls| >= 2 <==> IsOpen(a) && Mergeable(a.result.value)
    ensures it.action.UpdateThenRequeue? <==> |it.calls| == 3
  {
    var a := NewPR(item, w);
    match a.result
    case Failure(e) => Iteration(Drop(InvalidPR(e)), a.calls)
    case Success(pr) =>
      var rest := AfterFetch(cfg, w, pr);
      Iteration(rest.action, a.calls + rest.calls)
  }

  /**
   * The rest of Step once a merge is attempted: the merge carries the pull request's
   * title and the configured method, and the classified reply decides the outcome. A
   * stale branch is updated exactly once, on the mirror of owner/repo and the base
   * label, and the item is requeued whether the update succeeded or not.
   */
  lemma StepAfterMerge(cfg: Config, w: World, item: string)
    ensures var it := Step(cfg, w, item);
            var a := NewPR(item, w);
            IsOpen(a) && Mergeable(a.result.value) ==>
              it.calls[1] == Merge(MergeRequestFor(cfg, a.result.value))
    ensures var it := Step(cfg, w, item);
            |it.calls| >= 2 ==>
              var o := ClassifyMerge(w.merge(it.calls[1].request));
              && (o == MergeOk ==> it.action == Drop(MergeSucceeded) && |it.calls| == 2)
              && (o.Blocked? && o.err != NotUpToDate ==>
                    it.action == Requeue(MergeBlocked(o.err)) && |it.calls| == 2)
              && (o == Blocked(NotUpToDate) ==> |it.calls| == 3)
    ensures var it := Step(cfg, w, item);
            var a := NewPR(item, w);
            |it.calls| == 3 ==>
              var path := UpdatePath(cfg, a.result.value);
              var branch := HeadBranch(a.result.value);
              && it.calls[2] == Update(path, branch)
              && it.action == UpdateThenRequeue(path, branch, w.update(path, branch))
  {
    var a := NewPR(item, w);
    if a.result.Success? {
      var rest := AfterFetch(cfg, w, a.result.value);
      assert Step(cfg, w, item) == Iteration(rest.action, a.calls + rest.calls);
    }
  }

  /**
   * The part of an iteration after a successful fetch of `pr`: its decision and the
   * calls it makes after the fetch (a merge, then possibly an update).
   */
  function AfterFetch(cfg: Config, w: World, pr: PullRequest): (it: Iteration)
    ensures |it.calls| <= 2
    ensures forall i :: 0 <= i < |it.calls| ==> CallRank(it.calls[i]) == i + 1
    ensures Requeues(it.action) ==> !Merged(pr) && !Closed(pr)
    ensures Merged(pr) ==> it == Iteration(Drop(AlreadyMerged), [])
    ensures !Merged(pr) && Closed(pr) ==> it == Iteration(Drop(AlreadyClosed), [])
    ensures !Merged(pr) && !Closed(pr) && !Mergeable(pr) ==> it == Iteration(Requeue(NotMergeable), [])
    ensures |it.calls| >= 1 <==> !Merged(pr) && !Closed(pr) && Mergeable(pr)
    ensures |it.calls| >= 1 ==> it.calls[0] == Merge(MergeRequestFor(cfg, pr))
    ensures |it.calls| >= 1 ==>
              var o := ClassifyMerge(w.merge(MergeRequestFor(cfg, pr)));
              && (o == MergeOk ==> it.action == Drop(MergeSucceeded) && |it.calls| == 1)
              && (o.Blocked? && o.err != NotUpToDate ==>
                    it.action == Requeue(MergeBlocked(o.err)) && |it.calls| == 1)
              && (o == Blocked(NotUpToDate) ==> |it.calls| == 2)
    ensures |it.calls| == 2 ==>
              var path := UpdatePath(cfg, pr);
              var branch := HeadBranch(pr);
              && it.calls[1] == Update(path, branch)
              && it.action == UpdateThenRequeue(path, branch, w.update(path, branch))
    ensures it.action.UpdateThenRequeue? <==> |it.calls| == 2
  {
    if Merged(pr) then Iteration(Drop(AlreadyMerged), [])
    else if Closed(pr) then Iteration(Drop(AlreadyClosed), [])
    else if !Mergeable(pr) then Iteration(Requeue(NotMergeable), [])
    else
      var req := MergeRequestFor(cfg, pr);
      match ClassifyMerge(w.merge(req))
      case MergeOk => Iteration(Drop(MergeSucceeded), [Merge(req)])
      case Blocked(StillDraft) => Iteration(Requeue(MergeBlocked(StillDraft)), [Merge(req)])
      case Blocked(Conflict) => Iteration(Requeue(MergeBlocked(Conflict)), [Merge(req)])
      case Blocked(ReviewIsRequired) => Iteration(Requeue(MergeBlocked(ReviewIsRequired)), [Merge(req)])
      case Blocked(NotUpToDate) =>
        var path := UpdatePath(cfg, pr);
        var branch := HeadBranch(pr);
        Iteration(UpdateThenRequeue(path, branch, w.update(path, branch)), [Merge(req), Update(path, branch)])
  }

  /** One processed work item and what its iteration did. */
  datatype Processed = Processed(item: string, iteration: Iteration)

  /** The queue after some iterations, and the iterations performed, oldest first. */
  datatype LoopState = LoopState(queue: seq<string>, trace: seq<Processed>)

  /**
   * `n` iterations of a worker loop over an unbounded FIFO, starting at round `round`:
   * pop the head, step it in the current round, and push it back at the tail when it is
   * requeued. The step takes the round number because the outside world (and so the
   * fetched pull request) may differ from one round to the next. Stops early on an
   * empty queue.
   */
  function Run(step: (nat, string) -> Iteration, round: nat, queue: seq<string>, n: nat): (r: LoopState)
    ensures |r.trace| <= n
    ensures |r.trace| == n || r.queue == []
    decreases n
  {
    if n == 0 || |queue| == 0 then LoopState(queue, [])
    else
      var r := Run(step, round + 1, Next(step, round, queue), n - 1);
      LoopState(r.queue, [Processed(queue[0], step(round, queue[0]))] + r.trace)
  }

  /** The queue after one iteration: the head is popped and pushed back at the tail if requeued. */
  function Next(step: (nat, string) -> Iteration, round: nat, queue: seq<string>): seq<string>
    requires |queue| > 0
  {
    queue[1..] + (if Requeues(step(round, queue[0]).action) then [queue[0]] else [])
  }

  /**
   * `n` iterations of AutoMerge from the first round; `worlds(k)` is what the outside
   * world answers during round `k`, so every round fetches afresh.
   */
  function AutoMerge(cfg: Config, worlds: nat -> World, queue: seq<string>, n: nat): (r: LoopState)
    ensures |r.trace| <= n
    ensures |r.trace| == n || r.queue == []
  {
    Run(StepsOf(cfg, worlds), 0, queue, n)
  }

  /** Entry `i` of AutoMerge's trace is one Step against the world of round `i`. */
  lemma AutoMergeStepAt(cfg: Config, worlds: nat -> World, queue: seq<string>, n: nat, i: nat)
    requires i < |AutoMerge(cfg, worlds, queue, n).trace|
    ensures var p := AutoMerge(cfg, worlds, queue, n).trace[i];
            p.iteration == Step(cfg, worlds(i), p.item)
  {
    var r := AutoMerge(cfg, worlds, queue, n);
    var item := r.trace[i].item;
    AutoMergeRuns(cfg, worlds, queue, n);
    RunStepAt(StepsOf(cfg, worlds), 0, queue, n, r, i, i);
    assert r.trace[i].iteration == StepsOf(cfg, worlds)(i, item);
    StepsOfAt(cfg, worlds, i, item);
  }

  /** Entry `i` of the trace of a run `r` is what the step of round `k`, `round + i`, decided for its item. */
  lemma {:induction false} RunStepAt(step: (nat, string) -> Iteration, round: nat, queue: seq<string>, n: nat, r: LoopState, i: nat, k: nat)
    requires r == Run(step, round, queue, n)
    requires i < |r.trace| && k == round + i
    ensures r.trace[i].iteration == step(k, r.trace[i].item)
    decreases n
  {
    assert n > 0 && |queue| > 0;
    var rest := Next(step, round, queue);
    var tail := Run(step, round + 1, rest, n - 1);
    assert r.trace == [Processed(queue[0], step(round, queue[0]))] + tail.trace;
    if i > 0 {
      RunStepAt(step, round + 1, rest, n - 1, tail, i - 1, k);
      assert r.trace[i] == tail.trace[i - 1];
    }
  }

  /** The step of each round: one iteration against that round's outside world. */
  function StepsOf(cfg: Config, worlds: nat -> World): (nat, string) -> Iteration {
    (k: nat, item: string) => Step(cfg, worlds(k), item)
  }

  /** Round `k` of StepsOf is one Step against the world of round `k`. */
  lemma StepsOfAt(cfg: Config, worlds: nat -> World, k: nat, item: string)
    ensures StepsOf(cfg, worlds)(k, item) == Step(cfg, worlds(k), item)
  {
  }

  /** The items a trace dropped, in order. */
  function Dropped(trace: seq<Processed>): seq<string>
    decreases |trace|
  {
    if |trace| == 0 then []
    else (if trace[0].iteration.action.Drop? then [trace[0].item] else []) + Dropped(trace[1..])
  }

  /** Dropped distributes over a trace's first entry. */
  lemma DroppedCons(p: Processed, trace: seq<Processed>)
    ensures Dropped([p] + trace) == (if p.iteration.action.Drop? then [p.item] else []) + Dropped(trace)
  {
    assert ([p] + trace)[1..] == trace;
  }

  /** Popping the head and either pushing it back or dropping it keeps every item accounted for. */
  lemma PopAccounts(queue: seq<string>, back: seq<string>, dropped: seq<string>)
    requires |queue| > 0
    requires (back == [queue[0]] && dropped == []) || (back == [] && dropped == [queue[0]])
    ensures multiset(queue[1..] + back) + multiset(dropped) == multiset(queue)
  {
    assert queue == [queue[0]] + queue[1..];
  }

  /** Multiset bookkeeping for one iteration of NoItemLost. */
  lemma Accounting<T>(left: multiset<T>, gone: multiset<T>, d: multiset<T>, rest: multiset<T>, all: multiset<T>)
    requires left + gone == rest
    requires rest + d == all
    ensures left + (d + gone) == all
  {
  }

  /** The head of the queue is either requeued by Next or dropped into the trace. */
  lemma NextAccounts(step: (nat, string) -> Iteration, round: nat, queue: seq<string>)
    requires |queue| > 0
    ensures multiset(Next(step, round, queue))
            + multiset(if step(round, queue[0]).action.Drop? then [queue[0]] else [])
            == multiset(queue)
  {
    var drop := step(round, queue[0]).action.Drop?;
    PopAccounts(queue, if drop then [] else [queue[0]], if drop then [queue[0]] else []);
  }

  /**
   * No item is lost: whatever each round's outside world answers, every item first queued
   * is, after any number of rounds, either still queued or was dropped, exactly once.
   */
  lemma NoItemLost(step: (nat, string) -> Iteration, round: nat, queue: seq<string>, n: nat)
    ensures multiset(Run(step, round, queue, n).queue) + multiset(Dropped(Run(step, round, queue, n).trace))
            == multiset(queue)
  {
    Conserved(step, round, queue, n, Run(step, round, queue, n));
  }

  /** NoItemLost for the result `r` of the run, by induction on the number of iterations. */
  lemma {:induction false} Conserved(step: (nat, string) -> Iteration, round: nat, queue: seq<string>, n: nat, r: LoopState)
    requires r == Run(step, round, queue, n)
    ensures multiset(r.queue) + multiset(Dropped(r.trace)) == multiset(queue)
    decreases n
  {
    if n > 0 && |queue| > 0 {
      var rest := Next(step, round, queue);
      var tail := Run(step, round + 1, rest, n - 1);
      Conserved(step, round + 1, rest, n - 1, tail);
      var p := Processed(queue[0], step(round, queue[0]));
      var dropped := if step(round, queue[0]).action.Drop? then [queue[0]] else [];
      assert r == LoopState(tail.queue, [p] + tail.trace);
      DroppedCons(p, tail.trace);
      NextAccounts(step, round, queue);
      Accounting(multiset(tail.queue), multiset(Dropped(tail.trace)), multiset(dropped), multiset(rest), multiset(queue));
    } else {
      assert r == LoopState(queue, []);
      assert Dropped([]) == [];
    }
  }

  /** Items are processed in queue order: the first `n` iterations take the first `n` items. */
  lemma {:induction false} FifoOrder(step: (nat, string) -> Iteration, round: nat, queue: seq<string>, n: nat)
    requires n <= |queue|
    ensures |Run(step, round, queue, n).trace| == n
    ensures forall i :: 0 <= i < n ==> Run(step, round, queue, n).trace[i].item == queue[i]
    decreases n
  {
    if n > 0 {
      var rest := Next(step, round, queue);
      FifoOrder(step, round + 1, rest, n - 1);
      var r := Run(step, round + 1, rest, n - 1);
      assert Run(step, round, queue, n) == LoopState(r.queue, [Processed(queue[0], step(round, queue[0]))] + r.trace);
      forall i | 0 <= i < n ensures Run(step, round, queue, n).trace[i].item == queue[i] {
        if i > 0 {
          assert Run(step, round, queue, n).trace[i] == r.trace[i - 1];
          assert rest[i - 1] == queue[1..][i - 1] == queue[i];
        }
      }
    }
  }

  /**
   * An item whose outside world stops changing from round `round` on, and which is
   * requeued in that round, is requeued on every later round with the same decision and
   * the same calls.
   */
  lemma {:induction false} StuckItemRepeats(step: (nat, string) -> Iteration, round: nat, item: string, n: nat)
    requires forall k: nat :: round <= k ==> step(k, item) == step(round, item)
    requires Requeues(step(round, item).action)
    ensures Run(step, round, [item], n) == LoopState([item], seq(n, _ => Processed(item, step(round, item))))
    decreases n
  {
    if n > 0 {
      assert step(round + 1, item) == step(round, item);
      StuckItemRepeats(step, round + 1, item, n - 1);
      assert [item][1..] + [item] == [item];
      var p := Processed(item, step(round, item));
      assert seq(n, _ => p) == [p] + seq(n - 1, _ => p);
    }
  }

  /** An item that is dropped leaves the queue after one iteration and is never seen again. */
  lemma DroppedItemLeaves(step: (nat, string) -> Iteration, round: nat, item: string, n: nat)
    requires n >= 1
    requires step(round, item).action.Drop?
    ensures Run(step, round, [item], n) == LoopState([], [Processed(item, step(round, item))])
  {
    assert [item][1..] + [] == [];
  }

  /**
   * An item requeued in one round and dropped in the next leaves the queue after two
   * iterations: the retry is what lets a changed outside world end the item's stay.
   */
  lemma RequeueThenDrop(step: (nat, string) -> Iteration, round: nat, next: nat, item: string, n: nat)
    requires n >= 2 && next == round + 1
    requires Requeues(step(round, item).action)
    requires step(next, item).action.Drop?
    ensures Run(step, round, [item], n) ==
              LoopState([], [Processed(item, step(round, item)), Processed(item, step(next, item))])
  {
    assert Next(step, round, [item]) == [item];
    DroppedItemLeaves(step, next, item, n - 1);
  }

  /**
   * RequeueThenDrop for AutoMerge: an item requeued in the first round (`first`) and
   * dropped in the second (`second`) is processed twice and leaves the queue empty.
   */
  lemma AutoMergeRequeueThenDrop(cfg: Config, worlds: nat -> World, item: string, n: nat, first: Iteration, second: Iteration)
    requires n >= 2
    requires StepsOf(cfg, worlds)(0, item) == first && Requeues(first.action)
    requires StepsOf(cfg, worlds)(1, item) == second && second.action.Drop?
    ensures AutoMerge(cfg, worlds, [item], n) == LoopState([], [Processed(item, first), Processed(item, second)])
  {
    var step := StepsOf(cfg, worlds);
    AutoMergeRuns(cfg, worlds, [item], n);
    RequeueThenDrop(step, 0, 1, item, n);
  }

  /** AutoMerge is the generic loop run from round 0 with each round's own step. */
  lemma AutoMergeRuns(cfg: Config, worlds: nat -> World, queue: seq<string>, n: nat)
    ensures AutoMerge(cfg, worlds, queue, n) == Run(StepsOf(cfg, worlds), 0, queue, n)
  {
  }
}
