/**
 * End-to-end behaviour of the worker on a single queued URL, for the situations the
 * merge loop distinguishes: a clean merge, a review that never arrives, a stale branch,
 * and a URL that is not a pull request.
 */
module Scenarios {
  import opened Wrappers
  import opened Strings
  import Paths
  import opened Collaborators
  import opened PullRequests
  import opened GitHub

  /** The item names an open pull request whose mergeable flag is set. */
  predicate ReadyToMerge(w: World, item: string) {
    IsOpen(NewPR(item, w)) && Mergeable(NewPR(item, w).result.value)
  }

  /** The reply the merge endpoint gives for the item's pull request. */
  function MergeReply(cfg: Config, w: World, item: string): Option<ErrorResponse>
    requires ReadyToMerge(w, item)
  {
    w.merge(MergeRequestFor(cfg, NewPR(item, w).result.value))
  }

  /** A refusal for want of a review requeues the item after a fetch and a merge call. */
  lemma ReviewBlocks(cfg: Config, w: World, item: string)
    requires ReadyToMerge(w, item)
    requires MergeReply(cfg, w, item).Some?
    requires MergeReply(cfg, w, item).value.statusCode == StatusMethodNotAllowed
    requires Contains(MergeReply(cfg, w, item).value.message, ReviewPhrase)
    requires !Contains(MergeReply(cfg, w, item).value.message, DraftPhrase)
    ensures Step(cfg, w, item).action == Requeue(MergeBlocked(ReviewIsRequired))
    ensures |Step(cfg, w, item).calls| == 2
  {
    assert |Step(cfg, w, item).calls| >= 2;
  }

  /** A merge that goes through drops the item after a fetch and a merge call. */
  lemma MergeGoesThrough(cfg: Config, w: World, item: string)
    requires ReadyToMerge(w, item)
    requires MergeReply(cfg, w, item) == None
    ensures Step(cfg, w, item).action == Drop(MergeSucceeded)
    ensures |Step(cfg, w, item).calls| == 2
  {
    assert |Step(cfg, w, item).calls| >= 2;
  }

  /** The outside world gives the same answers on every round. */
  ghost predicate Unchanging(worlds: nat -> World) {
    forall k: nat :: worlds(k) == worlds(0)
  }

  /**
   * A merge that goes through (a nil error) in the first round: the pull request is
   * fetched, merged once with its title and the configured method, and the item leaves
   * the queue.
   */
  lemma CleanMergeDropsItem(cfg: Config, worlds: nat -> World, item: string, n: nat)
    requires n >= 1
    requires ReadyToMerge(worlds(0), item)
    requires MergeReply(cfg, worlds(0), item) == None
    ensures var pr := NewPR(item, worlds(0)).result.value;
            var calls := [Fetch(pr.owner, pr.repo, pr.number), Merge(MergeRequestFor(cfg, pr))];
            AutoMerge(cfg, worlds, [item], n) == LoopState([], [Processed(item, Iteration(Drop(MergeSucceeded), calls))])
  {
    var w := worlds(0);
    var it := Step(cfg, w, item);
    var pr := NewPR(item, w).result.value;
    assert NewPR(item, w).calls == [Fetch(pr.owner, pr.repo, pr.number)];
    assert |it.calls| == 2 && it.calls[0] == NewPR(item, w).calls[0];
    assert it.calls == [Fetch(pr.owner, pr.repo, pr.number), Merge(MergeRequestFor(cfg, pr))];
    DroppedItemLeaves((k: nat, x: string) => Step(cfg, worlds(k), x), 0, item, n);
  }

  /**
   * A merge refused because a review is required, in a world where the review never
   * arrives: the item is requeued on every round, each round fetches and tries the merge
   * again, and no update is ever attempted.
   */
  lemma ReviewRequiredRetriesForever(cfg: Config, worlds: nat -> World, item: string, n: nat)
    requires Unchanging(worlds)
    requires ReadyToMerge(worlds(0), item)
    requires MergeReply(cfg, worlds(0), item).Some?
    requires MergeReply(cfg, worlds(0), item).value.statusCode == StatusMethodNotAllowed
    requires Contains(MergeReply(cfg, worlds(0), item).value.message, ReviewPhrase)
    requires !Contains(MergeReply(cfg, worlds(0), item).value.message, DraftPhrase)
    ensures AutoMerge(cfg, worlds, [item], n).queue == [item]
    ensures |AutoMerge(cfg, worlds, [item], n).trace| == n
    ensures forall i :: 0 <= i < n ==>
              var it := AutoMerge(cfg, worlds, [item], n).trace[i].iteration;
              it.action == Requeue(MergeBlocked(ReviewIsRequired)) && |it.calls| == 2
  {
    ReviewBlocks(cfg, worlds(0), item);
    var step := (k: nat, x: string) => Step(cfg, worlds(k), x);
    forall k: nat | 0 <= k ensures step(k, item) == step(0, item) {
      assert worlds(k) == worlds(0);
    }
    StuckItemRepeats(step, 0, item, n);
  }

  /**
   * A merge refused because the branch is behind, in a world that never changes: every
   * round updates the local mirror of owner/repo on the base label and requeues the item,
   * whether or not the update succeeded.
   */
  lemma StaleBranchUpdatedEachRound(cfg: Config, worlds: nat -> World, item: string, n: nat)
    requires Unchanging(worlds)
    requires ReadyToMerge(worlds(0), item)
    requires MergeReply(cfg, worlds(0), item).Some?
    requires MergeReply(cfg, worlds(0), item).value.statusCode == StatusMethodNotAllowed
    requires !Contains(MergeReply(cfg, worlds(0), item).value.message, ReviewPhrase)
    requires !Contains(MergeReply(cfg, worlds(0), item).value.message, DraftPhrase)
    ensures AutoMerge(cfg, worlds, [item], n).queue == [item]
    ensures |AutoMerge(cfg, worlds, [item], n).trace| == n
    ensures forall i :: 0 <= i < n ==>
              var pr := NewPR(item, worlds(0)).result.value;
              var it := AutoMerge(cfg, worlds, [item], n).trace[i].iteration;
              |it.calls| == 3 && it.calls[2] == Update(UpdatePath(cfg, pr), HeadBranch(pr))
  {
    var it := Step(cfg, worlds(0), item);
    assert |it.calls| >= 2;
    assert |it.calls| == 3;
    var step := (k: nat, x: string) => Step(cfg, worlds(k), x);
    forall k: nat | 0 <= k ensures step(k, item) == step(0, item) {
      assert worlds(k) == worlds(0);
    }
    StuckItemRepeats(step, 0, item, n);
  }

  /**
   * A review that arrives between two rounds: the first round's merge is refused for want
   * of a review and the item is requeued; the second round's merge goes through and the
   * item leaves the queue.
   */
  lemma ReviewThenMerge(cfg: Config, worlds: nat -> World, item: string, n: nat)
    requires n >= 2
    requires ReadyToMerge(worlds(0), item)
    requires MergeReply(cfg, worlds(0), item).Some?
    requires MergeReply(cfg, worlds(0), item).value.statusCode == StatusMethodNotAllowed
    requires Contains(MergeReply(cfg, worlds(0), item).value.message, ReviewPhrase)
    requires !Contains(MergeReply(cfg, worlds(0), item).value.message, DraftPhrase)
    requires ReadyToMerge(worlds(1), item)
    requires MergeReply(cfg, worlds(1), item) == None
    ensures AutoMerge(cfg, worlds, [item], n).queue == []
    ensures |AutoMerge(cfg, worlds, [item], n).trace| == 2
    ensures AutoMerge(cfg, worlds, [item], n).trace[0].iteration.action == Requeue(MergeBlocked(ReviewIsRequired))
    ensures AutoMerge(cfg, worlds, [item], n).trace[1].iteration.action == Drop(MergeSucceeded)
  {
    ReviewBlocks(cfg, worlds(0), item);
    MergeGoesThrough(cfg, worlds(1), item);
    assert StepsOf(cfg, worlds)(0, item) == Step(cfg, worlds(0), item);
    assert StepsOf(cfg, worlds)(1, item) == Step(cfg, worlds(1), item);
    AutoMergeRequeueThenDrop(cfg, worlds, item, n, Step(cfg, worlds(0), item), Step(cfg, worlds(1), item));
  }

  /**
   * A URL whose path is not a pull-request path is dropped on its first round without
   * any call to the hosting service.
   */
  lemma NonPullURLDroppedWithoutCalls(cfg: Config, worlds: nat -> World, item: string, path: string, n: nat)
    requires n >= 1
    requires worlds(0).urlPath(item) == Success(path)
    requires !Paths.IsPullPath(path)
    ensures AutoMerge(cfg, worlds, [item], n) ==
              LoopState([], [Processed(item, Iteration(Drop(InvalidPR(InvalidURL(NotPullRequestURL))), []))])
  {
    DroppedItemLeaves((k: nat, x: string) => Step(cfg, worlds(k), x), 0, item, n);
  }
}
