/**
 * The command's start-up: choosing the merge method from the flags, locating the
 * local mirrors under GOPATH, and seeding the queue with the command-line URLs.
 */
module Cli {
  import Strings
  import Paths
  import GitHub
  import Collaborators

  /** One second as a Go `time.Duration` (nanoseconds). */
  const Second: int := 1_000_000_000

  /** Default of both -interval and -i. */
  const DefaultInterval: int := 10 * Second

  /** The parsed flag values; -interval and -i share one variable. */
  datatype Flags = Flags(interval: int, merge: bool, squash: bool, rebase: bool)

  /** The flag defaults: -merge is true, -squash and -rebase are false. */
  const DefaultFlags: Flags := Flags(DefaultInterval, true, false, false)

  /** What parseOpt leaves in the package variables. */
  datatype Options = Options(interval: int, mergeMethod: string, prs: seq<string>)

  /**
   * parseOpt's merge-method choice: squash wins over rebase, and "merge" is the
   * fallback. The -merge flag is never read.
   */
  function SelectMergeMethod(f: Flags): (m: string)
    ensures m in {"merge", "squash", "rebase"}
    ensures m == "squash" <==> f.squash
    ensures m == "rebase" <==> !f.squash && f.rebase
    ensures m == "merge" <==> !f.squash && !f.rebase
  {
    if f.squash then "squash"
    else if f.rebase then "rebase"
    else "merge"
  }

  /** Whatever -merge is set to, the method is the same. */
  lemma MergeFlagIgnored(f: Flags, merge: bool)
    ensures SelectMergeMethod(f.(merge := merge)) == SelectMergeMethod(f)
  {
  }

  /** parseOpt: the interval, the chosen method and the positional arguments in order. */
  function ParseOpt(f: Flags, args: seq<string>): (o: Options)
    ensures o.prs == args
    ensures o.interval == f.interval
    ensures o.mergeMethod == SelectMergeMethod(f)
    ensures o.mergeMethod in {"merge", "squash", "rebase"}
    ensures f == DefaultFlags ==> o == Options(10 * Second, "merge", args)
  {
    Options(f.interval, SelectMergeMethod(f), args)
  }

  /** repoPath: GOPATH joined with "src" and "github.com". */
  function RepoPath(gopath: string): (r: string)
    ensures r == Paths.DirPrefix(Paths.Clean(gopath)) + "src/github.com"
  {
    RepoPathShape(gopath);
    Paths.Join([gopath, "src", "github.com"])
  }

  /** Joining GOPATH with the two fixed names appends them to its cleaned form. */
  lemma RepoPathShape(gopath: string)
    ensures Paths.Join([gopath, "src", "github.com"]) == Paths.DirPrefix(Paths.Clean(gopath)) + "src/github.com"
  {
    var src, host := "src", "github.com";
    assert Paths.IsName(src) && Paths.IsName(host);
    Paths.JoinTwoNames(gopath, src, host);
    var dir := Paths.DirPrefix(Paths.Clean(gopath));
    assert dir + src + "/" + host == dir + (src + "/" + host);
    FixedNamesJoin();
  }

  /**
   * The two fixed names joined by '/' spell the root's suffix. A separate lemma keeps this
   * literal comparison out of RepoPathShape's proof obligation.
   */
  lemma FixedNamesJoin()
    ensures "src" + "/" + "github.com" == "src/github.com"
  {
  }

  /** The repository root is already a clean path. */
  lemma RepoPathIsClean(gopath: string)
    ensures Paths.Clean(RepoPath(gopath)) == RepoPath(gopath)
  {
    Paths.JoinIsClean([gopath, "src", "github.com"]);
  }

  /**
   * The mirror the update runs in for owner/repo is the repository root followed by
   * owner and repo, when both are plain names.
   */
  lemma UpdatePathUnderRepoPath(gopath: string, owner: string, repo: string)
    requires Paths.IsName(owner) && Paths.IsName(repo)
    ensures Paths.Join([RepoPath(gopath), owner, repo]) == RepoPath(gopath) + "/" + owner + "/" + repo
  {
    var root := RepoPath(gopath);
    Paths.JoinTwoNames(root, owner, repo);
    RepoPathIsClean(gopath);
    assert root[|root| - 1] == 'm';
  }

  /** The worker's configuration built by main from the options and GOPATH. */
  function NewConfig(o: Options, gopath: string): (cfg: GitHub.Config)
    ensures cfg.mergeMethod == o.mergeMethod && cfg.sleep == o.interval
    ensures cfg.repoPath == Paths.DirPrefix(Paths.Clean(gopath)) + "src/github.com"
  {
    GitHub.Config(o.mergeMethod, o.interval, RepoPath(gopath))
  }

  /** main's seeding loop: every URL is pushed, in argument order, after what is queued. */
  method Seed(queue: seq<string>, prs: seq<string>) returns (q: seq<string>)
    ensures q == queue + prs
  {
    q := queue;
    var i := 0;
    while i < |prs|
      invariant 0 <= i <= |prs|
      invariant q == queue + prs[..i]
    {
      q := q + [prs[i]];
      i := i + 1;
    }
    assert prs[..|prs|] == prs;
  }

  /**
   * The command's start-up: the configuration handed to the worker and the queue after
   * seeding an empty queue with the positional arguments.
   */
  method Start(f: Flags, args: seq<string>, gopath: string) returns (cfg: GitHub.Config, queue: seq<string>)
    ensures cfg.mergeMethod in {"merge", "squash", "rebase"}
    ensures cfg.mergeMethod == "squash" <==> f.squash
    ensures cfg.mergeMethod == "rebase" <==> !f.squash && f.rebase
    ensures cfg.mergeMethod == SelectMergeMethod(f)
    ensures cfg.sleep == f.interval
    ensures cfg.repoPath == RepoPath(gopath)
    ensures queue == args
  {
    var o := ParseOpt(f, args);
    cfg := NewConfig(o, gopath);
    queue := Seed([], o.prs);
  }

  /** Seeded URLs are processed in command-line order, whatever each round's world answers. */
  lemma SeedsProcessedInOrder(cfg: GitHub.Config, worlds: nat -> Collaborators.World, args: seq<string>, n: nat)
    requires n <= |args|
    ensures |GitHub.AutoMerge(cfg, worlds, args, n).trace| == n
    ensures forall i :: 0 <= i < n ==> GitHub.AutoMerge(cfg, worlds, args, n).trace[i].item == args[i]
  {
    GitHub.FifoOrder((k: nat, item: string) => GitHub.Step(cfg, worlds(k), item), 0, args, n);
  }
}
