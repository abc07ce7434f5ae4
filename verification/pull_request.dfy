/**
 * A pull request as the worker sees it: the reference parsed from its URL and the
 * snapshot fetched for it, with the predicates the merge loop consults.
 */
module PullRequests {
  import opened Wrappers
  import opened Strings
  import opened Strconv
  import Paths
  import opened Collaborators

  /** Owner, repository and number named by a pull-request URL. */
  datatype Ref = Ref(owner: string, repo: string, number: int)

  /** Why a work item could not be turned into a reference. */
  datatype ParseError =
    | BadURL(reason: string)   // url.Parse failed
    | NotPullRequestURL        // the path does not match the pull-request pattern
    | BadNumber(err: NumError) // the last segment is not a decimal int

  /** Why a pull request could not be built: a bad URL, or the fetch failed. */
  datatype NewPRError = InvalidURL(err: ParseError) | FetchFailed(reason: string)

  /** A parsed and fetched pull request; `source` is the work item it came from. */
  datatype PullRequest = PullRequest(
    source: string,
    owner: string,
    repo: string,
    number: int,
    snapshot: Snapshot)

  /** The outcome of building a pull request, with the remote calls it made. */
  datatype Attempt = Attempt(result: Result<PullRequest, NewPRError>, calls: seq<Call>)

  /**
   * The path part of parsePRURL: the path must match Paths.PullPattern, and then
   * segment 1 is the owner, segment 2 the repository and segment 4 goes through Atoi.
   * Neither owner nor repository is required to be non-empty, and a signed number passes.
   */
  function ParsePath(path: string): (r: Result<Ref, ParseError>)
    ensures r.Success? <==> Paths.IsPullPath(path) && Atoi(Split(path, '/')[4]).Success?
    ensures r.Success? ==>
              && r.value.owner == Split(path, '/')[1]
              && r.value.repo == Split(path, '/')[2]
              && r.value.number == Atoi(Split(path, '/')[4]).value
    ensures r.Success? ==> '/' !in r.value.owner && '/' !in r.value.repo
    ensures r == Failure(NotPullRequestURL) <==> !Paths.IsPullPath(path)
    ensures r.Failure? && r.error.BadNumber? ==>
              Paths.IsPullPath(path) && r.error.err == NumError(Split(path, '/')[4])
  {
    Paths.PullPatternSegments(path);
    if !Paths.Match(Paths.PullPattern, path) then Failure(NotPullRequestURL)
    else
      var parts := Split(path, '/');
      match Atoi(parts[4])
      case Failure(e) => Failure(BadNumber(e))
      case Success(n) => Success(Ref(parts[1], parts[2], n))
  }

  /**
   * parsePRURL: parse the URL, then its path. It succeeds exactly when the URL parses,
   * its path has the pull shape and the last segment is a decimal int, and then yields
   * segments 1, 2 and the value of 4.
   */
  function ParsePRURL(s: string, urlPath: string -> Result<string, string>): (r: Result<Ref, ParseError>)
    ensures urlPath(s).Failure? ==> r == Failure(BadURL(urlPath(s).error))
    ensures r.Success? <==>
              && urlPath(s).Success?
              && Paths.IsPullPath(urlPath(s).value)
              && Atoi(Split(urlPath(s).value, '/')[4]).Success?
    ensures r.Success? ==>
              var parts := Split(urlPath(s).value, '/');
              r.value == Ref(parts[1], parts[2], Atoi(parts[4]).value)
    ensures r == Failure(NotPullRequestURL) <==> urlPath(s).Success? && !Paths.IsPullPath(urlPath(s).value)
    ensures r.Failure? && r.error.BadNumber? ==> r.error.err == NumError(Split(urlPath(s).value, '/')[4])
  {
    match urlPath(s)
    case Failure(e) => Failure(BadURL(e))
    case Success(path) => ParsePath(path)
  }

  /** newPR: parse first, and fetch only a successfully parsed reference. */
  function NewPR(s: string, w: World): (a: Attempt)
    ensures ParsePRURL(s, w.urlPath).Failure? ==>
              a.calls == [] && a.result == Failure(InvalidURL(ParsePRURL(s, w.urlPath).error))
    ensures ParsePRURL(s, w.urlPath).Success? ==>
              var ref := ParsePRURL(s, w.urlPath).value;
              && a.calls == [Fetch(ref.owner, ref.repo, ref.number)]
              && (a.result.Success? <==> w.fetch(ref.owner, ref.repo, ref.number).Success?)
    ensures a.result.Success? ==>
              var ref := ParsePRURL(s, w.urlPath).value;
              && a.result.value.source == s
              && Ref(a.result.value.owner, a.result.value.repo, a.result.value.number) == ref
              && a.result.value.snapshot == w.fetch(ref.owner, ref.repo, ref.number).value
  {
    match ParsePRURL(s, w.urlPath)
    case Failure(e) => Attempt(Failure(InvalidURL(e)), [])
    case Success(ref) =>
      var call := Fetch(ref.owner, ref.repo, ref.number);
      match w.fetch(ref.owner, ref.repo, ref.number)
      case Failure(e) => Attempt(Failure(FetchFailed(e)), [call])
      case Success(p) => Attempt(Success(PullRequest(s, ref.owner, ref.repo, ref.number, p)), [call])
  }

  /** mergeable(): a nil flag reads as false. */
  function Mergeable(pr: PullRequest): (b: bool)
    ensures b <==> pr.snapshot.mergeable == Some(true)
  {
    pr.snapshot.mergeable.GetOr(false)
  }

  /** merged(): a nil flag reads as false. */
  function Merged(pr: PullRequest): (b: bool)
    ensures b <==> pr.snapshot.merged == Some(true)
  {
    pr.snapshot.merged.GetOr(false)
  }

  /** closed(): the closing time is present and is not the zero time. */
  function Closed(pr: PullRequest): (b: bool)
    ensures b <==> pr.snapshot.closedAt.Some? && pr.snapshot.closedAt.value != ZeroInstant
  {
    pr.snapshot.closedAt.GetOr(ZeroInstant) != ZeroInstant
  }

  /** title(): a nil title reads as "". */
  function Title(pr: PullRequest): (t: string)
    ensures pr.snapshot.title.None? ==> t == ""
    ensures pr.snapshot.title.Some? ==> t == pr.snapshot.title.value
  {
    pr.snapshot.title.GetOr("")
  }

  /**
   * headBranch(): despite its name, the label of the BASE branch; the head branch is
   * never read. A nil base or label reads as "".
   */
  function HeadBranch(pr: PullRequest): (b: string)
    ensures pr.snapshot.base.None? ==> b == ""
    ensures pr.snapshot.base.Some? ==> b == pr.snapshot.base.value.branchLabel.GetOr("")
  {
    pr.snapshot.base.GetOr(Branch(None)).branchLabel.GetOr("")
  }

  /** The branch handed to the update depends on the base only, whatever the head is. */
  lemma HeadBranchIgnoresHead(pr: PullRequest, head: Option<Branch>)
    ensures HeadBranch(pr.(snapshot := pr.snapshot.(head := head))) == HeadBranch(pr)
  {
  }

  /** The canonical path of a reference: "/owner/repo/pull/number". */
  function PullPath(owner: string, repo: string, number: int): string {
    "/" + owner + "/" + repo + "/pull/" + Itoa(number)
  }

  /** Parsing the canonical path of a reference gives the reference back. */
  lemma ParsePathRoundTrip(owner: string, repo: string, number: int)
    requires '/' !in owner && '/' !in repo
    requires InInt64(number)
    ensures ParsePath(PullPath(owner, repo, number)) == Success(Ref(owner, repo, number))
  {
    var digits := Itoa(number);
    AtoiItoa(number);
    PullPathSplits(owner, repo, digits);
    assert Split(PullPath(owner, repo, number), '/')[4] == digits;
  }

  /** The canonical path splits back into its five segments. */
  lemma PullPathSplits(owner: string, repo: string, digits: string)
    requires '/' !in owner && '/' !in repo && '/' !in digits
    ensures Split("/" + owner + "/" + repo + "/pull/" + digits, '/') == ["", owner, repo, "pull", digits]
  {
    var parts := ["", owner, repo, "pull", digits];
    assert NoSep(parts, '/');
    PullPathJoins(owner, repo, digits);
    SplitJoin(parts, '/');
  }

  /** The canonical path is its five segments joined by '/'. */
  lemma PullPathJoins(owner: string, repo: string, digits: string)
    ensures JoinWith(["", owner, repo, "pull", digits], '/') == "/" + owner + "/" + repo + "/pull/" + digits
  {
    var j3 := "pull" + "/" + digits;
    var j2 := repo + "/" + j3;
    var j1 := owner + "/" + j2;
    assert JoinWith([digits], '/') == digits;
    assert ["pull", digits][1..] == [digits];
    assert JoinWith(["pull", digits], '/') == j3;
    assert [repo, "pull", digits][1..] == ["pull", digits];
    assert JoinWith([repo, "pull", digits], '/') == j2;
    assert [owner, repo, "pull", digits][1..] == [repo, "pull", digits];
    assert JoinWith([owner, repo, "pull", digits], '/') == j1;
    assert ["", owner, repo, "pull", digits][1..] == [owner, repo, "pull", digits];
    assert "" + "/" + j1 == "/" + owner + "/" + repo + "/pull/" + digits;
  }

  /** The example from the source's comment parses to its owner, repository and number. */
  lemma ParseExample()
    ensures ParsePath("/yagi5/gh-auto-merge/pull/1") == Success(Ref("yagi5", "gh-auto-merge", 1))
  {
    assert Itoa(1) == "1";
    assert PullPath("yagi5", "gh-auto-merge", 1) == "/yagi5/gh-auto-merge/pull/1";
    ParsePathRoundTrip("yagi5", "gh-auto-merge", 1);
  }

  /** Five pieces joined by '/'. */
  lemma JoinFive(a: string, b: string, c: string, d: string, e: string)
    ensures JoinWith([a, b, c, d, e], '/') == a + "/" + b + "/" + c + "/" + d + "/" + e
  {
    var j3 := d + "/" + e;
    var j2 := c + "/" + j3;
    var j1 := b + "/" + j2;
    assert JoinWith([e], '/') == e;
    assert [d, e][1..] == [e];
    assert JoinWith([d, e], '/') == j3;
    assert [c, d, e][1..] == [d, e];
    assert JoinWith([c, d, e], '/') == j2;
    assert [b, c, d, e][1..] == [c, d, e];
    assert JoinWith([b, c, d, e], '/') == j1;
    assert [a, b, c, d, e][1..] == [b, c, d, e];
    assert a + "/" + j1 == a + "/" + b + "/" + c + "/" + d + "/" + e;
  }

  /** A fourth segment other than "pull" is rejected. */
  lemma ParseRejectsOtherLiteral(owner: string, repo: string, word: string, tail: string)
    requires '/' !in owner && '/' !in repo && '/' !in word && '/' !in tail
    requires word != "pull"
    ensures ParsePath("/" + owner + "/" + repo + "/" + word + "/" + tail) == Failure(NotPullRequestURL)
  {
    var parts := ["", owner, repo, word, tail];
    assert NoSep(parts, '/');
    JoinFive("", owner, repo, word, tail);
    var path := "/" + owner + "/" + repo + "/" + word + "/" + tail;
    assert JoinWith(parts, '/') == path;
    SplitJoin(parts, '/');
    assert Split(path, '/')[3] == word;
  }

  /** A sixth segment is rejected. */
  lemma ParseRejectsExtraSegment(owner: string, repo: string, number: string, tail: string)
    requires '/' !in owner && '/' !in repo && '/' !in number && '/' !in tail
    ensures ParsePath("/" + owner + "/" + repo + "/pull/" + number + "/" + tail) == Failure(NotPullRequestURL)
  {
    var path := "/" + owner + "/" + repo + "/pull/" + number;
    PullPathSplits(owner, repo, number);
    SplitNoSep(tail, '/');
    SplitConcat(path, tail, '/');
    assert "/" + owner + "/" + repo + "/pull/" + number + "/" + tail == path + ['/'] + tail;
  }

  /**
   * A last segment holding a character that is neither a digit nor its leading sign is
   * rejected as a bad number.
   */
  lemma ParseRejectsNonNumeric(owner: string, repo: string, number: string, i: nat)
    requires '/' !in owner && '/' !in repo && '/' !in number
    requires i < |number| && !IsDigit(number[i])
    requires i > 0 || (number[0] != '+' && number[0] != '-')
    ensures ParsePath("/" + owner + "/" + repo + "/pull/" + number) == Failure(BadNumber(NumError(number)))
  {
    var path := "/" + owner + "/" + repo + "/pull/" + number;
    PullPathSplits(owner, repo, number);
    assert Split(path, '/')[4] == number;
    AtoiRejectsNonDigit(number, i);
  }
}
