/**
 * The parts of Go's `path` package the auto-merge worker relies on:
 * `Match` (for patterns made of literal characters and `*`), `Clean` and `Join`.
 * Paths are '/'-separated strings.
 */
module Paths {
  import opened Strings

  /**
   * `path.Match(pattern, name)` for a pattern whose only special character is `*`,
   * which matches any run of non-'/' characters, the empty run included.
   * Go reports a pattern error only for malformed `[` classes or a trailing `\`,
   * which such patterns do not contain.
   */
  predicate Match(pattern: string, name: string)
    ensures Match(pattern, name) && '*' !in pattern ==> name == pattern
    ensures Match(pattern, name) && '/' in name ==> '/' in pattern
    decreases |pattern| + |name|
  {
    if |pattern| == 0 then |name| == 0
    else if pattern[0] == '*' then
      Match(pattern[1..], name) || (|name| > 0 && name[0] != '/' && Match(pattern, name[1..]))
    else
      |name| > 0 && name[0] == pattern[0] && Match(pattern[1..], name[1..])
  }

  /** A literal pattern prefix must be matched character for character. */
  lemma {:induction false} MatchLiteral(lit: string, rest: string, name: string)
    requires '*' !in lit
    ensures Match(lit + rest, name) <==> HasPrefix(name, lit) && Match(rest, name[|lit|..])
    decreases |lit|
  {
    if |lit| == 0 {
      assert lit + rest == rest;
    } else {
      var p := lit + rest;
      assert p[0] == lit[0] && p[1..] == lit[1..] + rest;
      assert '*' !in lit[1..] by {
        forall i | 0 <= i < |lit| - 1 ensures lit[1..][i] != '*' {
          assert lit[1..][i] == lit[i + 1];
        }
      }
      if |name| > 0 {
        MatchLiteral(lit[1..], rest, name[1..]);
        if |lit| <= |name| {
          assert name[1..][|lit| - 1..] == name[|lit|..];
        }
        if HasPrefix(name, lit) {
          assert name[1..][..|lit| - 1] == name[..|lit|][1..];
        }
        if name[0] == lit[0] && HasPrefix(name[1..], lit[1..]) {
          assert name[..|lit|] == [name[0]] + name[1..][..|lit| - 1];
        }
      }
    }
  }

  /** A star followed by a separator (or nothing) consumes exactly the first segment. */
  lemma {:induction false} MatchStar(rest: string, name: string)
    requires |rest| == 0 || rest[0] == '/'
    ensures Match("*" + rest, name) <==> Match(rest, name[FirstSep(name, '/')..])
    decreases |name|
  {
    var p := "*" + rest;
    assert p[1..] == rest;
    if |name| > 0 && name[0] != '/' {
      MatchStar(rest, name[1..]);
      assert name[1..][FirstSep(name[1..], '/')..] == name[FirstSep(name, '/')..];
    }
  }

  /** A star then a separator: the first segment is skipped and the separator must be there. */
  lemma MatchStarSlash(rest: string, name: string)
    ensures Match("*/" + rest, name) <==>
              FirstSep(name, '/') < |name| && Match(rest, name[FirstSep(name, '/') + 1..])
  {
    var k := FirstSep(name, '/');
    var p := "/" + rest;
    assert "*/" + rest == "*" + p;
    MatchStar(p, name);
    assert p[0] == '/' && p[1..] == rest;
    var m := name[k..];
    assert Match(p, m) <==> |m| > 0 && m[0] == '/' && Match(rest, m[1..]);
    if k < |name| {
      assert m[1..] == name[k + 1..];
    }
  }

  /** A trailing star matches exactly the names without a separator. */
  lemma MatchFinalStar(name: string)
    ensures Match("*", name) <==> '/' !in name
  {
    assert "*" == "*" + "";
    MatchStar("", name);
    var k := FirstSep(name, '/');
    if k == |name| {
      assert name[..k] == name;
    }
  }

  /** The pull-request URL path pattern of the worker. */
  const PullPattern: string := "/*/*/pull/*"

  /** The path splits into exactly ["", owner, repo, "pull", number]. */
  predicate IsPullPath(path: string) {
    var parts := Split(path, '/');
    |parts| == 5 && parts[0] == "" && parts[3] == "pull"
  }

  /** The last two pieces are "pull" and a separator-free tail. */
  lemma PullTail(m: string)
    ensures (|Split(m, '/')| == 2 && Split(m, '/')[0] == "pull") <==>
              HasPrefix(m, "pull/") && '/' !in m[5..]
  {
    var k := FirstSep(m, '/');
    SplitAtFirst(m, '/');
    if k < |m| {
      var t := m[k + 1..];
      SplitSingle(t, '/');
      if m[..k] == "pull" {
        assert k == 4;
        assert m[..5] == m[..k] + [m[k]];
        assert m[5..] == t;
      }
    }
    if HasPrefix(m, "pull/") {
      assert m[..5][..4] == "pull" && m[..4] == m[..5][..4];
      assert '/' !in m[..4];
      assert m[4] == m[..5][4] == '/';
      assert k == 4;
      assert m[..k] == "pull";
      assert m[k + 1..] == m[5..];
      SplitSingle(m[5..], '/');
    }
  }

  /** Three nested piece counts: peeling one segment off the front. */
  lemma SplitPeel(m: string)
    ensures |Split(m, '/')| >= 2 <==> FirstSep(m, '/') < |m|
    ensures FirstSep(m, '/') < |m| ==>
              Split(m, '/')[1..] == Split(m[FirstSep(m, '/') + 1..], '/')
  {
    SplitAtFirst(m, '/');
  }

  /** The last two segments: the literal "pull", a separator, then a star matching the number. */
  lemma PullSuffix(m: string)
    ensures Match("pull/" + "*", m) <==> |Split(m, '/')| == 2 && Split(m, '/')[0] == "pull"
  {
    MatchLiteral("pull/", "*", m);
    if HasPrefix(m, "pull/") {
      MatchFinalStar(m[5..]);
    }
    PullTail(m);
  }

  /** Peeling one `*` segment off a pattern peels one piece off the split. */
  lemma StarSegment(rest: string, m: string)
    ensures |Split(m, '/')| >= 2 <==> FirstSep(m, '/') < |m|
    ensures Match("*/" + rest, m) <==>
              FirstSep(m, '/') < |m| && Match(rest, m[FirstSep(m, '/') + 1..])
    ensures FirstSep(m, '/') < |m| ==> Split(m, '/')[1..] == Split(m[FirstSep(m, '/') + 1..], '/')
  {
    MatchStarSlash(rest, m);
    SplitPeel(m);
  }

  /** The repository segment and what follows it. */
  lemma RepoSuffix(m: string)
    ensures Match("*/" + ("pull/" + "*"), m) <==> |Split(m, '/')| == 3 && Split(m, '/')[1] == "pull"
  {
    StarSegment("pull/" + "*", m);
    if FirstSep(m, '/') < |m| {
      var t := m[FirstSep(m, '/') + 1..];
      PullSuffix(t);
      assert Split(m, '/')[1..] == Split(t, '/');
    }
  }

  /** The owner segment and what follows it. */
  lemma OwnerSuffix(m: string)
    ensures Match("*/" + ("*/" + ("pull/" + "*")), m) <==> |Split(m, '/')| == 4 && Split(m, '/')[2] == "pull"
  {
    StarSegment("*/" + ("pull/" + "*"), m);
    if FirstSep(m, '/') < |m| {
      var t := m[FirstSep(m, '/') + 1..];
      RepoSuffix(t);
      assert Split(m, '/')[1..] == Split(t, '/');
    }
  }

  /** PullPattern accepts exactly the paths that split into "", owner, repo, "pull", number. */
  lemma PullPatternSegments(path: string)
    ensures Match(PullPattern, path) <==> IsPullPath(path)
  {
    assert PullPattern == "/" + ("*/" + ("*/" + ("pull/" + "*")));
    MatchLiteral("/", "*/" + ("*/" + ("pull/" + "*")), path);
    SplitAtFirst(path, '/');
    var k := FirstSep(path, '/');
    if HasPrefix(path, "/") {
      assert k == 0;
      OwnerSuffix(path[1..]);
    } else if k < |path| {
      assert |Split(path, '/')[0]| > 0;
    }
  }

  /** One element of a cleaned path: non-empty, not `.` or `..`, no separator. */
  predicate IsName(e: string) {
    e != "" && e != "." && e != ".." && '/' !in e
  }

  /** The elements a cleaned path may hold: names, and leading `..` when not rooted. */
  predicate CleanStack(stack: seq<string>, rooted: bool) {
    && (forall i :: 0 <= i < |stack| ==> IsName(stack[i]) || (stack[i] == ".." && !rooted))
    && (forall i, j :: 0 <= i < j < |stack| && stack[j] == ".." ==> stack[i] == "..")
  }

  /** One step of lexical path cleaning: skip empty and `.`, let `..` pop a name. */
  function Push(stack: seq<string>, elem: string, rooted: bool): seq<string> {
    if elem == "" || elem == "." then stack
    else if elem == ".." then
      if |stack| > 0 && stack[|stack| - 1] != ".." then stack[..|stack| - 1]
      else if rooted then stack
      else stack + [".."]
    else stack + [elem]
  }

  /** Lexical cleaning of a whole element sequence, left to right. */
  function Reduce(elems: seq<string>, rooted: bool): (stack: seq<string>)
    ensures NoSep(elems, '/') ==> CleanStack(stack, rooted)
    decreases |elems|
  {
    if |elems| == 0 then []
    else
      var init := elems[..|elems| - 1];
      assert NoSep(elems, '/') ==> NoSep(init, '/') by {
        if NoSep(elems, '/') {
          forall i | 0 <= i < |init| ensures '/' !in init[i] {
            assert init[i] == elems[i];
          }
        }
      }
      Push(Reduce(init, rooted), elems[|elems| - 1], rooted)
  }

  /**
   * `path.Clean`: the shortest lexically equivalent path. Runs of separators become
   * one, `.` elements vanish, `..` removes the name before it (and is dropped at the
   * root), and an empty result becomes "." (or "/" when rooted).
   */
  function Clean(p: string): (c: string)
    ensures c != ""
    ensures c[0] == '/' <==> |p| > 0 && p[0] == '/'
    ensures c == "/" || c[|c| - 1] != '/'
  {
    if p == "" then "."
    else
      var rooted := p[0] == '/';
      var stack := Reduce(Split(p, '/'), rooted);
      RenderShape(stack, rooted);
      Render(stack, rooted)
  }

  /** The last character of a join is that of its last piece, when that piece is non-empty. */
  lemma {:induction false} JoinWithLast(parts: seq<string>, sep: char)
    requires |parts| >= 1 && |parts[|parts| - 1]| > 0
    ensures var j := JoinWith(parts, sep);
            |j| > 0 && j[|j| - 1] == parts[|parts| - 1][|parts[|parts| - 1]| - 1]
    decreases |parts|
  {
    if |parts| > 1 {
      assert parts[1..][|parts| - 2] == parts[|parts| - 1];
      JoinWithLast(parts[1..], sep);
    }
  }

  /** A rendered clean stack starts with '/' exactly when rooted, and ends with '/' only as the root. */
  lemma RenderShape(stack: seq<string>, rooted: bool)
    requires CleanStack(stack, rooted)
    ensures var c := Render(stack, rooted);
            (c[0] == '/' <==> rooted) && (c == "/" || c[|c| - 1] != '/')
  {
    var c := Render(stack, rooted);
    if |stack| > 0 {
      CleanStackJoin(stack, rooted);
      var last := stack[|stack| - 1];
      assert |last| > 0 && '/' !in last;
      JoinWithLast(stack, '/');
      assert last[|last| - 1] in last;
      var body := JoinWith(stack, '/');
      assert c[|c| - 1] == body[|body| - 1];
    }
  }

  /** The text of a cleaned element stack: "/" in front when rooted, "." for nothing. */
  function Render(stack: seq<string>, rooted: bool): (c: string)
    ensures c != ""
  {
    var body := JoinWith(stack, '/');
    if rooted then "/" + body
    else if body == "" then "."
    else body
  }

  /** `path.Join`: the non-empty tail of the elements joined by '/' and cleaned; "" if all are empty. */
  function Join(elems: seq<string>): (r: string)
    ensures r == "" <==> forall i :: 0 <= i < |elems| ==> elems[i] == ""
    decreases |elems|
  {
    if |elems| == 0 then ""
    else if elems[0] == "" then Join(elems[1..])
    else Clean(JoinWith(elems, '/'))
  }

  /** Two names joined under a root, the shape of every join the worker performs. */
  lemma JoinTwoNames(root: string, a: string, b: string)
    requires IsName(a) && IsName(b)
    ensures Join([root, a, b]) == DirPrefix(Clean(root)) + a + "/" + b
  {
    var names := [a, b];
    assert AllNames(names);
    JoinNames(root, names);
    assert [root] + names == [root, a, b];
    assert names[1..] == [b];
    assert JoinWith(names, '/') == a + "/" + b;
  }

  /** A non-empty join is already clean, as path.Join promises. */
  lemma {:induction false} JoinIsClean(elems: seq<string>)
    ensures Join(elems) == "" || Clean(Join(elems)) == Join(elems)
    decreases |elems|
  {
    if |elems| > 0 {
      if elems[0] == "" {
        JoinIsClean(elems[1..]);
      } else {
        CleanIdempotent(JoinWith(elems, '/'));
      }
    }
  }

  /** The directory prefix a cleaned path contributes when names are joined under it. */
  function DirPrefix(c: string): string {
    if c == "." then "" else if c == "/" then "/" else c + "/"
  }

  predicate AllNames(names: seq<string>) {
    forall i :: 0 <= i < |names| ==> IsName(names[i])
  }

  /** Appending names to the input appends them to the cleaned output. */
  lemma {:induction false} ReduceAppendNames(elems: seq<string>, names: seq<string>, rooted: bool)
    requires AllNames(names)
    ensures Reduce(elems + names, rooted) == Reduce(elems, rooted) + names
    decreases |names|
  {
    if |names| == 0 {
      assert elems + names == elems;
    } else {
      var init := names[..|names| - 1];
      assert AllNames(init) by {
        forall i | 0 <= i < |init| ensures IsName(init[i]) {
          assert init[i] == names[i];
        }
      }
      ReduceAppendNames(elems, init, rooted);
      assert (elems + names)[..|elems + names| - 1] == elems + init;
      assert IsName(names[|names| - 1]);
    }
  }

  /** Empty elements only contribute nothing. */
  lemma {:induction false} ReduceEmpties(lead: seq<string>, rooted: bool)
    requires forall i :: 0 <= i < |lead| ==> lead[i] == ""
    ensures Reduce(lead, rooted) == []
    decreases |lead|
  {
    if |lead| > 0 {
      ReduceEmpties(lead[..|lead| - 1], rooted);
    }
  }

  /** A stack that is already clean is its own cleaning, whatever empty elements precede it. */
  lemma {:induction false} ReduceClean(lead: seq<string>, stack: seq<string>, rooted: bool)
    requires forall i :: 0 <= i < |lead| ==> lead[i] == ""
    requires CleanStack(stack, rooted)
    ensures Reduce(lead + stack, rooted) == stack
    decreases |stack|
  {
    if |stack| == 0 {
      assert lead + stack == lead;
      ReduceEmpties(lead, rooted);
    } else {
      var init := stack[..|stack| - 1];
      assert CleanStack(init, rooted) by {
        forall i | 0 <= i < |init| ensures IsName(init[i]) || (init[i] == ".." && !rooted) {
          assert init[i] == stack[i];
        }
        forall i, j | 0 <= i < j < |init| && init[j] == ".." ensures init[i] == ".." {
          assert init[i] == stack[i] && init[j] == stack[j];
        }
      }
      ReduceClean(lead, init, rooted);
      assert (lead + stack)[..|lead + stack| - 1] == lead + init;
      var last := stack[|stack| - 1];
      if last == ".." {
        if |init| > 0 {
          assert init[|init| - 1] == stack[|stack| - 2];
        }
      }
      assert init + [last] == stack;
    }
  }

  /** A clean non-empty stack joins to a string that starts with its first name's first character. */
  lemma CleanStackJoin(stack: seq<string>, rooted: bool)
    requires CleanStack(stack, rooted) && |stack| > 0
    ensures NoSep(stack, '/')
    ensures |JoinWith(stack, '/')| > 0 && JoinWith(stack, '/')[0] != '/'
  {
    assert stack[0] != "" && '/' !in stack[0];
    JoinWithHead(stack, '/');
    assert stack[0][0] in stack[0];
  }

  /** The cleaned text of "." is "." itself. */
  lemma CleanDot()
    ensures Clean(".") == "."
  {
    SplitNoSep(".", '/');
    assert Reduce(["."], false) == Push(Reduce([], false), ".", false);
  }

  /** A rooted clean stack renders to a path that cleaning leaves alone. */
  lemma CleanRenderRooted(stack: seq<string>)
    requires CleanStack(stack, true)
    ensures Clean(Render(stack, true)) == Render(stack, true)
  {
    var body := JoinWith(stack, '/');
    var c := Render(stack, true);
    assert c == "" + ['/'] + body;
    SplitConcat("", body, '/');
    if |stack| == 0 {
      assert Split(c, '/') == ["", ""] + stack;
      ReduceClean(["", ""], stack, true);
    } else {
      CleanStackJoin(stack, true);
      SplitJoin(stack, '/');
      assert Split(c, '/') == [""] + stack;
      ReduceClean([""], stack, true);
    }
  }

  /** A relative, non-empty clean stack renders to a path that cleaning leaves alone. */
  lemma CleanRenderRelative(stack: seq<string>)
    requires CleanStack(stack, false) && |stack| > 0
    ensures Clean(Render(stack, false)) == Render(stack, false)
  {
    CleanStackJoin(stack, false);
    SplitJoin(stack, '/');
    assert [] + stack == stack;
    ReduceClean([], stack, false);
  }

  /** Cleaning is idempotent. */
  lemma CleanIdempotent(p: string)
    ensures Clean(Clean(p)) == Clean(p)
  {
    if p == "" {
      CleanDot();
      return;
    }
    var rooted := p[0] == '/';
    var stack := Reduce(Split(p, '/'), rooted);
    assert CleanStack(stack, rooted);
    if rooted {
      CleanRenderRooted(stack);
    } else if |stack| == 0 {
      CleanDot();
    } else {
      CleanRenderRelative(stack);
    }
  }

  /** Names joined without a root are already clean. */
  lemma CleanNames(names: seq<string>)
    requires |names| >= 1 && AllNames(names)
    ensures NoSep(names, '/')
    ensures |JoinWith(names, '/')| > 0 && JoinWith(names, '/')[0] != '/'
    ensures Clean(JoinWith(names, '/')) == JoinWith(names, '/')
  {
    var j := JoinWith(names, '/');
    assert NoSep(names, '/') by {
      forall i | 0 <= i < |names| ensures '/' !in names[i] {
        assert IsName(names[i]);
      }
    }
    assert names[0] != "" && '/' !in names[0];
    JoinWithHead(names, '/');
    assert names[0][0] in names[0];
    SplitJoin(names, '/');
    ReduceAppendNames([], names, false);
    assert [] + names == names;
  }

  /** Rendering a clean stack with names appended puts the names under the stack's text. */
  lemma RenderAppend(stack: seq<string>, names: seq<string>, rooted: bool)
    requires CleanStack(stack, rooted)
    requires |names| >= 1 && AllNames(names)
    ensures Render(stack + names, rooted) == DirPrefix(Render(stack, rooted)) + JoinWith(names, '/')
  {
    if |stack| == 0 {
      RenderNames(names, rooted);
      assert stack + names == names;
    } else if rooted {
      RenderAppendRooted(stack, names);
    } else {
      RenderAppendRelative(stack, names);
    }
  }

  lemma RenderNames(names: seq<string>, rooted: bool)
    requires |names| >= 1 && AllNames(names)
    ensures Render(names, rooted) == DirPrefix(Render([], rooted)) + JoinWith(names, '/')
  {
    var j := JoinWith(names, '/');
    assert names[0] != "";
    JoinWithHead(names, '/');
    assert j != "";
    if rooted {
      assert Render([], rooted) == "/";
    } else {
      assert Render([], rooted) == ".";
    }
  }

  lemma RenderAppendRooted(stack: seq<string>, names: seq<string>)
    requires CleanStack(stack, true) && |stack| >= 1
    requires |names| >= 1
    ensures Render(stack + names, true) == Render(stack, true) + "/" + JoinWith(names, '/')
    ensures DirPrefix(Render(stack, true)) == Render(stack, true) + "/"
  {
    var js := JoinWith(stack, '/');
    var j := JoinWith(names, '/');
    JoinWithAppend(stack, names, '/');
    assert JoinWith(stack + names, '/') == js + "/" + j;
    RootedRenderAppend(js, j);
    CleanStackJoin(stack, true);
    RootedDirPrefix(js);
  }

  /** Text form of a rooted append: "/" in front of "a/b" is "/a" followed by "/b". */
  lemma RootedRenderAppend(js: string, j: string)
    ensures "/" + (js + "/" + j) == ("/" + js) + "/" + j
  {
  }

  /** A rooted path with a non-empty body is neither "." nor "/", so its prefix adds a '/'. */
  lemma RootedDirPrefix(js: string)
    requires |js| > 0
    ensures DirPrefix("/" + js) == "/" + js + "/"
  {
    var c := "/" + js;
    assert c[0] == '/' && |c| >= 2;
    assert c != "." && c != "/";
  }

  lemma RenderAppendRelative(stack: seq<string>, names: seq<string>)
    requires CleanStack(stack, false) && |stack| >= 1
    requires |names| >= 1
    ensures Render(stack + names, false) == Render(stack, false) + "/" + JoinWith(names, '/')
    ensures DirPrefix(Render(stack, false)) == Render(stack, false) + "/"
  {
    JoinWithAppend(stack, names, '/');
    CleanStackJoin(stack, false);
    var js := JoinWith(stack, '/');
    assert Render(stack, false) == js;
    assert js[0] != '/';
    assert js != "/";
  }

  /** Cleaning a root followed by names cleans the root and keeps the names. */
  lemma CleanRootThenNames(root: string, names: seq<string>)
    requires root != ""
    requires |names| >= 1 && AllNames(names)
    ensures Clean(root + "/" + JoinWith(names, '/')) == DirPrefix(Clean(root)) + JoinWith(names, '/')
  {
    CleanNames(names);
    var j := JoinWith(names, '/');
    SplitJoin(names, '/');
    var rooted := root[0] == '/';
    var whole := root + ['/'] + j;
    assert whole == root + "/" + j;
    assert whole[0] == root[0];
    SplitConcat(root, j, '/');
    ReduceAppendNames(Split(root, '/'), names, rooted);
    var stack := Reduce(Split(root, '/'), rooted);
    assert Reduce(Split(whole, '/'), rooted) == stack + names;
    RenderAppend(stack, names, rooted);
  }

  /** Joining names under a root puts them after the cleaned root. */
  lemma JoinNames(root: string, names: seq<string>)
    requires |names| >= 1 && AllNames(names)
    ensures Join([root] + names) == DirPrefix(Clean(root)) + JoinWith(names, '/')
  {
    assert ([root] + names)[1..] == names;
    CleanNames(names);
    if root == "" {
      assert Join([root] + names) == Join(names);
      assert Clean(root) == ".";
    } else {
      assert JoinWith([root] + names, '/') == root + "/" + JoinWith(names, '/');
      CleanRootThenNames(root, names);
    }
  }
}
