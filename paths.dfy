/** Go's `path/filepath` on a Unix system, as far as the workflows use it:
    `Clean`, `Join` and `Base`, and the project name the archive workflow
    derives from a repository path. */
module FilePaths {
  import opened Text

  /** A path element that `Clean` keeps as it is. */
  predicate ProperName(seg: string) {
    seg != "" && seg != "." && seg != ".."
  }

  predicate ProperNames(segs: seq<string>) {
    forall i :: 0 <= i < |segs| ==> ProperName(segs[i])
  }

  /** A relative path of proper names separated by single slashes, with no
      slash at either end: `a/b.txt`, but not `a//b`, `./a`, `a/` or `/a`. */
  predicate Plain(p: string) {
    ProperNames(Split(p, '/'))
  }

  /** A directory path that `Clean` leaves untouched, relative or absolute. */
  predicate CleanDir(dir: string) {
    Plain(dir) || (|dir| > 1 && dir[0] == '/' && Plain(dir[1..]))
  }

  /** The lexical walk of `Clean` over the elements: drop empty and `.`
      elements, let `..` cancel the previous element (or vanish at the root). */
  function Resolve(stack: seq<string>, segs: seq<string>, rooted: bool): seq<string>
    decreases |segs|
  {
    if |segs| == 0 then stack
    else if segs[0] == "" || segs[0] == "." then Resolve(stack, segs[1..], rooted)
    else if segs[0] == ".." then
      if |stack| > 0 && stack[|stack| - 1] != ".." then Resolve(stack[..|stack| - 1], segs[1..], rooted)
      else if rooted then Resolve(stack, segs[1..], rooted)
      else Resolve(stack + [".."], segs[1..], rooted)
    else Resolve(stack + [segs[0]], segs[1..], rooted)
  }

  /** `filepath.Clean`: the shortest lexically equivalent path. */
  function Clean(p: string): string {
    if p == "" then "."
    else
      var rooted := p[0] == '/';
      var body := Join(Resolve([], Split(p, '/'), rooted), '/');
      if rooted then "/" + body
      else if body == "" then "."
      else body
  }

  /** `filepath.Join(dir, name)`: the two joined by a slash, then cleaned;
      empty elements are ignored. */
  function JoinPath(dir: string, name: string): string {
    if dir != "" then Clean(dir + "/" + name)
    else if name != "" then Clean(name)
    else ""
  }

  /** `p` without the slashes it ends in. */
  function StripTrailingSlashes(p: string): (r: string)
    ensures |r| <= |p| && r == p[..|r|]
    decreases |p|
  {
    if |p| > 0 && p[|p| - 1] == '/' then StripTrailingSlashes(p[..|p| - 1]) else p
  }

  /** What follows the last slash (all of `p` when it has none). */
  function LastElement(p: string): (r: string)
    ensures Free(r, '/')
    decreases |p|
  {
    if |p| == 0 || p[|p| - 1] == '/' then "" else LastElement(p[..|p| - 1]) + [p[|p| - 1]]
  }

  /** Only slashes are stripped, and all of the trailing ones. */
  lemma {:induction false} StrippedSlashes(p: string)
    ensures var r := StripTrailingSlashes(p);
      (forall i :: |r| <= i < |p| ==> p[i] == '/') && (r == "" || r[|r| - 1] != '/')
    decreases |p|
  {
    if |p| > 0 && p[|p| - 1] == '/' {
      StrippedSlashes(p[..|p| - 1]);
    }
  }

  /** The last element is a tail of the path that starts at its beginning or
      just after a slash. */
  lemma {:induction false} LastElementIsTail(p: string)
    ensures var r := LastElement(p);
      |r| <= |p| && r == p[|p| - |r|..] && (|r| < |p| ==> p[|p| - |r| - 1] == '/')
    decreases |p|
  {
    if |p| > 0 && p[|p| - 1] != '/' {
      var q := p[..|p| - 1];
      LastElementIsTail(q);
      var r := LastElement(q);
      assert p[|p| - |r| - 1..] == q[|q| - |r|..] + [p[|p| - 1]];
    }
  }

  /** `filepath.Base`: the last element after trailing slashes are removed;
      `.` for the empty path and `/` for a path of slashes only. */
  function Base(p: string): (r: string)
    ensures r != ""
    ensures r == "/" || Free(r, '/')
  {
    if p == "" then "."
    else
      var last := LastElement(StripTrailingSlashes(p));
      if last == "" then "/" else last
  }

  /** Which name `Base` gives: `.` for the empty path, `/` for a path of
      slashes only, and otherwise the slash-free tail of the path once its
      trailing slashes are stripped, taken from just after the last slash
      before it (or from the start). */
  lemma BaseValue(p: string)
    ensures p == "" ==> Base(p) == "."
    ensures p != "" && StripTrailingSlashes(p) == "" ==> Base(p) == "/"
    ensures var s, r := StripTrailingSlashes(p), Base(p);
      s != "" ==> Free(r, '/') && |r| <= |s| && r == s[|s| - |r|..] && (|r| == |s| || s[|s| - |r| - 1] == '/')
  {
    if p != "" {
      var s := StripTrailingSlashes(p);
      if s != "" {
        StrippedSlashes(p);
        assert s[|s| - 1] != '/';
        assert LastElement(s) == LastElement(s[..|s| - 1]) + [s[|s| - 1]];
        LastElementIsTail(s);
      }
    }
  }

  /** The name the archive workflow looks the project up by:
      `filepath.Base(strings.TrimSuffix(repoPath, ".git"))`. */
  function ProjectName(repoPath: string): string {
    Base(TrimSuffix(repoPath, ".git"))
  }

  // ---- Clean and Join on plain paths ----

  lemma {:induction false} SplitConcat(a: string, b: string, sep: char)
    ensures Split(a + [sep] + b, sep) == Split(a, sep) + Split(b, sep)
    decreases |a|
  {
    if |a| == 0 {
      assert a + [sep] + b == [sep] + b;
      SplitCons(sep, b, sep);
    } else {
      SplitConcat(a[1..], b, sep);
      SplitConcatStep(a[0], a[1..], b, sep);
      assert [a[0]] + a[1..] == a;
    }
  }

  /** The inductive step of `SplitConcat`: one more character in front. */
  lemma SplitConcatStep(c: char, a: string, b: string, sep: char)
    requires Split(a + [sep] + b, sep) == Split(a, sep) + Split(b, sep)
    ensures Split([c] + a + [sep] + b, sep) == Split([c] + a, sep) + Split(b, sep)
  {
    var t := a + [sep] + b;
    assert [c] + a + [sep] + b == [c] + t;
    SplitCons(c, t, sep);
    SplitCons(c, a, sep);
    var A, B := Split(a, sep), Split(b, sep);
    if c == sep {
      PiecesAppend([""], A, B);
    } else {
      FirstPieceExtended([c], A, B);
    }
  }

  lemma PiecesAppend(x: seq<string>, A: seq<string>, B: seq<string>)
    ensures x + (A + B) == (x + A) + B
  {
  }

  lemma FirstPieceExtended(h: string, A: seq<string>, B: seq<string>)
    requires |A| >= 1
    ensures [h + (A + B)[0]] + (A + B)[1..] == ([h + A[0]] + A[1..]) + B
  {
    assert (A + B)[0] == A[0];
    assert (A + B)[1..] == A[1..] + B;
  }

  lemma {:induction false} ResolveAppend(stack: seq<string>, a: seq<string>, b: seq<string>, rooted: bool)
    ensures Resolve(stack, a + b, rooted) == Resolve(Resolve(stack, a, rooted), b, rooted)
    decreases |a|
  {
    if |a| == 0 {
      assert a + b == b;
    } else {
      assert (a + b)[0] == a[0] && (a + b)[1..] == a[1..] + b;
      var s0 := a[0];
      if s0 == "" || s0 == "." {
        ResolveAppend(stack, a[1..], b, rooted);
      } else if s0 == ".." {
        if |stack| > 0 && stack[|stack| - 1] != ".." {
          ResolveAppend(stack[..|stack| - 1], a[1..], b, rooted);
        } else if rooted {
          ResolveAppend(stack, a[1..], b, rooted);
        } else {
          ResolveAppend(stack + [".."], a[1..], b, rooted);
        }
      } else {
        ResolveAppend(stack + [s0], a[1..], b, rooted);
      }
    }
  }

  lemma {:induction false} ResolveProper(stack: seq<string>, segs: seq<string>, rooted: bool)
    requires ProperNames(segs)
    ensures Resolve(stack, segs, rooted) == stack + segs
    decreases |segs|
  {
    if |segs| > 0 {
      ResolveProper(stack + [segs[0]], segs[1..], rooted);
      assert stack + [segs[0]] + segs[1..] == stack + segs;
    }
  }

  /** A plain path is already clean. */
  lemma CleanPlain(p: string)
    requires Plain(p)
    ensures Clean(p) == p
  {
    var segs := Split(p, '/');
    assert ProperName(segs[0]);
    assert p != "" && p[0] != '/';
    ResolveProper([], segs, false);
    assert [] + segs == segs;
    JoinSplit(p, '/');
  }

  lemma PlainConcat(a: string, b: string)
    requires Plain(a) && Plain(b)
    ensures Plain(a + "/" + b)
  {
    SplitConcat(a, b, '/');
    var sa, sb := Split(a, '/'), Split(b, '/');
    forall i | 0 <= i < |sa + sb| ensures ProperName((sa + sb)[i]) {
      if i >= |sa| { assert (sa + sb)[i] == sb[i - |sa|]; }
    }
  }

  /** An absolute path is cleaned as its relative remainder behind one slash. */
  lemma CleanRooted(q: string)
    requires Plain(q)
    ensures Clean("/" + q) == "/" + q
  {
    var p := "/" + q;
    assert p == [] + ['/'] + q;
    SplitConcat([], q, '/');
    var segs := Split(q, '/');
    assert Split(p, '/') == [""] + segs;
    ResolveAppend([], [""], segs, true);
    ResolveProper([], segs, true);
    assert [] + segs == segs;
    JoinSplit(q, '/');
  }

  /** Joining a clean directory and a plain name only inserts one slash:
      nothing is stripped from or added to the name. */
  lemma JoinPlainName(dir: string, name: string)
    requires CleanDir(dir) && Plain(name)
    ensures JoinPath(dir, name) == dir + "/" + name
  {
    if Plain(dir) {
      assert ProperName(Split(dir, '/')[0]);
      assert dir != "";
      PlainConcat(dir, name);
      CleanPlain(dir + "/" + name);
    } else {
      var q := dir[1..];
      assert dir == "/" + q;
      PlainConcat(q, name);
      assert dir + "/" + name == "/" + (q + "/" + name);
      CleanRooted(q + "/" + name);
    }
  }

  /** A trailing slash on the name, as on a directory entry of an archive,
      is dropped by the join. */
  lemma JoinDirectoryName(dir: string, name: string)
    requires CleanDir(dir) && Plain(name)
    ensures JoinPath(dir, name + "/") == dir + "/" + name
  {
    JoinPlainName(dir, name);
    var full := dir + "/" + name;
    assert dir + "/" + (name + "/") == full + "/" + "";
    SplitConcat(full, "", '/');
    assert Split("", '/') == [""];
    var segs := Split(full, '/');
    var rooted := full[0] == '/';
    ResolveAppend([], segs, [""], rooted);
    assert full != "";
  }

  // ---- Base and the project name ----

  lemma {:induction false} LastElementOfFree(d: string, n: string)
    requires Free(n, '/')
    ensures LastElement(d + "/" + n) == n
    decreases |n|
  {
    var p := d + "/" + n;
    if |n| == 0 {
      assert p[|p| - 1] == '/';
    } else {
      assert p[..|p| - 1] == d + "/" + n[..|n| - 1];
      LastElementOfFree(d, n[..|n| - 1]);
      assert n[..|n| - 1] + [n[|n| - 1]] == n;
    }
  }

  /** The project name is the last path element once one `.git` is trimmed. */
  lemma ProjectNameOfRepository(d: string, n: string)
    requires n != "" && Free(n, '/')
    ensures ProjectName(d + "/" + n + ".git") == n
    ensures !HasSuffix(n, ".git") ==> ProjectName(d + "/" + n) == n
  {
    var p := d + "/" + n;
    assert (p + ".git")[..|p + ".git"| - 4] == p;
    assert p[|p| - 1] == n[|n| - 1] != '/';
    LastElementOfFree(d, n);
    if !HasSuffix(n, ".git") {
      assert !HasSuffix(p, ".git") by {
        if |n| >= 4 { assert p[|p| - 4..] == n[|n| - 4..]; }
        else if |p| >= 4 { assert p[|p| - 4..][3 - |n|] == '/'; }
      }
    }
  }

  /** Only a `.git` at the very end is trimmed: with a trailing slash after it,
      the suffix stays part of the name. */
  lemma ProjectNameKeepsSuffixBeforeSlash(d: string, n: string)
    requires n != "" && Free(n, '/')
    ensures ProjectName(d + "/" + n + ".git/") == n + ".git"
  {
    var p := d + "/" + n + ".git/";
    assert !HasSuffix(p, ".git") by { assert p[|p| - 1] == '/'; }
    assert p[..|p| - 1] == d + "/" + (n + ".git");
    assert p[|p| - 2] == 't';
    assert StripTrailingSlashes(p) == p[..|p| - 1];
    LastElementOfFree(d, n + ".git");
  }
}
