/** Path helpers: `normalizePath`, `dirname` and `makeRelativePath`. */
module PathUtils {
  import opened Wrappers
  import opened Text

  /** `path.replaceAll(/\\/g, "/")`: every backslash becomes a forward slash. */
  function NormalizePath(path: string): (r: string)
    ensures |r| == |path|
    ensures forall i :: 0 <= i < |path| ==> r[i] == (if path[i] == '\\' then '/' else path[i])
  {
    ReplaceChar(path, '\\', '/')
  }

  /** A normalised path has no backslash, and normalising again changes nothing. */
  lemma NormalizedHasNoBackslash(path: string)
    ensures '\\' !in NormalizePath(path)
    ensures NormalizePath(NormalizePath(path)) == NormalizePath(path)
  {
    var r := NormalizePath(path);
    assert forall i :: 0 <= i < |r| ==> r[i] != '\\';
  }

  /** A path without backslashes is already normal. */
  lemma NormalizeNoBackslash(path: string)
    requires '\\' !in path
    ensures NormalizePath(path) == path
  {
    assert forall i :: 0 <= i < |path| ==> path[i] != '\\';
  }

  /** `dirname(path)` */
  function Dirname(path: string): string {
    var normalized := NormalizePath(path);
    var lastSlash := LastIndexOf(normalized, '/');
    if lastSlash == -1 then "."
    else if lastSlash == 0 then "/"
    else normalized[..lastSlash]
  }

  /** The three outcomes of `dirname`. */
  lemma DirnameCases(path: string)
    ensures var n := NormalizePath(path);
      && ('/' !in n ==> Dirname(path) == ".")
      && (forall dir, base :: n == dir + "/" + base && '/' !in base ==>
            Dirname(path) == if dir == "" then "/" else dir)
  {
    var n := NormalizePath(path);
    forall dir, base | n == dir + "/" + base && '/' !in base
      ensures Dirname(path) == if dir == "" then "/" else dir
    {
      var k := LastIndexOf(n, '/');
      assert n[|dir|] == '/';
      assert n[|dir| + 1..] == base;
      InSuffix(n, |dir|, k);
      InSuffix(n, k, |dir|);
      assert n[..|dir|] == dir;
    }
  }

  lemma InSuffix(s: string, i: int, j: int)
    ensures 0 <= i < j < |s| ==> s[j] in s[i + 1..]
  {
    if 0 <= i < j < |s| {
      assert s[i + 1..][j - i - 1] == s[j];
    }
  }

  /** `dirname` of a normalised path whose last slash is at `k > 0` is the text before it. */
  lemma DirnameAtSlash(path: string, k: nat)
    requires 0 < k < |path| && NormalizePath(path)[k] == '/' && '/' !in NormalizePath(path)[k + 1..]
    ensures Dirname(path) == NormalizePath(path)[..k]
  {
    LastIndexOfIs(NormalizePath(path), '/', k);
  }

  /** `dirname("a/b/c.js")` is `"a/b"`. */
  lemma DirnameNested()
    ensures Dirname("a/b/c.js") == "a/b"
  {
    NormalizeNoBackslash("a/b/c.js");
    assert "a/b/c.js"[4..] == "c.js";
    DirnameAtSlash("a/b/c.js", 3);
  }

  /** A Windows path is normalised before its last separator is found. */
  lemma DirnameWindows()
    ensures Dirname("C:\\t\\x.js") == "C:/t"
  {
    var n := NormalizePath("C:\\t\\x.js");
    assert n == "C:/t/x.js" by {
      assert |n| == 9;
      forall i | 0 <= i < 9 ensures n[i] == "C:/t/x.js"[i] { }
    }
    assert n[5..] == "x.js";
    DirnameAtSlash("C:\\t\\x.js", 4);
  }

  /** Index into a list the way JavaScript does, `undefined` past the end. */
  function At(parts: seq<string>, i: nat): Option<string> {
    if i < |parts| then Some(parts[i]) else None
  }

  /** The length of the longest common prefix of two lists. */
  function CommonPrefix(a: seq<string>, b: seq<string>): (r: nat)
    ensures r <= |a| && r <= |b| && a[..r] == b[..r]
    ensures r < |a| && r < |b| ==> a[r] != b[r]
  {
    if a != [] && b != [] && a[0] == b[0] then
      var k := CommonPrefix(a[1..], b[1..]);
      assert a[..k + 1] == [a[0]] + a[1..][..k];
      assert b[..k + 1] == [b[0]] + b[1..][..k];
      k + 1
    else 0
  }

  /** Any index where two lists stop agreeing is their common-prefix length. */
  lemma CommonPrefixUnique(a: seq<string>, b: seq<string>, i: nat)
    requires i <= |a| && i <= |b| && a[..i] == b[..i]
    requires i == |a| || i == |b| || a[i] != b[i]
    ensures i == CommonPrefix(a, b)
  {
  }

  /** `n` copies of `".."`. */
  function Ups(n: nat): (r: seq<string>)
    ensures |r| == n && forall k :: 0 <= k < n ==> r[k] == ".."
  {
    if n == 0 then [] else Ups(n - 1) + [".."]
  }

  /** What `makeRelativePath(root, path)` returns. */
  function RelativePath(root: string, path: string): string {
    var normalizedRoot := NormalizePath(root);
    var normalizedPath := NormalizePath(path);
    if StartsWith(normalizedPath, normalizedRoot) then
      var relativePath := normalizedPath[|normalizedRoot|..];
      if StartsWith(relativePath, "/") then relativePath[1..] else relativePath
    else
      Join(ClimbParts(Split(normalizedRoot, '/'), Split(normalizedPath, '/')), "/")
  }

  /** One `..` per root component past the common prefix, then the rest of the path. */
  function ClimbParts(rootParts: seq<string>, pathParts: seq<string>): seq<string> {
    var i := CommonPrefix(rootParts, pathParts);
    Ups(|rootParts| - i) + pathParts[i..]
  }

  /** `makeRelativePath`: the prefix test, then the component walk of its two loops. */
  method MakeRelativePath(root: string, path: string) returns (r: string)
    ensures r == RelativePath(root, path)
  {
    var normalizedRoot := NormalizePath(root);
    var normalizedPath := NormalizePath(path);
    if StartsWith(normalizedPath, normalizedRoot) {
      var relativePath := normalizedPath[|normalizedRoot|..];
      if StartsWith(relativePath, "/") {
        return relativePath[1..];
      }
      return relativePath;
    }
    var rootParts := Split(normalizedRoot, '/');
    var pathParts := Split(normalizedPath, '/');
    assert rootParts != pathParts by {
      if rootParts == pathParts {
        SplitInjective(normalizedRoot, normalizedPath, '/');
        assert false;
      }
    }
    var i := CountCommon(rootParts, pathParts);
    var relativeParts := Climb(|rootParts| - i, pathParts[i..]);
    return Join(relativeParts, "/");
  }

  /**
   * The `while` loop: step while the components agree (`undefined` past either
   * end). It stops only because the two lists differ, which the prefix test
   * guarantees.
   */
  method CountCommon(rootParts: seq<string>, pathParts: seq<string>) returns (i: nat)
    requires rootParts != pathParts
    ensures i == CommonPrefix(rootParts, pathParts)
  {
    i := 0;
    while At(rootParts, i) == At(pathParts, i)
      invariant i <= |rootParts| && i <= |pathParts|
      invariant rootParts[..i] == pathParts[..i]
      decreases |rootParts| - i
    {
      if i == |rootParts| || i == |pathParts| {
        // Both lists are exhausted, so they are equal.
        assert false;
      }
      i := i + 1;
    }
    CommonPrefixUnique(rootParts, pathParts, i);
  }

  /** The `for` loop pushing `upLevels` times `".."`, then the spread of `downLevels`. */
  method Climb(upLevels: nat, downLevels: seq<string>) returns (relativeParts: seq<string>)
    ensures relativeParts == Ups(upLevels) + downLevels
  {
    relativeParts := [];
    for j := 0 to upLevels
      invariant relativeParts == Ups(j)
    {
      relativeParts := relativeParts + [".."];
    }
    relativeParts := relativeParts + downLevels;
  }

  /** The assumption the `while` loop rests on: outside the prefix branch the components differ before the root runs out. */
  lemma OutsideRootDiverges(root: string, path: string)
    requires !StartsWith(NormalizePath(path), NormalizePath(root))
    ensures CommonPrefix(Split(NormalizePath(root), '/'), Split(NormalizePath(path), '/'))
          < |Split(NormalizePath(root), '/')|
  {
    var nr, np := NormalizePath(root), NormalizePath(path);
    var rp, pp := Split(nr, '/'), Split(np, '/');
    var i := CommonPrefix(rp, pp);
    if i == |rp| {
      if i == |pp| {
        assert rp == rp[..i] && pp == pp[..i];
        SplitInjective(nr, np, '/');
      } else {
        var rest := pp[i..];
        assert pp == rp + rest by {
          assert rp == pp[..i];
          assert pp == pp[..i] + rest;
        }
        JoinSplit(nr, '/');
        JoinSplit(np, '/');
        JoinAppend(rp, rest, "/");
        assert false;
      }
    }
  }

  /** The path itself is `""` relative to itself. */
  lemma RelativeToItself(root: string)
    ensures RelativePath(root, root) == ""
  {
  }

  /** Under the root, the result is the rest of the path with one leading `/` removed. */
  lemma BelowRoot(root: string, rest: string)
    requires '\\' !in root + rest
    ensures RelativePath(root, root + rest) ==
      if StartsWith(rest, "/") then rest[1..] else rest
  {
    NormalizeNoBackslash(root + rest);
    NormalizeNoBackslash(root);
    assert (root + rest)[..|root|] == root;
    assert (root + rest)[|root|..] == rest;
  }

  /**
   * Outside the root, the result is one `..` per root component beyond the
   * common prefix, then the path's remaining components: climbing that many
   * components from the root and descending leads to the path.
   */
  lemma OutsideRoot(root: string, path: string)
    requires !StartsWith(NormalizePath(path), NormalizePath(root))
    ensures var rootParts := Split(NormalizePath(root), '/');
      var pathParts := Split(NormalizePath(path), '/');
      var i := CommonPrefix(rootParts, pathParts);
      var up := |rootParts| - i;
      && up >= 1
      && Split(RelativePath(root, path), '/') == Ups(up) + pathParts[i..]
      && rootParts[..|rootParts| - up] + pathParts[i..] == pathParts
  {
    var nr, np := NormalizePath(root), NormalizePath(path);
    var rootParts := Split(nr, '/');
    var pathParts := Split(np, '/');
    var i := CommonPrefix(rootParts, pathParts);
    assert i < |rootParts| by { OutsideRootDiverges(root, path); }
    var joined := Join(ClimbParts(rootParts, pathParts), "/");
    assert RelativePath(root, path) == joined;
    assert Split(joined, '/') == Ups(|rootParts| - i) + pathParts[i..] && rootParts[..i] + pathParts[i..] == pathParts by {
      ClimbSplits(rootParts, pathParts, i);
    }
  }

  /** Splitting the joined climbing parts gives them back, and they lead from the root to the path. */
  lemma ClimbSplits(rootParts: seq<string>, pathParts: seq<string>, i: nat)
    requires i == CommonPrefix(rootParts, pathParts) && i < |rootParts|
    requires forall k :: 0 <= k < |pathParts| ==> '/' !in pathParts[k]
    ensures Split(Join(ClimbParts(rootParts, pathParts), "/"), '/') == Ups(|rootParts| - i) + pathParts[i..]
    ensures rootParts[..i] + pathParts[i..] == pathParts
  {
    var parts := ClimbParts(rootParts, pathParts);
    assert Split(Join(parts, "/"), '/') == parts by {
      ClimbPartsSeparatorFree(rootParts, pathParts);
      SplitJoin(parts, '/');
    }
    TakeDrop(pathParts, i);
  }

  /** The climbing parts of split paths hold no separator, and there is at least one. */
  lemma ClimbPartsSeparatorFree(rootParts: seq<string>, pathParts: seq<string>)
    requires CommonPrefix(rootParts, pathParts) < |rootParts|
    requires forall k :: 0 <= k < |pathParts| ==> '/' !in pathParts[k]
    ensures var parts := ClimbParts(rootParts, pathParts);
      |parts| >= 1 && forall k :: 0 <= k < |parts| ==> '/' !in parts[k]
  {
    var i := CommonPrefix(rootParts, pathParts);
    var up := |rootParts| - i;
    var parts := ClimbParts(rootParts, pathParts);
    forall k | 0 <= k < |parts| ensures '/' !in parts[k] {
      if k >= up {
        assert parts[k] == pathParts[i + k - up];
      }
    }
  }

  lemma SplitThreeParts(x: string, y: string, z: string)
    requires '/' !in x && '/' !in y && '/' !in z
    ensures Split(x + "/" + y + "/" + z, '/') == [x, y, z]
  {
    var tail := y + ['/'] + z;
    assert x + "/" + y + "/" + z == x + ['/'] + tail;
    SplitAtSep(x, tail, '/');
    SplitAtSep(y, z, '/');
    SplitNoSep(z, '/');
  }

  /** A component name: no separator of either kind. */
  predicate Component(x: string) {
    '/' !in x && '\\' !in x
  }

  /**
   * A sibling directory is reached through one `..`: relative to `x/m/y`, the
   * path `x/m/z` is `../z` (`/a/c` relative to `/a/b` is `../c`), as long as
   * `y` is not a prefix of `z` (otherwise the character prefix test wins).
   */
  lemma SiblingDirectory(x: string, m: string, y: string, z: string)
    requires Component(x) && Component(m) && Component(y) && Component(z)
    requires !StartsWith(z, y)
    ensures RelativePath(x + "/" + m + "/" + y, x + "/" + m + "/" + z) == "../" + z
  {
    var root := x + "/" + m + "/" + y;
    var path := x + "/" + m + "/" + z;
    SiblingNotBelow(x, m, y, z);
    SiblingParts(x, m, y, z);
    ClimbOne(z);
  }

  lemma SiblingNotBelow(x: string, m: string, y: string, z: string)
    requires Component(x) && Component(m) && Component(y) && Component(z)
    requires !StartsWith(z, y)
    ensures var root := x + "/" + m + "/" + y;
      var path := x + "/" + m + "/" + z;
      NormalizePath(root) == root && NormalizePath(path) == path && !StartsWith(path, root)
  {
    var root := x + "/" + m + "/" + y;
    var path := x + "/" + m + "/" + z;
    var p := |x| + |m| + 2;
    assert root[p..] == y && path[p..] == z;
    NormalizeNoBackslash(root);
    NormalizeNoBackslash(path);
  }

  lemma SiblingParts(x: string, m: string, y: string, z: string)
    requires Component(x) && Component(m) && Component(y) && Component(z) && y != z
    ensures var rootParts := Split(x + "/" + m + "/" + y, '/');
      var pathParts := Split(x + "/" + m + "/" + z, '/');
      && rootParts == [x, m, y] && pathParts == [x, m, z]
      && CommonPrefix(rootParts, pathParts) == 2
  {
    SplitThreeParts(x, m, y);
    SplitThreeParts(x, m, z);
    var rootParts, pathParts := [x, m, y], [x, m, z];
    assert rootParts[..2] == pathParts[..2];
    CommonPrefixUnique(rootParts, pathParts, 2);
  }

  lemma ClimbOne(z: string)
    ensures Join(Ups(1) + [z], "/") == "../" + z
  {
    assert Ups(1) + [z] == [".."] + [z];
    JoinCons("..", [z], "/");
  }
}
