/** What the include tree is, without recursion: when it can be written out, which files are in it,
    and in what order. */
module IncludesMeaning {
  import opened Prelude
  import opened Includes

  /** A chain of includes that starts at this file. */
  ghost predicate From(fs: FileSystem, path: string, chain: seq<string>) {
    chain != [] && chain[0] == path && Chain(fs, chain)
  }

  /** Nothing is wrong with the file itself or with what its patterns match. */
  ghost predicate SoundAt(fs: FileSystem, file: string, depth: nat) {
    && depth <= MAX_INCLUDE_DEPTH
    && file in fs && fs[file].Parsed?
    && BadGlob !in fs[file].includes
    && forall m :: HasMatch(fs, file, m) ==> m.Directory? || m.File?
  }

  ghost predicate EndsSound(fs: FileSystem, chain: seq<string>, depth: nat)
    requires chain != []
  {
    SoundAt(fs, chain[|chain| - 1], depth + |chain| - 1)
  }

  // ---------------------------------------------------------------- when it can be written out

  lemma {:induction false} ChainExpandsFrom(fs: FileSystem, chain: seq<string>, depth: nat, i: nat)
    requires Chain(fs, chain) && i < |chain| && depth <= MAX_INCLUDE_DEPTH && Expand(fs, chain[0], depth).Some?
    ensures depth + i <= MAX_INCLUDE_DEPTH && Expand(fs, chain[i], depth + i).Some?
  {
    if i > 0 {
      ChainExpandsFrom(fs, chain, depth, i - 1);
      IncludedExpand(fs, chain[i - 1], depth + i - 1, File(chain[i]));
    }
  }

  lemma ExpandedIsSound(fs: FileSystem, file: string, depth: nat)
    requires depth <= MAX_INCLUDE_DEPTH && Expand(fs, file, depth).Some?
    ensures SoundAt(fs, file, depth)
  {
    if BadGlob in fs[file].includes {
      PatternsExpand(fs, fs[file].includes, depth + 1, BadGlob);
    }
    forall m | HasMatch(fs, file, m) ensures m.Directory? || m.File? {
      IncludedExpand(fs, file, depth, m);
    }
  }

  lemma {:induction false} AllMatchesExpand(fs: FileSystem, matches: seq<Match>, depth: nat)
    requires depth <= MAX_INCLUDE_DEPTH + 1 && forall m :: m in matches ==> ExpandMatch(fs, m, depth).Some?
    ensures ExpandMatches(fs, matches, depth).Some?
  {
    if matches != [] {
      AllMatchesExpand(fs, matches[..|matches| - 1], depth);
    }
  }

  lemma {:induction false} AllPatternsExpand(fs: FileSystem, patterns: seq<Pattern>, depth: nat)
    requires depth <= MAX_INCLUDE_DEPTH + 1 && forall p :: p in patterns ==> ExpandPattern(fs, p, depth).Some?
    ensures ExpandPatterns(fs, patterns, depth).Some?
  {
    if patterns != [] {
      AllPatternsExpand(fs, patterns[..|patterns| - 1], depth);
    }
  }

  lemma {:induction false} SoundChainsExpand(fs: FileSystem, path: string, depth: nat)
    requires depth <= MAX_INCLUDE_DEPTH + 1
    requires forall chain :: From(fs, path, chain) ==> EndsSound(fs, chain, depth)
    ensures Expand(fs, path, depth).Some?
    decreases MAX_INCLUDE_DEPTH + 1 - depth
  {
    assert From(fs, path, [path]) && EndsSound(fs, [path], depth);
    forall m | HasMatch(fs, path, m) ensures ExpandMatch(fs, m, depth + 1).Some? {
      if m.File? {
        forall chain | From(fs, m.path, chain) ensures EndsSound(fs, chain, depth + 1) {
          var longer := [path] + chain;
          assert forall i :: 0 < i < |longer| ==> longer[i] == chain[i - 1];
          assert From(fs, path, longer) && EndsSound(fs, longer, depth);
        }
        SoundChainsExpand(fs, m.path, depth + 1);
      }
    }
    forall p | p in fs[path].includes ensures ExpandPattern(fs, p, depth + 1).Some? {
      forall m | m in p.matches ensures ExpandMatch(fs, m, depth + 1).Some? {
        assert HasMatch(fs, path, m);
      }
      AllMatchesExpand(fs, p.matches, depth + 1);
    }
    AllPatternsExpand(fs, fs[path].includes, depth + 1);
  }

  /** The tree of a file can be written out exactly if every chain of includes from it ends, within
      the depth limit, at a readable and well-formed file with sound patterns. */
  lemma ExpandsIffChainsAreSound(fs: FileSystem, path: string)
    ensures Expand(fs, path, 0).Some? <==> forall chain :: From(fs, path, chain) ==> EndsSound(fs, chain, 0)
  {
    if Expand(fs, path, 0).Some? {
      forall chain | From(fs, path, chain) ensures EndsSound(fs, chain, 0) {
        ChainExpandsFrom(fs, chain, 0, |chain| - 1);
        ExpandedIsSound(fs, chain[|chain| - 1], |chain| - 1);
      }
    } else if forall chain :: From(fs, path, chain) ==> EndsSound(fs, chain, 0) {
      SoundChainsExpand(fs, path, 0);
    }
  }

  // ---------------------------------------------------------------- which files are in it

  ghost predicate Reaches(fs: FileSystem, path: string, f: string) {
    exists chain :: From(fs, path, chain) && chain[|chain| - 1] == f
  }

  lemma {:induction false} ChainEndIsInTree(fs: FileSystem, chain: seq<string>, depth: nat)
    requires chain != [] && Chain(fs, chain) && depth <= MAX_INCLUDE_DEPTH && Expand(fs, chain[0], depth).Some?
    ensures chain[|chain| - 1] in Expand(fs, chain[0], depth).value
    decreases |chain|
  {
    var last := chain[|chain| - 1];
    TreeMembers(fs, chain[0], depth, last);
    if |chain| > 1 {
      IncludedExpand(fs, chain[0], depth, File(chain[1]));
      assert forall i :: 0 <= i < |chain| - 1 ==> chain[1..][i] == chain[i + 1];
      ChainEndIsInTree(fs, chain[1..], depth + 1);
      assert Under(fs, chain[0], depth, chain[1], last);
    }
  }

  lemma {:induction false} TreeIsReached(fs: FileSystem, path: string, depth: nat, f: string)
    returns (chain: seq<string>)
    requires depth <= MAX_INCLUDE_DEPTH && Expand(fs, path, depth).Some? && f in Expand(fs, path, depth).value
    ensures From(fs, path, chain) && chain[|chain| - 1] == f
    decreases MAX_INCLUDE_DEPTH - depth
  {
    TreeMembers(fs, path, depth, f);
    if f == path {
      chain := [path];
    } else {
      var child :| Under(fs, path, depth, child, f);
      var rest := TreeIsReached(fs, child, depth + 1, f);
      chain := [path] + rest;
      assert forall i :: 0 < i < |chain| ==> chain[i] == rest[i - 1];
    }
  }

  /** And then it holds exactly the files that some chain of includes reaches. */
  lemma FilesAreTheReached(fs: FileSystem, path: string, depth: nat, f: string)
    requires depth <= MAX_INCLUDE_DEPTH && Expand(fs, path, depth).Some?
    ensures f in Expand(fs, path, depth).value <==> Reaches(fs, path, f)
  {
    if f in Expand(fs, path, depth).value {
      var chain := TreeIsReached(fs, path, depth, f);
    }
    if chain :| From(fs, path, chain) && chain[|chain| - 1] == f {
      ChainEndIsInTree(fs, chain, depth);
    }
  }

  // ---------------------------------------------------------------- in what order

  ghost predicate Before(files: seq<string>, x: string, y: string) {
    exists i, j :: 0 <= i < j < |files| && files[i] == x && files[j] == y
  }

  lemma BeforeInParts(pre: seq<string>, a: seq<string>, mid: seq<string>, b: seq<string>, post: seq<string>,
                      x: string, y: string)
    requires x in a && y in b
    ensures Before(pre + a + mid + b + post, x, y)
  {
    var files := pre + a + mid + b + post;
    var i :| 0 <= i < |a| && a[i] == x;
    ghost var j :| 0 <= j < |b| && b[j] == y;
    assert files[|pre| + i] == x && files[|pre| + |a| + |mid| + j] == y;
  }

  lemma BeforeWithin(pre: seq<string>, a: seq<string>, post: seq<string>, x: string, y: string)
    requires Before(a, x, y)
    ensures Before(pre + a + post, x, y)
  {
    var i, j :| 0 <= i < j < |a| && a[i] == x && a[j] == y;
    var files := pre + a + post;
    assert files[|pre| + i] == x && files[|pre| + j] == y;
  }

  ghost predicate Part(files: seq<string>, pre: seq<string>, part: seq<string>, post: seq<string>) {
    files == pre + part + post
  }

  ghost predicate Contains(files: seq<string>, part: seq<string>) {
    exists pre, post :: Part(files, pre, part, post)
  }

  lemma ContainsItself(files: seq<string>)
    ensures Contains(files, files)
  {
    assert Part(files, [], files, []);
  }

  lemma ContainsInside(files: seq<string>, whole: seq<string>, part: seq<string>)
    requires Contains(files, whole) && Contains(whole, part)
    ensures Contains(files, part)
  {
    var p, q :| Part(files, p, whole, q);
    var r, s :| Part(whole, r, part, s);
    assert Part(files, p + r, part, s + q);
  }

  lemma {:induction false} MatchIsContained(fs: FileSystem, matches: seq<Match>, depth: nat, m: Match)
    requires depth <= MAX_INCLUDE_DEPTH + 1 && ExpandMatches(fs, matches, depth).Some? && m in matches
    ensures ExpandMatch(fs, m, depth).Some?
    ensures Contains(ExpandMatches(fs, matches, depth).value, ExpandMatch(fs, m, depth).value)
  {
    var n := |matches| - 1;
    var front, last := ExpandMatches(fs, matches[..n], depth).value, ExpandMatch(fs, matches[n], depth).value;
    if m == matches[n] {
      assert Part(front + last, front, last, []);
    } else {
      MatchIsContained(fs, matches[..n], depth, m);
      assert Part(front + last, [], front, last);
      ContainsInside(front + last, front, ExpandMatch(fs, m, depth).value);
    }
  }

  /** All matches of the patterns, in order. */
  function AllMatches(patterns: seq<Pattern>): seq<Match> {
    if patterns == [] then []
    else
      var last := patterns[|patterns| - 1];
      AllMatches(patterns[..|patterns| - 1]) + if last.Matches? then last.matches else []
  }

  lemma {:induction false} MatchesAppend(fs: FileSystem, a: seq<Match>, b: seq<Match>, depth: nat)
    requires depth <= MAX_INCLUDE_DEPTH + 1
    requires ExpandMatches(fs, a, depth).Some? && ExpandMatches(fs, b, depth).Some?
    ensures ExpandMatches(fs, a + b, depth)
         == Some(ExpandMatches(fs, a, depth).value + ExpandMatches(fs, b, depth).value)
  {
    if b == [] {
      assert a + b == a && ExpandMatches(fs, b, depth).value == [];
      assert ExpandMatches(fs, a, depth).value + [] == ExpandMatches(fs, a, depth).value;
    } else {
      var n := |b| - 1;
      MatchesAppend(fs, a, b[..n], depth);
      assert (a + b)[..|a| + n] == a + b[..n];
      var x, y, z := ExpandMatches(fs, a, depth).value, ExpandMatches(fs, b[..n], depth).value,
          ExpandMatch(fs, b[n], depth).value;
      assert x + (y + z) == x + y + z;
    }
  }

  lemma {:induction false} PatternsAreTheirMatches(fs: FileSystem, patterns: seq<Pattern>, depth: nat)
    requires depth <= MAX_INCLUDE_DEPTH + 1 && ExpandPatterns(fs, patterns, depth).Some?
    ensures ExpandMatches(fs, AllMatches(patterns), depth) == ExpandPatterns(fs, patterns, depth)
  {
    if patterns != [] {
      var n := |patterns| - 1;
      PatternsAreTheirMatches(fs, patterns[..n], depth);
      MatchesAppend(fs, AllMatches(patterns[..n]), patterns[n].matches, depth);
    }
  }

  lemma {:induction false} InAllMatches(patterns: seq<Pattern>, m: Match)
    ensures m in AllMatches(patterns) <==> exists p :: p in patterns && p.Matches? && m in p.matches
  {
    if patterns != [] {
      var front, last := patterns[..|patterns| - 1], patterns[|patterns| - 1];
      InAllMatches(front, m);
      assert forall p :: p in patterns <==> p in front || p == last;
    }
  }

  /** Every tree under a file is a contiguous part of the file's own. */
  lemma {:induction false} TreesAreContiguous(fs: FileSystem, path: string, depth: nat, f: string) returns (d: nat)
    requires depth <= MAX_INCLUDE_DEPTH && Expand(fs, path, depth).Some? && f in Expand(fs, path, depth).value
    ensures d <= MAX_INCLUDE_DEPTH && Expand(fs, f, d).Some?
    ensures Contains(Expand(fs, path, depth).value, Expand(fs, f, d).value)
    decreases MAX_INCLUDE_DEPTH - depth
  {
    var files := Expand(fs, path, depth).value;
    TreeMembers(fs, path, depth, f);
    if f == path {
      d := depth;
      ContainsItself(files);
    } else {
      var child :| Under(fs, path, depth, child, f);
      d := TreesAreContiguous(fs, child, depth + 1, f);
      ChildIsContained(fs, path, depth, child);
      ContainsInside(files, Expand(fs, child, depth + 1).value, Expand(fs, f, d).value);
    }
  }

  lemma ChildIsContained(fs: FileSystem, path: string, depth: nat, child: string)
    requires depth <= MAX_INCLUDE_DEPTH && Expand(fs, path, depth).Some? && HasMatch(fs, path, File(child))
    ensures Expand(fs, child, depth + 1).Some?
    ensures Contains(Expand(fs, path, depth).value, Expand(fs, child, depth + 1).value)
  {
    var includes := fs[path].includes;
    PatternsAreTheirMatches(fs, includes, depth + 1);
    InAllMatches(includes, File(child));
    MatchIsContained(fs, AllMatches(includes), depth + 1, File(child));
    var rest := ExpandPatterns(fs, includes, depth + 1).value;
    assert Part([path] + rest, [path], rest, []);
    ContainsInside([path] + rest, rest, Expand(fs, child, depth + 1).value);
  }

  lemma RootComesFirst(fs: FileSystem, f: string, depth: nat, g: string)
    requires depth <= MAX_INCLUDE_DEPTH && Expand(fs, f, depth).Some? && HasMatch(fs, f, File(g))
    ensures Before(Expand(fs, f, depth).value, f, g)
  {
    IncludedExpand(fs, f, depth, File(g));
    TreeMembers(fs, g, depth + 1, g);
    var rest := ExpandPatterns(fs, fs[f].includes, depth + 1).value;
    var p :| p in fs[f].includes && p.Matches? && File(g) in p.matches;
    PatternsExpand(fs, fs[f].includes, depth + 1, p);
    assert InMatch(fs, File(g), depth + 1, g);
    MatchesMembers(fs, p.matches, depth + 1, g);
    assert InPattern(fs, p, depth + 1, g);
    PatternsMembers(fs, fs[f].includes, depth + 1, g);
    BeforeInParts([], [f], [], rest, [], f, g);
    assert [] + [f] + [] + rest + [] == Expand(fs, f, depth).value;
  }

  /** The order is the preorder: a file stands before what it includes ... */
  lemma IncludersComeFirst(fs: FileSystem, path: string, f: string, g: string)
    requires Expand(fs, path, 0).Some? && f in Expand(fs, path, 0).value && HasMatch(fs, f, File(g))
    ensures Before(Expand(fs, path, 0).value, f, g)
  {
    var d := TreesAreContiguous(fs, path, 0, f);
    RootComesFirst(fs, f, d, g);
    hide Expand, Before;
    ContainedBefore(Expand(fs, path, 0).value, Expand(fs, f, d).value, f, g);
  }

  lemma ContainedBefore(files: seq<string>, part: seq<string>, x: string, y: string)
    requires Contains(files, part) && Before(part, x, y)
    ensures Before(files, x, y)
  {
    var pre, post :| Part(files, pre, part, post);
    BeforeWithin(pre, part, post, x, y);
  }

  lemma EarlierInTree(fs: FileSystem, f: string, depth: nat, i: nat, j: nat, x: string, y: string)
    requires depth <= MAX_INCLUDE_DEPTH && Expand(fs, f, depth).Some?
    requires var all := AllMatches(fs[f].includes);
             i < j < |all| && InMatch(fs, all[i], depth + 1, x) && InMatch(fs, all[j], depth + 1, y)
    ensures Before(Expand(fs, f, depth).value, x, y)
  {
    var all := AllMatches(fs[f].includes);
    PatternsAreTheirMatches(fs, fs[f].includes, depth + 1);
    var rest := ExpandMatches(fs, all, depth + 1).value;
    MatchesInOrder(fs, all, depth + 1, i, j, x, y);
    BeforeWithin([f], rest, [], x, y);
    assert [f] + rest + [] == Expand(fs, f, depth).value;
  }

  lemma ReachedIsInMatch(fs: FileSystem, f: string, depth: nat, i: nat, x: string)
    requires depth <= MAX_INCLUDE_DEPTH && Expand(fs, f, depth).Some?
    requires var all := AllMatches(fs[f].includes); i < |all| && all[i].File? && Reaches(fs, all[i].path, x)
    ensures InMatch(fs, AllMatches(fs[f].includes)[i], depth + 1, x)
  {
    var all := AllMatches(fs[f].includes);
    PatternsAreTheirMatches(fs, fs[f].includes, depth + 1);
    MatchIsContained(fs, all, depth + 1, all[i]);
    FilesAreTheReached(fs, all[i].path, depth + 1, x);
  }

  /** ... and all that is under an earlier match of a file before all that is under a later one. */
  lemma EarlierMatchesComeFirst(fs: FileSystem, path: string, f: string, i: nat, j: nat, x: string, y: string)
    requires Expand(fs, path, 0).Some? && f in Expand(fs, path, 0).value && f in fs && fs[f].Parsed?
    requires var all := AllMatches(fs[f].includes);
             && i < j < |all| && all[i].File? && all[j].File?
             && Reaches(fs, all[i].path, x) && Reaches(fs, all[j].path, y)
    ensures Before(Expand(fs, path, 0).value, x, y)
  {
    var d := TreesAreContiguous(fs, path, 0, f);
    hide Reaches, Expand, Before;
    ReachedIsInMatch(fs, f, d, i, x);
    ReachedIsInMatch(fs, f, d, j, y);
    EarlierInTree(fs, f, d, i, j, x, y);
    ContainedBefore(Expand(fs, path, 0).value, Expand(fs, f, d).value, x, y);
  }

  lemma {:induction false} MatchesInOrder(fs: FileSystem, matches: seq<Match>, depth: nat, i: nat, j: nat, x: string,
                                          y: string)
    requires depth <= MAX_INCLUDE_DEPTH + 1 && i < j < |matches| && ExpandMatches(fs, matches, depth).Some?
    requires InMatch(fs, matches[i], depth, x) && InMatch(fs, matches[j], depth, y)
    ensures Before(ExpandMatches(fs, matches, depth).value, x, y)
  {
    var n := |matches| - 1;
    var front, last := ExpandMatches(fs, matches[..n], depth).value, ExpandMatch(fs, matches[n], depth).value;
    if j < n {
      MatchesInOrder(fs, matches[..n], depth, i, j, x, y);
      BeforeWithin([], front, last, x, y);
      assert [] + front + last == front + last;
    } else {
      MatchesMembers(fs, matches[..n], depth, x);
      assert matches[..n][i] in matches[..n];
      BeforeInParts([], front, [], last, [], x, y);
      assert [] + front + [] + last + [] == front + last;
    }
  }
}
