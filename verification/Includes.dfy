/** The include loader: one configuration file and everything it includes, merged. */
module Includes {
  import opened Prelude

  const MAX_INCLUDE_DEPTH := 10

  datatype Named = Named(name: string, body: string)

  /** `scalars` stands for every setting that is not merged from includes. */
  datatype Config = Config(
    regions: seq<Named>, domains: seq<Named>, tokens: map<string, string>,
    backends: seq<string>, mappings: seq<string>, scalars: string)

  /** One path a glob pattern matched, with what the file system says about it. */
  datatype Match = Directory(path: string) | StatFails(path: string) | WorldWritable(path: string) | File(path: string)

  /** An include pattern after globbing and sorting. */
  datatype Pattern = BadGlob | Matches(matches: seq<Match>)

  datatype Document = Malformed | Parsed(config: Config, includes: seq<Pattern>)

  /** Readable files by absolute path. */
  type FileSystem = map<string, Document>

  datatype Error =
    | DepthExceeded(file: string)
    | Circular(path: seq<string>, cycle: string)
    | Unreadable(file: string)
    | BadYaml(file: string)
    | BadPattern
    | StatFailed(file: string)
    | Unsafe(file: string)
    | Duplicate(name: string)

  // ---------------------------------------------------------------- reference meaning

  /** The include tree written out in preorder, without any memory of visited files; None when
      some file cannot be loaded or the tree is deeper than the limit. */
  function Expand(fs: FileSystem, path: string, depth: nat): Option<seq<string>>
    requires depth <= MAX_INCLUDE_DEPTH + 1
    decreases MAX_INCLUDE_DEPTH + 2 - depth, 0, 0
  {
    if depth > MAX_INCLUDE_DEPTH || path !in fs || fs[path].Malformed? then None
    else
      var includes := fs[path].includes;
      match ExpandPatterns(fs, includes, depth + 1)
      case None => None
      case Some(files) => Some([path] + files)
  }

  function ExpandPatterns(fs: FileSystem, patterns: seq<Pattern>, depth: nat): Option<seq<string>>
    requires depth <= MAX_INCLUDE_DEPTH + 1
    decreases MAX_INCLUDE_DEPTH + 2 - depth, 2, |patterns|
  {
    if patterns == [] then Some([])
    else Joined(ExpandPatterns(fs, patterns[..|patterns| - 1], depth),
        ExpandPattern(fs, patterns[|patterns| - 1], depth))
  }

  function ExpandPattern(fs: FileSystem, pattern: Pattern, depth: nat): Option<seq<string>>
    requires depth <= MAX_INCLUDE_DEPTH + 1
    decreases MAX_INCLUDE_DEPTH + 2 - depth, 1, |if pattern.BadGlob? then [] else pattern.matches| + 1
  {
    if pattern.BadGlob? then None else ExpandMatches(fs, pattern.matches, depth)
  }

  function ExpandMatches(fs: FileSystem, matches: seq<Match>, depth: nat): Option<seq<string>>
    requires depth <= MAX_INCLUDE_DEPTH + 1
    decreases MAX_INCLUDE_DEPTH + 2 - depth, 1, |matches|
  {
    if matches == [] then Some([])
    else Joined(ExpandMatches(fs, matches[..|matches| - 1], depth), ExpandMatch(fs, matches[|matches| - 1], depth))
  }

  /** Directories are skipped. */
  function ExpandMatch(fs: FileSystem, m: Match, depth: nat): Option<seq<string>>
    requires depth <= MAX_INCLUDE_DEPTH + 1
    decreases MAX_INCLUDE_DEPTH + 2 - depth, 1, 0
  {
    match m
    case Directory(_) => Some([])
    case File(path) => Expand(fs, path, depth)
    case _ => None
  }

  function Joined(a: Option<seq<string>>, b: Option<seq<string>>): Option<seq<string>> {
    if a.Some? && b.Some? then Some(a.value + b.value) else None
  }

  function Own(fs: FileSystem, file: string): Config {
    if file in fs && fs[file].Parsed? then fs[file].config else Config([], [], map[], [], [], "")
  }

  /** Lists concatenated, tokens of the second override, everything else from the first. */
  function Merged(a: Config, b: Config): Config {
    Config(a.regions + b.regions, a.domains + b.domains, a.tokens + b.tokens, a.backends + b.backends,
        a.mappings + b.mappings, a.scalars)
  }

  const EMPTY := Config([], [], map[], [], [], "")

  /** The files' own configurations merged in order. */
  function Flattened(fs: FileSystem, files: seq<string>): Config {
    if files == [] then EMPTY
    else if |files| == 1 then Own(fs, files[0])
    else Merged(Flattened(fs, files[..|files| - 1]), Own(fs, files[|files| - 1]))
  }

  // ---------------------------------------------------------------- what a merged configuration holds

  function Concat<T>(lists: seq<seq<T>>): seq<T> {
    if lists == [] then [] else Concat(lists[..|lists| - 1]) + lists[|lists| - 1]
  }

  /** The configurations the files hold, file by file. */
  function OwnConfigs(fs: FileSystem, files: seq<string>): (configs: seq<Config>)
    requires forall f :: f in files ==> f in fs && fs[f].Parsed?
    ensures |configs| == |files| && forall i :: 0 <= i < |files| ==> configs[i] == fs[files[i]].config
  {
    seq(|files|, i requires 0 <= i < |files| => fs[files[i]].config)
  }

  /** Position i is the last one that sets the token. */
  ghost predicate SetsLast(configs: seq<Config>, k: string, i: int) {
    && 0 <= i < |configs|
    && k in configs[i].tokens
    && forall j :: i < j < |configs| ==> k !in configs[j].tokens
  }

  /** Every list is the plain concatenation of the files' own lists, every token is that of the last
      file that sets it, and everything else is the first file's. */
  ghost predicate HoldsInOrder(c: Config, configs: seq<Config>) {
    && c.regions == Concat(seq(|configs|, i requires 0 <= i < |configs| => configs[i].regions))
    && c.domains == Concat(seq(|configs|, i requires 0 <= i < |configs| => configs[i].domains))
    && c.backends == Concat(seq(|configs|, i requires 0 <= i < |configs| => configs[i].backends))
    && c.mappings == Concat(seq(|configs|, i requires 0 <= i < |configs| => configs[i].mappings))
    && (forall k :: k in c.tokens <==> exists i :: SetsLast(configs, k, i))
    && (forall k, i :: SetsLast(configs, k, i) ==> k in c.tokens && c.tokens[k] == configs[i].tokens[k])
    && (configs != [] ==> c.scalars == configs[0].scalars)
  }

  lemma ConcatSnoc<T>(lists: seq<seq<T>>, front: seq<seq<T>>, last: seq<T>)
    requires lists == front + [last]
    ensures Concat(lists) == Concat(front) + last
  {
    assert lists[..|front|] == front;
  }

  lemma ListsSnoc(configs: seq<Config>, c: Config)
    ensures var all := configs + [c];
            && Concat(seq(|all|, i requires 0 <= i < |all| => all[i].regions))
               == Concat(seq(|configs|, i requires 0 <= i < |configs| => configs[i].regions)) + c.regions
            && Concat(seq(|all|, i requires 0 <= i < |all| => all[i].domains))
               == Concat(seq(|configs|, i requires 0 <= i < |configs| => configs[i].domains)) + c.domains
            && Concat(seq(|all|, i requires 0 <= i < |all| => all[i].backends))
               == Concat(seq(|configs|, i requires 0 <= i < |configs| => configs[i].backends)) + c.backends
            && Concat(seq(|all|, i requires 0 <= i < |all| => all[i].mappings))
               == Concat(seq(|configs|, i requires 0 <= i < |configs| => configs[i].mappings)) + c.mappings
  {
    var all := configs + [c];
    ConcatSnoc(seq(|all|, i requires 0 <= i < |all| => all[i].regions),
        seq(|configs|, i requires 0 <= i < |configs| => configs[i].regions), c.regions);
    ConcatSnoc(seq(|all|, i requires 0 <= i < |all| => all[i].domains),
        seq(|configs|, i requires 0 <= i < |configs| => configs[i].domains), c.domains);
    ConcatSnoc(seq(|all|, i requires 0 <= i < |all| => all[i].backends),
        seq(|configs|, i requires 0 <= i < |configs| => configs[i].backends), c.backends);
    ConcatSnoc(seq(|all|, i requires 0 <= i < |all| => all[i].mappings),
        seq(|configs|, i requires 0 <= i < |configs| => configs[i].mappings), c.mappings);
  }

  lemma TokensSnoc(configs: seq<Config>, c: Config, k: string, i: int)
    ensures SetsLast(configs + [c], k, i)
       <==> (if i == |configs| then k in c.tokens else SetsLast(configs, k, i) && k !in c.tokens)
  {
    var all := configs + [c];
    assert all[|configs|] == c && forall j :: 0 <= j < |configs| ==> all[j] == configs[j];
  }

  /** Merging one configuration more. */
  lemma HoldsOneMore(m: Config, configs: seq<Config>, c: Config)
    requires HoldsInOrder(m, configs) && configs != []
    ensures HoldsInOrder(Merged(m, c), configs + [c])
  {
    ListsSnoc(configs, c);
    var r, all := Merged(m, c), configs + [c];
    forall k, i ensures SetsLast(all, k, i)
                   <==> (if i == |configs| then k in c.tokens else SetsLast(configs, k, i) && k !in c.tokens) {
      TokensSnoc(configs, c, k, i);
    }
    forall k ensures k in r.tokens <==> exists i :: SetsLast(all, k, i) {
      if k in c.tokens {
        assert SetsLast(all, k, |configs|);
      } else if k in m.tokens {
        var i :| SetsLast(configs, k, i);
        assert SetsLast(all, k, i);
      }
    }
  }

  lemma {:induction false} FlattenedHoldsInOrder(fs: FileSystem, files: seq<string>)
    requires files != [] && forall f :: f in files ==> f in fs && fs[f].Parsed?
    ensures HoldsInOrder(Flattened(fs, files), OwnConfigs(fs, files))
  {
    var n := |files| - 1;
    if n > 0 {
      FlattenedHoldsInOrder(fs, files[..n]);
      HoldsOneMore(Flattened(fs, files[..n]), OwnConfigs(fs, files[..n]), fs[files[n]].config);
      assert OwnConfigs(fs, files) == OwnConfigs(fs, files[..n]) + [fs[files[n]].config];
    } else {
      HoldsAlone(fs[files[0]].config);
      assert OwnConfigs(fs, files) == [fs[files[0]].config];
    }
  }

  lemma HoldsAlone(c: Config)
    ensures HoldsInOrder(c, [c])
  {
    ListsSnoc([], c);
    assert [] + [c] == [c];
    forall k ensures SetsLast([c], k, 0) <==> k in c.tokens {
    }
  }

  datatype Name = RegionName(name: string) | DomainName(name: string)

  function NamesIn(c: Config): set<Name> {
    (set r | r in c.regions :: RegionName(r.name)) + (set d | d in c.domains :: DomainName(d.name))
  }

  predicate Apart(a: Config, b: Config) {
    NamesIn(a) !! NamesIn(b)
  }

  /** No region or domain name is used in two of the files. */
  ghost predicate ClashFree(fs: FileSystem, files: seq<string>) {
    forall i, j :: 0 <= i < j < |files| ==> Apart(Own(fs, files[i]), Own(fs, files[j]))
  }

  ghost predicate Distinct<T(!new)>(s: seq<T>) {
    forall i, j :: 0 <= i < j < |s| ==> s[i] != s[j]
  }

  /** What the loader accepts: the tree can be written out, no file occurs twice in it or was
      visited before, and no name is used twice. */
  ghost predicate Acceptable(fs: FileSystem, files: Option<seq<string>>, visited: set<string>) {
    && files.Some?
    && Distinct(files.value)
    && (forall f :: f in files.value ==> f !in visited)
    && ClashFree(fs, files.value)
  }

  function Elements(s: seq<string>): set<string> {
    set x | x in s
  }

  // ---------------------------------------------------------------- laws of the meaning

  lemma MergedAssociative(a: Config, b: Config, c: Config)
    ensures Merged(a, Merged(b, c)) == Merged(Merged(a, b), c)
  {
    assert a.regions + (b.regions + c.regions) == a.regions + b.regions + c.regions;
    assert a.domains + (b.domains + c.domains) == a.domains + b.domains + c.domains;
    assert a.tokens + (b.tokens + c.tokens) == a.tokens + b.tokens + c.tokens;
    assert a.backends + (b.backends + c.backends) == a.backends + b.backends + c.backends;
    assert a.mappings + (b.mappings + c.mappings) == a.mappings + b.mappings + c.mappings;
  }

  lemma {:induction false} FlattenedAppend(fs: FileSystem, a: seq<string>, b: seq<string>)
    requires a != [] && b != []
    ensures Flattened(fs, a + b) == Merged(Flattened(fs, a), Flattened(fs, b))
  {
    var last := |b| - 1;
    assert (a + b)[..|a| + last] == a + b[..last];
    if last == 0 {
      assert a + b[..0] == a;
    } else {
      FlattenedAppend(fs, a, b[..last]);
      MergedAssociative(Flattened(fs, a), Flattened(fs, b[..last]), Own(fs, b[last]));
    }
  }

  lemma MergedNames(a: Config, b: Config)
    ensures NamesIn(Merged(a, b)) == NamesIn(a) + NamesIn(b)
  {
  }

  ghost predicate UsedIn(fs: FileSystem, files: seq<string>, n: Name) {
    exists f :: f in files && n in NamesIn(Own(fs, f))
  }

  lemma {:induction false} FlattenedNames(fs: FileSystem, files: seq<string>, n: Name)
    ensures n in NamesIn(Flattened(fs, files)) <==> UsedIn(fs, files, n)
  {
    if |files| > 1 {
      var last := |files| - 1;
      FlattenedNames(fs, files[..last], n);
      assert files == files[..last] + [files[last]];
      MergedNames(Flattened(fs, files[..last]), Own(fs, files[last]));
    }
  }

  /** Merged configurations are apart exactly when all their files are. */
  lemma FlattenedApart(fs: FileSystem, a: seq<string>, b: seq<string>)
    ensures Apart(Flattened(fs, a), Flattened(fs, b)) <==> forall f, g :: f in a && g in b ==>
              Apart(Own(fs, f), Own(fs, g))
  {
    var x, y := NamesIn(Flattened(fs, a)), NamesIn(Flattened(fs, b));
    forall n ensures n in x <==> UsedIn(fs, a, n) {
      FlattenedNames(fs, a, n);
    }
    forall n ensures n in y <==> UsedIn(fs, b, n) {
      FlattenedNames(fs, b, n);
    }
    if forall f, g :: f in a && g in b ==> Apart(Own(fs, f), Own(fs, g)) {
      forall n | n in x ensures n !in y {
        var f :| f in a && n in NamesIn(Own(fs, f));
        forall g | g in b ensures n !in NamesIn(Own(fs, g)) {
          assert Apart(Own(fs, f), Own(fs, g));
        }
      }
    }
    if x !! y {
      forall f, g | f in a && g in b ensures Apart(Own(fs, f), Own(fs, g)) {
        forall n | n in NamesIn(Own(fs, f)) ensures n !in NamesIn(Own(fs, g)) {
          assert UsedIn(fs, a, n) && n in x;
        }
      }
    }
  }

  /** Comparing two merged configurations is comparing all pairs of their files. */
  lemma ClashFreeAppend(fs: FileSystem, a: seq<string>, b: seq<string>)
    ensures ClashFree(fs, a + b) <==> ClashFree(fs, a) && ClashFree(fs, b) && Apart(Flattened(fs, a), Flattened(fs, b))
  {
    FlattenedApart(fs, a, b);
    var s := a + b;
    if ClashFree(fs, s) {
      assert forall i :: 0 <= i < |a| ==> s[i] == a[i];
      assert forall i :: 0 <= i < |b| ==> s[|a| + i] == b[i];
      forall i, j | 0 <= i < j < |b| ensures Apart(Own(fs, b[i]), Own(fs, b[j])) {
        assert Apart(Own(fs, s[|a| + i]), Own(fs, s[|a| + j]));
      }
      forall f, g | f in a && g in b ensures Apart(Own(fs, f), Own(fs, g)) {
        var i :| 0 <= i < |a| && a[i] == f;
        ghost var j :| 0 <= j < |b| && b[j] == g;
        assert Apart(Own(fs, s[i]), Own(fs, s[|a| + j]));
      }
    }
    if ClashFree(fs, a) && ClashFree(fs, b) && Apart(Flattened(fs, a), Flattened(fs, b)) {
      forall i, j | 0 <= i < j < |s| ensures Apart(Own(fs, s[i]), Own(fs, s[j])) {
        if i < |a| <= j {
          assert s[i] in a && s[j] in b;
        }
      }
    }
  }

  lemma AcceptableSplits(fs: FileSystem, a: seq<string>, b: seq<string>, visited: set<string>)
    ensures Acceptable(fs, Some(a + b), visited)
        <==> (&& Acceptable(fs, Some(a), visited)
              && Acceptable(fs, Some(b), visited + Elements(a))
              && Apart(Flattened(fs, a), Flattened(fs, b)))
  {
    ClashFreeAppend(fs, a, b);
    var s := a + b;
    assert forall i :: 0 <= i < |a| ==> s[i] == a[i];
    assert forall i :: 0 <= i < |b| ==> s[|a| + i] == b[i];
    if Distinct(s) {
      assert Distinct(a);
      forall i, j | 0 <= i < j < |b| ensures b[i] != b[j] {
        assert s[|a| + i] != s[|a| + j];
      }
      forall f | f in b ensures f !in a {
        ghost var j :| 0 <= j < |b| && b[j] == f;
        assert s[|a| + j] == f;
      }
    }
    if Distinct(a) && Distinct(b) && forall f :: f in b ==> f !in Elements(a) {
      forall i, j | 0 <= i < j < |s| ensures s[i] != s[j] {
        if i < |a| <= j {
          assert s[j] in b && s[i] in a;
        }
      }
    }
  }

  /** A further list of files fits behind those already merged. */
  ghost predicate Fits(fs: FileSystem, before: seq<string>, files: Option<seq<string>>, visited: set<string>) {
    Acceptable(fs, files, visited) && Apart(Flattened(fs, before), Flattened(fs, files.value))
  }

  lemma FitsStep(fs: FileSystem, before: seq<string>, a: seq<string>, b: seq<string>, visited: set<string>)
    ensures Fits(fs, before, Some(a + b), visited)
       <==> Fits(fs, before, Some(a), visited) && Fits(fs, before + a, Some(b), visited + Elements(a))
  {
    AcceptableSplits(fs, a, b, visited);
    FlattenedApart(fs, before, a);
    FlattenedApart(fs, before, b);
    FlattenedApart(fs, a, b);
    FlattenedApart(fs, before, a + b);
    FlattenedApart(fs, before + a, b);
  }

  /** The first file of a tree and the rest of it. */
  lemma AcceptableRoot(fs: FileSystem, path: string, files: seq<string>, visited: set<string>)
    ensures Acceptable(fs, Some([path] + files), visited)
        <==> path !in visited && Fits(fs, [path], Some(files), visited + {path})
  {
    AcceptableSplits(fs, [path], files, visited);
    assert Elements([path]) == {path};
  }

  /** If the whole list of matches expands and fits, so does every initial part of it. */
  lemma {:induction false} MatchesFitInitially(fs: FileSystem, matches: seq<Match>, k: nat, depth: nat,
                                               before: seq<string>, visited: set<string>)
    requires depth <= MAX_INCLUDE_DEPTH + 1 && k <= |matches|
    requires Fits(fs, before, ExpandMatches(fs, matches, depth), visited)
    ensures Fits(fs, before, ExpandMatches(fs, matches[..k], depth), visited)
  {
    if k < |matches| {
      var last := |matches| - 1;
      FitsStep(fs, before, ExpandMatches(fs, matches[..last], depth).value,
          ExpandMatch(fs, matches[last], depth).value, visited);
      assert matches[..last][..k] == matches[..k];
      MatchesFitInitially(fs, matches[..last], k, depth, before, visited);
    } else {
      assert matches[..k] == matches;
    }
  }

  lemma {:induction false} PatternsFitInitially(fs: FileSystem, patterns: seq<Pattern>, k: nat, depth: nat,
                                                before: seq<string>, visited: set<string>)
    requires depth <= MAX_INCLUDE_DEPTH + 1 && k <= |patterns|
    requires Fits(fs, before, ExpandPatterns(fs, patterns, depth), visited)
    ensures Fits(fs, before, ExpandPatterns(fs, patterns[..k], depth), visited)
  {
    if k < |patterns| {
      var last := |patterns| - 1;
      FitsStep(fs, before, ExpandPatterns(fs, patterns[..last], depth).value,
          ExpandPattern(fs, patterns[last], depth).value, visited);
      assert patterns[..last][..k] == patterns[..k];
      PatternsFitInitially(fs, patterns[..last], k, depth, before, visited);
    } else {
      assert patterns[..k] == patterns;
    }
  }

  /** A match that does not fit behind the earlier ones makes the whole pattern fail. */
  lemma RejectMatches(fs: FileSystem, matches: seq<Match>, k: nat, depth: nat, before: seq<string>,
                      visited: set<string>)
    requires depth <= MAX_INCLUDE_DEPTH + 1 && k < |matches|
    requires Fits(fs, before, ExpandMatches(fs, matches[..k], depth), visited)
    requires var done := ExpandMatches(fs, matches[..k], depth).value;
             !Fits(fs, before + done, ExpandMatch(fs, matches[k], depth), visited + Elements(done))
    ensures !Fits(fs, before, ExpandMatches(fs, matches, depth), visited)
  {
    if Fits(fs, before, ExpandMatches(fs, matches, depth), visited) {
      MatchesFitInitially(fs, matches, k + 1, depth, before, visited);
      assert matches[..k + 1][..k] == matches[..k];
      FitsStep(fs, before, ExpandMatches(fs, matches[..k], depth).value, ExpandMatch(fs, matches[k], depth).value,
          visited);
    }
  }

  lemma RejectPatterns(fs: FileSystem, patterns: seq<Pattern>, k: nat, depth: nat, before: seq<string>,
                       visited: set<string>)
    requires depth <= MAX_INCLUDE_DEPTH + 1 && k < |patterns|
    requires Fits(fs, before, ExpandPatterns(fs, patterns[..k], depth), visited)
    requires var done := ExpandPatterns(fs, patterns[..k], depth).value;
             !Fits(fs, before + done, ExpandPattern(fs, patterns[k], depth), visited + Elements(done))
    ensures !Fits(fs, before, ExpandPatterns(fs, patterns, depth), visited)
  {
    if Fits(fs, before, ExpandPatterns(fs, patterns, depth), visited) {
      PatternsFitInitially(fs, patterns, k + 1, depth, before, visited);
      assert patterns[..k + 1][..k] == patterns[..k];
      FitsStep(fs, before, ExpandPatterns(fs, patterns[..k], depth).value,
          ExpandPattern(fs, patterns[k], depth).value, visited);
    }
  }

  // ---------------------------------------------------------------- what an error means

  /** Some include pattern of the file matched this. */
  ghost predicate HasMatch(fs: FileSystem, file: string, m: Match) {
    file in fs && fs[file].Parsed? && exists p :: p in fs[file].includes && p.Matches? && m in p.matches
  }

  /** Each file of the chain includes the next. */
  ghost predicate Chain(fs: FileSystem, chain: seq<string>) {
    forall i :: 0 <= i < |chain| - 1 ==> HasMatch(fs, chain[i], File(chain[i + 1]))
  }

  /** The chain's last file includes this one. */
  ghost predicate Follows(fs: FileSystem, chain: seq<string>, file: string) {
    chain != [] ==> HasMatch(fs, chain[|chain| - 1], File(file))
  }

  ghost predicate SharesName(a: Config, b: Config, name: string) {
    || (RegionName(name) in NamesIn(a) && RegionName(name) in NamesIn(b))
    || (DomainName(name) in NamesIn(a) && DomainName(name) in NamesIn(b))
  }

  /** The error is true of the end of this chain of includes. */
  ghost predicate Justified(fs: FileSystem, chain: seq<string>, visited: set<string>, e: Error) {
    && Chain(fs, chain)
    && match e
       case DepthExceeded(f) => |chain| == MAX_INCLUDE_DEPTH + 1 && Follows(fs, chain, f)
       case Circular(path, f) => path == chain && f in visited && Follows(fs, chain, f)
       case Unreadable(f) => f !in fs && Follows(fs, chain, f)
       case BadYaml(f) => f in fs && fs[f].Malformed? && Follows(fs, chain, f)
       case BadPattern => chain != [] && HasBadGlob(fs, chain[|chain| - 1])
       case StatFailed(f) => chain != [] && HasMatch(fs, chain[|chain| - 1], StatFails(f))
       case Unsafe(f) => chain != [] && HasMatch(fs, chain[|chain| - 1], WorldWritable(f))
       case Duplicate(name) =>
         chain != [] && TwoFilesShare(fs, visited, name)
  }

  ghost predicate TwoFilesShare(fs: FileSystem, files: set<string>, name: string) {
    exists f, g :: f in files && g in files && f != g && SharesName(Own(fs, f), Own(fs, g), name)
  }

  ghost predicate HasBadGlob(fs: FileSystem, file: string) {
    file in fs && fs[file].Parsed? && BadGlob in fs[file].includes
  }

  /** The error belongs to the loading of `path` at the end of `from`: either it is about that file
      itself, or the chain goes on through it. */
  ghost predicate Blames(fs: FileSystem, from: seq<string>, path: string, chain: seq<string>, visited: set<string>,
                         e: Error)
  {
    && Justified(fs, chain, visited, e)
    && from <= chain
    && if chain == from then (e.DepthExceeded? || e.Circular? || e.Unreadable? || e.BadYaml?) && Culprit(e) == path
       else chain[|from|] == path
  }

  function Culprit(e: Error): string {
    match e
    case DepthExceeded(f) => f
    case Circular(_, f) => f
    case Unreadable(f) => f
    case BadYaml(f) => f
    case _ => ""
  }

  lemma DuplicateComesFromTwoFiles(fs: FileSystem, before: seq<string>, files: seq<string>, name: string)
    requires SharesName(Flattened(fs, before), Flattened(fs, files), name)
    ensures exists f, g :: f in before && g in files && SharesName(Own(fs, f), Own(fs, g), name)
  {
    var n := if RegionName(name) in NamesIn(Flattened(fs, before)) && RegionName(name) in NamesIn(Flattened(fs, files))
             then RegionName(name) else DomainName(name);
    FlattenedNames(fs, before, n);
    FlattenedNames(fs, files, n);
    var f :| f in before && n in NamesIn(Own(fs, f));
    var g :| g in files && n in NamesIn(Own(fs, g));
    assert SharesName(Own(fs, f), Own(fs, g), name);
  }

  lemma BlameGoesOn(fs: FileSystem, from: seq<string>, path: string, chain: seq<string>, visited: set<string>, e: Error)
    requires from + [path] <= chain && Justified(fs, chain, visited, e)
    ensures Blames(fs, from, path, chain, visited, e)
  {
    assert chain[|from|] == (from + [path])[|from|];
  }

  lemma ChainGrows(fs: FileSystem, chain: seq<string>, file: string)
    requires Chain(fs, chain) && Follows(fs, chain, file)
    ensures Chain(fs, chain + [file])
  {
  }

  // ---------------------------------------------------------------- the loader

  ghost predicate NoSharedName(a: seq<Named>, b: seq<Named>) {
    forall x, y :: x in a && y in b ==> x.name != y.name
  }

  ghost predicate NameIn(items: seq<Named>, name: string) {
    exists x :: x in items && x.name == name
  }

  /** The duplicate check of mergeConfig for one list. */
  method FindDuplicate(existing: seq<Named>, added: seq<Named>) returns (duplicate: Option<string>)
    ensures duplicate.None? <==> NoSharedName(existing, added)
    ensures duplicate.Some? ==> NameIn(existing, duplicate.value) && NameIn(added, duplicate.value)
  {
    var names: set<string> := {};
    var i := 0;
    while i < |existing|
      invariant i <= |existing| && names == set j | 0 <= j < i :: existing[j].name
    {
      names := names + {existing[i].name};
      i := i + 1;
    }
    i := 0;
    while i < |added|
      invariant i <= |added| && forall j :: 0 <= j < i ==> added[j].name !in names
    {
      if added[i].name in names {
        ghost var j :| 0 <= j < |existing| && existing[j].name == added[i].name;
        assert existing[j] in existing && added[i] in added;
        return Some(added[i].name);
      }
      i := i + 1;
    }
    return None;
  }

  lemma ApartByLists(a: Config, b: Config)
    ensures Apart(a, b) <==> (NoSharedName(a.regions, b.regions) && NoSharedName(a.domains, b.domains))
  {
    if Apart(a, b) {
      forall x, y | x in a.regions && y in b.regions ensures x.name != y.name {
        assert RegionName(x.name) in NamesIn(a) && RegionName(y.name) in NamesIn(b);
      }
      forall x, y | x in a.domains && y in b.domains ensures x.name != y.name {
        assert DomainName(x.name) in NamesIn(a) && DomainName(y.name) in NamesIn(b);
      }
    }
  }

  /** mergeConfig. */
  method MergeConfig(main: Config, included: Config) returns (r: Result<Config, Error>)
    ensures r.Ok? <==> Apart(main, included)
    ensures r.Ok? ==> r.value == Merged(main, included)
    ensures r.Ok? ==>
              && r.value.regions == main.regions + included.regions
              && r.value.domains == main.domains + included.domains
              && r.value.backends == main.backends + included.backends
              && r.value.mappings == main.mappings + included.mappings
              && r.value.scalars == main.scalars
              && r.value.tokens.Keys == main.tokens.Keys + included.tokens.Keys
              && forall k :: k in r.value.tokens ==>
                   r.value.tokens[k] == if k in included.tokens then included.tokens[k] else main.tokens[k]
    ensures r.Err? ==> r.error.Duplicate? && SharesName(main, included, r.error.name)
    ensures !NoSharedName(main.regions, included.regions) ==>
              r.Err? && r.error.Duplicate? && NameIn(main.regions, r.error.name)
                  && NameIn(included.regions, r.error.name)
    ensures NoSharedName(main.regions, included.regions) && !NoSharedName(main.domains, included.domains) ==>
              r.Err? && r.error.Duplicate? && NameIn(main.domains, r.error.name)
                  && NameIn(included.domains, r.error.name)
  {
    ApartByLists(main, included);
    var merged := main;
    if |included.regions| > 0 {
      var duplicate := FindDuplicate(main.regions, included.regions);
      if duplicate.Some? {
        return Err(Duplicate(duplicate.value));
      }
      merged := merged.(regions := main.regions + included.regions);
    }
    if |included.domains| > 0 {
      var duplicate := FindDuplicate(main.domains, included.domains);
      if duplicate.Some? {
        return Err(Duplicate(duplicate.value));
      }
      merged := merged.(domains := main.domains + included.domains);
    }
    merged := merged.(
      tokens := main.tokens + included.tokens,
      backends := main.backends + included.backends,
      mappings := main.mappings + included.mappings);
    return Ok(merged);
  }

  class IncludeContext {
    const fs: FileSystem
    var depth: nat
    var visited: set<string>
    var visitPath: seq<string>
    var loadedFiles: seq<string>

    constructor (fs: FileSystem)
      ensures this.fs == fs && depth == 0 && visited == {} && visitPath == [] && loadedFiles == []
    {
      this.fs := fs;
      depth := 0;
      visited := {};
      visitPath := [];
      loadedFiles := [];
    }

    /** Loads one file and, recursively, what it includes.  It succeeds exactly when the include
        tree is acceptable, and then it has loaded that tree in preorder; otherwise the error is
        true of a chain of includes through this file. */
    method LoadFile(path: string) returns (r: Result<Config, Error>)
      requires depth == |visitPath| <= MAX_INCLUDE_DEPTH + 1
      requires Chain(fs, visitPath) && Follows(fs, visitPath, path)
      modifies this
      ensures depth == old(depth) && visitPath == old(visitPath)
      ensures r.Ok? <==> Acceptable(fs, Expand(fs, path, old(depth)), old(visited))
      ensures r.Ok? ==> var files := Expand(fs, path, old(depth)).value;
                        && r.value == Flattened(fs, files)
                        && loadedFiles == old(loadedFiles) + files
                        && visited == old(visited) + Elements(files)
      ensures old(visited) <= visited
      ensures r.Err? ==> exists chain :: Blames(fs, visitPath, path, chain, visited, r.error)
      ensures old(depth) > MAX_INCLUDE_DEPTH ==> r == Err(DepthExceeded(path))
      ensures old(depth) <= MAX_INCLUDE_DEPTH ==>
                && (path in old(visited) ==> r == Err(Circular(old(visitPath), path)))
                && (path !in old(visited) && path !in fs ==> r == Err(Unreadable(path)))
                && (path !in old(visited) && path in fs && fs[path].Malformed? ==> r == Err(BadYaml(path)))
      decreases MAX_INCLUDE_DEPTH + 2 - depth, 0, 0
    {
      if depth > MAX_INCLUDE_DEPTH {
        assert Blames(fs, visitPath, path, visitPath, visited, DepthExceeded(path));
        return Err(DepthExceeded(path));
      }
      if path in visited {
        assert Blames(fs, visitPath, path, visitPath, visited, Circular(visitPath, path));
        return Err(Circular(visitPath, path));
      }
      ChainGrows(fs, visitPath, path);
      visited := visited + {path};
      visitPath := visitPath + [path];
      loadedFiles := loadedFiles + [path];
      r := LoadMarked(path, old(visitPath), old(visited), old(loadedFiles));
      visitPath := visitPath[..|visitPath| - 1];
    }

    /** The rest of it, once the file is marked as being visited. */
    method LoadMarked(path: string, ghost from: seq<string>, ghost visited0: set<string>, ghost loaded0: seq<string>)
      returns (r: Result<Config, Error>)
      requires depth == |from| <= MAX_INCLUDE_DEPTH && visitPath == from + [path]
      requires Chain(fs, from) && Follows(fs, from, path) && Chain(fs, visitPath)
      requires path !in visited0 && visited == visited0 + {path} && loadedFiles == loaded0 + [path]
      modifies this
      ensures depth == old(depth) && visitPath == old(visitPath)
      ensures r.Ok? <==> Acceptable(fs, Expand(fs, path, old(depth)), visited0)
      ensures r.Ok? ==> var files := Expand(fs, path, old(depth)).value;
                        && r.value == Flattened(fs, files)
                        && loadedFiles == loaded0 + files
                        && visited == visited0 + Elements(files)
      ensures old(visited) <= visited
      ensures r.Err? ==> exists chain :: Blames(fs, from, path, chain, visited, r.error)
      ensures path !in fs ==> r == Err(Unreadable(path))
      ensures path in fs && fs[path].Malformed? ==> r == Err(BadYaml(path))
      decreases MAX_INCLUDE_DEPTH + 2 - depth - 1, 4, 0
    {
      if path !in fs {
        assert Blames(fs, from, path, from, visited, Unreadable(path));
        return Err(Unreadable(path));
      }
      if fs[path].Malformed? {
        assert Blames(fs, from, path, from, visited, BadYaml(path));
        return Err(BadYaml(path));
      }
      r := LoadIncludes(path, fs[path].config, fs[path].includes);
      ghost var files := ExpandPatterns(fs, fs[path].includes, old(depth) + 1);
      if files.Some? {
        AcceptableRoot(fs, path, files.value, visited0);
        if r.Ok? {
          RootMerged(r.value, path, files.value, visited0, loaded0);
        }
      }
      if r.Err? {
        ghost var chain :| visitPath <= chain && Justified(fs, chain, visited, r.error);
        BlameGoesOn(fs, from, path, chain, visited, r.error);
      }
    }

    /** `files` have been loaded and merged behind `before` since the given earlier state. */
    ghost predicate Merging(config: Config, before: seq<string>, files: seq<string>, visited0: set<string>,
                            loaded0: seq<string>)
      reads this
    {
      && Fits(fs, before, Some(files), visited0)
      && config == Flattened(fs, before + files)
      && loadedFiles == loaded0 + files
      && visited == visited0 + Elements(files)
    }

    lemma MergingStarts(config: Config, before: seq<string>)
      requires config == Flattened(fs, before)
      ensures Merging(config, before, [], visited, loadedFiles)
    {
      assert before + [] == before && loadedFiles + [] == loadedFiles && visited + Elements([]) == visited;
    }

    lemma MergingStep(config: Config, before: seq<string>, a: seq<string>, b: seq<string>, visited0: set<string>,
                      loaded0: seq<string>)
      requires Fits(fs, before, Some(a), visited0)
      requires Merging(config, before + a, b, visited0 + Elements(a), loaded0 + a)
      ensures Merging(config, before, a + b, visited0, loaded0)
    {
      FitsStep(fs, before, a, b, visited0);
      hide Fits, Flattened;
      assert before + (a + b) == before + a + b && loaded0 + (a + b) == loaded0 + a + b;
      assert Elements(a + b) == Elements(a) + Elements(b);
    }

    lemma RootMerged(config: Config, path: string, files: seq<string>, visited0: set<string>, loaded0: seq<string>)
      requires Merging(config, [path], files, visited0 + {path}, loaded0 + [path])
      ensures loadedFiles == loaded0 + ([path] + files) && visited == visited0 + Elements([path] + files)
    {
      assert loaded0 + ([path] + files) == loaded0 + [path] + files;
      assert Elements([path] + files) == {path} + Elements(files);
    }

    /** The include loop of a file already marked as visited. */
    method LoadIncludes(path: string, config: Config, includes: seq<Pattern>) returns (r: Result<Config, Error>)
      requires depth <= MAX_INCLUDE_DEPTH && config == Own(fs, path)
      requires depth + 1 == |visitPath| && Chain(fs, visitPath) && visitPath[depth] == path && path in visited
      requires path in fs && fs[path].Parsed? && fs[path].includes == includes
      modifies this
      ensures depth == old(depth) && visitPath == old(visitPath)
      ensures old(visited) <= visited
      ensures r.Err? ==> exists chain :: visitPath <= chain && Justified(fs, chain, visited, r.error)
      ensures r.Ok? <==> Fits(fs, [path], ExpandPatterns(fs, includes, old(depth) + 1), old(visited))
      ensures r.Ok? ==> Merging(r.value, [path], ExpandPatterns(fs, includes, old(depth) + 1).value, old(visited),
                old(loadedFiles))
      decreases MAX_INCLUDE_DEPTH + 2 - depth - 1, 3, 0
    {
      var merged := config;
      MergingStarts(config, [path]);
      hide Flattened, Justified;
      depth := depth + 1;
      ghost var done: seq<string> := [];
      var i := 0;
      while i < |includes|
        invariant i <= |includes| && depth == old(depth) + 1 && visitPath == old(visitPath)
        invariant ExpandPatterns(fs, includes[..i], depth) == Some(done)
        invariant Merging(merged, [path], done, old(visited), old(loadedFiles))
      {
        assert includes[..i + 1][..i] == includes[..i];
        assert includes[i] in fs[path].includes;
        ghost var next := ExpandPattern(fs, includes[i], depth);
        r := ProcessPattern(includes[i], merged, [path] + done);
        if r.Err? {
          RejectPatterns(fs, includes, i, depth, [path], old(visited));
          depth := depth - 1;
          return;
        }
        merged := r.value;
        MergingStep(merged, [path], done, next.value, old(visited), old(loadedFiles));
        done := done + next.value;
        i := i + 1;
      }
      assert includes[..i] == includes;
      depth := depth - 1;
      return Ok(merged);
    }

    /** processIncludePattern: loads and merges every file the pattern matched. */
    method ProcessPattern(pattern: Pattern, config: Config, ghost before: seq<string>)
      returns (r: Result<Config, Error>)
      requires depth == |visitPath| <= MAX_INCLUDE_DEPTH + 1 && before != [] && config == Flattened(fs, before)
      requires visitPath != [] && Chain(fs, visitPath) && forall f :: f in before ==> f in visited
      requires var last := visitPath[|visitPath| - 1]; last in fs && fs[last].Parsed? && pattern in fs[last].includes
      modifies this
      ensures depth == old(depth) && visitPath == old(visitPath)
      ensures old(visited) <= visited
      ensures r.Err? ==> exists chain :: visitPath <= chain && Justified(fs, chain, visited, r.error)
      ensures r.Ok? <==> Fits(fs, before, ExpandPattern(fs, pattern, old(depth)), old(visited))
      ensures r.Ok? ==> Merging(r.value, before, ExpandPattern(fs, pattern, old(depth)).value, old(visited),
                old(loadedFiles))
      decreases MAX_INCLUDE_DEPTH + 2 - depth, 2, 0
    {
      if pattern.BadGlob? {
        assert Justified(fs, visitPath, visited, BadPattern);
        return Err(BadPattern);
      }
      hide Fits, Flattened, Justified, Chain;
      var merged, matches := config, pattern.matches;
      MergingStarts(config, before);
      ghost var done: seq<string> := [];
      var i := 0;
      while i < |matches|
        invariant i <= |matches| && depth == old(depth) && visitPath == old(visitPath)
        invariant ExpandMatches(fs, matches[..i], depth) == Some(done)
        invariant Merging(merged, before, done, old(visited), old(loadedFiles))
      {
        assert matches[..i + 1][..i] == matches[..i];
        assert HasMatch(fs, visitPath[|visitPath| - 1], matches[i]);
        ghost var next := ExpandMatch(fs, matches[i], depth);
        r := ProcessMatch(matches[i], merged, before + done);
        if r.Err? {
          RejectMatches(fs, matches, i, depth, before, old(visited));
          return;
        }
        merged := r.value;
        MergingStep(merged, before, done, next.value, old(visited), old(loadedFiles));
        done := done + next.value;
        i := i + 1;
      }
      assert matches[..i] == matches;
      return Ok(merged);
    }

    /** One matched path: skipped, refused, or loaded and merged. */
    method ProcessMatch(m: Match, config: Config, ghost before: seq<string>) returns (r: Result<Config, Error>)
      requires depth == |visitPath| <= MAX_INCLUDE_DEPTH + 1 && before != [] && config == Flattened(fs, before)
      requires visitPath != [] && Chain(fs, visitPath) && forall f :: f in before ==> f in visited
      requires HasMatch(fs, visitPath[|visitPath| - 1], m)
      modifies this
      ensures depth == old(depth) && visitPath == old(visitPath)
      ensures old(visited) <= visited
      ensures r.Err? ==> exists chain :: visitPath <= chain && Justified(fs, chain, visited, r.error)
      ensures r.Ok? <==> Fits(fs, before, ExpandMatch(fs, m, old(depth)), old(visited))
      ensures r.Ok? ==> Merging(r.value, before, ExpandMatch(fs, m, old(depth)).value, old(visited), old(loadedFiles))
      decreases MAX_INCLUDE_DEPTH + 2 - depth, 1, 0
    {
      match m
      case StatFails(path) =>
        assert Justified(fs, visitPath, visited, StatFailed(path));
        return Err(StatFailed(path));
      case Directory(_) =>
        MergingStarts(config, before);
        return Ok(config);
      case WorldWritable(path) =>
        assert Justified(fs, visitPath, visited, Unsafe(path));
        return Err(Unsafe(path));
      case File(path) =>
        r := LoadFile(path);
        if r.Ok? {
          ghost var files := Expand(fs, path, old(depth)).value;
          FlattenedAppend(fs, before, files);
          r := MergeConfig(config, r.value);
          if r.Err? {
            DuplicateComesFromTwoFiles(fs, before, files, r.error.name);
            assert Justified(fs, visitPath, visited, r.error);
          }
        }
    }
  }

  /** LoadWithIncludes, from a fresh context: success is acceptability of the include tree, and
      the result is the tree's preorder, each file once, merged in that order. */
  method LoadWithIncludes(fs: FileSystem, path: string) returns (r: Result<(Config, seq<string>), Error>)
    ensures r.Ok? <==> Acceptable(fs, Expand(fs, path, 0), {})
    ensures r.Ok? ==> var files := Expand(fs, path, 0).value; r.value == (Flattened(fs, files), files)
    ensures r.Ok? ==> var (config, files) := r.value;
                      && files != [] && files[0] == path
                      && (forall f :: f in files ==> f in fs && fs[f].Parsed?)
                      && HoldsInOrder(config, OwnConfigs(fs, files))
    ensures r.Err? ==> exists chain, visited :: Blames(fs, [], path, chain, visited, r.error)
  {
    var context := new IncludeContext(fs);
    var loaded := context.LoadFile(path);
    if loaded.Err? {
      return Err(loaded.error);
    }
    assert context.loadedFiles == Expand(fs, path, 0).value;
    ExpandedAreReadable(fs, path, 0);
    FlattenedHoldsInOrder(fs, context.loadedFiles);
    return Ok((loaded.value, context.loadedFiles));
  }

  // ---------------------------------------------------------------- what the caller gets

  ghost predicate DistinctNames(items: seq<Named>) {
    forall i, j :: 0 <= i < j < |items| ==> items[i].name != items[j].name
  }

  ghost predicate DistinctConfig(c: Config) {
    DistinctNames(c.regions) && DistinctNames(c.domains)
  }

  lemma DistinctNamesAppend(a: seq<Named>, b: seq<Named>)
    ensures DistinctNames(a + b) <==> DistinctNames(a) && DistinctNames(b) && NoSharedName(a, b)
  {
    var s := a + b;
    assert forall i :: 0 <= i < |a| ==> s[i] == a[i];
    if DistinctNames(s) {
      forall i, j | 0 <= i < j < |b| ensures b[i].name != b[j].name {
        assert s[|a| + i].name != s[|a| + j].name;
      }
      forall x, y | x in a && y in b ensures x.name != y.name {
        var i :| 0 <= i < |a| && a[i] == x;
        ghost var j :| 0 <= j < |b| && b[j] == y;
        assert s[i].name != s[|a| + j].name;
      }
    }
  }

  /** A loaded configuration repeats no region or domain name, except where a single file did so
      itself: the merge compares files with one another, never a file with itself. */
  lemma {:induction false} NamesAreDistinctIffEachFilesAre(fs: FileSystem, files: seq<string>)
    requires ClashFree(fs, files)
    ensures DistinctConfig(Flattened(fs, files)) <==> forall f :: f in files ==> DistinctConfig(Own(fs, f))
  {
    if |files| == 1 {
      assert files[0] in files;
    } else if files != [] {
      var before, last := files[..|files| - 1], files[|files| - 1];
      assert files == before + [last] && Flattened(fs, [last]) == Own(fs, last);
      ClashFreeAppend(fs, before, [last]);
      NamesAreDistinctIffEachFilesAre(fs, before);
      var x, y := Flattened(fs, before), Own(fs, last);
      ApartByLists(x, y);
      DistinctNamesAppend(x.regions, y.regions);
      DistinctNamesAppend(x.domains, y.domains);
    }
  }

  // ---------------------------------------------------------------- when the error is a circle

  lemma {:induction false} MatchesExpand(fs: FileSystem, matches: seq<Match>, depth: nat, m: Match)
    requires depth <= MAX_INCLUDE_DEPTH + 1 && ExpandMatches(fs, matches, depth).Some? && m in matches
    ensures ExpandMatch(fs, m, depth).Some?
  {
    var last := |matches| - 1;
    if m != matches[last] {
      assert matches == matches[..last] + [matches[last]];
      MatchesExpand(fs, matches[..last], depth, m);
    }
  }

  lemma {:induction false} PatternsExpand(fs: FileSystem, patterns: seq<Pattern>, depth: nat, p: Pattern)
    requires depth <= MAX_INCLUDE_DEPTH + 1 && ExpandPatterns(fs, patterns, depth).Some? && p in patterns
    ensures ExpandPattern(fs, p, depth).Some?
  {
    var last := |patterns| - 1;
    if p != patterns[last] {
      assert patterns == patterns[..last] + [patterns[last]];
      PatternsExpand(fs, patterns[..last], depth, p);
    }
  }

  lemma IncludedExpand(fs: FileSystem, file: string, depth: nat, m: Match)
    requires depth <= MAX_INCLUDE_DEPTH && Expand(fs, file, depth).Some? && HasMatch(fs, file, m)
    ensures ExpandMatch(fs, m, depth + 1).Some?
  {
    var p :| p in fs[file].includes && p.Matches? && m in p.matches;
    PatternsExpand(fs, fs[file].includes, depth + 1, p);
    MatchesExpand(fs, p.matches, depth + 1, m);
  }

  ghost predicate InMatch(fs: FileSystem, m: Match, depth: nat, f: string)
    requires depth <= MAX_INCLUDE_DEPTH + 1
  {
    ExpandMatch(fs, m, depth).Some? && f in ExpandMatch(fs, m, depth).value
  }

  lemma {:induction false} MatchesMembers(fs: FileSystem, matches: seq<Match>, depth: nat, f: string)
    requires depth <= MAX_INCLUDE_DEPTH + 1 && ExpandMatches(fs, matches, depth).Some?
    ensures f in ExpandMatches(fs, matches, depth).value <==> exists m :: m in matches && InMatch(fs, m, depth, f)
  {
    if matches != [] {
      var front, last := matches[..|matches| - 1], matches[|matches| - 1];
      MatchesMembers(fs, front, depth, f);
      assert forall m :: m in matches <==> m in front || m == last;
      assert f in ExpandMatches(fs, matches, depth).value
        <==> f in ExpandMatches(fs, front, depth).value || InMatch(fs, last, depth, f);
    }
  }

  ghost predicate InPattern(fs: FileSystem, p: Pattern, depth: nat, f: string)
    requires depth <= MAX_INCLUDE_DEPTH + 1
  {
    ExpandPattern(fs, p, depth).Some? && f in ExpandPattern(fs, p, depth).value
  }

  lemma {:induction false} PatternsMembers(fs: FileSystem, patterns: seq<Pattern>, depth: nat, f: string)
    requires depth <= MAX_INCLUDE_DEPTH + 1 && ExpandPatterns(fs, patterns, depth).Some?
    ensures f in ExpandPatterns(fs, patterns, depth).value <==> exists p :: p in patterns && InPattern(fs, p, depth, f)
  {
    if patterns != [] {
      var front, last := patterns[..|patterns| - 1], patterns[|patterns| - 1];
      PatternsMembers(fs, front, depth, f);
      assert forall p :: p in patterns <==> p in front || p == last;
      assert f in ExpandPatterns(fs, patterns, depth).value
        <==> f in ExpandPatterns(fs, front, depth).value || InPattern(fs, last, depth, f);
    }
  }

  /** The file includes another one, under which f occurs. */
  ghost predicate Under(fs: FileSystem, file: string, depth: nat, child: string, f: string)
    requires depth <= MAX_INCLUDE_DEPTH
  {
    && HasMatch(fs, file, File(child))
    && Expand(fs, child, depth + 1).Some?
    && f in Expand(fs, child, depth + 1).value
  }

  /** The files of a tree: the root, and the files of the trees it includes. */
  lemma TreeMembers(fs: FileSystem, file: string, depth: nat, f: string)
    requires depth <= MAX_INCLUDE_DEPTH && Expand(fs, file, depth).Some?
    ensures f in Expand(fs, file, depth).value <==> f == file || exists child :: Under(fs, file, depth, child, f)
  {
    var includes := fs[file].includes;
    PatternsMembers(fs, includes, depth + 1, f);
    if p :| p in includes && InPattern(fs, p, depth + 1, f) {
      MatchesMembers(fs, p.matches, depth + 1, f);
      var m :| m in p.matches && InMatch(fs, m, depth + 1, f);
      assert Under(fs, file, depth, m.path, f);
    }
    if child :| Under(fs, file, depth, child, f) {
      var p :| p in includes && p.Matches? && File(child) in p.matches;
      PatternsExpand(fs, includes, depth + 1, p);
      assert InMatch(fs, File(child), depth + 1, f);
      MatchesMembers(fs, p.matches, depth + 1, f);
      assert InPattern(fs, p, depth + 1, f);
    }
  }

  lemma {:induction false} ExpandedAreReadable(fs: FileSystem, path: string, depth: nat)
    requires depth <= MAX_INCLUDE_DEPTH + 1 && Expand(fs, path, depth).Some?
    ensures forall f :: f in Expand(fs, path, depth).value ==> f in fs && fs[f].Parsed?
    decreases MAX_INCLUDE_DEPTH + 1 - depth
  {
    forall f | f in Expand(fs, path, depth).value ensures f in fs && fs[f].Parsed? {
      TreeMembers(fs, path, depth, f);
      if f != path {
        var child :| Under(fs, path, depth, child, f);
        ExpandedAreReadable(fs, child, depth + 1);
      }
    }
  }

  lemma {:induction false} ChainExpands(fs: FileSystem, chain: seq<string>, i: nat)
    requires Chain(fs, chain) && i < |chain| && Expand(fs, chain[0], 0).Some?
    ensures i <= MAX_INCLUDE_DEPTH && Expand(fs, chain[i], i).Some?
  {
    if i > 0 {
      ChainExpands(fs, chain, i - 1);
      IncludedExpand(fs, chain[i - 1], i - 1, File(chain[i]));
    }
  }

  /** No name is used by two files. */
  ghost predicate AllApart(fs: FileSystem) {
    forall f, g :: f in fs && g in fs && f != g ==> Apart(Own(fs, f), Own(fs, g))
  }

  /** If the include tree can be written out and no two files share a name, the loader refuses it
      exactly if a file occurs in it twice ... */
  lemma OnlyRepeatsAreRefused(fs: FileSystem, path: string)
    requires Expand(fs, path, 0).Some? && AllApart(fs)
    ensures Acceptable(fs, Expand(fs, path, 0), {}) <==> Distinct(Expand(fs, path, 0).value)
  {
    var files := Expand(fs, path, 0).value;
    if Distinct(files) {
      forall i, j | 0 <= i < j < |files| ensures Apart(Own(fs, files[i]), Own(fs, files[j])) {
        assert files[i] != files[j];
      }
    }
  }

  /** ... and calls every such failure circular, cycle or not. */
  lemma SoundTreesFailOnlyAsCircular(fs: FileSystem, path: string, chain: seq<string>, visited: set<string>, e: Error)
    requires Expand(fs, path, 0).Some? && AllApart(fs) && Blames(fs, [], path, chain, visited, e)
    ensures e.Circular?
  {
    hide Own, NamesIn;
    var n := |chain|;
    if n > 0 {
      ChainExpands(fs, chain, n - 1);
      var last := chain[n - 1];
      match e
      case DepthExceeded(f) => IncludedExpand(fs, last, n - 1, File(f));
      case Unreadable(f) => IncludedExpand(fs, last, n - 1, File(f));
      case BadYaml(f) => IncludedExpand(fs, last, n - 1, File(f));
      case StatFailed(f) => IncludedExpand(fs, last, n - 1, StatFails(f));
      case Unsafe(f) => IncludedExpand(fs, last, n - 1, WorldWritable(f));
      case BadPattern => PatternsExpand(fs, fs[last].includes, n, BadGlob);
      case Circular(_, _) =>
      case Duplicate(name) => ApartFilesShareNothing(fs, visited, name);
    }
  }

  lemma ApartFilesShareNothing(fs: FileSystem, files: set<string>, name: string)
    requires AllApart(fs)
    ensures !TwoFilesShare(fs, files, name)
  {
    forall f, g | f in files && g in files && f != g ensures !SharesName(Own(fs, f), Own(fs, g), name) {
      assert f in fs && g in fs ==> Apart(Own(fs, f), Own(fs, g));
    }
  }

  /** Two files that include a third, and nothing else in any of them. */
  ghost predicate Diamond(fs: FileSystem) {
    fs == map["a" := Parsed(EMPTY, [Matches([File("b"), File("c")])]), "b" := Parsed(EMPTY, [Matches([File("d")])]),
              "c" := Parsed(EMPTY, [Matches([File("d")])]), "d" := Parsed(EMPTY, [])]
  }

  lemma DiamondExpands(fs: FileSystem)
    requires Diamond(fs)
    ensures Expand(fs, "a", 0) == Some(["a", "b", "d", "c", "d"])
  {
    LeafExpands(fs, "d", 2);
    LinkExpands(fs, "b", "d", 1);
    LinkExpands(fs, "c", "d", 1);
    var matches := [File("b"), File("c")];
    assert matches[..1] == [File("b")] && matches[..1][..0] == [];
    assert ExpandMatches(fs, [], 1) == Some([]);
    JoinedToNothing(ExpandMatch(fs, File("b"), 1));
    assert ExpandMatches(fs, matches[..1], 1) == Some(["b", "d"]);
    assert ["b", "d"] + ["c", "d"] == ["b", "d", "c", "d"];
    assert ExpandMatches(fs, matches, 1) == Some(["b", "d", "c", "d"]);
    SinglePattern(fs, Matches(matches), 1);
    assert ["a"] + ["b", "d", "c", "d"] == ["a", "b", "d", "c", "d"];
  }

  /** So it refuses two files including a third, a tree without any cycle, as a circular include. */
  lemma DiamondsAreRefusedAsCircular(fs: FileSystem, chain: seq<string>, visited: set<string>, e: Error)
    requires Diamond(fs)
    ensures !Acceptable(fs, Expand(fs, "a", 0), {})
    ensures Blames(fs, [], "a", chain, visited, e) ==> e.Circular?
  {
    DiamondExpands(fs);
    var files := ["a", "b", "d", "c", "d"];
    assert files[2] == files[4];
    hide Expand;
    if Blames(fs, [], "a", chain, visited, e) {
      assert AllApart(fs);
      SoundTreesFailOnlyAsCircular(fs, "a", chain, visited, e);
    }
  }

  lemma JoinedToNothing(x: Option<seq<string>>)
    ensures Joined(Some([]), x) == x
  {
    assert x.Some? ==> [] + x.value == x.value;
  }

  lemma SinglePattern(fs: FileSystem, pattern: Pattern, depth: nat)
    requires depth <= MAX_INCLUDE_DEPTH + 1
    ensures ExpandPatterns(fs, [pattern], depth) == ExpandPattern(fs, pattern, depth)
  {
    assert [pattern][..0] == [];
    assert ExpandPatterns(fs, [], depth) == Some([]);
    JoinedToNothing(ExpandPattern(fs, pattern, depth));
  }

  lemma LeafExpands(fs: FileSystem, path: string, depth: nat)
    requires depth <= MAX_INCLUDE_DEPTH && path in fs && fs[path].Parsed? && fs[path].includes == []
    ensures Expand(fs, path, depth) == Some([path])
  {
    assert ExpandPatterns(fs, [], depth + 1) == Some([]);
    assert [path] + [] == [path];
  }

  lemma LinkExpands(fs: FileSystem, path: string, leaf: string, depth: nat)
    requires depth < MAX_INCLUDE_DEPTH && path in fs && leaf in fs
    requires fs[path].Parsed? && fs[path].includes == [Matches([File(leaf)])] && fs[leaf].Parsed?
               && fs[leaf].includes == []
    ensures Expand(fs, path, depth) == Some([path, leaf])
  {
    LeafExpands(fs, leaf, depth + 1);
    assert [File(leaf)][..0] == [];
    assert ExpandMatches(fs, [], depth + 1) == Some([]);
    JoinedToNothing(ExpandMatch(fs, File(leaf), depth + 1));
    assert ExpandMatches(fs, [File(leaf)], depth + 1) == Some([leaf]);
    SinglePattern(fs, Matches([File(leaf)]), depth + 1);
    assert [path] + [leaf] == [path, leaf];
  }
}
