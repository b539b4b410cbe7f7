/** The plugin index builder: every plugin directory of the repository is
    hashed (`hash_directory`) and described by its manifest, and the new
    index refuses a plugin whose contents changed while its version did
    not grow. The local filesystem, `os.walk`, JSON parsing and SHA-1 are
    parameters. */
module UpdateIndex {
  import opened Wrappers
  import opened Text

  /** Python's `a <= b` on `str`. */
  predicate LessEq(a: string, b: string) {
    a == b || Less(a, b)
  }

  predicate Sorted(s: seq<string>) {
    forall i, j :: 0 <= i < j < |s| ==> LessEq(s[i], s[j])
  }

  lemma LessEqAntisymmetric(a: string, b: string)
    requires LessEq(a, b) && LessEq(b, a)
    ensures a == b
  {
    if a != b {
      LessAsymmetric(a, b);
    }
  }

  /** `x` inserted into the sorted `s` at its place. */
  function Insert(x: string, s: seq<string>): (r: seq<string>)
    requires Sorted(s)
    ensures Sorted(r)
    ensures multiset(r) == multiset(s) + multiset{x}
    ensures forall y :: y in r ==> y == x || y in s
  {
    if s == [] then [x]
    else if LessEq(x, s[0]) then
      InsertAtFront(x, s);
      [x] + s
    else
      var t := Insert(x, s[1..]);
      InsertBehind(x, s, t);
      assert s == [s[0]] + s[1..];
      [s[0]] + t
  }

  lemma InsertAtFront(x: string, s: seq<string>)
    requires Sorted(s) && s != [] && LessEq(x, s[0])
    ensures Sorted([x] + s)
  {
    assert forall j :: 0 < j < |[x] + s| ==> LessEq(s[0], ([x] + s)[j]);
    forall j | 0 < j < |[x] + s|
      ensures LessEq(x, ([x] + s)[j])
    {
      if x != s[0] && ([x] + s)[j] != s[0] {
        LessTransitive(x, s[0], ([x] + s)[j]);
      }
    }
  }

  lemma InsertBehind(x: string, s: seq<string>, t: seq<string>)
    requires Sorted(s) && s != [] && !LessEq(x, s[0])
    requires Sorted(t) && forall y :: y in t ==> y == x || y in s[1..]
    ensures Sorted([s[0]] + t)
  {
    LessTotal(x, s[0]);
    assert forall y :: y in t ==> LessEq(s[0], y);
  }

  /** `list.sort()` on strings: the same elements, in ascending order. */
  function SortStrings(s: seq<string>): (r: seq<string>)
    ensures Sorted(r)
    ensures multiset(r) == multiset(s)
  {
    if s == [] then []
    else
      assert s == [s[0]] + s[1..];
      Insert(s[0], SortStrings(s[1..]))
  }

  /** Two sorted orderings of the same strings are the same sequence, so
      the result of sorting does not depend on the order of its input. */
  lemma {:induction false} SortedUnique(a: seq<string>, b: seq<string>)
    requires Sorted(a) && Sorted(b) && multiset(a) == multiset(b)
    ensures a == b
    decreases |a|
  {
    if a == [] {
      assert |b| == |multiset(b)| == 0;
    } else {
      assert |b| == |multiset(b)| == |multiset(a)| == |a|;
      assert a[0] in multiset(b) && b[0] in multiset(a);
      assert LessEq(a[0], b[0]) && LessEq(b[0], a[0]);
      LessEqAntisymmetric(a[0], b[0]);
      assert a == [a[0]] + a[1..] && b == [b[0]] + b[1..];
      calc {
        multiset(a[1..]);
        multiset(a) - multiset{a[0]};
        multiset(b) - multiset{b[0]};
        multiset(b[1..]);
      }
      SortedUnique(a[1..], b[1..]);
    }
  }

  /** One tuple `(root, dirs, files)` of `os.walk`, without `dirs`. */
  datatype WalkEntry = WalkEntry(root: string, files: seq<string>)

  /** The paths `join(root, file)` of one walk entry. */
  function Joined(e: WalkEntry): seq<string> {
    seq(|e.files|, k requires 0 <= k < |e.files| => PathJoin(e.root, e.files[k]))
  }

  /** The paths `hash_directory` collects from a walk, in walk order. */
  function FileList(walk: seq<WalkEntry>): seq<string> {
    if walk == [] then [] else FileList(walk[..|walk| - 1]) + Joined(walk[|walk| - 1])
  }

  /** The contents fed to the hasher, reading `join(root, file)` for each
      `file` in order; `None` when one of them is not a readable file. */
  function Feed(files: map<string, string>, root: string, list: seq<string>): Option<string> {
    if list == [] then Some("")
    else
      match Feed(files, root, list[..|list| - 1])
      case None => None
      case Some(prefix) =>
        var path := PathJoin(root, list[|list| - 1]);
        if path in files then Some(prefix + files[path]) else None
  }

  /** The digest `hash_directory` returns for a walk; `root` in the last
      loop of the source is the root of the walk's last entry. */
  function DirectoryDigest(sha1: string -> string, files: map<string, string>, walk: seq<WalkEntry>): Option<string> {
    var root := if walk == [] then "" else walk[|walk| - 1].root;
    match Feed(files, root, SortStrings(FileList(walk)))
    case None => None
    case Some(data) => Some(sha1(data))
  }

  /** `hash_directory(path)` for the walk `walk` of `path`: collect the
      joined paths, sort them and hash their contents in that order.
      `None` stands for the exception `open` raises on a missing file. */
  method HashDirectory(sha1: string -> string, files: map<string, string>, walk: seq<WalkEntry>)
      returns (r: Option<string>)
    ensures r == DirectoryDigest(sha1, files, walk)
  {
    var filelist, root := CollectPaths(walk);
    var sorted := SortStrings(filelist);
    var data := FeedFiles(files, root, sorted);
    if data.None? {
      return None;
    }
    r := Some(sha1(data.value));
  }

  /** The first loop of `hash_directory`: the joined paths of the walk, and
      the root of its last entry. */
  method CollectPaths(walk: seq<WalkEntry>) returns (filelist: seq<string>, root: string)
    ensures filelist == FileList(walk)
    ensures root == if walk == [] then "" else walk[|walk| - 1].root
  {
    filelist, root := [], "";
    for i := 0 to |walk|
      invariant filelist == FileList(walk[..i])
      invariant root == if i == 0 then "" else walk[i - 1].root
    {
      root := walk[i].root;
      var names := walk[i].files;
      for j := 0 to |names|
        invariant filelist == FileList(walk[..i]) + Joined(WalkEntry(root, names[..j]))
      {
        assert Joined(WalkEntry(root, names[..j + 1])) == Joined(WalkEntry(root, names[..j])) + [PathJoin(root, names[j])];
        filelist := filelist + [PathJoin(root, names[j])];
      }
      assert names[..|names|] == names;
      assert walk[..i + 1][..i] == walk[..i];
    }
    assert walk[..|walk|] == walk;
  }

  /** The second loop of `hash_directory`: the contents of the listed files
      in order, or `None` at the first one that cannot be read. */
  method FeedFiles(files: map<string, string>, root: string, list: seq<string>) returns (r: Option<string>)
    ensures r == Feed(files, root, list)
  {
    var data := "";
    for k := 0 to |list|
      invariant Feed(files, root, list[..k]) == Some(data)
    {
      assert list[..k + 1][..k] == list[..k];
      var path := PathJoin(root, list[k]);
      if path !in files {
        FeedStops(files, root, list, k);
        return None;
      }
      data := data + files[path];
    }
    assert list[..|list|] == list;
    r := Some(data);
  }

  /** Once a read fails, the whole feed fails. */
  lemma {:induction false} FeedStops(files: map<string, string>, root: string, list: seq<string>, k: nat)
    requires k < |list| && PathJoin(root, list[k]) !in files
    ensures Feed(files, root, list) == None
    decreases |list|
  {
    if k < |list| - 1 {
      assert list[..|list| - 1][k] == list[k];
      FeedStops(files, root, list[..|list| - 1], k);
    }
  }

  /** All walk roots are absolute, as they are for the real path of the
      repository. */
  predicate AbsoluteWalk(walk: seq<WalkEntry>) {
    forall i :: 0 <= i < |walk| ==> StartsWith(walk[i].root, "/")
  }

  lemma {:induction false} FileListAbsolute(walk: seq<WalkEntry>)
    requires AbsoluteWalk(walk)
    ensures forall p :: p in FileList(walk) ==> StartsWith(p, "/")
    decreases |walk|
  {
    if walk != [] {
      FileListAbsolute(walk[..|walk| - 1]);
      var e := walk[|walk| - 1];
      assert StartsWith(e.root, "/");
      forall k | 0 <= k < |e.files|
        ensures StartsWith(PathJoin(e.root, e.files[k]), "/")
      {
        var p := PathJoin(e.root, e.files[k]);
        if !StartsWith(e.files[k], "/") {
          assert p[..1] == e.root[..1];
        }
      }
    }
  }

  /** When every listed path is absolute, the directory `join` resolves them
      against does not matter. */
  lemma {:induction false} FeedIgnoresRoot(files: map<string, string>, r1: string, r2: string, list: seq<string>)
    requires forall p :: p in list ==> StartsWith(p, "/")
    ensures Feed(files, r1, list) == Feed(files, r2, list)
    decreases |list|
  {
    if list != [] {
      assert forall p :: p in list[..|list| - 1] ==> p in list;
      FeedIgnoresRoot(files, r1, r2, list[..|list| - 1]);
      assert list[|list| - 1] in list;
    }
  }

  /** The directory digest depends only on which paths the walk lists (and
      on their contents), never on the order in which `os.walk` yields the
      directories or the files within them. */
  lemma WalkOrderIrrelevant(sha1: string -> string, files: map<string, string>,
                            w1: seq<WalkEntry>, w2: seq<WalkEntry>)
    requires AbsoluteWalk(w1) && AbsoluteWalk(w2)
    requires multiset(FileList(w1)) == multiset(FileList(w2))
    ensures DirectoryDigest(sha1, files, w1) == DirectoryDigest(sha1, files, w2)
  {
    var s1, s2 := SortStrings(FileList(w1)), SortStrings(FileList(w2));
    SortedUnique(s1, s2);
    FileListAbsolute(w1);
    forall p | p in s1
      ensures StartsWith(p, "/")
    {
      assert p in multiset(s1);
      assert p in FileList(w1);
    }
    var r1 := if w1 == [] then "" else w1[|w1| - 1].root;
    var r2 := if w2 == [] then "" else w2[|w2| - 1].root;
    FeedIgnoresRoot(files, r1, r2, s1);
  }

  /** The digest reads only the listed files: two filesystems that agree on
      them give the same digest. */
  lemma {:induction false} FeedReadsOnlyListed(f1: map<string, string>, f2: map<string, string>, root: string, list: seq<string>)
    requires forall p :: p in list ==> (PathJoin(root, p) in f1 <==> PathJoin(root, p) in f2)
    requires forall p :: p in list && PathJoin(root, p) in f1 ==> f1[PathJoin(root, p)] == f2[PathJoin(root, p)]
    ensures Feed(f1, root, list) == Feed(f2, root, list)
    decreases |list|
  {
    if list != [] {
      assert forall p :: p in list[..|list| - 1] ==> p in list;
      FeedReadsOnlyListed(f1, f2, root, list[..|list| - 1]);
      assert list[|list| - 1] in list;
    }
  }

  /** The `desc` and `version` keys of a plugin's `manifest.json`. */
  datatype Manifest = Manifest(desc: string, version: int)

  /** A `manifest.json` that parses as JSON, with the two keys the script
      looks up, each of which may be absent. */
  datatype ManifestJson = ManifestJson(desc: Option<string>, version: Option<int>)

  /** One value of `index.json`. */
  datatype IndexEntry = IndexEntry(checksum: string, desc: string, version: int)

  /** The lines printed for a plugin: added, or version bumped. */
  datatype Report = Added(plugin: string) | Bumped(plugin: string, from: int, to: int)

  datatype IndexError =
    | ManifestMissing(plugin: string)
    | ManifestInvalid(plugin: string)
    | KeyMissing(plugin: string, key: string)
    | Unreadable(plugin: string)
    | VersionNotIncremented(plugin: string)

  /** The repository as the script sees it: `BASE_PATH`, what `listdir`
      returns for it, the directories and the readable files, `os.walk` of a
      path, SHA-1 and the JSON parsing of a manifest (`None` for text that
      is not JSON). */
  datatype Env = Env(
    base: string,
    listing: seq<string>,
    dirs: set<string>,
    files: map<string, string>,
    walk: string -> seq<WalkEntry>,
    sha1: string -> string,
    parseManifest: string -> Option<ManifestJson>)

  /** A listed name is a plugin when it is a directory and not `.git`. */
  predicate IsPlugin(env: Env, plugin: string) {
    PathJoin(env.base, plugin) in env.dirs && plugin != ".git"
  }

  function ManifestPath(env: Env, plugin: string): string {
    PathJoin(PathJoin(env.base, plugin), "manifest.json")
  }

  /** The parsed `manifest.json` of a plugin, when the file exists and is
      JSON. */
  function ParsedManifest(env: Env, plugin: string): Option<ManifestJson> {
    if ManifestPath(env, plugin) in env.files then env.parseManifest(env.files[ManifestPath(env, plugin)])
    else None
  }

  /** The manifest of a plugin, when its file exists, parses and has both
      keys. */
  function ManifestOf(env: Env, plugin: string): (m: Option<Manifest>)
    ensures m.Some? <==>
              ParsedManifest(env, plugin).Some? && ParsedManifest(env, plugin).value.desc.Some?
              && ParsedManifest(env, plugin).value.version.Some?
  {
    match ParsedManifest(env, plugin)
    case Some(ManifestJson(Some(desc), Some(version))) => Some(Manifest(desc, version))
    case _ => None
  }

  function DigestOf(env: Env, plugin: string): Option<string> {
    DirectoryDigest(env.sha1, env.files, env.walk(PathJoin(env.base, plugin)))
  }

  /** What one plugin contributes to the new index, or the error the script
      raises for it, given the old index: the manifest is parsed before the
      directory is hashed, and its keys are looked up after. */
  function PluginResult(env: Env, old_index: map<string, IndexEntry>, plugin: string): Result<IndexEntry, IndexError> {
    if ManifestPath(env, plugin) !in env.files then Err(ManifestMissing(plugin))
    else match ParsedManifest(env, plugin)
      case None => Err(ManifestInvalid(plugin))
      case Some(json) =>
        match DigestOf(env, plugin)
        case None => Err(Unreadable(plugin))
        case Some(h) =>
          if json.desc.None? then Err(KeyMissing(plugin, "desc"))
          else if json.version.None? then Err(KeyMissing(plugin, "version"))
          else if plugin in old_index && h != old_index[plugin].checksum
                  && !(json.version.value > old_index[plugin].version)
          then Err(VersionNotIncremented(plugin))
          else Ok(IndexEntry(h, json.desc.value, json.version.value))
  }

  /** An index agrees with the repository: every entry carries the
      plugin's current directory digest, description and version. */
  predicate Consistent(env: Env, index: map<string, IndexEntry>) {
    forall p :: p in index ==>
      && ManifestOf(env, p).Some?
      && DigestOf(env, p).Some?
      && index[p] == IndexEntry(DigestOf(env, p).value, ManifestOf(env, p).value.desc, ManifestOf(env, p).value.version)
  }

  /** An accepted entry is the plugin's current state. */
  lemma PluginResultConsistent(env: Env, old_index: map<string, IndexEntry>, plugin: string)
    requires PluginResult(env, old_index, plugin).Ok?
    ensures ManifestOf(env, plugin).Some? && DigestOf(env, plugin).Some?
    ensures PluginResult(env, old_index, plugin).value ==
              IndexEntry(DigestOf(env, plugin).value, ManifestOf(env, plugin).value.desc, ManifestOf(env, plugin).value.version)
  {
  }

  /** The version guard: a plugin whose manifest and contents are readable
      is refused exactly when it is in the old index, its checksum changed
      and its version did not grow. In particular an unchanged checksum is
      never refused, whatever the version, and a new plugin is accepted. */
  lemma VersionGuard(env: Env, old_index: map<string, IndexEntry>, plugin: string)
    requires ManifestOf(env, plugin).Some? && DigestOf(env, plugin).Some?
    ensures PluginResult(env, old_index, plugin).Err? <==>
              && plugin in old_index
              && DigestOf(env, plugin).value != old_index[plugin].checksum
              && ManifestOf(env, plugin).value.version <= old_index[plugin].version
    ensures PluginResult(env, old_index, plugin).Err? ==>
              PluginResult(env, old_index, plugin).error == VersionNotIncremented(plugin)
  {
  }

  /** The order of a plugin's errors: a manifest that is not JSON fails
      before the directory is hashed, an unreadable directory fails before a
      missing key is looked up, and `desc` is looked up before `version`. */
  lemma PluginErrorOrder(env: Env, old_index: map<string, IndexEntry>, plugin: string)
    requires ManifestPath(env, plugin) in env.files
    ensures PluginResult(env, old_index, plugin) == Err(ManifestInvalid(plugin)) <==> ParsedManifest(env, plugin).None?
    ensures PluginResult(env, old_index, plugin) == Err(Unreadable(plugin)) <==>
              ParsedManifest(env, plugin).Some? && DigestOf(env, plugin).None?
    ensures PluginResult(env, old_index, plugin) == Err(KeyMissing(plugin, "desc")) <==>
              && ParsedManifest(env, plugin).Some? && DigestOf(env, plugin).Some?
              && ParsedManifest(env, plugin).value.desc.None?
    ensures PluginResult(env, old_index, plugin) == Err(KeyMissing(plugin, "version")) <==>
              && ParsedManifest(env, plugin).Some? && DigestOf(env, plugin).Some?
              && ParsedManifest(env, plugin).value.desc.Some? && ParsedManifest(env, plugin).value.version.None?
  {
  }

  /** The plugins of a listing, in listing order. */
  function Plugins(env: Env, names: seq<string>): (r: seq<string>)
    ensures forall p :: p in r <==> p in names && IsPlugin(env, p)
  {
    if names == [] then []
    else Plugins(env, names[..|names| - 1]) + (if IsPlugin(env, names[|names| - 1]) then [names[|names| - 1]] else [])
  }

  /** The lines printed for the plugins `ps` of a successful run. */
  function Reports(old_index: map<string, IndexEntry>, index: map<string, IndexEntry>, ps: seq<string>): seq<Report>
    requires forall p :: p in ps ==> p in index
  {
    if ps == [] then []
    else
      var p := ps[|ps| - 1];
      Reports(old_index, index, ps[..|ps| - 1]) + ReportFor(old_index, p, index[p])
  }

  /** The line printed for one accepted plugin, if any. */
  function ReportFor(old_index: map<string, IndexEntry>, plugin: string, entry: IndexEntry): seq<Report> {
    if plugin !in old_index then [Added(plugin)]
    else if entry.version > old_index[plugin].version then [Bumped(plugin, old_index[plugin].version, entry.version)]
    else []
  }

  /** A plugin is reported added exactly when the old index lacks it. */
  lemma {:induction false} ReportsAdded(old_index: map<string, IndexEntry>, index: map<string, IndexEntry>, ps: seq<string>, p: string)
    requires forall q :: q in ps ==> q in index
    ensures Added(p) in Reports(old_index, index, ps) <==> p in ps && p !in old_index
    decreases |ps|
  {
    if ps != [] {
      assert forall q :: q in ps[..|ps| - 1] ==> q in ps;
      ReportsAdded(old_index, index, ps[..|ps| - 1], p);
      assert ps == ps[..|ps| - 1] + [ps[|ps| - 1]];
    }
  }

  /** A plugin is reported bumped exactly when it was in the old index
      with a smaller version. */
  lemma {:induction false} ReportsBumped(old_index: map<string, IndexEntry>, index: map<string, IndexEntry>, ps: seq<string>, p: string)
    requires forall q :: q in ps ==> q in index
    ensures (exists a, b :: Bumped(p, a, b) in Reports(old_index, index, ps)) <==>
              p in ps && p in old_index && index[p].version > old_index[p].version
    decreases |ps|
  {
    if ps != [] {
      var init, q := ps[..|ps| - 1], ps[|ps| - 1];
      assert forall q :: q in init ==> q in ps;
      ReportsBumped(old_index, index, init, p);
      assert ps == init + [q];
      if q == p && p in old_index && index[p].version > old_index[p].version {
        assert Bumped(p, old_index[p].version, index[p].version) in Reports(old_index, index, ps);
      }
    }
  }

  /** The outcome of a successful run: the new index and the printed lines. */
  datatype Rebuilt = Rebuilt(index: map<string, IndexEntry>, reports: seq<Report>)

  /** The `__main__` block: for each listed plugin, read its manifest, hash
      its directory, enter it into the new index and check the version
      guard against the old index, raising on the first plugin that fails.
      Writing `index.json` is returning the new index. */
  method Rebuild(env: Env, old_index: map<string, IndexEntry>) returns (r: Result<Rebuilt, IndexError>)
    ensures r.Ok? <==> forall p :: p in env.listing && IsPlugin(env, p) ==> PluginResult(env, old_index, p).Ok?
    ensures r.Err? ==> exists i ::
              && 0 <= i < |env.listing| && IsPlugin(env, env.listing[i])
              && PluginResult(env, old_index, env.listing[i]) == Err(r.error)
              && forall j :: 0 <= j < i && IsPlugin(env, env.listing[j]) ==> PluginResult(env, old_index, env.listing[j]).Ok?
    ensures r.Ok? ==> r.value.index.Keys == set p | p in env.listing && IsPlugin(env, p)
    ensures r.Ok? ==> forall p :: p in r.value.index ==> PluginResult(env, old_index, p) == Ok(r.value.index[p])
    ensures r.Ok? ==> Consistent(env, r.value.index)
    ensures r.Ok? ==> r.value.reports == Reports(old_index, r.value.index, Plugins(env, env.listing))
  {
    var index: map<string, IndexEntry> := map[];
    var reports: seq<Report> := [];
    for i := 0 to |env.listing|
      invariant Partial(env, old_index, env.listing[..i], index, reports)
    {
      TakeOneMore(env.listing, i);
      var plugin := env.listing[i];
      if !IsPlugin(env, plugin) {
        PartialSkip(env, old_index, env.listing[..i], plugin, index, reports);
        continue;
      }
      var admitted := Admit(env, old_index, plugin);
      if admitted.Err? {
        FirstFailure(env, old_index, i, index, reports);
        return Err(admitted.error);
      }
      var (entry, report) := admitted.value;
      PartialStep(env, old_index, env.listing[..i], plugin, index, reports, entry, report);
      index, reports := index[plugin := entry], reports + report;
    }
    assert env.listing[..|env.listing|] == env.listing;
    PartialDone(env, old_index, index, reports);
    r := Ok(Rebuilt(index, reports));
  }

  lemma TakeOneMore<T>(s: seq<T>, i: nat)
    requires i < |s|
    ensures s[..i + 1] == s[..i] + [s[i]]
  {
  }

  /** After the plugins of `prefix`: the index holds exactly those
      plugins, each with its accepted entry, none of them failed, and the
      printed lines are theirs. */
  ghost predicate Partial(env: Env, old_index: map<string, IndexEntry>, prefix: seq<string>,
                          index: map<string, IndexEntry>, reports: seq<Report>)
  {
    && KeysAre(env, prefix, index)
    && ResultsMatch(env, old_index, index)
    && PrefixAccepted(env, old_index, prefix)
    && reports == Reports(old_index, index, Plugins(env, prefix))
  }

  /** The index holds exactly the plugins among `prefix`. */
  ghost predicate KeysAre(env: Env, prefix: seq<string>, index: map<string, IndexEntry>) {
    forall p :: p in index <==> p in prefix && IsPlugin(env, p)
  }

  /** Every entry of the index is what its plugin produces. */
  ghost predicate ResultsMatch(env: Env, old_index: map<string, IndexEntry>, index: map<string, IndexEntry>) {
    forall p :: p in index ==> PluginResult(env, old_index, p) == Ok(index[p])
  }

  /** Every plugin among `prefix` is accepted. */
  ghost predicate PrefixAccepted(env: Env, old_index: map<string, IndexEntry>, prefix: seq<string>) {
    forall j :: 0 <= j < |prefix| && IsPlugin(env, prefix[j]) ==> PluginResult(env, old_index, prefix[j]).Ok?
  }

  lemma PartialSkip(env: Env, old_index: map<string, IndexEntry>, prefix: seq<string>, plugin: string,
                    index: map<string, IndexEntry>, reports: seq<Report>)
    requires Partial(env, old_index, prefix, index, reports) && !IsPlugin(env, plugin)
    ensures Partial(env, old_index, prefix + [plugin], index, reports)
  {
    assert (prefix + [plugin])[..|prefix|] == prefix;
    assert Plugins(env, prefix + [plugin]) == Plugins(env, prefix);
  }

  lemma PartialStep(env: Env, old_index: map<string, IndexEntry>, prefix: seq<string>, plugin: string,
                    index: map<string, IndexEntry>, reports: seq<Report>, entry: IndexEntry, report: seq<Report>)
    requires Partial(env, old_index, prefix, index, reports) && IsPlugin(env, plugin)
    requires PluginResult(env, old_index, plugin) == Ok(entry) && report == ReportFor(old_index, plugin, entry)
    ensures Partial(env, old_index, prefix + [plugin], index[plugin := entry], reports + report)
  {
    StepKeys(env, prefix, plugin, index, entry);
    StepResults(env, old_index, index, plugin, entry);
    StepPrefixOk(env, old_index, prefix, plugin);
    StepReports(env, old_index, prefix, plugin, index, reports, entry, report);
  }

  lemma StepKeys(env: Env, prefix: seq<string>, plugin: string, index: map<string, IndexEntry>, entry: IndexEntry)
    requires KeysAre(env, prefix, index) && IsPlugin(env, plugin)
    ensures KeysAre(env, prefix + [plugin], index[plugin := entry])
  {
  }

  lemma StepResults(env: Env, old_index: map<string, IndexEntry>, index: map<string, IndexEntry>,
                    plugin: string, entry: IndexEntry)
    requires ResultsMatch(env, old_index, index)
    requires PluginResult(env, old_index, plugin) == Ok(entry)
    ensures ResultsMatch(env, old_index, index[plugin := entry])
    ensures plugin in index ==> index[plugin] == entry
  {
  }

  lemma StepPrefixOk(env: Env, old_index: map<string, IndexEntry>, prefix: seq<string>, plugin: string)
    requires PrefixAccepted(env, old_index, prefix)
    requires PluginResult(env, old_index, plugin).Ok?
    ensures PrefixAccepted(env, old_index, prefix + [plugin])
  {
    var prefix1 := prefix + [plugin];
    forall j | 0 <= j < |prefix1| && IsPlugin(env, prefix1[j])
      ensures PluginResult(env, old_index, prefix1[j]).Ok?
    {
      if j < |prefix| {
        assert prefix1[j] == prefix[j];
      }
    }
  }

  lemma StepReports(env: Env, old_index: map<string, IndexEntry>, prefix: seq<string>, plugin: string,
                    index: map<string, IndexEntry>, reports: seq<Report>, entry: IndexEntry, report: seq<Report>)
    requires KeysAre(env, prefix, index) && IsPlugin(env, plugin)
    requires reports == Reports(old_index, index, Plugins(env, prefix))
    requires report == ReportFor(old_index, plugin, entry)
    requires plugin in index ==> index[plugin] == entry
    ensures reports + report == Reports(old_index, index[plugin := entry], Plugins(env, prefix + [plugin]))
  {
    var ps, index1, prefix1 := Plugins(env, prefix), index[plugin := entry], prefix + [plugin];
    assert prefix1[..|prefix|] == prefix;
    assert Plugins(env, prefix1) == ps + [plugin];
    ReportsFrame(old_index, index, index1, ps);
    assert (ps + [plugin])[..|ps|] == ps;
  }

  lemma PartialDone(env: Env, old_index: map<string, IndexEntry>, index: map<string, IndexEntry>, reports: seq<Report>)
    requires Partial(env, old_index, env.listing, index, reports)
    ensures forall p :: p in env.listing && IsPlugin(env, p) ==> PluginResult(env, old_index, p).Ok?
    ensures index.Keys == set p | p in env.listing && IsPlugin(env, p)
    ensures forall p :: p in index ==> PluginResult(env, old_index, p) == Ok(index[p])
    ensures Consistent(env, index)
    ensures reports == Reports(old_index, index, Plugins(env, env.listing))
  {
    forall p | p in index
      ensures ManifestOf(env, p).Some? && DigestOf(env, p).Some?
      ensures index[p] == IndexEntry(DigestOf(env, p).value, ManifestOf(env, p).value.desc, ManifestOf(env, p).value.version)
    {
      PluginResultConsistent(env, old_index, p);
    }
  }

  /** A plugin that fails after all earlier plugins passed is the one the
      run raises for. */
  lemma FirstFailure(env: Env, old_index: map<string, IndexEntry>, i: nat, index: map<string, IndexEntry>, reports: seq<Report>)
    requires i < |env.listing| && IsPlugin(env, env.listing[i])
    requires PluginResult(env, old_index, env.listing[i]).Err?
    requires Partial(env, old_index, env.listing[..i], index, reports)
    ensures !forall p :: p in env.listing && IsPlugin(env, p) ==> PluginResult(env, old_index, p).Ok?
    ensures exists k ::
              && 0 <= k < |env.listing| && IsPlugin(env, env.listing[k])
              && PluginResult(env, old_index, env.listing[k]) == PluginResult(env, old_index, env.listing[i])
              && forall j :: 0 <= j < k && IsPlugin(env, env.listing[j]) ==> PluginResult(env, old_index, env.listing[j]).Ok?
  {
    assert forall j :: 0 <= j < i ==> env.listing[..i][j] == env.listing[j];
  }

  /** The body of the main loop for one plugin: read the manifest, hash
      the directory, check the version guard and say what to print. */
  method Admit(env: Env, old_index: map<string, IndexEntry>, plugin: string)
      returns (r: Result<(IndexEntry, seq<Report>), IndexError>)
    ensures r.Ok? <==> PluginResult(env, old_index, plugin).Ok?
    ensures r.Ok? ==> r.value.0 == PluginResult(env, old_index, plugin).value
    ensures r.Ok? ==> r.value.1 == ReportFor(old_index, plugin, r.value.0)
    ensures r.Err? ==> PluginResult(env, old_index, plugin) == Err(r.error)
  {
    var mpath := ManifestPath(env, plugin);
    if mpath !in env.files {
      return Err(ManifestMissing(plugin));
    }
    var manifest := env.parseManifest(env.files[mpath]);
    if manifest.None? {
      return Err(ManifestInvalid(plugin));
    }
    var dirHash := HashDirectory(env.sha1, env.files, env.walk(PathJoin(env.base, plugin)));
    if dirHash.None? {
      return Err(Unreadable(plugin));
    }
    if manifest.value.desc.None? {
      return Err(KeyMissing(plugin, "desc"));
    }
    if manifest.value.version.None? {
      return Err(KeyMissing(plugin, "version"));
    }
    var entry := IndexEntry(dirHash.value, manifest.value.desc.value, manifest.value.version.value);
    var report: seq<Report> := [];
    if plugin in old_index {
      if entry.checksum != old_index[plugin].checksum && !(entry.version > old_index[plugin].version) {
        return Err(VersionNotIncremented(plugin));
      }
      if entry.version > old_index[plugin].version {
        report := [Bumped(plugin, old_index[plugin].version, entry.version)];
      }
    } else {
      report := [Added(plugin)];
    }
    r := Ok((entry, report));
  }

  /** The lines printed for earlier plugins do not change when a later
      plugin is entered into the index. */
  lemma {:induction false} ReportsFrame(old_index: map<string, IndexEntry>, i0: map<string, IndexEntry>, i1: map<string, IndexEntry>, ps: seq<string>)
    requires forall p :: p in ps ==> p in i0 && p in i1 && i0[p] == i1[p]
    ensures Reports(old_index, i0, ps) == Reports(old_index, i1, ps)
    decreases |ps|
  {
    if ps != [] {
      assert forall p :: p in ps[..|ps| - 1] ==> p in ps;
      ReportsFrame(old_index, i0, i1, ps[..|ps| - 1]);
      assert ps[|ps| - 1] in ps;
    }
  }
}
