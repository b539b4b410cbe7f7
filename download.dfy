/** The `download` item: a file at a path on the node, fetched from a URL
    with curl and checked against a configured SHA-256 digest. A download
    whose digest does not match is removed again and reported as not
    converged. */
module Download {
  import opened Wrappers
  import opened Text
  import opened Remote

  /** A `download` item: its name is the target path; `url` and `sha256` are
      its attributes (`None` where the attribute is not set). */
  datatype Download = Download(name: string, url: Option<string>, sha256: Option<string>)

  /** The item dicts `cdict` and `sdict` build: `{'type': kind, 'sha256': sha256}`. */
  datatype ItemDict = ItemDict(kind: string, sha256: Option<string>)

  /** What `validate_attributes` raises. */
  datatype BundleError = MissingHash | MissingUrl

  /** What the item's operations raise: a failed `node.run`. (The IndexError
      of `split()[0]` on blank hash output cannot arise: every hashing tool
      prints the digest first.) */
  datatype DownloadError = RemoteCommand(failure: Failure)

  /** The item that a `download` item may depend on, as `get_auto_deps` sees
      it. */
  datatype ItemRef = ItemRef(typeName: string, name: string, id: string)

  /** A Python attribute value that counts as true: set and not empty. */
  predicate Truthy(value: Option<string>) {
    value.Some? && value.value != []
  }

  /** `validate_attributes`: the hash is checked before the URL, and a
      missing or empty value of either is an error. */
  function ValidateAttributes(url: Option<string>, sha256: Option<string>): (r: Result<(), BundleError>)
    ensures r.Ok? <==> Truthy(sha256) && Truthy(url)
    ensures r == Err(MissingHash) <==> !Truthy(sha256)
    ensures r == Err(MissingUrl) <==> Truthy(sha256) && !Truthy(url)
  {
    if !Truthy(sha256) then Err(MissingHash)
    else if !Truthy(url) then Err(MissingUrl)
    else Ok(())
  }

  /** `cdict`: the desired state is a download with the configured digest. */
  function CDict(d: Download): (c: ItemDict)
    ensures c.kind == "download" && c.sha256 == d.sha256
  {
    ItemDict("download", d.sha256)
  }

  /** The digest of the regular file at `path`, `None` where there is none. */
  function FileDigest(tools: Tools, st: State, path: string): Option<string> {
    if path in st.fs && st.fs[path].File? then Some(tools.sha256(st.fs[path].data)) else None
  }

  /** The observed state `sdict` reports for a host in state `st`: nothing
      when the path does not exist, else a download whose digest is the
      file's (none for a directory). */
  function Observed(tools: Tools, st: State, path: string): Option<ItemDict> {
    if path !in st.fs then None else Some(ItemDict("download", FileDigest(tools, st, path)))
  }

  /** The hashing command of the shell fallback: `shasum -a 256` on macOS,
      `sha256 -q` on the BSD family, `sha256sum` everywhere else. */
  function HashToolFor(os: string, bsdFamily: set<string>): (tool: HashTool)
    ensures tool == Shasum <==> os == "macos"
    ensures tool == Sha256Quiet <==> os != "macos" && os in bsdFamily
  {
    if os == "macos" then Shasum
    else if os in bsdFamily then Sha256Quiet
    else Sha256sum
  }

  /** The URL argument of the curl command: `quote(None)` is the empty
      argument. */
  function UrlArg(url: Option<string>): string {
    match url
    case None => ""
    case Some(u) => u
  }

  /** `__hash_remote_file(path)`: no digest for anything but a regular
      file; the digest `PathInfo` reports where it reports one; otherwise the
      first word of the output of the OS's hashing command, which is the
      file's digest whichever command printed it. */
  method HashRemoteFile(node: Node, path: string) returns (r: Result<Option<string>, DownloadError>)
    modifies node
    ensures node.state == old(node.state)
    ensures !node.Info(path).isFile || node.nativeSha256 ==>
              node.log == old(node.log) && r == Ok(FileDigest(node.tools, node.state, path))
    ensures node.Info(path).isFile && !node.nativeSha256 ==>
              node.log == old(node.log) + [Event(Hash(HashToolFor(node.os, node.bsdFamily), path), r.Ok?)]
    ensures r.Ok? ==> r.value == FileDigest(node.tools, node.state, path)
    ensures r.Err? <==> node.Info(path).isFile && !node.nativeSha256 && old(node.Faulty())
    ensures r.Err? ==> r.error.RemoteCommand?
  {
    var info := node.Info(path);
    if !info.isFile {
      return Ok(None);
    }
    if info.sha256.Some? {
      return Ok(Some(info.sha256.value));
    }
    var tool := HashToolFor(node.os, node.bsdFamily);
    ghost var digest := node.tools.sha256(node.state.fs[path].data);
    ReadOnlyKeepsState(node.tools, node.state, Hash(tool, path));
    assert Exec(node.tools, node.state, Hash(tool, path)).result == RunResult(0, HashOutput(tool, digest, path));
    var result := node.Check(Hash(tool, path));
    if result.Err? {
      return Err(RemoteCommand(result.error));
    }
    // Every hashing tool prints the digest as its first word, so the
    // IndexError of `split()[0]` on blank output cannot arise.
    HashOutputFirstWord(tool, digest, path);
    var word := FirstWord(result.value);
    assert word.Some?;
    r := Ok(Some(word.value));
  }

  /** `sdict`: nothing when the path does not exist, else the digest of what
      is there. */
  method SDict(d: Download, node: Node) returns (r: Result<Option<ItemDict>, DownloadError>)
    modifies node
    ensures node.state == old(node.state)
    ensures r.Ok? ==> r.value == Observed(node.tools, node.state, d.name)
    ensures r.Err? ==> old(node.Faulty()) && r.error.RemoteCommand?
    ensures |old(node.log)| <= |node.log| <= |old(node.log)| + 1 && node.log[..|old(node.log)|] == old(node.log)
    ensures node.Info(d.name).isFile && !node.nativeSha256 ==>
              node.log == old(node.log) + [Event(Hash(HashToolFor(node.os, node.bsdFamily), d.name), r.Ok?)]
    ensures !node.Info(d.name).isFile || node.nativeSha256 ==> node.log == old(node.log)
  {
    var info := node.Info(d.name);
    if !info.present {
      return Ok(None);
    }
    var digest := HashRemoteFile(node, d.name);
    if digest.Err? {
      return Err(digest.error);
    }
    r := Ok(Some(ItemDict("download", digest.value)));
  }

  /** `fix`: a deletion is not supported and does nothing. Otherwise curl
      the URL to the path and hash the result; on a mismatch the path is
      removed with `rm -rf` and `fix` returns `False` (`Some(false)`), and
      otherwise it returns nothing (`None`). Every `node.run` raises on a
      non-zero exit. */
  method Fix(d: Download, node: Node, mustBeDeleted: bool) returns (r: Result<Option<bool>, DownloadError>)
    modifies node
    ensures mustBeDeleted ==> r == Ok(None) && node.log == old(node.log) && node.state == old(node.state)
    ensures !mustBeDeleted ==>
              |node.log| > |old(node.log)| && node.log[..|old(node.log)|] == old(node.log)
              && node.log[|old(node.log)|].cmd == Curl(UrlArg(d.url), d.name)
    ensures node.state == Replay(node.tools, old(node.state), node.log[|old(node.log)|..])
    ensures r.Ok? ==> r.value != Some(true)
    ensures r.Ok? && !mustBeDeleted ==>
              && node.tools.fetch(UrlArg(d.url)).Some?
              && (r.value == Some(false) <==>
                    Some(node.tools.sha256(node.tools.fetch(UrlArg(d.url)).value)) != d.sha256)
    ensures r == Ok(None) && !mustBeDeleted ==> FileDigest(node.tools, node.state, d.name) == d.sha256
    ensures r == Ok(Some(false)) ==> d.name !in node.state.fs && Observed(node.tools, node.state, d.name).None?
    ensures r == Ok(Some(false)) ==> forall p :: Under(p, d.name) ==> p !in node.state.fs
    ensures r.Err? ==> r.error.RemoteCommand?
  {
    if mustBeDeleted {
      return Ok(None);
    }
    ghost var log0, st0 := node.log, node.state;
    var fetched := node.Check(Curl(UrlArg(d.url), d.name));
    ghost var e := Event(Curl(UrlArg(d.url), d.name), fetched.Ok?);
    assert node.log[|log0|..] == [e];
    assert Replay(node.tools, st0, [e]) == node.state by {
      ReplaySnoc(node.tools, st0, [], e);
      assert [] + [e] == [e];
    }
    if fetched.Err? {
      return Err(RemoteCommand(fetched.error));
    }
    ghost var st1, log1 := node.state, node.log;
    assert FileDigest(node.tools, st1, d.name) == Some(node.tools.sha256(node.tools.fetch(UrlArg(d.url)).value));
    r := VerifyDownload(d, node);
    assert node.log[|log0|..] == [e] + node.log[|log1|..];
    ReplayAppend(node.tools, st0, [e], node.log[|log1|..]);
  }

  /** The part of `fix` after the download: hash the file, and remove it
      when the digest is not the configured one. */
  method VerifyDownload(d: Download, node: Node) returns (r: Result<Option<bool>, DownloadError>)
    modifies node
    ensures |node.log| > |old(node.log)| || node.nativeSha256 || !old(node.Info(d.name)).isFile
    ensures |node.log| >= |old(node.log)| && node.log[..|old(node.log)|] == old(node.log)
    ensures node.state == Replay(node.tools, old(node.state), node.log[|old(node.log)|..])
    ensures r.Ok? ==> r.value != Some(true)
    ensures r.Ok? ==> (r.value == Some(false) <==> FileDigest(node.tools, old(node.state), d.name) != d.sha256)
    ensures r == Ok(None) ==> FileDigest(node.tools, node.state, d.name) == d.sha256
    ensures r == Ok(Some(false)) ==> d.name !in node.state.fs && Observed(node.tools, node.state, d.name).None?
    ensures r == Ok(Some(false)) ==> forall p :: Under(p, d.name) ==> p !in node.state.fs
    ensures r.Err? ==> r.error.RemoteCommand?
  {
    ghost var log0, st0 := node.log, node.state;
    var digest := HashRemoteFile(node, d.name);
    assert node.state == Replay(node.tools, st0, node.log[|log0|..]) by {
      if |node.log| > |log0| {
        ghost var e := node.log[|log0|];
        assert node.log[|log0|..] == [] + [e];
        ReplaySnoc(node.tools, st0, [], e);
        ReadOnlyKeepsState(node.tools, st0, e.cmd);
      } else {
        assert node.log[|log0|..] == [];
      }
    }
    if digest.Err? {
      return Err(digest.error);
    }
    if digest.value != d.sha256 {
      ghost var log1 := node.log;
      r := RemoveDownload(d, node);
      assert node.log[|log0|..] == log1[|log0|..] + [node.log[|log1|]];
      ReplaySnoc(node.tools, st0, log1[|log0|..], node.log[|log1|]);
      return r;
    }
    return Ok(None);
  }

  /** `rm -rf` of the downloaded path after a digest mismatch, and the
      `False` returned then. */
  method RemoveDownload(d: Download, node: Node) returns (r: Result<Option<bool>, DownloadError>)
    modifies node
    ensures |node.log| == |old(node.log)| + 1 && node.log[..|old(node.log)|] == old(node.log)
    ensures node.log[|old(node.log)|].cmd == RmRf(d.name)
    ensures node.state == Step(node.tools, old(node.state), node.log[|old(node.log)|])
    ensures r.Ok? ==> r.value == Some(false)
    ensures r.Ok? ==> d.name !in node.state.fs && Observed(node.tools, node.state, d.name).None?
    ensures r.Ok? ==> forall p :: Under(p, d.name) ==> p !in node.state.fs
    ensures r.Err? ==> r.error.RemoteCommand?
  {
    ghost var st0 := node.state;
    var removed := node.Check(RmRf(d.name));
    if removed.Err? {
      return Err(RemoteCommand(removed.error));
    }
    RemoveTreeLeavesAbsent(node.tools, st0, d.name);
    return Ok(Some(false));
  }

  /** The item `get_auto_deps` depends on: the `curl` package of apt. */
  predicate IsCurlPackage(item: ItemRef) {
    item.typeName == "pkg_apt" && item.name == "curl"
  }

  /** The ids of the `curl` packages among `items`, in their order. */
  function CurlPackageIds(items: seq<ItemRef>): seq<string>
    decreases |items|
  {
    if items == [] then []
    else
      var rest := CurlPackageIds(items[..|items| - 1]);
      if IsCurlPackage(items[|items| - 1]) then rest + [items[|items| - 1].id] else rest
  }

  /** An id is among the dependencies exactly when it is the id of a `curl`
      package of apt among the items. */
  lemma {:induction false} CurlPackageIdsMembers(items: seq<ItemRef>, x: string)
    ensures x in CurlPackageIds(items) <==> exists i :: 0 <= i < |items| && IsCurlPackage(items[i]) && items[i].id == x
    decreases |items|
  {
    if items != [] {
      var init := items[..|items| - 1];
      CurlPackageIdsMembers(init, x);
      if exists i :: 0 <= i < |items| && IsCurlPackage(items[i]) && items[i].id == x {
        var i :| 0 <= i < |items| && IsCurlPackage(items[i]) && items[i].id == x;
        if i < |init| {
          assert init[i] == items[i];
        }
      }
      assert forall i :: 0 <= i < |init| ==> init[i] == items[i];
    }
  }

  /** Every dependency comes from some item, and there is one per `curl`
      package, so there are never more dependencies than items. */
  lemma {:induction false} CurlPackageIdsLength(items: seq<ItemRef>)
    ensures |CurlPackageIds(items)| <= |items|
    ensures (forall i :: 0 <= i < |items| ==> !IsCurlPackage(items[i])) ==> CurlPackageIds(items) == []
    decreases |items|
  {
    if items != [] {
      CurlPackageIdsLength(items[..|items| - 1]);
    }
  }

  /** `get_auto_deps(items)`: the ids of the `curl` packages, in input order. */
  method GetAutoDeps(items: seq<ItemRef>) returns (deps: seq<string>)
    ensures deps == CurlPackageIds(items)
  {
    deps := [];
    var i := 0;
    while i < |items|
      invariant 0 <= i <= |items|
      invariant deps == CurlPackageIds(items[..i])
    {
      assert items[..i + 1][..i] == items[..i];
      if items[i].typeName == "pkg_apt" && items[i].name == "curl" {
        deps := deps + [items[i].id];
      }
      i := i + 1;
    }
    assert items[..|items|] == items;
  }
}
