/** The `git_deploy` item: it deploys one revision of a git repository into
    a directory on a node by shipping a `git archive` tarball and unpacking it.
    The deployed revision is remembered on the node either in an extended
    attribute of the directory or in a read-only sentinel file inside it. */
module GitDeploy {
  import opened Wrappers
  import opened Text
  import opened Remote
  import opened Local

  /** Name of the sentinel file that holds the deployed revision. */
  const RemoteStateFilename: string := ".bundlewrap_git_deploy"
  /** The remote archive is `TempPrefix` followed by a random suffix. */
  const TempPrefix: string := ".bundlewrap_tmp_git_deploy_"
  /** The extended attribute that holds the deployed revision. */
  const RevAttr: string := "bw_git_deploy_rev"

  /** `is_ref(rev)`: the rev is taken for a branch or tag name exactly when
      one of its characters is not a lower-case hex digit, as a commit hash
      is written; the empty rev is not a ref. */
  function IsRef(rev: string): (r: bool)
    ensures r <==> exists i :: 0 <= i < |rev| && !IsHexDigit(rev[i])
  {
    if rev == [] then false
    else if !IsHexDigit(rev[0]) then true
    else
      var r := IsRef(rev[1..]);
      assert forall i :: 1 <= i < |rev| ==> rev[i] == rev[1..][i - 1];
      r
  }

  /** The clone options of a shallow clone. */
  predicate Shallow(cmdline: seq<string>) {
    |cmdline| == 7 && cmdline[2..5] == ["--depth", "1", "--no-single-branch"]
  }

  /** The git command line `clone_to_dir` runs: always a bare clone of `url`
      into the working directory, and a shallow one exactly when `rev` is a
      ref. */
  function CloneCommand(url: string, rev: string): (cmdline: seq<string>)
    ensures |cmdline| >= 4
    ensures cmdline[..2] == ["clone", "--bare"] && cmdline[|cmdline| - 2..] == [url, "."]
    ensures Shallow(cmdline) <==> IsRef(rev)
    ensures !IsRef(rev) ==> |cmdline| == 4
  {
    if IsRef(rev) then ["clone", "--bare", "--depth", "1", "--no-single-branch", url, "."]
    else ["clone", "--bare", url, "."]
  }

  /** `clone_to_dir`: a fresh temporary directory holding a clone of `url`,
      removed again when the clone fails, so that no directory is left
      behind that nobody will delete (see CloneToDirAsWritten). */
  method CloneToDir(m: Machine, url: string, rev: string) returns (r: Result<LocalPath, GitError>)
    requires m.Valid()
    modifies m
    ensures m.Valid() && m.atExit == old(m.atExit)
    ensures r.Ok? <==> m.git.clone(CloneCommand(url, rev))
    ensures r.Ok? ==> r.value.TempDir? && r.value !in old(m.files)
    ensures r.Ok? ==> m.files == old(m.files)[r.value := ""]
    ensures r.Err? ==> m.files == old(m.files)
  {
    var tmpdir := m.MkDtemp();
    var cloned := m.GitClone(CloneCommand(url, rev), tmpdir);
    if cloned.Err? {
      m.Remove(tmpdir);
      assert m.files == old(m.files);
      return Err(cloned.error);
    }
    return Ok(tmpdir);
  }

  /** `clone_to_dir` as written: when the clone fails, the temporary
      directory stays behind and is not registered for removal at exit. */
  method CloneToDirAsWritten(m: Machine, url: string, rev: string) returns (r: Result<LocalPath, GitError>)
    requires m.Valid()
    modifies m
    ensures m.Valid() && m.atExit == old(m.atExit)
    ensures r.Ok? <==> m.git.clone(CloneCommand(url, rev))
    ensures r.Err? ==> !m.Tidy()
  {
    var tmpdir := m.MkDtemp();
    var cloned := m.GitClone(CloneCommand(url, rev), tmpdir);
    if cloned.Err? {
      return Err(cloned.error);
    }
    return Ok(tmpdir);
  }

  /** The `RepositoryError`s of the repo map lookup. */
  datatype RepoError =
    | MissingRepoMap              // no `git_deploy_repos` file
    | UnparsableLine(line: string) // a line without a colon
    | NoPathFound(repo: string)    // no line for the repo

  /** What `fix`, `cdict` and the cached properties raise. */
  datatype DeployError =
    | RepoMap(repoError: RepoError)
    | GitCommand(gitError: GitError)
    | RemoteCommand(failure: Failure)

  /** A repo map line the lookup ignores: blank, or a comment. */
  predicate Skipped(line: string) {
    Strip(line) == [] || StartsWith(line, "#")
  }

  /** `line.split(":", 1)` unpacked into two names: the text before the first
      colon and the text after it; `None` where the unpacking fails because
      the line has no colon. */
  function SplitOnce(line: string): (r: Option<(string, string)>)
    ensures r.None? <==> ':' !in line
    ensures r.Some? ==> line == r.value.0 + ":" + r.value.1 && ':' !in r.value.0
  {
    match FindChar(line, ':')
    case None => None
    case Some(k) =>
      assert line == line[..k] + ":" + line[k + 1..];
      Some((line[..k], line[k + 1..]))
  }

  /** A line the lookup for `name` moves past: skipped, or the entry of
      another repository. */
  predicate PassesOver(line: string, name: string) {
    Skipped(line) || (SplitOnce(line).Some? && SplitOnce(line).value.0 != name)
  }

  /** The loop of `get_local_repo_path` over the lines of the repo map. */
  function FindRepoPath(lines: seq<string>, name: string): (r: Result<string, RepoError>)
    ensures r.Ok? ==> IsStripped(r.value)
    ensures r.Err? ==> r.error.UnparsableLine? || r.error == NoPathFound(name)
    decreases |lines|
  {
    if lines == [] then Err(NoPathFound(name))
    else if Skipped(lines[0]) then FindRepoPath(lines[1..], name)
    else match SplitOnce(lines[0])
      case None => Err(UnparsableLine(lines[0]))
      case Some((repo, path)) =>
        if repo == name then Ok(Strip(path)) else FindRepoPath(lines[1..], name)
  }

  /** `get_local_repo_path(bw_repo_path, name)`, given the lines of the repo
      map (`None` when the file is missing). */
  function GetLocalRepoPath(repoMap: Option<seq<string>>, name: string): (r: Result<string, RepoError>)
    ensures repoMap.None? ==> r == Err(MissingRepoMap)
    ensures r.Ok? ==> IsStripped(r.value)
  {
    match repoMap
    case None => Err(MissingRepoMap)
    case Some(lines) => FindRepoPath(lines, name)
  }

  /** The first line whose key is exactly `name` decides the lookup: it
      yields the stripped text after that line's first colon. */
  lemma RepoPathAtFirstMatch(lines: seq<string>, name: string, i: nat, path: string)
    requires i < |lines| && forall j :: 0 <= j < i ==> PassesOver(lines[j], name)
    requires !Skipped(lines[i]) && SplitOnce(lines[i]) == Some((name, path))
    ensures FindRepoPath(lines, name) == Ok(Strip(path))
  {
    PassedPrefix(lines, name, i);
    assert lines[i..][0] == lines[i];
  }

  /** A line without a colon reached before any match fails the lookup,
      quoting the line. */
  lemma RepoPathUnparsable(lines: seq<string>, name: string, i: nat)
    requires i < |lines| && forall j :: 0 <= j < i ==> PassesOver(lines[j], name)
    requires !Skipped(lines[i]) && ':' !in lines[i]
    ensures FindRepoPath(lines, name) == Err(UnparsableLine(lines[i]))
  {
    PassedPrefix(lines, name, i);
    assert lines[i..][0] == lines[i];
  }

  /** A map without an entry for `name` fails the lookup, naming the repo. */
  lemma RepoPathNotFound(lines: seq<string>, name: string)
    requires forall j :: 0 <= j < |lines| ==> PassesOver(lines[j], name)
    ensures FindRepoPath(lines, name) == Err(NoPathFound(name))
  {
    PassedPrefix(lines, name, |lines|);
    assert lines[|lines|..] == [];
  }

  /** The lines the loop passes over leave the lookup to the lines after
      them. */
  lemma PassedPrefix(lines: seq<string>, name: string, i: nat)
    requires i <= |lines| && forall j :: 0 <= j < i ==> PassesOver(lines[j], name)
    ensures FindRepoPath(lines, name) == FindRepoPath(lines[i..], name)
  {
    var k := 0;
    while k < i
      invariant k <= i && FindRepoPath(lines, name) == FindRepoPath(lines[k..], name)
    {
      assert lines[k..][0] == lines[k] && lines[k..][1..] == lines[k + 1..];
      PassedLine(lines[k..], name);
      k := k + 1;
    }
  }

  /** A line the loop passes over leaves the lookup to the lines after it. */
  lemma PassedLine(lines: seq<string>, name: string)
    requires |lines| > 0 && PassesOver(lines[0], name)
    ensures FindRepoPath(lines, name) == FindRepoPath(lines[1..], name)
  {
    if !Skipped(lines[0]) {
      var (repo, path) := SplitOnce(lines[0]).value;
      assert repo != name;
    }
  }

  /** Once the lookup has found its line (or a broken one), the lines after
      it are never examined. */
  lemma {:induction false} RepoPathIgnoresLaterLines(lines: seq<string>, more: seq<string>, name: string)
    requires FindRepoPath(lines, name).Ok? || FindRepoPath(lines, name).error.UnparsableLine?
    ensures FindRepoPath(lines + more, name) == FindRepoPath(lines, name)
  {
    assert lines != [];
    var all := lines + more;
    assert all != [] && all[0] == lines[0] && all[1..] == lines[1..] + more;
    var line := lines[0];
    if Skipped(line) || (SplitOnce(line).Some? && SplitOnce(line).value.0 != name) {
      assert FindRepoPath(lines, name) == FindRepoPath(lines[1..], name);
      assert FindRepoPath(all, name) == FindRepoPath(all[1..], name);
      RepoPathIgnoresLaterLines(lines[1..], more, name);
    } else {
      assert FindRepoPath(all, name) == FindRepoPath(lines, name) by {
        assert FindRepoPath(all, name) == match SplitOnce(line)
          case None => Err(UnparsableLine(line))
          case Some((repo, path)) => Ok(Strip(path));
        assert FindRepoPath(lines, name) == match SplitOnce(line)
          case None => Err(UnparsableLine(line))
          case Some((repo, path)) => Ok(Strip(path));
      }
    }
  }

  /** Only the first colon separates the key: a key without a colon, a
      colon and any path, colons included, split back into that key and
      that path. */
  lemma SplitOnceOf(key: string, path: string)
    requires ':' !in key
    ensures SplitOnce(key + ":" + path) == Some((key, path))
  {
    var line := key + ":" + path;
    assert line[|key|] == ':' && line[..|key|] == key;
    assert line[|key| + 1..] == path;
  }

  /** Where `fix` writes the sentinel file: `join(name, ".bundlewrap_git_deploy")`. */
  function MarkerPath(name: string): string {
    PathJoin(name, RemoteStateFilename)
  }

  /** The commands that record `rev` as deployed in `name`. */
  function MarkerWrite(name: string, useXattrs: bool, rev: string): seq<Cmd> {
    if useXattrs then [AttrSet(RevAttr, rev, name)]
    else [EchoTo(rev, MarkerPath(name)), Chmod(ReadOnlyMode, MarkerPath(name))]
  }

  /** The command `sdict` reads the deployed revision with. */
  function MarkerRead(name: string, useXattrs: bool): Cmd {
    if useXattrs then AttrGet(RevAttr, name) else Cat(MarkerPath(name))
  }

  /** The remote steps of `fix`, in order, for the archive `data` uploaded as
      `tmp`: upload, empty the target, unpack, record the revision. */
  function FixSteps(name: string, useXattrs: bool, rev: string, tmp: string, data: string): seq<Cmd> {
    [Upload(data, tmp), FindDelete(name), TarExtract(tmp, name)] + MarkerWrite(name, useXattrs, rev)
  }

  /** The state after running `cmds` one after the other, each one exiting 0;
      `None` when one of them fails. */
  function RunAll(tools: Tools, st: State, cmds: seq<Cmd>): Option<State>
    decreases |cmds|
  {
    if cmds == [] then Some(st)
    else match RunAll(tools, st, cmds[..|cmds| - 1])
      case None => None
      case Some(before) =>
        var o := Exec(tools, before, cmds[|cmds| - 1]);
        if o.result.code == 0 then Some(o.after) else None
  }

  /** The log of `cmds` all exiting 0. */
  function OkEvents(cmds: seq<Cmd>): (evs: seq<Event>)
    ensures |evs| == |cmds|
    ensures forall i :: 0 <= i < |cmds| ==> evs[i] == Event(cmds[i], true)
  {
    seq(|cmds|, i requires 0 <= i < |cmds| => Event(cmds[i], true))
  }

  predicate AllOk(evs: seq<Event>) {
    forall i :: 0 <= i < |evs| ==> evs[i].ok
  }

  /** A logged run of `steps` that ran them in order and stopped at the first
      one that failed. */
  predicate StopsAtFirstFailure(evs: seq<Event>, steps: seq<Cmd>) {
    && 0 < |evs| <= |steps|
    && (forall i :: 0 <= i < |evs| ==> evs[i].cmd == steps[i])
    && (forall i :: 0 <= i < |evs| - 1 ==> evs[i].ok)
    && (|evs| < |steps| ==> !evs[|evs| - 1].ok)
  }

  /** The remote trace of a `fix` that got as far as the upload: the steps up
      to the first failure, then always the `rm -f` of the remote archive. */
  predicate FixTrace(evs: seq<Event>, steps: seq<Cmd>, tmp: string) {
    |evs| >= 2 && evs[|evs| - 1].cmd == RmF(tmp) && StopsAtFirstFailure(evs[..|evs| - 1], steps)
  }

  /** The revision a marker read reports: its stripped output, `None` when
      it exits non-zero. */
  function MarkerOf(res: RunResult): (rev: Option<string>)
    ensures rev.None? <==> res.code != 0
    ensures rev.Some? ==> IsStripped(rev.value)
  {
    if res.code != 0 then None else Some(Strip(res.stdout))
  }

  /** The revision `sdict` reads from the marker on the host in state `st`. */
  function ReadMarker(tools: Tools, st: State, name: string, useXattrs: bool): (rev: Option<string>)
    ensures rev.Some? ==> IsStripped(rev.value)
  {
    MarkerOf(Exec(tools, st, MarkerRead(name, useXattrs)).result)
  }

  /** Reading the marker changes nothing on the host. */
  lemma MarkerReadKeepsState(tools: Tools, st: State, name: string, useXattrs: bool)
    ensures Exec(tools, st, MarkerRead(name, useXattrs)).after == st
  {
    if useXattrs {
      assert MarkerRead(name, useXattrs) == AttrGet(RevAttr, name);
    } else {
      assert MarkerRead(name, useXattrs) == Cat(MarkerPath(name));
    }
  }

  /** One logged marker read, as `Node.Run` reports it, leaves the host as
      it was and yields the dict of the marker `ReadMarker` reads. */
  lemma MarkerReadRun(tools: Tools, st0: State, st1: State, log0: seq<Event>, log1: seq<Event>,
                      res: RunResult, faulty: bool, name: string, useXattrs: bool)
    requires log1 == log0 + [Event(MarkerRead(name, useXattrs), res.code == 0)]
    requires faulty ==> res.code != 0 && st1 == st0
    requires !faulty ==> Outcome(res, st1) == Exec(tools, st0, MarkerRead(name, useXattrs))
    ensures st1 == st0
    ensures |log1| == |log0| + 1 && log1[..|log0|] == log0 && log1[|log0|].cmd == MarkerRead(name, useXattrs)
    ensures faulty ==> SDictOf(MarkerOf(res)) == map[]
    ensures !faulty ==> SDictOf(MarkerOf(res)) == SDictOf(ReadMarker(tools, st1, name, useXattrs))
  {
    MarkerReadKeepsState(tools, st0, name, useXattrs);
  }

  /** The dict `sdict` returns for a marker read. */
  function SDictOf(marker: Option<string>): map<string, string> {
    match marker
    case None => map[]
    case Some(rev) => map["rev" := rev]
  }

  /** The remote archive name never collides with the sentinel file: the
      suffix has no slash, and a sentinel path either has one or is the bare
      file name. */
  lemma MarkerPathIsNotTemp(name: string, suffix: string)
    requires '/' !in suffix
    ensures MarkerPath(name) != TempPrefix + suffix
  {
    var tmp := TempPrefix + suffix;
    assert !StartsWith(RemoteStateFilename, "/") by {
      assert RemoteStateFilename[0] == '.';
    }
    forall i | 0 <= i < |tmp| ensures tmp[i] != '/' {
      if i >= |TempPrefix| {
        assert tmp[i] == suffix[i - |TempPrefix|];
      }
    }
    if name == [] {
      assert MarkerPath(name)[12] == 'g' && tmp[12] == 't';
    } else if name[|name| - 1] == '/' {
      assert MarkerPath(name)[|name| - 1] == '/';
    } else {
      assert MarkerPath(name)[|name|] == '/';
    }
  }

  /** Running one more command after `cmds` succeeds exactly when `cmds`
      succeed and then the command exits 0. */
  lemma RunAllSnoc(tools: Tools, st: State, cmds: seq<Cmd>, c: Cmd)
    ensures RunAll(tools, st, cmds + [c]).Some? <==>
              RunAll(tools, st, cmds).Some? && Exec(tools, RunAll(tools, st, cmds).value, c).result.code == 0
    ensures RunAll(tools, st, cmds + [c]).Some? ==>
              RunAll(tools, st, cmds + [c]).value == Exec(tools, RunAll(tools, st, cmds).value, c).after
  {
    assert (cmds + [c])[..|cmds|] == cmds;
  }

  /** The state after the upload, the emptying and the unpacking, when all
      three exit 0: the target is a directory and the archive a file, so the
      two are different paths. */
  lemma {:induction false} UnpackedState(tools: Tools, st: State, name: string, tmp: string, data: string)
    requires RunAll(tools, st, [Upload(data, tmp), FindDelete(name), TarExtract(tmp, name)]).Some?
    ensures name != tmp
    ensures var s3 := RunAll(tools, st, [Upload(data, tmp), FindDelete(name), TarExtract(tmp, name)]).value;
            name in s3.fs && s3.fs[name].Dir?
  {
    var c1, c2, c3 := Upload(data, tmp), FindDelete(name), TarExtract(tmp, name);
    assert [c1] == [] + [c1] && [c1, c2] == [c1] + [c2] && [c1, c2, c3] == [c1, c2] + [c3];
    RunAllSnoc(tools, st, [], c1);
    RunAllSnoc(tools, st, [c1], c2);
    RunAllSnoc(tools, st, [c1, c2], c3);
    var s2 := RunAll(tools, st, [c1, c2]).value;
    var s3 := RunAll(tools, st, [c1, c2, c3]).value;
    assert s2.fs[tmp].File? && s2.fs[name].Dir?;
    UnpackKeepsShortPaths(s2, name, tools.untar(s2.fs[tmp].data).value, name);
  }

  /** Marker round trip: when every remote step of `fix` and the final
      `rm -f` exit 0, `sdict` afterwards reads back exactly the revision
      `fix` wrote, with either marker mechanism, so `sdict()` equals
      `cdict()`. */
  lemma FixMarkerRoundTrip(tools: Tools, st: State, name: string, useXattrs: bool, rev: string,
                           suffix: string, data: string)
    requires IsStripped(rev) && '/' !in suffix
    requires RunAll(tools, st, FixSteps(name, useXattrs, rev, TempPrefix + suffix, data)
                               + [RmF(TempPrefix + suffix)]).Some?
    ensures ReadMarker(tools, RunAll(tools, st, FixSteps(name, useXattrs, rev, TempPrefix + suffix, data)
                                                + [RmF(TempPrefix + suffix)]).value,
                       name, useXattrs) == Some(rev)
    ensures SDictOf(ReadMarker(tools, RunAll(tools, st, FixSteps(name, useXattrs, rev, TempPrefix + suffix, data)
                                                        + [RmF(TempPrefix + suffix)]).value,
                               name, useXattrs)) == map["rev" := rev]
  {
    var tmp := TempPrefix + suffix;
    var unpack := [Upload(data, tmp), FindDelete(name), TarExtract(tmp, name)];
    var all := FixSteps(name, useXattrs, rev, tmp, data) + [RmF(tmp)];
    var final := RunAll(tools, st, all).value;
    if useXattrs {
      var cmds := unpack + [AttrSet(RevAttr, rev, name)];
      assert all == cmds + [RmF(tmp)] by {
        assert MarkerWrite(name, true, rev) == [AttrSet(RevAttr, rev, name)];
      }
      assert ReadMarker(tools, final, name, true) == Some(rev) by {
        RunAllSnoc(tools, st, cmds, RmF(tmp));
        RunAllSnoc(tools, st, unpack, AttrSet(RevAttr, rev, name));
        UnpackedState(tools, st, name, tmp, data);
        var s3 := RunAll(tools, st, unpack).value;
        assert final == Exec(tools, Exec(tools, s3, AttrSet(RevAttr, rev, name)).after, RmF(tmp)).after;
        XattrRoundTrip(tools, s3, name, rev, tmp);
      }
    } else {
      var p := MarkerPath(name);
      var cmds := unpack + [EchoTo(rev, p)] + [Chmod(ReadOnlyMode, p)];
      assert all == cmds + [RmF(tmp)] by {
        assert MarkerWrite(name, false, rev) == [EchoTo(rev, p), Chmod(ReadOnlyMode, p)];
      }
      assert ReadMarker(tools, final, name, false) == Some(rev) by {
        MarkerPathIsNotTemp(name, suffix);
        SentinelRoundTrip(tools, st, p, rev, tmp, cmds);
        assert Exec(tools, final, Cat(p)).result == RunResult(0, rev + "\n");
        StripPadded([], rev, "\n");
        assert [] + rev + "\n" == rev + "\n";
      }
    }
  }

  lemma XattrRoundTrip(tools: Tools, s3: State, name: string, rev: string, tmp: string)
    requires IsStripped(rev) && name in s3.fs && name != tmp
    requires Exec(tools, Exec(tools, s3, AttrSet(RevAttr, rev, name)).after, RmF(tmp)).result.code == 0
    ensures ReadMarker(tools, Exec(tools, Exec(tools, s3, AttrSet(RevAttr, rev, name)).after, RmF(tmp)).after, name, true)
            == Some(rev)
  {
    var s4 := Exec(tools, s3, AttrSet(RevAttr, rev, name)).after;
    assert s4 == s3.(xattrs := s3.xattrs[(name, RevAttr) := rev]);
    var s5 := Exec(tools, s4, RmF(tmp)).after;
    RmFKeepsOthers(tools, s4, tmp, name, RevAttr);
    assert Exec(tools, s5, AttrGet(RevAttr, name)).result == RunResult(0, rev);
    StripStripped(rev);
  }

  lemma SentinelRoundTrip(tools: Tools, st: State, p: string, rev: string, tmp: string, cmds: seq<Cmd>)
    requires p != tmp && |cmds| == 5
    requires cmds[3..] == [EchoTo(rev, p), Chmod(ReadOnlyMode, p)]
    requires RunAll(tools, st, cmds + [RmF(tmp)]).Some?
    ensures Exec(tools, RunAll(tools, st, cmds + [RmF(tmp)]).value, Cat(p)).result == RunResult(0, rev + "\n")
  {
    assert cmds[..4] + [cmds[4]] == cmds && cmds[..3] + [cmds[3]] == cmds[..4];
    RunAllSnoc(tools, st, cmds, RmF(tmp));
    RunAllSnoc(tools, st, cmds[..4], cmds[4]);
    RunAllSnoc(tools, st, cmds[..3], cmds[3]);
    var s3 := RunAll(tools, st, cmds[..3]).value;
    var s4 := RunAll(tools, st, cmds[..4]).value;
    assert s4 == Exec(tools, s3, EchoTo(rev, p)).after;
    assert s4.fs[p].data == rev + "\n";
    var s5 := RunAll(tools, st, cmds).value;
    assert s5 == Exec(tools, s4, Chmod(ReadOnlyMode, p)).after;
    assert s5.fs[p] == File(rev + "\n", ReadOnlyMode);
    var s6 := RunAll(tools, st, cmds + [RmF(tmp)]).value;
    assert s6 == Exec(tools, s5, RmF(tmp)).after;
    RmFKeepsOthers(tools, s5, tmp, p, "");
  }

  /** Ordering in `fix`: the target is emptied only after the upload
      succeeded, and the revision is recorded only after the archive was
      unpacked. */
  lemma FixOrdering(evs: seq<Event>, name: string, useXattrs: bool, rev: string, tmp: string, data: string)
    requires FixTrace(evs, FixSteps(name, useXattrs, rev, tmp, data), tmp)
    ensures evs[0].cmd == Upload(data, tmp)
    ensures forall i :: 0 <= i < |evs| && evs[i].cmd == FindDelete(name) ==> evs[0].ok
    ensures forall i :: 0 <= i < |evs| && evs[i].cmd in MarkerWrite(name, useXattrs, rev) ==>
              i >= 3 && evs[2] == Event(TarExtract(tmp, name), true)
  {
    var steps := FixSteps(name, useXattrs, rev, tmp, data);
    var run := evs[..|evs| - 1];
    assert evs[0] == run[0];
    forall i | 0 <= i < |evs| && evs[i].cmd == FindDelete(name) ensures evs[0].ok {
      assert i < |run| && run[i] == evs[i];
      assert i == 1;
    }
    forall i | 0 <= i < |evs| && evs[i].cmd in MarkerWrite(name, useXattrs, rev)
      ensures i >= 3 && evs[2] == Event(TarExtract(tmp, name), true)
    {
      assert i < |run| && run[i] == evs[i];
      assert i >= 3;
      assert run[2] == evs[2];
    }
  }

  /** A `git_deploy` item of one node. `repoDirCache` and `revCache` are the
      two cached properties `_repo_dir` and `_expanded_rev`, filled on first
      successful use. */
  class GitDeployItem {
    const name: string
    const repo: string
    const rev: string
    const useXattrs: bool
    const node: Node
    const machine: Machine
    var repoDirCache: Option<RepoDir>
    var revCache: Option<string>

    /** `d` is what `_repo_dir` yields for this item: a successful clone
        registered for removal at exit for a URL, else the path the repo map
        gives. */
    ghost predicate RepoDirFits(d: RepoDir)
      reads machine`atExit
    {
      if ContainsSub(repo, "://") then
        d.Clone? && d.url == repo && d.dir in machine.atExit && machine.git.clone(CloneCommand(repo, rev))
      else
        d.Checkout? && GetLocalRepoPath(machine.repoMap, repo) == Ok(d.path)
    }

    ghost predicate Valid()
      reads this, machine
    {
      && machine.Valid()
      && (repoDirCache.Some? ==> RepoDirFits(repoDirCache.value))
      && (revCache.Some? ==> RevFits(revCache.value))
    }

    /** `v` is what `git rev-parse` prints, stripped, in the cached repo directory. */
    ghost predicate RevFits(v: string)
      reads this`repoDirCache
    {
      && repoDirCache.Some?
      && machine.git.revParse(repoDirCache.value, rev).Some?
      && v == Strip(machine.git.revParse(repoDirCache.value, rev).value)
    }

    constructor (name: string, repo: string, rev: string, useXattrs: bool, node: Node, machine: Machine)
      requires machine.Valid()
      ensures Valid()
      ensures this.name == name && this.repo == repo && this.rev == rev && this.useXattrs == useXattrs
      ensures this.node == node && this.machine == machine
      ensures repoDirCache.None? && revCache.None?
    {
      this.name, this.repo, this.rev, this.useXattrs := name, repo, rev, useXattrs;
      this.node, this.machine := node, machine;
      repoDirCache, revCache := None, None;
    }

    /** `_repo_dir`: a URL (anything containing `://`) is cloned, everything
        else is looked up in the repo map. */
    method RepoDir() returns (r: Result<RepoDir, DeployError>)
      requires Valid()
      ensures r.Err? ==> !r.error.RemoteCommand?
      modifies this`repoDirCache, machine
      ensures Valid()
      ensures old(repoDirCache).Some? ==> r == Ok(old(repoDirCache).value) && unchanged(machine)
      ensures r.Ok? ==> repoDirCache == Some(r.value) && RepoDirFits(r.value)
      ensures r.Err? ==> repoDirCache == old(repoDirCache)
      ensures old(repoDirCache).None? && ContainsSub(repo, "://") ==>
                (r.Ok? <==> machine.git.clone(CloneCommand(repo, rev)))
      ensures old(repoDirCache).None? && !ContainsSub(repo, "://") ==>
                match GetLocalRepoPath(machine.repoMap, repo)
                case Ok(path) => r == Ok(Checkout(path))
                case Err(e) => r == Err(RepoMap(e))
      ensures Grows(old(machine.files), old(machine.atExit), machine.files, machine.atExit)
      ensures old(machine.Tidy()) ==> machine.Tidy()
    {
      if repoDirCache.Some? {
        return Ok(repoDirCache.value);
      }
      if ContainsSub(repo, "://") {
        var cloned := CloneToDir(machine, repo, rev);
        if cloned.Err? {
          return Err(GitCommand(cloned.error));
        }
        machine.RegisterAtExit(cloned.value);
        r := Ok(Clone(cloned.value, repo));
      } else {
        match GetLocalRepoPath(machine.repoMap, repo)
        case Err(e) =>
          return Err(RepoMap(e));
        case Ok(path) =>
          r := Ok(Checkout(path));
      }
      repoDirCache := Some(r.value);
    }

    /** `_expanded_rev`: `git rev-parse` of the configured rev in the
        repository directory. */
    method ExpandedRev() returns (r: Result<string, DeployError>)
      requires Valid()
      ensures r.Err? ==> !r.error.RemoteCommand?
      modifies this`repoDirCache, this`revCache, machine
      ensures Valid()
      ensures old(revCache).Some? ==> r == Ok(old(revCache).value) && unchanged(this, machine)
      ensures r.Ok? ==> revCache == Some(r.value) && IsStripped(r.value)
      ensures r.Ok? ==> r.value == Strip(machine.git.revParse(repoDirCache.value, rev).value)
      ensures r.Err? ==>
                && revCache == None
                && (repoDirCache.None? || machine.git.revParse(repoDirCache.value, rev).None?)
      ensures Grows(old(machine.files), old(machine.atExit), machine.files, machine.atExit)
      ensures old(machine.Tidy()) ==> machine.Tidy()
    {
      if revCache.Some? {
        return Ok(revCache.value);
      }
      var dir := RepoDir();
      if dir.Err? {
        return Err(dir.error);
      }
      r := ParseRev(dir.value);
    }

    /** The `git rev-parse` half of `_expanded_rev`, in the repository
        directory already obtained. */
    method ParseRev(dir: RepoDir) returns (r: Result<string, DeployError>)
      requires Valid() && repoDirCache == Some(dir) && revCache.None?
      modifies this`revCache
      ensures Valid()
      ensures r.Ok? ==> revCache == Some(r.value) && IsStripped(r.value)
      ensures r.Ok? ==> r.value == Strip(machine.git.revParse(dir, rev).value)
      ensures r.Err? ==> r.error.GitCommand? && revCache == None && machine.git.revParse(dir, rev).None?
    {
      var parsed := machine.GitRevParse(dir, rev);
      if parsed.Err? {
        return Err(GitCommand(parsed.error));
      }
      assert RevFits(parsed.value);
      revCache := Some(parsed.value);
      r := Ok(parsed.value);
    }

    /** `cdict`: the desired state is the expanded revision. */
    method CDict() returns (r: Result<map<string, string>, DeployError>)
      requires Valid()
      ensures r.Err? ==> !r.error.RemoteCommand?
      modifies this, machine
      ensures Valid()
      ensures r.Ok? ==> revCache.Some? && r.value == map["rev" := revCache.value]
      ensures r.Err? ==>
                && revCache == None
                && (repoDirCache.None? || machine.git.revParse(repoDirCache.value, rev).None?)
      ensures Grows(old(machine.files), old(machine.atExit), machine.files, machine.atExit)
      ensures old(machine.Tidy()) ==> machine.Tidy()
    {
      var expanded := ExpandedRev();
      if expanded.Err? {
        return Err(expanded.error);
      }
      r := Ok(map["rev" := expanded.value]);
    }

    /** `sdict`: the observed state is the stripped output of the marker
        read, or nothing when the read fails. */
    method SDict() returns (d: map<string, string>)
      modifies node
      ensures node.state == old(node.state)
      ensures |node.log| == |old(node.log)| + 1 && node.log[..|old(node.log)|] == old(node.log)
      ensures node.log[|old(node.log)|].cmd == MarkerRead(name, useXattrs)
      ensures old(node.Faulty()) ==> d == map[]
      ensures !old(node.Faulty()) ==> d == SDictOf(ReadMarker(node.tools, node.state, name, useXattrs))
    {
      ghost var st0, log0, faulty := node.state, node.log, node.Faulty();
      var res := node.Run(MarkerRead(name, useXattrs));
      MarkerReadRun(node.tools, st0, node.state, log0, node.log, res, faulty, name, useXattrs);
      d := SDictOf(MarkerOf(res));
    }

    /** `fix`: build the archive locally, then install it on the node. The
        remote archive is removed on every path once the archive was built,
        and the local one on every path; a failing removal of the remote
        archive raises in place of an earlier error. */
    method Fix(suffix: string) returns (r: Result<(), DeployError>)
      requires Valid() && '/' !in suffix
      modifies this, machine, node
      ensures Valid()
      ensures |node.log| >= |old(node.log)| && node.log[..|old(node.log)|] == old(node.log)
      ensures node.state == Replay(node.tools, old(node.state), node.log[|old(node.log)|..])
      ensures |node.log| == |old(node.log)| <==> r.Err? && !r.error.RemoteCommand?
      ensures |node.log| > |old(node.log)| ==>
                && revCache.Some? && repoDirCache.Some?
                && machine.git.archive(repoDirCache.value, revCache.value).Some?
                && FixTrace(node.log[|old(node.log)|..],
                            FixSteps(name, useXattrs, revCache.value, TempPrefix + suffix,
                                     machine.git.archive(repoDirCache.value, revCache.value).value),
                            TempPrefix + suffix)
      ensures revCache.Some? && repoDirCache.Some? && machine.git.archive(repoDirCache.value, revCache.value).Some? ==>
                |node.log| > |old(node.log)|
      ensures r.Ok? <==> |node.log| > |old(node.log)| && AllOk(node.log[|old(node.log)|..])
      ensures r.Ok? ==> ReadMarker(node.tools, node.state, name, useXattrs) == Some(revCache.value)
      ensures Grows(old(machine.files), old(machine.atExit), machine.files, machine.atExit)
      ensures old(machine.Tidy()) ==> machine.Tidy()
    {
      ghost var files0, atExit0 := machine.files, machine.atExit;
      var archive := machine.NamedTemporaryFile();
      var built := BuildArchive(archive);
      GrowsAroundTemporary(files0, atExit0, archive, "", machine.files, machine.atExit);
      if built.Err? {
        machine.Remove(archive);
        if old(machine.Tidy()) {
          GrowsTidy(files0, atExit0, machine.files, machine.atExit);
        }
        return Err(built.error);
      }
      var data := machine.files[archive];
      r := Ship(suffix, data, built.value);
      machine.Remove(archive);
      if old(machine.Tidy()) {
        GrowsTidy(files0, atExit0, machine.files, machine.atExit);
      }
    }

    /** The remote part of `fix`: install the archive `data` as the remote
        temporary, then `rm -f` it whatever happened; an error of the removal
        replaces the error of the installation. */
    method Ship(suffix: string, data: string, expanded: string) returns (r: Result<(), DeployError>)
      requires IsStripped(expanded) && '/' !in suffix
      modifies node
      ensures |node.log| > |old(node.log)| && node.log[..|old(node.log)|] == old(node.log)
      ensures node.state == Replay(node.tools, old(node.state), node.log[|old(node.log)|..])
      ensures FixTrace(node.log[|old(node.log)|..],
                       FixSteps(name, useXattrs, expanded, TempPrefix + suffix, data), TempPrefix + suffix)
      ensures r.Err? ==> r.error.RemoteCommand?
      ensures r.Ok? <==> AllOk(node.log[|old(node.log)|..])
      ensures r.Ok? ==> ReadMarker(node.tools, node.state, name, useXattrs) == Some(expanded)
    {
      var tmp := TempPrefix + suffix;
      ghost var steps := FixSteps(name, useXattrs, expanded, tmp, data);
      ghost var log0, st0 := node.log, node.state;
      var failure := Install(tmp, data, expanded);
      ghost var installed, log1, st1 := node.log[|log0|..], node.log, node.state;
      assert log1 == log0 + installed;
      var cleanup := node.Check(RmF(tmp));
      ghost var e := Event(RmF(tmp), cleanup.Ok?);
      assert node.log[|log0|..] == installed + [e] by {
        assert node.log == log1 + [e];
      }
      assert node.state == Replay(node.tools, st0, installed + [e]) by {
        ReplaySnoc(node.tools, st0, installed, e);
      }
      assert FixTrace(installed + [e], steps, tmp) by {
        assert (installed + [e])[..|installed|] == installed;
      }
      assert AllOk(installed + [e]) <==> failure.None? && cleanup.Ok? by {
        assert forall i :: 0 <= i < |installed| ==> (installed + [e])[i] == installed[i];
      }
      if cleanup.Err? {
        r := Err(RemoteCommand(cleanup.error));
      } else if failure.Some? {
        r := Err(RemoteCommand(failure.value));
      } else {
        r := Ok(());
        assert ReadMarker(node.tools, node.state, name, useXattrs) == Some(expanded) by {
          RunAllSnoc(node.tools, st0, steps, RmF(tmp));
          assert node.state == Exec(node.tools, st1, RmF(tmp)).after;
          FixMarkerRoundTrip(node.tools, st0, name, useXattrs, expanded, suffix, data);
        }
      }
    }

    /** The local part of `fix` inside the outer `try`: expand the rev and
        write `git archive` of it into the local temporary `archive`. */
    method BuildArchive(archive: LocalPath) returns (r: Result<string, DeployError>)
      requires Valid() && archive in machine.files
      modifies this, machine
      ensures Valid() && archive in machine.files
      ensures r.Err? ==> !r.error.RemoteCommand?
      ensures r.Err? ==> revCache.None? || (repoDirCache.Some? && machine.git.archive(repoDirCache.value, revCache.value).None?)
      ensures r.Ok? ==>
                && revCache == Some(r.value) && IsStripped(r.value)
                && machine.git.archive(repoDirCache.value, r.value).Some?
                && machine.files[archive] == machine.git.archive(repoDirCache.value, r.value).value
      ensures Grows(old(machine.files), old(machine.atExit), machine.files, machine.atExit)
    {
      var expanded := ExpandedRev();
      if expanded.Err? {
        return Err(expanded.error);
      }
      var dir := RepoDir();
      var archived := machine.GitArchive(dir.value, expanded.value, archive);
      if archived.Err? {
        return Err(GitCommand(archived.error));
      }
      r := Ok(expanded.value);
    }

    /** The inner `try` block of `fix`: upload the archive as `tmp`, empty the
        target, unpack, record `expanded`; each `node.run` raises on a
        non-zero exit, which ends the block. */
    method Install(tmp: string, data: string, expanded: string) returns (failure: Option<Failure>)
      modifies node
      ensures |node.log| > |old(node.log)| && node.log[..|old(node.log)|] == old(node.log)
      ensures StopsAtFirstFailure(node.log[|old(node.log)|..], FixSteps(name, useXattrs, expanded, tmp, data))
      ensures failure.None? <==> AllOk(node.log[|old(node.log)|..])
      ensures node.state == Replay(node.tools, old(node.state), node.log[|old(node.log)|..])
      ensures failure.None? ==>
                RunAll(node.tools, old(node.state), FixSteps(name, useXattrs, expanded, tmp, data)) == Some(node.state)
    {
      ghost var steps := FixSteps(name, useXattrs, expanded, tmp, data);
      ghost var log0, st0 := node.log, node.state;
      assert node.log[|log0|..] == [] && steps[..0] == [];
      assert steps[..3] == [Upload(data, tmp), FindDelete(name), TarExtract(tmp, name)];
      assert steps[3..] == MarkerWrite(name, useXattrs, expanded);
      var upload := RunStep(Upload(data, tmp), 0, log0, st0, steps);
      if upload.Err? {
        return Some(upload.error);
      }
      var emptied := RunStep(FindDelete(name), 1, log0, st0, steps);
      if emptied.Err? {
        return Some(emptied.error);
      }
      var unpacked := RunStep(TarExtract(tmp, name), 2, log0, st0, steps);
      if unpacked.Err? {
        return Some(unpacked.error);
      }
      failure := RecordRev(expanded, log0, st0, steps);
    }

    /** The marker part of the inner `try` block of `fix`, once the archive
        is unpacked: `attr -s`, or `echo` then `chmod 400`. */
    method RecordRev(expanded: string, ghost log0: seq<Event>, ghost st0: State, ghost steps: seq<Cmd>)
      returns (failure: Option<Failure>)
      requires |steps| >= 3 && steps[3..] == MarkerWrite(name, useXattrs, expanded)
      requires Progress(log0, st0, steps, 3)
      modifies node
      ensures |node.log| > |log0| && node.log[..|log0|] == log0
      ensures StopsAtFirstFailure(node.log[|log0|..], steps)
      ensures failure.None? <==> AllOk(node.log[|log0|..])
      ensures node.state == Replay(node.tools, st0, node.log[|log0|..])
      ensures failure.None? ==> RunAll(node.tools, st0, steps) == Some(node.state)
    {
      if useXattrs {
        var recorded := RunStep(AttrSet(RevAttr, expanded, name), 3, log0, st0, steps);
        if recorded.Err? {
          return Some(recorded.error);
        }
      } else {
        var written := RunStep(EchoTo(expanded, MarkerPath(name)), 3, log0, st0, steps);
        if written.Err? {
          return Some(written.error);
        }
        var protected := RunStep(Chmod(ReadOnlyMode, MarkerPath(name)), 4, log0, st0, steps);
        if protected.Err? {
          return Some(protected.error);
        }
      }
      assert steps[..|steps|] == steps;
      return None;
    }

    /** The first `k` of `steps` have run on the node since the log was
        `log0` and the state `st0`, all of them successfully. */
    ghost predicate Progress(log0: seq<Event>, st0: State, steps: seq<Cmd>, k: nat)
      reads node
    {
      && k <= |steps|
      && |node.log| == |log0| + k && node.log[..|log0|] == log0
      && node.log[|log0|..] == OkEvents(steps[..k])
      && node.state == Replay(node.tools, st0, node.log[|log0|..])
      && RunAll(node.tools, st0, steps[..k]) == Some(node.state)
    }

    /** `node.run(cmd)` as step `k` of `steps`, keeping track of where the
        sequence stands. */
    method RunStep(cmd: Cmd, k: nat, ghost log0: seq<Event>, ghost st0: State, ghost steps: seq<Cmd>)
      returns (r: Result<string, Failure>)
      requires k < |steps| && cmd == steps[k] && Progress(log0, st0, steps, k)
      modifies node
      ensures |node.log| == |log0| + k + 1 && node.log[..|log0|] == log0
      ensures node.state == Replay(node.tools, st0, node.log[|log0|..])
      ensures r.Ok? ==> Progress(log0, st0, steps, k + 1)
      ensures r.Ok? <==> AllOk(node.log[|log0|..])
      ensures r.Err? || k + 1 == |steps| ==> StopsAtFirstFailure(node.log[|log0|..], steps)
    {
      ghost var before := node.log[|log0|..];
      ghost var stBefore := node.state;
      r := node.Check(cmd);
      ghost var e := Event(cmd, r.Ok?);
      assert node.log == log0 + before + [e];
      assert node.log[|log0|..] == before + [e];
      assert node.log[..|log0|] == log0;
      assert (before + [e])[..|before|] == before;
      assert steps[..k + 1][..k] == steps[..k];
      assert AllOk(before);
      if r.Err? {
        assert !(before + [e])[k].ok;
      }
    }

  }
}
