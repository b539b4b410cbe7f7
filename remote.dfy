/** The managed host as the two item plugins see it through bundlewrap's
    `node.run`, `node.upload` and `PathInfo`: a map from path to file or
    directory, extended attributes, and shell commands that either exit 0 or
    fail. The commands are a datatype, not shell text; the tools behind them
    (sha256 hashing, tar extraction, the network behind curl) are
    uninterpreted functions. */
module Remote {
  import opened Wrappers
  import opened Text

  /** What a path on the host holds: a file (contents and permission bits) or
      a directory. */
  datatype Entry = File(data: string, mode: int) | Dir

  /** 0644, the mode of a freshly written file. */
  const DefaultMode: int := 420
  /** 0400, what `chmod 400` sets. */
  const ReadOnlyMode: int := 256

  predicate IsHexDigit(c: char) {
    ('0' <= c <= '9') || ('a' <= c <= 'f')
  }

  /** A SHA-256 digest as the hashing tools print it: 64 lower-case hex
      digits. */
  type Digest = s: string | |s| == 64 && forall i :: 0 <= i < |s| ==> IsHexDigit(s[i])
    witness seq(64, _ => '0')

  /** The three hashing commands of the shell fallback. */
  datatype HashTool =
    | Shasum      // `shasum -a 256 -- PATH` (macOS)
    | Sha256Quiet // `sha256 -q -- PATH` (the BSDs)
    | Sha256sum   // `sha256sum -- PATH` (everything else)

  /** The remote operations the two items issue. */
  datatype Cmd =
    | Upload(data: string, dest: string)                 // node.upload(local, DEST) of a local file holding DATA
    | FindDelete(dir: string)                            // find DIR -mindepth 1 -delete
    | TarExtract(archive: string, dir: string)           // tar -xf ARCHIVE -C DIR
    | AttrSet(attr: string, value: string, path: string) // attr -q -s ATTR -V VALUE PATH
    | AttrGet(attr: string, path: string)                // attr -q -g ATTR PATH
    | EchoTo(text: string, path: string)                 // echo TEXT > PATH
    | Chmod(mode: int, path: string)                     // chmod MODE PATH
    | RmF(path: string)                                  // rm -f PATH
    | Cat(path: string)                                  // cat PATH
    | Curl(url: string, dest: string)                    // curl -L -s -o DEST -- URL
    | Hash(tool: HashTool, path: string)                 // one of the hashing commands
    | RmRf(path: string)                                 // rm -rf -- PATH

  /** One entry of the host's command log: what ran and whether it exited 0. */
  datatype Event = Event(cmd: Cmd, ok: bool)

  /** Exit status and standard output of a command (stderr is not modelled). */
  datatype RunResult = RunResult(code: int, stdout: string)

  /** The uninterpreted behaviour of the host's tools: the digest `sha256sum`
      computes, the tree `tar -x` unpacks (paths relative to `-C`, `None` for
      data that is not an archive), and the body `curl` receives for a URL
      (`None` for a transfer failure). */
  datatype Tools = Tools(
    sha256: string -> Digest,
    untar: string -> Option<map<string, Entry>>,
    fetch: string -> Option<string>)

  /** What the host holds: its file tree and its extended attributes, keyed by
      (path, attribute name). */
  datatype State = State(fs: map<string, Entry>, xattrs: map<(string, string), string>)

  datatype Outcome = Outcome(result: RunResult, after: State)

  /** A failed command changes nothing. */
  function Fail(st: State, code: int): Outcome
    requires code != 0
  {
    Outcome(RunResult(code, ""), st)
  }

  function Done(st: State, stdout: string): Outcome {
    Outcome(RunResult(0, stdout), st)
  }

  /** `p` lies strictly inside directory `dir`. */
  predicate Under(p: string, dir: string) {
    |dir| < |p| && p[..|dir|] == dir && ((|dir| > 0 && dir[|dir| - 1] == '/') || p[|dir|] == '/')
  }

  /** Everything strictly inside `dir` removed (`find DIR -mindepth 1 -delete`). */
  function EmptyDir(st: State, dir: string): State {
    State(
      map p | p in st.fs && !Under(p, dir) :: st.fs[p],
      map k | k in st.xattrs && !Under(k.0, dir) :: st.xattrs[k])
  }

  /** `path` and everything inside it removed (`rm -rf`). */
  function RemoveTree(st: State, path: string): State {
    State(
      map p | p in st.fs && p != path && !Under(p, path) :: st.fs[p],
      map k | k in st.xattrs && k.0 != path && !Under(k.0, path) :: st.xattrs[k])
  }

  /** `tree` (paths relative to `dir`) unpacked into `dir`. */
  function Unpack(st: State, dir: string, tree: map<string, Entry>): State {
    assert forall r1, r2 | dir + "/" + r1 == dir + "/" + r2 :: r1 == r2 by {
      forall r1, r2 | dir + "/" + r1 == dir + "/" + r2 ensures r1 == r2 {
        assert r1 == (dir + "/" + r1)[|dir| + 1..];
        assert r2 == (dir + "/" + r2)[|dir| + 1..];
      }
    }
    st.(fs := st.fs + map rel | rel in tree :: dir + "/" + rel := tree[rel])
  }

  /** Unpacking into `dir` leaves `dir` itself, and every path no longer
      than it, as it was. */
  lemma UnpackKeepsShortPaths(st: State, dir: string, tree: map<string, Entry>, p: string)
    requires p in st.fs && |p| <= |dir|
    ensures p in Unpack(st, dir, tree).fs && Unpack(st, dir, tree).fs[p] == st.fs[p]
    ensures Unpack(st, dir, tree).xattrs == st.xattrs
  {
    assert forall rel :: rel in tree ==> |dir + "/" + rel| > |p|;
  }

  /** `rm -f` of one path leaves every other path, and its attributes, as
      they were. */
  lemma RmFKeepsOthers(tools: Tools, st: State, path: string, p: string, attr: string)
    requires p != path
    ensures var after := Exec(tools, st, RmF(path)).after;
            && (p in st.fs ==> p in after.fs && after.fs[p] == st.fs[p])
            && ((p, attr) in st.xattrs ==> (p, attr) in after.xattrs && after.xattrs[(p, attr)] == st.xattrs[(p, attr)])
  {
  }

  /** What a hashing command prints: the digest, then (except for `sha256 -q`)
      two spaces and the file name. */
  function HashOutput(tool: HashTool, digest: string, path: string): string {
    match tool
    case Sha256Quiet => digest + "\n"
    case _ => digest + "  " + path + "\n"
  }

  /** A successfully written file keeps the mode of the file it replaces. */
  function ModeFor(st: State, path: string): int {
    if path in st.fs && st.fs[path].File? then st.fs[path].mode else DefaultMode
  }

  /** The effect and result of running `cmd` on a host in state `st`, when the
      command is not hit by a fault. */
  function Exec(tools: Tools, st: State, cmd: Cmd): (o: Outcome)
    ensures o.result.code != 0 ==> o.after == st
  {
    match cmd
    case Upload(data, dest) =>
      if dest in st.fs && st.fs[dest].Dir? then Fail(st, 1)
      else Done(st.(fs := st.fs[dest := File(data, DefaultMode)]), "")
    case FindDelete(dir) =>
      if dir !in st.fs then Fail(st, 1) else Done(EmptyDir(st, dir), "")
    case TarExtract(archive, dir) =>
      if archive in st.fs && st.fs[archive].File? && dir in st.fs && st.fs[dir].Dir? then
        (match tools.untar(st.fs[archive].data)
         case Some(tree) => Done(Unpack(st, dir, tree), "")
         case None => Fail(st, 2))
      else Fail(st, 2)
    case AttrSet(attr, value, path) =>
      if path in st.fs then Done(st.(xattrs := st.xattrs[(path, attr) := value]), "")
      else Fail(st, 1)
    case AttrGet(attr, path) =>
      if path in st.fs && (path, attr) in st.xattrs then Done(st, st.xattrs[(path, attr)])
      else Fail(st, 1)
    case EchoTo(text, path) =>
      if path in st.fs && st.fs[path].Dir? then Fail(st, 1)
      else Done(st.(fs := st.fs[path := File(text + "\n", ModeFor(st, path))]), "")
    case Chmod(mode, path) =>
      if path !in st.fs then Fail(st, 1)
      else if st.fs[path].Dir? then Done(st, "")
      else Done(st.(fs := st.fs[path := st.fs[path].(mode := mode)]), "")
    case RmF(path) =>
      if path !in st.fs then Done(st, "")
      else if st.fs[path].Dir? then Fail(st, 1)
      else Done(State(st.fs - {path}, map k | k in st.xattrs && k.0 != path :: st.xattrs[k]), "")
    case Cat(path) =>
      if path in st.fs && st.fs[path].File? then Done(st, st.fs[path].data) else Fail(st, 1)
    case Curl(url, dest) =>
      (match tools.fetch(url)
       case None => Fail(st, 6)
       case Some(body) =>
         if dest in st.fs && st.fs[dest].Dir? then Fail(st, 23)
         else Done(st.(fs := st.fs[dest := File(body, DefaultMode)]), ""))
    case Hash(tool, path) =>
      if path in st.fs && st.fs[path].File? then
        Done(st, HashOutput(tool, tools.sha256(st.fs[path].data), path))
      else Fail(st, 1)
    case RmRf(path) =>
      Done(RemoveTree(st, path), "")
  }

  /** The state after one logged command: a command that exited 0 had the
      effect Exec gives it, a failed one had none. */
  function Step(tools: Tools, st: State, e: Event): State {
    if e.ok then Exec(tools, st, e.cmd).after else st
  }

  /** The state after a whole log of commands. */
  function Replay(tools: Tools, st: State, evs: seq<Event>): State
    decreases |evs|
  {
    if evs == [] then st
    else Step(tools, Replay(tools, st, evs[..|evs| - 1]), evs[|evs| - 1])
  }

  lemma ReplaySnoc(tools: Tools, st: State, evs: seq<Event>, e: Event)
    ensures Replay(tools, st, evs + [e]) == Step(tools, Replay(tools, st, evs), e)
  {
    assert (evs + [e])[..|evs|] == evs;
  }

  /** Replaying two logs one after the other is replaying their
      concatenation. */
  lemma {:induction false} ReplayAppend(tools: Tools, st: State, a: seq<Event>, b: seq<Event>)
    ensures Replay(tools, st, a + b) == Replay(tools, Replay(tools, st, a), b)
    decreases |b|
  {
    if b == [] {
      assert a + b == a;
    } else {
      var init := b[..|b| - 1];
      assert a + b == (a + init) + [b[|b| - 1]];
      ReplaySnoc(tools, st, a + init, b[|b| - 1]);
      ReplayAppend(tools, st, a, init);
    }
  }

  /** The commands that only read. */
  predicate ReadOnly(cmd: Cmd) {
    cmd.AttrGet? || cmd.Cat? || cmd.Hash?
  }

  lemma ReadOnlyKeepsState(tools: Tools, st: State, cmd: Cmd)
    requires ReadOnly(cmd)
    ensures Exec(tools, st, cmd).after == st
  {
  }

  /** What `PathInfo` reports about a path; `sha256` is the digest that newer
      bundlewrap versions report natively (`None` where the capability is
      missing or the path is not a regular file). */
  datatype PathInfo = PathInfo(present: bool, isFile: bool, sha256: Option<Digest>)

  /** The error `node.run` raises for a non-zero exit status when the caller
      did not pass `may_fail=True` (and `node.upload` for a failed upload). */
  datatype Failure = CommandFailed(cmd: Cmd, code: int)

  /** The host as seen through one bundlewrap node: its tools, its OS name,
      whether `PathInfo` reports digests, and the positions in its command log
      at which a command fails whatever it is (the injected failure points:
      lost connections, full disks, missing binaries). */
  class Node {
    const tools: Tools
    const os: string
    const bsdFamily: set<string>
    const nativeSha256: bool
    const faults: set<nat>
    var state: State
    var log: seq<Event>

    constructor (tools: Tools, os: string, bsdFamily: set<string>, nativeSha256: bool,
                 faults: set<nat>, initial: State)
      ensures this.tools == tools && this.os == os && this.bsdFamily == bsdFamily
      ensures this.nativeSha256 == nativeSha256 && this.faults == faults
      ensures state == initial && log == []
    {
      this.tools, this.os, this.bsdFamily := tools, os, bsdFamily;
      this.nativeSha256, this.faults := nativeSha256, faults;
      state, log := initial, [];
    }

    /** The next command is hit by an injected fault. */
    predicate Faulty()
      reads this
    {
      |log| in faults
    }

    /** `node.run(cmd, may_fail=True)`: run one command, log it, and report
        its exit status and output. */
    method Run(cmd: Cmd) returns (res: RunResult)
      modifies this
      ensures log == old(log) + [Event(cmd, res.code == 0)]
      ensures old(Faulty()) ==> res.code != 0 && state == old(state)
      ensures !old(Faulty()) ==> Outcome(res, state) == Exec(tools, old(state), cmd)
    {
      if Faulty() {
        res := RunResult(255, "");
      } else {
        var o := Exec(tools, state, cmd);
        res, state := o.result, o.after;
      }
      log := log + [Event(cmd, res.code == 0)];
    }

    /** `node.run(cmd)` (and `node.upload`): as Run, but a non-zero exit
        status is raised. */
    method Check(cmd: Cmd) returns (r: Result<string, Failure>)
      modifies this
      ensures log == old(log) + [Event(cmd, r.Ok?)]
      ensures state == Step(tools, old(state), Event(cmd, r.Ok?))
      ensures r.Ok? ==> !old(Faulty()) && Exec(tools, old(state), cmd).result == RunResult(0, r.value)
      ensures r.Err? ==> r.error.cmd == cmd && (old(Faulty()) || Exec(tools, old(state), cmd).result.code != 0)
    {
      var res := Run(cmd);
      if res.code == 0 {
        r := Ok(res.stdout);
      } else {
        r := Err(CommandFailed(cmd, res.code));
      }
    }

    /** `PathInfo(node, path)`: a read-only observation of the host. */
    function Info(path: string): (i: PathInfo)
      reads this
      ensures i.present <==> path in state.fs
      ensures i.isFile <==> path in state.fs && state.fs[path].File?
      ensures i.sha256.Some? <==> nativeSha256 && i.isFile
      ensures i.sha256.Some? ==> i.sha256.value == tools.sha256(state.fs[path].data)
    {
      var present := path in state.fs;
      var isFile := present && state.fs[path].File?;
      PathInfo(present, isFile,
               if nativeSha256 && isFile then Some(tools.sha256(state.fs[path].data)) else None)
    }
  }

  /** The first word of a hashing command's output is the digest, whichever
      of the three commands printed it. */
  lemma HashOutputFirstWord(tool: HashTool, d: Digest, path: string)
    ensures FirstWord(HashOutput(tool, d, path)) == Some(d)
  {
    assert NoSpace(d) by {
      forall i | 0 <= i < |d| ensures !IsSpace(d[i]) {
        assert IsHexDigit(d[i]);
      }
    }
    match tool
    case Sha256Quiet =>
      FirstWordOf(d, "\n");
    case _ =>
      FirstWordOf(d, "  " + path + "\n");
      assert d + "  " + path + "\n" == d + ("  " + path + "\n");
  }

  /** `rm -rf` leaves nothing at or below the path. */
  lemma RemoveTreeLeavesAbsent(tools: Tools, st: State, path: string)
    ensures Exec(tools, st, RmRf(path)).result.code == 0
    ensures path !in Exec(tools, st, RmRf(path)).after.fs
    ensures forall p :: Under(p, path) ==> p !in Exec(tools, st, RmRf(path)).after.fs
  {
  }
}
