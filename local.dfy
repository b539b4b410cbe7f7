/** The machine bundlewrap runs on, as far as the git_deploy item touches it:
    temporary files and directories (`NamedTemporaryFile`, `mkdtemp`), the
    `atexit` registry of directories to `rmtree` at process end, the
    repository's `git_deploy_repos` map file, and `git` subprocesses, whose
    outcomes are uninterpreted functions of the repository and the
    arguments. */
module Local {
  import opened Wrappers
  import opened Text

  /** A temporary created by this process; names are abstract and fresh. */
  datatype LocalPath = TempFile(n: nat) | TempDir(n: nat)

  /** Where git commands run (`cwd` of `git_command`): a bare clone of a URL
      in a temporary directory, or a local repository found via the repo map. */
  datatype RepoDir = Clone(dir: LocalPath, url: string) | Checkout(path: string)

  /** The uninterpreted behaviour of git: whether `git <cmdline>` (a clone)
      exits 0, the standard output of `git rev-parse REV`, and the tar stream
      `git archive REV` writes (`None` when the command exits non-zero). */
  datatype Git = Git(
    clone: seq<string> -> bool,
    revParse: (RepoDir, string) -> Option<string>,
    archive: (RepoDir, string) -> Option<string>)

  /** The `RuntimeError` that `git_command` raises for a non-zero exit status,
      naming the git subcommand (the directory in its message is not
      modelled). */
  datatype GitError = GitFailed(command: string)

  /** From temporaries `files0` and registrations `atExit0` to `files1` and
      `atExit1`, nothing was lost, and every new temporary is a directory that
      is registered for removal at exit. */
  ghost predicate Grows(files0: map<LocalPath, string>, atExit0: seq<LocalPath>,
                        files1: map<LocalPath, string>, atExit1: seq<LocalPath>)
  {
    && (forall p :: p in files0 ==> p in files1)
    && (forall p :: p in files1 && p !in files0 ==> p.TempDir? && p in atExit1)
    && (forall p :: p in atExit0 ==> p in atExit1)
  }

  /** Every temporary and every registration was named before `next`. */
  ghost predicate NamedBefore(files: map<LocalPath, string>, atExit: seq<LocalPath>, next: nat) {
    && (forall p :: p in files ==> p.n < next)
    && (forall i :: 0 <= i < |atExit| ==> atExit[i].n < next)
  }

  lemma GrowsTransitive(f0: map<LocalPath, string>, a0: seq<LocalPath>, f1: map<LocalPath, string>,
                        a1: seq<LocalPath>, f2: map<LocalPath, string>, a2: seq<LocalPath>)
    requires Grows(f0, a0, f1, a1) && Grows(f1, a1, f2, a2)
    ensures Grows(f0, a0, f2, a2)
  {
  }

  /** A temporary file created and removed again in between leaves no
      trace. */
  lemma GrowsAroundTemporary(f0: map<LocalPath, string>, a0: seq<LocalPath>, tmp: LocalPath, d: string,
                             f1: map<LocalPath, string>, a1: seq<LocalPath>)
    requires tmp !in f0 && Grows(f0[tmp := d], a0, f1, a1)
    ensures Grows(f0, a0, f1 - {tmp}, a1)
  {
  }

  /** Growing keeps a tidy machine tidy. */
  lemma GrowsTidy(f0: map<LocalPath, string>, a0: seq<LocalPath>, f1: map<LocalPath, string>, a1: seq<LocalPath>)
    requires Grows(f0, a0, f1, a1) && forall p :: p in f0 ==> p in a0
    ensures forall p :: p in f1 ==> p in a1
  {
  }

  class Machine {
    const git: Git
    /** The lines of `git_deploy_repos` in the bundlewrap repository, as
        `readlines()` returns them; `None` when the file does not exist. */
    const repoMap: Option<seq<string>>
    /** The temporaries that currently exist, with their contents. */
    var files: map<LocalPath, string>
    /** The paths handed to `at_exit(rmtree, ...)`, in registration order. */
    var atExit: seq<LocalPath>
    var next: nat

    /** Every temporary was named before `next`, so names from `next` on are
        fresh. */
    ghost predicate Valid()
      reads this
    {
      NamedBefore(files, atExit, next)
    }

    /** Nothing would be left behind at process exit: every temporary that
        still exists is registered for removal. */
    ghost predicate Tidy()
      reads this
    {
      forall p :: p in files ==> p in atExit
    }

    constructor (git: Git, repoMap: Option<seq<string>>)
      ensures Valid() && Tidy()
      ensures this.git == git && this.repoMap == repoMap
      ensures files == map[] && atExit == []
    {
      this.git, this.repoMap := git, repoMap;
      files, atExit, next := map[], [], 0;
    }

    /** `NamedTemporaryFile(delete=False)`, closed at once: a fresh empty file. */
    method NamedTemporaryFile() returns (p: LocalPath)
      requires Valid()
      modifies this
      ensures Valid() && p.TempFile? && p !in old(files) && p !in atExit
      ensures files == old(files)[p := ""] && atExit == old(atExit)
    {
      p := TempFile(next);
      files, next := files[p := ""], next + 1;
    }

    /** `mkdtemp()`: a fresh empty directory. */
    method MkDtemp() returns (p: LocalPath)
      requires Valid()
      modifies this
      ensures Valid() && p.TempDir? && p !in old(files) && p !in atExit
      ensures files == old(files)[p := ""] && atExit == old(atExit)
    {
      p := TempDir(next);
      files, next := files[p := ""], next + 1;
    }

    /** `os.remove(p)` for a file, `shutil.rmtree(p)` for a directory. */
    method Remove(p: LocalPath)
      requires Valid() && p in files
      modifies this`files
      ensures Valid() && files == old(files) - {p}
    {
      files := files - {p};
    }

    /** `at_exit(rmtree, p)` */
    method RegisterAtExit(p: LocalPath)
      requires Valid() && p in files
      modifies this`atExit
      ensures Valid() && atExit == old(atExit) + [p]
    {
      atExit := atExit + [p];
    }

    /** `git_command(cmdline, dir)` for a clone into the temporary `dir`;
        what the clone puts into the directory is not modelled. */
    method GitClone(cmdline: seq<string>, dir: LocalPath) returns (r: Result<(), GitError>)
      ensures r.Ok? <==> git.clone(cmdline)
    {
      if git.clone(cmdline) {
        r := Ok(());
      } else {
        r := Err(GitFailed("clone"));
      }
    }

    /** `git_command(["rev-parse", rev], dir)`: the stripped standard output. */
    method GitRevParse(dir: RepoDir, rev: string) returns (r: Result<string, GitError>)
      ensures r.Ok? <==> git.revParse(dir, rev).Some?
      ensures r.Ok? ==> r.value == Strip(git.revParse(dir, rev).value)
    {
      match git.revParse(dir, rev)
      case Some(out) => r := Ok(Strip(out));
      case None => r := Err(GitFailed("rev-parse"));
    }

    /** `git_command(["archive", "-o", out, rev], dir)`: the archive is
        written into the temporary `out`. */
    method GitArchive(dir: RepoDir, rev: string, out: LocalPath) returns (r: Result<(), GitError>)
      requires Valid() && out in files
      modifies this`files
      ensures Valid() && files.Keys == old(files).Keys
      ensures r.Ok? <==> git.archive(dir, rev).Some?
      ensures r.Ok? ==> files == old(files)[out := git.archive(dir, rev).value]
      ensures r.Err? ==> files == old(files)
    {
      match git.archive(dir, rev)
      case Some(data) =>
        files := files[out := data];
        r := Ok(());
      case None =>
        r := Err(GitFailed("archive"));
    }
  }
}
