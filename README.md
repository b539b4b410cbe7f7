# bundlewrap plugins — a verified model of the core

This project models in Dafny the core of a collection of bundlewrap plugins:

- **git_deploy** (`GitDeploy`, with `Local` and `Remote`). An item that deploys one revision of a git repository to a directory on a managed node.
  - It resolves the repository: a temporary bare clone of a URL, or a local checkout named in the `git_deploy_repos` map.
  - It expands the revision with `git rev-parse` and builds a `git archive` into a local temporary file.
  - It uploads the archive under a random name, empties the target directory and unpacks the archive there.
  - It records the revision, either in an extended attribute or in a read-only `.bundlewrap_git_deploy` file.
  - It always removes the remote and local archives afterwards.
  - `sdict` reads the recorded revision back.
- **download** (`Download`). An item that fetches a URL to a path with `curl` and checks its SHA-256.
  - It removes the file again when the hash does not match.
  - The hash comes from bundlewrap's `PathInfo`, or from the OS-specific hashing command when `PathInfo` has none.
- **update_index.py** (`UpdateIndex`). It rebuilds the plugin index.
  - Each plugin directory is hashed: a SHA-1 over the contents of all its files, walked and sorted by path.
  - A plugin whose content changed without a version increment is refused.
  - The script reports added plugins and version bumps.
- **pwget** (`Pw`). Passwords derived from a repository secret with HMAC-SHA512 and an iterated SHA-512 byte stream, plus Fernet encryption of strings and files.
  - A secret that strips to `dummy` switches every operation to fixed dummy results.
- **notify_slack** (`NotifySlack`). The node filter `_check_allowed_groups`.

`Wrappers` holds `Option` and `Result`. `Text` holds the Python string operations the code relies on: `str.strip`, `str.split`, the first word of `split()`, lexicographic order, `os.path.join` and substring search.

The managed node is the class `Remote.Node`.
- It has a file tree, extended attributes and a command log, and each `node.run` appends to that log.
- A command fails when the semantics in `Remote.Exec` make it fail, or when its position in the log is one of the injected failure points in `faults`.
- A failing command leaves the node unchanged. This is a simplification; "## Left out" says what it misses.
- Paths on the node are plain strings. There is no remote working directory.
- Hashes, `tar`, the network, `git`, base64 and Fernet are uninterpreted function parameters.

The controller machine is the class `Local.Machine`. It has its temporary files and directories, and the registry that `at_exit` fills with paths to remove at exit.

## Model

| member | source | states |
|---|---|---|
| Text.Strip | item_git_deploy/items/git_deploy.py:79 | the result has no whitespace at either end, and it is empty exactly when the input is all whitespace (Python's Unicode whitespace set) |
| Text.StripPadded | item_git_deploy/items/git_deploy.py:113 | stripping whitespace padding around an already-stripped string gives that string back |
| Text.StripStripped | item_git_deploy/items/git_deploy.py:207 | strip is the identity on a stripped string |
| Text.StripCore | item_git_deploy/items/git_deploy.py:69 | every string is whitespace, then its stripped form, then whitespace |
| Text.Split | notify_slack/hooks/notify_slack.py:22 | `split(",")` yields at least one piece; no piece contains the separator; joining the pieces with it gives the input back |
| Text.ContainsSub | item_git_deploy/items/git_deploy.py:147 | `"://" in repo` holds exactly when the substring occurs at some position |
| Text.FindChar | item_git_deploy/items/git_deploy.py:72 | none exactly when the character is absent; otherwise the index of its first occurrence |
| Text.FirstWord | item_download/items/download.py:45 | `split()[0]` is absent exactly when the text is all whitespace; otherwise a non-empty word without whitespace |
| Text.FirstWordOf | item_download/items/download.py:45 | a word followed by whitespace-led text is that text's first word |
| Text.LessIrreflexive | update_index.py:18 | the string order used by `sort()` is irreflexive |
| Text.LessTransitive | update_index.py:18 | the string order is transitive |
| Text.LessTotal | update_index.py:18 | any two distinct strings are ordered one way or the other |
| Text.LessAsymmetric | update_index.py:18 | the string order is asymmetric |
| Remote.Exec | item_git_deploy/items/git_deploy.py:169-189 | the effect of each remote command (upload, find -delete, tar -x, attr, echo, chmod, rm, cat, curl, hash); a command that exits non-zero leaves the node unchanged |
| Remote.UnpackKeepsShortPaths | item_git_deploy/items/git_deploy.py:174 | unpacking into a directory leaves paths no longer than the directory name, and all extended attributes, untouched |
| Remote.RmFKeepsOthers | item_git_deploy/items/git_deploy.py:189 | `rm -f` of one path keeps every other file and attribute |
| Remote.ReplaySnoc | item_git_deploy/items/git_deploy.py:168-189 | replaying a log extended by one event is one more step after the replay |
| Remote.ReplayAppend | item_git_deploy/items/git_deploy.py:168-189 | replaying two logs in sequence is replaying their concatenation |
| Remote.ReadOnlyKeepsState | item_git_deploy/items/git_deploy.py:193-203 | `attr -g`, `cat` and hashing never change the node |
| Remote.HashOutputFirstWord | item_download/items/download.py:39-45 | for each of the three hashing commands, the first word of the output is the digest |
| Remote.RemoveTreeLeavesAbsent | item_download/items/download.py:60 | `rm -rf` succeeds and leaves neither the path nor anything under it |
| Remote.Node.constructor | item_download/items/download.py:31 | a node starts with the given tools, OS facts and file tree, and an empty log |
| Remote.Node.Run | item_git_deploy/items/git_deploy.py:195-203 | `node.run(..., may_fail=True)` logs the command with its success; at a failure point the node is unchanged, otherwise the result and new state are those of `Exec` |
| Remote.Node.Check | item_git_deploy/items/git_deploy.py:173-174 | `node.run` without `may_fail` gives the output on exit 0 and a failure naming the command otherwise; the new state is one step of the log |
| Remote.Node.Info | item_download/items/download.py:31-36 | `PathInfo`: exists, is-a-file, and a sha256 exactly when the node computes it natively, equal to the hash of the file's contents |
| Local.GrowsTransitive | item_git_deploy/items/git_deploy.py:145-153 | "keeps everything, new temporaries are registered directories" composes across operations |
| Local.GrowsAroundTemporary | item_git_deploy/items/git_deploy.py:159-191 | a temporary file created and then removed leaves no trace in that relation |
| Local.GrowsTidy | item_git_deploy/items/git_deploy.py:149-150 | growing keeps every remaining temporary registered for removal at exit |
| Local.Machine.constructor | item_git_deploy/items/git_deploy.py:4-10 | the machine starts with no temporaries and no exit registrations |
| Local.Machine.NamedTemporaryFile | item_git_deploy/items/git_deploy.py:159-161 | creates a fresh, empty, unregistered temporary file |
| Local.Machine.MkDtemp | item_git_deploy/items/git_deploy.py:41 | creates a fresh, empty, unregistered temporary directory |
| Local.Machine.Remove | item_git_deploy/items/git_deploy.py:190-191 | `os.remove` deletes exactly that temporary |
| Local.Machine.RegisterAtExit | item_git_deploy/items/git_deploy.py:149-150 | `at_exit(rmtree, dir)` appends the directory to the exit registry |
| Local.Machine.GitClone | item_git_deploy/items/git_deploy.py:87-113 | succeeds exactly when git exits 0 for the command line |
| Local.Machine.GitRevParse | item_git_deploy/items/git_deploy.py:87-113 | succeeds exactly when `git rev-parse` exits 0; the result is its output stripped |
| Local.Machine.GitArchive | item_git_deploy/items/git_deploy.py:162-165 | on success the archive file holds git's tar stream; on failure no file changes and no file is created |
| GitDeploy.IsRef | item_git_deploy/items/git_deploy.py:23-31 | true exactly when some character is not a lower-case hex digit |
| GitDeploy.CloneCommand | item_git_deploy/items/git_deploy.py:42-45 | `clone --bare ... URL .`, given `--depth 1 --no-single-branch` exactly when the revision is a ref, and four words otherwise |
| GitDeploy.CloneToDir | item_git_deploy/items/git_deploy.py:34-47 | succeeds exactly when git clone does; on success a fresh temporary directory is returned; on failure it is removed again |
| GitDeploy.CloneToDirAsWritten | item_git_deploy/items/git_deploy.py:34-47 | as written, a failed clone leaves an unregistered temporary directory behind |
| GitDeploy.SplitOnce | item_git_deploy/items/git_deploy.py:71-77 | `line.split(":", 1)` fails exactly without a colon, and otherwise splits at the first colon |
| GitDeploy.SplitOnceOf | item_git_deploy/items/git_deploy.py:72 | a key without a colon splits back off `key:path` |
| GitDeploy.FindRepoPath | item_git_deploy/items/git_deploy.py:68-84 | a found path is stripped; every failure is an unparsable line or "no path found" for the repository |
| GitDeploy.GetLocalRepoPath | item_git_deploy/items/git_deploy.py:50-84 | a missing map file is an error; a found path is stripped |
| GitDeploy.RepoPathAtFirstMatch | item_git_deploy/items/git_deploy.py:68-79 | after lines that are skipped or name other repositories, the first line naming the repository gives its stripped path |
| GitDeploy.RepoPathUnparsable | item_git_deploy/items/git_deploy.py:71-77 | the first non-comment line without a colon before a match aborts the lookup, naming that line |
| GitDeploy.RepoPathNotFound | item_git_deploy/items/git_deploy.py:81-84 | when no line matches, the error names the repository |
| GitDeploy.PassedPrefix | item_git_deploy/items/git_deploy.py:68-70 | lines that are skipped or name other repositories do not affect the lookup |
| GitDeploy.PassedLine | item_git_deploy/items/git_deploy.py:68-78 | one such line does not affect the lookup |
| GitDeploy.RepoPathIgnoresLaterLines | item_git_deploy/items/git_deploy.py:68-79 | once a prefix of the map decides the lookup (found or unparsable), later lines change nothing |
| GitDeploy.MarkerOf | item_git_deploy/items/git_deploy.py:204-207 | a revision is read exactly when the read exits zero, and it is stripped |
| GitDeploy.MarkerReadRun | item_git_deploy/items/git_deploy.py:193-207 | a logged marker read leaves the node unchanged and adds exactly that one command to the log; `{}` when a fault hits it, otherwise the dict of the marker read from the node |
| GitDeploy.ReadMarker | item_git_deploy/items/git_deploy.py:193-207 | the recorded revision, when present, is stripped |
| GitDeploy.MarkerReadKeepsState | item_git_deploy/items/git_deploy.py:193-203 | reading the marker does not change the node |
| GitDeploy.MarkerPathIsNotTemp | item_git_deploy/items/git_deploy.py:166-189 | the marker file is never the temporary archive, so `rm -f` of the archive keeps it |
| GitDeploy.RunAllSnoc | item_git_deploy/items/git_deploy.py:168-187 | running one more command succeeds exactly when the prefix and that command do |
| GitDeploy.UnpackedState | item_git_deploy/items/git_deploy.py:169-174 | after upload, find -delete and tar succeed, the target is a directory and differs from the archive name |
| GitDeploy.XattrRoundTrip | item_git_deploy/items/git_deploy.py:175-179 | the attribute written by `attr -s` reads back as the revision after `rm -f` of the archive |
| GitDeploy.SentinelRoundTrip | item_git_deploy/items/git_deploy.py:180-187 | the sentinel written by echo and chmod 400 is read by `cat` as the revision and a newline |
| GitDeploy.FixMarkerRoundTrip | item_git_deploy/items/git_deploy.py:158-207 | after a successful deployment `sdict` reports exactly `{'rev': rev}`, for both marker kinds |
| GitDeploy.FixOrdering | item_git_deploy/items/git_deploy.py:168-189 | in any deployment trace the upload comes first, find -delete only after the upload succeeded, and the marker only after a successful tar |
| GitDeploy.GitDeployItem.constructor | item_git_deploy/items/git_deploy.py:116-128 | an item with its attributes and empty caches |
| GitDeploy.GitDeployItem.RepoDir | item_git_deploy/items/git_deploy.py:145-153 | `_repo_dir` is cached. A URL is cloned, succeeding exactly when git does, and the clone is registered for removal. Another name is looked up in the repo map. The clone is the corrected `clone_to_dir` (`GitDeploy.CloneToDir`), so a failed clone leaves nothing behind. Under that correction the machine only grows and stays tidy |
| GitDeploy.GitDeployItem.ExpandedRev | item_git_deploy/items/git_deploy.py:137-143 | `_expanded_rev` is cached; on success it is rev-parse's stripped output for the repository directory. Through `RepoDir` it rests on the corrected clone |
| GitDeploy.GitDeployItem.ParseRev | item_git_deploy/items/git_deploy.py:139-143 | rev-parse in a known directory: success fills the cache with the stripped output; failure is a git error and leaves the cache empty |
| GitDeploy.GitDeployItem.CDict | item_git_deploy/items/git_deploy.py:155-156 | `{'rev': expanded revision}`, or the error resolving it. Through `RepoDir` it rests on the corrected clone |
| GitDeploy.GitDeployItem.SDict | item_git_deploy/items/git_deploy.py:193-207 | one marker read is logged and the node is unchanged; `{}` when it fails, otherwise `{'rev': stripped output}` |
| GitDeploy.GitDeployItem.Fix | item_git_deploy/items/git_deploy.py:158-191 | local errors reach the node not at all, and once the archive of the expanded revision exists the upload is always attempted. Otherwise the trace runs the fixed steps up to the first failure, then `rm -f` of the archive. The fix succeeds exactly when every step does, and then the marker reads back as the revision. The local archive is removed. Through `RepoDir` it rests on the corrected clone |
| GitDeploy.GitDeployItem.Ship | item_git_deploy/items/git_deploy.py:166-189 | the remote part of `fix`: the steps stopping at the first failure, `rm -f` always, success exactly when all succeed, and then the marker reading back as the revision |
| GitDeploy.GitDeployItem.BuildArchive | item_git_deploy/items/git_deploy.py:159-165 | on success the local archive holds `git archive` of the expanded revision; a failure leaves the revision uncached or `git archive` failing for it. Through `RepoDir` it rests on the corrected clone |
| GitDeploy.GitDeployItem.Install | item_git_deploy/items/git_deploy.py:169-187 | runs upload, find -delete, tar and the marker write, stopping at the first failure; on success the node is the result of running all of them |
| GitDeploy.GitDeployItem.RecordRev | item_git_deploy/items/git_deploy.py:175-187 | writes the marker by attribute or by sentinel file, continuing a run of the steps |
| GitDeploy.GitDeployItem.RunStep | item_git_deploy/items/git_deploy.py:169-187 | one `node.run` of the next step; the log follows the step list up to the first failure |
| Download.ValidateAttributes | item_download/items/download.py:86-102 | accepted exactly when sha256 and url are both non-empty; the hash is checked first |
| Download.CDict | item_download/items/download.py:64-71 | `{'type': 'download', 'sha256': attribute}` |
| Download.HashToolFor | item_download/items/download.py:39-44 | `shasum` exactly on macOS, `sha256 -q` exactly on the other BSDs, `sha256sum` otherwise |
| Download.HashRemoteFile | item_download/items/download.py:30-45 | none for a non-file; the native hash when `PathInfo` has one, without running anything; otherwise one hashing command whose first output word is the file's digest, so the IndexError on blank output cannot arise. It fails exactly when that command fails |
| Download.SDict | item_download/items/download.py:73-84 | the observed state of the download path, or the failure of the hashing command; the only command logged is the OS's hash command on the path, exactly when the path is a file and no native digest is available |
| Download.Fix | item_download/items/download.py:47-62 | nothing for must-be-deleted. Otherwise curl runs first. A hash mismatch gives `False` and leaves nothing at the path; a match gives `None` with the expected hash in place |
| Download.VerifyDownload | item_download/items/download.py:55-62 | `False` exactly when the file's hash differs from the attribute, and then the path is removed |
| Download.RemoveDownload | item_download/items/download.py:60-62 | one `rm -rf` is logged; on success nothing remains at the path or under it |
| Download.CurlPackageIdsMembers | item_download/items/download.py:104-110 | an id is a dependency exactly when some item is the apt package `curl` with that id |
| Download.CurlPackageIdsLength | item_download/items/download.py:104-110 | at most one dependency per item, and none without the curl package |
| Download.GetAutoDeps | item_download/items/download.py:104-110 | the loop returns the ids of the apt `curl` packages in item order |
| UpdateIndex.LessEqAntisymmetric | update_index.py:18 | two strings each at most the other are equal |
| UpdateIndex.Insert | update_index.py:18 | inserting into a sorted list keeps it sorted and adds exactly the new element |
| UpdateIndex.InsertAtFront | update_index.py:18 | an element no greater than the head may go first |
| UpdateIndex.InsertBehind | update_index.py:18 | the head stays first when the element is greater |
| UpdateIndex.SortStrings | update_index.py:18 | `filelist.sort()`: sorted and a permutation of its input |
| UpdateIndex.SortedUnique | update_index.py:18 | two sorted permutations of each other are equal, so the sorted order is unique |
| UpdateIndex.HashDirectory | update_index.py:12-22 | the imperative `hash_directory` computes the reference digest |
| UpdateIndex.CollectPaths | update_index.py:14-17 | the walk loop builds the joined paths in walk order and keeps the last root |
| UpdateIndex.FeedFiles | update_index.py:19-21 | the hashing loop feeds the listed files' contents in order, stopping at an unreadable one |
| UpdateIndex.FeedStops | update_index.py:19-21 | one unreadable listed file makes the whole digest fail |
| UpdateIndex.FileListAbsolute | update_index.py:15-17 | with absolute walk roots every collected path is absolute |
| UpdateIndex.FeedIgnoresRoot | update_index.py:20 | for absolute paths, the `join(root, file)` with the leftover loop variable does not matter |
| UpdateIndex.WalkOrderIrrelevant | update_index.py:12-22 | two walks yielding the same paths in any order give the same digest |
| UpdateIndex.FeedReadsOnlyListed | update_index.py:19-21 | the digest depends only on the listed files |
| UpdateIndex.PluginResultConsistent | update_index.py:35-45 | an accepted plugin's entry is its directory hash with its manifest's description and version |
| UpdateIndex.VersionGuard | update_index.py:47-50 | a plugin is refused exactly when it was indexed before, its hash changed and its version did not go up |
| UpdateIndex.Plugins | update_index.py:30-32 | the plugins are exactly the listed directories other than `.git` |
| UpdateIndex.ReportsAdded | update_index.py:58-59 | "added" is reported exactly for plugins not in the old index |
| UpdateIndex.ReportsBumped | update_index.py:52-57 | a version change is reported exactly for indexed plugins whose version went up |
| UpdateIndex.Rebuild | update_index.py:25-62 | fails exactly when some plugin is refused, with the first refused plugin's error; a plugin's errors come in the script's order (manifest missing or not JSON, then an unreadable directory, then a missing `desc` or `version` key, then the version guard). Otherwise the new index has exactly the plugins, each with its accepted entry, is consistent, and comes with the reports in listing order |
| UpdateIndex.Admit | update_index.py:35-59 | one loop iteration: the plugin's entry or its error, and its report. The manifest is parsed before the directory is hashed, and its keys are looked up after |
| UpdateIndex.PluginErrorOrder | update_index.py:35-45 | a manifest that is not JSON fails before hashing; an unreadable directory fails before a missing key; `desc` is looked up before `version` |
| UpdateIndex.PartialSkip | update_index.py:31-32 | skipping a non-plugin keeps the loop invariant |
| UpdateIndex.PartialStep | update_index.py:41-59 | adding an accepted plugin's entry and report keeps the loop invariant |
| UpdateIndex.StepKeys | update_index.py:41 | the index keys stay the plugins seen so far |
| UpdateIndex.StepResults | update_index.py:41-45 | every index entry stays the plugin's accepted result |
| UpdateIndex.StepPrefixOk | update_index.py:47-50 | the prefix stays accepted |
| UpdateIndex.StepReports | update_index.py:52-59 | the reports stay those of the plugins seen so far, in order |
| UpdateIndex.PartialDone | update_index.py:30-62 | after the whole listing, the invariant gives the result `Rebuild` promises |
| UpdateIndex.FirstFailure | update_index.py:47-50 | a refused plugin after accepted ones is the first refusal |
| UpdateIndex.ReportsFrame | update_index.py:52-59 | reports depend only on the entries of the reported plugins |
| Pw.CharRange | pwget/libs/pw.py:156-158 | the characters of a code range, in order |
| Pw.EnsureSecret | pwget/libs/pw.py:17-60 | the file's contents when readable, or none when they strip to `dummy`. Otherwise on macOS the stripped keychain entry. It fails exactly when neither is available, naming the path and whether the keychain was tried |
| Pw.KeyOf | pwget/libs/pw.py:70 | the key is the first 32 decoded secret bytes, or all of them when fewer; it fails exactly when the secret is not base64 |
| Pw.GetFernetKey | pwget/libs/pw.py:63-70 | none exactly for a dummy secret when allowed; a dummy-secret error exactly when not allowed; otherwise the key derived from the secret |
| Pw.RefusedKeyIsShort | pwget/libs/pw.py:70 | `Fernet(key)` refuses the repository key exactly when the secret decodes to fewer than 32 bytes |
| Pw.Decrypt | pwget/libs/pw.py:73-86 | `dummy` for a dummy secret. A key error exactly when the secret decodes to fewer than 32 bytes, which `Fernet(key)` refuses. An invalid-token error exactly when Fernet rejects the token under the accepted key. Any other error is the key lookup's. It succeeds exactly for a dummy secret or a token that decrypts, and the result is the Fernet decryption under the 32-byte repository key |
| Pw.DecryptFile | pwget/libs/pw.py:89-103 | `dummy` and a newline for a dummy secret. A key error exactly for a short secret, checked before the file is read. An unreadable-file error exactly for a good key and a missing file. An invalid-token error exactly when the file's token does not decrypt. Any other error is the key lookup's. It succeeds exactly for a dummy secret or a readable file that decrypts, with the decryption of the file under `data/` |
| Pw.Encrypt | pwget/libs/pw.py:106-118 | refused for a dummy secret. A key error exactly for a short secret. Any other error is the key lookup's. It succeeds exactly when the key lookup does and the secret is not short, with the Fernet encryption under the 32-byte repository key |
| Pw.EncryptDecrypt | pwget/libs/pw.py:106-118 | whatever `encrypt` returns, `decrypt` turns back into the plaintext, given that Fernet round-trips under every key it accepts |
| Pw.EncryptFile | pwget/libs/pw.py:121-138 | the source must be readable first, then refused for a dummy secret, then a key error exactly for a short secret, then an IOError exactly when `open(target, 'wb')` cannot create the target under `data/`; otherwise writes the encryption of the source to that target, changes no other file, and returns the target path. Any other error is the key lookup's, and it succeeds exactly for a readable source, a successful key lookup, a secret that is not short and a writable target |
| Pw.EncryptFileDecryptFile | pwget/libs/pw.py:121-138 | `decrypt_file` of the target written by `encrypt_file` is the source's contents |
| Pw.Alphabet | pwget/libs/pw.py:156-158 | 62 characters, or 94 with symbols, ending in `9` or `~` |
| Pw.Random | pwget/libs/pw.py:166-181 | the first n bytes the generator yields, in order |
| Pw.BlockAt | pwget/libs/pw.py:175-177 | each block is one 64-byte digest |
| Pw.StreamChains | pwget/libs/pw.py:175-176 | the first block hashes the seed and each further block hashes the previous one |
| Pw.BlockIsIterate | pwget/libs/pw.py:175-176 | block k is the seed hashed k + 1 times |
| Pw.Pick | pwget/libs/pw.py:163 | as written, the picked character is never the alphabet's last |
| Pw.PickUniform | pwget/libs/pw.py:163 | the corrected pick lies in the alphabet |
| Pw.Get | pwget/libs/pw.py:141-163 | as written: `dummy` for a dummy secret, a secret error passed on; otherwise `length` characters (none for a negative `length`, as `range` yields none), each the pick of the generator byte at its position, never including the alphabet's last character |
| Pw.Derive | pwget/libs/pw.py:160-163 | the derivation loop: one picked character per generator byte, all in the alphabet, never the last |
| Pw.LastNeverChosen | pwget/libs/pw.py:156-158 | the last character of the alphabet does not occur earlier in it |
| Pw.AsWrittenMissesLast | pwget/libs/pw.py:163 | no byte picks `9` (or `~` with symbols) |
| Pw.GetCorrected | pwget/libs/pw.py:141-163 | with `% len(alphabet)`: the same error and dummy cases, `length` characters (none when negative) each picked uniformly from the whole alphabet |
| Pw.DeriveCorrected | pwget/libs/pw.py:160-163 | the corrected loop: one character per byte, picked from the whole alphabet |
| Pw.CorrectedReachesAll | pwget/libs/pw.py:163 | every character of the alphabet is picked by some byte |
| Pw.UniformReaches | pwget/libs/pw.py:163 | for the two alphabet sizes, each position is some byte's remainder |
| NotifySlack.CheckAllowedGroups | notify_slack/hooks/notify_slack.py:18-31 | true exactly when some node is admitted by an allow entry and in no deny entry's group |
| NotifySlack.AllowPass | notify_slack/hooks/notify_slack.py:21-24 | the set holds exactly the nodes that a blank or stripped-matching allow entry admits |
| NotifySlack.DenyPass | notify_slack/hooks/notify_slack.py:26-29 | exactly the admitted nodes that no deny entry names a group of remain |
| NotifySlack.OrderIrrelevant | notify_slack/hooks/notify_slack.py:18-31 | the verdict depends only on which nodes are given |
| NotifySlack.DenyIsNotStripped | notify_slack/hooks/notify_slack.py:23-28 | ` web` admits nodes of group `web` but denies none of them, since deny entries are not stripped |

## Left out

- Shell text: the remote commands are a datatype. Quoting with `quote` and the exact command strings are not modelled.
- The bytes/text distinction: stdout, file contents, archives and Fernet tokens are strings. `.decode('utf-8')`, `.encode('utf-8')` and decoding failures are not modelled. Python 2's `ord` branch of `random` is the same byte stream.
- Pw.EnsureSecret: the keychain output is stripped with `str.strip`, while the source strips bytes. Bytes strip only ASCII whitespace.
- Pw.KeyOf: the key is kept as the bytes it stands for. `urlsafe_b64encode` at pw.py:70 and `Fernet`'s decoding of the key are taken as inverse.
- Pw.Encrypt: Fernet's random IV and timestamp are the `nonce` parameter. Token expiry is not modelled.
- The `ImportError` raised when the cryptography library is missing is not modelled.
- Pw.Random: yields a finite prefix of the infinite generator, of the length the caller needs.
- Download.Fix: bundlewrap's item status object is reduced to its `must_be_deleted` flag. The fix/verify loop of the framework is not modelled.
- Download.HashRemoteFile: `PathInfo`'s own remote commands are not logged; `Remote.Node.Info` answers it directly.
- The hash attributes: `force_text` and the `hasattr` test become an optional digest on `PathInfo`.
- Shell command failure messages (stdout/stderr in exceptions, `io.stderr`/`io.debug` output) and the git error's directory are not modelled.
- Node.Run: the failing `rm -f` in `fix`'s `finally` raises and replaces an earlier error. The model follows this.
- Remote permissions: modes other than 0644 on new files and the 0400 that `chmod 400` sets are not modelled, nor are ownership and the permission check of writes.
- GitDeploy.GitDeployItem.Fix: the random suffix of the remote temporary name (`randstr()`) is a parameter. Any suffix without `/` is allowed.
- Local: `rmtree` running at interpreter exit is not modelled; only the registration is.
- The repo map file: a readable file holds its lines. I/O errors while reading it are not modelled.
- update_index.py's I/O: JSON parsing and serialisation, and writing `index.json`, are parameters or left out. The `print` formatting becomes the `Report` values. A manifest that is JSON but not an object fails where a missing key does, with TypeError in place of KeyError; both are `KeyMissing`.
- The old index: assumed well-formed.
- Versions: JSON integers compared numerically. Other JSON values are not modelled.
- UpdateIndex.Rebuild: a failing run returns only its error. The lines the script printed for the plugins before the failing one are not returned with it.
- test.py's `provides`, `AUTHORS` and `LICENSE` checks are not modelled; only the consistency of checksum and version is.
- notify_slack: a missing `apply_notifications` option (`config.get` raising) is not modelled. The rest of the hook (config file creation, posting to Slack) and the other hooks are not part of this model.
- GitDeploy.GitDeployItem.RepoDir: built on the corrected `clone_to_dir` (`GitDeploy.CloneToDir`), which removes the temporary directory when the clone fails. As written (`GitDeploy.CloneToDirAsWritten`), that directory stays behind unregistered. So RepoDir's `Grows` and `Tidy` clauses do not hold of the source after a failed clone of a URL repository.
- GitDeploy.GitDeployItem.ExpandedRev: calls `RepoDir`, so its `Grows` and `Tidy` clauses likewise hold only for the corrected clone.
- GitDeploy.GitDeployItem.CDict: calls `ExpandedRev`, so its `Grows` and `Tidy` clauses likewise hold only for the corrected clone.
- GitDeploy.GitDeployItem.BuildArchive: calls `ExpandedRev`, so its `Grows` clause likewise holds only for the corrected clone.
- GitDeploy.GitDeployItem.Fix: calls `BuildArchive`, so its `Grows` and `Tidy` clauses likewise hold only for the corrected clone.
- Remote.Exec: paths are compared as strings, with no remote working directory. The archive is uploaded under a relative name. A target given as `.`, or as the absolute path of the remote home, is in the model unrelated to that name, so `find -mindepth 1 -delete` keeps the archive. On the host it deletes the archive, and `tar -xf` then fails. In that case `GitDeploy.GitDeployItem.Fix`, `GitDeploy.GitDeployItem.Ship`, `GitDeploy.GitDeployItem.Install` and `GitDeploy.FixMarkerRoundTrip` describe a successful deployment where the source fails.
- Remote.Exec: a failing command is atomic and leaves the node unchanged. On the host a failing `find -delete`, `tar -x` or `curl` may leave part of its work done: some files deleted, some extracted, or a partly written download. `GitDeploy.GitDeployItem.Fix`, `GitDeploy.GitDeployItem.Install`, `Download.Fix` and `Download.VerifyDownload` state the node after a failure under this assumption.
- Concurrency: concurrent node operations and the framework's apply loop are not modelled.

## Findings

| source | as written | input that shows it | evidently intended | confidence | as-written member | corrected member |
|---|---|---|---|---|---|---|
| pwget/libs/pw.py:163 | the character index is `next(prng) % (len(alphabet) - 1)`, so the alphabet's last character is never chosen | any secret and identifier: no derived password contains `9` (or `~` with symbols) | `% len(alphabet)`, so every character of the alphabet can occur | not executed | Pw.AsWrittenMissesLast | Pw.CorrectedReachesAll |
| item_git_deploy/items/git_deploy.py:41-47 | `mkdtemp()` runs before the clone, and only the caller registers the directory for removal after the clone returns | a URL repository whose `git clone` fails: the temporary directory stays behind | remove (or register) the directory on every exit path | not executed | GitDeploy.CloneToDirAsWritten | GitDeploy.CloneToDir |
