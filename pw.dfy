/** The pwget library: passwords derived deterministically from a shared
    repository secret and an identifier, and Fernet encryption of strings
    and files under the repository's `data/` directory. A secret whose
    content strips to `dummy` switches everything to fixed dummy values.
    HMAC-SHA512, SHA-512, base64 and Fernet are parameters. */
module Pw {
  import opened Wrappers
  import opened Text

  type Byte = b: int | 0 <= b < 256

  /** A SHA-512 digest: 64 bytes. */
  type Digest = s: seq<Byte> | |s| == 64 witness seq(64, _ => 0)

  const SecretFilename := "pwget.secret"

  /** The characters with codes `lo` to `hi - 1`, in order. */
  function CharRange(lo: nat, hi: nat): (r: string)
    requires lo <= hi < 0xD800
    ensures |r| == hi - lo
    ensures forall i :: 0 <= i < |r| ==> r[i] as int == lo + i
  {
    seq(hi - lo, i requires 0 <= i < hi - lo => (lo + i) as char)
  }

  /** Python's `string.ascii_letters` (`a`-`z` then `A`-`Z`), `digits` and
      `punctuation` (the ASCII graphic characters that are neither letters
      nor digits, in code order). */
  const AsciiLetters := CharRange('a' as nat, 'z' as nat + 1) + CharRange('A' as nat, 'Z' as nat + 1)
  const Digits := CharRange('0' as nat, '9' as nat + 1)
  const Punctuation := CharRange('!' as nat, '/' as nat + 1) + CharRange(':' as nat, '@' as nat + 1)
                       + CharRange('[' as nat, '`' as nat + 1) + CharRange('{' as nat, '~' as nat + 1)

  /** The controller machine as pwget sees it: the repository directory,
      whether it runs on macOS, what the keychain lookup prints (`None` when
      `security` exits non-zero), the readable files with their contents,
      and the paths `open(path, 'wb')` can create or overwrite. */
  datatype Local = Local(repoPath: string, darwin: bool, keychain: Option<string>, files: map<string, string>,
                         writable: set<string>)

  /** The foreign primitives: HMAC-SHA512 of a message under a key,
      SHA-512, `b64decode` (`None` where it raises), and Fernet decryption
      (`None` for an invalid token) and encryption, whose random IV and
      timestamp are the third argument. A Fernet key is given by the bytes
      its url-safe base64 text stands for. */
  datatype Crypto = Crypto(
    hmacSha512: (string, string) -> seq<Byte>,
    sha512: seq<Byte> -> Digest,
    b64decode: string -> Option<seq<Byte>>,
    decrypt: (seq<Byte>, string) -> Option<string>,
    encrypt: (seq<Byte>, string, nat) -> string)

  datatype PwError =
    | SecretUnreadable(path: string, keychainTried: bool)
    | DummySecret
    | BadSecret
    | BadKey
    | InvalidToken
    | FileUnreadable(path: string)
    | FileUnwritable(path: string)

  function SecretPath(local: Local): string {
    PathJoin(local.repoPath, SecretFilename)
  }

  function DataDir(local: Local): string {
    PathJoin(local.repoPath, "data")
  }

  /** The secret file exists and holds the dummy secret. */
  predicate IsDummy(local: Local) {
    SecretPath(local) in local.files && Strip(local.files[SecretPath(local)]) == "dummy"
  }

  /** `_ensure_secret`: the secret file's content, `None` for the dummy
      secret; without the file, the stripped keychain entry on macOS (which
      is never taken for the dummy), and otherwise IOError. */
  function EnsureSecret(local: Local): (r: Result<Option<string>, PwError>)
    ensures r == Ok(None) <==> IsDummy(local)
    ensures r.Err? <==> SecretPath(local) !in local.files && (!local.darwin || local.keychain.None?)
    ensures r.Err? ==> r.error == SecretUnreadable(SecretPath(local), local.darwin)
    ensures r.Ok? && r.value.Some? && SecretPath(local) in local.files ==>
              r.value.value == local.files[SecretPath(local)]
    ensures r.Ok? && r.value.Some? && SecretPath(local) !in local.files ==>
              local.darwin && r.value.value == Strip(local.keychain.value)
  {
    var path := SecretPath(local);
    if path in local.files then
      if Strip(local.files[path]) == "dummy" then Ok(None) else Ok(Some(local.files[path]))
    else if local.darwin then
      match local.keychain
      case Some(out) => Ok(Some(Strip(out)))
      case None => Err(SecretUnreadable(path, true))
    else Err(SecretUnreadable(path, false))
  }

  /** The key Fernet is built from for a given secret: at most the first
      32 bytes of the decoded secret (`urlsafe_b64encode(raw[:32])`). */
  function KeyOf(crypto: Crypto, secret: string): (r: Result<seq<Byte>, PwError>)
    ensures r.Ok? <==> crypto.b64decode(secret).Some?
    ensures r.Ok? ==> |r.value| <= 32 && r.value <= crypto.b64decode(secret).value
    ensures r.Ok? ==> |r.value| == 32 || r.value == crypto.b64decode(secret).value
  {
    match crypto.b64decode(secret)
    case None => Err(BadSecret)
    case Some(raw) =>
      var n := if |raw| < 32 then |raw| else 32;
      Ok(raw[..n])
  }

  /** `Fernet(key)` raises ValueError unless the key stands for exactly 32
      bytes. */
  predicate FernetAccepts(key: seq<Byte>) {
    |key| == 32
  }

  /** The repository secret decodes to fewer than 32 bytes, so the key
      built from it is one that `Fernet` refuses. */
  predicate ShortSecret(local: Local, crypto: Crypto) {
    match EnsureSecret(local)
    case Ok(Some(s)) => crypto.b64decode(s).Some? && |crypto.b64decode(s).value| < 32
    case _ => false
  }

  /** The key of a non-dummy secret is refused by `Fernet` exactly when the
      secret is short. */
  lemma RefusedKeyIsShort(local: Local, crypto: Crypto, dummyAllowed: bool, key: seq<Byte>)
    requires GetFernetKey(local, crypto, dummyAllowed) == Ok(Some(key))
    ensures !FernetAccepts(key) <==> ShortSecret(local, crypto)
  {
  }

  /** `_get_fernet_key(dummy_allowed)`: no key for the dummy secret when
      that is allowed, ValueError when it is not. */
  function GetFernetKey(local: Local, crypto: Crypto, dummyAllowed: bool): (r: Result<Option<seq<Byte>>, PwError>)
    ensures r == Ok(None) <==> dummyAllowed && IsDummy(local)
    ensures r == Err(DummySecret) <==> !dummyAllowed && IsDummy(local)
    ensures r.Ok? && r.value.Some? ==>
              EnsureSecret(local).Ok? && EnsureSecret(local).value.Some?
              && KeyOf(crypto, EnsureSecret(local).value.value) == Ok(r.value.value)
    ensures r.Err? && r.error != DummySecret ==>
              EnsureSecret(local).Err? || KeyOf(crypto, EnsureSecret(local).value.value).Err?
  {
    var secret :- EnsureSecret(local);
    match secret
    case None => if dummyAllowed then Ok(None) else Err(DummySecret)
    case Some(s) =>
      var key :- KeyOf(crypto, s);
      Ok(Some(key))
  }

  /** `decrypt(cryptotext)`: `"dummy"` for the dummy secret, otherwise the
      Fernet decryption under the repository key. */
  function Decrypt(local: Local, crypto: Crypto, cryptotext: string): (r: Result<string, PwError>)
    ensures IsDummy(local) ==> r == Ok("dummy")
    ensures r.Err? ==> r.error != DummySecret
    ensures r == Err(BadKey) <==> ShortSecret(local, crypto)
    ensures r == Err(InvalidToken) <==>
              exists key :: GetFernetKey(local, crypto, true) == Ok(Some(key)) && FernetAccepts(key)
                            && crypto.decrypt(key, cryptotext).None?
    ensures r.Err? ==> r.error == BadKey || r.error == InvalidToken || GetFernetKey(local, crypto, true) == Err(r.error)
    ensures r.Ok? <==>
              || IsDummy(local)
              || exists key :: GetFernetKey(local, crypto, true) == Ok(Some(key)) && FernetAccepts(key)
                               && crypto.decrypt(key, cryptotext).Some?
    ensures !IsDummy(local) && r.Ok? ==>
              exists key :: GetFernetKey(local, crypto, true) == Ok(Some(key)) && FernetAccepts(key)
                            && crypto.decrypt(key, cryptotext) == Some(r.value)
  {
    var key :- GetFernetKey(local, crypto, true);
    match key
    case None => Ok("dummy")
    case Some(k) =>
      RefusedKeyIsShort(local, crypto, true, k);
      if !FernetAccepts(k) then Err(BadKey)
      else match crypto.decrypt(k, cryptotext)
        case None => Err(InvalidToken)
        case Some(plain) => Ok(plain)
  }

  /** `decrypt_file(source_path)`: `"dummy\n"` for the dummy secret, without
      reading the file; otherwise the key is checked by `Fernet` before the
      file under `data/` is read and decrypted. */
  function DecryptFile(local: Local, crypto: Crypto, sourcePath: string): (r: Result<string, PwError>)
    ensures IsDummy(local) ==> r == Ok("dummy\n")
    ensures r.Err? ==> r.error != DummySecret
    ensures r == Err(BadKey) <==> ShortSecret(local, crypto)
    ensures r == Err(FileUnreadable(PathJoin(DataDir(local), sourcePath))) <==>
              && GetFernetKey(local, crypto, true).Ok? && !IsDummy(local) && !ShortSecret(local, crypto)
              && PathJoin(DataDir(local), sourcePath) !in local.files
    ensures r == Err(InvalidToken) <==>
              && PathJoin(DataDir(local), sourcePath) in local.files
              && exists key :: GetFernetKey(local, crypto, true) == Ok(Some(key)) && FernetAccepts(key)
                               && crypto.decrypt(key, local.files[PathJoin(DataDir(local), sourcePath)]).None?
    ensures r.Err? ==>
              || r.error == BadKey || r.error == InvalidToken
              || r.error == FileUnreadable(PathJoin(DataDir(local), sourcePath))
              || GetFernetKey(local, crypto, true) == Err(r.error)
    ensures r.Ok? <==>
              || IsDummy(local)
              || (&& PathJoin(DataDir(local), sourcePath) in local.files
                  && exists key :: GetFernetKey(local, crypto, true) == Ok(Some(key)) && FernetAccepts(key)
                                   && crypto.decrypt(key, local.files[PathJoin(DataDir(local), sourcePath)]).Some?)
    ensures !IsDummy(local) && r.Ok? ==>
              && PathJoin(DataDir(local), sourcePath) in local.files
              && exists key :: GetFernetKey(local, crypto, true) == Ok(Some(key)) && FernetAccepts(key)
                               && crypto.decrypt(key, local.files[PathJoin(DataDir(local), sourcePath)]) == Some(r.value)
  {
    var key :- GetFernetKey(local, crypto, true);
    match key
    case None => Ok("dummy\n")
    case Some(k) =>
      RefusedKeyIsShort(local, crypto, true, k);
      var path := PathJoin(DataDir(local), sourcePath);
      if !FernetAccepts(k) then Err(BadKey)
      else if path !in local.files then Err(FileUnreadable(path))
      else match crypto.decrypt(k, local.files[path])
        case None => Err(InvalidToken)
        case Some(plain) => Ok(plain)
  }

  /** `encrypt(plaintext)`: refuses the dummy secret and a key `Fernet`
      does not accept. */
  function Encrypt(local: Local, crypto: Crypto, plaintext: string, nonce: nat): (r: Result<string, PwError>)
    ensures IsDummy(local) ==> r == Err(DummySecret)
    ensures r == Err(BadKey) <==> ShortSecret(local, crypto)
    ensures r.Err? ==> r.error == BadKey || GetFernetKey(local, crypto, false) == Err(r.error)
    ensures r.Ok? <==> GetFernetKey(local, crypto, false).Ok? && !ShortSecret(local, crypto)
    ensures r.Ok? ==> exists key :: GetFernetKey(local, crypto, false) == Ok(Some(key)) && FernetAccepts(key)
                                    && r.value == crypto.encrypt(key, plaintext, nonce)
  {
    var key :- GetFernetKey(local, crypto, false);
    RefusedKeyIsShort(local, crypto, false, key.value);
    if !FernetAccepts(key.value) then Err(BadKey)
    else Ok(crypto.encrypt(key.value, plaintext, nonce))
  }

  /** Fernet's own promise: a token decrypts, under the valid key it was
      made with, to its plaintext. */
  ghost predicate FernetRoundTrips(crypto: Crypto) {
    forall key, plain, nonce :: FernetAccepts(key) ==> crypto.decrypt(key, crypto.encrypt(key, plain, nonce)) == Some(plain)
  }

  /** What `encrypt` returns can be fed into `decrypt` to get the plaintext
      back. */
  lemma EncryptDecrypt(local: Local, crypto: Crypto, plaintext: string, nonce: nat)
    requires FernetRoundTrips(crypto)
    requires Encrypt(local, crypto, plaintext, nonce).Ok?
    ensures Decrypt(local, crypto, Encrypt(local, crypto, plaintext, nonce).value) == Ok(plaintext)
  {
    var key :| GetFernetKey(local, crypto, false) == Ok(Some(key)) && FernetAccepts(key)
               && Encrypt(local, crypto, plaintext, nonce).value == crypto.encrypt(key, plaintext, nonce);
    assert GetFernetKey(local, crypto, true) == Ok(Some(key));
  }

  /** `encrypt_file(source_path, target_path)`: the source is read before
      the key is looked up and checked by `Fernet`, and the token is written
      to `target_path` under `data/`, where `open(target, 'wb')` raises
      IOError for a path it cannot create; the result is that path and the
      files afterwards. */
  function EncryptFile(local: Local, crypto: Crypto, sourcePath: string, targetPath: string, nonce: nat)
      : (r: Result<(string, map<string, string>), PwError>)
    ensures sourcePath !in local.files ==> r == Err(FileUnreadable(sourcePath))
    ensures sourcePath in local.files && IsDummy(local) ==> r == Err(DummySecret)
    ensures r == Err(BadKey) <==> sourcePath in local.files && ShortSecret(local, crypto)
    ensures r == Err(FileUnwritable(PathJoin(DataDir(local), targetPath))) <==>
              && sourcePath in local.files && GetFernetKey(local, crypto, false).Ok? && !ShortSecret(local, crypto)
              && PathJoin(DataDir(local), targetPath) !in local.writable
    ensures r.Err? ==>
              || r.error == BadKey || r.error == FileUnreadable(sourcePath)
              || r.error == FileUnwritable(PathJoin(DataDir(local), targetPath))
              || GetFernetKey(local, crypto, false) == Err(r.error)
    ensures r.Ok? <==>
              && sourcePath in local.files && GetFernetKey(local, crypto, false).Ok? && !ShortSecret(local, crypto)
              && PathJoin(DataDir(local), targetPath) in local.writable
    ensures r.Ok? ==> r.value.0 == PathJoin(DataDir(local), targetPath)
    ensures r.Ok? ==> exists key :: GetFernetKey(local, crypto, false) == Ok(Some(key)) && FernetAccepts(key)
                        && r.value.1 == local.files[r.value.0 := crypto.encrypt(key, local.files[sourcePath], nonce)]
  {
    if sourcePath !in local.files then Err(FileUnreadable(sourcePath))
    else
      var plaintext := local.files[sourcePath];
      var key :- GetFernetKey(local, crypto, false);
      RefusedKeyIsShort(local, crypto, false, key.value);
      if !FernetAccepts(key.value) then Err(BadKey)
      else
        var target := PathJoin(DataDir(local), targetPath);
        if target !in local.writable then Err(FileUnwritable(target))
        else Ok((target, local.files[target := crypto.encrypt(key.value, plaintext, nonce)]))
  }

  /** A file encrypted into `data/` decrypts back to the source file's
      content, unless the target is the secret file itself. */
  lemma EncryptFileDecryptFile(local: Local, crypto: Crypto, sourcePath: string, targetPath: string, nonce: nat)
    requires FernetRoundTrips(crypto)
    requires EncryptFile(local, crypto, sourcePath, targetPath, nonce).Ok?
    requires PathJoin(DataDir(local), targetPath) != SecretPath(local)
    ensures DecryptFile(local.(files := EncryptFile(local, crypto, sourcePath, targetPath, nonce).value.1), crypto, targetPath)
            == Ok(local.files[sourcePath])
  {
    var r := EncryptFile(local, crypto, sourcePath, targetPath, nonce);
    var key :| GetFernetKey(local, crypto, false) == Ok(Some(key)) && FernetAccepts(key)
               && r.value.1 == local.files[r.value.0 := crypto.encrypt(key, local.files[sourcePath], nonce)];
    var after := local.(files := r.value.1);
    assert SecretPath(local) in after.files <==> SecretPath(local) in local.files;
    assert SecretPath(local) in local.files ==> after.files[SecretPath(local)] == local.files[SecretPath(local)];
    assert EnsureSecret(after) == EnsureSecret(local);
    assert GetFernetKey(after, crypto, true) == Ok(Some(key));
  }

  /** `ascii_letters + digits`, with `punctuation` appended for symbols. */
  function Alphabet(symbols: bool): (r: string)
    ensures |r| == if symbols then 94 else 62
    ensures r[|r| - 1] == if symbols then '~' else '9'
  {
    if symbols then AsciiLetters + Digits + Punctuation else AsciiLetters + Digits
  }

  /** The `k`-th seed of `random(seed)`: the argument itself, then SHA-512
      of the previous seed. */
  function Iterate(crypto: Crypto, seed: seq<Byte>, k: nat): seq<Byte> {
    if k == 0 then seed else crypto.sha512(Iterate(crypto, seed, k - 1))
  }

  /** The `i`-th value `random(seed)` yields: byte `i % 64` of the block
      `i / 64`, where block `k` is the `k + 1`-th seed. */
  function StreamAt(crypto: Crypto, seed: seq<Byte>, i: nat): Byte {
    var block := Iterate(crypto, seed, i / 64 + 1);
    assert |block| == 64;
    block[i % 64]
  }

  /** The first `n` values of the generator `random(seed)`: each round
      replaces the seed by its SHA-512 digest and yields the digest's bytes
      one by one. */
  method Random(crypto: Crypto, seed: seq<Byte>, n: nat) returns (out: seq<Byte>)
    ensures |out| == n
    ensures forall i :: 0 <= i < n ==> out[i] == StreamAt(crypto, seed, i)
  {
    out := [];
    var current := seed;
    ghost var k := 0;
    while |out| < n
      invariant |out| <= n
      invariant |out| == n || |out| == 64 * k
      invariant current == Iterate(crypto, seed, k)
      invariant forall i :: 0 <= i < |out| ==> out[i] == StreamAt(crypto, seed, i)
      decreases n - |out|
    {
      current := crypto.sha512(current);
      k := k + 1;
      var j := 0;
      while j < 64 && |out| < n
        invariant 0 <= j <= 64 && |out| <= n
        invariant |out| == 64 * (k - 1) + j
        invariant forall i :: 0 <= i < |out| ==> out[i] == StreamAt(crypto, seed, i)
      {
        assert (64 * (k - 1) + j) / 64 == k - 1 && (64 * (k - 1) + j) % 64 == j;
        out := out + [current[j]];
        j := j + 1;
      }
    }
  }

  /** The values `64 * k` to `64 * k + 63` of the stream. */
  function BlockAt(crypto: Crypto, seed: seq<Byte>, k: nat): (r: seq<Byte>)
    ensures |r| == 64
  {
    seq<Byte>(64, j requires 0 <= j < 64 => StreamAt(crypto, seed, 64 * k + j))
  }

  /** The stream is a chain of blocks: each block of 64 values is the
      SHA-512 digest of the previous block, and the first is the digest of
      the seed. */
  lemma StreamChains(crypto: Crypto, seed: seq<Byte>, k: nat)
    ensures BlockAt(crypto, seed, 0) == crypto.sha512(seed)
    ensures BlockAt(crypto, seed, k + 1) == crypto.sha512(BlockAt(crypto, seed, k))
  {
    BlockIsIterate(crypto, seed, 0);
    BlockIsIterate(crypto, seed, k);
    BlockIsIterate(crypto, seed, k + 1);
  }

  lemma BlockIsIterate(crypto: Crypto, seed: seq<Byte>, k: nat)
    ensures BlockAt(crypto, seed, k) == Iterate(crypto, seed, k + 1)
  {
    var block := Iterate(crypto, seed, k + 1);
    forall j | 0 <= j < 64
      ensures BlockAt(crypto, seed, k)[j] == block[j]
    {
      assert (64 * k + j) / 64 == k && (64 * k + j) % 64 == j;
      assert StreamAt(crypto, seed, 64 * k + j) == Iterate(crypto, seed, k + 1)[j];
    }
  }

  /** The character `get` picks for a byte, as written: the index is reduced
      modulo one less than the alphabet's length. */
  function Pick(alphabet: string, b: Byte): (c: char)
    requires |alphabet| >= 2
    ensures c in alphabet[..|alphabet| - 1]
  {
    alphabet[b % (|alphabet| - 1)]
  }

  /** The character picked when the index is reduced modulo the alphabet's
      length. */
  function PickUniform(alphabet: string, b: Byte): (c: char)
    requires |alphabet| >= 1
    ensures c in alphabet
  {
    alphabet[b % |alphabet|]
  }

  /** The HMAC-SHA512 of the identifier under the secret, which seeds the
      stream. */
  function SeedOf(crypto: Crypto, secret: string, identifier: string): seq<Byte> {
    crypto.hmacSha512(secret, identifier)
  }

  /** How many values `range(length)` yields: none for a negative length. */
  function Count(length: int): nat {
    if length < 0 then 0 else length
  }

  /** `get(identifier, length, symbols)` as written: `"dummy"` for the dummy
      secret; otherwise `length` characters of the alphabet, the `i`-th
      chosen by the `i`-th value of the stream, never the alphabet's last
      character. */
  method Get(local: Local, crypto: Crypto, identifier: string, length: int, symbols: bool)
      returns (r: Result<string, PwError>)
    ensures EnsureSecret(local).Err? ==> r == Err(EnsureSecret(local).error)
    ensures IsDummy(local) ==> r == Ok("dummy")
    ensures EnsureSecret(local).Ok? && !IsDummy(local) ==>
              && r.Ok? && |r.value| == Count(length)
              && (forall i :: 0 <= i < |r.value| ==>
                    r.value[i] == Pick(Alphabet(symbols), StreamAt(crypto, SeedOf(crypto, EnsureSecret(local).value.value, identifier), i)))
              && (forall c :: c in r.value ==> c in Alphabet(symbols))
              && (if symbols then '~' else '9') !in r.value
  {
    var secret := EnsureSecret(local);
    if secret.Err? {
      return Err(secret.error);
    }
    if secret.value.None? {
      return Ok("dummy");
    }
    var password := Derive(crypto, SeedOf(crypto, secret.value.value, identifier), Count(length), symbols);
    r := Ok(password);
  }

  /** The password `get` derives from a seed, as written. */
  method Derive(crypto: Crypto, seed: seq<Byte>, length: nat, symbols: bool) returns (password: string)
    ensures |password| == length
    ensures forall i :: 0 <= i < |password| ==> password[i] == Pick(Alphabet(symbols), StreamAt(crypto, seed, i))
    ensures forall c :: c in password ==> c in Alphabet(symbols)
    ensures (if symbols then '~' else '9') !in password
  {
    var alphabet := Alphabet(symbols);
    var prng := Random(crypto, seed, length);
    password := seq(length, i requires 0 <= i < length => Pick(alphabet, prng[i]));
    LastNeverChosen(symbols);
    assert forall c :: c in password ==> c in alphabet[..|alphabet| - 1];
  }

  /** The last character of either alphabet occurs in it only at the end. */
  lemma LastNeverChosen(symbols: bool)
    ensures Alphabet(symbols)[|Alphabet(symbols)| - 1] !in Alphabet(symbols)[..|Alphabet(symbols)| - 1]
  {
    var a := Alphabet(symbols);
    var letters := AsciiLetters;
    assert |letters| == 52 && |Digits| == 10;
    forall i | 0 <= i < |a| - 1
      ensures a[i] != a[|a| - 1]
    {
      if i < 52 {
        assert a[i] == letters[i];
        assert 'A' as int <= letters[i] as int <= 'z' as int;
      } else if i < 62 {
        assert a[i] == Digits[i - 52];
      } else {
        assert a[i] == Punctuation[i - 62];
        assert Punctuation[i - 62] as int < '~' as int;
      }
    }
  }

  /** `get` with the index reduced modulo the alphabet's length. */
  method GetCorrected(local: Local, crypto: Crypto, identifier: string, length: int, symbols: bool)
      returns (r: Result<string, PwError>)
    ensures EnsureSecret(local).Err? ==> r == Err(EnsureSecret(local).error)
    ensures IsDummy(local) ==> r == Ok("dummy")
    ensures EnsureSecret(local).Ok? && !IsDummy(local) ==>
              && r.Ok? && |r.value| == Count(length)
              && (forall i :: 0 <= i < |r.value| ==>
                    r.value[i] == PickUniform(Alphabet(symbols), StreamAt(crypto, SeedOf(crypto, EnsureSecret(local).value.value, identifier), i)))
              && (forall c :: c in r.value ==> c in Alphabet(symbols))
  {
    var secret := EnsureSecret(local);
    if secret.Err? {
      return Err(secret.error);
    }
    if secret.value.None? {
      return Ok("dummy");
    }
    var password := DeriveCorrected(crypto, SeedOf(crypto, secret.value.value, identifier), Count(length), symbols);
    r := Ok(password);
  }

  /** The password derived from a seed with the corrected reduction. */
  method DeriveCorrected(crypto: Crypto, seed: seq<Byte>, length: nat, symbols: bool) returns (password: string)
    ensures |password| == length
    ensures forall i :: 0 <= i < |password| ==> password[i] == PickUniform(Alphabet(symbols), StreamAt(crypto, seed, i))
    ensures forall c :: c in password ==> c in Alphabet(symbols)
  {
    var alphabet := Alphabet(symbols);
    var prng := Random(crypto, seed, length);
    password := seq(length, i requires 0 <= i < length => PickUniform(alphabet, prng[i]));
  }

  /** With the corrected reduction every character of the alphabet is the
      pick of some byte. */
  lemma CorrectedReachesAll(symbols: bool, c: char)
    requires c in Alphabet(symbols)
    ensures exists b: Byte :: PickUniform(Alphabet(symbols), b) == c
  {
    UniformReaches(Alphabet(symbols), c);
  }

  lemma UniformReaches(a: string, c: char)
    requires c in a && (|a| == 62 || |a| == 94)
    ensures exists b: Byte :: PickUniform(a, b) == c
  {
    var i :| 0 <= i < |a| && a[i] == c;
    if |a| == 62 {
      assert i % 62 == i;
    } else {
      assert i % 94 == i;
    }
    assert PickUniform(a, i) == c;
  }

  /** As written, no byte picks the last character of the alphabet. */
  lemma AsWrittenMissesLast(symbols: bool, b: Byte)
    ensures Pick(Alphabet(symbols), b) != (if symbols then '~' else '9')
  {
    LastNeverChosen(symbols);
  }
}
