/** The pieces of Python's `str` and `os.path` behaviour the plugins rely on:
    `strip()`, `split(sep)`, `split()[0]`, `startswith`, substring tests,
    string comparison `<`, and `posixpath.join`. */
module Text {
  import opened Wrappers

  /** Python's `str.isspace()` for one character: the ASCII whitespace
      characters, the information separators U+001C..U+001F, and the Unicode
      space and line/paragraph separators. */
  predicate IsSpace(c: char) {
    || c == ' '
    || ('\t' <= c <= '\r')
    || ('\U{1c}' <= c <= '\U{1f}')
    || c == '\U{85}' || c == '\U{a0}' || c == '\U{1680}'
    || ('\U{2000}' <= c <= '\U{200a}')
    || c == '\U{2028}' || c == '\U{2029}' || c == '\U{202f}'
    || c == '\U{205f}' || c == '\U{3000}'
  }

  predicate AllSpace(s: string) {
    forall i :: 0 <= i < |s| ==> IsSpace(s[i])
  }

  predicate NoSpace(s: string) {
    forall i :: 0 <= i < |s| ==> !IsSpace(s[i])
  }

  /** What `strip()` returns: no whitespace at either end. */
  predicate IsStripped(s: string) {
    s == [] || (!IsSpace(s[0]) && !IsSpace(s[|s| - 1]))
  }

  /** `s.lstrip()` */
  function TrimLeft(s: string): (r: string)
    ensures |r| <= |s| && r == s[|s| - |r|..]
    ensures AllSpace(s[..|s| - |r|])
    ensures r == [] || !IsSpace(r[0])
  {
    if |s| > 0 && IsSpace(s[0]) then
      var r := TrimLeft(s[1..]);
      assert s[..|s| - |r|] == [s[0]] + s[1..][..|s| - 1 - |r|];
      r
    else s
  }

  /** `s.rstrip()` */
  function TrimRight(s: string): (r: string)
    ensures |r| <= |s| && r == s[..|r|]
    ensures AllSpace(s[|r|..])
    ensures r == [] || !IsSpace(r[|r| - 1])
  {
    if |s| > 0 && IsSpace(s[|s| - 1]) then
      var r := TrimRight(s[..|s| - 1]);
      assert s[|r|..] == s[..|s| - 1][|r|..] + [s[|s| - 1]];
      r
    else s
  }

  /** `s.strip()`: no whitespace at either end, and empty exactly when `s`
      is all whitespace. StripCore and StripPadded say that nothing but the
      padding is removed. */
  function Strip(s: string): (r: string)
    ensures IsStripped(r)
    ensures r == [] <==> AllSpace(s)
  {
    var t := TrimLeft(s);
    var r := TrimRight(t);
    TrimmedIsStripped(s, t, r);
    r
  }

  /** What `strip()` keeps is the middle of `s` between two runs of
      whitespace. */
  lemma StripCore(s: string)
    ensures exists v, w :: AllSpace(v) && AllSpace(w) && s == v + Strip(s) + w
  {
    TrimmedIsCore(s, TrimLeft(s), Strip(s));
  }

  lemma TrimmedIsStripped(s: string, t: string, r: string)
    requires t == TrimLeft(s) && r == TrimRight(t)
    ensures IsStripped(r)
    ensures r == [] <==> AllSpace(s)
  {
    if r != [] {
      assert r[0] == t[0] == s[|s| - |t|];
    }
    assert r == [] ==> AllSpace(t[0..]);
    assert t == [] ==> s[..|s|] == s;
  }

  lemma TrimmedIsCore(s: string, t: string, r: string)
    requires |t| <= |s| && t == s[|s| - |t|..] && AllSpace(s[..|s| - |t|])
    requires |r| <= |t| && r == t[..|r|] && AllSpace(t[|r|..])
    ensures exists v, w :: AllSpace(v) && AllSpace(w) && s == v + r + w
  {
    var v, w := s[..|s| - |t|], t[|r|..];
    assert s == v + r + w;
    PaddedWitness(s, v, r, w);
  }

  lemma PaddedWitness(s: string, v: string, r: string, w: string)
    requires AllSpace(v) && AllSpace(w) && s == v + r + w
    ensures exists v, w :: AllSpace(v) && AllSpace(w) && s == v + r + w
  {
  }

  lemma {:induction false} TrimLeftSkips(v: string, t: string)
    requires AllSpace(v)
    requires t == [] || !IsSpace(t[0])
    ensures TrimLeft(v + t) == t
  {
    if v != [] {
      assert (v + t)[1..] == v[1..] + t;
      TrimLeftSkips(v[1..], t);
    }
  }

  lemma {:induction false} TrimRightSkips(t: string, w: string)
    requires AllSpace(w)
    requires t == [] || !IsSpace(t[|t| - 1])
    ensures TrimRight(t + w) == t
  {
    if w != [] {
      assert (t + w)[..|t + w| - 1] == t + w[..|w| - 1];
      TrimRightSkips(t, w[..|w| - 1]);
    }
  }

  /** `strip()` removes exactly the whitespace padding: if `s` is a stripped
      string padded with whitespace on both sides, stripping gives it back.
      Together with the contract of Strip this characterises `strip()`. */
  lemma StripPadded(v: string, x: string, w: string)
    requires AllSpace(v) && AllSpace(w) && IsStripped(x)
    ensures Strip(v + x + w) == x
  {
    if x == [] {
      assert v + x + w == v + w + [];
      TrimLeftSkips(v + w, []);
    } else {
      assert v + x + w == v + (x + w);
      TrimLeftSkips(v, x + w);
      TrimRightSkips(x, w);
    }
  }

  /** `strip()` is idempotent. */
  lemma StripStripped(x: string)
    requires IsStripped(x)
    ensures Strip(x) == x
  {
    var e: string := [];
    assert e + x == x && x + e == x;
    if x != [] {
      TrimLeftSkips(e, x);
      TrimRightSkips(x, e);
    }
  }

  /** The index of the first occurrence of `c` in `s` (`s.find(c)`, with
      `None` for -1). */
  function FindChar(s: string, c: char): (r: Option<nat>)
    ensures r.None? <==> c !in s
    ensures r.Some? ==> r.value < |s| && s[r.value] == c && c !in s[..r.value]
  {
    if |s| == 0 then None
    else if s[0] == c then Some(0)
    else match FindChar(s[1..], c)
      case None => None
      case Some(k) =>
        assert s[..k + 1] == [s[0]] + s[1..][..k];
        Some(k + 1)
  }

  /** The pieces joined back with `sep` in between (`sep.join(pieces)`). */
  function JoinWith(pieces: seq<string>, sep: char): string
    requires |pieces| >= 1
  {
    if |pieces| == 1 then pieces[0] else pieces[0] + [sep] + JoinWith(pieces[1..], sep)
  }

  /** `s.split(sep)` for a one-character separator: at least one piece, no
      piece contains the separator, and joining the pieces gives `s` back. */
  function Split(s: string, sep: char): (r: seq<string>)
    ensures |r| >= 1
    ensures forall i :: 0 <= i < |r| ==> sep !in r[i]
    ensures JoinWith(r, sep) == s
    decreases |s|
  {
    match FindChar(s, sep)
    case None => [s]
    case Some(k) =>
      var rest := Split(s[k + 1..], sep);
      assert s == s[..k] + [sep] + s[k + 1..];
      [s[..k]] + rest
  }

  /** `s.startswith(p)` */
  predicate StartsWith(s: string, p: string) {
    |p| <= |s| && s[..|p|] == p
  }

  /** `sub` occurs in `s` starting at index `i`. */
  predicate OccursAt(s: string, sub: string, i: nat) {
    i + |sub| <= |s| && s[i..i + |sub|] == sub
  }

  /** `sub in s` */
  function ContainsSub(s: string, sub: string): (r: bool)
    ensures r <==> exists i: nat :: OccursAt(s, sub, i)
    decreases |s|
  {
    if |s| < |sub| then false
    else if s[..|sub|] == sub then
      assert OccursAt(s, sub, 0);
      true
    else
      var r := ContainsSub(s[1..], sub);
      assert forall i: nat :: OccursAt(s[1..], sub, i) <==> OccursAt(s, sub, i + 1);
      assert forall i: nat :: OccursAt(s, sub, i) ==> i > 0 && OccursAt(s[1..], sub, i - 1);
      r
  }

  /** The leading run of non-whitespace characters of `t`. */
  function TakeWord(t: string): (w: string)
    ensures |w| <= |t| && w == t[..|w|] && NoSpace(w)
    ensures |w| == |t| || IsSpace(t[|w|])
  {
    if |t| == 0 || IsSpace(t[0]) then [] else [t[0]] + TakeWord(t[1..])
  }

  /** `s.split()[0]`, with `None` where Python raises IndexError because `s`
      holds no word at all. */
  function FirstWord(s: string): (r: Option<string>)
    ensures r.None? <==> AllSpace(s)
    ensures r.Some? ==> r.value != [] && NoSpace(r.value)
  {
    var t := TrimLeft(s);
    if t == [] then None
    else
      assert !IsSpace(t[0]);
      Some(TakeWord(t))
  }

  lemma {:induction false} TakeWordOf(d: string, rest: string)
    requires NoSpace(d)
    requires rest == [] || IsSpace(rest[0])
    ensures TakeWord(d + rest) == d
  {
    if d != [] {
      assert (d + rest)[1..] == d[1..] + rest;
      TakeWordOf(d[1..], rest);
    }
  }

  /** A word followed by whitespace (or by nothing) is what `split()[0]`
      returns. */
  lemma FirstWordOf(d: string, rest: string)
    requires d != [] && NoSpace(d)
    requires rest == [] || IsSpace(rest[0])
    ensures FirstWord(d + rest) == Some(d)
  {
    assert [] + (d + rest) == d + rest;
    TrimLeftSkips([], d + rest);
    TakeWordOf(d, rest);
  }

  /** Python's `a < b` on `str`: code-point lexicographic order, a proper
      prefix coming first. */
  predicate Less(a: string, b: string) {
    if |a| == 0 then |b| > 0
    else if |b| == 0 then false
    else a[0] < b[0] || (a[0] == b[0] && Less(a[1..], b[1..]))
  }

  lemma {:induction false} LessIrreflexive(a: string)
    ensures !Less(a, a)
  {
    if |a| > 0 { LessIrreflexive(a[1..]); }
  }

  lemma {:induction false} LessTransitive(a: string, b: string, c: string)
    requires Less(a, b) && Less(b, c)
    ensures Less(a, c)
  {
    if |a| > 0 && a[0] == b[0] && b[0] == c[0] {
      LessTransitive(a[1..], b[1..], c[1..]);
    }
  }

  /** Any two different strings are ordered one way or the other. */
  lemma {:induction false} LessTotal(a: string, b: string)
    requires a != b
    ensures Less(a, b) || Less(b, a)
  {
    if |a| > 0 && |b| > 0 && a[0] == b[0] {
      assert a == [a[0]] + a[1..] && b == [b[0]] + b[1..];
      LessTotal(a[1..], b[1..]);
    }
  }

  lemma {:induction false} LessAsymmetric(a: string, b: string)
    requires Less(a, b)
    ensures !Less(b, a)
  {
    if |a| > 0 && a[0] == b[0] {
      LessAsymmetric(a[1..], b[1..]);
    }
  }

  /** `posixpath.join(a, b)` */
  function PathJoin(a: string, b: string): string {
    if StartsWith(b, "/") then b
    else if a == [] || a[|a| - 1] == '/' then a + b
    else a + "/" + b
  }
}
