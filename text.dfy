/** Option/Result wrappers and the few pieces of Python's `str` behaviour the
    download pipeline relies on: whitespace, `strip`, `in`, `find`,
    `endswith`, `lower` and `replace`. */
module Text {

  datatype Option<T> = None | Some(value: T) {
    /** Python's `d.get(key, default)` on a key that may be absent. */
    function GetOr(default: T): T {
      if Some? then value else default
    }
  }

  newtype byte = b: int | 0 <= b < 256

  /** A value, or the text of the exception the source would raise. */
  datatype Result<T> = Ok(value: T) | Err(message: string)

  /** How a save through `open(path, "w")` and `json.dump` turns out: the
      document is written whole; `open` itself fails and the file is
      untouched; or the failure comes after `open` has truncated the file (a
      full disk, a value JSON cannot encode), leaving it empty or cut short. */
  datatype Save = Saved | OpenFails | DumpFails

  /** Python's truth value of an optional string or byte string: present and non-empty. */
  predicate Truthy<T>(o: Option<seq<T>>) {
    o.Some? && |o.value| > 0
  }

  /** Python's `str.isspace`: the set used by `str.strip()` and by `\s`/`\S` in `re`. */
  predicate IsSpace(c: char) {
    c == ' ' || ('\t' <= c <= '\r') || ('\U{1C}' <= c <= '\U{1F}') ||
    c == '\U{85}' || c == '\U{A0}' || c == '\U{1680}' ||
    ('\U{2000}' <= c <= '\U{200A}') || c == '\U{2028}' || c == '\U{2029}' ||
    c == '\U{202F}' || c == '\U{205F}' || c == '\U{3000}'
  }

  /** The end of the run of whitespace that starts at `k`. */
  function SpaceRunEnd(s: string, k: nat): (n: nat)
    requires k <= |s|
    ensures k <= n <= |s| && (n == |s| || !IsSpace(s[n]))
    ensures forall i {:trigger IsSpace(s[i])} :: k <= i < n ==> IsSpace(s[i])
    decreases |s| - k
  {
    if k < |s| && IsSpace(s[k]) then SpaceRunEnd(s, k + 1) else k
  }

  /** The start of the run of whitespace that ends at `k`. */
  function SpaceRunStart(s: string, k: nat): (n: nat)
    requires k <= |s|
    ensures n <= k && (n == 0 || !IsSpace(s[n - 1]))
    ensures forall i {:trigger IsSpace(s[i])} :: n <= i < k ==> IsSpace(s[i])
  {
    if k > 0 && IsSpace(s[k - 1]) then SpaceRunStart(s, k - 1) else k
  }

  /** `s.lstrip()`: the suffix left after the maximal run of leading whitespace. */
  function LStrip(s: string): (r: string)
    ensures |r| <= |s| && r == s[|s| - |r|..]
    ensures r == [] || !IsSpace(r[0])
    ensures forall i {:trigger IsSpace(s[i])} :: 0 <= i < |s| - |r| ==> IsSpace(s[i])
  {
    s[SpaceRunEnd(s, 0)..]
  }

  /** `s.rstrip()`: the prefix left after the maximal run of trailing whitespace. */
  function RStrip(s: string): (r: string)
    ensures |r| <= |s| && r == s[..|r|]
    ensures r == [] || !IsSpace(r[|r| - 1])
    ensures forall i {:trigger IsSpace(s[i])} :: |r| <= i < |s| ==> IsSpace(s[i])
  {
    s[..SpaceRunStart(s, |s|)]
  }

  /** `s.strip()`. */
  function Strip(s: string): (r: string)
    ensures r == [] || (!IsSpace(r[0]) && !IsSpace(r[|r| - 1]))
  {
    RStrip(LStrip(s))
  }

  lemma PrefixOfSuffix<T>(s: seq<T>, lo: nat, n: nat)
    requires lo + n <= |s|
    ensures s[lo..][..n] == s[lo..lo + n]
  {
  }

  /** `strip()` keeps a contiguous run of its argument: the text from where `lstrip()` starts. */
  lemma StripIsSlice(s: string)
    ensures var lo := |s| - |LStrip(s)|; lo + |Strip(s)| <= |s| && Strip(s) == s[lo..lo + |Strip(s)|]
  {
    var l := LStrip(s);
    var lo := |s| - |l|;
    PrefixOfSuffix(s, lo, |RStrip(l)|);
  }

  /** A slice of a string holds no occurrence the string lacks. */
  lemma AbsentFromSlice(s: string, p: string, lo: nat, hi: nat)
    requires lo <= hi <= |s| && !Contains(s, p)
    ensures !Contains(s[lo..hi], p)
  {
    if Contains(s[lo..hi], p) {
      var q :| 0 <= q <= hi - lo && OccursAt(s[lo..hi], p, q);
      OccursInSlice(s, p, lo, hi, q);
    }
  }

  /** Stripping cannot create an occurrence of a pattern. */
  lemma StripKeepsAbsence(s: string, p: string)
    requires !Contains(s, p)
    ensures !Contains(Strip(s), p)
  {
    var r := Strip(s);
    var lo: nat := |s| - |LStrip(s)|;
    StripIsSlice(s);
    AbsentFromSlice(s, p, lo, lo + |r|);
    assert r == s[lo..lo + |r|];
  }

  /** Text with no whitespace at either end is its own `strip()`. */
  lemma StripKeeps(s: string)
    requires |s| > 0 && !IsSpace(s[0]) && !IsSpace(s[|s| - 1])
    ensures Strip(s) == s
  {
    assert LStrip(s) == s;
  }

  predicate OccursAt(s: string, p: string, k: int) {
    0 <= k && k + |p| <= |s| && s[k..k + |p|] == p
  }

  /** An occurrence inside a slice is an occurrence in the whole string. */
  lemma OccursInSlice(s: string, p: string, lo: nat, hi: nat, q: nat)
    requires lo <= hi <= |s| && OccursAt(s[lo..hi], p, q)
    ensures OccursAt(s, p, lo + q)
  {
    var w := s[lo..hi];
    forall k | 0 <= k < |p| ensures s[lo + q + k] == p[k] {
      assert w[q..q + |p|][k] == w[q + k];
    }
    assert s[lo + q..lo + q + |p|] == p;
  }

  /** A character `c` at `k` is an occurrence of the one-character text `[c]`. */
  lemma CharOccurs(s: string, c: char, k: nat)
    requires k < |s| && s[k] == c
    ensures OccursAt(s, [c], k)
  {
    assert s[k..k + 1] == [s[k]];
  }

  /** Python's `p in s`. */
  predicate Contains(s: string, p: string) {
    exists k | 0 <= k <= |s| :: OccursAt(s, p, k)
  }

  function FindFrom(s: string, p: string, k: nat): (r: Option<nat>)
    ensures r.Some? ==> k <= r.value && OccursAt(s, p, r.value)
    ensures r.Some? ==> forall j :: k <= j < r.value ==> !OccursAt(s, p, j)
    ensures r.None? ==> forall j :: k <= j ==> !OccursAt(s, p, j)
    decreases |s| - k
  {
    if k + |p| > |s| then None
    else if s[k..k + |p|] == p then Some(k)
    else FindFrom(s, p, k + 1)
  }

  /** Python's `s.find(p)`, with `None` for -1: the first occurrence of `p`. */
  function Find(s: string, p: string): (r: Option<nat>)
    ensures r.Some? ==> OccursAt(s, p, r.value) && forall j :: 0 <= j < r.value ==> !OccursAt(s, p, j)
    ensures r.None? <==> !Contains(s, p)
  {
    FindFrom(s, p, 0)
  }

  predicate StartsWith(s: string, p: string) {
    |p| <= |s| && s[..|p|] == p
  }

  /** Python's `s.endswith(p)`. */
  predicate EndsWith(s: string, p: string) {
    |p| <= |s| && s[|s| - |p|..] == p
  }

  function LowerChar(c: char): char {
    if 'A' <= c <= 'Z' then (c as int + 32) as char else c
  }

  /** `s.lower()`, restricted to the ASCII letters. */
  function Lower(s: string): (r: string)
    ensures |r| == |s| && forall i :: 0 <= i < |s| ==> r[i] == LowerChar(s[i])
  {
    seq(|s|, i requires 0 <= i < |s| => LowerChar(s[i]))
  }

  /** `s.replace(c, '')` for a one-character `c`. */
  function RemoveChar(s: string, c: char): (r: string)
    ensures c !in r
    ensures forall d :: d != c ==> (d in r <==> d in s)
    ensures c !in s ==> r == s
  {
    if s == [] then []
    else if s[0] == c then RemoveChar(s[1..], c)
    else [s[0]] + RemoveChar(s[1..], c)
  }

  /** On one character, `replace(c, '')` drops it exactly when it is `c`. */
  lemma RemoveCharOne(d: char, c: char)
    ensures RemoveChar([d], c) == if d == c then [] else [d]
  {
    assert [d][1..] == [];
  }

  /** `replace(c, '')` works character by character: it distributes over
      concatenation, so the other characters keep their order. */
  lemma {:induction false} RemoveCharAppend(a: string, b: string, c: char)
    ensures RemoveChar(a + b, c) == RemoveChar(a, c) + RemoveChar(b, c)
    decreases |a|
  {
    if a == [] {
      assert a + b == b;
    } else {
      assert (a + b)[0] == a[0] && (a + b)[1..] == a[1..] + b;
      RemoveCharAppend(a[1..], b, c);
    }
  }

  /** `replace(c, '')` removes every `c` and keeps every other character as often as it occurs. */
  lemma {:induction false} RemoveCharCounts(s: string, c: char)
    ensures multiset(RemoveChar(s, c)) == multiset(s)[c := 0]
    decreases |s|
  {
    if s != [] {
      assert s == [s[0]] + s[1..];
      RemoveCharCounts(s[1..], c);
    }
  }
}
