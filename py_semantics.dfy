/**
 * The few Python built-ins whose exact behaviour the modelled code depends on:
 * `int()` of a float (truncation toward zero), slice bounds with negative indices,
 * and the `str` methods `startswith`, `endswith`, `in`, `split`, `join` and `strip`.
 */
module PySemantics {

  /** `int(r)` for a float `r`: truncation toward zero (floats modelled as exact reals). */
  function Trunc(r: real): (n: int)
    ensures r >= 0.0 ==> n as real <= r < n as real + 1.0
    ensures r < 0.0 ==> n as real - 1.0 < r <= n as real
    ensures r >= 0.0 ==> n >= 0
  {
    if r >= 0.0 then r.Floor else -((-r).Floor)
  }

  /** The index a slice bound `a` denotes on a sequence of length `n` (negative counts from the end). */
  function SliceBound(n: nat, a: int): (r: nat)
    ensures r <= n
    ensures 0 <= a <= n ==> r == a
    ensures -(n as int) <= a < 0 ==> r == n + a
  {
    if a < 0 then (if a + n < 0 then 0 else a + n)
    else if a > n then n
    else a
  }

  /** The index range `[lo, hi)` that the slice `a:b` selects from a sequence of length `n`. */
  function SliceSpan(n: nat, a: int, b: int): (r: (nat, nat))
    ensures r.0 <= r.1 <= n
    ensures 0 <= a <= b <= n ==> r == (a, b)
  {
    var lo := SliceBound(n, a);
    var hi := SliceBound(n, b);
    if hi <= lo then (lo, lo) else (lo, hi)
  }

  /** `s[a:b]` with Python's bound normalisation. */
  function Slice<T>(s: seq<T>, a: int, b: int): (r: seq<T>)
    ensures |r| <= |s|
  {
    var span := SliceSpan(|s|, a, b);
    s[span.0..span.1]
  }

  predicate StartsWith(s: string, p: string) {
    |p| <= |s| && s[..|p|] == p
  }

  predicate EndsWith(s: string, p: string) {
    |p| <= |s| && s[|s| - |p|..] == p
  }

  /** `sub in s`. */
  predicate Contains(s: string, sub: string) {
    StartsWith(s, sub) || (|s| > 0 && Contains(s[1..], sub))
  }

  /** A one-character `sub in s` is membership of that character. */
  lemma {:induction false} ContainsChar(s: string, c: char)
    ensures Contains(s, [c]) <==> c in s
  {
    if |s| > 0 {
      ContainsChar(s[1..], c);
      assert s == [s[0]] + s[1..];
    }
  }

  /** `s.split(c)` for a one-character separator: every occurrence splits, empty pieces are kept. */
  function Split(s: string, c: char): (r: seq<string>)
    ensures |r| >= 1
  {
    if |s| == 0 then [""]
    else
      var rest := Split(s[1..], c);
      if s[0] == c then [""] + rest else [[s[0]] + rest[0]] + rest[1..]
  }

  /** No piece holds the separator. */
  lemma {:induction false} SplitSpec(s: string, c: char)
    ensures forall i :: 0 <= i < |Split(s, c)| ==> c !in Split(s, c)[i]
  {
    if |s| > 0 {
      SplitSpec(s[1..], c);
    }
  }

  /** `sep.join(parts)`. */
  function Join(parts: seq<string>, sep: string): string {
    if |parts| == 0 then ""
    else if |parts| == 1 then parts[0]
    else parts[0] + sep + Join(parts[1..], sep)
  }

  lemma {:induction false} JoinSplit(s: string, c: char)
    ensures Join(Split(s, c), [c]) == s
  {
    if |s| > 0 {
      JoinSplit(s[1..], c);
      var rest := Split(s[1..], c);
      if s[0] == c {
        assert Split(s, c) == [""] + rest;
        assert s == [c] + s[1..];
      } else {
        var r := [[s[0]] + rest[0]] + rest[1..];
        assert Split(s, c) == r;
        if |rest| == 1 {
          assert Join(r, [c]) == [s[0]] + rest[0];
        } else {
          assert r[1..] == rest[1..];
          assert Join(r, [c]) == [s[0]] + rest[0] + [c] + Join(rest[1..], [c]);
          assert Join(rest, [c]) == rest[0] + [c] + Join(rest[1..], [c]);
        }
        assert s == [s[0]] + s[1..];
      }
    }
  }

  /** Splitting a piece free of the separator, followed by more text, starts with that piece. */
  lemma {:induction false} SplitPiece(a: string, c: char, rest: string)
    requires c !in a
    ensures Split(a + [c] + rest, c) == [a] + Split(rest, c)
    ensures Split(a, c) == [a]
  {
    if |a| > 0 {
      SplitPiece(a[1..], c, rest);
      assert (a + [c] + rest)[1..] == a[1..] + [c] + rest;
      assert [a[0]] + a[1..] == a;
    } else {
      assert a + [c] + rest == [c] + rest;
      assert ([c] + rest)[1..] == rest;
    }
  }

  lemma {:induction false} SplitJoin(parts: seq<string>, c: char)
    requires |parts| >= 1
    requires forall i :: 0 <= i < |parts| ==> c !in parts[i]
    ensures Split(Join(parts, [c]), c) == parts
  {
    SplitPiece(parts[0], c, "");
    if |parts| > 1 {
      SplitJoin(parts[1..], c);
      SplitPiece(parts[0], c, Join(parts[1..], [c]));
      assert parts == [parts[0]] + parts[1..];
    }
  }

  /** One step of `Split`: the first character either ends the first piece or joins it. */
  lemma SplitCons(x: char, s: string, c: char)
    ensures Split([x] + s, c) ==
      if x == c then [""] + Split(s, c) else [[x] + Split(s, c)[0]] + Split(s, c)[1..]
  {
    assert ([x] + s)[1..] == s;
  }

  /** Splitting `a + c + b` at `c` gives the pieces of `a`, then the pieces of `b`. */
  lemma {:induction false} SplitAppend(a: string, c: char, b: string)
    ensures Split(a + [c] + b, c) == Split(a, c) + Split(b, c)
  {
    if |a| == 0 {
      assert a + [c] + b == [c] + b;
      SplitCons(c, b, c);
    } else {
      var t := a[1..];
      SplitAppend(t, c, b);
      assert a + [c] + b == [a[0]] + (t + [c] + b);
      assert a == [a[0]] + t;
      SplitConsAppend(a[0], Split(t, c), Split(b, c), c);
      SplitCons(a[0], t + [c] + b, c);
      SplitCons(a[0], t, c);
    }
  }

  /** The step of `SplitCons` commutes with appending the pieces `pb`. */
  lemma SplitConsAppend(x: char, pa: seq<string>, pb: seq<string>, c: char)
    requires |pa| >= 1
    ensures (if x == c then [""] + (pa + pb) else [[x] + (pa + pb)[0]] + (pa + pb)[1..])
         == (if x == c then [""] + pa else [[x] + pa[0]] + pa[1..]) + pb
  {
    if x != c {
      assert (pa + pb)[0] == pa[0];
      assert (pa + pb)[1..] == pa[1..] + pb;
    }
  }

  /** `ch.isspace()`: the ASCII whitespace, the separators U+001C..U+001F, and the Unicode spaces. */
  predicate IsSpace(ch: char) {
    || ch == ' ' || ch == '\t' || ch == '\n' || ch == '\r' || ch == '\U{B}' || ch == '\U{C}'
    || ('\U{1C}' <= ch <= '\U{1F}') || ch == '\U{85}' || ch == '\U{A0}' || ch == '\U{1680}'
    || ('\U{2000}' <= ch <= '\U{200A}') || ch == '\U{2028}' || ch == '\U{2029}'
    || ch == '\U{202F}' || ch == '\U{205F}' || ch == '\U{3000}'
  }

  function StripLeft(s: string): (r: string)
    ensures |r| <= |s|
    ensures |r| == 0 || !IsSpace(r[0])
    ensures |r| == 0 ==> forall i :: 0 <= i < |s| ==> IsSpace(s[i])
  {
    if |s| > 0 && IsSpace(s[0]) then StripLeft(s[1..]) else s
  }

  function StripRight(s: string): (r: string)
    ensures |r| == 0 || !IsSpace(r[|r| - 1])
  {
    if |s| > 0 && IsSpace(s[|s| - 1]) then StripRight(s[..|s| - 1]) else s
  }

  /** `s.strip()`. */
  function Strip(s: string): string {
    StripRight(StripLeft(s))
  }

  /** Length of the leading run of non-whitespace characters. */
  function WordLength(s: string): (n: nat)
    ensures n <= |s|
    ensures forall i :: 0 <= i < n ==> !IsSpace(s[i])
    ensures n < |s| ==> IsSpace(s[n])
    ensures |s| > 0 && !IsSpace(s[0]) ==> n > 0
  {
    if |s| == 0 || IsSpace(s[0]) then 0 else 1 + WordLength(s[1..])
  }

  /** `s.split()`: the maximal runs of non-whitespace characters, in order. */
  function Words(s: string): (r: seq<string>)
    ensures forall i :: 0 <= i < |r| ==> |r[i]| > 0
    ensures |r| == 0 ==> forall i :: 0 <= i < |s| ==> IsSpace(s[i])
    decreases |s|
  {
    var t := StripLeft(s);
    if |t| == 0 then []
    else
      var n := WordLength(t);
      [t[..n]] + Words(t[n..])
  }

  /** The line boundaries of `str.splitlines` (`\r\n` counts as one). */
  predicate IsLineBreak(ch: char) {
    || ch == '\n' || ch == '\r' || ch == '\U{B}' || ch == '\U{C}'
    || ('\U{1C}' <= ch <= '\U{1E}') || ch == '\U{85}' || ch == '\U{2028}' || ch == '\U{2029}'
  }

  /** Length of the leading run of characters that are not line boundaries. */
  function LineLength(s: string): (n: nat)
    ensures n <= |s|
    ensures forall i :: 0 <= i < n ==> !IsLineBreak(s[i])
    ensures n < |s| ==> IsLineBreak(s[n])
  {
    if |s| == 0 || IsLineBreak(s[0]) then 0 else 1 + LineLength(s[1..])
  }

  /** `s.splitlines()`: no boundary is kept and a final boundary does not start an empty line. */
  function SplitLines(s: string): (r: seq<string>)
    ensures s == "" <==> r == []
    ensures forall i, k :: 0 <= i < |r| && 0 <= k < |r[i]| ==> !IsLineBreak(r[i][k])
    decreases |s|
  {
    if |s| == 0 then []
    else
      var n := LineLength(s);
      if n == |s| then [s]
      else
        var skip := if s[n] == '\r' && n + 1 < |s| && s[n + 1] == '\n' then 2 else 1;
        [s[..n]] + SplitLines(s[n + skip..])
  }
}
