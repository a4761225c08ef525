/** Small value types and sequence/string helpers shared by every module of the model. */
module Common {

  datatype Option<+T> = None | Some(value: T)

  // ---------------------------------------------------------------------------
  // Counting, filtering and summing over sequences (SQL COUNT / WHERE / SUM)
  // ---------------------------------------------------------------------------

  /** Number of elements of `s` that satisfy `p` (SQL `COUNT(*) ... WHERE p`). */
  function CountWhere<T>(s: seq<T>, p: T -> bool): (n: nat)
    ensures n <= |s|
  {
    if s == [] then 0 else (if p(s[0]) then 1 else 0) + CountWhere(s[1..], p)
  }

  /** A positive count means some element satisfies the condition, and back. */
  lemma {:induction false} CountWherePositive<T>(s: seq<T>, p: T -> bool)
    ensures CountWhere(s, p) > 0 <==> exists i :: 0 <= i < |s| && p(s[i])
  {
    if s != [] {
      CountWherePositive(s[1..], p);
      if !p(s[0]) && CountWhere(s[1..], p) == 0 {
        forall i | 0 <= i < |s| ensures !p(s[i]) {
          if i > 0 { assert s[i] == s[1..][i - 1]; }
        }
      }
      if CountWhere(s[1..], p) > 0 {
        var i :| 0 <= i < |s[1..]| && p(s[1..][i]);
        assert s[i + 1] == s[1..][i];
      }
    }
  }

  lemma {:induction false} CountWhereAppend<T>(s: seq<T>, x: T, p: T -> bool)
    ensures CountWhere(s + [x], p) == CountWhere(s, p) + (if p(x) then 1 else 0)
  {
    if s == [] {
      assert s + [x] == [x];
    } else {
      assert (s + [x])[1..] == s[1..] + [x];
      CountWhereAppend(s[1..], x, p);
    }
  }

  /** The elements of `s` that satisfy `p`, in their original order. */
  function Filter<T>(s: seq<T>, p: T -> bool): (r: seq<T>)
    ensures |r| == CountWhere(s, p)
    ensures forall x :: x in r ==> x in s && p(x)
    ensures forall x :: x in s && p(x) ==> x in r
  {
    if s == [] then [] else if p(s[0]) then [s[0]] + Filter(s[1..], p) else Filter(s[1..], p)
  }

  /** The positions `j >= i` of `s` whose element satisfies `p`, in increasing order. */
  function PositionsFrom<T>(s: seq<T>, p: T -> bool, i: nat): seq<nat>
    decreases |s| - i
  {
    if i >= |s| then [] else (if p(s[i]) then [i] else []) + PositionsFrom(s, p, i + 1)
  }

  /** Where each element of `Filter(s, p)` came from. */
  function FilterPositions<T>(s: seq<T>, p: T -> bool): seq<nat> {
    PositionsFrom(s, p, 0)
  }

  lemma {:induction false} PositionsFromCorrect<T>(s: seq<T>, p: T -> bool, i: nat)
    requires i <= |s|
    ensures var ix := PositionsFrom(s, p, i);
      var f := Filter(s[i..], p);
      && |ix| == |f|
      && (forall k :: 0 <= k < |ix| ==> i <= ix[k] < |s| && f[k] == s[ix[k]])
      && (forall k, l :: 0 <= k < l < |ix| ==> ix[k] < ix[l])
    decreases |s| - i
  {
    if i < |s| {
      PositionsFromCorrect(s, p, i + 1);
      var rest := PositionsFrom(s, p, i + 1);
      var f := Filter(s[i + 1..], p);
      assert s[i..][1..] == s[i + 1..];
      assert s[i..][0] == s[i];
      if p(s[i]) {
        assert PositionsFrom(s, p, i) == [i] + rest;
        assert Filter(s[i..], p) == [s[i]] + f;
        forall k | 1 <= k < |rest| + 1
          ensures ([i] + rest)[k] == rest[k - 1] && ([s[i]] + f)[k] == f[k - 1]
        {
        }
      } else {
        assert PositionsFrom(s, p, i) == rest;
        assert Filter(s[i..], p) == f;
      }
    }
  }

  /** The filtered sequence is an order-preserving subsequence of the input: its k-th element
      is the input's element at the k-th position, and the positions increase strictly. */
  lemma FilterPositionsCorrect<T>(s: seq<T>, p: T -> bool)
    ensures var ix := FilterPositions(s, p);
      && |ix| == |Filter(s, p)|
      && (forall k :: 0 <= k < |ix| ==> ix[k] < |s| && Filter(s, p)[k] == s[ix[k]])
      && (forall k, l :: 0 <= k < l < |ix| ==> ix[k] < ix[l])
  {
    PositionsFromCorrect(s, p, 0);
    assert s[0..] == s;
  }

  /** Filtering distributes over appending one element. */
  lemma {:induction false} FilterAppend<T>(s: seq<T>, x: T, p: T -> bool)
    ensures Filter(s + [x], p) == Filter(s, p) + (if p(x) then [x] else [])
  {
    if s == [] {
      assert s + [x] == [x];
    } else {
      assert (s + [x])[1..] == s[1..] + [x];
      FilterAppend(s[1..], x, p);
    }
  }

  /** Sum of `f` over the elements of `s` (SQL `SUM`, `Array.reduce`). */
  function SumOf<T>(s: seq<T>, f: T -> int): int {
    if s == [] then 0 else f(s[0]) + SumOf(s[1..], f)
  }

  lemma {:induction false} SumOfAppend<T>(s: seq<T>, t: seq<T>, f: T -> int)
    ensures SumOf(s + t, f) == SumOf(s, f) + SumOf(t, f)
  {
    if s == [] {
      assert s + t == t;
    } else {
      assert (s + t)[1..] == s[1..] + t;
      SumOfAppend(s[1..], t, f);
    }
  }

  /** Two term functions that agree on every element give the same sum. */
  lemma {:induction false} SumOfSameTerms<T>(s: seq<T>, f: T -> int, g: T -> int)
    requires forall x :: x in s ==> f(x) == g(x)
    ensures SumOf(s, f) == SumOf(s, g)
  {
    if s != [] {
      assert forall x :: x in s[1..] ==> x in s;
      SumOfSameTerms(s[1..], f, g);
    }
  }

  /** Replacing one element by another that the filter treats alike changes the filtered sum
      by the difference of the two values, or not at all when the filter drops them. */
  lemma {:induction false} SumFilterUpdate<T>(s: seq<T>, i: nat, x: T, p: T -> bool, f: T -> int)
    requires i < |s| && p(x) == p(s[i])
    ensures SumOf(Filter(s[i := x], p), f) == SumOf(Filter(s, p), f) + (if p(x) then f(x) - f(s[i]) else 0)
  {
    if i == 0 {
      assert s[i := x][1..] == s[1..];
    } else {
      assert s[i := x][1..] == s[1..][i - 1 := x];
      SumFilterUpdate(s[1..], i - 1, x, p, f);
    }
  }

  /** A sum of non-negative terms is non-negative. */
  lemma {:induction false} SumOfNonNegative<T>(s: seq<T>, f: T -> int)
    requires forall k :: 0 <= k < |s| ==> f(s[k]) >= 0
    ensures SumOf(s, f) >= 0
  {
    if s != [] {
      assert forall k :: 0 <= k < |s[1..]| ==> f(s[1..][k]) >= 0 by {
        forall k | 0 <= k < |s[1..]| ensures f(s[1..][k]) >= 0 { assert s[1..][k] == s[k + 1]; }
      }
      SumOfNonNegative(s[1..], f);
    }
  }

  function Abs(n: int): (r: nat)
    ensures r == n || r == -n
  {
    if n < 0 then -n else n
  }

  /** The sequence in reverse order (`ORDER BY created_at DESC` over an append-only table). */
  function Reverse<T>(s: seq<T>): (r: seq<T>)
    ensures |r| == |s|
    ensures forall k :: 0 <= k < |s| ==> r[k] == s[|s| - 1 - k]
  {
    if s == [] then [] else Reverse(s[1..]) + [s[0]]
  }

  function Min(a: int, b: int): int { if a <= b then a else b }
  function Max(a: int, b: int): int { if a >= b then a else b }

  // ---------------------------------------------------------------------------
  // Strings
  // ---------------------------------------------------------------------------

  /** JavaScript truthiness of a value that is a string or absent. */
  predicate Truthy(s: Option<string>) {
    s.Some? && s.value != []
  }

  /** The characters `String.prototype.trim` removes: the ECMAScript WhiteSpace set (tab,
      vertical tab, form feed, space, no-break space, the byte-order mark and every other space
      separator of category Zs) and the LineTerminator set (LF, CR, U+2028, U+2029). */
  predicate IsWhitespace(c: char) {
    c == '\t' || c == '\n' || c == '\U{000B}' || c == '\U{000C}' || c == '\r' || c == ' '
    || c == '\U{00A0}' || c == '\U{1680}' || ('\U{2000}' <= c <= '\U{200A}')
    || c == '\U{2028}' || c == '\U{2029}' || c == '\U{202F}' || c == '\U{205F}'
    || c == '\U{3000}' || c == '\U{FEFF}'
  }

  predicate AllWhitespace(s: string) {
    forall k :: 0 <= k < |s| ==> IsWhitespace(s[k])
  }

  /** Index of the first non-white-space character at or after `i`, or `|s|`. */
  function SkipFrom(s: string, i: nat): (j: nat)
    requires i <= |s|
    ensures i <= j <= |s|
    ensures forall k :: i <= k < j ==> IsWhitespace(s[k])
    ensures j < |s| ==> !IsWhitespace(s[j])
    decreases |s| - i
  {
    if i < |s| && IsWhitespace(s[i]) then SkipFrom(s, i + 1) else i
  }

  /** Index just past the last non-white-space character in `s[lo..j]`, or `lo`. */
  function BackFrom(s: string, lo: nat, j: nat): (e: nat)
    requires lo <= j <= |s|
    ensures lo <= e <= j
    ensures forall k :: e <= k < j ==> IsWhitespace(s[k])
    ensures e > lo ==> !IsWhitespace(s[e - 1])
    decreases j
  {
    if j > lo && IsWhitespace(s[j - 1]) then BackFrom(s, lo, j - 1) else j
  }

  /** How many leading white-space characters `Trim` drops. */
  function TrimOffset(s: string): nat {
    SkipFrom(s, 0)
  }

  /** `String.prototype.trim`: leading and trailing white space removed, nothing else. */
  function Trim(s: string): (r: string)
    ensures r == [] || (!IsWhitespace(r[0]) && !IsWhitespace(r[|r| - 1]))
    ensures TrimOffset(s) + |r| <= |s| && r == s[TrimOffset(s)..TrimOffset(s) + |r|]
    ensures AllWhitespace(s[..TrimOffset(s)]) && AllWhitespace(s[TrimOffset(s) + |r|..])
  {
    var i := SkipFrom(s, 0);
    var e := BackFrom(s, i, |s|);
    s[i..e]
  }

  /** A string trims to the empty string exactly when it is all white space. */
  lemma TrimEmptyIff(s: string)
    ensures Trim(s) == [] <==> AllWhitespace(s)
  {
    var r := Trim(s);
    var i := TrimOffset(s);
    assert r != [] ==> r[0] == s[i];
    assert forall k :: 0 <= k < i ==> s[k] == s[..i][k];
    assert forall k :: i + |r| <= k < |s| ==> s[k] == s[i + |r|..][k - i - |r|];
  }

  /** A string of nothing but the characters `trim` removes trims to nothing, whichever of them
      they are; the characters around a word are removed and the word is kept. */
  lemma {:induction false} TrimStripsUnicodeSpaces()
    ensures Trim("\U{3000}") == []
    ensures Trim("\U{2028}\U{1680}x\U{205F}") == "x"
  {
    TrimEmptyIff("\U{3000}");
    var s := "\U{2028}\U{1680}x\U{205F}";
    assert SkipFrom(s, 2) == 2;
    assert SkipFrom(s, 0) == 2;
    assert BackFrom(s, 2, 3) == 3;
    assert BackFrom(s, 2, 4) == 3;
  }

  /** `String.prototype.length`: the number of UTF-16 code units, two for a character outside
      the Basic Multilingual Plane. */
  function Utf16Length(s: string): (n: nat)
    ensures |s| <= n <= 2 * |s|
    ensures (forall k :: 0 <= k < |s| ==> s[k] as int <= 0xFFFF) ==> n == |s|
  {
    if s == [] then 0
    else
      assert forall k :: 1 <= k < |s| ==> s[1..][k - 1] == s[k];
      (if s[0] as int > 0xFFFF then 2 else 1) + Utf16Length(s[1..])
  }

  function LowerChar(c: char): char {
    if 'A' <= c <= 'Z' then (c as int + 32) as char else c
  }

  /** `toLowerCase` restricted to the ASCII letters. */
  function ToLower(s: string): (r: string)
    ensures |r| == |s|
    ensures forall k :: 0 <= k < |s| ==> r[k] == LowerChar(s[k])
  {
    if s == [] then [] else [LowerChar(s[0])] + ToLower(s[1..])
  }

  /** `s.includes(q)`: `q` occurs in `s` as a contiguous piece. */
  predicate Contains(s: string, q: string) {
    exists i :: 0 <= i <= |s| - |q| && OccursAt(s, q, i)
  }

  predicate OccursAt(s: string, q: string, i: int) {
    0 <= i <= |s| - |q| && s[i..i + |q|] == q
  }

  /** `parts.join(sep)`. */
  function Join(parts: seq<string>, sep: string): string {
    if parts == [] then [] else if |parts| == 1 then parts[0] else parts[0] + sep + Join(parts[1..], sep)
  }

  /** A join of pieces of which one is non-empty is itself non-empty. */
  lemma {:induction false} JoinNonEmpty(parts: seq<string>, sep: string, k: nat)
    requires k < |parts| && parts[k] != []
    ensures Join(parts, sep) != []
  {
    if |parts| > 1 && k > 0 {
      JoinNonEmpty(parts[1..], sep, k - 1);
    }
  }

  /** Decimal text of an integer (`CAST(amount AS CHAR)`, `String(n)`). */
  function IntToString(n: int): (r: string)
    ensures r != []
  {
    if n < 0 then "-" + NatToString(-n) else NatToString(n)
  }

  function NatToString(n: nat): (r: string)
    ensures r != []
    ensures forall k :: 0 <= k < |r| ==> '0' <= r[k] <= '9'
    decreases n
  {
    if n < 10 then [Digit(n)] else NatToString(n / 10) + [Digit(n % 10)]
  }

  function Digit(d: nat): char
    requires d < 10
  {
    "0123456789"[d]
  }
}
