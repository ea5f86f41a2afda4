/**
  The string operations the scraper relies on, written out over `seq<char>`:
  `str.lower()`, the `in` substring test, `str.strip()` and JavaScript's
  `trim()`, `sep.join(parts)`, the prefix slice `s[:n]` and `str(n)`.
*/
module Text {

  // ---------------------------------------------------------------------------
  // Lower-casing (ASCII letters only)
  // ---------------------------------------------------------------------------

  predicate IsUpper(c: char) {
    'A' <= c <= 'Z'
  }

  function LowerChar(c: char): (r: char)
    ensures !IsUpper(r)
    ensures !IsUpper(c) ==> r == c
  {
    if IsUpper(c) then (c as int + 32) as char else c
  }

  /** `s.lower()` */
  function Lower(s: string): (r: string)
    ensures |r| == |s|
    ensures forall i :: 0 <= i < |s| ==> r[i] == LowerChar(s[i])
  {
    seq(|s|, i requires 0 <= i < |s| => LowerChar(s[i]))
  }

  /** No upper-case letter occurs in `s`. */
  predicate IsLowerCase(s: string) {
    forall i :: 0 <= i < |s| ==> !IsUpper(s[i])
  }

  lemma LowerIsLowerCase(s: string)
    ensures IsLowerCase(Lower(s))
  {
  }

  /** Lower-casing leaves a string without upper-case letters as it is. */
  lemma LowerOfLowerCase(s: string)
    requires IsLowerCase(s)
    ensures Lower(s) == s
  {
  }

  lemma LowerIdempotent(s: string)
    ensures Lower(Lower(s)) == Lower(s)
  {
    LowerIsLowerCase(s);
    LowerOfLowerCase(Lower(s));
  }

  // ---------------------------------------------------------------------------
  // Substring test: Python's `k in s`
  // ---------------------------------------------------------------------------

  /** `k` occurs in `s` starting at index `i`. */
  predicate OccursAt(s: string, k: string, i: int) {
    0 <= i <= |s| - |k| && s[i..i + |k|] == k
  }

  /** `k in s` */
  predicate Contains(s: string, k: string) {
    exists i | 0 <= i <= |s| - |k| :: OccursAt(s, k, i)
  }

  /** `any(k in s for k in ks)` */
  predicate ContainsAny(s: string, ks: seq<string>) {
    exists j | 0 <= j < |ks| :: Contains(s, ks[j])
  }

  /** A keyword with a character that `s` lacks does not occur in `s`. */
  lemma {:induction false} NotContainsMissingChar(s: string, k: string, c: char)
    requires c in k && c !in s
    ensures !Contains(s, k)
  {
  }

  /** No character of `s` is one of `bad`. */
  predicate Avoids(s: string, bad: set<char>) {
    forall i :: 0 <= i < |s| ==> s[i] !in bad
  }

  /**
    None of the keywords `ks` occurs in a text `s` that avoids the characters
    `bad`: character `at[j]` of keyword `j` is one of them.
  */
  lemma {:induction false} NoneContained(s: string, ks: seq<string>, at: seq<nat>, bad: set<char>)
    requires Avoids(s, bad) && |at| == |ks|
    requires forall j :: 0 <= j < |ks| ==> at[j] < |ks[j]| && ks[j][at[j]] in bad
    ensures !ContainsAny(s, ks)
  {
    forall j | 0 <= j < |ks| ensures !Contains(s, ks[j]) {
      NotContainsMissingChar(s, ks[j], ks[j][at[j]]);
    }
  }

  /** Lower-casing keeps every occurrence of a keyword that has no upper-case letter. */
  lemma {:induction false} LowerKeepsOccurrence(s: string, k: string, i: int)
    requires OccursAt(s, k, i) && IsLowerCase(k)
    ensures OccursAt(Lower(s), k, i)
  {
    forall j | 0 <= j < |k| ensures Lower(s)[i + j] == k[j] {
      assert s[i + j] == s[i..i + |k|][j];
      LowerOfLowerCase(k);
    }
    assert Lower(s)[i..i + |k|] == k;
  }

  /** An occurrence of `k` holds every piece of `k` at the matching offset. */
  lemma PieceOccurs(s: string, k: string, i: int, a: int, b: int)
    requires OccursAt(s, k, i) && 0 <= a <= b <= |k|
    ensures OccursAt(s, k[a..b], i + a)
  {
    forall j | 0 <= j < b - a ensures s[i + a + j] == k[a..b][j] {
      assert s[i + a + j] == s[i..i + |k|][a + j];
    }
    assert s[i + a..i + b] == k[a..b];
  }

  /** Appending text keeps every occurrence in the front part. */
  lemma OccursInFront(s: string, t: string, k: string, i: int)
    requires OccursAt(s, k, i)
    ensures OccursAt(s + t, k, i)
  {
    forall j | 0 <= j < |k| ensures (s + t)[i + j] == k[j] {
      assert s[i + j] == s[i..i + |k|][j];
    }
    assert (s + t)[i..i + |k|] == k;
  }

  // ---------------------------------------------------------------------------
  // Whitespace stripping: `s.strip()` / `s.trim()`
  // ---------------------------------------------------------------------------

  /** Whose white space is stripped: Python's `str.strip()` or JavaScript's `String.prototype.trim()`. */
  datatype Whitespace = PythonStrip | JsTrim

  /**
    The characters both languages strip: tab, line feed, vertical tab, form
    feed, carriage return, space, no-break space, the Unicode space
    separators, and the line and paragraph separators.
  */
  predicate IsCommonSpace(c: char) {
    ('\t' <= c <= '\r') || c == ' ' || c == '\U{A0}' || c == '\U{1680}' || ('\U{2000}' <= c <= '\U{200A}')
    || c == '\U{2028}' || c == '\U{2029}' || c == '\U{202F}' || c == '\U{205F}' || c == '\U{3000}'
  }

  /**
    White space for `ws`: Python also strips the four ASCII information
    separators and NEXT LINE; JavaScript also strips the byte-order mark.
  */
  predicate IsSpace(ws: Whitespace, c: char) {
    IsCommonSpace(c) ||
    match ws
    case PythonStrip => ('\U{1C}' <= c <= '\U{1F}') || c == '\U{85}'
    case JsTrim => c == '\U{FEFF}'
  }

  /** The number of white-space characters at the start of `s`. */
  function LeadingSpaces(ws: Whitespace, s: string): (n: nat)
    ensures n <= |s|
    ensures forall i :: 0 <= i < n ==> IsSpace(ws, s[i])
    ensures n < |s| ==> !IsSpace(ws, s[n])
  {
    if |s| > 0 && IsSpace(ws, s[0]) then 1 + LeadingSpaces(ws, s[1..]) else 0
  }

  /** The number of white-space characters at the end of `s`. */
  function TrailingSpaces(ws: Whitespace, s: string): (n: nat)
    ensures n <= |s|
    ensures forall i :: |s| - n <= i < |s| ==> IsSpace(ws, s[i])
    ensures n < |s| ==> !IsSpace(ws, s[|s| - n - 1])
  {
    if |s| > 0 && IsSpace(ws, s[|s| - 1]) then 1 + TrailingSpaces(ws, s[..|s| - 1]) else 0
  }

  /** `s.strip()` or `s.trim()`: `s` without its leading and trailing white space. */
  function Strip(ws: Whitespace, s: string): (r: string)
    ensures |r| <= |s|
    ensures r != [] ==> !IsSpace(ws, r[0]) && !IsSpace(ws, r[|r| - 1])
  {
    var t := s[LeadingSpaces(ws, s)..];
    t[..|t| - TrailingSpaces(ws, t)]
  }

  /** Stripping removes white space only: the result sits in `s` between two runs of white space. */
  lemma StripRemovesOnlySpace(ws: Whitespace, s: string)
    ensures var r := Strip(ws, s);
            exists i :: OccursAt(s, r, i)
              && (forall j :: 0 <= j < i ==> IsSpace(ws, s[j]))
              && (forall j :: i + |r| <= j < |s| ==> IsSpace(ws, s[j]))
  {
    var lead := LeadingSpaces(ws, s);
    var t := s[lead..];
    var r := Strip(ws, s);
    assert s[lead..lead + |r|] == r && OccursAt(s, r, lead);
    assert forall j :: lead + |r| <= j < |s| ==> s[j] == t[j - lead];
  }

  /** The two languages differ on the information separators: Python strips them, JavaScript keeps them. */
  lemma StripDiffersOnSeparators()
    ensures Strip(PythonStrip, "\U{1C}job") == "job"
    ensures Strip(JsTrim, "\U{1C}job") == "\U{1C}job"
  {
    var s := "\U{1C}job";
    assert LeadingSpaces(PythonStrip, s[1..]) == 0;
    assert LeadingSpaces(PythonStrip, s) == 1;
    assert s[1..] == "job";
    assert TrailingSpaces(PythonStrip, "job") == 0;
    assert LeadingSpaces(JsTrim, s) == 0;
    assert TrailingSpaces(JsTrim, s) == 0;
  }

  // ---------------------------------------------------------------------------
  // `sep.join(parts)` and the slice `s[:n]`
  // ---------------------------------------------------------------------------

  /** `sep.join(parts)` */
  function Join(sep: string, parts: seq<string>): (r: string)
  {
    if |parts| == 0 then ""
    else if |parts| == 1 then parts[0]
    else parts[0] + sep + Join(sep, parts[1..])
  }

  function Min(a: int, b: int): int {
    if a <= b then a else b
  }

  function Max(a: int, b: int): int {
    if a <= b then b else a
  }

  /**
    Python's prefix slice `s[:n]`: a non-negative `n` keeps the first `n`
    items (all of them when `n` exceeds the length); a negative `n` drops the
    last `-n` items.
  */
  function SliceTo<T>(s: seq<T>, n: int): (r: seq<T>)
    ensures |r| == if n >= 0 then Min(n, |s|) else Max(|s| + n, 0)
    ensures r == s[..|r|]
  {
    if n >= 0 then (if n <= |s| then s[..n] else s)
    else if |s| + n >= 0 then s[..|s| + n]
    else []
  }

  // ---------------------------------------------------------------------------
  // Decimal rendering of natural numbers
  // ---------------------------------------------------------------------------

  predicate IsDigit(c: char) {
    '0' <= c <= '9'
  }

  /** `str(n)` for a natural number: its decimal digits, most significant first. */
  function Decimal(n: nat): (s: string)
    ensures |s| >= 1
    ensures forall i :: 0 <= i < |s| ==> IsDigit(s[i])
  {
    if n < 10 then [('0' as int + n) as char]
    else Decimal(n / 10) + [('0' as int + n % 10) as char]
  }

  /** The number a string of decimal digits denotes. */
  function DecimalValue(s: string): nat
    requires forall i :: 0 <= i < |s| ==> IsDigit(s[i])
  {
    if s == [] then 0
    else
      assert IsDigit(s[|s| - 1]);
      DecimalValue(s[..|s| - 1]) * 10 + (s[|s| - 1] as int - '0' as int)
  }

  /** Reading the digits back gives the number. */
  lemma {:induction false} DecimalRoundTrip(n: nat)
    ensures DecimalValue(Decimal(n)) == n
  {
    var s := Decimal(n);
    if n >= 10 {
      DecimalRoundTrip(n / 10);
      assert s[..|s| - 1] == Decimal(n / 10);
    }
  }

  /** A number with five digits renders as five characters. */
  lemma FiveDigits(n: nat)
    requires 10000 <= n <= 99999
    ensures |Decimal(n)| == 5
  {
    var m1, m2, m3, m4 := n / 10, n / 100, n / 1000, n / 10000;
    assert m1 / 10 == m2 && m2 / 10 == m3 && m3 / 10 == m4;
    assert 1 <= m4 < 10 && 10 <= m3 && 100 <= m2 && 1000 <= m1;
    assert |Decimal(m4)| == 1;
    assert |Decimal(m3)| == 2;
    assert |Decimal(m2)| == 3;
    assert |Decimal(m1)| == 4;
  }
}
