/** String operations the app relies on, written out on `seq<char>`:
    decimal rendering of a Kotlin `Long`/`Int` inside a string template,
    `String.startsWith`, `String.isBlank`, `String.contains(ignoreCase = true)`
    and `String.compareTo`. */
module Text {

  // ---------------------------------------------------------------------------
  // Decimal rendering ("${n}" in a Kotlin string template)
  // ---------------------------------------------------------------------------

  predicate IsDigit(c: char) {
    '0' <= c <= '9'
  }

  predicate AllDigits(s: string) {
    forall i :: 0 <= i < |s| ==> IsDigit(s[i])
  }

  function DigitChar(d: nat): (c: char)
    requires d < 10
    ensures IsDigit(c) && DigitValue(c) == d
  {
    ('0' as int + d) as char
  }

  function DigitValue(c: char): nat
    requires IsDigit(c)
  {
    c as int - '0' as int
  }

  /** The decimal digits of `n`, most significant first, with no leading zero. */
  function NatToDecimal(n: nat): (r: string)
    ensures |r| >= 1 && AllDigits(r)
    ensures |r| > 1 ==> r[0] != '0'
    decreases n
  {
    if n < 10 then [DigitChar(n)] else NatToDecimal(n / 10) + [DigitChar(n % 10)]
  }

  /** Reads a string of digits back as a number: the inverse of NatToDecimal. */
  function DecimalValue(s: string): nat
    requires AllDigits(s)
  {
    if s == [] then 0 else DecimalValue(s[..|s| - 1]) * 10 + DigitValue(s[|s| - 1])
  }

  lemma {:induction false} DecimalRoundTrip(n: nat)
    ensures DecimalValue(NatToDecimal(n)) == n
    decreases n
  {
    if n >= 10 {
      var s := NatToDecimal(n);
      assert s[..|s| - 1] == NatToDecimal(n / 10);
      DecimalRoundTrip(n / 10);
    }
  }

  /** `Long.toString()`: a minus sign for negative numbers, then the digits. */
  function IntToString(x: int): (r: string)
    ensures |r| >= 1
    ensures x < 0 <==> r[0] == '-'
    ensures forall i :: 0 < i < |r| ==> IsDigit(r[i])
  {
    if x < 0 then "-" + NatToDecimal(-x) else NatToDecimal(x)
  }

  /** Distinct numbers are rendered as distinct strings. */
  lemma IntToStringInjective(a: int, b: int)
    requires IntToString(a) == IntToString(b)
    ensures a == b
  {
    var r := IntToString(a);
    if a < 0 {
      assert b < 0;
      assert r[1..] == NatToDecimal(-a) && r[1..] == NatToDecimal(-b);
      NatToDecimalInjective(-a, -b);
    } else {
      assert b >= 0;
      NatToDecimalInjective(a, b);
    }
  }

  lemma NatToDecimalInjective(m: nat, n: nat)
    requires NatToDecimal(m) == NatToDecimal(n)
    ensures m == n
  {
    DecimalRoundTrip(m);
    DecimalRoundTrip(n);
  }

  // ---------------------------------------------------------------------------
  // Prefixes and separators
  // ---------------------------------------------------------------------------

  /** `String.startsWith(prefix)`. */
  predicate StartsWith(s: string, prefix: string) {
    |prefix| <= |s| && s[..|prefix|] == prefix
  }

  /** `s` has no occurrence of the character `sep`. */
  predicate Free(s: string, sep: char) {
    forall i :: 0 <= i < |s| ==> s[i] != sep
  }

  /** Index of the last `sep` in `s`, or -1 when there is none. */
  function LastIndexOf(s: string, sep: char): (r: int)
    ensures -1 <= r < |s|
    ensures r >= 0 ==> s[r] == sep && Free(s[r + 1..], sep)
    ensures r == -1 ==> Free(s, sep)
  {
    if s == [] then -1
    else if s[|s| - 1] == sep then |s| - 1
    else LastIndexOf(s[..|s| - 1], sep)
  }

  /** The separator written right before a separator-free suffix is the last one. */
  lemma {:induction false} LastIndexOfJoin(x: string, b: string, sep: char)
    requires Free(b, sep)
    ensures LastIndexOf(x + [sep] + b, sep) == |x|
    decreases |b|
  {
    var s := x + [sep] + b;
    if b != [] {
      assert s[..|s| - 1] == x + [sep] + b[..|b| - 1];
      LastIndexOfJoin(x, b[..|b| - 1], sep);
    }
  }

  /** Splitting at the last separator is unique: when the part after the
      separator cannot hold a separator, the prefix and the suffix are
      determined by the joined string. */
  lemma SplitAtLastSeparator(x1: string, b1: string, x2: string, b2: string, sep: char)
    requires Free(b1, sep) && Free(b2, sep)
    requires x1 + [sep] + b1 == x2 + [sep] + b2
    ensures x1 == x2 && b1 == b2
  {
    var s := x1 + [sep] + b1;
    LastIndexOfJoin(x1, b1, sep);
    LastIndexOfJoin(x2, b2, sep);
    assert x1 == s[..|x1|] == x2;
    assert b1 == s[|x1| + 1..] == b2;
  }

  // ---------------------------------------------------------------------------
  // Whitespace and case
  // ---------------------------------------------------------------------------

  /** Kotlin's `Char.isWhitespace()` on the JVM: Java's `Character.isWhitespace`
      or `Character.isSpaceChar`, written out as the characters they accept. */
  predicate IsWhitespace(c: char) {
    || c == '\t' || c == '\n' || c == '\U{B}' || c == '\U{C}' || c == '\r'
    || ('\U{1C}' <= c <= '\U{1F}')
    || c == ' ' || c == '\U{A0}' || c == '\U{1680}'
    || ('\U{2000}' <= c <= '\U{200A}')
    || c == '\U{2028}' || c == '\U{2029}' || c == '\U{202F}' || c == '\U{205F}' || c == '\U{3000}'
  }

  /** `String.isBlank()`: empty, or whitespace only. */
  predicate IsBlank(s: string) {
    forall i :: 0 <= i < |s| ==> IsWhitespace(s[i])
  }

  /** Case folding restricted to ASCII letters. */
  function LowerAscii(c: char): (r: char)
    ensures 'A' <= c <= 'Z' ==> r as int == c as int + 32
    ensures !('A' <= c <= 'Z') ==> r == c
  {
    if 'A' <= c <= 'Z' then (c as int + 32) as char else c
  }

  function LowerString(s: string): (r: string)
    ensures |r| == |s|
    ensures forall i :: 0 <= i < |s| ==> r[i] == LowerAscii(s[i])
  {
    seq(|s|, i requires 0 <= i < |s| => LowerAscii(s[i]))
  }

  /** `Char.equals(other, ignoreCase = true)` on the ASCII fold. */
  predicate CharEqualsIgnoreCase(a: char, b: char) {
    LowerAscii(a) == LowerAscii(b)
  }

  /** `q` occurs in `s` at position `i`, letters compared without case. */
  predicate MatchesAtIgnoreCase(s: string, q: string, i: nat)
    requires i + |q| <= |s|
  {
    forall k :: 0 <= k < |q| ==> CharEqualsIgnoreCase(s[i + k], q[k])
  }

  /** `s.contains(q, ignoreCase = true)`. */
  predicate ContainsIgnoreCase(s: string, q: string) {
    exists i :: 0 <= i <= |s| - |q| && MatchesAtIgnoreCase(s, q, i)
  }

  /** `q` occurs in `s` at position `i`, compared exactly. */
  predicate OccursAt(s: string, q: string, i: nat)
    requires i + |q| <= |s|
  {
    s[i..i + |q|] == q
  }

  /** Case-sensitive substring test on plain sequences. */
  predicate Contains(s: string, q: string) {
    exists i :: 0 <= i <= |s| - |q| && OccursAt(s, q, i)
  }

  /** Ignoring case means comparing the folded strings. */
  lemma ContainsIgnoreCaseIsFoldedContains(s: string, q: string)
    ensures ContainsIgnoreCase(s, q) <==> Contains(LowerString(s), LowerString(q))
  {
    var ls, lq := LowerString(s), LowerString(q);
    if ContainsIgnoreCase(s, q) {
      var i :| 0 <= i <= |s| - |q| && MatchesAtIgnoreCase(s, q, i);
      assert ls[i..i + |q|] == lq;
      assert OccursAt(ls, lq, i);
    }
    if Contains(ls, lq) {
      var i :| 0 <= i <= |ls| - |lq| && OccursAt(ls, lq, i);
      forall k | 0 <= k < |q|
        ensures CharEqualsIgnoreCase(s[i + k], q[k])
      {
        assert ls[i..i + |lq|][k] == lq[k];
      }
      assert MatchesAtIgnoreCase(s, q, i);
    }
  }

  // ---------------------------------------------------------------------------
  // Lexicographic order (String.compareTo)
  // ---------------------------------------------------------------------------

  /** A UTF-16 code unit: a JVM `Char`. */
  type CodeUnit = x: int | 0 <= x < 0x1_0000

  /** The UTF-16 encoding of one character: the character itself below
      U+10000, its surrogate pair above. */
  function CodeUnits(c: char): (r: seq<CodeUnit>)
    ensures c as int < 0x1_0000 <==> |r| == 1
    ensures |r| == 1 ==> r[0] == c as int
    ensures |r| == 2 ==> 0xD800 <= r[0] < 0xDC00 <= r[1] < 0xE000
    ensures |r| == 2 ==> (r[0] as int - 0xD800) * 0x400 + (r[1] as int - 0xDC00) + 0x1_0000 == c as int
  {
    if c as int < 0x1_0000 then [c as int]
    else
      var v := c as int - 0x1_0000;
      [0xD800 + v / 0x400, 0xDC00 + v % 0x400]
  }

  /** The JVM's representation of a string: its UTF-16 code units. */
  function Utf16(s: string): (r: seq<CodeUnit>)
    ensures |s| <= |r| <= 2 * |s|
  {
    if s == [] then [] else CodeUnits(s[0]) + Utf16(s[1..])
  }

  /** Code-unit sequences compared unit by unit; a proper prefix comes first. */
  predicate UnitsLe(a: seq<CodeUnit>, b: seq<CodeUnit>) {
    if a == [] then true
    else if b == [] then false
    else if a[0] != b[0] then a[0] < b[0]
    else UnitsLe(a[1..], b[1..])
  }

  /** `a.compareTo(b) <= 0`: the UTF-16 encodings compared code unit by code
      unit, so a character above U+FFFF sorts by its high surrogate. */
  predicate LexLe(a: string, b: string) {
    UnitsLe(Utf16(a), Utf16(b))
  }

  lemma {:induction false} UnitsLeTotal(a: seq<CodeUnit>, b: seq<CodeUnit>)
    ensures UnitsLe(a, b) || UnitsLe(b, a)
  {
    if a != [] && b != [] && a[0] == b[0] {
      UnitsLeTotal(a[1..], b[1..]);
    }
  }

  lemma {:induction false} UnitsLeTransitive(a: seq<CodeUnit>, b: seq<CodeUnit>, c: seq<CodeUnit>)
    requires UnitsLe(a, b) && UnitsLe(b, c)
    ensures UnitsLe(a, c)
  {
    if a != [] && b != [] && c != [] && a[0] == b[0] && b[0] == c[0] {
      UnitsLeTransitive(a[1..], b[1..], c[1..]);
    }
  }

  lemma LexLeTotal(a: string, b: string)
    ensures LexLe(a, b) || LexLe(b, a)
  {
    UnitsLeTotal(Utf16(a), Utf16(b));
  }

  lemma LexLeTransitive(a: string, b: string, c: string)
    requires LexLe(a, b) && LexLe(b, c)
    ensures LexLe(a, c)
  {
    UnitsLeTransitive(Utf16(a), Utf16(b), Utf16(c));
  }

  /** The order is not code-point order: U+1F600 (encoded D83D DE00) sorts
      before U+FF21 although its code point is larger. */
  lemma SurrogatesSortBeforeHighBmp()
    ensures LexLe("\U{1F600}", "\U{FF21}") && !LexLe("\U{FF21}", "\U{1F600}")
  {
    assert CodeUnits('\U{1F600}') == [0xD83D, 0xDE00];
    assert Utf16("\U{1F600}") == [0xD83D, 0xDE00];
    assert Utf16("\U{FF21}") == [0xFF21];
  }
}
