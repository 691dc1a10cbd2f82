/**
  The few Python string operations the editor and the generator rely on:
  `sep.join(parts)`, `str.strip()`, `str.upper()` (ASCII letters only),
  `str.startswith(...)` and `str(n)` for a non-negative integer.
 */
module PyStr {

  /** Number of occurrences of the character `c` in `s` (Python's `s.count(c)`). */
  function Occurrences(s: string, c: char): nat {
    if |s| == 0 then 0 else (if s[0] == c then 1 else 0) + Occurrences(s[1..], c)
  }

  /** Counting distributes over concatenation. */
  lemma {:induction false} OccurrencesConcat(a: string, b: string, c: char)
    ensures Occurrences(a + b, c) == Occurrences(a, c) + Occurrences(b, c)
  {
    if |a| == 0 {
      assert a + b == b;
    } else {
      assert (a + b)[1..] == a[1..] + b;
      OccurrencesConcat(a[1..], b, c);
    }
  }

  /** Counting a five-piece concatenation piece by piece. */
  lemma {:induction false} OccurrencesOfFive(a: string, b: string, c: string, d: string, e: string, x: char)
    ensures Occurrences(a + b + c + d + e, x)
      == Occurrences(a, x) + Occurrences(b, x) + Occurrences(c, x) + Occurrences(d, x) + Occurrences(e, x)
  {
    OccurrencesConcat(a, b, x);
    OccurrencesConcat(a + b, c, x);
    OccurrencesConcat(a + b + c, d, x);
    OccurrencesConcat(a + b + c + d, e, x);
  }

  /** Counting a seven-piece concatenation piece by piece. */
  lemma {:induction false} OccurrencesOfSeven(a: string, b: string, c: string, d: string, e: string, f: string, g: string, x: char)
    ensures Occurrences(a + b + c + d + e + f + g, x)
      == Occurrences(a, x) + Occurrences(b, x) + Occurrences(c, x) + Occurrences(d, x)
       + Occurrences(e, x) + Occurrences(f, x) + Occurrences(g, x)
  {
    OccurrencesOfFive(a, b, c, d, e, x);
    OccurrencesConcat(a + b + c + d + e, f, x);
    OccurrencesConcat(a + b + c + d + e + f, g, x);
  }

  /** A character that does not occur is counted zero times. */
  lemma {:induction false} OccurrencesAbsent(a: string, c: char)
    requires c !in a
    ensures Occurrences(a, c) == 0
  {
    if |a| > 0 {
      OccurrencesAbsent(a[1..], c);
    }
  }

  /** Total number of occurrences of `c` in all the parts. */
  function SumOccurrences(parts: seq<string>, c: char): nat {
    if |parts| == 0 then 0
    else SumOccurrences(parts[..|parts| - 1], c) + Occurrences(parts[|parts| - 1], c)
  }

  /** Python's `sep.join(parts)`. */
  function Join(parts: seq<string>, sep: string): string {
    if |parts| == 0 then ""
    else if |parts| == 1 then parts[0]
    else Join(parts[..|parts| - 1], sep) + sep + parts[|parts| - 1]
  }

  /** Python's `[x] * n`. */
  function Repeat(x: string, n: nat): (r: seq<string>)
    ensures |r| == n && forall i | 0 <= i < n :: r[i] == x
  {
    if n == 0 then [] else Repeat(x, n - 1) + [x]
  }

  /** Where part `i` begins in `Join(parts, sep)`: the lengths of the parts before it, each followed by `sep`. */
  function Offset(parts: seq<string>, sep: string, i: nat): nat
    requires i <= |parts|
  {
    if i == 0 then 0 else Offset(parts, sep, i - 1) + |parts[i - 1]| + |sep|
  }

  /** A separator that does not contain `c` adds no occurrence of `c` to the join. */
  lemma {:induction false} JoinOccurrences(parts: seq<string>, sep: string, c: char)
    requires c !in sep
    ensures Occurrences(Join(parts, sep), c) == SumOccurrences(parts, c)
  {
    if |parts| <= 1 {
      if |parts| == 1 {
        assert parts[..0] == [];
      }
    } else {
      var init := parts[..|parts| - 1];
      JoinOccurrences(init, sep, c);
      OccurrencesAbsent(sep, c);
      OccurrencesConcat(Join(init, sep), sep, c);
      OccurrencesConcat(Join(init, sep) + sep, parts[|parts| - 1], c);
    }
  }

  /** The offsets of the parts that `Join` sees after dropping the last part are unchanged. */
  lemma {:induction false} OffsetOfPrefix(parts: seq<string>, sep: string, m: nat, i: nat)
    requires i <= m <= |parts|
    ensures Offset(parts[..m], sep, i) == Offset(parts, sep, i)
  {
    if i > 0 {
      OffsetOfPrefix(parts, sep, m, i - 1);
      assert parts[..m][i - 1] == parts[i - 1];
    }
  }

  /** The joined text ends where the last part ends. */
  lemma {:induction false} JoinLength(parts: seq<string>, sep: string)
    requires |parts| > 0
    ensures |Join(parts, sep)| == Offset(parts, sep, |parts| - 1) + |parts[|parts| - 1]|
  {
    if |parts| > 1 {
      var init := parts[..|parts| - 1];
      JoinLength(init, sep);
      OffsetOfPrefix(parts, sep, |parts| - 1, |parts| - 2);
    }
  }

  /**
    `Join` keeps every part, in order: part `i` is found at `Offset(parts, sep, i)`,
    and every part but the last is followed by the separator.
   */
  lemma {:induction false} JoinPlacesParts(parts: seq<string>, sep: string, i: nat)
    requires i < |parts|
    ensures Offset(parts, sep, i) + |parts[i]| <= |Join(parts, sep)|
    ensures Join(parts, sep)[Offset(parts, sep, i)..Offset(parts, sep, i) + |parts[i]|] == parts[i]
    ensures i + 1 < |parts| ==>
      Offset(parts, sep, i) + |parts[i]| + |sep| <= |Join(parts, sep)| &&
      Join(parts, sep)[Offset(parts, sep, i) + |parts[i]|..Offset(parts, sep, i) + |parts[i]| + |sep|] == sep
  {
    var n := |parts|;
    if n > 1 {
      var init := parts[..n - 1];
      var head := Join(init, sep);
      assert Join(parts, sep) == head + sep + parts[n - 1];
      JoinLength(init, sep);
      OffsetOfPrefix(parts, sep, n - 1, n - 2);
      if i < n - 1 {
        JoinPlacesParts(init, sep, i);
        OffsetOfPrefix(parts, sep, n - 1, i);
        if i + 1 < n - 1 {
          assert Offset(init, sep, i) + |init[i]| + |sep| <= |head|;
        } else {
          assert Offset(parts, sep, i) + |parts[i]| == |head|;
        }
      } else {
        assert Offset(parts, sep, i) == |head| + |sep|;
      }
    }
  }

  /** The characters Python's `str.isspace()` accepts, i.e. what `str.strip()` removes. */
  predicate IsSpace(c: char) {
    ('\t' <= c <= '\r') || ('\U{1C}' <= c <= ' ') || c == '\U{85}' || c == '\U{A0}' || c == '\U{1680}'
    || ('\U{2000}' <= c <= '\U{200A}') || c == '\U{2028}' || c == '\U{2029}' || c == '\U{202F}'
    || c == '\U{205F}' || c == '\U{3000}'
  }

  /** Length of the run of whitespace at the start of `s`. */
  function LeadingSpaces(s: string): (n: nat)
    ensures n <= |s|
    ensures forall i | 0 <= i < n :: IsSpace(s[i])
    ensures n < |s| ==> !IsSpace(s[n])
  {
    if |s| == 0 || !IsSpace(s[0]) then 0 else 1 + LeadingSpaces(s[1..])
  }

  /** Length of `s` once the run of whitespace at its end is removed. */
  function TrailingEnd(s: string): (n: nat)
    ensures n <= |s|
    ensures forall i | n <= i < |s| :: IsSpace(s[i])
    ensures n > 0 ==> !IsSpace(s[n - 1])
  {
    if |s| == 0 || !IsSpace(s[|s| - 1]) then |s| else TrailingEnd(s[..|s| - 1])
  }

  /** Python's `s.strip()`. */
  function Strip(s: string): (r: string)
    ensures r == "" <==> forall i | 0 <= i < |s| :: IsSpace(s[i])
    ensures r != "" ==> !IsSpace(r[0]) && !IsSpace(r[|r| - 1])
    ensures r != "" ==> r == s[LeadingSpaces(s)..TrailingEnd(s)]
  {
    var lo, hi := LeadingSpaces(s), TrailingEnd(s);
    if lo == |s| then "" else
      assert lo < hi by {
        assert !IsSpace(s[lo]);
      }
      s[lo..hi]
  }

  /** Python's `c.upper()` restricted to ASCII: other characters are left alone. */
  function AsciiUpperChar(c: char): (u: char)
    ensures 'a' <= c <= 'z' ==> u as int == c as int - 32
    ensures !('a' <= c <= 'z') ==> u == c
  {
    if 'a' <= c <= 'z' then (c as int - 32) as char else c
  }

  /** Python's `s.upper()` for ASCII letters. */
  function AsciiUpper(s: string): (r: string)
    ensures |r| == |s| && forall i | 0 <= i < |s| :: r[i] == AsciiUpperChar(s[i])
  {
    if |s| == 0 then "" else [AsciiUpperChar(s[0])] + AsciiUpper(s[1..])
  }

  /** Python's `s.startswith(prefix)`. */
  predicate StartsWith(s: string, prefix: string) {
    |prefix| <= |s| && s[..|prefix|] == prefix
  }

  /** The decimal digit for `d`. */
  function Digit(d: nat): (c: char)
    requires d < 10
    ensures '0' <= c <= '9' && c as int - '0' as int == d
  {
    ('0' as int + d) as char
  }

  /** Python's `str(n)` for a non-negative integer: its decimal digits, without leading zeros. */
  function DecimalString(n: nat): (s: string)
    ensures 1 <= |s|
    ensures forall i | 0 <= i < |s| :: '0' <= s[i] <= '9'
    ensures n >= 10 ==> |s| >= 2
    ensures |s| > 1 ==> s[0] != '0'
  {
    if n < 10 then [Digit(n)] else DecimalString(n / 10) + [Digit(n % 10)]
  }

  /** Different numbers print differently, so `str` is injective on naturals. */
  lemma {:induction false} DecimalStringInjective(a: nat, b: nat)
    requires DecimalString(a) == DecimalString(b)
    ensures a == b
  {
    var sa, sb := DecimalString(a), DecimalString(b);
    if a < 10 || b < 10 {
      assert |sa| == 1 && |sb| == 1;
      assert sa[0] == sb[0];
    } else {
      assert sa[..|sa| - 1] == DecimalString(a / 10);
      assert sb[..|sb| - 1] == DecimalString(b / 10);
      DecimalStringInjective(a / 10, b / 10);
      assert sa[|sa| - 1] == sb[|sb| - 1];
    }
  }
}
