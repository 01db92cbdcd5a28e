/**
 * The handful of Python `str` operations the validators rely on, with Python's
 * semantics: `sep.join`, `str.split(sep)`, `in`, `startswith`/`endswith`,
 * `strip`, `lower`/`upper`, `str(int)` and `int(str)`.
 */
module Text {
  import opened Wrappers

  /** `sep.join(parts)` */
  function Join(parts: seq<string>, sep: string): string
  {
    if |parts| == 0 then ""
    else if |parts| == 1 then parts[0]
    else parts[0] + sep + Join(parts[1..], sep)
  }

  /** `sub` occurs in `s` starting at index `i`. */
  predicate OccursAt(s: string, sub: string, i: nat)
  {
    i + |sub| <= |s| && s[i..i + |sub|] == sub
  }

  /** `s.find(sub, from)`, as an option: the first occurrence at or after `from`. */
  function IndexFrom(s: string, sub: string, from: nat): (r: Option<nat>)
    ensures r.Some? ==> from <= r.value && OccursAt(s, sub, r.value)
    ensures r.Some? ==> forall j :: from <= j < r.value ==> !OccursAt(s, sub, j)
    ensures r.None? ==> forall j :: from <= j ==> !OccursAt(s, sub, j)
    decreases |s| - from
  {
    if from + |sub| > |s| then None
    else if OccursAt(s, sub, from) then Some(from)
    else IndexFrom(s, sub, from + 1)
  }

  /** Python's `sub in s`. */
  predicate Contains(s: string, sub: string)
  {
    IndexFrom(s, sub, 0).Some?
  }

  predicate StartsWith(s: string, prefix: string)
  {
    |prefix| <= |s| && s[..|prefix|] == prefix
  }

  predicate EndsWith(s: string, suffix: string)
  {
    |suffix| <= |s| && s[|s| - |suffix|..] == suffix
  }

  /** `s.split(sep)` for a non-empty separator (Python raises `ValueError` on an empty one). */
  function Split(s: string, sep: string): (r: seq<string>)
    requires |sep| > 0
    ensures |r| >= 1
    decreases |s|
  {
    match IndexFrom(s, sep, 0)
    case None => [s]
    case Some(i) => [s[..i]] + Split(s[i + |sep|..], sep)
  }

  /** An occurrence of `sep` at `i` puts `sep[k]` at `i + k`. */
  lemma OccurrenceChar(s: string, sep: string, i: nat, k: nat)
    requires i + |sep| <= |s| && k < |sep|
    ensures OccursAt(s, sep, i) ==> s[i + k] == sep[k]
  {
    assert s[i..i + |sep|][k] == s[i + k];
  }

  /**
   * A string without the character `sep[k]`, where that character occurs in `sep`
   * only at position `k`, contains no occurrence of `sep`.
   */
  lemma NoOccurrence(s: string, sep: string, k: nat)
    requires k < |sep| && sep[k] !in s
    ensures IndexFrom(s, sep, 0).None?
  {
    forall j: nat | j + |sep| <= |s|
      ensures !OccursAt(s, sep, j)
    {
      OccurrenceChar(s, sep, j, k);
      assert s[j + k] in s;
    }
  }

  /**
   * In `a + sep + rest`, when `a` lacks the character `sep[k]` and that character
   * occurs in `sep` only at `k`, the first occurrence of `sep` is right after `a`.
   */
  lemma {:induction false} FirstOccurrenceAfter(a: string, sep: string, rest: string, k: nat)
    requires k < |sep| && sep[k] !in a
    requires forall j :: 0 <= j < |sep| && j != k ==> sep[j] != sep[k]
    ensures IndexFrom(a + sep + rest, sep, 0) == Some(|a|)
  {
    var s := a + sep + rest;
    assert s[|a|..|a| + |sep|] == sep;
    assert OccursAt(s, sep, |a|);
    forall j: nat | j < |a|
      ensures !OccursAt(s, sep, j)
    {
      OccurrenceChar(s, sep, j, k);
      if j + k < |a| {
        assert s[j + k] == a[j + k];
        assert a[j + k] in a;
      } else {
        assert s[j + k] == sep[j + k - |a|];
      }
    }
  }

  /**
   * Splitting a joined sequence gives the parts back when no part contains a
   * character that occurs exactly once in the separator.
   */
  lemma {:induction false} SplitJoin(parts: seq<string>, sep: string, k: nat)
    requires |parts| >= 1 && k < |sep|
    requires forall j :: 0 <= j < |sep| && j != k ==> sep[j] != sep[k]
    requires forall i :: 0 <= i < |parts| ==> sep[k] !in parts[i]
    ensures Split(Join(parts, sep), sep) == parts
    decreases |parts|
  {
    if |parts| == 1 {
      NoOccurrence(parts[0], sep, k);
    } else {
      var a, rest := parts[0], Join(parts[1..], sep);
      assert Join(parts, sep) == a + sep + rest;
      FirstOccurrenceAfter(a, sep, rest, k);
      var s := a + sep + rest;
      assert s[..|a|] == a;
      assert s[|a| + |sep|..] == rest;
      SplitJoin(parts[1..], sep, k);
      assert parts == [a] + parts[1..];
    }
  }

  /** `c in s` for a one-character `sub`: the substring test is the membership test. */
  lemma ContainsChar(s: string, c: char)
    ensures Contains(s, [c]) <==> c in s
  {
    if Contains(s, [c]) {
      var i := IndexFrom(s, [c], 0).value;
      assert s[i..i + 1][0] == s[i];
    }
    if c in s {
      var i :| 0 <= i < |s| && s[i] == c;
      assert s[i..i + 1] == [c];
      assert OccursAt(s, [c], i);
    }
  }

  /** `str(i)` is made of digits and at most a leading minus sign. */
  lemma IntToStringChars(i: int)
    ensures forall c :: c in IntToString(i) ==> c == '-' || IsDigit(c)
  {
  }

  /** The characters for which Python's `str.isspace()` holds. */
  predicate IsSpace(c: char)
  {
    || c == ' ' || c == '\t' || c == '\n' || c == '\r' || c == '\U{000B}' || c == '\U{000C}'
    || ('\U{001C}' <= c <= '\U{001F}') || c == '\U{0085}' || c == '\U{00A0}' || c == '\U{1680}'
    || ('\U{2000}' <= c <= '\U{200A}') || c == '\U{2028}' || c == '\U{2029}' || c == '\U{202F}'
    || c == '\U{205F}' || c == '\U{3000}'
  }

  /** Index of the first non-whitespace character of `s` at or after `i`, or `|s|`. */
  function SpanStart(s: string, i: nat): (r: nat)
    requires i <= |s|
    ensures i <= r <= |s|
    ensures forall j :: i <= j < r ==> IsSpace(s[j])
    ensures r < |s| ==> !IsSpace(s[r])
    decreases |s| - i
  {
    if i < |s| && IsSpace(s[i]) then SpanStart(s, i + 1) else i
  }

  /** End of `s[lo..hi]` once its trailing whitespace is cut away. */
  function SpanEnd(s: string, lo: nat, hi: nat): (r: nat)
    requires lo <= hi <= |s|
    ensures lo <= r <= hi
    ensures forall j :: r <= j < hi ==> IsSpace(s[j])
    ensures r > lo ==> !IsSpace(s[r - 1])
  {
    if hi > lo && IsSpace(s[hi - 1]) then SpanEnd(s, lo, hi - 1) else hi
  }

  /**
   * `s.strip()`: the part of `s` left once the leading and the trailing
   * whitespace are cut away; it neither starts nor ends with whitespace.
   */
  function Strip(s: string): (r: string)
    ensures var a := SpanStart(s, 0);
      && a + |r| <= |s| && r == s[a..a + |r|]
      && (forall j :: a + |r| <= j < |s| ==> IsSpace(s[j]))
    ensures |r| > 0 ==> !IsSpace(r[0]) && !IsSpace(r[|r| - 1])
  {
    var a := SpanStart(s, 0);
    s[a..SpanEnd(s, a, |s|)]
  }

  /** A string with no surrounding whitespace is its own `strip()`. */
  lemma StripNoSpace(s: string)
    requires |s| > 0 && !IsSpace(s[0]) && !IsSpace(s[|s| - 1])
    ensures Strip(s) == s
  {
  }

  function LowerChar(c: char): char
  {
    if 'A' <= c <= 'Z' then (c as int + 32) as char else c
  }

  function UpperChar(c: char): char
  {
    if 'a' <= c <= 'z' then (c as int - 32) as char else c
  }

  /** `s.lower()`, restricted to the ASCII letters. */
  function Lower(s: string): (r: string)
    ensures |r| == |s| && forall i :: 0 <= i < |s| ==> r[i] == LowerChar(s[i])
  {
    seq(|s|, i requires 0 <= i < |s| => LowerChar(s[i]))
  }

  /** `s.upper()`, restricted to the ASCII letters. */
  function Upper(s: string): (r: string)
    ensures |r| == |s| && forall i :: 0 <= i < |s| ==> r[i] == UpperChar(s[i])
  {
    seq(|s|, i requires 0 <= i < |s| => UpperChar(s[i]))
  }

  predicate IsDigit(c: char)
  {
    '0' <= c <= '9'
  }

  function DigitChar(d: nat): char
    requires d < 10
  {
    ('0' as int + d) as char
  }

  function DigitValue(c: char): nat
    requires IsDigit(c)
  {
    c as int - '0' as int
  }

  /** Decimal value of a string of digits. */
  function DigitsValue(ds: string): nat
    requires forall i :: 0 <= i < |ds| ==> IsDigit(ds[i])
  {
    if |ds| == 0 then 0 else DigitsValue(ds[..|ds| - 1]) * 10 + DigitValue(ds[|ds| - 1])
  }

  function NatToString(n: nat): (r: string)
    ensures |r| > 0 && forall i :: 0 <= i < |r| ==> IsDigit(r[i])
  {
    if n < 10 then [DigitChar(n)] else NatToString(n / 10) + [DigitChar(n % 10)]
  }

  /** `str(i)` for a Python `int`. */
  function IntToString(i: int): string
  {
    if i < 0 then "-" + NatToString(-i) else NatToString(i)
  }

  /**
   * The digit part accepted by `int(s)` in base 10: digits, optionally grouped
   * by single underscores, starting and ending with a digit.
   */
  predicate DigitBody(b: string)
  {
    && |b| > 0 && IsDigit(b[0]) && IsDigit(b[|b| - 1])
    && (forall i :: 0 <= i < |b| ==> IsDigit(b[i]) || b[i] == '_')
    && (forall i :: 0 <= i < |b| - 1 ==> !(b[i] == '_' && b[i + 1] == '_'))
  }

  function DropUnderscores(b: string): (r: string)
    ensures forall i :: 0 <= i < |r| ==> r[i] != '_' && r[i] in b
  {
    if |b| == 0 then ""
    else if b[0] == '_' then DropUnderscores(b[1..])
    else [b[0]] + DropUnderscores(b[1..])
  }

  /**
   * `int(s)` with base 10: surrounding whitespace is ignored, one optional sign,
   * then a digit body. `None` stands for the `ValueError` Python raises.
   */
  function ParseInt(s: string): (r: Option<int>)
    ensures r.Some? ==>
              var t := Strip(s);
              && |t| > 0 && (IsDigit(t[0]) || t[0] in "+-")
              && (exists i :: 0 <= i < |t| && IsDigit(t[i]))
              && forall i :: 0 < i < |t| ==> IsDigit(t[i]) || t[i] == '_'
    ensures r.Some? && r.value < 0 ==> |Strip(s)| > 0 && Strip(s)[0] == '-'
  {
    var t := Strip(s);
    if |t| == 0 then None
    else
      var negative := t[0] == '-';
      var body := if t[0] == '-' || t[0] == '+' then t[1..] else t;
      if !DigitBody(body) then None
      else
        var digits := DropUnderscores(body);
        assert forall i :: 0 <= i < |digits| ==> IsDigit(digits[i]);
        var magnitude: int := DigitsValue(digits);
        Some(if negative then -magnitude else magnitude)
  }

  lemma {:induction false} DigitsOfNat(n: nat)
    ensures DigitsValue(NatToString(n)) == n
    decreases n
  {
    if n >= 10 {
      var r := NatToString(n);
      assert r[..|r| - 1] == NatToString(n / 10);
      DigitsOfNat(n / 10);
    }
  }

  lemma DropUnderscoresOfDigits(ds: string)
    requires forall i :: 0 <= i < |ds| ==> IsDigit(ds[i])
    ensures DropUnderscores(ds) == ds
  {
    if |ds| > 0 {
      DropUnderscoresOfDigits(ds[1..]);
    }
  }

  /** `int(str(i)) == i`: the decimal rendering of an integer parses back to it. */
  lemma {:induction false} ParseIntToString(i: int)
    ensures ParseInt(IntToString(i)) == Some(i)
  {
    var m: nat := if i < 0 then -i else i;
    var digits := NatToString(m);
    var s := IntToString(i);
    StripNoSpace(s);
    var body := if s[0] == '-' || s[0] == '+' then s[1..] else s;
    assert body == digits by {
      if i < 0 {
        assert s == "-" + digits;
      } else {
        assert !(s[0] == '-' || s[0] == '+');
      }
    }
    assert DigitBody(body);
    DropUnderscoresOfDigits(digits);
    DigitsOfNat(m);
  }
}
