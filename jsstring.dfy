/** The string operations of the adapter: the `\s` class of JavaScript
    regular expressions, `replace(/\s/g, '')`, `split(',')`, the first-match
    `replace` with a string pattern, and the decimal rendering of integers
    done by `Number.prototype.toString`. */
module JsString {

  /** The characters `\s` matches in a JavaScript regular expression
      (WhiteSpace and LineTerminator of ECMAScript). */
  predicate IsWhitespace(c: char) {
    var k := c as int;
    k == 0x09 || k == 0x0A || k == 0x0B || k == 0x0C || k == 0x0D || k == 0x20 ||
    k == 0xA0 || k == 0x1680 || (0x2000 <= k <= 0x200A) || k == 0x2028 ||
    k == 0x2029 || k == 0x202F || k == 0x205F || k == 0x3000 || k == 0xFEFF
  }

  predicate NoWhitespace(s: string) {
    forall i :: 0 <= i < |s| ==> !IsWhitespace(s[i])
  }

  /** `s.replace(/\s/g, '')`: keeps the other characters, in order. */
  function RemoveWhitespace(s: string): (r: string)
    ensures NoWhitespace(r)
    ensures |r| <= |s|
    ensures NoWhitespace(s) ==> r == s
  {
    if s == [] then []
    else if IsWhitespace(s[0]) then RemoveWhitespace(s[1..])
    else [s[0]] + RemoveWhitespace(s[1..])
  }

  /** Exactly the characters of `s` that are not whitespace remain. */
  lemma {:induction false} RemoveWhitespaceChars(s: string)
    ensures forall c :: c in RemoveWhitespace(s) <==> c in s && !IsWhitespace(c)
    decreases |s|
  {
    if s != [] {
      RemoveWhitespaceChars(s[1..]);
      assert forall c :: c in s <==> c == s[0] || c in s[1..];
    }
  }

  /** Removing whitespace commutes with concatenation. */
  lemma {:induction false} RemoveWhitespaceAppend(a: string, b: string)
    ensures RemoveWhitespace(a + b) == RemoveWhitespace(a) + RemoveWhitespace(b)
    decreases |a|
  {
    if a != [] {
      var ab := a + b;
      assert ab[0] == a[0] && ab[1..] == a[1..] + b;
      RemoveWhitespaceAppend(a[1..], b);
      if IsWhitespace(a[0]) {
        assert RemoveWhitespace(ab) == RemoveWhitespace(a[1..] + b);
      } else {
        assert RemoveWhitespace(ab) == [a[0]] + RemoveWhitespace(a[1..] + b);
      }
    } else {
      assert a + b == b;
    }
  }

  /** `s.split(sep)` with a one-character separator: the maximal
      separator-free pieces between separators; the empty string gives [""]. */
  function Split(s: string, sep: char): (parts: seq<string>)
    ensures |parts| >= 1
    ensures forall i :: 0 <= i < |parts| ==> sep !in parts[i]
    ensures forall i, c :: 0 <= i < |parts| && c in parts[i] ==> c in s
    decreases |s|
  {
    if s == [] then [""]
    else
      var rest := Split(s[1..], sep);
      assert forall c :: c in s[1..] ==> c in s;
      if s[0] == sep then [""] + rest
      else [[s[0]] + rest[0]] + rest[1..]
  }

  /** `parts.join(sep)`, the inverse of Split. */
  function Join(parts: seq<string>, sep: char): string
    requires |parts| >= 1
  {
    if |parts| == 1 then parts[0] else parts[0] + [sep] + Join(parts[1..], sep)
  }

  /** Joining the pieces of a split gives back the string. */
  lemma {:induction false} JoinSplit(s: string, sep: char)
    ensures Join(Split(s, sep), sep) == s
    decreases |s|
  {
    if s != [] {
      var rest := Split(s[1..], sep);
      JoinSplit(s[1..], sep);
      if s[0] != sep {
        var parts := Split(s, sep);
        assert parts[0] == [s[0]] + rest[0];
        assert parts[1..] == rest[1..];
        if |rest| == 1 {
          assert s == [s[0]] + s[1..];
        } else {
          assert Join(rest, sep) == rest[0] + [sep] + Join(rest[1..], sep);
          assert s == [s[0]] + s[1..];
        }
      } else {
        assert s == [sep] + s[1..];
      }
    }
  }

  /** Splitting a piece that holds no separator, followed by a separator. */
  lemma {:induction false} SplitPrefix(p: string, sep: char, r: string)
    requires sep !in p
    ensures Split(p + [sep] + r, sep) == [p] + Split(r, sep)
    decreases |p|
  {
    if p == [] {
      assert p + [sep] + r == [sep] + r;
      assert ([sep] + r)[1..] == r;
    } else {
      var s := p + [sep] + r;
      assert s[0] == p[0] && s[1..] == p[1..] + [sep] + r;
      SplitPrefix(p[1..], sep, r);
      assert [p[0]] + p[1..] == p;
    }
  }

  /** A string without the separator splits into itself. */
  lemma {:induction false} SplitWhole(p: string, sep: char)
    requires sep !in p
    ensures Split(p, sep) == [p]
    decreases |p|
  {
    if p != [] {
      SplitWhole(p[1..], sep);
      assert [p[0]] + p[1..] == p;
    }
  }

  /** Splitting a join of separator-free pieces gives back the pieces. */
  lemma {:induction false} SplitJoin(parts: seq<string>, sep: char)
    requires |parts| >= 1
    requires forall i :: 0 <= i < |parts| ==> sep !in parts[i]
    ensures Split(Join(parts, sep), sep) == parts
    decreases |parts|
  {
    if |parts| == 1 {
      SplitWhole(parts[0], sep);
    } else {
      SplitJoin(parts[1..], sep);
      SplitPrefix(parts[0], sep, Join(parts[1..], sep));
      assert [parts[0]] + parts[1..] == parts;
    }
  }

  /** `pat` occurs in `s` at position `j`. */
  predicate OccursAt(s: string, pat: string, j: nat) {
    j + |pat| <= |s| && s[j..j + |pat|] == pat
  }

  /** `s.indexOf(pat)`: the first position at which `pat` occurs. */
  function IndexOf(s: string, pat: string): (r: Option<nat>)
    ensures r.Some? ==> OccursAt(s, pat, r.value)
    ensures r.Some? ==> forall j: nat :: j < r.value ==> !OccursAt(s, pat, j)
    ensures r.None? ==> forall j: nat :: !OccursAt(s, pat, j)
    decreases |s|
  {
    if |s| < |pat| then None
    else if s[..|pat|] == pat then Some(0)
    else match IndexOf(s[1..], pat)
      case None =>
        assert forall j: nat :: 0 < j ==> OccursAt(s, pat, j) == OccursAt(s[1..], pat, j - 1);
        None
      case Some(j) =>
        assert forall i: nat :: 0 < i ==> OccursAt(s, pat, i) == OccursAt(s[1..], pat, i - 1);
        Some(j + 1)
  }

  datatype Option<T> = None | Some(value: T)

  /** `s.replace(pat, rep)` with a string pattern: only the first occurrence
      is replaced. */
  function ReplaceFirst(s: string, pat: string, rep: string): string {
    match IndexOf(s, pat)
    case None => s
    case Some(i) => s[..i] + rep + s[i + |pat|..]
  }

  /** When `pat` first occurs at `i`, IndexOf finds exactly `i`. */
  lemma IndexOfFirst(s: string, pat: string, i: nat)
    requires OccursAt(s, pat, i)
    requires forall j: nat :: j < i ==> !OccursAt(s, pat, j)
    ensures IndexOf(s, pat) == Some(i)
  {
  }

  /** Replacing a leading pattern removes exactly that prefix. */
  lemma ReplaceFirstPrefix(p: string, r: string, rep: string)
    ensures ReplaceFirst(p + r, p, rep) == rep + r
  {
    var s := p + r;
    assert s[0..|p|] == p;
    IndexOfFirst(s, p, 0);
    assert s[|p|..] == r;
  }

  /** A pattern whose first character does not occur before it is found
      where it ends the string. */
  lemma ReplaceFirstSuffix(a: string, pat: string, rep: string)
    requires |pat| >= 1 && pat[0] !in a
    ensures ReplaceFirst(a + pat, pat, rep) == a + rep
  {
    var s := a + pat;
    assert s[|a|..|a| + |pat|] == pat;
    forall j: nat | j < |a| ensures !OccursAt(s, pat, j) {
      assert s[j] == a[j];
      if j + |pat| <= |s| {
        assert s[j..j + |pat|][0] == s[j];
      }
    }
    IndexOfFirst(s, pat, |a|);
    assert s[..|a|] == a && s[|a| + |pat|..] == [];
  }

  predicate IsDigit(c: char) {
    '0' <= c <= '9'
  }

  /** A decimal numeral as `Number.prototype.toString` writes an integer. */
  predicate IsNumeral(s: string) {
    if |s| > 0 && s[0] == '-' then IsDigits(s[1..]) else IsDigits(s)
  }

  predicate IsDigits(s: string) {
    |s| >= 1 && forall i :: 0 <= i < |s| ==> IsDigit(s[i])
  }

  /** Digits without a leading zero, except for the single digit "0". */
  predicate IsCanonicalDigits(s: string) {
    IsDigits(s) && (s[0] == '0' ==> s == "0")
  }

  /** The numeral `Number.prototype.toString` writes for an integer: no
      leading zeros and no "-0". */
  predicate IsCanonicalNumeral(s: string) {
    if |s| > 0 && s[0] == '-' then IsCanonicalDigits(s[1..]) && s[1..] != "0" else IsCanonicalDigits(s)
  }

  function DigitChar(d: nat): (c: char)
    requires d < 10
    ensures IsDigit(c) && (c as int) - ('0' as int) == d
  {
    (('0' as int) + d) as char
  }

  /** The decimal digits of a natural number, most significant first. */
  function NaturalToString(n: nat): (s: string)
    ensures IsCanonicalDigits(s)
    ensures s[0] == '0' <==> n == 0
    decreases n
  {
    if n < 10 then [DigitChar(n)] else NaturalToString(n / 10) + [DigitChar(n % 10)]
  }

  /** `n.toString()` for an integer n. */
  function NumberToString(n: int): (s: string)
    ensures IsNumeral(s) && IsCanonicalNumeral(s)
    ensures s[0] == '-' <==> n < 0
  {
    if n < 0 then
      var d := NaturalToString(-n);
      assert ("-" + d)[1..] == d;
      "-" + d
    else
      var d := NaturalToString(n);
      assert d[0] != '-';
      d
  }

  /** The value of a string of decimal digits. */
  function DigitsValue(s: string): nat
    requires IsDigits(s)
    decreases |s|
  {
    var last := (s[|s| - 1] as int) - ('0' as int);
    if |s| == 1 then last else DigitsValue(s[..|s| - 1]) * 10 + last
  }

  /** Reads back a numeral: the inverse of NumberToString. */
  function ParseNumeral(s: string): int
    requires IsNumeral(s)
  {
    if |s| > 0 && s[0] == '-' then -(DigitsValue(s[1..]) as int) else DigitsValue(s)
  }

  lemma {:induction false} NaturalToStringRoundTrip(n: nat)
    ensures DigitsValue(NaturalToString(n)) == n
    decreases n
  {
    if n >= 10 {
      NaturalToStringRoundTrip(n / 10);
      var s := NaturalToString(n);
      assert s[..|s| - 1] == NaturalToString(n / 10);
    }
  }

  /** Parsing the rendering of an integer gives back the integer. */
  lemma NumberToStringRoundTrip(n: int)
    ensures ParseNumeral(NumberToString(n)) == n
  {
    if n < 0 {
      NaturalToStringRoundTrip(-n);
      assert ("-" + NaturalToString(-n))[1..] == NaturalToString(-n);
    } else {
      NaturalToStringRoundTrip(n);
    }
  }

  /** A digit string that does not start with '0' has a positive value. */
  lemma {:induction false} LeadingDigitPositive(s: string)
    requires IsDigits(s) && s[0] != '0'
    ensures DigitsValue(s) >= 1
    decreases |s|
  {
    if |s| > 1 {
      LeadingDigitPositive(s[..|s| - 1]);
    }
  }

  /** A canonical digit string is the rendering of its value. */
  lemma {:induction false} CanonicalDigitsUnique(s: string)
    requires IsCanonicalDigits(s)
    ensures NaturalToString(DigitsValue(s)) == s
    decreases |s|
  {
    var last := (s[|s| - 1] as int) - ('0' as int);
    if |s| > 1 {
      var init := s[..|s| - 1];
      LeadingDigitPositive(init);
      CanonicalDigitsUnique(init);
      var v := DigitsValue(s);
      assert v / 10 == DigitsValue(init) && v % 10 == last;
      assert s == init + [DigitChar(last)];
    } else {
      assert s == [DigitChar(last)];
    }
  }

  /** `toString` writes exactly the canonical numerals: every canonical
      numeral is the rendering of the integer it denotes, so together with
      NumberToStringRoundTrip the rendering of n is the one canonical
      numeral of value n. */
  lemma CanonicalNumeralUnique(s: string)
    requires IsCanonicalNumeral(s)
    ensures IsNumeral(s) && NumberToString(ParseNumeral(s)) == s
  {
    if |s| > 0 && s[0] == '-' {
      var d := s[1..];
      CanonicalDigitsUnique(d);
      LeadingDigitPositive(d);
      assert s == "-" + d;
    } else {
      CanonicalDigitsUnique(s);
    }
  }
}
