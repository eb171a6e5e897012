/**
 * The JavaScript string primitives the synced-lyrics code relies on, written
 * out over `seq<char>`: the `\s` / `trim()` whitespace class, the `.` line
 * terminators, `split` on one character, `join`, `padStart` / `padEnd`,
 * `Number.prototype.toString` on integers and `parseInt` without a radix.
 */
module JsText {
  import opened Optional

  /** The characters `.` refuses to match in a regular expression without the `s` flag. */
  predicate IsLineTerminator(c: char) {
    c == '\n' || c == '\r' || c == '\U{2028}' || c == '\U{2029}'
  }

  /** The class `\s` matches and `trim()` removes: WhiteSpace and LineTerminator. */
  predicate IsWhitespace(c: char) {
    || IsLineTerminator(c)
    || c == '\t' || c == '\U{000B}' || c == '\U{000C}' || c == ' '
    || c == '\U{00A0}' || c == '\U{1680}' || ('\U{2000}' <= c <= '\U{200A}')
    || c == '\U{202F}' || c == '\U{205F}' || c == '\U{3000}' || c == '\U{FEFF}'
  }

  /** `\d`: the ASCII digits. */
  predicate IsDigit(c: char) {
    '0' <= c <= '9'
  }

  /** `\w`: ASCII letters, digits and the underscore. */
  predicate IsWordChar(c: char) {
    ('a' <= c <= 'z') || ('A' <= c <= 'Z') || IsDigit(c) || c == '_'
  }

  predicate AllWhitespace(s: string) {
    forall i :: 0 <= i < |s| ==> IsWhitespace(s[i])
  }

  predicate AllDigits(s: string) {
    forall i :: 0 <= i < |s| ==> IsDigit(s[i])
  }

  predicate AllWordChars(s: string) {
    forall i :: 0 <= i < |s| ==> IsWordChar(s[i])
  }

  predicate NoLineTerminator(s: string) {
    forall i :: 0 <= i < |s| ==> !IsLineTerminator(s[i])
  }

  /** `String.prototype.trimStart`. */
  function TrimStart(s: string): (r: string)
    ensures |r| <= |s| && r == s[|s| - |r|..]
    ensures forall k :: 0 <= k < |s| - |r| ==> IsWhitespace(s[k])
    ensures r == [] || !IsWhitespace(r[0])
  {
    if |s| > 0 && IsWhitespace(s[0]) then
      var r := TrimStart(s[1..]);
      assert forall k :: 1 <= k < |s| - |r| ==> s[k] == s[1..][k - 1];
      r
    else s
  }

  /** `String.prototype.trimEnd`. */
  function TrimEnd(s: string): (r: string)
    ensures |r| <= |s| && r == s[..|r|]
    ensures forall k :: |r| <= k < |s| ==> IsWhitespace(s[k])
    ensures r == [] || !IsWhitespace(r[|r| - 1])
  {
    if |s| > 0 && IsWhitespace(s[|s| - 1]) then
      var r := TrimEnd(s[..|s| - 1]);
      assert forall k :: |r| <= k < |s| - 1 ==> s[k] == s[..|s| - 1][k];
      r
    else s
  }

  /** `String.prototype.trim`: the result is the part of `s` left between two runs of whitespace. */
  function Trim(s: string): (r: string)
    ensures |r| <= |s|
    ensures r == [] || (!IsWhitespace(r[0]) && !IsWhitespace(r[|r| - 1]))
    ensures r == [] <==> AllWhitespace(s)
  {
    var t := TrimStart(s);
    TrimStartBlank(s);
    TrimEndBlank(t);
    TrimEndFirst(t);
    TrimEnd(t)
  }

  /** `trimEnd` keeps the first character of text that does not start with whitespace. */
  lemma TrimEndFirst(s: string)
    requires s == [] || !IsWhitespace(s[0])
    ensures TrimEnd(s) == [] || !IsWhitespace(TrimEnd(s)[0])
  {
    var r := TrimEnd(s);
    if r != [] {
      assert r[0] == s[0];
    }
  }

  lemma TrimStartBlank(s: string)
    ensures TrimStart(s) == [] <==> AllWhitespace(s)
  {
    var r := TrimStart(s);
    if r != [] {
      assert s[|s| - |r|] == r[0];
    }
  }

  lemma TrimEndBlank(s: string)
    ensures TrimEnd(s) == [] <==> AllWhitespace(s)
  {
    var r := TrimEnd(s);
    if r != [] {
      assert s[|r| - 1] == r[|r| - 1];
    }
  }

  /** Where `trim()` cuts: `Trim(s)` is `s[a..a + |Trim(s)|]` with only whitespace around it. */
  lemma TrimSpan(s: string) returns (a: nat)
    ensures a + |Trim(s)| <= |s| && Trim(s) == s[a..a + |Trim(s)|]
    ensures forall k :: 0 <= k < a ==> IsWhitespace(s[k])
    ensures forall k :: a + |Trim(s)| <= k < |s| ==> IsWhitespace(s[k])
  {
    var t := TrimStart(s);
    a := |s| - |t|;
    assert t == s[a..];
    assert Trim(s) == TrimEnd(s[a..]);
    TrimEndSpan(s, a);
  }

  /** `trimEnd` of the suffix of `s` from `a` is a slice of `s` followed only by whitespace. */
  lemma TrimEndSpan(s: string, a: nat)
    requires a <= |s|
    ensures var r := TrimEnd(s[a..]);
      && a + |r| <= |s| && r == s[a..a + |r|]
      && forall k :: a + |r| <= k < |s| ==> IsWhitespace(s[k])
  {
    var t := s[a..];
    var r := TrimEnd(t);
    assert r == t[..|r|];
    forall k | a + |r| <= k < |s| ensures IsWhitespace(s[k]) {
      assert s[k] == t[k - a];
    }
  }

  /** What the source calls an empty line: nothing left after `trim()` (see `Trim`). */
  predicate IsBlank(s: string) {
    AllWhitespace(s)
  }

  /** `s.trim().startsWith(c)`. */
  predicate TrimmedStartsWith(s: string, c: char) {
    var t := Trim(s);
    |t| > 0 && t[0] == c
  }

  /** `s.split(sep)` for a one-character separator. */
  function Split(s: string, sep: char): (parts: seq<string>)
    ensures |parts| >= 1
    ensures forall p :: p in parts ==> sep !in p
  {
    if |s| == 0 then [""]
    else
      var rest := Split(s[1..], sep);
      if s[0] == sep then [""] + rest
      else [[s[0]] + rest[0]] + rest[1..]
  }

  /** `parts.join(sep)`. */
  function Join(parts: seq<string>, sep: string): string {
    if |parts| == 0 then ""
    else if |parts| == 1 then parts[0]
    else parts[0] + sep + Join(parts[1..], sep)
  }

  /** Splitting and joining again gives the text back. */
  lemma {:induction false} JoinSplit(s: string, sep: char)
    ensures Join(Split(s, sep), [sep]) == s
  {
    if |s| > 0 {
      var rest := Split(s[1..], sep);
      JoinSplit(s[1..], sep);
      if s[0] == sep {
        assert Split(s, sep) == [""] + rest;
        assert Join(Split(s, sep), [sep]) == "" + [sep] + Join(rest, [sep]);
        assert s == [s[0]] + s[1..];
      } else {
        var parts := [[s[0]] + rest[0]] + rest[1..];
        assert Split(s, sep) == parts;
        if |rest| == 1 {
          assert Join(parts, [sep]) == [s[0]] + rest[0];
          assert s == [s[0]] + s[1..];
        } else {
          assert parts[1..] == rest[1..];
          assert Join(rest, [sep]) == rest[0] + [sep] + Join(rest[1..], [sep]);
          assert s == [s[0]] + s[1..];
        }
      }
    }
  }

  /** Joining pieces that do not contain the separator and splitting again gives the pieces back. */
  lemma {:induction false} SplitJoin(parts: seq<string>, sep: char)
    requires |parts| >= 1
    requires forall p :: p in parts ==> sep !in p
    ensures Split(Join(parts, [sep]), sep) == parts
    decreases |parts|, |parts[0]|
  {
    var p := parts[0];
    if |p| > 0 {
      var parts' := [p[1..]] + parts[1..];
      ShorterHeadAvoids(parts, sep);
      SplitJoin(parts', sep);
      assert [p[0]] + p[1..] == p;
      assert parts == [[p[0]] + p[1..]] + parts[1..];
      JoinShorterHead(p[0], p[1..], parts[1..], sep);
      assert p[0] != sep by { assert p[0] in p; }
      SplitCons(p[0], Join(parts', [sep]), sep);
      assert [[p[0]] + parts'[0]] + parts'[1..] == parts;
    } else if |parts| > 1 {
      var j := Join(parts, [sep]);
      SplitJoin(parts[1..], sep);
      assert j == [sep] + Join(parts[1..], [sep]);
      assert j[1..] == Join(parts[1..], [sep]);
      assert [""] + parts[1..] == parts;
    }
  }

  /** Dropping the first character of the first piece keeps every piece free of the separator. */
  lemma ShorterHeadAvoids(parts: seq<string>, sep: char)
    requires |parts| >= 1 && |parts[0]| > 0
    requires forall p :: p in parts ==> sep !in p
    ensures forall q :: q in [parts[0][1..]] + parts[1..] ==> sep !in q
  {
    var p := parts[0];
    forall q | q in [p[1..]] + parts[1..] ensures sep !in q {
      if q == p[1..] {
        assert sep !in p;
        forall k | 0 <= k < |q| ensures q[k] != sep {
          assert q[k] == p[k + 1];
        }
      } else {
        assert q in parts;
      }
    }
  }

  /** The join starts with the first character of the first piece, then joins the rest as before. */
  lemma JoinShorterHead(c: char, tail: string, rest: seq<string>, sep: char)
    ensures Join([[c] + tail] + rest, [sep]) == [c] + Join([tail] + rest, [sep])
  {
    if rest != [] {
      var j := Join(rest, [sep]);
      assert ([[c] + tail] + rest)[1..] == rest;
      assert ([tail] + rest)[1..] == rest;
      assert [c] + tail + [sep] + j == [c] + (tail + [sep] + j);
    }
  }

  /** A character other than the separator joins the first piece of the split that follows it. */
  lemma SplitCons(c: char, t: string, sep: char)
    requires c != sep
    ensures Split([c] + t, sep) == [[c] + Split(t, sep)[0]] + Split(t, sep)[1..]
  {
    assert ([c] + t)[1..] == t;
  }

  /** Value of the ASCII digit `c`. */
  function DigitValue(c: char): nat
    requires IsDigit(c)
  {
    c as int - '0' as int
  }

  /** `parseInt` of a string made only of decimal digits. */
  function DigitsValue(s: string): nat
    requires AllDigits(s)
  {
    if s == [] then 0 else DigitsValue(s[..|s| - 1]) * 10 + DigitValue(s[|s| - 1])
  }

  /** A string of `n` copies of `c`. */
  function Repeat(c: char, n: nat): (r: string)
    ensures |r| == n && forall i :: 0 <= i < n ==> r[i] == c
  {
    if n == 0 then "" else [c] + Repeat(c, n - 1)
  }

  /** `s.padStart(n, c)`. */
  function PadStart(s: string, n: nat, c: char): (r: string)
    ensures |r| == if |s| >= n then |s| else n
    ensures r[|r| - |s|..] == s
    ensures forall i :: 0 <= i < |r| - |s| ==> r[i] == c
  {
    if |s| >= n then s else Repeat(c, n - |s|) + s
  }

  /** `s.padEnd(n, c)`. */
  function PadEnd(s: string, n: nat, c: char): (r: string)
    ensures |r| == if |s| >= n then |s| else n
    ensures r[..|s|] == s
    ensures forall i :: |s| <= i < |r| ==> r[i] == c
  {
    if |s| >= n then s else s + Repeat(c, n - |s|)
  }

  function DigitChar(d: nat): (c: char)
    requires d < 10
    ensures IsDigit(c) && DigitValue(c) == d
  {
    ('0' as int + d) as char
  }

  /** `n.toString()` for a natural number. */
  function NatToString(n: nat): (s: string)
    ensures |s| >= 1 && AllDigits(s) && DigitsValue(s) == n
    ensures s[0] == '0' ==> n == 0 && |s| == 1
  {
    if n < 10 then [DigitChar(n)]
    else
      var s := NatToString(n / 10) + [DigitChar(n % 10)];
      assert s[..|s| - 1] == NatToString(n / 10);
      s
  }

  /** `n.toString()` for an integer. */
  function IntToString(n: int): string {
    if n < 0 then "-" + NatToString(-n) else NatToString(n)
  }

  /** Left-padding digits with zeros does not change their value. */
  lemma {:induction false} ZeroPaddedValue(s: string, n: nat)
    requires AllDigits(s)
    ensures AllDigits(PadStart(s, n, '0'))
    ensures DigitsValue(PadStart(s, n, '0')) == DigitsValue(s)
    decreases n
  {
    if |s| < n {
      var r := PadStart(s, n, '0');
      assert r == ['0'] + PadStart(s, n - 1, '0') by {
        assert Repeat('0', n - |s|) == ['0'] + Repeat('0', n - 1 - |s|);
      }
      ZeroPaddedValue(s, n - 1);
      LeadingZeroValue(PadStart(s, n - 1, '0'));
    }
  }

  /** A leading zero does not change the value of a digit string. */
  lemma {:induction false} LeadingZeroValue(s: string)
    requires AllDigits(s)
    ensures AllDigits(['0'] + s) && DigitsValue(['0'] + s) == DigitsValue(s)
    decreases |s|
  {
    var t := ['0'] + s;
    if s != [] {
      assert t[..|t| - 1] == ['0'] + s[..|s| - 1];
      LeadingZeroValue(s[..|s| - 1]);
    }
  }

  /** Length of the run of characters satisfying `p` at the start of `s`. */
  function RunLength(s: string, p: char -> bool): (n: nat)
    ensures n <= |s|
    ensures forall i :: 0 <= i < n ==> p(s[i])
    ensures n == |s| || !p(s[n])
  {
    if |s| > 0 && p(s[0]) then 1 + RunLength(s[1..], p) else 0
  }

  predicate IsHexDigit(c: char) {
    IsDigit(c) || ('a' <= c <= 'f') || ('A' <= c <= 'F')
  }

  function HexDigitValue(c: char): nat
    requires IsHexDigit(c)
  {
    if IsDigit(c) then DigitValue(c)
    else if 'a' <= c <= 'f' then c as int - 'a' as int + 10
    else c as int - 'A' as int + 10
  }

  function HexDigitsValue(s: string): nat
    requires forall i :: 0 <= i < |s| ==> IsHexDigit(s[i])
  {
    if s == [] then 0 else HexDigitsValue(s[..|s| - 1]) * 16 + HexDigitValue(s[|s| - 1])
  }

  /**
   * `parseInt(s)` with no radix: leading whitespace is skipped, an optional
   * sign is read, a `0x`/`0X` prefix selects base 16, and the longest run of
   * digits of that base is converted; `None` stands for `NaN` (no digit at all).
   */
  function ParseInt(s: string): Option<int> {
    SignedValue(TrimStart(s))
  }

  /** `parseInt` after the leading whitespace: an optional sign, then the magnitude. */
  function SignedValue(t: string): Option<int> {
    var negative := |t| > 0 && t[0] == '-';
    var u := if |t| > 0 && (t[0] == '-' || t[0] == '+') then t[1..] else t;
    match Magnitude(u)
    case None => None
    case Some(m) => var v: int := if negative then -(m as int) else m; Some(v)
  }

  /** The unsigned part of `parseInt`: a hexadecimal or a decimal run of digits. */
  function Magnitude(u: string): Option<nat> {
    if |u| >= 2 && u[0] == '0' && (u[1] == 'x' || u[1] == 'X') then
      var h := u[2..];
      var n := RunLength(h, IsHexDigit);
      if n == 0 then None else Some(HexDigitsValue(h[..n]))
    else
      var n := RunLength(u, IsDigit);
      if n == 0 then None else Some(DigitsValue(u[..n]))
  }

  lemma {:induction false} RunLengthAll(s: string, p: char -> bool)
    requires forall i :: 0 <= i < |s| ==> p(s[i])
    ensures RunLength(s, p) == |s|
  {
    if |s| > 0 {
      RunLengthAll(s[1..], p);
    }
  }

  /** Without leading whitespace, `parseInt` starts reading at the first character. */
  lemma ParseIntUntrimmed(s: string)
    requires |s| > 0 && !IsWhitespace(s[0])
    ensures ParseInt(s) == SignedValue(s)
  {
    assert TrimStart(s) == s;
  }

  /** A run of decimal digits is read whole (a digit in second place rules out the `0x` prefix). */
  lemma MagnitudeOfDecimal(d: string, v: nat)
    requires |d| >= 1 && AllDigits(d) && DigitsValue(d) == v
    ensures Magnitude(d) == Some(v)
  {
    assert |d| >= 2 ==> IsDigit(d[1]);
    RunLengthAll(d, IsDigit);
    assert d[..|d|] == d;
  }

  /** Digits at the start are read as a non-negative number. */
  lemma ParseIntDigits(t: string, m: nat)
    requires |t| > 0 && IsDigit(t[0]) && Magnitude(t) == Some(m)
    ensures ParseInt(t) == Some(m as int)
  {
    ParseIntUntrimmed(t);
  }

  /** `parseInt` of a non-empty run of decimal digits is their value. */
  lemma ParseIntOfDigits(d: string, v: nat)
    requires |d| >= 1 && AllDigits(d) && DigitsValue(d) == v
    ensures ParseInt(d) == Some(v as int)
  {
    MagnitudeOfDecimal(d, v);
    ParseIntDigits(d, v);
  }

  /** A leading minus sign negates the magnitude read after it. */
  lemma ParseIntMinus(t: string, m: nat)
    requires |t| > 0 && t[0] == '-' && Magnitude(t[1..]) == Some(m)
    ensures ParseInt(t) == Some(-(m as int))
  {
    ParseIntUntrimmed(t);
  }

  /** `parseInt` reads back what `toString` writes for every integer. */
  lemma ParseIntToString(n: int)
    ensures ParseInt(IntToString(n)) == Some(n)
  {
    if n < 0 {
      var d := NatToString(-n);
      MagnitudeOfDecimal(d, -n);
      assert ("-" + d)[0] == '-' && ("-" + d)[1..] == d;
      ParseIntMinus("-" + d, -n);
    } else {
      var d := NatToString(n);
      MagnitudeOfDecimal(d, n);
      ParseIntDigits(d, n);
    }
  }
}
