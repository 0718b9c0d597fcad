/**
 * The pieces of Python's string and path handling that the scripts rely on:
 * `str.isdigit`, `int(...)` and `str(int)` on decimal text, `str.strip`,
 * `str.lower`, `str.endswith` and `pathlib.PurePath.name` / `.suffix`.
 * Characters are modelled on their ASCII range (see README, "Left out").
 */
module Text {

  // ---------------------------------------------------------------------
  // Decimal digits
  // ---------------------------------------------------------------------

  predicate IsDigit(ch: char)
  {
    '0' <= ch <= '9'
  }

  predicate AllDigits(s: string)
  {
    forall k :: 0 <= k < |s| ==> IsDigit(s[k])
  }

  function DigitValue(ch: char): (d: nat)
    requires IsDigit(ch)
    ensures d < 10
  {
    (ch as int) - ('0' as int)
  }

  function DigitChar(d: nat): (ch: char)
    requires d < 10
    ensures IsDigit(ch) && DigitValue(ch) == d
  {
    (('0' as int) + d) as char
  }

  /** The number a non-empty run of decimal digits spells, read as Python's `int(digits)` reads it. */
  function DecimalValue(ds: string): nat
    requires AllDigits(ds)
  {
    if ds == [] then 0 else DecimalValue(ds[..|ds| - 1]) * 10 + DigitValue(ds[|ds| - 1])
  }

  /** Python's `str(n)` for a non-negative int: at least one digit and no leading zero. */
  function NatToDecimal(n: nat): (s: string)
    ensures |s| >= 1 && AllDigits(s)
    ensures s[0] == '0' ==> n == 0 && s == "0"
  {
    if n < 10 then [DigitChar(n)] else NatToDecimal(n / 10) + [DigitChar(n % 10)]
  }

  /** Python's `str(i)` for any int. */
  function IntToDecimal(i: int): (s: string)
    ensures i < 0 <==> (|s| > 0 && s[0] == '-')
  {
    if i < 0 then "-" + NatToDecimal(-i) else NatToDecimal(i)
  }

  /** Reading back the decimal text of `n` gives `n`. */
  lemma {:induction false} DecimalRoundTrip(n: nat)
    ensures DecimalValue(NatToDecimal(n)) == n
  {
    if n >= 10 {
      var s := NatToDecimal(n);
      assert s[..|s| - 1] == NatToDecimal(n / 10);
      DecimalRoundTrip(n / 10);
    }
  }

  // ---------------------------------------------------------------------
  // Whitespace and str.strip
  // ---------------------------------------------------------------------

  /** Python's `str.isspace` on ASCII: tab through carriage return, the four separators 0x1C-0x1F, and space. */
  predicate IsSpace(ch: char)
  {
    (9 <= ch as int <= 13) || (28 <= ch as int <= 32)
  }

  predicate Blank(s: string)
  {
    forall k :: 0 <= k < |s| ==> IsSpace(s[k])
  }

  /** How many whitespace characters `s` starts with. */
  function LeadingBlanks(s: string): (k: nat)
    ensures k <= |s| && Blank(s[..k])
    ensures k < |s| ==> !IsSpace(s[k])
  {
    if s != [] && IsSpace(s[0]) then
      var k := 1 + LeadingBlanks(s[1..]);
      assert s[..k] == [s[0]] + s[1..][..k - 1];
      k
    else 0
  }

  /** How many whitespace characters `s` ends with. */
  function TrailingBlanks(s: string): (k: nat)
    ensures k <= |s| && Blank(s[|s| - k..])
    ensures k < |s| ==> !IsSpace(s[|s| - k - 1])
  {
    if s != [] && IsSpace(s[|s| - 1]) then
      var k := 1 + TrailingBlanks(s[..|s| - 1]);
      assert s[|s| - k..] == s[..|s| - 1][|s| - k..] + [s[|s| - 1]];
      k
    else 0
  }

  /**
   * Python's `s.strip()`: `s` with its leading and trailing whitespace removed.
   * The result neither starts nor ends with whitespace; StripSlice shows it is
   * a slice of `s` with only whitespace cut away.
   */
  function Strip(s: string): (r: string)
    ensures |r| <= |s|
    ensures r == [] || (!IsSpace(r[0]) && !IsSpace(r[|r| - 1]))
  {
    var i := LeadingBlanks(s);
    var t := s[i..];
    var j := TrailingBlanks(t);
    t[..|t| - j]
  }

  /** The stripped text is a slice of `s`, and everything cut away is whitespace. */
  lemma StripSlice(s: string) returns (i: nat)
    ensures i + |Strip(s)| <= |s| && Strip(s) == s[i..i + |Strip(s)|]
    ensures Blank(s[..i]) && Blank(s[i + |Strip(s)|..])
  {
    i := LeadingBlanks(s);
    var t := s[i..];
    var j := TrailingBlanks(t);
    var r := t[..|t| - j];
    assert r == s[i..i + |r|];
    assert s[i + |r|..] == t[|t| - j..];
  }

  /** Stripping removes everything exactly when the text is whitespace only. */
  lemma StripEmptyIffBlank(s: string)
    ensures Strip(s) == [] <==> Blank(s)
  {
    var r := Strip(s);
    var i := StripSlice(s);
    if r == [] {
      forall k | 0 <= k < |s| ensures IsSpace(s[k]) {
        if k < i { assert s[..i][k] == s[k]; } else { assert s[i..][k - i] == s[k]; }
      }
    } else {
      assert s[i] == r[0];
    }
  }

  /** Stripping twice is stripping once. */
  lemma StripIdempotent(s: string)
    ensures Strip(Strip(s)) == Strip(s)
  {
    var r := Strip(s);
    if r != [] {
      assert LeadingBlanks(r) == 0 && r[0..] == r;
      assert TrailingBlanks(r) == 0 && r[..|r|] == r;
    }
  }

  // ---------------------------------------------------------------------
  // Case and affixes
  // ---------------------------------------------------------------------

  /** Python's `str.lower` on ASCII letters. */
  function LowerChar(ch: char): char
  {
    if 'A' <= ch <= 'Z' then ((ch as int) + 32) as char else ch
  }

  function Lower(s: string): (r: string)
    ensures |r| == |s|
    ensures forall k :: 0 <= k < |s| ==> r[k] == LowerChar(s[k])
  {
    seq(|s|, k requires 0 <= k < |s| => LowerChar(s[k]))
  }

  predicate EndsWith(s: string, suffix: string)
  {
    |suffix| <= |s| && s[|s| - |suffix|..] == suffix
  }

  // ---------------------------------------------------------------------
  // pathlib: name and suffix
  // ---------------------------------------------------------------------

  /** Python's `s.rfind(ch)`: the last index holding `ch`, or -1. */
  function RFind(s: string, ch: char): (i: int)
    ensures -1 <= i < |s|
    ensures i >= 0 ==> s[i] == ch
    ensures forall k :: i < k < |s| ==> s[k] != ch
  {
    if s == [] then -1
    else if s[|s| - 1] == ch then |s| - 1
    else RFind(s[..|s| - 1], ch)
  }

  /** `PurePath(path).name`: the text after the last separator. */
  function Name(path: string): (r: string)
    ensures '/' !in r && EndsWith(path, r)
    ensures |r| == |path| || path[|path| - |r| - 1] == '/'
  {
    path[RFind(path, '/') + 1..]
  }

  /**
   * `PurePath(name).suffix` for a final path component: from the last dot on,
   * provided that dot is neither the first nor the last character; otherwise "".
   */
  function Suffix(name: string): (r: string)
    ensures r == [] || (|r| >= 2 && r[0] == '.' && '.' !in r[1..] && |r| < |name| && EndsWith(name, r))
  {
    var i := RFind(name, '.');
    if 0 < i < |name| - 1 then name[i..] else []
  }

  /** The name ends, in any letter case, with `ext` and has at least one character before it. */
  predicate HasExtension(name: string, ext: string)
  {
    |name| > |ext| && Lower(name[|name| - |ext|..]) == ext
  }

  /**
   * For a dotted extension such as ".csv", the lower-cased suffix of a name is
   * that extension exactly when the lower-cased name ends with it and has at
   * least one character before it.
   */
  lemma {:induction false} ExtensionMatch(name: string, ext: string)
    requires |ext| >= 2 && ext[0] == '.' && '.' !in ext[1..]
    ensures Lower(Suffix(name)) == ext <==> HasExtension(name, ext)
  {
    var i := RFind(name, '.');
    var j := |name| - |ext|;
    if Lower(Suffix(name)) == ext {
      assert 0 < i < |name| - 1 && Suffix(name) == name[i..];
    }
    if |name| > |ext| && Lower(name[j..]) == ext {
      assert LowerChar(name[j]) == Lower(name[j..])[0];
      assert name[j] == '.';
      forall k | j < k < |name| ensures name[k] != '.' {
        assert LowerChar(name[k]) == Lower(name[j..])[k - j] == ext[k - j];
        assert ext[k - j] in ext[1..];
      }
      assert i == j;
    }
  }
}
