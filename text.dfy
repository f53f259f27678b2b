/** The string operations of Python that the pipeline relies on: `str.strip()`,
    `str.lower()`, `str.endswith`, the zero-padded `:04d` format and `int()`
    applied to a line the user typed. Strings are sequences of Unicode scalar
    values, as Python's `str` is. */
module Text {
  import opened Wrappers

  /** Python's `str.isspace` for one character: the characters `str.strip()`
      removes. */
  predicate IsSpace(c: char) {
    || c == ' '
    || ('\t' <= c <= '\r')
    || ('\U{1C}' <= c <= '\U{1F}')
    || c == '\U{85}' || c == '\U{A0}' || c == '\U{1680}'
    || ('\U{2000}' <= c <= '\U{200A}')
    || c == '\U{2028}' || c == '\U{2029}'
    || c == '\U{202F}' || c == '\U{205F}' || c == '\U{3000}'
  }

  /** The whitespace `int()` skips around a number: that of `str.isspace`
      except the four separators U+001C..U+001F. `int()` turns non-ASCII
      whitespace into a space and leaves ASCII characters alone, and then
      skips only the space and `\t`..`\r`. */
  predicate IsIntSpace(c: char) {
    IsSpace(c) && !('\U{1C}' <= c <= '\U{1F}')
  }

  /** Where the text `Trim(s, ws)` keeps starts: the first position at or
      after `i` that is not in `ws`. */
  function FirstNonSpace(s: string, i: nat, ws: char -> bool): (k: nat)
    requires i <= |s|
    ensures i <= k <= |s|
    ensures k < |s| ==> !ws(s[k])
    decreases |s| - i
  {
    if i < |s| && ws(s[i]) then FirstNonSpace(s, i + 1, ws) else i
  }

  /** Where the text `Trim(s, ws)` keeps ends: going back from `j`, the first
      position after `lo` whose preceding character is not in `ws`. */
  function LastNonSpace(s: string, lo: nat, j: nat, ws: char -> bool): (k: nat)
    requires lo <= j <= |s|
    ensures lo <= k <= j
    ensures lo < k ==> !ws(s[k - 1])
  {
    if lo < j && ws(s[j - 1]) then LastNonSpace(s, lo, j - 1, ws) else j
  }

  /** Everything `FirstNonSpace` skips is in `ws`. */
  lemma {:induction false} FirstNonSpaceSkipsSpace(s: string, i: nat, ws: char -> bool)
    requires i <= |s|
    ensures forall m :: i <= m < FirstNonSpace(s, i, ws) ==> ws(s[m])
    decreases |s| - i
  {
    if i < |s| && ws(s[i]) {
      FirstNonSpaceSkipsSpace(s, i + 1, ws);
    }
  }

  /** Everything `LastNonSpace` skips is in `ws`. */
  lemma {:induction false} LastNonSpaceSkipsSpace(s: string, lo: nat, j: nat, ws: char -> bool)
    requires lo <= j <= |s|
    ensures forall m :: LastNonSpace(s, lo, j, ws) <= m < j ==> ws(s[m])
  {
    if lo < j && ws(s[j - 1]) {
      LastNonSpaceSkipsSpace(s, lo, j - 1, ws);
    }
  }

  /** The start of what `Trim(s, ws)` keeps. */
  function TrimStart(s: string, ws: char -> bool): nat {
    FirstNonSpace(s, 0, ws)
  }

  /** The end of what `Trim(s, ws)` keeps. */
  function TrimEnd(s: string, ws: char -> bool): (hi: nat)
    ensures TrimStart(s, ws) <= hi <= |s|
  {
    LastNonSpace(s, TrimStart(s, ws), |s|, ws)
  }

  /** `s` without the leading and trailing characters of the whitespace set
      `ws`. */
  function Trim(s: string, ws: char -> bool): (r: string)
    ensures |r| <= |s|
  {
    s[TrimStart(s, ws)..TrimEnd(s, ws)]
  }

  /** Python's `s.strip()`: `s` without leading and trailing whitespace. */
  function Strip(s: string): string {
    Trim(s, IsSpace)
  }

  /** What trimming cuts from either end is whitespace, and what it keeps
      neither starts nor ends with whitespace. */
  lemma TrimCutsSpace(s: string, ws: char -> bool)
    ensures forall m :: 0 <= m < TrimStart(s, ws) ==> ws(s[m])
    ensures forall m :: TrimEnd(s, ws) <= m < |s| ==> ws(s[m])
    ensures var r := Trim(s, ws); r == [] || (!ws(r[0]) && !ws(r[|r| - 1]))
  {
    FirstNonSpaceSkipsSpace(s, 0, ws);
    LastNonSpaceSkipsSpace(s, TrimStart(s, ws), |s|, ws);
    var lo, hi := TrimStart(s, ws), TrimEnd(s, ws);
    if lo < hi {
      assert Trim(s, ws)[0] == s[lo];
      assert Trim(s, ws)[hi - lo - 1] == s[hi - 1];
    }
  }

  /** Text that neither starts nor ends with whitespace is left as it is. */
  lemma TrimNoop(s: string, ws: char -> bool)
    requires s == [] || (!ws(s[0]) && !ws(s[|s| - 1]))
    ensures Trim(s, ws) == s
  {
    assert TrimStart(s, ws) == 0;
    assert s[0..|s|] == s;
  }

  /** Trimming twice gives nothing new. */
  lemma TrimIdempotent(s: string, ws: char -> bool)
    ensures Trim(Trim(s, ws), ws) == Trim(s, ws)
  {
    TrimCutsSpace(s, ws);
    TrimNoop(Trim(s, ws), ws);
  }

  /** Every character of `Trim(s, ws)` comes from `s`. */
  lemma TrimChars(s: string, ws: char -> bool, c: char)
    requires c in Trim(s, ws)
    ensures c in s
  {
    var r := Trim(s, ws);
    var k :| 0 <= k < |r| && r[k] == c;
    assert s[TrimStart(s, ws) + k] == c;
  }

  /** Skipping whitespace stops before a last character outside `ws`. */
  lemma {:induction false} FirstNonSpaceBeforeLast(s: string, i: nat, ws: char -> bool)
    requires i < |s| && !ws(s[|s| - 1])
    ensures FirstNonSpace(s, i, ws) < |s|
    decreases |s| - i
  {
    if ws(s[i]) {
      FirstNonSpaceBeforeLast(s, i + 1, ws);
    }
  }

  /** Going back from `j`, skipping whitespace stops after a first character
      outside `ws`. */
  lemma {:induction false} LastNonSpaceAfterFirst(s: string, lo: nat, j: nat, ws: char -> bool)
    requires lo < j <= |s| && !ws(s[lo])
    ensures lo < LastNonSpace(s, lo, j, ws)
  {
    if ws(s[j - 1]) {
      LastNonSpaceAfterFirst(s, lo, j - 1, ws);
    }
  }

  /** A first character outside `ws` stays the first character. */
  lemma TrimKeepsFirst(s: string, ws: char -> bool)
    requires s != [] && !ws(s[0])
    ensures Trim(s, ws) != [] && Trim(s, ws)[0] == s[0]
  {
    LastNonSpaceAfterFirst(s, 0, |s|, ws);
  }

  /** A last character outside `ws` stays the last character. */
  lemma TrimKeepsLast(s: string, ws: char -> bool)
    requires s != [] && !ws(s[|s| - 1])
    ensures Trim(s, ws) != [] && Trim(s, ws)[|Trim(s, ws)| - 1] == s[|s| - 1]
  {
    FirstNonSpaceBeforeLast(s, 0, ws);
  }

  /** Python's `str.lower()` on one character, for the ASCII letters. */
  function LowerChar(c: char): char {
    if 'A' <= c <= 'Z' then (c as int - 'A' as int + 'a' as int) as char else c
  }

  /** Python's `s.lower()`, lowering the ASCII letters only: no capital is
      left, a capital moves 32 code points up to its small letter, and every
      other character stays. */
  function Lower(s: string): (r: string)
    ensures |r| == |s|
    ensures forall i :: 0 <= i < |r| ==> !('A' <= r[i] <= 'Z')
    ensures forall i :: 0 <= i < |s| && 'A' <= s[i] <= 'Z' ==> r[i] as int == s[i] as int + 32
    ensures forall i :: 0 <= i < |s| && !('A' <= s[i] <= 'Z') ==> r[i] == s[i]
  {
    seq(|s|, i requires 0 <= i < |s| => LowerChar(s[i]))
  }

  /** Lowering twice is lowering once. */
  lemma LowerIdempotent(s: string)
    ensures Lower(Lower(s)) == Lower(s)
  {
  }

  /** A suffix without capitals ends the lower-case form of `s` exactly when
      `s` ends with it up to the case of its letters: each character of the
      end of `s` is the suffix's character or, for a small letter, its
      capital. */
  lemma LowerEndsWith(s: string, suffix: string)
    requires forall i :: 0 <= i < |suffix| ==> !('A' <= suffix[i] <= 'Z')
    ensures EndsWith(Lower(s), suffix) <==>
              && |suffix| <= |s|
              && forall i :: 0 <= i < |suffix| ==>
                   || s[|s| - |suffix| + i] == suffix[i]
                   || ('a' <= suffix[i] <= 'z' && s[|s| - |suffix| + i] as int == suffix[i] as int - 32)
  {
    if |suffix| <= |s| {
      var d := |s| - |suffix|;
      var t := Lower(s)[d..];
      forall i | 0 <= i < |suffix|
        ensures t[i] == suffix[i] <==>
                  || s[d + i] == suffix[i]
                  || ('a' <= suffix[i] <= 'z' && s[d + i] as int == suffix[i] as int - 32)
      {
        assert t[i] == Lower(s)[d + i];
      }
      if forall i :: 0 <= i < |suffix| ==> t[i] == suffix[i] {
        assert t == suffix;
      }
    }
  }

  /** The one-character strings whose lower-case form is `"q"`. */
  lemma LowerIsQ(s: string)
    ensures Lower(s) == "q" <==> s == "q" || s == "Q"
  {
    if Lower(s) == "q" {
      assert |s| == 1 && Lower(s)[0] == 'q';
      assert s == [s[0]];
    }
  }

  /** Python's `s.startswith(prefix)`. */
  predicate StartsWith(s: string, prefix: string) {
    |prefix| <= |s| && s[..|prefix|] == prefix
  }

  /** Python's `s.endswith(suffix)`. */
  predicate EndsWith(s: string, suffix: string) {
    |suffix| <= |s| && s[|s| - |suffix|..] == suffix
  }

  predicate IsDigit(c: char) {
    '0' <= c <= '9'
  }

  predicate AllDigits(s: string) {
    forall i :: 0 <= i < |s| ==> IsDigit(s[i])
  }

  function DigitValue(c: char): nat
    requires IsDigit(c)
  {
    c as int - '0' as int
  }

  function DigitChar(d: nat): (c: char)
    requires d < 10
    ensures IsDigit(c) && DigitValue(c) == d
  {
    ('0' as int + d) as char
  }

  /** The number a string of decimal digits denotes (0 for the empty string). */
  function DigitsValue(s: string): nat
    requires AllDigits(s)
  {
    if s == [] then 0 else 10 * DigitsValue(s[..|s| - 1]) + DigitValue(s[|s| - 1])
  }

  function Pow10(k: nat): (p: nat)
    ensures p >= 1
  {
    if k == 0 then 1 else 10 * Pow10(k - 1)
  }

  /** The decimal digits of `n` without leading zeros, as `str(n)` gives them. */
  function DecimalString(n: nat): (r: string)
    ensures r != [] && AllDigits(r)
  {
    if n < 10 then [DigitChar(n)] else DecimalString(n / 10) + [DigitChar(n % 10)]
  }

  /** Reading back the digits of `n` gives `n`. */
  lemma {:induction false} DecimalStringValue(n: nat)
    ensures DigitsValue(DecimalString(n)) == n
  {
    if n >= 10 {
      DecimalStringValue(n / 10);
      var s := DecimalString(n);
      assert s[..|s| - 1] == DecimalString(n / 10);
    }
  }

  /** A number below 10^k has at most k digits (and every number has one). */
  lemma {:induction false} DecimalStringLength(n: nat, k: nat)
    requires 1 <= k && n < Pow10(k)
    ensures |DecimalString(n)| <= k
  {
    if n >= 10 {
      assert Pow10(1) == 10;
      assert k >= 2;
      assert n / 10 < Pow10(k - 1);
      DecimalStringLength(n / 10, k - 1);
    }
  }

  function Zeros(k: nat): (r: string)
    ensures |r| == k && AllDigits(r)
  {
    seq(k, i => '0')
  }

  /** Leading zeros do not change the value of a digit string. */
  lemma {:induction false} LeadingZerosValue(k: nat, s: string)
    requires AllDigits(s)
    ensures AllDigits(Zeros(k) + s) && DigitsValue(Zeros(k) + s) == DigitsValue(s)
    decreases |s| + k
  {
    var z := Zeros(k) + s;
    if s == [] {
      if k > 0 {
        assert z[..|z| - 1] == Zeros(k - 1);
        LeadingZerosValue(k - 1, []);
        assert Zeros(k - 1) + [] == Zeros(k - 1);
      } else {
        assert z == [];
      }
    } else {
      assert z[..|z| - 1] == Zeros(k) + s[..|s| - 1];
      LeadingZerosValue(k, s[..|s| - 1]);
    }
  }

  /** Python's `f"{n:0{width}d}"` for `n >= 0`: the decimal digits of `n`,
      zero-padded on the left to at least `width` characters. */
  function ZeroPadded(n: nat, width: nat): (r: string)
    ensures AllDigits(r) && DigitsValue(r) == n
    ensures width <= |r|
    ensures 1 <= width && n < Pow10(width) ==> |r| == width
  {
    var d := DecimalString(n);
    DecimalStringValue(n);
    assert 1 <= width && n < Pow10(width) ==> |d| <= width by {
      if 1 <= width && n < Pow10(width) { DecimalStringLength(n, width); }
    }
    if |d| < width then LeadingZerosValue(width - |d|, d); Zeros(width - |d|) + d else d
  }

  /** Digits with single underscores allowed between them, the digit part
      Python's `int()` accepts in base 10: a digit, then any number of digits
      each optionally preceded by one `_` (Unicode decimal digits other than
      `0`-`9` are not modelled). */
  predicate IsDigitGroups(s: string) {
    s != [] && IsDigit(s[0]) && IsGroupsTail(s[1..])
  }

  /** What may follow a digit inside digit groups. */
  predicate IsGroupsTail(s: string)
    decreases |s|
  {
    if s == [] then true
    else if IsDigit(s[0]) then IsGroupsTail(s[1..])
    else s[0] == '_' && |s| >= 2 && IsDigit(s[1]) && IsGroupsTail(s[2..])
  }

  /** `s` with every `_` taken out. */
  function RemoveUnderscores(s: string): (r: string)
    ensures |r| <= |s|
  {
    if s == [] then [] else (if s[0] == '_' then [] else [s[0]]) + RemoveUnderscores(s[1..])
  }

  /** Digit groups without their underscores are plain digits. */
  lemma {:induction false} GroupsTailDigits(s: string)
    requires IsGroupsTail(s)
    ensures AllDigits(RemoveUnderscores(s))
    decreases |s|
  {
    if s != [] {
      if IsDigit(s[0]) {
        GroupsTailDigits(s[1..]);
      } else {
        assert s[1..][0] == s[1] && s[1..][1..] == s[2..];
        GroupsTailDigits(s[2..]);
      }
    }
  }

  /** Plain digits are digit groups and have no underscore to take out. */
  lemma {:induction false} DigitsAreGroupsTail(s: string)
    requires AllDigits(s)
    ensures IsGroupsTail(s) && RemoveUnderscores(s) == s
    decreases |s|
  {
    if s != [] {
      assert AllDigits(s[1..]);
      DigitsAreGroupsTail(s[1..]);
    }
  }

  /** The most digits `int()` converts: Python's default
      `sys.get_int_max_str_digits()`. A longer digit string raises
      `ValueError`, leading zeros included and underscores not counted. */
  const MaxStrDigits: nat := 4300

  /** Digit groups within the digit limit, read as a number. */
  function ParseUnsigned(s: string): Option<nat> {
    if IsDigitGroups(s) then
      GroupsTailDigits(s);
      var d := RemoveUnderscores(s);
      if |d| <= MaxStrDigits then Some(DigitsValue(d)) else None
    else None
  }

  /** Python's `int(text)`: whitespace around the number is ignored, then one
      optional sign, then digit groups of at most `MaxStrDigits` digits;
      anything else raises `ValueError` (`None`). */
  function ParseInt(text: string): (r: Option<int>) {
    ParseSigned(Trim(text, IsIntSpace))
  }

  /** `int()` of text without surrounding whitespace. */
  function ParseSigned(t: string): Option<int> {
    if t != [] && (t[0] == '+' || t[0] == '-') then
      match ParseUnsigned(t[1..])
      case Some(n) => Some(if t[0] == '-' then -(n as int) else n)
      case None => None
    else
      match ParseUnsigned(t)
      case Some(n) => Some(n)
      case None => None
  }

  /** A plain digit string parses to its value when it is within the digit
      limit, and raises `ValueError` when it is longer. */
  lemma {:induction false} ParseUnsignedDigits(d: string)
    requires d != [] && AllDigits(d)
    ensures ParseUnsigned(d) == if |d| <= MaxStrDigits then Some(DigitsValue(d)) else None
  {
    DigitsAreGroupsTail(d);
    assert RemoveUnderscores(d) == [d[0]] + RemoveUnderscores(d[1..]);
    DigitsAreGroupsTail(d[1..]);
    assert [d[0]] + d[1..] == d;
  }

  /** A line of plain digits reads as their value within the digit limit, and
      raises `ValueError` beyond it. */
  lemma {:induction false} ParseIntDigits(d: string)
    requires d != [] && AllDigits(d)
    ensures ParseInt(d) == if |d| <= MaxStrDigits then Some(DigitsValue(d)) else None
  {
    assert IsDigit(d[0]) && IsDigit(d[|d| - 1]);
    TrimNoop(d, IsIntSpace);
    ParseUnsignedDigits(d);
  }

  /** A minus sign and plain digits read as the negated value within the
      digit limit, and raise `ValueError` beyond it. */
  lemma {:induction false} ParseIntMinusDigits(d: string)
    requires d != [] && AllDigits(d)
    ensures |d| <= MaxStrDigits ==> ParseInt("-" + d) == Some(-(DigitsValue(d) as int))
    ensures |d| > MaxStrDigits ==> ParseInt("-" + d) == None
  {
    assert IsDigit(d[|d| - 1]);
    Negated(d);
    ParseUnsignedDigits(d);
  }

  /** `int(str(n)) == n`: the digits of a number parse back to it, unless
      there are more of them than the digit limit allows. */
  lemma {:induction false} ParseIntDecimal(n: nat)
    ensures ParseInt(DecimalString(n)) == if |DecimalString(n)| <= MaxStrDigits then Some(n) else None
  {
    ParseIntDigits(DecimalString(n));
    DecimalStringValue(n);
  }

  /** `int("-" + str(n)) == -n`, again within the digit limit. */
  lemma {:induction false} ParseIntNegative(n: nat)
    ensures ParseInt("-" + DecimalString(n)) ==
              if |DecimalString(n)| <= MaxStrDigits then Some(-(n as int)) else None
  {
    ParseIntMinusDigits(DecimalString(n));
    DecimalStringValue(n);
  }

  /** A minus sign before digits that end in no whitespace negates what they
      read as, and raises `ValueError` exactly when they do. */
  lemma {:induction false} Negated(d: string)
    requires d != [] && !IsIntSpace(d[|d| - 1])
    ensures ParseUnsigned(d).Some? ==> ParseInt("-" + d) == Some(-(ParseUnsigned(d).value as int))
    ensures ParseUnsigned(d).None? ==> ParseInt("-" + d) == None
  {
    var t := "-" + d;
    assert t[|t| - 1] == d[|d| - 1];
    TrimNoop(t, IsIntSpace);
    assert t[1..] == d;
  }

  /** Text without a single digit is never a number. */
  lemma ParseIntNeedsDigit(text: string)
    requires forall i :: 0 <= i < |text| ==> !IsDigit(text[i])
    ensures ParseInt(text) == None
  {
    var t := Trim(text, IsIntSpace);
    if t != [] {
      TrimChars(text, IsIntSpace, t[0]);
      if |t| > 1 {
        TrimChars(text, IsIntSpace, t[1]);
      }
    }
  }

  /** Digit groups end in a digit. */
  lemma {:induction false} GroupsTailEndsInDigit(s: string)
    requires s != [] && IsGroupsTail(s)
    ensures IsDigit(s[|s| - 1])
    decreases |s|
  {
    if IsDigit(s[0]) {
      if |s| > 1 {
        GroupsTailEndsInDigit(s[1..]);
      }
    } else if |s| > 2 {
      GroupsTailEndsInDigit(s[2..]);
    }
  }

  /** A line that starts or ends with one of the separators U+001C..U+001F is
      never a number, although `str.isspace` counts them as whitespace. */
  lemma ParseIntRefusesSeparator(c: char, text: string)
    requires '\U{1C}' <= c <= '\U{1F}'
    ensures ParseInt([c] + text) == None
    ensures ParseInt(text + [c]) == None
  {
    var s := [c] + text;
    TrimKeepsFirst(s, IsIntSpace);
    var e := text + [c];
    TrimKeepsLast(e, IsIntSpace);
    var t := Trim(e, IsIntSpace);
    assert t[|t| - 1] == c;
    if ParseUnsigned(t).Some? {
      GroupsTailEndsInDigit(t);
    }
    if |t| > 1 && ParseUnsigned(t[1..]).Some? {
      assert t[1..][|t[1..]| - 1] == c;
      GroupsTailEndsInDigit(t[1..]);
    }
  }
}
