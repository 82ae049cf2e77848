/**
 * The pieces of java.lang text handling the loaders rely on: String.trim,
 * String.split("\\s+"), Integer.valueOf / Integer.toString, and the 32-bit
 * wrap-around of Java int arithmetic.
 */
module JavaText {
  import opened Wrappers

  const MinInt: int := -0x8000_0000
  const MaxInt: int := 0x7fff_ffff

  /** A value of Java's `int` type. */
  type Int32 = x: int | MinInt <= x <= MaxInt

  /** Reduces an unbounded integer to the Java int with the same value modulo 2^32. */
  function Wrap32(x: int): (r: int)
    ensures MinInt <= r <= MaxInt
    ensures (r - x) % 0x1_0000_0000 == 0
    ensures MinInt <= x <= MaxInt ==> r == x
  {
    (x - MinInt) % 0x1_0000_0000 + MinInt
  }

  // ---------------------------------------------------------------- trim

  /** String.trim removes leading and trailing characters whose code is at most U+0020. */
  predicate IsTrimmable(c: char) {
    c <= ' '
  }

  predicate AllTrimmable(s: string) {
    forall k :: 0 <= k < |s| ==> IsTrimmable(s[k])
  }

  /** No trimmable character at either end. */
  predicate Trimmed(s: string) {
    s == [] || (!IsTrimmable(s[0]) && !IsTrimmable(s[|s| - 1]))
  }

  /** Number of trimmable characters at the front of `s`. */
  function Leading(s: string): (n: nat)
    ensures n <= |s|
    ensures AllTrimmable(s[..n])
    ensures n == |s| || !IsTrimmable(s[n])
    decreases |s|
  {
    if |s| > 0 && IsTrimmable(s[0]) then
      var n := 1 + Leading(s[1..]);
      assert s[..n] == [s[0]] + s[1..][..n - 1];
      n
    else 0
  }

  /** Number of trimmable characters at the back of `s`. */
  function Trailing(s: string): (n: nat)
    ensures n <= |s|
    ensures AllTrimmable(s[|s| - n..])
    ensures n == |s| || !IsTrimmable(s[|s| - n - 1])
    decreases |s|
  {
    if |s| > 0 && IsTrimmable(s[|s| - 1]) then
      var n := 1 + Trailing(s[..|s| - 1]);
      assert s[|s| - n..] == s[..|s| - 1][|s| - n..] + [s[|s| - 1]];
      n
    else 0
  }

  /** String.trim: the middle of `s` between its trimmable ends. */
  function Trim(s: string): (r: string)
    ensures Trimmed(r)
    ensures |r| <= |s|
    ensures Leading(s) + |r| <= |s|
    ensures r == s[Leading(s)..Leading(s) + |r|]
    ensures AllTrimmable(s[..Leading(s)]) && AllTrimmable(s[Leading(s) + |r|..])
  {
    var i := Leading(s);
    var t := s[i..];
    var j := Trailing(t);
    var r := t[..|t| - j];
    assert t[|t| - j..] == s[i + |r|..];
    assert r != [] ==> r[0] == s[i] && r[|r| - 1] == t[|t| - j - 1];
    assert r == [] ==> s[i..] == t[|t| - j..];
    r
  }

  /** Trimming is idempotent. */
  lemma TrimIdempotent(s: string)
    ensures Trim(Trim(s)) == Trim(s)
  {
    var r := Trim(s);
    if r != [] {
      assert Leading(r) == 0;
      assert Trailing(r) == 0;
    }
  }

  // ---------------------------------------------------------------- split

  /** The characters of the regular-expression class \s: space, \t, \n, \x0B, \f, \r. */
  predicate IsSpace(c: char) {
    c == ' ' || '\t' <= c <= '\r'
  }

  predicate NoSpace(s: string) {
    forall k :: 0 <= k < |s| ==> !IsSpace(s[k])
  }

  /** End of the run of non-space characters that starts at index `i` of `s`. */
  function WordEnd(s: string, i: nat): (j: nat)
    requires i <= |s|
    ensures i <= j <= |s|
    ensures NoSpace(s[i..j])
    ensures j == |s| || IsSpace(s[j])
    decreases |s| - i
  {
    if i < |s| && !IsSpace(s[i]) then
      var j := WordEnd(s, i + 1);
      assert s[i..j] == [s[i]] + s[i + 1..j];
      j
    else i
  }

  /** The maximal runs of non-space characters of `s` from index `i` on, left to right. */
  function WordsFrom(s: string, i: nat): seq<string>
    requires i <= |s|
    decreases |s| - i
  {
    if i == |s| then []
    else if IsSpace(s[i]) then WordsFrom(s, i + 1)
    else
      var j := WordEnd(s, i);
      [s[i..j]] + WordsFrom(s, j)
  }

  /** The maximal runs of non-space characters of `s`. */
  function Words(s: string): seq<string> {
    WordsFrom(s, 0)
  }

  /** Word number `k` (from 0) of `s` from index `i` on, if there are that many. */
  function NthWord(s: string, i: nat, k: nat): Option<string>
    requires i <= |s|
    decreases |s| - i
  {
    if i == |s| then None
    else if IsSpace(s[i]) then NthWord(s, i + 1, k)
    else
      var j := WordEnd(s, i);
      if k == 0 then Some(s[i..j]) else NthWord(s, j, k - 1)
  }

  /**
   * String.split("\\s+"): the pieces between runs of \s. A leading run yields
   * a leading empty piece, trailing empty pieces are dropped, and a string
   * without any match is returned whole (so "" splits to [""]).
   */
  function Split(s: string): (r: seq<string>)
    ensures s != [] && !IsSpace(s[0]) ==> r == Words(s)
  {
    if s == [] then [""]
    else if IsSpace(s[0]) && Words(s) != [] then [""] + Words(s)
    else Words(s)
  }

  /** `s` with every \s character deleted. */
  function RemoveSpaces(s: string): (r: string)
    ensures NoSpace(r)
    ensures |r| <= |s|
  {
    if s == [] then []
    else if IsSpace(s[0]) then RemoveSpaces(s[1..])
    else [s[0]] + RemoveSpaces(s[1..])
  }

  /** The concatenation of a sequence of strings. */
  function Concat(ws: seq<string>): string {
    if ws == [] then [] else ws[0] + Concat(ws[1..])
  }

  lemma RemoveSpacesAppend(a: string, b: string)
    ensures RemoveSpaces(a + b) == RemoveSpaces(a) + RemoveSpaces(b)
  {
    if a == [] {
      assert a + b == b;
    } else {
      assert (a + b)[0] == a[0];
      assert (a + b)[1..] == a[1..] + b;
      RemoveSpacesAppend(a[1..], b);
    }
  }

  lemma RemoveSpacesOfWord(s: string)
    requires NoSpace(s)
    ensures RemoveSpaces(s) == s
  {
    if s != [] {
      RemoveSpacesOfWord(s[1..]);
    }
  }

  /** Every word is a non-empty run without \s characters. */
  lemma {:induction false} WordsAreRuns(s: string, i: nat)
    requires i <= |s|
    ensures forall k :: 0 <= k < |WordsFrom(s, i)| ==> WordsFrom(s, i)[k] != [] && NoSpace(WordsFrom(s, i)[k])
    decreases |s| - i
  {
    if i == |s| {
    } else if IsSpace(s[i]) {
      WordsAreRuns(s, i + 1);
    } else {
      WordsAreRuns(s, WordEnd(s, i));
    }
  }

  /** Splitting loses exactly the separators: the words put together are the rest of `s` without its spaces. */
  lemma {:induction false} WordsKeepEveryOtherChar(s: string, i: nat)
    requires i <= |s|
    ensures Concat(WordsFrom(s, i)) == RemoveSpaces(s[i..])
    decreases |s| - i
  {
    if i == |s| {
    } else if IsSpace(s[i]) {
      WordsKeepEveryOtherChar(s, i + 1);
      assert s[i..][1..] == s[i + 1..];
    } else {
      var j := WordEnd(s, i);
      WordsKeepEveryOtherChar(s, j);
      assert s[i..] == s[i..j] + s[j..];
      RemoveSpacesAppend(s[i..j], s[j..]);
      RemoveSpacesOfWord(s[i..j]);
      var ws := [s[i..j]] + WordsFrom(s, j);
      assert ws[1..] == WordsFrom(s, j);
    }
  }

  /** NthWord picks the k-th element of the word list, and fails exactly past its end. */
  lemma {:induction false} NthWordOfWords(s: string, i: nat, k: nat)
    requires i <= |s|
    ensures NthWord(s, i, k) == if k < |WordsFrom(s, i)| then Some(WordsFrom(s, i)[k]) else None
    decreases |s| - i
  {
    if i == |s| {
    } else if IsSpace(s[i]) {
      NthWordOfWords(s, i + 1, k);
    } else if k > 0 {
      NthWordOfWords(s, WordEnd(s, i), k - 1);
    }
  }

  /** On a trimmed, non-empty line, split("\\s+") yields exactly its words. */
  lemma SplitTrimmed(s: string)
    requires Trimmed(s) && s != []
    ensures Split(s) == Words(s)
  {
  }

  // ---------------------------------------------------------------- integers

  /** `c` is one of the ten consecutive digits that start at `zero`. */
  predicate InDigitBlock(c: char, zero: char) {
    zero <= c && (c as int) < (zero as int) + 10
  }

  /**
   * The zero of the block of decimal digits `c` belongs to: the characters
   * Character.digit(c, 10) accepts, which are the Unicode decimal digits
   * (category Nd) of the Basic Multilingual Plane, as of Unicode 7. A Java
   * string holds a supplementary character as two surrogates, neither of
   * which is a digit, so none of those blocks is listed.
   */
  function DigitZero(c: char): Option<char> {
    if InDigitBlock(c, '0') then Some('0')
    else if InDigitBlock(c, '\U{0660}') then Some('\U{0660}')
    else if InDigitBlock(c, '\U{06F0}') then Some('\U{06F0}')
    else if InDigitBlock(c, '\U{07C0}') then Some('\U{07C0}')
    else if InDigitBlock(c, '\U{0966}') then Some('\U{0966}')
    else if InDigitBlock(c, '\U{09E6}') then Some('\U{09E6}')
    else if InDigitBlock(c, '\U{0A66}') then Some('\U{0A66}')
    else if InDigitBlock(c, '\U{0AE6}') then Some('\U{0AE6}')
    else if InDigitBlock(c, '\U{0B66}') then Some('\U{0B66}')
    else if InDigitBlock(c, '\U{0BE6}') then Some('\U{0BE6}')
    else if InDigitBlock(c, '\U{0C66}') then Some('\U{0C66}')
    else if InDigitBlock(c, '\U{0CE6}') then Some('\U{0CE6}')
    else if InDigitBlock(c, '\U{0D66}') then Some('\U{0D66}')
    else if InDigitBlock(c, '\U{0DE6}') then Some('\U{0DE6}')
    else if InDigitBlock(c, '\U{0E50}') then Some('\U{0E50}')
    else if InDigitBlock(c, '\U{0ED0}') then Some('\U{0ED0}')
    else if InDigitBlock(c, '\U{0F20}') then Some('\U{0F20}')
    else if InDigitBlock(c, '\U{1040}') then Some('\U{1040}')
    else if InDigitBlock(c, '\U{1090}') then Some('\U{1090}')
    else if InDigitBlock(c, '\U{17E0}') then Some('\U{17E0}')
    else if InDigitBlock(c, '\U{1810}') then Some('\U{1810}')
    else if InDigitBlock(c, '\U{1946}') then Some('\U{1946}')
    else if InDigitBlock(c, '\U{19D0}') then Some('\U{19D0}')
    else if InDigitBlock(c, '\U{1A80}') then Some('\U{1A80}')
    else if InDigitBlock(c, '\U{1A90}') then Some('\U{1A90}')
    else if InDigitBlock(c, '\U{1B50}') then Some('\U{1B50}')
    else if InDigitBlock(c, '\U{1BB0}') then Some('\U{1BB0}')
    else if InDigitBlock(c, '\U{1C40}') then Some('\U{1C40}')
    else if InDigitBlock(c, '\U{1C50}') then Some('\U{1C50}')
    else if InDigitBlock(c, '\U{A620}') then Some('\U{A620}')
    else if InDigitBlock(c, '\U{A8D0}') then Some('\U{A8D0}')
    else if InDigitBlock(c, '\U{A900}') then Some('\U{A900}')
    else if InDigitBlock(c, '\U{A9D0}') then Some('\U{A9D0}')
    else if InDigitBlock(c, '\U{A9F0}') then Some('\U{A9F0}')
    else if InDigitBlock(c, '\U{AA50}') then Some('\U{AA50}')
    else if InDigitBlock(c, '\U{ABF0}') then Some('\U{ABF0}')
    else if InDigitBlock(c, '\U{FF10}') then Some('\U{FF10}')
    else None
  }

  predicate IsDigit(c: char) {
    DigitZero(c).Some?
  }

  /** Character.digit(c, 10) of a digit: its distance from the zero of its block. */
  function DigitValue(c: char): (d: nat)
    requires IsDigit(c)
    ensures d < 10
  {
    c as int - DigitZero(c).value as int
  }

  predicate AllDigits(s: string) {
    forall k :: 0 <= k < |s| ==> IsDigit(s[k])
  }

  /** The number written by a string of decimal digits. */
  function DigitsValue(s: string): nat
    requires AllDigits(s)
  {
    if s == [] then 0 else DigitsValue(s[..|s| - 1]) * 10 + DigitValue(s[|s| - 1])
  }

  /**
   * Integer.valueOf(String) in radix 10: an optional '+' or '-', then at
   * least one decimal digit, and a value that fits a Java int; anything else
   * is a NumberFormatException, here None.
   */
  function ParseInt(s: string): (r: Option<int>)
    ensures r.Some? ==> MinInt <= r.value <= MaxInt
    ensures r.Some? ==> s != [] && AllDigits(if s[0] == '-' || s[0] == '+' then s[1..] else s)
  {
    if s == [] then None
    else
      var digits := if s[0] == '-' || s[0] == '+' then s[1..] else s;
      if digits == [] || !AllDigits(digits) then None
      else
        var v: int := if s[0] == '-' then 0 - DigitsValue(digits) else DigitsValue(digits);
        if MinInt <= v <= MaxInt then Some(v) else None
  }

  function DigitChar(d: nat): (c: char)
    requires d < 10
    ensures IsDigit(c) && DigitValue(c) == d
  {
    ('0' as int + d) as char
  }

  /** Integer.toString of a non-negative number: its decimal digits, no leading zeros. */
  function NatToString(n: nat): (s: string)
    ensures s != [] && AllDigits(s)
    ensures DigitsValue(s) == n
    ensures s[0] != '0' || n == 0
  {
    if n < 10 then [DigitChar(n)]
    else
      var s := NatToString(n / 10) + [DigitChar(n % 10)];
      assert s[..|s| - 1] == NatToString(n / 10);
      s
  }

  /** Integer.toString: a '-' before the digits of a negative number. */
  function IntToString(n: int): (s: string)
    ensures s != []
  {
    if n < 0 then "-" + NatToString(-n) else NatToString(n)
  }

  /** Integer.valueOf reads back every Java int that Integer.toString wrote. */
  lemma ParseIntToString(n: int)
    requires MinInt <= n <= MaxInt
    ensures ParseInt(IntToString(n)) == Some(n)
  {
    var s := IntToString(n);
    if n < 0 {
      assert s[1..] == NatToString(-n);
    }
  }

  /**
   * Integer.valueOf reads the decimal digits of every script in the Basic
   * Multilingual Plane: Arabic-Indic three, fullwidth twelve and a negative
   * number in Devanagari.
   */
  lemma UnicodeDigitsParse()
    ensures ParseInt("\U{0663}") == Some(3)
    ensures ParseInt("\U{FF11}\U{FF12}") == Some(12)
    ensures ParseInt("-\U{0967}\U{0966}") == Some(-10)
  {
    assert DigitsValue("\U{FF11}\U{FF12}"[..1]) == 1;
    assert DigitsValue("\U{0967}\U{0966}"[..1]) == 1;
    assert "-\U{0967}\U{0966}"[1..] == "\U{0967}\U{0966}";
  }

  /**
   * A leading '+' is accepted; the characters just past a digit block, the
   * colon after '9' and the Arabic percent sign after Arabic-Indic nine, are
   * not digits.
   */
  lemma ParseIntSignAndNonDigits()
    ensures ParseInt("+7") == Some(7)
    ensures ParseInt("1:") == None && ParseInt("\U{0669}\U{066A}") == None
  {
    assert "+7"[1..] == "7";
    assert "7"[..0] == [];
    assert !IsDigit("1:"[1]) && !IsDigit("\U{0669}\U{066A}"[1]);
  }

  /** Distinct numbers are written differently. */
  lemma NatToStringInjective(a: nat, b: nat)
    requires NatToString(a) == NatToString(b)
    ensures a == b
  {
  }

  /** A run of digits ends where the first non-digit starts, so it can be read back off the front of a string. */
  lemma {:induction false} DigitsThenRest(x: string, y: string, a: string, b: string)
    requires AllDigits(x) && AllDigits(y)
    requires (a == [] || !IsDigit(a[0])) && (b == [] || !IsDigit(b[0]))
    requires x + a == y + b
    ensures x == y && a == b
    decreases |x|
  {
    if x != [] && y != [] {
      assert (x + a)[0] == x[0] && (y + b)[0] == y[0];
      assert x[1..] + a == (x + a)[1..] == (y + b)[1..] == y[1..] + b;
      DigitsThenRest(x[1..], y[1..], a, b);
      assert x == [x[0]] + x[1..] && y == [y[0]] + y[1..];
    } else {
      assert (x == [] ==> a == y + b) && (y == [] ==> b == x + a);
    }
  }
}
