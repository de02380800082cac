/**
 * The pieces of Python's `str` behaviour that the retrieval step relies on:
 * `strip()`, `lower()`, `upper()` and `int(...)` applied to a string.
 * Characters are modelled over Latin-1 (U+0000..U+00FF), which holds every
 * table key and group name of the system, including the accented ones.
 */
module Text {
  import opened Options

  /** Whitespace as Python's `str.isspace` decides it, within Latin-1. */
  predicate IsSpace(c: char) {
    '\t' <= c <= '\r' || '\U{1C}' <= c <= '\U{1F}' || c == ' ' || c == '\U{85}' || c == '\U{A0}'
  }

  predicate AllSpace(s: string) {
    forall i :: 0 <= i < |s| ==> IsSpace(s[i])
  }

  /** Neither starts nor ends with whitespace. */
  predicate Trimmed(s: string) {
    s == [] || (!IsSpace(s[0]) && !IsSpace(s[|s| - 1]))
  }

  /** Upper-case letters that Python's `lower()` maps one-to-one within Latin-1. */
  predicate IsUpperLetter(c: char) {
    'A' <= c <= 'Z' || ('\U{C0}' <= c <= '\U{DE}' && c != '\U{D7}')
  }

  /** Lower-case letters that Python's `upper()` maps one-to-one within Latin-1. */
  predicate IsLowerLetter(c: char) {
    'a' <= c <= 'z' || ('\U{E0}' <= c <= '\U{FE}' && c != '\U{F7}')
  }

  function LowerChar(c: char): (d: char)
    ensures !IsUpperLetter(d)
    ensures IsUpperLetter(c) <==> IsLowerLetter(d) && d != c
  {
    if IsUpperLetter(c) then (c as int + 32) as char else c
  }

  function UpperChar(c: char): (d: char)
    ensures !IsLowerLetter(d)
    ensures IsLowerLetter(c) <==> IsUpperLetter(d) && d != c
  {
    if IsLowerLetter(c) then (c as int - 32) as char else c
  }

  /** Python's `s.lower()`: every upper-case letter becomes its lower-case partner. */
  function Lower(s: string): (r: string)
    ensures |r| == |s|
    ensures forall i :: 0 <= i < |r| ==> !IsUpperLetter(r[i])
  {
    seq(|s|, i requires 0 <= i < |s| => LowerChar(s[i]))
  }

  /** Python's `s.upper()`: every lower-case letter becomes its upper-case partner. */
  function Upper(s: string): (r: string)
    ensures |r| == |s|
    ensures forall i :: 0 <= i < |r| ==> !IsLowerLetter(r[i])
  {
    seq(|s|, i requires 0 <= i < |s| => UpperChar(s[i]))
  }

  /** Python's `s.lstrip()`. */
  function StripLeft(s: string): string {
    if |s| > 0 && IsSpace(s[0]) then StripLeft(s[1..]) else s
  }

  /** `lstrip()` drops the leading whitespace and nothing else. */
  lemma {:induction false} StripLeftDrops(s: string)
    ensures var r := StripLeft(s);
      |r| <= |s| && r == s[|s| - |r|..] && AllSpace(s[..|s| - |r|]) && (r == [] || !IsSpace(r[0]))
  {
    if |s| > 0 && IsSpace(s[0]) {
      StripLeftDrops(s[1..]);
      var r := StripLeft(s[1..]);
      assert s[..|s| - |r|] == [s[0]] + s[1..][..|s| - 1 - |r|];
    }
  }

  /** Python's `s.rstrip()`. */
  function StripRight(s: string): string {
    if |s| > 0 && IsSpace(s[|s| - 1]) then StripRight(s[..|s| - 1]) else s
  }

  /** `rstrip()` drops the trailing whitespace and nothing else. */
  lemma {:induction false} StripRightDrops(s: string)
    ensures var r := StripRight(s);
      |r| <= |s| && r == s[..|r|] && AllSpace(s[|r|..]) && (r == [] || !IsSpace(r[|r| - 1]))
  {
    if |s| > 0 && IsSpace(s[|s| - 1]) {
      StripRightDrops(s[..|s| - 1]);
      var r := StripRight(s[..|s| - 1]);
      assert s[|r|..] == s[..|s| - 1][|r|..] + [s[|s| - 1]];
    }
  }

  /** Python's `s.strip()`; it leaves a string alone exactly when it is already trimmed. */
  function Strip(s: string): (r: string)
    ensures Trimmed(r)
    ensures r == s <==> Trimmed(s)
  {
    StripLeftDrops(s);
    StripRightDrops(StripLeft(s));
    var r := StripRight(StripLeft(s));
    assert r != [] ==> r[0] == StripLeft(s)[0];
    r
  }

  predicate IsDigit(c: char) {
    '0' <= c <= '9'
  }

  predicate AllDigits(s: string) {
    forall i :: 0 <= i < |s| ==> IsDigit(s[i])
  }

  function DigitValue(c: char): nat
    requires IsDigit(c)
  {
    c as int - '0' as int
  }

  /** The value of a non-empty run of decimal digits, most significant first;
      `None` as soon as anything other than a digit appears. */
  function ParseDigits(s: string): Option<nat> {
    if |s| == 0 || !IsDigit(s[|s| - 1]) then None
    else if |s| == 1 then Some(DigitValue(s[0]))
    else
      match ParseDigits(s[..|s| - 1])
      case None => None
      case Some(n) => Some(n * 10 + DigitValue(s[|s| - 1]))
  }

  /** Only a non-empty run of digits parses. */
  lemma {:induction false} ParseDigitsChars(s: string)
    ensures ParseDigits(s).Some? <==> |s| > 0 && AllDigits(s)
  {
    if |s| > 1 {
      var p := s[..|s| - 1];
      ParseDigitsChars(p);
      assert AllDigits(s) <==> AllDigits(p) && IsDigit(s[|s| - 1]) by {
        assert forall i :: 0 <= i < |p| ==> p[i] == s[i];
      }
    }
  }

  /** The most decimal digits Python converts between text and an integer
      (`sys.get_int_max_str_digits()`, 4300 by default since Python 3.11):
      `int()` of a longer run of digits, and `str()` of a longer integer,
      raise `ValueError`. */
  const MaxStrDigits: nat := 4300

  /** A run of digits `int()` accepts: non-empty, all digits, and within the limit. */
  function ParseDecimal(s: string): (r: Option<nat>)
    ensures r.Some? ==> 0 < |s| <= MaxStrDigits
  {
    if |s| > MaxStrDigits then None else ParseDigits(s)
  }

  /** An optional sign followed by at least one decimal digit; nothing else. */
  function ParseSigned(t: string): Option<int> {
    if |t| > 0 && (t[0] == '+' || t[0] == '-') then
      match ParseDecimal(t[1..])
      case None => None
      case Some(n) => Some(if t[0] == '-' then -(n as int) else n)
    else
      ParseDecimal(t)
  }

  /** The information separators U+001C..U+001F: `strip()` removes them, but
      `int()` does not skip them, because it skips only the ASCII whitespace
      tab, line feed, vertical tab, form feed, carriage return and space (and
      turns non-ASCII whitespace such as U+0085 and U+00A0 into spaces first). */
  predicate IsSeparator(c: char) {
    '\U{1C}' <= c <= '\U{1F}'
  }

  predicate HasSeparator(s: string) {
    exists i :: 0 <= i < |s| && IsSeparator(s[i])
  }

  /** Python's `int(s)` on a string: surrounding whitespace other than the
      separators is ignored, and `None` stands for the `ValueError` it raises
      on anything else. A separator stops `int()` wherever it stands: around
      the digits it is not skipped, and among them it is not a digit. So the
      text parses exactly when it holds no separator and its stripped form is
      a sign and one to `MaxStrDigits` digits. */
  function ParseInt(s: string): (r: Option<int>)
    ensures r.Some? ==> 0 < |Strip(s)| <= MaxStrDigits + 1 && !HasSeparator(s)
  {
    if HasSeparator(s) then None else ParseSigned(Strip(s))
  }

  /** Decimal rendering of a natural number, as Python's `str(n)` gives it. */
  function ShowNat(n: nat): (r: string)
    ensures |r| > 0 && IsDigit(r[0]) && ParseDigits(r) == Some(n)
  {
    var d := ['0' + (n % 10) as char];
    if n < 10 then d else
      var r := ShowNat(n / 10) + d;
      assert r[..|r| - 1] == ShowNat(n / 10);
      r
  }

  /** Python's `str(n)` for an integer. */
  function ShowInt(n: int): string {
    if n < 0 then "-" + ShowNat(-n) else ShowNat(n)
  }

  /** `str(n)` is a minus sign or a digit followed by digits only. */
  lemma ShowIntChars(n: int)
    ensures var t := ShowInt(n);
      |t| > 0 && (n < 0 ==> t[0] == '-' && t[1..] == ShowNat(-n)) && (n >= 0 ==> t == ShowNat(n)) &&
      forall i :: 0 <= i < |t| ==> IsDigit(t[i]) || (i == 0 && t[i] == '-')
  {
    var t := ShowInt(n);
    var d := ShowNat(if n < 0 then -n else n);
    ParseDigitsChars(d);
    if n < 0 {
      assert t[1..] == d;
      forall i | 1 <= i < |t|
        ensures IsDigit(t[i])
      {
        assert t[i] == d[i - 1];
      }
    }
  }

  /** The sign-and-digits reading of `str(n)` gives back `n`. */
  lemma ParseSignedShowInt(n: int)
    requires |ShowNat(if n < 0 then -n else n)| <= MaxStrDigits
    ensures ParseSigned(ShowInt(n)) == Some(n)
  {
    ShowIntChars(n);
  }

  /** `int(str(n)) == n`: the parser reads back every integer Python prints,
      that is every integer of at most `MaxStrDigits` digits. */
  lemma ParseIntShowInt(n: int)
    requires |ShowNat(if n < 0 then -n else n)| <= MaxStrDigits
    ensures ParseInt(ShowInt(n)) == Some(n)
  {
    var t := ShowInt(n);
    ShowIntChars(n);
    ParseSignedShowInt(n);
    assert Trimmed(t);
    assert !HasSeparator(t);
  }

  /** Lower-casing never creates or removes whitespace, so it commutes with `strip()`. */
  lemma {:induction false} StripLeftLower(s: string)
    ensures StripLeft(Lower(s)) == Lower(StripLeft(s))
  {
    if |s| > 0 && IsSpace(s[0]) {
      assert Lower(s)[1..] == Lower(s[1..]);
      StripLeftLower(s[1..]);
    }
  }

  lemma {:induction false} StripRightLower(s: string)
    ensures StripRight(Lower(s)) == Lower(StripRight(s))
  {
    if |s| > 0 && IsSpace(s[|s| - 1]) {
      assert Lower(s)[..|s| - 1] == Lower(s[..|s| - 1]);
      StripRightLower(s[..|s| - 1]);
    }
  }

  lemma StripLower(s: string)
    ensures Strip(Lower(s)) == Lower(Strip(s))
  {
    StripLeftLower(s);
    StripRightLower(StripLeft(s));
  }

  /** A string `int()` accepts holds signs and digits only. */
  lemma ParseSignedChars(t: string)
    requires ParseSigned(t).Some?
    ensures forall i :: 0 <= i < |t| ==> IsDigit(t[i]) || t[i] == '+' || t[i] == '-'
  {
    if |t| > 0 && (t[0] == '+' || t[0] == '-') {
      ParseDigitsChars(t[1..]);
    } else {
      ParseDigitsChars(t);
    }
    forall i | 0 < i < |t|
      ensures IsDigit(t[i])
    {
      if t[0] == '+' || t[0] == '-' {
        assert t[i] == t[1..][i - 1];
      }
    }
  }

  /** Lower-casing leaves alone a string that `int()` accepts. */
  lemma LowerParsable(t: string)
    requires ParseSigned(t).Some?
    ensures Lower(t) == t
  {
    ParseSignedChars(t);
  }

  /** A string `int()` rejects stays rejected once lower-cased: the letters it
      holds remain letters. */
  lemma LowerUnparsable(t: string)
    requires ParseSigned(Lower(t)).Some?
    ensures ParseSigned(t).Some?
  {
    var u := Lower(t);
    ParseSignedChars(u);
    assert u == t;
  }

  /** Lower-casing a string never changes what `int()` makes of it: the query's
      `lower()` is harmless to the `lista_2014` comparison. */
  lemma ParseIntLower(s: string)
    ensures ParseInt(Lower(s)) == ParseInt(s)
  {
    assert HasSeparator(Lower(s)) <==> HasSeparator(s) by {
      assert forall i :: 0 <= i < |s| ==> (IsSeparator(Lower(s)[i]) <==> IsSeparator(s[i]));
    }
    StripLower(s);
    var t := Strip(s);
    if ParseSigned(t).Some? {
      LowerParsable(t);
    } else if ParseSigned(Lower(t)).Some? {
      LowerUnparsable(t);
    }
  }

  /** `int()` reads a string without separators as it reads its stripped form. */
  lemma ParseIntStrip(s: string)
    requires !HasSeparator(s)
    ensures ParseInt(Strip(s)) == ParseInt(s)
  {
    StripLeftDrops(s);
    var l := StripLeft(s);
    StripRightDrops(l);
    assert forall i :: 0 <= i < |l| ==> l[i] == s[|s| - |l| + i];
    assert !HasSeparator(Strip(s));
  }

  /** Lower-casing and upper-casing never create or remove whitespace, so a
      string is trimmed when its lower- or upper-cased form is. */
  lemma LowerTrimmed(s: string)
    requires Trimmed(Lower(s))
    ensures Trimmed(s)
  {
    if s != [] {
      assert Lower(s)[0] == LowerChar(s[0]);
      assert Lower(s)[|s| - 1] == LowerChar(s[|s| - 1]);
    }
  }

  lemma UpperTrimmed(s: string)
    requires Trimmed(Upper(s))
    ensures Trimmed(s)
  {
    if s != [] {
      assert Upper(s)[0] == UpperChar(s[0]);
      assert Upper(s)[|s| - 1] == UpperChar(s[|s| - 1]);
    }
  }

  /** Lower-casing is idempotent. */
  lemma LowerLower(s: string)
    ensures Lower(Lower(s)) == Lower(s)
  {
  }

  /** `upper()` ignores a prior `lower()` (the query category is lowered, then uppered). */
  lemma UpperLower(s: string)
    ensures Upper(Lower(s)) == Upper(s)
  {
  }
}
