/**
 * The Python `str` operations the archiver relies on, on `seq<char>`:
 * `strip`, single-character `replace` (and chains of them), `split`,
 * `rsplit(sep, 1)[-1]`, ASCII `lower`/`isalnum`, `startswith`, `in`,
 * the decimal rendering of an `int` and the `int(str)` conversion.
 */
module Text {
  import opened Wrappers

  /** Python's `str.isspace` for one character. */
  predicate IsSpace(c: char) {
    var n := c as int;
    n == 32 || (9 <= n <= 13) || (28 <= n <= 31) || n == 0x85 || n == 0xA0 || n == 0x1680
    || (0x2000 <= n <= 0x200A) || n == 0x2028 || n == 0x2029 || n == 0x202F || n == 0x205F
    || n == 0x3000
  }

  /** `s.lstrip()`: drops exactly the leading whitespace. */
  function TrimStart(s: string): (r: string)
    ensures |r| <= |s| && r == s[|s| - |r|..]
    ensures r == [] || !IsSpace(r[0])
    ensures forall i :: 0 <= i < |s| - |r| ==> IsSpace(s[i])
  {
    if |s| > 0 && IsSpace(s[0]) then TrimStart(s[1..]) else s
  }

  /** `s.rstrip()`: drops exactly the trailing whitespace. */
  function TrimEnd(s: string): (r: string)
    ensures |r| <= |s| && r == s[..|r|]
    ensures r == [] || !IsSpace(r[|r| - 1])
    ensures forall i :: |r| <= i < |s| ==> IsSpace(s[i])
  {
    if |s| > 0 && IsSpace(s[|s| - 1]) then TrimEnd(s[..|s| - 1]) else s
  }

  /** A string with no whitespace at either end. */
  predicate Trimmed(s: string) {
    s == [] || (!IsSpace(s[0]) && !IsSpace(s[|s| - 1]))
  }

  /** `s.strip()`. */
  function Strip(s: string): (r: string)
    ensures Trimmed(r)
    ensures |r| <= |s|
    ensures forall c :: c in r ==> c in s
  {
    var t := TrimStart(s);
    var r := TrimEnd(t);
    assert forall c :: c in r ==> c in t;
    r
  }

  lemma {:induction false} TrimStartOfNonSpace(s: string)
    requires s == [] || !IsSpace(s[0])
    ensures TrimStart(s) == s
  {
  }

  /** Stripping a string that has no edge whitespace changes nothing. */
  lemma {:induction false} StripTrimmed(s: string)
    requires Trimmed(s)
    ensures Strip(s) == s
  {
    TrimStartOfNonSpace(s);
  }

  /** `strip` is idempotent. */
  lemma {:induction false} StripIdempotent(s: string)
    ensures Strip(Strip(s)) == Strip(s)
  {
    StripTrimmed(Strip(s));
  }

  /** `s.replace(c, d)` for single characters `c` and `d`. */
  function Replace(s: string, c: char, d: char): (r: string)
    ensures |r| == |s|
    ensures forall i :: 0 <= i < |s| ==> r[i] == (if s[i] == c then d else s[i])
  {
    if s == [] then [] else [if s[0] == c then d else s[0]] + Replace(s[1..], c, d)
  }

  /** The chain `s.replace(cs[0], d).replace(cs[1], d)...`, in that order. */
  function ReplaceEach(s: string, cs: seq<char>, d: char): (r: string)
    ensures |r| == |s|
    ensures forall i :: 0 <= i < |s| ==> r[i] == (if s[i] in cs then d else s[i])
    decreases |cs|
  {
    if cs == [] then s else ReplaceEach(Replace(s, cs[0], d), cs[1..], d)
  }

  /** Index of the first occurrence of `c` in `s`. */
  function IndexOf(s: string, c: char): (i: nat)
    requires c in s
    ensures i < |s| && s[i] == c && c !in s[..i]
  {
    if s[0] == c then 0 else 1 + IndexOf(s[1..], c)
  }

  /** `sep.join(pieces)`. */
  function Join(pieces: seq<string>, sep: char): string {
    if pieces == [] then []
    else if |pieces| == 1 then pieces[0]
    else pieces[0] + [sep] + Join(pieces[1..], sep)
  }

  /** `s.split(sep)` for a one-character separator: never empty, no piece holds `sep`, and joining restores `s`. */
  function Split(s: string, sep: char): (r: seq<string>)
    ensures |r| >= 1
    ensures forall k :: 0 <= k < |r| ==> sep !in r[k]
    ensures Join(r, sep) == s
    decreases |s|
  {
    if sep !in s then [s]
    else
      var i := IndexOf(s, sep);
      var rest := Split(s[i + 1..], sep);
      assert s == s[..i] + [sep] + s[i + 1..];
      [s[..i]] + rest
  }

  /** The first `sep` in `p + [sep] + q` is the one after `p`, when `p` holds none. */
  lemma IndexOfAfter(p: string, sep: char, q: string)
    requires sep !in p
    ensures sep in p + [sep] + q && IndexOf(p + [sep] + q, sep) == |p|
  {
    var s := p + [sep] + q;
    assert s[|p|] == sep && s[..|p|] == p;
  }

  /** Splitting the join of pieces that hold no `sep` gives the pieces back. */
  lemma {:induction false} SplitJoin(pieces: seq<string>, sep: char)
    requires |pieces| >= 1 && forall k :: 0 <= k < |pieces| ==> sep !in pieces[k]
    ensures Split(Join(pieces, sep), sep) == pieces
    decreases |pieces|
  {
    if |pieces| > 1 {
      var p, rest := pieces[0], Join(pieces[1..], sep);
      var s := Join(pieces, sep);
      assert s == p + [sep] + rest;
      IndexOfAfter(p, sep, rest);
      assert s[..|p|] == p && s[|p| + 1..] == rest;
      assert Split(s, sep) == [p] + Split(rest, sep);
      SplitJoin(pieces[1..], sep);
      assert pieces == [p] + pieces[1..];
    }
  }

  /** `s.rsplit(sep, 1)[-1]`: the text after the last `sep`, or all of `s` when there is none. */
  function AfterLast(s: string, sep: char): (r: string)
    ensures sep !in r
    ensures |r| <= |s| && r == s[|s| - |r|..]
    ensures sep in s ==> |r| < |s| && s[|s| - |r| - 1] == sep
    ensures sep !in s ==> r == s
    decreases |s|
  {
    if sep !in s then s
    else
      var i := IndexOf(s, sep);
      var r := AfterLast(s[i + 1..], sep);
      r
  }

  /** `s.startswith(p)`. */
  predicate StartsWith(s: string, p: string) {
    |p| <= |s| && s[..|p|] == p
  }

  /** `sub in s`. */
  predicate Contains(s: string, sub: string)
    decreases |s|
  {
    StartsWith(s, sub) || (|s| > 0 && Contains(s[1..], sub))
  }

  /** `str.lower` restricted to ASCII letters. */
  function LowerChar(c: char): char {
    if 'A' <= c <= 'Z' then (c as int + 32) as char else c
  }

  function Lower(s: string): (r: string)
    ensures |r| == |s|
    ensures forall i :: 0 <= i < |s| ==> r[i] == LowerChar(s[i])
  {
    if s == [] then [] else [LowerChar(s[0])] + Lower(s[1..])
  }

  predicate IsDigit(c: char) { '0' <= c <= '9' }

  /** `str.isalnum` for one character, restricted to ASCII. */
  predicate IsAlnum(c: char) {
    IsDigit(c) || ('a' <= c <= 'z') || ('A' <= c <= 'Z')
  }

  predicate AllDigits(s: string) {
    forall i :: 0 <= i < |s| ==> IsDigit(s[i])
  }

  /** The value of a string of decimal digits. */
  function DigitsValue(s: string): nat
    requires AllDigits(s)
  {
    if s == [] then 0 else DigitsValue(s[..|s| - 1]) * 10 + (s[|s| - 1] as int - '0' as int)
  }

  /** The decimal digits of `n`, with no leading zero. */
  function NatToString(n: nat): (r: string)
    ensures |r| >= 1 && AllDigits(r)
    ensures |r| > 1 ==> r[0] != '0'
  {
    if n < 10 then [('0' as int + n) as char]
    else NatToString(n / 10) + [('0' as int + n % 10) as char]
  }

  /** `str(i)` (and `f"{i}"`) for an integer. */
  function IntToString(i: int): string {
    if i < 0 then "-" + NatToString(-i) else NatToString(i)
  }

  /**
   * Python's `int(s)` for a string: surrounding whitespace is ignored, one
   * optional sign, then at least one decimal digit; anything else raises
   * (None).
   */
  function ParseInt(s: string): (r: Option<int>)
    ensures r.Some? ==> var t := Strip(s); |t| > 0 && AllDigits(if t[0] == '-' || t[0] == '+' then t[1..] else t)
  {
    var t := Strip(s);
    if |t| > 0 && (t[0] == '-' || t[0] == '+') then
      var ds := t[1..];
      if |ds| > 0 && AllDigits(ds) then Some(if t[0] == '-' then -(DigitsValue(ds) as int) else DigitsValue(ds) as int)
      else None
    else if |t| > 0 && AllDigits(t) then Some(DigitsValue(t))
    else None
  }

  lemma {:induction false} DigitsOfNat(n: nat)
    ensures DigitsValue(NatToString(n)) == n
  {
    if n >= 10 {
      var r := NatToString(n);
      assert r[..|r| - 1] == NatToString(n / 10);
      DigitsOfNat(n / 10);
    }
  }

  /** A run of digits with no edge whitespace parses to its value. */
  lemma ParseUnsigned(t: string)
    requires |t| > 0 && AllDigits(t) && Strip(t) == t
    ensures ParseInt(t) == Some(DigitsValue(t))
  {
    assert IsDigit(t[0]);
  }

  /** A '-' followed by a run of digits, with no edge whitespace, parses to minus the value of the digits. */
  lemma ParseNegative(t: string, ds: string)
    requires |t| > 1 && t[0] == '-' && t[1..] == ds && AllDigits(ds) && Strip(t) == t
    ensures ParseInt(t) == Some(-(DigitsValue(ds) as int))
  {
  }

  /** The rendering of a natural number parses back to it. */
  lemma NaturalRoundTrip(n: int)
    requires n >= 0
    ensures ParseInt(IntToString(n)) == Some(n)
  {
    var s := NatToString(n);
    assert IntToString(n) == s;
    assert IsDigit(s[0]) && IsDigit(s[|s| - 1]);
    StripTrimmed(s);
    DigitsOfNat(n);
    ParseUnsigned(s);
  }

  /** The rendering of a negative number, '-' and the digits of its magnitude, parses back to it. */
  lemma NegativeRoundTrip(i: int)
    requires i < 0
    ensures ParseInt(IntToString(i)) == Some(i)
  {
    var n: nat := -i;
    var ds := NatToString(n);
    var s := "-" + ds;
    assert IntToString(i) == s;
    assert s[1..] == ds && s[0] == '-' && s[|s| - 1] == ds[|ds| - 1];
    assert IsDigit(ds[|ds| - 1]);
    StripTrimmed(s);
    DigitsOfNat(n);
    ParseNegative(s, ds);
  }

  /** `int(str(i)) == i`: the decimal rendering parses back to the same integer. */
  lemma ParseIntRoundTrip(i: int)
    ensures ParseInt(IntToString(i)) == Some(i)
  {
    if i < 0 {
      NegativeRoundTrip(i);
    } else {
      NaturalRoundTrip(i);
    }
  }

  /** The decimal rendering of an integer is made of digits and at most a leading '-'. */
  lemma IntToStringChars(i: int)
    ensures forall k :: 0 <= k < |IntToString(i)| ==>
      IsDigit(IntToString(i)[k]) || (k == 0 && IntToString(i)[k] == '-')
  {
  }

  /** No decimal integer followed by a separator is a proper prefix of another one. */
  lemma {:induction false} IntPrefixLength(a: int, b: int, sep: char, sa: string, sb: string)
    requires !IsDigit(sep)
    requires IntToString(a) + [sep] + sa == IntToString(b) + [sep] + sb
    ensures |IntToString(a)| >= |IntToString(b)|
  {
    var x, y := IntToString(a), IntToString(b);
    var s := x + [sep] + sa;
    IntToStringChars(b);
    assert |x| >= 1;
    assert s[|x|] == sep;
  }

  /**
   * A decimal integer followed by a separator that is not a digit (a '-'
   * included, since a rendering holds one only in front) can be read back: the integer and what follows are both determined.
   */
  lemma {:induction false} IntPrefixUnique(a: int, b: int, sep: char, sa: string, sb: string)
    requires !IsDigit(sep)
    requires IntToString(a) + [sep] + sa == IntToString(b) + [sep] + sb
    ensures a == b && sa == sb
  {
    var x, y := IntToString(a), IntToString(b);
    var s := x + [sep] + sa;
    IntPrefixLength(a, b, sep, sa, sb);
    IntPrefixLength(b, a, sep, sb, sa);
    assert x == s[..|x|] == y;
    ParseIntRoundTrip(a);
    ParseIntRoundTrip(b);
    assert sa == s[|x| + 1..] == sb;
  }
}
