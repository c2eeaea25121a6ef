/**
 * The two pieces of text formatting the error map relies on: Go's `%d`
 * rendering of an int, and the newline-separated message of a joined error.
 * Each comes with its inverse, so that a rendered message can be read back.
 */
module Text {
  import opened Wrappers

  predicate IsDigit(c: char) {
    '0' <= c <= '9'
  }

  predicate AllDigits(s: string) {
    |s| > 0 && forall i :: 0 <= i < |s| ==> IsDigit(s[i])
  }

  function DigitChar(d: nat): (c: char)
    requires d < 10
  {
    (('0' as int) + d) as char
  }

  function DigitValue(c: char): (d: nat)
    requires IsDigit(c)
  {
    (c as int) - ('0' as int)
  }

  /** The decimal digits of `n`, most significant first, without leading zeros. */
  function NatDigits(n: nat): (s: string)
    ensures AllDigits(s)
    ensures |s| > 1 ==> s[0] != '0'
    decreases n
  {
    if n < 10 then [DigitChar(n)] else NatDigits(n / 10) + [DigitChar(n % 10)]
  }

  /** Go's `%d` verb on an int: a minus sign for negative values, then the digits. */
  function Decimal(k: int): (s: string)
    ensures |s| > 0
    ensures ':' !in s && '\n' !in s
    ensures s[0] == '-' <==> k < 0
  {
    if k < 0 then "-" + NatDigits(-k) else NatDigits(k)
  }

  /** The value of a non-empty digit string. */
  function DigitsValue(s: string): nat
    requires AllDigits(s)
  {
    if |s| == 1 then DigitValue(s[0])
    else DigitsValue(s[..|s| - 1]) * 10 + DigitValue(s[|s| - 1])
  }

  /** Reads back what `Decimal` renders: an optional minus sign, then digits. */
  function ParseInt(s: string): Option<int>
  {
    if |s| > 0 && s[0] == '-' then
      if AllDigits(s[1..]) then Some(0 - DigitsValue(s[1..]) as int) else None
    else if AllDigits(s) then Some(DigitsValue(s))
    else None
  }

  lemma {:induction false} DigitsRoundTrip(n: nat)
    ensures DigitsValue(NatDigits(n)) == n
    decreases n
  {
    if n >= 10 {
      DigitsRoundTrip(n / 10);
      var s := NatDigits(n);
      assert s[..|s| - 1] == NatDigits(n / 10);
    }
  }

  /** `%d` loses nothing: the rendering of every int parses back to it. */
  lemma DecimalRoundTrip(k: int)
    ensures ParseInt(Decimal(k)) == Some(k)
  {
    var s := Decimal(k);
    if k < 0 {
      var digits := NatDigits(-k);
      assert s == "-" + digits;
      assert s[1..] == digits;
      DigitsRoundTrip(-k);
    } else {
      assert s == NatDigits(k);
      assert s[0] != '-';
      DigitsRoundTrip(k);
    }
  }

  /** The first position of `c` in `s`, if any. */
  function IndexOf(s: string, c: char): (r: Option<nat>)
    ensures r.None? <==> c !in s
    ensures r.Some? ==> r.value < |s| && s[r.value] == c && c !in s[..r.value]
  {
    if |s| == 0 then None
    else if s[0] == c then Some(0)
    else match IndexOf(s[1..], c)
      case None => None
      case Some(i) => Some(i + 1)
  }

  /** The first `c` of `a + [c] + b` is the one after `a` when `a` has none. */
  lemma IndexOfFirst(a: string, c: char, b: string)
    requires c !in a
    ensures IndexOf(a + [c] + b, c) == Some(|a|)
  {
    var s := a + [c] + b;
    assert s[|a|] == c;
    assert forall j :: 0 <= j < |a| ==> s[j] == a[j];
    assert forall j :: |a| < j <= |s| ==> s[..j][|a|] == c;
  }

  /** The message of Go's `errors.Join`: the messages, separated by newlines. */
  function JoinLines(lines: seq<string>): (s: string)
    ensures |lines| > 0 ==> lines[0] <= s
    ensures '\n' !in s <==> |lines| <= 1 && forall i :: 0 <= i < |lines| ==> '\n' !in lines[i]
    decreases |lines|
  {
    if |lines| == 0 then ""
    else if |lines| == 1 then lines[0]
    else lines[0] + "\n" + JoinLines(lines[1..])
  }

  /** Cuts a text at every newline; the inverse of `JoinLines`. */
  function SplitLines(s: string): (lines: seq<string>)
    ensures |lines| > 0
    ensures forall i :: 0 <= i < |lines| ==> '\n' !in lines[i]
    decreases |s|
  {
    match IndexOf(s, '\n')
    case None => [s]
    case Some(i) => [s[..i]] + SplitLines(s[i + 1..])
  }

  /** A newline-free line followed by a newline splits off as the first line. */
  lemma SplitFirst(line: string, rest: string)
    requires '\n' !in line
    ensures SplitLines(line + "\n" + rest) == [line] + SplitLines(rest)
  {
    var s := line + "\n" + rest;
    IndexOfFirst(line, '\n', rest);
    assert s[..|line|] == line;
    assert s[|line| + 1..] == rest;
  }

  /** Joining newline-free lines and splitting the result gives the lines back. */
  lemma {:induction false} SplitJoin(lines: seq<string>)
    requires |lines| > 0
    requires forall i :: 0 <= i < |lines| ==> '\n' !in lines[i]
    ensures SplitLines(JoinLines(lines)) == lines
    decreases |lines|
  {
    if |lines| > 1 {
      SplitFirst(lines[0], JoinLines(lines[1..]));
      SplitJoin(lines[1..]);
      assert lines == [lines[0]] + lines[1..];
    } else {
      assert IndexOf(lines[0], '\n').None?;
    }
  }

  /** Splitting a text and joining the pieces gives the text back. */
  lemma {:induction false} JoinSplit(s: string)
    ensures JoinLines(SplitLines(s)) == s
    decreases |s|
  {
    match IndexOf(s, '\n')
    case None =>
    case Some(i) =>
      JoinSplit(s[i + 1..]);
      assert s == s[..i] + "\n" + s[i + 1..];
  }
}
