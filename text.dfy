/**
 * The string operations of Go's standard library that the commands use,
 * restricted to what the commands depend on:
 *  - ASCII case mapping (strings.ToLower / strings.ToUpper),
 *  - decimal rendering of an int (the `%d` verb) and its inverse,
 *  - quoting (the `%q` verb) and its inverse,
 *  - strings.Join,
 *  - strings.SplitN(s, sep, 2) for a one-character separator.
 */
module Text {
  import opened Wrappers

  // ---------------------------------------------------------------- case

  function LowerChar(c: char): char
  {
    if 'A' <= c <= 'Z' then (c as int + 32) as char else c
  }

  function UpperChar(c: char): char
  {
    if 'a' <= c <= 'z' then (c as int - 32) as char else c
  }

  /** strings.ToLower on the ASCII range. */
  function ToLower(s: string): string
  {
    seq(|s|, i requires 0 <= i < |s| => LowerChar(s[i]))
  }

  /** strings.ToUpper on the ASCII range. */
  function ToUpper(s: string): string
  {
    seq(|s|, i requires 0 <= i < |s| => UpperChar(s[i]))
  }

  /** Two strings that differ at most in the case of ASCII letters. */
  predicate SameIgnoringCase(a: string, b: string)
  {
    |a| == |b| && forall i :: 0 <= i < |a| ==> LowerChar(a[i]) == LowerChar(b[i])
  }

  /** Lower-casing is a normal form: it is idempotent, and two names have the
      same lower-case form exactly when they differ only in case. */
  lemma ToLowerNormalForm(a: string, b: string)
    ensures ToLower(ToLower(a)) == ToLower(a)
    ensures ToLower(a) == ToLower(b) <==> SameIgnoringCase(a, b)
  {
    if ToLower(a) == ToLower(b) {
      forall i | 0 <= i < |a| ensures LowerChar(a[i]) == LowerChar(b[i]) {
        assert ToLower(a)[i] == ToLower(b)[i];
      }
    }
  }

  // ---------------------------------------------------------------- decimal

  predicate IsDigit(c: char)
  {
    '0' <= c <= '9'
  }

  predicate AllDigits(s: string)
  {
    forall i :: 0 <= i < |s| ==> IsDigit(s[i])
  }

  function DigitChar(d: nat): char
    requires d < 10
  {
    ('0' as int + d) as char
  }

  function DigitValue(c: char): nat
    requires IsDigit(c)
  {
    c as int - '0' as int
  }

  /** Decimal digits of a natural number, most significant first, no leading zero. */
  function NatToDecimal(n: nat): string
  {
    if n < 10 then [DigitChar(n)] else NatToDecimal(n / 10) + [DigitChar(n % 10)]
  }

  /** The `%d` rendering of an int: a minus sign for negative values, then the digits. */
  function IntToDecimal(n: int): string
  {
    if n < 0 then "-" + NatToDecimal(-n) else NatToDecimal(n)
  }

  function DigitsValue(s: string): nat
    requires AllDigits(s)
  {
    if |s| == 0 then 0 else DigitsValue(s[..|s| - 1]) * 10 + DigitValue(s[|s| - 1])
  }

  /** Reads back an optionally signed decimal integer. */
  function ParseInt(s: string): Option<int>
  {
    if |s| > 1 && s[0] == '-' && AllDigits(s[1..]) then Some(-(DigitsValue(s[1..]) as int))
    else if |s| > 0 && AllDigits(s) then Some(DigitsValue(s))
    else None
  }

  lemma {:induction false} NatToDecimalDigits(n: nat)
    ensures |NatToDecimal(n)| > 0 && AllDigits(NatToDecimal(n))
    ensures DigitsValue(NatToDecimal(n)) == n
  {
    if n >= 10 {
      NatToDecimalDigits(n / 10);
      var s := NatToDecimal(n);
      assert s[..|s| - 1] == NatToDecimal(n / 10);
    }
  }

  /** `%d` is read back by ParseInt, and its text holds no space or '!'. */
  lemma IntToDecimalRoundTrip(n: int)
    ensures ParseInt(IntToDecimal(n)) == Some(n)
    ensures |IntToDecimal(n)| > 0
    ensures ' ' !in IntToDecimal(n) && '!' !in IntToDecimal(n)
  {
    if n < 0 {
      NatToDecimalDigits(-n);
      assert IntToDecimal(n)[1..] == NatToDecimal(-n);
    } else {
      NatToDecimalDigits(n);
    }
  }

  // ---------------------------------------------------------------- quoting

  /** The escape `%q` writes for one character: backslash and double quote are
      escaped, as are newline, tab and carriage return. */
  function EscapeChar(c: char): string
  {
    if c == '"' then "\\\""
    else if c == '\\' then "\\\\"
    else if c == '\n' then "\\n"
    else if c == '\t' then "\\t"
    else if c == '\r' then "\\r"
    else [c]
  }

  function Escape(s: string): string
  {
    if |s| == 0 then "" else EscapeChar(s[0]) + Escape(s[1..])
  }

  /** The `%q` rendering of a string. */
  function Quote(s: string): string
  {
    "\"" + Escape(s) + "\""
  }

  /** The character an escape code after a backslash stands for. */
  function UnescapeCode(c: char): Option<char>
  {
    if c == '"' then Some('"')
    else if c == '\\' then Some('\\')
    else if c == 'n' then Some('\n')
    else if c == 't' then Some('\t')
    else if c == 'r' then Some('\r')
    else None
  }

  function Unescape(s: string): Option<string>
    decreases |s|
  {
    if |s| == 0 then Some("")
    else if s[0] == '"' then None
    else if s[0] != '\\' then
      match Unescape(s[1..])
      case Some(t) => Some([s[0]] + t)
      case None => None
    else if |s| < 2 then None
    else
      match UnescapeCode(s[1])
      case None => None
      case Some(c) =>
        match Unescape(s[2..])
        case Some(t) => Some([c] + t)
        case None => None
  }

  /** Reads back a quoted string. */
  function Unquote(s: string): Option<string>
  {
    if |s| >= 2 && s[0] == '"' && s[|s| - 1] == '"' then Unescape(s[1..|s| - 1]) else None
  }

  /** Unescaping reads one escaped character back off the front. */
  lemma UnescapeCons(c: char, rest: string)
    requires Unescape(rest).Some?
    ensures Unescape(EscapeChar(c) + rest) == Some([c] + Unescape(rest).value)
  {
    var e := EscapeChar(c) + rest;
    if |EscapeChar(c)| == 1 {
      assert e[0] == c && c != '"' && c != '\\';
      assert e[1..] == rest;
    } else {
      assert e[0] == '\\' && UnescapeCode(e[1]) == Some(c);
      assert e[2..] == rest;
    }
  }

  lemma {:induction false} UnescapeEscape(s: string)
    ensures Unescape(Escape(s)) == Some(s)
  {
    if |s| > 0 {
      UnescapeEscape(s[1..]);
      UnescapeCons(s[0], Escape(s[1..]));
      assert s == [s[0]] + s[1..];
    }
  }

  /** Quoting loses nothing: the quoted text reads back as the original. */
  lemma QuoteRoundTrip(s: string)
    ensures Unquote(Quote(s)) == Some(s)
  {
    UnescapeEscape(s);
    assert Quote(s)[1..|Quote(s)| - 1] == Escape(s);
  }

  // ---------------------------------------------------------------- join

  /** strings.Join: the parts with the separator between neighbours. */
  function Join(parts: seq<string>, sep: string): string
  {
    if |parts| == 0 then ""
    else if |parts| == 1 then parts[0]
    else parts[0] + sep + Join(parts[1..], sep)
  }

  predicate OccursAt(s: string, part: string, p: nat)
  {
    p + |part| <= |s| && s[p..p + |part|] == part
  }

  ghost predicate Contains(s: string, part: string)
  {
    exists p: nat :: OccursAt(s, part, p)
  }

  lemma ContainsWithin(pre: string, s: string, post: string, part: string)
    requires Contains(s, part)
    ensures Contains(pre + s + post, part)
  {
    var p: nat :| OccursAt(s, part, p);
    var whole := pre + s + post;
    assert whole[|pre| + p..|pre| + p + |part|] == s[p..p + |part|];
    assert OccursAt(whole, part, |pre| + p);
  }

  /** Every part is found in the joined text. */
  lemma {:induction false} JoinContainsEach(parts: seq<string>, sep: string, i: nat)
    requires i < |parts|
    ensures Contains(Join(parts, sep), parts[i])
  {
    if |parts| == 1 {
      assert OccursAt(Join(parts, sep), parts[0], 0);
    } else if i == 0 {
      assert Join(parts, sep) == parts[0] + (sep + Join(parts[1..], sep));
      assert OccursAt(Join(parts, sep), parts[0], 0);
    } else {
      JoinContainsEach(parts[1..], sep, i - 1);
      ContainsWithin(parts[0] + sep, Join(parts[1..], sep), "", parts[i]);
      assert parts[0] + sep + Join(parts[1..], sep) + "" == Join(parts, sep);
    }
  }

  // ---------------------------------------------------------------- split

  /** Position of the first occurrence of c in s. */
  function IndexOf(s: string, c: char): (r: Option<nat>)
    ensures r.None? <==> c !in s
    ensures r.Some? ==> r.value < |s| && s[r.value] == c && c !in s[..r.value]
  {
    if |s| == 0 then None
    else if s[0] == c then Some(0)
    else match IndexOf(s[1..], c)
      case None => None
      case Some(i) =>
        assert s[..i + 1] == [s[0]] + s[1..][..i];
        Some(i + 1)
  }

  /** strings.SplitN(s, [sep], 2) when it yields two parts: the text before the
      first sep and everything after it; None when sep does not occur. */
  function SplitFirst(s: string, sep: char): (r: Option<(string, string)>)
    ensures r.None? <==> sep !in s
    ensures r.Some? ==> s == r.value.0 + [sep] + r.value.1 && sep !in r.value.0
  {
    match IndexOf(s, sep)
    case None => None
    case Some(i) =>
      assert s == s[..i] + [sep] + s[i + 1..];
      Some((s[..i], s[i + 1..]))
  }

  /** Splitting at the first separator undoes gluing two halves together
      when the first half holds no separator. */
  lemma SplitFirstOfJoined(a: string, sep: char, b: string)
    requires sep !in a
    ensures SplitFirst(a + [sep] + b, sep) == Some((a, b))
  {
    var s := a + [sep] + b;
    var r := SplitFirst(s, sep).value;
    assert s[|a|] == sep;
    assert r.0 == s[..|a|] == a;
    assert r.1 == s[|a| + 1..] == b;
  }
}
