/**
 * The formatting helpers of the morc command I/O bundle. The stream-writing
 * methods (Println, Printf and their error variants) are not modelled.
 */
module CmdIO {
  import opened Wrappers
  import opened Text

  /** The label for a switch: "ON" for true, "OFF" for false. */
  function OnOrOff(on: bool): (r: string)
    ensures r == "ON" <==> on
    ensures r == "OFF" <==> !on
  {
    if on then "ON" else "OFF"
  }

  /** The plural form: the word plus the first suffix given, "s" when none is. */
  function PluralForm(word: string, suffixes: seq<string>): string
  {
    word + (if |suffixes| > 0 then suffixes[0] else "s")
  }

  /** The singular form: the word plus the second suffix given, nothing when
      fewer than two are. */
  function SingularForm(word: string, suffixes: seq<string>): string
  {
    word + (if |suffixes| > 1 then suffixes[1] else "")
  }

  /** The count in decimal, one space, then the singular form when the count
      is exactly 1 and the plural form otherwise. */
  function CountOf(count: int, word: string, suffixes: seq<string>): string
  {
    var desc := if count == 1 then SingularForm(word, suffixes) else PluralForm(word, suffixes);
    IntToDecimal(count) + " " + desc
  }

  /** Splits "<count> <description>" at its first space. */
  function ParseCount(s: string): Option<(int, string)>
  {
    match SplitFirst(s, ' ')
    case None => None
    case Some((num, desc)) =>
      match ParseInt(num)
      case None => None
      case Some(n) => Some((n, desc))
  }

  /** A CountOf text reads back as its count and the form chosen for it:
      the singular exactly when the count is 1. */
  lemma CountOfRoundTrip(count: int, word: string, suffixes: seq<string>)
    ensures ParseCount(CountOf(count, word, suffixes))
         == Some((count, if count == 1 then SingularForm(word, suffixes) else PluralForm(word, suffixes)))
  {
    IntToDecimalRoundTrip(count);
    var num := IntToDecimal(count);
    var desc := if count == 1 then SingularForm(word, suffixes) else PluralForm(word, suffixes);
    var s := CountOf(count, word, suffixes);
    assert s == num + [' '] + desc;
    SplitFirstOfJoined(num, ' ', desc);
  }

  /** Without suffixes the singular is the word and the plural the word plus "s". */
  lemma CountOfDefaultForms(count: int, word: string)
    ensures count == 1 ==> CountOf(count, word, []) == IntToDecimal(count) + " " + word
    ensures count != 1 ==> CountOf(count, word, []) == IntToDecimal(count) + " " + word + "s"
  {
  }

  /** The first suffix replaces the plural "s", the second the empty singular
      suffix, and any further suffixes change nothing. */
  lemma CountOfSuffixOverrides(count: int, word: string, suffixes: seq<string>)
    ensures |suffixes| >= 1 ==> PluralForm(word, suffixes) == word + suffixes[0]
    ensures |suffixes| >= 2 ==> SingularForm(word, suffixes) == word + suffixes[1]
    ensures |suffixes| == 1 ==> SingularForm(word, suffixes) == word
    ensures |suffixes| >= 2 ==> CountOf(count, word, suffixes) == CountOf(count, word, suffixes[..2])
  {
  }
}
