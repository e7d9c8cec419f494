/**
 * The strings the page shows: the two-digit `pad`, the `SxxEyy` episode code
 * and the "Displaying k/n episodes." count label, each with a decoder that
 * reads its parts back.
 */
module Format {
  import opened Wrappers
  import opened Text
  import opened Decimal

  /** `s.padStart(width, fill)` for a one-character fill string. */
  function PadStart(s: string, width: nat, fill: char): string
    decreases width - |s|
  {
    if |s| >= width then s else PadStart([fill] + s, width, fill)
  }

  /** `pad(num)`: `num.toString().padStart(2, "0")`. */
  function Pad(n: int): (r: string)
  {
    PadStart(ToString(n), 2, '0')
  }

  /** `pad(n)` still denotes `n`. */
  lemma PadDenotes(n: int)
    ensures ParseDecimal(Pad(n)) == Some(n)
  {
    ParseToString(n);
    if 0 <= n < 10 {
      assert PadStart("0" + ToString(n), 2, '0') == "0" + ToString(n);
      ValueLeadingZero(ToString(n));
    }
  }

  /** `pad(n)` is made of digits and, for a negative number, a minus sign. */
  lemma PadChars(n: int)
    ensures forall i :: 0 <= i < |Pad(n)| ==> IsDigit(Pad(n)[i]) || Pad(n)[i] == '-'
    ensures n >= 0 ==> AllDigits(Pad(n))
  {
    if 0 <= n < 10 {
      assert PadStart("0" + ToString(n), 2, '0') == "0" + ToString(n);
    }
  }

  /**
   * A number from 0 to 9 gets one leading zero; any other number keeps its
   * own decimal form. Either way the result has at least two characters and
   * still denotes `n`.
   */
  lemma PadSpec(n: int)
    ensures 0 <= n < 10 ==> Pad(n) == ['0', DigitChar(n)]
    ensures !(0 <= n < 10) ==> Pad(n) == ToString(n)
    ensures |Pad(n)| >= 2
    ensures ParseDecimal(Pad(n)) == Some(n)
  {
    PadDenotes(n);
    if 0 <= n < 10 {
      assert PadStart("0" + ToString(n), 2, '0') == "0" + ToString(n);
    }
  }

  /** Reads two numerals, both of which must parse. */
  function ParsePair(parts: (string, string)): Option<(int, int)>
  {
    match ParseDecimal(parts.0)
    case None => None
    case Some(x) =>
      match ParseDecimal(parts.1)
      case None => None
      case Some(y) => Some((x, y))
  }

  /** The episode code `S{pad(season)}E{pad(number)}`. */
  function EpisodeCode(season: int, number: int): (r: string)
  {
    "S" + Pad(season) + "E" + Pad(number)
  }

  /** Reads a season and an episode number back from an episode code. */
  function DecodeEpisodeCode(code: string): Option<(int, int)>
  {
    if code == [] || code[0] != 'S' then None
    else match SplitAt(code[1..], 'E')
      case None => None
      case Some(parts) => ParsePair(parts)
  }

  lemma {:induction false} DecodeJoinedCode(a: string, b: string, season: int, number: int)
    requires 'E' !in a
    requires ParseDecimal(a) == Some(season) && ParseDecimal(b) == Some(number)
    ensures DecodeEpisodeCode("S" + a + "E" + b) == Some((season, number))
  {
    var code := "S" + a + "E" + b;
    assert code[0] == 'S';
    assert code[1..] == a + ['E'] + b;
    SplitAtJoin(a, 'E', b);
  }

  /** Every episode code decodes to the season and number it was made from. */
  lemma EpisodeCodeRoundTrip(season: int, number: int)
    ensures DecodeEpisodeCode(EpisodeCode(season, number)) == Some((season, number))
  {
    PadChars(season);
    PadDenotes(season);
    PadDenotes(number);
    assert 'E' !in Pad(season);
    DecodeJoinedCode(Pad(season), Pad(number), season, number);
  }

  /** Different (season, number) pairs never share an episode code. */
  lemma EpisodeCodeInjective(s1: int, n1: int, s2: int, n2: int)
    requires EpisodeCode(s1, n1) == EpisodeCode(s2, n2)
    ensures s1 == s2 && n1 == n2
  {
    EpisodeCodeRoundTrip(s1, n1);
    EpisodeCodeRoundTrip(s2, n2);
  }

  /** The text of an episode's dropdown option: `S01E02 - name`. */
  function EpisodeOptionLabel(season: int, number: int, name: string): string
  {
    EpisodeCode(season, number) + " - " + name
  }

  const CountPrefix: string := "Displaying "
  const CountSuffix: string := " episodes."

  /** The match count: `Displaying ${shown}/${total} episodes.` */
  function CountLabel(shown: nat, total: nat): (r: string)
  {
    CountPrefix + ToString(shown) + "/" + ToString(total) + CountSuffix
  }

  /** Reads the two counts back from a count label. */
  function DecodeCountLabel(line: string): Option<(int, int)>
  {
    var p, q := |CountPrefix|, |CountSuffix|;
    if |line| < p + q || line[..p] != CountPrefix || line[|line| - q..] != CountSuffix then None
    else match SplitAt(line[p..|line| - q], '/')
      case None => None
      case Some(parts) => ParsePair(parts)
  }

  lemma {:induction false} DecodeJoinedLabel(a: string, b: string, shown: int, total: int)
    requires '/' !in a
    requires ParseDecimal(a) == Some(shown) && ParseDecimal(b) == Some(total)
    ensures DecodeCountLabel(CountPrefix + a + "/" + b + CountSuffix) == Some((shown, total))
  {
    var line := CountPrefix + a + "/" + b + CountSuffix;
    var p, q := |CountPrefix|, |CountSuffix|;
    assert line == CountPrefix + (a + ['/'] + b) + CountSuffix;
    assert line[..p] == CountPrefix;
    assert line[|line| - q..] == CountSuffix;
    assert line[p..|line| - q] == a + ['/'] + b;
    SplitAtJoin(a, '/', b);
  }

  /** Every count label decodes to the two counts it was made from. */
  lemma CountLabelRoundTrip(shown: nat, total: nat)
    ensures DecodeCountLabel(CountLabel(shown, total)) == Some((shown as int, total as int))
  {
    ParseToString(shown);
    ParseToString(total);
    assert '/' !in ToString(shown);
    DecodeJoinedLabel(ToString(shown), ToString(total), shown, total);
  }

  /** A count label determines both counts. */
  lemma CountLabelInjective(k1: nat, n1: nat, k2: nat, n2: nat)
    requires CountLabel(k1, n1) == CountLabel(k2, n2)
    ensures k1 == k2 && n1 == n2
  {
    CountLabelRoundTrip(k1, n1);
    CountLabelRoundTrip(k2, n2);
  }
}
