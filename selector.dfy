/**
 * The callback data of the bot's inline buttons (main.py): a download choice
 * is the string `url|itag`, decoded by `download_handler` with an `in` test,
 * `rsplit('|', 1)` and `int(itag)`; the language buttons carry a bare
 * language code; the dispatcher routes on that difference.
 */
module Selector {
  import opened Wrappers
  import opened Decimal
  import Strings

  const Delimiter: char := '|'

  /** The callback data of the three language buttons (buttons.py), the set the language handler's filter tests. */
  const LanguageCodes: seq<string> := ["UZB", "ENG", "RUS"]

  /** `f"{msg.text}|{stream.itag}"`. */
  function Encode(url: string, itag: nat): (r: string)
    ensures Strings.StartsWith(r, url + [Delimiter])
    ensures r[|url|] == Delimiter && AllDigits(r[|url| + 1..]) && Value(r[|url| + 1..]) == itag
  {
    assert (url + [Delimiter] + Digits(itag))[|url| + 1..] == Digits(itag);
    ValueOfDigits(itag);
    url + [Delimiter] + Digits(itag)
  }

  /** The outcomes of decoding callback data in `download_handler`. */
  datatype Decoded =
    | Malformed                       // no '|': ValueError('Invalid callback data format.')
    | BadItag(literal: string)        // the text after the last '|' is rejected by int()
    | Choice(url: string, itag: int)

  /** `'|' in data`, then `url, itag = data.rsplit('|', 1)`, then `int(itag)`. */
  function Decode(data: string): (r: Decoded)
    ensures r.Malformed? <==> Delimiter !in data
    ensures r.Choice? ==>
      && Strings.StartsWith(data, r.url + [Delimiter])
      && Delimiter !in data[|r.url| + 1..]
      && ParseInt(data[|r.url| + 1..]) == Some(r.itag)
    ensures r.BadItag? ==>
      && |r.literal| < |data|
      && data[|data| - |r.literal|..] == r.literal && data[|data| - |r.literal| - 1] == Delimiter
      && Delimiter !in r.literal && ParseInt(r.literal).None?
  {
    match Strings.SplitLast(data, Delimiter)
    case None => Malformed
    case Some((url, literal)) =>
      assert data[|url| + 1..] == literal && data[|data| - |literal|..] == literal;
      match ParseInt(literal)
      case None => BadItag(literal)
      case Some(itag) => Choice(url, itag)
  }

  /**
   * Decoding an encoded choice gives back exactly the url and the itag, even
   * when the url itself contains '|': the itag's digits never do.
   */
  lemma DecodeEncode(url: string, itag: nat)
    ensures Decode(Encode(url, itag)) == Choice(url, itag)
  {
    NoDelimiterInDigits(Digits(itag));
    Strings.SplitLastOfJoin(url, Delimiter, Digits(itag));
    ParseIntOfDigits(itag);
  }

  /**
   * An itag led by an information separator is rejected by `int()`, so the
   * handler reports it instead of resolving a stream.
   */
  lemma DecodeRejectsSeparator(url: string, itag: nat)
    ensures Decode(url + [Delimiter] + (['\U{1C}'] + Digits(itag))) == BadItag(['\U{1C}'] + Digits(itag))
  {
    var literal := ['\U{1C}'] + Digits(itag);
    NoDelimiterInDigits(Digits(itag));
    assert Delimiter !in literal;
    Strings.SplitLastOfJoin(url, Delimiter, literal);
    ParseIntRejectsSeparator(itag);
  }

  lemma NoDelimiterInDigits(s: string)
    requires AllDigits(s)
    ensures Delimiter !in s
  {
  }

  /** Which callback handler the dispatcher runs: the language filter is registered first, the catch-all second. */
  datatype Route = ToLanguage | ToDownload

  /**
   * The filter of the language handler is exactly this membership test; what
   * routing means for the bot's own buttons is stated by the two lemmas below.
   */
  function RouteOf(data: string): (r: Route)
    ensures r == ToLanguage <==> data in LanguageCodes
  {
    if data in LanguageCodes then ToLanguage else ToDownload
  }

  /** Every encoded download choice reaches the download handler, never the language handler. */
  lemma EncodedChoiceRoutesToDownload(url: string, itag: nat)
    ensures RouteOf(Encode(url, itag)) == ToDownload
  {
    var s := Encode(url, itag);
    assert Delimiter in s by {
      assert s[|url|] == Delimiter;
    }
    forall code | code in LanguageCodes
      ensures s != code
    {
      assert Delimiter !in code;
    }
  }

  /** Each language button's callback data reaches the language handler. */
  lemma LanguageButtonsRouteToLanguage(i: nat)
    requires i < |LanguageCodes|
    ensures RouteOf(LanguageCodes[i]) == ToLanguage
    ensures Decode(LanguageCodes[i]) == Malformed
  {
    assert Delimiter !in LanguageCodes[i];
  }
}
