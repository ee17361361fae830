/** The rising-queries endpoint: normalisation of the links the trends
    library returns (they are site-relative) and validation of the keyword. */
module Trends {
  import opened Wrappers
  import opened Text

  const TrendsOrigin: string := "https://trends.google.com"
  /** Longest accepted keyword, in UTF-16 code units. */
  const MaxKeywordLength: nat := 64

  /** One rising query: its other fields, copied unchanged by the object
      spread, and its link (`None` for a missing or null link). */
  datatype RisingEntry<F> = RisingEntry(fields: F, link: Option<string>)

  /** The link rule of `normalizeRising`: a site-relative link gets the
      trends origin in front, any other non-empty link is kept, and a
      missing or empty link becomes null. */
  function NormalizeLink(link: Option<string>): (r: Option<string>)
    ensures link.None? || link == Some("") ==> r.None?
    ensures link.Some? && link.value != "" && link.value[0] == '/' ==> r == Some(TrendsOrigin + link.value)
    ensures link.Some? && link.value != "" && link.value[0] != '/' ==> r == link
    ensures r.Some? ==> r.value != "" && r.value[0] != '/'
  {
    if link.Some? && link.value != "" && StartsWith(link.value, "/") then Some(TrendsOrigin + link.value)
    else if link.Some? && link.value != "" then link
    else None
  }

  /** `normalizeRising(rising)`: one entry per input entry, in order, with
      only the link rewritten; a missing list gives `[]`. */
  function NormalizeRising<F>(rising: Option<seq<RisingEntry<F>>>): (r: seq<RisingEntry<F>>)
    ensures |r| == |rising.GetOr([])|
    ensures forall i :: 0 <= i < |r| ==>
      r[i].fields == rising.value[i].fields && r[i].link == NormalizeLink(rising.value[i].link)
  {
    var entries := rising.GetOr([]);
    seq(|entries|, i requires 0 <= i < |entries| => RisingEntry(entries[i].fields, NormalizeLink(entries[i].link)))
  }

  /** Normalising twice changes nothing more: every normalised link is
      absolute (or null). */
  lemma NormalizeIdempotent<F>(rising: Option<seq<RisingEntry<F>>>)
    ensures NormalizeRising(Some(NormalizeRising(rising))) == NormalizeRising(rising)
  {
    var once := NormalizeRising(rising);
    var twice := NormalizeRising(Some(once));
    forall i | 0 <= i < |once| ensures twice[i] == once[i] {
      var l := once[i].link;
      assert NormalizeLink(l) == l;
    }
  }

  datatype KeywordError = MissingKeyword | KeywordTooLong

  /** `String(param ?? '').trim()`, then: empty is missing, longer than 64
      UTF-16 code units is too long, anything else is accepted. */
  function ValidateKeyword(param: Option<string>): (r: Result<string, KeywordError>)
    ensures r.Success? ==> r.value == TrimmedParam(param) && r.value != ""
    ensures r.Success? ==> |r.value| <= MaxKeywordLength
    ensures r == Failure(MissingKeyword) <==> TrimmedParam(param) == ""
    ensures r == Failure(KeywordTooLong) <==>
      TrimmedParam(param) != "" && Utf16Length(TrimmedParam(param)) > MaxKeywordLength
  {
    var keyword := TrimmedParam(param);
    if keyword == "" then Failure(MissingKeyword)
    else if Utf16Length(keyword) > MaxKeywordLength then Failure(KeywordTooLong)
    else Success(keyword)
  }

  /** The limit counts UTF-16 code units, not characters: a keyword made
      only of characters above U+FFFF is accepted up to 32 of them, and 33
      are too long. */
  lemma AstralKeywordLimit(s: string)
    requires s != []
    requires forall i :: 0 <= i < |s| ==> s[i] as int > 0xFFFF
    ensures ValidateKeyword(Some(s)).Success? <==> |s| <= 32
    ensures |s| == 33 ==> ValidateKeyword(Some(s)) == Failure(KeywordTooLong)
  {
    AstralIsNotWhitespace(s[0]);
    AstralIsNotWhitespace(s[|s| - 1]);
    TrimTrimmed(s);
  }
}
