/** Conversion of raw ad-library records into canonical ads (`normaliseAds`). */
module Normalizer {
  import opened Wrappers
  import opened Numbers
  import opened FacebookTypes
  import opened SampleData

  /** What `getBoundAsNumber` accepts as a number: non-empty text that `Number` reads as a finite value. */
  predicate IsBoundText(s: string) {
    s != [] && (Trim(s) == [] || IsDecimalInteger(Trim(s)))
  }

  /**
   * `getBoundAsNumber`: a missing or empty string is absent, and so is text that
   * does not read as a finite number. Anything else is its numeric value.
   */
  function GetBoundAsNumber(value: Option<string>): (r: Option<int>)
    ensures r.Some? <==> value.Some? && IsBoundText(value.value)
    ensures value.Some? && value.value != [] && Trim(value.value) == [] ==> r == Some(0)
    ensures value.Some? && IsDecimalInteger(Trim(value.value)) ==> r == Some(DecimalValue(Trim(value.value)))
  {
    match value
    case None => None
    case Some(s) => if s == [] then None else JsNumber(s)
  }

  /** A bound rendered as a decimal integer comes back unchanged. */
  lemma BoundRoundTrip(n: int)
    ensures GetBoundAsNumber(Some(IntToString(n))) == Some(n)
  {
    IntToStringJsNumber(n);
  }

  /** The lower or upper end of an optional raw range (`ad.spend?.lower_bound`). */
  function LowerOf(b: Option<RawBounds>): Option<string> {
    match b
    case None => None
    case Some(r) => r.lowerBound
  }

  function UpperOf(b: Option<RawBounds>): Option<string> {
    match b
    case None => None
    case Some(r) => r.upperBound
  }

  /** `xs?.[0] ?? default` */
  function FirstOr(xs: Option<seq<string>>, default: string): (r: string)
    ensures xs.Some? && |xs.value| > 0 ==> r == xs.value[0]
    ensures xs.None? || |xs.value| == 0 ==> r == default
  {
    if xs.Some? && |xs.value| > 0 then xs.value[0] else default
  }

  /** `ad.ad_creative_images?.[0]?.url` */
  function FirstImageUrl(images: Option<seq<RawImage>>): (r: Option<string>)
    ensures images.Some? && |images.value| > 0 ==> r == images.value[0].url
    ensures images.None? || |images.value| == 0 ==> r.None?
  {
    if images.Some? && |images.value| > 0 then images.value[0].url else None
  }

  /** The canonical form of one raw ad. */
  function NormaliseAd(ad: RawAd): (r: CompetitorAd)
    ensures r.id == ad.id
    ensures r.pageId == (if ad.pageId.Some? then ad.pageId.value else "")
    ensures r.pageName == (if ad.pageName.Some? then ad.pageName.value else "Unknown Page")
    ensures r.headline == FirstOr(ad.linkTitles, "") && r.description == FirstOr(ad.linkDescriptions, "")
    ensures r.body == (if ad.body.Some? then ad.body.value else "")
    ensures r.imageUrl == FirstImageUrl(ad.images)
    ensures r.spendLower == GetBoundAsNumber(LowerOf(ad.spend))
    ensures r.spendUpper == GetBoundAsNumber(UpperOf(ad.spend))
    ensures r.impressionsLower == GetBoundAsNumber(LowerOf(ad.impressions))
    ensures r.impressionsUpper == GetBoundAsNumber(UpperOf(ad.impressions))
    ensures r.spendLower.Some? <==> LowerOf(ad.spend).Some? && IsBoundText(LowerOf(ad.spend).value)
    ensures r.spendUpper.Some? <==> UpperOf(ad.spend).Some? && IsBoundText(UpperOf(ad.spend).value)
    ensures r.impressionsLower.Some? <==> LowerOf(ad.impressions).Some? && IsBoundText(LowerOf(ad.impressions).value)
    ensures r.impressionsUpper.Some? <==> UpperOf(ad.impressions).Some? && IsBoundText(UpperOf(ad.impressions).value)
    ensures r.snapshotUrl == ad.snapshotUrl && r.startTime == ad.startTime && r.stopTime == ad.stopTime
    ensures r.platforms == ad.publisherPlatforms
  {
    CompetitorAd(
      ad.id,
      ad.pageId.GetOr(""),
      ad.pageName.GetOr("Unknown Page"),
      FirstOr(ad.linkTitles, ""),
      FirstOr(ad.linkDescriptions, ""),
      ad.body.GetOr(""),
      FirstImageUrl(ad.images),
      ad.snapshotUrl,
      ad.startTime,
      ad.stopTime,
      GetBoundAsNumber(LowerOf(ad.spend)),
      GetBoundAsNumber(UpperOf(ad.spend)),
      GetBoundAsNumber(LowerOf(ad.impressions)),
      GetBoundAsNumber(UpperOf(ad.impressions)),
      ad.publisherPlatforms)
  }

  /**
   * `normaliseAds`: no records (absent or empty) yields the sample dataset; otherwise
   * one canonical ad per record, in the same order.
   */
  function NormaliseAds(rawAds: Option<seq<RawAd>>): (r: seq<CompetitorAd>)
    ensures rawAds.None? || rawAds.value == [] ==> r == MockAds
    ensures rawAds.Some? && rawAds.value != [] ==>
      |r| == |rawAds.value| && forall i :: 0 <= i < |r| ==> r[i] == NormaliseAd(rawAds.value[i])
  {
    if rawAds.None? || |rawAds.value| == 0 then MockAds
    else
      var xs := rawAds.value;
      seq(|xs|, i requires 0 <= i < |xs| => NormaliseAd(xs[i]))
  }

  /** Empty and non-numeric text are absent; blank text is 0; a decimal string is its value. */
  lemma BoundExamples()
    ensures GetBoundAsNumber(Some("")) == None
    ensures GetBoundAsNumber(Some("  ")) == Some(0)
    ensures GetBoundAsNumber(Some("abc")) == None
    ensures GetBoundAsNumber(Some("500")) == Some(500)
  {
    BlankBound();
    NonNumericBound();
    DecimalBound();
  }

  lemma BlankBound()
    ensures GetBoundAsNumber(Some("  ")) == Some(0)
  {
    assert IsJsSpace(' ');
    assert "  "[1..] == " " && " "[1..] == [];
    assert TrimStart("  ") == [];
    assert Trim("  ") == [];
  }

  lemma NonNumericBound()
    ensures GetBoundAsNumber(Some("abc")) == None
  {
    TrimUnspaced("abc");
    assert !IsDigit("abc"[0]);
  }

  lemma DecimalBound()
    ensures GetBoundAsNumber(Some("500")) == Some(500)
  {
    TrimUnspaced("500");
    assert AllDigits("500");
    assert "500"[..2] == "50" && "50"[..1] == "5" && "5"[..0] == "";
    assert DigitsValue("5") == 5;
    assert DigitsValue("50") == 50;
    assert DigitsValue("500") == 500;
    assert IsDecimalInteger("500") && DecimalValue("500") == 500;
  }

  /** The example spend range `{ lower_bound: "abc", upper_bound: "500" }`. */
  lemma SpendExample(ad: RawAd)
    requires ad.spend == Some(RawBounds(Some("abc"), Some("500")))
    ensures NormaliseAd(ad).spendLower == None && NormaliseAd(ad).spendUpper == Some(500)
  {
    BoundExamples();
  }
}
