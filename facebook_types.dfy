/** Record shapes: the ad-library API's raw ad, the canonical ad and the generated concept. */
module FacebookTypes {
  import opened Wrappers

  /** A `{ lower_bound?, upper_bound? }` range as the API sends it, with strings for numbers. */
  datatype RawBounds = RawBounds(lowerBound: Option<string>, upperBound: Option<string>)

  datatype RawImage = RawImage(url: Option<string>)

  /**
   * An ad as the ad-library API returns it. Every field but `id` may be missing;
   * `stopTime` covers both a missing and a `null` stop time. Fields the
   * application never reads (captions, currency, demographics) are not carried.
   */
  datatype RawAd = RawAd(
    id: string,
    pageId: Option<string>,
    pageName: Option<string>,
    linkTitles: Option<seq<string>>,
    linkDescriptions: Option<seq<string>>,
    body: Option<string>,
    images: Option<seq<RawImage>>,
    snapshotUrl: Option<string>,
    startTime: Option<string>,
    stopTime: Option<string>,
    spend: Option<RawBounds>,
    impressions: Option<RawBounds>,
    publisherPlatforms: Option<seq<string>>
  )

  /** The canonical ad the rest of the application works with. Bounds are numbers or absent. */
  datatype CompetitorAd = CompetitorAd(
    id: string,
    pageId: string,
    pageName: string,
    headline: string,
    description: string,
    body: string,
    imageUrl: Option<string>,
    snapshotUrl: Option<string>,
    startTime: Option<string>,
    stopTime: Option<string>,
    spendLower: Option<int>,
    spendUpper: Option<int>,
    impressionsLower: Option<int>,
    impressionsUpper: Option<int>,
    platforms: Option<seq<string>>
  )

  datatype GeneratedAdConcept = GeneratedAdConcept(
    hook: string,
    primaryText: string,
    headline: string,
    description: string,
    callToAction: string,
    creativeNotes: seq<string>
  )
}
