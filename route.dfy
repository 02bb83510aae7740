/**
 * The ads API route (`GET /api/facebook/ads`): reads the query, answers with the
 * sample ads when no access token is configured or the Graph API call fails, and
 * otherwise answers with the normalised live ads. The environment variable and the
 * network are parameters: `accessToken` is `process.env.FACEBOOK_ACCESS_TOKEN` and
 * `fetched` is what the single Graph API request came back with.
 */
module Route {
  import opened Wrappers
  import opened Seqs
  import opened Numbers
  import opened FacebookTypes
  import opened SampleData
  import opened Normalizer
  import opened Params

  const GraphEndpoint: string := "https://graph.facebook.com/v18.0/ads_archive"
  const DefaultLimit: int := 25

  const RequestFieldNames: seq<string> := [
    "id", "page_id", "page_name", "ad_creative_body", "ad_creative_link_titles",
    "ad_creative_link_descriptions", "ad_creative_link_captions", "ad_creative_link_deep_link_url",
    "ad_creative_images", "ad_snapshot_url", "ad_delivery_start_time", "ad_delivery_stop_time",
    "impressions", "spend", "publisher_platforms"
  ]

  /** `REQUEST_FIELDS`: the field names, comma-separated. */
  const RequestFields: string := Join(",", RequestFieldNames)

  const FallbackMessage: string :=
    "Falling back to sample data. Set FACEBOOK_ACCESS_TOKEN to fetch live competitor ads."

  /** What the route reads from the incoming query, defaults applied. */
  datatype Query = Query(searchTerm: string, pageId: string, country: string, adType: string, limit: int)

  /** The `limit` rule: the parsed integer when it lies in 1..100, otherwise 25. */
  function ClampLimit(limitParam: Option<int>): (limit: int)
    ensures 1 <= limit <= 100
    ensures limitParam.Some? && 0 < limitParam.value <= 100 ==> limit == limitParam.value
    ensures !(limitParam.Some? && 0 < limitParam.value <= 100) ==> limit == DefaultLimit
  {
    if limitParam.Some? && limitParam.value > 0 && limitParam.value <= 100 then limitParam.value
    else DefaultLimit
  }

  /** `searchParams.get(name) ?? default`: the first value under `name`, or the default when absent. */
  function ParamOr(incoming: seq<Entry>, name: string, default: string): (v: string)
    ensures name !in Names(incoming) ==> v == default
    ensures forall i :: FirstAt(incoming, name, i) ==> v == incoming[i].1
  {
    Lookup(incoming, name).GetOr(default)
  }

  /**
   * The query values `GET` reads: each parameter's first value when it is present,
   * its default when it is absent, and the limit clamped to 1..100.
   */
  function ReadQuery(incoming: seq<Entry>): (q: Query)
    ensures "searchTerm" !in Names(incoming) ==> q.searchTerm == ""
    ensures "pageId" !in Names(incoming) ==> q.pageId == ""
    ensures "country" !in Names(incoming) ==> q.country == "US"
    ensures "adType" !in Names(incoming) ==> q.adType == "ALL"
    ensures forall i :: FirstAt(incoming, "searchTerm", i) ==> q.searchTerm == incoming[i].1
    ensures forall i :: FirstAt(incoming, "pageId", i) ==> q.pageId == incoming[i].1
    ensures forall i :: FirstAt(incoming, "country", i) ==> q.country == incoming[i].1
    ensures forall i :: FirstAt(incoming, "adType", i) ==> q.adType == incoming[i].1
    ensures 1 <= q.limit <= 100
    ensures var parsed := ParseInt(ParamOr(incoming, "limit", ""));
      && (parsed.Some? && 1 <= parsed.value <= 100 ==> q.limit == parsed.value)
      && (!(parsed.Some? && 1 <= parsed.value <= 100) ==> q.limit == DefaultLimit)
  {
    Query(
      ParamOr(incoming, "searchTerm", ""),
      ParamOr(incoming, "pageId", ""),
      ParamOr(incoming, "country", "US"),
      ParamOr(incoming, "adType", "ALL"),
      ClampLimit(ParseInt(ParamOr(incoming, "limit", ""))))
  }

  /** A limit written as any integer from 1 to 100 is used; any other integer gives 25. */
  lemma LimitParsing(n: int)
    ensures ClampLimit(ParseInt(IntToString(n))) == if 1 <= n <= 100 then n else DefaultLimit
  {
    IntToStringParseInt(n);
  }

  /** A missing or non-numeric limit gives 25. */
  lemma MissingLimit()
    ensures ClampLimit(ParseInt("")) == DefaultLimit
    ensures ClampLimit(ParseInt("abc")) == DefaultLimit
  {
    assert !IsJsSpace('a') && TrimStart("abc") == "abc";
    assert SignLength("abc") == 0 && "abc"[0..] == "abc";
    assert DigitRun("abc") == 0;
    assert ParseTrimmed("abc") == None;
  }

  /** An empty query gives every default. */
  lemma EmptyQueryDefaults()
    ensures ReadQuery([]) == Query("", "", "US", "ALL", DefaultLimit)
  {
    MissingLimit();
  }

  /**
   * The Graph API query the route sends: the access token, every ad status, the
   * country, the ad type, the field list and the limit, plus `search_page_ids` exactly
   * when a page id was given and `search_terms` exactly when a search term was given.
   */
  ghost predicate IsGraphQuery(accessToken: string, q: Query, entries: seq<Entry>) {
    && Lookup(entries, "access_token") == Some(accessToken)
    && Lookup(entries, "ad_active_status") == Some("ALL")
    && Lookup(entries, "ad_reached_countries") == Some(q.country)
    && Lookup(entries, "ad_type") == Some(q.adType)
    && Lookup(entries, "fields") == Some(RequestFields)
    && Lookup(entries, "limit") == Some(IntToString(q.limit))
    && Lookup(entries, "search_page_ids") == (if q.pageId != "" then Some(q.pageId) else None)
    && Lookup(entries, "search_terms") == (if q.searchTerm != "" then Some(q.searchTerm) else None)
    && NoDup(Names(entries))
    && forall n :: n in Names(entries) ==> n in InitialGraphNames || n == "search_page_ids"
  }

  /** The pairs `new URLSearchParams({...})` starts from, in the record's order. */
  function InitialGraphEntries(accessToken: string, q: Query): (e: seq<Entry>)
    ensures Names(e) == InitialGraphNames
  {
    var values := [accessToken, "ALL", q.country, q.adType, RequestFields, IntToString(q.limit), q.searchTerm];
    seq(7, i requires 0 <= i < 7 => (InitialGraphNames[i], values[i]))
  }

  /** The names of the record `new URLSearchParams` is built from, in order. */
  const InitialGraphNames: seq<string> :=
    ["access_token", "ad_active_status", "ad_reached_countries", "ad_type", "fields", "limit", "search_terms"]

  lemma InitialGraphNamesUnique()
    ensures NoDup(InitialGraphNames) && "search_page_ids" !in InitialGraphNames
  {
    var n := InitialGraphNames;
    assert |n[0]| == 12 && |n[1]| == 16 && |n[2]| == 20 && |n[3]| == 7 && |n[4]| == 6 && |n[5]| == 5 && |n[6]| == 12;
    assert n[0][0] != n[6][0];
    assert |"search_page_ids"| == 15;
  }

  /** The record's pairs: every field once, and no `search_page_ids` yet. */
  lemma InitialGraphLookups(accessToken: string, q: Query)
    ensures var e := InitialGraphEntries(accessToken, q);
      && Lookup(e, "access_token") == Some(accessToken)
      && Lookup(e, "ad_active_status") == Some("ALL")
      && Lookup(e, "ad_reached_countries") == Some(q.country)
      && Lookup(e, "ad_type") == Some(q.adType)
      && Lookup(e, "fields") == Some(RequestFields)
      && Lookup(e, "limit") == Some(IntToString(q.limit))
      && Lookup(e, "search_terms") == Some(q.searchTerm)
      && Lookup(e, "search_page_ids") == None
      && NoDup(Names(e))
  {
    var e := InitialGraphEntries(accessToken, q);
    InitialGraphNamesUnique();
    LookupUnique(e, 0);
    LookupUnique(e, 1);
    LookupUnique(e, 2);
    LookupUnique(e, 3);
    LookupUnique(e, 4);
    LookupUnique(e, 5);
    LookupUnique(e, 6);
  }

  /** The pairs after the optional `set("search_page_ids", pageId)`. */
  function WithPageId(entries: seq<Entry>, q: Query): seq<Entry> {
    if q.pageId != "" then SetEntries(entries, "search_page_ids", q.pageId) else entries
  }

  /** The pairs after the optional `delete("search_terms")`. */
  function WithoutEmptySearch(entries: seq<Entry>, q: Query): seq<Entry> {
    if q.searchTerm == "" then DeleteEntries(entries, "search_terms") else entries
  }

  /** The pair list of the Graph API request. */
  function GraphEntries(accessToken: string, q: Query): seq<Entry> {
    WithoutEmptySearch(WithPageId(InitialGraphEntries(accessToken, q), q), q)
  }

  /** A name other than the two optional ones reads the same after both steps. */
  lemma OtherNamesKept(accessToken: string, q: Query, name: string)
    requires name != "search_page_ids" && name != "search_terms"
    ensures Lookup(GraphEntries(accessToken, q), name) == Lookup(InitialGraphEntries(accessToken, q), name)
  {
    var e := InitialGraphEntries(accessToken, q);
    SetLookup(e, "search_page_ids", q.pageId, name);
    DeleteLookup(WithPageId(e, q), "search_terms", name);
  }

  /** The fixed names differ from the two optional ones. */
  lemma FixedNamesDiffer()
    ensures forall k :: 0 <= k < 6 ==> InitialGraphNames[k] != "search_page_ids" && InitialGraphNames[k] != "search_terms"
  {
    var n := InitialGraphNames;
    assert |n[0]| == 12 && |n[1]| == 16 && |n[2]| == 20 && |n[3]| == 7 && |n[4]| == 6 && |n[5]| == 5;
    assert |"search_page_ids"| == 15 && |"search_terms"| == 12;
    assert n[0][0] != "search_terms"[0];
  }

  lemma GraphEntriesQuery(accessToken: string, q: Query)
    ensures IsGraphQuery(accessToken, q, GraphEntries(accessToken, q))
  {
    GraphFixedLookups(accessToken, q);
    GraphOptionalLookups(accessToken, q);
    GraphNames(accessToken, q);
  }

  /** The six fixed parameters keep their initial values. */
  lemma GraphFixedLookups(accessToken: string, q: Query)
    ensures var e := GraphEntries(accessToken, q);
      && Lookup(e, "access_token") == Some(accessToken)
      && Lookup(e, "ad_active_status") == Some("ALL")
      && Lookup(e, "ad_reached_countries") == Some(q.country)
      && Lookup(e, "ad_type") == Some(q.adType)
      && Lookup(e, "fields") == Some(RequestFields)
      && Lookup(e, "limit") == Some(IntToString(q.limit))
  {
    InitialGraphLookups(accessToken, q);
    FixedNamesDiffer();
    var n := InitialGraphNames;
    OtherNamesKept(accessToken, q, n[0]);
    OtherNamesKept(accessToken, q, n[1]);
    OtherNamesKept(accessToken, q, n[2]);
    OtherNamesKept(accessToken, q, n[3]);
    OtherNamesKept(accessToken, q, n[4]);
    OtherNamesKept(accessToken, q, n[5]);
    assert n[0] == "access_token" && n[1] == "ad_active_status" && n[2] == "ad_reached_countries";
    assert n[3] == "ad_type" && n[4] == "fields" && n[5] == "limit";
  }

  /** A page id is sent only when given, and a search term only when not empty. */
  lemma GraphOptionalLookups(accessToken: string, q: Query)
    ensures var e := GraphEntries(accessToken, q);
      && Lookup(e, "search_page_ids") == (if q.pageId != "" then Some(q.pageId) else None)
      && Lookup(e, "search_terms") == (if q.searchTerm != "" then Some(q.searchTerm) else None)
  {
    var e := InitialGraphEntries(accessToken, q);
    var e1 := WithPageId(e, q);
    InitialGraphLookups(accessToken, q);
    assert "search_terms" != "search_page_ids" by {
      assert |"search_page_ids"| == 15 && |"search_terms"| == 12;
    }
    SetLookup(e, "search_page_ids", q.pageId, "search_terms");
    DeleteLookup(e1, "search_terms", "search_page_ids");
  }

  /** Each name is sent once, and only the initial names and the page id are sent. */
  lemma GraphNames(accessToken: string, q: Query)
    ensures var e := GraphEntries(accessToken, q);
      && NoDup(Names(e))
      && forall n :: n in Names(e) ==> n in InitialGraphNames || n == "search_page_ids"
  {
    var e := InitialGraphEntries(accessToken, q);
    var e1 := WithPageId(e, q);
    InitialGraphLookups(accessToken, q);
    if q.pageId != "" {
      SetKeepsNamesUnique(e, "search_page_ids", q.pageId);
    }
    if q.searchTerm == "" {
      DeleteKeepsNamesUnique(e1, "search_terms");
    }
    SetNames(e, "search_page_ids", q.pageId);
    DeleteNames(e1, "search_terms");
  }


  /** Builds the Graph API parameters: the fixed record, then the optional `set` and `delete`. */
  method BuildGraphParams(accessToken: string, q: Query) returns (params: SearchParams)
    ensures fresh(params)
    ensures params.entries == GraphEntries(accessToken, q)
    ensures IsGraphQuery(accessToken, q, params.entries)
  {
    params := new SearchParams(InitialGraphEntries(accessToken, q));
    if q.pageId != "" {
      params.Set("search_page_ids", q.pageId);
    }
    if q.searchTerm == "" {
      params.Delete("search_terms");
    }
    GraphEntriesQuery(accessToken, q);
  }

  /** What the single `fetch` came back with. */
  datatype Fetched =
    | NetworkFailure                                   // `fetch` threw
    | Answered(status: int, body: Option<JsonBody>)    // None: the body is not JSON

  /** A JSON body: its `data` array, when it has one. */
  datatype JsonBody = JsonBody(data: Option<seq<RawAd>>)

  datatype Source = Mock | Live

  /** The JSON the route answers with (always status 200). */
  datatype AdsResponse = AdsResponse(ads: seq<CompetitorAd>, source: Source, message: Option<string>)

  const FallbackResponse: AdsResponse := AdsResponse(MockAds, Mock, Some(FallbackMessage))

  /** `response.ok` */
  predicate IsOk(status: int) {
    200 <= status <= 299
  }

  /**
   * `GET`: the sample ads without a token (and then no request at all); the sample
   * ads after a failed request, a non-2xx status or a body that is not JSON;
   * otherwise the normalised `data` of the payload, marked live.
   */
  method HandleRequest(incoming: seq<Entry>, accessToken: Option<string>, fetched: Fetched)
    returns (response: AdsResponse, request: Option<seq<Entry>>)
    ensures accessToken.None? || accessToken.value == "" ==> response == FallbackResponse && request.None?
    ensures accessToken.Some? && accessToken.value != "" ==>
      request.Some? && IsGraphQuery(accessToken.value, ReadQuery(incoming), request.value)
    ensures accessToken.Some? && accessToken.value != "" ==>
      response == match fetched
        case Answered(status, Some(payload)) =>
          if IsOk(status) then AdsResponse(NormaliseAds(payload.data), Live, None) else FallbackResponse
        case _ => FallbackResponse
  {
    if accessToken.None? || accessToken.value == "" {
      return FallbackResponse, None;
    }
    var params := BuildGraphParams(accessToken.value, ReadQuery(incoming));
    request := Some(params.entries);
    match fetched {
      case NetworkFailure =>
        response := FallbackResponse;
      case Answered(status, body) =>
        if !IsOk(status) {
          response := FallbackResponse;
        } else if body.None? {
          response := FallbackResponse;
        } else {
          response := AdsResponse(NormaliseAds(body.value.data), Live, None);
        }
    }
  }

  /** The route never answers with an empty ad list. */
  lemma ResponseNeverEmpty(rawAds: Option<seq<RawAd>>)
    ensures |FallbackResponse.ads| == 3
    ensures |AdsResponse(NormaliseAds(rawAds), Live, None).ads| >= 1
  {
  }

  /** A live answer without ads still shows the sample ads, but marked live and without the message. */
  lemma EmptyLiveDataShowsSamples()
    ensures AdsResponse(NormaliseAds(Some([])), Live, None).ads == FallbackResponse.ads
    ensures AdsResponse(NormaliseAds(None), Live, None).ads == FallbackResponse.ads
  {
  }
}
