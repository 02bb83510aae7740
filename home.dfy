/**
 * The home page's pure logic: the query string sent to the ads route, the metric
 * summary over the loaded ads, and whether a concept is shown.
 */
module Home {
  import opened Wrappers
  import opened Seqs
  import opened Numbers
  import opened FacebookTypes
  import opened SampleData
  import opened Params
  import opened Keywords
  import opened Concept
  import Route

  /** A form value: `string | number` (numbers are integers here). */
  datatype FormValue = Text(text: string) | Number(number: int)

  /** `value || value === 0`: non-empty text, and every integer. */
  predicate Kept(v: FormValue) {
    match v
    case Text(t) => t != []
    case Number(_) => true
  }

  /** `String(value)` */
  function Stringify(v: FormValue): string {
    match v
    case Text(t) => t
    case Number(n) => IntToString(n)
  }

  /** The pairs `buildQueryString` keeps, stringified, in entry order. */
  function QueryPairs(values: seq<(string, FormValue)>): seq<Entry> {
    if values == [] then []
    else
      var init := QueryPairs(values[..|values| - 1]);
      var (key, value) := values[|values| - 1];
      if Kept(value) then init + [(key, Stringify(value))] else init
  }

  /** Exactly the kept pairs, stringified, make up the list. */
  lemma {:induction false} QueryPairsMembers(values: seq<(string, FormValue)>)
    ensures forall e :: e in QueryPairs(values) ==>
      exists i :: 0 <= i < |values| && e == (values[i].0, Stringify(values[i].1)) && Kept(values[i].1)
    ensures forall i :: 0 <= i < |values| && Kept(values[i].1) ==> (values[i].0, Stringify(values[i].1)) in QueryPairs(values)
  {
    if values != [] {
      var n := |values| - 1;
      var init := values[..n];
      QueryPairsMembers(init);
      assert forall i :: 0 <= i < n ==> init[i] == values[i];
    }
  }

  function Keys(values: seq<(string, FormValue)>): (r: seq<string>)
    ensures |r| == |values| && forall i :: 0 <= i < |values| ==> r[i] == values[i].0
  {
    seq(|values|, i requires 0 <= i < |values| => values[i].0)
  }

  /** The names of the kept pairs are among the record's keys. */
  lemma QueryPairsNames(values: seq<(string, FormValue)>, name: string)
    ensures name in Names(QueryPairs(values)) ==> name in Keys(values)
  {
    if name in Names(QueryPairs(values)) {
      QueryPairsMembers(values);
      var k :| 0 <= k < |QueryPairs(values)| && Names(QueryPairs(values))[k] == name;
      var e := QueryPairs(values)[k];
      assert e in QueryPairs(values);
      var i :| 0 <= i < |values| && e == (values[i].0, Stringify(values[i].1)) && Kept(values[i].1);
      assert Keys(values)[i] == name;
    }
  }

  /** One unfolding of the definition: the last pair is appended when it is kept. */
  lemma QueryPairsLast(values: seq<(string, FormValue)>)
    requires values != []
    ensures var last := values[|values| - 1];
      QueryPairs(values) ==
        if Kept(last.1) then QueryPairs(values[..|values| - 1]) + [(last.0, Stringify(last.1))]
        else QueryPairs(values[..|values| - 1])
  {
  }

  lemma QueryPairsStep(values: seq<(string, FormValue)>, i: nat)
    requires i < |values|
    ensures QueryPairs(values[..i + 1]) ==
      if Kept(values[i].1) then QueryPairs(values[..i]) + [(values[i].0, Stringify(values[i].1))]
      else QueryPairs(values[..i])
  {
    assert values[..i + 1][..i] == values[..i];
  }

  /**
   * `buildQueryString`: `set` each kept key in entry order, then serialise. The keys
   * of a record are distinct, so every `set` appends.
   */
  method BuildQueryString(values: seq<(string, FormValue)>) returns (query: string)
    requires NoDup(Keys(values))
    ensures query == Serialize(QueryPairs(values))
  {
    var params := new SearchParams([]);
    for i := 0 to |values|
      invariant params.entries == QueryPairs(values[..i])
    {
      var (key, value) := values[i];
      QueryPairsStep(values, i);
      if Kept(value) {
        QueryPairsNames(values[..i], key);
        assert key !in Keys(values[..i]) by {
          assert forall j :: 0 <= j < i ==> Keys(values[..i])[j] == Keys(values)[j];
          assert Keys(values)[i] == key;
        }
        params.Set(key, Stringify(value));
      }
    }
    assert values[..|values|] == values;
    query := params.ToString();
  }

  /** With distinct keys, `get` on the query finds a kept value and nothing for a dropped one. */
  lemma QueryPairsLookup(values: seq<(string, FormValue)>, i: nat)
    requires NoDup(Keys(values)) && i < |values|
    ensures Lookup(QueryPairs(values), values[i].0) == if Kept(values[i].1) then Some(Stringify(values[i].1)) else None
  {
    KeyLookup(values, i, values[i].0, values[i].1);
  }

  lemma {:induction false} KeyLookup(values: seq<(string, FormValue)>, i: nat, key: string, value: FormValue)
    requires NoDup(Keys(values)) && i < |values| && values[i] == (key, value)
    ensures Lookup(QueryPairs(values), key) == if Kept(value) then Some(Stringify(value)) else None
  {
    var n := |values| - 1;
    var init := values[..n];
    InitKeysUnique(values);
    if i < n {
      assert init[i] == values[i];
      KeyLookup(init, i, key, value);
      assert Keys(values)[i] != Keys(values)[n];
      EarlierKeyLookup(values, key);
    } else {
      LastKeyLookup(values);
    }
  }


  /** A key other than the last one reads the same with or without the last pair. */
  lemma EarlierKeyLookup(values: seq<(string, FormValue)>, key: string)
    requires values != [] && key != values[|values| - 1].0
    ensures Lookup(QueryPairs(values), key) == Lookup(QueryPairs(values[..|values| - 1]), key)
  {
    var n := |values| - 1;
    QueryPairsLast(values);
    if Kept(values[n].1) {
      AppendPast(QueryPairs(values[..n]), (values[n].0, Stringify(values[n].1)), key);
    }
  }



  /** Dropping the last pair keeps the keys distinct. */
  lemma InitKeysUnique(values: seq<(string, FormValue)>)
    requires NoDup(Keys(values)) && values != []
    ensures NoDup(Keys(values[..|values| - 1]))
  {
    var n := |values| - 1;
    assert forall j :: 0 <= j < n ==> Keys(values[..n])[j] == Keys(values)[j];
  }

  /** The last key reads as its own value, or not at all when it is dropped. */
  lemma LastKeyLookup(values: seq<(string, FormValue)>)
    requires NoDup(Keys(values)) && values != []
    ensures var last := values[|values| - 1];
      Lookup(QueryPairs(values), last.0) == if Kept(last.1) then Some(Stringify(last.1)) else None
  {
    var n := |values| - 1;
    var init := values[..n];
    var key := values[n].0;
    var pairs := QueryPairs(init);
    QueryPairsLast(values);
    QueryPairsNames(init, key);
    assert key !in Keys(init);
    assert key !in Names(pairs);
    if Kept(values[n].1) {
      AppendLookup(pairs, key, Stringify(values[n].1), key);
    }
  }


  /** Appending a pair under another name does not change a lookup. */
  lemma {:induction false} AppendPast(entries: seq<Entry>, e: Entry, name: string)
    requires e.0 != name
    ensures Lookup(entries + [e], name) == Lookup(entries, name)
  {
    if entries == [] {
      assert [e][1..] == [];
    } else {
      assert (entries + [e])[1..] == entries[1..] + [e];
      AppendPast(entries[1..], e, name);
    }
  }

  /** The search form as the page sends it. */
  datatype SearchForm = SearchForm(searchTerm: string, pageId: string, country: string, adType: string, limit: int)

  const FormKeys: seq<string> := ["searchTerm", "pageId", "country", "adType", "limit"]

  /** The record `fetchAds` passes to `buildQueryString`. */
  function FormValues(f: SearchForm): (r: seq<(string, FormValue)>)
    ensures Keys(r) == FormKeys
  {
    [("searchTerm", Text(f.searchTerm)), ("pageId", Text(f.pageId)), ("country", Text(f.country)),
     ("adType", Text(f.adType)), ("limit", Number(f.limit))]
  }

  lemma FormKeysUnique()
    ensures NoDup(FormKeys)
  {
    var k := FormKeys;
    assert |k[0]| == 10 && |k[1]| == 6 && |k[2]| == 7 && |k[3]| == 6 && |k[4]| == 5;
    assert k[1][0] != k[3][0];
  }

  /**
   * The route reads back what the page sends: each text field as typed, an emptied
   * one as the route's default, and the limit as given when it lies in 1..100.
   */
  lemma QueryReachesRoute(f: SearchForm)
    ensures Route.ReadQuery(QueryPairs(FormValues(f))) == Route.Query(
      f.searchTerm, f.pageId,
      if f.country == "" then "US" else f.country,
      if f.adType == "" then "ALL" else f.adType,
      if 1 <= f.limit <= 100 then f.limit else Route.DefaultLimit)
  {
    var vs := FormValues(f);
    FormKeysUnique();
    QueryPairsLookup(vs, 0);
    QueryPairsLookup(vs, 1);
    QueryPairsLookup(vs, 2);
    QueryPairsLookup(vs, 3);
    QueryPairsLookup(vs, 4);
    Route.LimitParsing(f.limit);
  }

  // ----- metrics -----

  datatype Metrics = Metrics(totalSpend: int, totalImpressions: int, activeAds: nat)

  /** `ads.reduce((acc, ad) => acc + (ad.spendUpper ?? 0), 0)`: absent bounds add nothing. */
  function TotalSpend(ads: seq<CompetitorAd>): (total: int)
    ensures (forall i :: 0 <= i < |ads| ==> ads[i].spendUpper.None?) ==> total == 0
    ensures (forall i :: 0 <= i < |ads| ==> ads[i].spendUpper.GetOr(0) >= 0) ==> total >= 0
  {
    if ads == [] then 0 else TotalSpend(ads[..|ads| - 1]) + ads[|ads| - 1].spendUpper.GetOr(0)
  }

  /** `ads.reduce((acc, ad) => acc + (ad.impressionsUpper ?? 0), 0)`: absent bounds add nothing. */
  function TotalImpressions(ads: seq<CompetitorAd>): (total: int)
    ensures (forall i :: 0 <= i < |ads| ==> ads[i].impressionsUpper.None?) ==> total == 0
    ensures (forall i :: 0 <= i < |ads| ==> ads[i].impressionsUpper.GetOr(0) >= 0) ==> total >= 0
  {
    if ads == [] then 0 else TotalImpressions(ads[..|ads| - 1]) + ads[|ads| - 1].impressionsUpper.GetOr(0)
  }

  /** `!ad.stopTime`: no stop time, or an empty one. */
  predicate IsActive(ad: CompetitorAd) {
    ad.stopTime.None? || |ad.stopTime.value| == 0
  }

  /** `ads.filter((ad) => !ad.stopTime)`: each active ad as often as it occurs, and no other. */
  function ActiveAds(ads: seq<CompetitorAd>): (r: seq<CompetitorAd>)
    ensures forall x :: multiset(r)[x] == if IsActive(x) then multiset(ads)[x] else 0
    ensures |r| <= |ads|
  {
    if ads == [] then []
    else
      var init := ads[..|ads| - 1];
      var last := ads[|ads| - 1];
      assert ads == init + [last];
      if IsActive(last) then ActiveAds(init) + [last] else ActiveAds(init)
  }

  /** The positions of the active ads. */
  function ActivePositions(ads: seq<CompetitorAd>): set<int> {
    set i | 0 <= i < |ads| && IsActive(ads[i])
  }

  /** The filtered list has one entry per active position. */
  lemma {:induction false} ActiveAdsPositions(ads: seq<CompetitorAd>)
    ensures |ActiveAds(ads)| == |ActivePositions(ads)|
  {
    if ads == [] {
      assert ActivePositions(ads) == {};
    } else {
      var init := ads[..|ads| - 1];
      ActiveAdsPositions(init);
      ActiveAdsSnoc(ads);
      ActivePositionsSnoc(ads);
    }
  }

  /** Unfolding the filter once: the last ad is kept exactly when it is active. */
  lemma ActiveAdsSnoc(ads: seq<CompetitorAd>)
    requires ads != []
    ensures |ActiveAds(ads)| == |ActiveAds(ads[..|ads| - 1])| + if IsActive(ads[|ads| - 1]) then 1 else 0
  {
  }

  /** The last position is active exactly when the last ad is; the others are those of the prefix. */
  lemma ActivePositionsSnoc(ads: seq<CompetitorAd>)
    requires ads != []
    ensures |ActivePositions(ads)| == |ActivePositions(ads[..|ads| - 1])| + if IsActive(ads[|ads| - 1]) then 1 else 0
  {
    var init := ads[..|ads| - 1];
    var last := |ads| - 1;
    var before := ActivePositions(init);
    assert last !in before;
    var extra: set<int> := if IsActive(ads[last]) then {last} else {};
    forall i ensures i in ActivePositions(ads) <==> i in before + extra {
      if 0 <= i < last { assert init[i] == ads[i]; }
    }
    assert ActivePositions(ads) == before + extra;
  }

  /** The filtered list is as long as the input exactly when every ad is active. */
  lemma {:induction false} AllActiveLength(ads: seq<CompetitorAd>)
    ensures |ActiveAds(ads)| == |ads| <==> forall i :: 0 <= i < |ads| ==> IsActive(ads[i])
  {
    if ads != [] {
      var init := ads[..|ads| - 1];
      AllActiveLength(init);
      ActiveAdsSnoc(ads);
      AllActiveSnoc(ads);
    }
  }

  predicate AllActive(ads: seq<CompetitorAd>) {
    forall i :: 0 <= i < |ads| ==> IsActive(ads[i])
  }

  /** Every ad is active exactly when every ad but the last is, and the last one too. */
  lemma AllActiveSnoc(ads: seq<CompetitorAd>)
    requires ads != []
    ensures AllActive(ads) <==> AllActive(ads[..|ads| - 1]) && IsActive(ads[|ads| - 1])
  {
    var init := ads[..|ads| - 1];
    assert forall i :: 0 <= i < |init| ==> init[i] == ads[i];
  }

  /** The filtered list is empty exactly when no ad is active. */
  lemma {:induction false} NoneActiveLength(ads: seq<CompetitorAd>)
    ensures |ActiveAds(ads)| == 0 <==> forall i :: 0 <= i < |ads| ==> !IsActive(ads[i])
  {
    if ads != [] {
      var init := ads[..|ads| - 1];
      NoneActiveLength(init);
      ActiveAdsSnoc(ads);
      assert forall i :: 0 <= i < |init| ==> init[i] == ads[i];
    }
  }

  /** `ads.filter((ad) => !ad.stopTime).length`: the number of active ads. */
  function ActiveCount(ads: seq<CompetitorAd>): (n: nat)
    ensures n == |ActivePositions(ads)| && n <= |ads|
    ensures n == |ads| <==> forall i :: 0 <= i < |ads| ==> IsActive(ads[i])
    ensures n == 0 <==> forall i :: 0 <= i < |ads| ==> !IsActive(ads[i])
  {
    AllActiveLength(ads);
    NoneActiveLength(ads);
    ActiveAdsPositions(ads);
    |ActiveAds(ads)|
  }

  /** `metricSummary`: nothing for no ads, otherwise the two sums and the active count. */
  function MetricSummary(ads: seq<CompetitorAd>): (r: Option<Metrics>)
    ensures r.None? <==> ads == []
    ensures r.Some? ==> r.value == Metrics(TotalSpend(ads), TotalImpressions(ads), ActiveCount(ads))
    ensures r.Some? ==> r.value.activeAds <= |ads|
  {
    if |ads| == 0 then None
    else Some(Metrics(TotalSpend(ads), TotalImpressions(ads), ActiveCount(ads)))
  }

  /** The sums and the count add up over concatenated lists, so each ad contributes exactly once. */
  lemma {:induction false} TotalsAppend(a: seq<CompetitorAd>, b: seq<CompetitorAd>)
    ensures TotalSpend(a + b) == TotalSpend(a) + TotalSpend(b)
    ensures TotalImpressions(a + b) == TotalImpressions(a) + TotalImpressions(b)
    ensures ActiveCount(a + b) == ActiveCount(a) + ActiveCount(b)
    decreases |b|
  {
    if b == [] {
      assert a + b == a;
    } else {
      var init := b[..|b| - 1];
      assert (a + b)[..|a + b| - 1] == a + init;
      TotalsAppend(a, init);
    }
  }

  /** One ad's totals are its upper bounds, absent read as zero; it counts as active iff it has no stop time. */
  lemma TotalsOfOne(ad: CompetitorAd)
    ensures TotalSpend([ad]) == ad.spendUpper.GetOr(0)
    ensures TotalImpressions([ad]) == ad.impressionsUpper.GetOr(0)
    ensures ActiveCount([ad]) == if IsActive(ad) then 1 else 0
  {
    assert [ad][..0] == [];
  }

  /** The sample ads: $4,050 upper spend, 280,000 upper impressions, all three active. */
  lemma SampleMetrics()
    ensures MetricSummary(MockAds) == Some(Metrics(4050, 280000, 3))
  {
    var a := MockAds;
    assert a == [a[0]] + [a[1]] + [a[2]];
    TotalsAppend([a[0]] + [a[1]], [a[2]]);
    TotalsAppend([a[0]], [a[1]]);
    TotalsOfOne(a[0]);
    TotalsOfOne(a[1]);
    TotalsOfOne(a[2]);
  }

  // ----- concept -----

  /** The page's concept: none without ads, otherwise `generateAdConcept(ads)`. */
  method ConceptFor(ads: seq<CompetitorAd>, ctaChoice: nat, notePicks: seq<nat>)
    returns (concept: Option<GeneratedAdConcept>)
    ensures concept.None? <==> ads == []
    ensures concept.Some? ==>
      var keywords := TopKeywords(ads);
      && concept.value.hook == BuildHook(keywords)
      && concept.value.primaryText == BuildPrimaryText(keywords, ads[0].pageName)
      && concept.value.headline == BuildHeadline(keywords)
      && concept.value.description == BuildDescription(keywords)
      && concept.value.callToAction == PickCallToAction(keywords, ctaChoice)
      && NotesSpec(keywords, concept.value.creativeNotes)
  {
    if |ads| == 0 {
      return None;
    }
    var generated := GenerateAdConcept(ads, ctaChoice, notePicks);
    concept := Some(generated);
  }
}
