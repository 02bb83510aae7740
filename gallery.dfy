/**
 * The gallery's view logic: ads grouped by page in first-seen order, the placement
 * label, and the spend and impression ranges with their "Not disclosed" fallback.
 * Dates (`date-fns`) and the markup itself are not modelled.
 */
module Gallery {
  import opened Wrappers
  import opened Seqs
  import opened Numbers
  import opened FacebookTypes

  // ----- grouping -----

  /** `ad.pageName || "Unknown Advertiser"` */
  function PageKey(ad: CompetitorAd): (k: string)
    ensures k != []
    ensures ad.pageName != [] ==> k == ad.pageName
    ensures ad.pageName == [] ==> k == "Unknown Advertiser"
  {
    if ad.pageName != [] then ad.pageName else "Unknown Advertiser"
  }

  function PageKeys(ads: seq<CompetitorAd>): (r: seq<string>)
    ensures |r| == |ads| && forall i :: 0 <= i < |ads| ==> r[i] == PageKey(ads[i])
  {
    seq(|ads|, i requires 0 <= i < |ads| => PageKey(ads[i]))
  }

  /** The ads under one key, in their original order. */
  function AdsWithKey(ads: seq<CompetitorAd>, key: string): (r: seq<CompetitorAd>)
    ensures forall x :: x in r ==> x in ads && PageKey(x) == key
    ensures forall i :: 0 <= i < |ads| && PageKey(ads[i]) == key ==> ads[i] in r
  {
    if ads == [] then []
    else
      var last := ads[|ads| - 1];
      var r := AdsWithKey(ads[..|ads| - 1], key) + (if PageKey(last) == key then [last] else []);
      assert forall i :: 0 <= i < |ads| - 1 ==> ads[i] == ads[..|ads| - 1][i];
      r
  }

  /** Grouping splits over concatenation, so within a group the ads keep their input order. */
  lemma {:induction false} AdsWithKeyAppend(a: seq<CompetitorAd>, b: seq<CompetitorAd>, key: string)
    ensures AdsWithKey(a + b, key) == AdsWithKey(a, key) + AdsWithKey(b, key)
    decreases |b|
  {
    if b == [] {
      assert a + b == a;
    } else {
      var init, last := b[..|b| - 1], b[|b| - 1];
      var tail := if PageKey(last) == key then [last] else [];
      assert (a + b)[..|a + b| - 1] == a + init && (a + b)[|a + b| - 1] == last;
      assert AdsWithKey(a + b, key) == AdsWithKey(a + init, key) + tail;
      assert AdsWithKey(b, key) == AdsWithKey(init, key) + tail;
      AdsWithKeyAppend(a, init, key);
    }
  }

  type Group = (string, seq<CompetitorAd>)

  /** One group per key, in the order of `keys`. */
  function GroupsFor(keys: seq<string>, ads: seq<CompetitorAd>): (r: seq<Group>)
    ensures |r| == |keys|
    ensures forall j :: 0 <= j < |keys| ==> r[j] == (keys[j], AdsWithKey(ads, keys[j]))
  {
    if keys == [] then [] else [(keys[0], AdsWithKey(ads, keys[0]))] + GroupsFor(keys[1..], ads)
  }

  /** What `groupedAds` computes: the page keys in first-seen order, each with its ads. */
  function Grouped(ads: seq<CompetitorAd>): seq<Group> {
    GroupsFor(Distinct(PageKeys(ads)), ads)
  }

  /**
   * `groupedAds`: one pass over the ads, appending each to its key's list in a `Map`
   * whose key order is the order keys were first set.
   */
  method GroupByPage(ads: seq<CompetitorAd>) returns (groups: seq<Group>)
    ensures groups == Grouped(ads)
  {
    var byPage: map<string, seq<CompetitorAd>> := map[];
    var order: seq<string> := [];
    for i := 0 to |ads|
      invariant order == Distinct(PageKeys(ads[..i]))
      invariant forall k :: k in byPage <==> k in order
      invariant forall k :: k in byPage ==> byPage[k] == AdsWithKey(ads[..i], k)
    {
      var key := PageKey(ads[i]);
      var existing := if key in byPage then byPage[key] else [];
      var order' := if key in order then order else order + [key];
      GroupStep(ads, i, order, byPage, key, existing, order', byPage[key := existing + [ads[i]]]);
      byPage := byPage[key := existing + [ads[i]]];
      order := order';
    }
    GroupsOfState(ads, order, byPage);
    groups := seq(|order|, j requires 0 <= j < |order| => (order[j], byPage[order[j]]));
  }

  /** The `Map` after the first `i` ads: keys in first-seen order, each with its ads so far. */
  ghost predicate GroupState(ads: seq<CompetitorAd>, i: nat, order: seq<string>, byPage: map<string, seq<CompetitorAd>>)
    requires i <= |ads|
  {
    && order == Distinct(PageKeys(ads[..i]))
    && (forall k :: k in byPage <==> k in order)
    && (forall k :: k in byPage ==> byPage[k] == AdsWithKey(ads[..i], k))
  }

  /** One iteration keeps the state. */
  lemma GroupStep(ads: seq<CompetitorAd>, i: nat, order: seq<string>, byPage: map<string, seq<CompetitorAd>>,
                  key: string, existing: seq<CompetitorAd>, order': seq<string>, byPage': map<string, seq<CompetitorAd>>)
    requires i < |ads| && GroupState(ads, i, order, byPage)
    requires key == PageKey(ads[i])
    requires existing == if key in byPage then byPage[key] else []
    requires order' == if key in order then order else order + [key]
    requires byPage' == byPage[key := existing + [ads[i]]]
    ensures order' == Distinct(PageKeys(ads[..i + 1]))
    ensures forall k :: k in byPage' <==> k in order'
    ensures forall k :: k in byPage' ==> byPage'[k] == AdsWithKey(ads[..i + 1], k)
  {
    var keys := PageKeys(ads[..i]);
    DistinctSpec(keys);
    PageKeysSnoc(ads, i);
    DistinctSnoc(keys, key);
    ExtendGroups(ads, i, key, existing, byPage, byPage');
  }

  /** After the last ad the `Map`'s entries are the groups. */
  lemma GroupsOfState(ads: seq<CompetitorAd>, order: seq<string>, byPage: map<string, seq<CompetitorAd>>)
    requires GroupState(ads, |ads|, order, byPage)
    ensures forall j :: 0 <= j < |order| ==> order[j] in byPage
    ensures seq(|order|, j requires 0 <= j < |order| => (order[j], byPage[order[j]])) == Grouped(ads)
  {
    assert ads[..|ads|] == ads;
  }

  /** One step of the pass: the key's list grows by the ad, every other list is unchanged. */
  lemma ExtendGroups(ads: seq<CompetitorAd>, i: nat, key: string, existing: seq<CompetitorAd>,
                     byPage: map<string, seq<CompetitorAd>>, updated: map<string, seq<CompetitorAd>>)
    requires i < |ads| && key == PageKey(ads[i])
    requires forall k :: k in byPage ==> byPage[k] == AdsWithKey(ads[..i], k)
    requires existing == if key in byPage then byPage[key] else []
    requires key !in byPage ==> key !in PageKeys(ads[..i])
    requires updated == byPage[key := existing + [ads[i]]]
    ensures forall k :: k in updated ==> updated[k] == AdsWithKey(ads[..i + 1], k)
  {
    assert ads[..i + 1][..i] == ads[..i];
    if key !in byPage {
      forall j | 0 <= j < i ensures PageKey(ads[..i][j]) != key {
        assert PageKeys(ads[..i])[j] == PageKey(ads[..i][j]);
      }
      NoKeyNoAds(ads[..i], key);
    }
  }

  lemma PageKeysSnoc(ads: seq<CompetitorAd>, i: nat)
    requires i < |ads|
    ensures PageKeys(ads[..i + 1]) == PageKeys(ads[..i]) + [PageKey(ads[i])]
  {
  }

  lemma {:induction false} NoKeyNoAds(ads: seq<CompetitorAd>, key: string)
    requires forall j :: 0 <= j < |ads| ==> PageKey(ads[j]) != key
    ensures AdsWithKey(ads, key) == []
  {
    if ads != [] {
      NoKeyNoAds(ads[..|ads| - 1], key);
    }
  }

  /** Every ad sits in the group of its own key, and only there. */
  lemma GroupedPlacesEveryAd(ads: seq<CompetitorAd>, i: nat)
    requires i < |ads|
    ensures exists j :: 0 <= j < |Grouped(ads)| && Grouped(ads)[j].0 == PageKey(ads[i]) && ads[i] in Grouped(ads)[j].1
    ensures forall j :: 0 <= j < |Grouped(ads)| && ads[i] in Grouped(ads)[j].1 ==> Grouped(ads)[j].0 == PageKey(ads[i])
  {
    var keys := Distinct(PageKeys(ads));
    DistinctSpec(PageKeys(ads));
    assert PageKeys(ads)[i] in keys;
    var j :| 0 <= j < |keys| && keys[j] == PageKey(ads[i]);
    assert Grouped(ads)[j] == (keys[j], AdsWithKey(ads, keys[j]));
  }

  function GroupKeys(groups: seq<Group>): (r: seq<string>)
    ensures |r| == |groups| && forall j :: 0 <= j < |groups| ==> r[j] == groups[j].0
  {
    seq(|groups|, j requires 0 <= j < |groups| => groups[j].0)
  }

  /** The group keys are distinct and are exactly the page keys that occur. */
  lemma GroupKeysDistinct(ads: seq<CompetitorAd>)
    ensures NoDup(GroupKeys(Grouped(ads)))
    ensures forall k :: k in GroupKeys(Grouped(ads)) <==> k in PageKeys(ads)
  {
    DistinctSpec(PageKeys(ads));
    assert GroupKeys(Grouped(ads)) == Distinct(PageKeys(ads));
  }

  /** Total number of ads over a list of groups. */
  function TotalSize(groups: seq<Group>): nat {
    if groups == [] then 0 else |groups[0].1| + TotalSize(groups[1..])
  }

  /** How many times `x` occurs in `keys`. */
  function CountIn(keys: seq<string>, x: string): nat {
    if keys == [] then 0 else (if keys[0] == x then 1 else 0) + CountIn(keys[1..], x)
  }

  lemma {:induction false} CountInNoDup(keys: seq<string>, x: string)
    requires NoDup(keys)
    ensures CountIn(keys, x) == if x in keys then 1 else 0
  {
    if keys != [] {
      assert NoDup(keys[1..]);
      CountInNoDup(keys[1..], x);
      if keys[0] == x {
        assert x !in keys[1..];
      }
    }
  }

  lemma {:induction false} TotalSizeEmpty(keys: seq<string>)
    ensures TotalSize(GroupsFor(keys, [])) == 0
  {
    if keys != [] {
      TotalSizeEmpty(keys[1..]);
      assert GroupsFor(keys, [])[1..] == GroupsFor(keys[1..], []);
    }
  }

  lemma {:induction false} TotalSizeSnoc(keys: seq<string>, ads: seq<CompetitorAd>, a: CompetitorAd)
    ensures TotalSize(GroupsFor(keys, ads + [a])) == TotalSize(GroupsFor(keys, ads)) + CountIn(keys, PageKey(a))
  {
    if keys != [] {
      TotalSizeSnoc(keys[1..], ads, a);
      assert (ads + [a])[..|ads|] == ads;
      assert GroupsFor(keys, ads + [a])[1..] == GroupsFor(keys[1..], ads + [a]);
      assert GroupsFor(keys, ads)[1..] == GroupsFor(keys[1..], ads);
    }
  }

  /** Groups over a duplicate-free key list covering every ad hold all the ads between them. */
  lemma {:induction false} TotalSizeCovers(keys: seq<string>, ads: seq<CompetitorAd>)
    requires NoDup(keys)
    requires forall i :: 0 <= i < |ads| ==> PageKey(ads[i]) in keys
    ensures TotalSize(GroupsFor(keys, ads)) == |ads|
  {
    if ads == [] {
      TotalSizeEmpty(keys);
    } else {
      var init := ads[..|ads| - 1];
      var a := ads[|ads| - 1];
      assert ads == init + [a];
      TotalSizeCovers(keys, init);
      TotalSizeSnoc(keys, init, a);
      CountInNoDup(keys, PageKey(a));
    }
  }

  /** The groups partition the ads: their sizes add up to the number of ads. */
  lemma GroupSizesSum(ads: seq<CompetitorAd>)
    ensures TotalSize(Grouped(ads)) == |ads|
  {
    var keys := Distinct(PageKeys(ads));
    DistinctSpec(PageKeys(ads));
    forall i | 0 <= i < |ads| ensures PageKey(ads[i]) in keys {
      assert PageKeys(ads)[i] in PageKeys(ads);
    }
    TotalSizeCovers(keys, ads);
  }

  /** The count line under a page name: "creative" takes an `s` exactly when there is more than one. */
  function CreativeCountLabel(count: nat): (r: string)
    ensures r == NatToString(count) + (if count > 1 then " active creatives tracked" else " active creative tracked")
  {
    NatToString(count) + " active creative" + (if count > 1 then "s" else "") + " tracked"
  }

  // ----- placements -----

  /** `platform.replace(/_/g, " ")` */
  function ReplaceUnderscores(s: string): (r: string)
    ensures |r| == |s| && '_' !in r
    ensures forall i :: 0 <= i < |s| ==> r[i] == if s[i] == '_' then ' ' else s[i]
  {
    seq(|s|, i requires 0 <= i < |s| => if s[i] == '_' then ' ' else s[i])
  }

  /** The placements with underscores turned to spaces. */
  function Readable(ps: seq<string>): (r: seq<string>)
    ensures |r| == |ps| && forall i :: 0 <= i < |ps| ==> r[i] == ReplaceUnderscores(ps[i])
  {
    seq(|ps|, i requires 0 <= i < |ps| => ReplaceUnderscores(ps[i]))
  }

  /** `platformsLabel`: "Unknown placement" for none; otherwise the readable placements, never with `_`. */
  function PlatformsLabel(platforms: Option<seq<string>>): (r: string)
    ensures platforms.None? || platforms.value == [] ==> r == "Unknown placement"
    ensures '_' !in r
  {
    if platforms.None? || |platforms.value| == 0 then "Unknown placement"
    else
      var ps := platforms.value;
      JoinChars(", ", Readable(ps), '_');
      Join(", ", Readable(ps))
  }

  /**
   * One placement is shown alone with its underscores as spaces; two or more are the
   * first one, ", ", and the label of the rest.
   */
  lemma PlatformsLabelCases(ps: seq<string>)
    ensures |ps| == 1 ==> PlatformsLabel(Some(ps)) == ReplaceUnderscores(ps[0])
    ensures |ps| >= 2 ==>
      PlatformsLabel(Some(ps)) == ReplaceUnderscores(ps[0]) + ", " + PlatformsLabel(Some(ps[1..]))
  {
    if |ps| >= 2 {
      assert Readable(ps)[1..] == Readable(ps[1..]);
    }
  }

  // ----- amounts -----

  /** The digits of a number with a comma before every group of three from the right (en-US grouping). */
  function GroupThousands(digits: string): (r: string)
    decreases |digits|
  {
    if |digits| <= 3 then digits
    else GroupThousands(digits[..|digits| - 3]) + "," + digits[|digits| - 3..]
  }

  function StripCommas(s: string): string {
    if s == [] then [] else (if s[0] == ',' then [] else [s[0]]) + StripCommas(s[1..])
  }

  lemma {:induction false} StripCommasAppend(a: string, b: string)
    ensures StripCommas(a + b) == StripCommas(a) + StripCommas(b)
  {
    if a != [] {
      assert (a + b)[1..] == a[1..] + b;
      StripCommasAppend(a[1..], b);
    } else {
      assert a + b == b;
    }
  }

  lemma {:induction false} StripCommasOfDigits(s: string)
    requires AllDigits(s)
    ensures StripCommas(s) == s
  {
    if s != [] {
      StripCommasOfDigits(s[1..]);
    }
  }

  /** Grouping only inserts commas: removing them gives the digits back. */
  lemma {:induction false} GroupThousandsRoundTrip(digits: string)
    requires AllDigits(digits)
    ensures StripCommas(GroupThousands(digits)) == digits
    decreases |digits|
  {
    if |digits| <= 3 {
      StripCommasOfDigits(digits);
    } else {
      var head := digits[..|digits| - 3];
      var tail := digits[|digits| - 3..];
      var grouped := GroupThousands(head);
      assert GroupThousands(digits) == grouped + "," + tail;
      GroupThousandsRoundTrip(head);
      StripCommasAppend(grouped + ",", tail);
      StripCommasAppend(grouped, ",");
      assert StripCommas(",") == [] by {
        assert ","[1..] == [];
      }
      StripCommasOfDigits(tail);
      calc {
        StripCommas(grouped + "," + tail);
        StripCommas(grouped) + StripCommas(",") + StripCommas(tail);
        head + tail;
        digits;
      }
    }
  }

  /** `toLocaleString()` of an integer under the en-US locale. */
  function LocaleNumber(n: int): string {
    (if n < 0 then "-" else "") + GroupThousands(NatToString(if n < 0 then -n else n))
  }

  /** `Intl.NumberFormat("en-US", { style: "currency", currency: "USD", maximumFractionDigits: 0 })` on an integer. */
  function UsdText(n: int): string {
    (if n < 0 then "-" else "") + "$" + GroupThousands(NatToString(if n < 0 then -n else n))
  }

  /** `formatCurrency`: nothing for an absent or zero amount. */
  function FormatCurrency(value: Option<int>): (r: Option<string>)
    ensures r.None? <==> value.None? || value.value == 0
    ensures r.Some? ==> r.value == UsdText(value.value)
  {
    if value.None? || value.value == 0 then None else Some(UsdText(value.value))
  }

  /** `[a, b].filter(Boolean)` on optional strings that are never empty. */
  function Present(a: Option<string>, b: Option<string>): (r: seq<string>)
    ensures |r| == (if a.Some? then 1 else 0) + (if b.Some? then 1 else 0)
    ensures a.Some? ==> r[0] == a.value
    ensures b.Some? ==> r[|r| - 1] == b.value
  {
    (if a.Some? then [a.value] else []) + (if b.Some? then [b.value] else [])
  }

  /** A range cell: the present bounds joined with an en dash, or "Not disclosed". */
  function RangeText(bounds: seq<string>): (r: string)
    ensures |bounds| == 0 ==> r == "Not disclosed"
    ensures |bounds| == 1 ==> r == bounds[0]
    ensures |bounds| == 2 ==> r == bounds[0] + " – " + bounds[1]
  {
    if |bounds| == 0 then "Not disclosed"
    else
      assert |bounds| == 2 ==> Join(" – ", bounds[1..]) == bounds[1];
      Join(" – ", bounds)
  }

  /** A bound that `formatCurrency` keeps: present and non-zero. */
  predicate Shown(value: Option<int>) {
    value.Some? && value.value != 0
  }

  /** The spend cell: the dollar amounts of the non-zero bounds, lower first, or "Not disclosed". */
  function SpendText(ad: CompetitorAd): (r: string)
    ensures Shown(ad.spendLower) && Shown(ad.spendUpper) ==>
      r == UsdText(ad.spendLower.value) + " – " + UsdText(ad.spendUpper.value)
    ensures Shown(ad.spendLower) && !Shown(ad.spendUpper) ==> r == UsdText(ad.spendLower.value)
    ensures !Shown(ad.spendLower) && Shown(ad.spendUpper) ==> r == UsdText(ad.spendUpper.value)
    ensures !Shown(ad.spendLower) && !Shown(ad.spendUpper) ==> r == "Not disclosed"
  {
    RangeText(Present(FormatCurrency(ad.spendLower), FormatCurrency(ad.spendUpper)))
  }

  /** Impressions: any present bound is shown, zero included (`toLocaleString` never gives ""). */
  function ImpressionsText(ad: CompetitorAd): (r: string)
    ensures ad.impressionsLower.Some? && ad.impressionsUpper.Some? ==>
      r == LocaleNumber(ad.impressionsLower.value) + " – " + LocaleNumber(ad.impressionsUpper.value)
    ensures ad.impressionsLower.Some? && ad.impressionsUpper.None? ==> r == LocaleNumber(ad.impressionsLower.value)
    ensures ad.impressionsLower.None? && ad.impressionsUpper.Some? ==> r == LocaleNumber(ad.impressionsUpper.value)
    ensures ad.impressionsLower.None? && ad.impressionsUpper.None? ==> r == "Not disclosed"
  {
    RangeText(Present(
      if ad.impressionsLower.Some? then Some(LocaleNumber(ad.impressionsLower.value)) else None,
      if ad.impressionsUpper.Some? then Some(LocaleNumber(ad.impressionsUpper.value)) else None))
  }

  lemma NatToStringNotNotDisclosed(n: nat)
    ensures NatToString(n)[0] != 'N'
  {
    assert IsDigit(NatToString(n)[0]);
  }

  /** Spend is "Not disclosed" exactly when neither bound is a non-zero amount. */
  lemma SpendNotDisclosed(ad: CompetitorAd)
    ensures SpendText(ad) == "Not disclosed" <==>
      (ad.spendLower.None? || ad.spendLower.value == 0) && (ad.spendUpper.None? || ad.spendUpper.value == 0)
  {
    var b := Present(FormatCurrency(ad.spendLower), FormatCurrency(ad.spendUpper));
    if |b| > 0 {
      assert b[0][0] == '-' || b[0][0] == '$';
      JoinStart(" – ", b);
    }
  }

  /** Impressions are "Not disclosed" exactly when both bounds are absent; a zero bound reads "0". */
  lemma ImpressionsNotDisclosed(ad: CompetitorAd)
    ensures ImpressionsText(ad) == "Not disclosed" <==> ad.impressionsLower.None? && ad.impressionsUpper.None?
    ensures ad.impressionsLower == Some(0) && ad.impressionsUpper.None? ==> ImpressionsText(ad) == "0"
  {
    var b := Present(
      if ad.impressionsLower.Some? then Some(LocaleNumber(ad.impressionsLower.value)) else None,
      if ad.impressionsUpper.Some? then Some(LocaleNumber(ad.impressionsUpper.value)) else None);
    if |b| > 0 {
      var n := if ad.impressionsLower.Some? then ad.impressionsLower.value else ad.impressionsUpper.value;
      assert b[0] == LocaleNumber(n);
      NatToStringNotNotDisclosed(if n < 0 then -n else n);
      GroupThousandsStart(NatToString(if n < 0 then -n else n));
      assert b[0][0] != 'N';
      JoinStart(" – ", b);
    }
  }

  /** Grouping keeps the first digit first. */
  lemma {:induction false} GroupThousandsStart(digits: string)
    requires digits != []
    ensures GroupThousands(digits) != [] && GroupThousands(digits)[0] == digits[0]
    decreases |digits|
  {
    if |digits| > 3 {
      GroupThousandsStart(digits[..|digits| - 3]);
    }
  }

  /** A joined list starts with the first part. */
  lemma JoinStart(sep: string, parts: seq<string>)
    requires |parts| > 0 && parts[0] != []
    ensures Join(sep, parts) != [] && Join(sep, parts)[0] == parts[0][0]
  {
  }
}
