# Competitor ad intelligence: a Dafny model

The application pulls competitor ads from the Facebook Ad Library and shows them grouped by advertiser. From those ads it then writes a new ad concept. This project models the application's logic in Dafny and proves properties of that model.

The request flows through these steps:

1. The home page turns its form into a query string (`Home`).
2. The API route reads the query. It applies defaults and clamps the limit (`Route.ReadQuery`).
3. Without an access token the route answers with the sample ads. Otherwise it builds Graph API search parameters on a `URLSearchParams`-like object (`Params.SearchParams`, `Route.BuildGraphParams`). Then, depending on the outcome of the request, it answers with the normalised live ads or with the sample ads (`Route.HandleRequest`).
4. The raw records are normalised into canonical ads (`Normalizer`).
5. The gallery groups the ads by page and formats spend, impressions and placements (`Gallery`).
6. The concept generator builds the concept from the ads' text:
   - It tokenises the text and counts keywords, keeping the twelve most frequent (`Keywords`).
   - From those keywords it builds a hook, a primary text, a headline, a description, a call to action and three or four creative notes (`Concept`).

Modules, one concept each:

| module | file | what it holds |
|---|---|---|
| `Wrappers` | wrappers.dfy | `Option` |
| `Seqs` | seqs.dfy | duplicate-free sequences, first-occurrence `Distinct`, `Join`, `Take` |
| `Numbers` | numbers.dfy | JavaScript `Number(...)`, `Number.parseInt(..., 10)` and decimal `toString` on integers |
| `FacebookTypes` | facebook_types.dfy | raw ad-library records, canonical ads, the generated concept |
| `SampleData` | mock_ads.dfy | the three sample ads |
| `Normalizer` | normalizer.dfy | `getBoundAsNumber`, `normaliseAds` |
| `Keywords` | keywords.dfy | `tokenize`, `collectKeywords` (imperative counter plus a functional specification) |
| `Concept` | concept.dfy | the concept builders, `pickCallToAction`, `synthesizeNotes`, `generateAdConcept` |
| `Params` | search_params.dfy | a `URLSearchParams` class over an entry list |
| `Route` | route.dfy | the `GET /api/facebook/ads` handler |
| `Gallery` | gallery.dfy | grouping by page, labels and amount formatting of the gallery |
| `Home` | home.dfy | `buildQueryString`, the metric summary, the concept shown on the page |

Randomness is modelled as a parameter:
- `pickCallToAction` takes the index drawn from the call-to-action library as an argument (`ctaChoice`).
- `synthesizeNotes` takes the sequence of indices drawn from the notes pool (`notePicks`).

Its contracts then hold for every possible draw. The environment token and the outcome of `fetch` are parameters of `Route.HandleRequest`.

## Model

| member | source | states |
|---|---|---|
| Normalizer.GetBoundAsNumber | src/lib/ads.ts:82-86 | a bound is present exactly when the text is non-empty and reads as a finite number; non-empty blank text reads as 0; decimal text gives its value |
| Normalizer.BoundRoundTrip | src/lib/ads.ts:82-86 | an integer written in decimal reads back as itself |
| Normalizer.BoundExamples | src/lib/ads.ts:82-86 | `""` and `"abc"` are absent, `"  "` is 0, `"500"` is 500 |
| Normalizer.NormaliseAd | src/lib/ads.ts:95-117 | each canonical field is the raw field or its documented default (`""`, `"Unknown Page"`, the first title or description, the first image url); each of the four numeric bounds is `getBoundAsNumber` of its raw text, and so is present iff that text is a number |
| Normalizer.FirstImageUrl | src/lib/ads.ts:108 | the first image's url when there is an image, otherwise none |
| Normalizer.NormaliseAds | src/lib/ads.ts:88-119 | no records (absent or empty) gives the sample ads; otherwise one canonical ad per record, in order |
| Normalizer.SpendExample | src/lib/ads.ts:96-97 | a spend range `"abc"`–`"500"` normalises to no lower bound and an upper bound of 500 |
| Normalizer.FirstOr | src/lib/ads.ts:105-106 | the first element when there is one, else the default |
| Numbers.JsNumber | src/lib/ads.ts:84 | `Number(s)` on integer syntax: text that is empty after trimming the ECMAScript white space is 0; trimmed decimal text is its value; anything else is not finite |
| Numbers.ParseInt | src/app/api/facebook/ads/route.ts:35 | `parseInt(s, 10)`: after leading white space, the value of the longest decimal integer (optional sign, digits) that starts the text, with the next character not a digit; none exactly when no prefix is a decimal integer |
| Numbers.IntToStringJsNumber | src/lib/ads.ts:84 | `Number(n.toString())` is `n` |
| Numbers.IntToStringParseInt | src/app/api/facebook/ads/route.ts:35 | `Number.parseInt(n.toString(), 10)` is `n` |
| Keywords.LowerCase | src/lib/ads.ts:123 | same length; every character is lower-cased pointwise |
| Keywords.Words | src/lib/ads.ts:124 | every piece of the split is a non-empty run of `[a-z0-9+]` characters |
| Keywords.WordsAtSeparator | src/lib/ads.ts:124 | a non-word character splits the text: the pieces of `a + [c] + b` are those of `a` followed by those of `b`; with `WordsOfWord`, a run of word characters is one piece, so the pieces are maximal |
| Keywords.WordsSpellWordChars | src/lib/ads.ts:122-124 | the pieces, concatenated, are exactly the word characters of the text, in order |
| Keywords.KeepTokens | src/lib/ads.ts:125 | every kept piece is one of the pieces, longer than two characters and not a stop word; every such piece is kept |
| Keywords.KeepTokensCounts | src/lib/ads.ts:125 | each piece longer than two characters and not a stop word survives exactly as often as it occurs; every other piece occurs zero times |
| Keywords.KeepTokensAppend | src/lib/ads.ts:125 | filtering a concatenation gives the filtered halves concatenated in order, so the survivors keep their relative order |
| Keywords.KeepTokensOfOne | src/lib/ads.ts:125 | a single piece is kept, once, exactly when it is longer than two characters and not a stop word |
| Keywords.Tokenize | src/lib/ads.ts:121-126 | every token is a lower-case word longer than two characters and not a stop word; each such word of the lower-cased text is a token exactly as often as it occurs there |
| Keywords.AiIsNeverAToken | src/lib/ads.ts:66 | the two-letter priority key `"ai"` never survives tokenising |
| Keywords.InsertKeepsSorted | src/lib/ads.ts:140 | inserting an entry into a list sorted by descending count keeps it sorted and is a permutation |
| Keywords.SortByCount | src/lib/ads.ts:138-140 | the result is sorted by descending count and is a permutation of the entries |
| Keywords.Tally | src/lib/ads.ts:134 | one `counter.set(word, (counter.get(word) ?? 0) + 1)` turns a counter of the tokens read so far (keys in first-seen order, each with its number of occurrences) into the counter of those tokens and the new word |
| Keywords.TallyAgain | src/lib/ads.ts:134 | counting a word already seen keeps the tally consistent with the longer token list |
| Keywords.TallyNew | src/lib/ads.ts:134 | counting a new word appends it to the insertion order and keeps the tally consistent |
| Keywords.CountWords | src/lib/ads.ts:131-136 | after the loop the counter holds, in insertion order, every token of every ad with its number of occurrences |
| Keywords.CollectKeywords | src/lib/ads.ts:128-142 | the result is the top twelve entries of the count-sorted (stable) first-seen token tallies |
| Keywords.SortedEntry | src/lib/ads.ts:138-140 | every ranked entry is a token of the ads paired with its occurrence count |
| Keywords.TokenRanked | src/lib/ads.ts:138-140 | every token of the ads appears in the full ranking |
| Keywords.RankingDistinct | src/lib/ads.ts:138-140 | the ranking names each keyword once |
| Keywords.TopKeywordsWellFormed | src/lib/ads.ts:128-142 | at most twelve keywords, distinct, each with its true positive count, in descending count order |
| Keywords.MoreFrequentRanksEarlier | src/lib/ads.ts:140 | a strictly more frequent keyword never ranks after a less frequent one |
| Keywords.OmittedTokensRankLower | src/lib/ads.ts:141 | a token left out of the top twelve occurs no more often than every kept keyword |
| Keywords.TopKeywordsOfNoAds | src/lib/ads.ts:128-142 | no ads give no keywords |
| Concept.KeywordOr | src/lib/ads.ts:197-199 | the i-th keyword if there is one, else the fallback |
| Concept.BuildHook | src/lib/ads.ts:161-173 | with two or more keywords the hook is "Still chasing k1 without k2?"; otherwise the generic hook. The `first && third` branch is unreachable |
| Concept.BuildPrimaryText | src/lib/ads.ts:192-206 | the lever, angle and proof sentences about the competitor, joined by single spaces; the first three keywords fill the slots in order and missing ones fall back to "results", "growth", "clients" (one case per keyword count) |
| Concept.Capitalize | src/lib/ads.ts:212 | same length; the first character upper-cased, the rest unchanged |
| Concept.CapitalizeRoundTrip | src/lib/ads.ts:212 | lower-casing a capitalised token gives back the token |
| Concept.BuildHeadline | src/lib/ads.ts:208-213 | no keywords: "Growth without clients?"; one keyword: that keyword capitalised, then " without clients?"; two or more: the first capitalised, " without ", the second, "?" |
| Concept.DefaultHeadline | src/lib/ads.ts:209-212 | no keywords give "Growth without clients?" |
| Concept.BuildDescription | src/lib/ads.ts:215-218 | the borrow-the-playbook sentence naming the first three keywords separated by ", " (one keyword alone, two joined by one ", "); with no keywords the slot is empty and two spaces meet |
| Concept.FindCtaMatch | src/lib/ads.ts:145-149 | none iff no keyword contains any of the six needles; otherwise the first keyword that does |
| Concept.LibraryCta | src/lib/ads.ts:158 | the drawn library entry, or the default when the index is out of range |
| Concept.PickCallToAction | src/lib/ads.ts:144-159 | when no keyword contains a needle the call is the random library draw; in every case it is one of the four fixed calls or the draw |
| Concept.FirstMatchDecides | src/lib/ads.ts:145-158 | the first keyword containing a needle decides: "demo", then "download", "guide", "playbook" select their fixed call in that priority; a match on "book" or "access" alone falls through to the draw |
| Concept.CallToActionRange | src/lib/ads.ts:144-159 | for an in-range draw the call is a fixed call or a library entry, never the default |
| Concept.BookAloneFallsThrough | src/lib/ads.ts:146-158 | a first match on "book" alone chooses no fixed call and falls through to the random draw |
| Concept.PriorityInsight | src/lib/ads.ts:179 | an insight is found exactly for the seven keys of the priority table, and it is that key's text |
| Concept.MatchedInsights | src/lib/ads.ts:178-181 | at most one insight per keyword, every one a value of the priority table |
| Concept.MatchedInsightsSnoc | src/lib/ads.ts:178-181 | the insights follow keyword order: one more keyword appends its insight, if any, at the end |
| Concept.PriorityNotes | src/lib/ads.ts:176-181 | the set after the priority pass: distinct, at most five, holding exactly the insights of the first five keywords, each a table value |
| Concept.PoolNotExhausted | src/lib/ads.ts:183-187 | while fewer than three notes are held, some pool note is still missing |
| Concept.SynthesizeNotes | src/lib/ads.ts:175-190 | three or four distinct notes: the first four priority notes when there are at least three, else the priority notes topped up from the pool to exactly three; every note comes from the table or the pool |
| Concept.GenerateAdConcept | src/lib/ads.ts:220-247 | no ads give the fixed generic concept; otherwise every field is its builder over the top keywords, named after the first ad's page, and the notes satisfy the notes contract |
| Concept.PriorityLookupAsWritten | src/lib/ads.ts:179 | the indexing of a plain object as written: own table entries, then the inherited `Object.prototype` members |
| Concept.ConstructorBecomesANote | src/lib/ads.ts:178-181 | "constructor" is a token, and as written it adds the inherited member as a note |
| Concept.AsWrittenAgreesOffPrototype | src/lib/ads.ts:178-181 | when no top-five keyword names an inherited member, the lookup as written and the corrected lookup give the same notes |
| Params.Lookup | src/app/api/facebook/ads/route.ts:31-35 | `get`: none iff the name is absent; otherwise the value of the first pair with that name |
| Params.FirstPair | src/app/api/facebook/ads/route.ts:31-35 | a name that occurs has a first pair |
| Params.LookupUnique | src/app/api/facebook/ads/route.ts:56-64 | with distinct names, the lookup of the i-th name is the i-th value |
| Params.SetLookup | src/app/api/facebook/ads/route.ts:66-68 | after `set`, the name reads as the new value and every other name is unchanged |
| Params.DeleteLookup | src/app/api/facebook/ads/route.ts:70-72 | after `delete`, the name is absent and every other name is unchanged |
| Params.SetKeepsNamesUnique | src/app/api/facebook/ads/route.ts:66-68 | `set` keeps names distinct |
| Params.DeleteKeepsNamesUnique | src/app/api/facebook/ads/route.ts:70-72 | `delete` keeps names distinct |
| Params.DeleteNames | src/app/api/facebook/ads/route.ts:70-72 | `delete` leaves only names that were there, and never the deleted one |
| Params.SetNames | src/app/api/facebook/ads/route.ts:66-68 | `set` introduces no name but its own |
| Params.SearchParams.constructor | src/app/api/facebook/ads/route.ts:56-64 | the object holds exactly the initial pairs |
| Params.SearchParams.Get | src/app/api/facebook/ads/route.ts:31-35 | reads the value of the first pair with the name, none when absent |
| Params.SearchParams.Set | src/app/api/facebook/ads/route.ts:67 | the entries become the set-result; the name reads as the value, other names are unchanged, names stay distinct |
| Params.SearchParams.Delete | src/app/api/facebook/ads/route.ts:71 | the entries lose every pair with the name; other names are unchanged, names stay distinct |
| Route.ClampLimit | src/app/api/facebook/ads/route.ts:35-39 | the limit is between 1 and 100; a parsed value in range is kept, anything else is 25 |
| Route.ParamOr | src/app/api/facebook/ads/route.ts:31-34 | `get(name) ?? default`: the default when the name is absent, else the first pair's value |
| Route.ReadQuery | src/app/api/facebook/ads/route.ts:30-39 | each of searchTerm, pageId, country, adType is the first incoming value under its name, or "", "", "US", "ALL" when absent; the limit is the parsed `limit` when it is an integer in 1..100 and 25 otherwise, so always in 1..100 |
| Route.LimitParsing | src/app/api/facebook/ads/route.ts:35-39 | a decimal limit in 1..100 is kept, any other integer gives 25 |
| Route.MissingLimit | src/app/api/facebook/ads/route.ts:35-39 | an empty or non-numeric limit gives 25 |
| Route.EmptyQueryDefaults | src/app/api/facebook/ads/route.ts:31-39 | an empty query gives "", "", "US", "ALL", 25 |
| Route.InitialGraphEntries | src/app/api/facebook/ads/route.ts:56-64 | the initial parameters name, in order, the seven initial keys |
| Route.InitialGraphLookups | src/app/api/facebook/ads/route.ts:56-64 | each initial key reads as its value (token, "ALL", country, ad type, field list, limit, search term) |
| Route.OtherNamesKept | src/app/api/facebook/ads/route.ts:66-72 | the optional page-id and search-term steps leave every other key unchanged |
| Route.GraphEntriesQuery | src/app/api/facebook/ads/route.ts:56-72 | the final parameters hold every field of the query; `search_page_ids` is present iff the page id is non-empty, `search_terms` iff the term is non-empty; names are distinct and none outside the seven initial ones and `search_page_ids` |
| Route.GraphOptionalLookups | src/app/api/facebook/ads/route.ts:66-72 | `search_page_ids` carries the page id only when it is non-empty; `search_terms` the term only when it is non-empty |
| Route.GraphNames | src/app/api/facebook/ads/route.ts:56-72 | each parameter name is sent once, and only the initial names and `search_page_ids` are sent |
| Route.BuildGraphParams | src/app/api/facebook/ads/route.ts:56-72 | a fresh parameter object whose entries carry exactly that query |
| Route.HandleRequest | src/app/api/facebook/ads/route.ts:41-107 | no or empty token: the sample answer and no request; otherwise a request carrying the read query and no other parameter, and the live normalised data for a 2xx JSON answer, the sample answer for every failure |
| Route.ResponseNeverEmpty | src/app/api/facebook/ads/route.ts:42-50 | the sample answer has three ads and a live answer at least one |
| Route.EmptyLiveDataShowsSamples | src/app/api/facebook/ads/route.ts:95 | a live answer without data carries the sample ads |
| Gallery.PageKey | src/components/AdGallery.tsx:38 | the page name when it is non-empty, "Unknown Advertiser" when it is empty |
| Gallery.AdsWithKey | src/components/AdGallery.tsx:39-41 | exactly the ads whose key matches, in their original order |
| Gallery.AdsWithKeyAppend | src/components/AdGallery.tsx:39-41 | pushing one more ad appends it to its own group only |
| Gallery.GroupsFor | src/components/AdGallery.tsx:43 | one group per key, in key order, each holding that key's ads |
| Gallery.GroupByPage | src/components/AdGallery.tsx:35-44 | the map-and-push loop gives the groups in first-seen page order, each with its ads in order |
| Gallery.GroupedPlacesEveryAd | src/components/AdGallery.tsx:35-44 | every ad lies in the group of its own key |
| Gallery.GroupKeysDistinct | src/components/AdGallery.tsx:36-43 | each page heads one group only |
| Gallery.GroupSizesSum | src/components/AdGallery.tsx:35-44 | the group sizes add up to the number of ads |
| Gallery.CreativeCountLabel | src/components/AdGallery.tsx:61 | the count, then "active creatives tracked" only when the count exceeds 1; 0 and 1 take the singular |
| Gallery.ReplaceUnderscores | src/components/AdGallery.tsx:31 | same length; every `_` becomes a space and every other character stays |
| Gallery.Readable | src/components/AdGallery.tsx:31 | one label per placement, each with its underscores made spaces |
| Gallery.PlatformsLabel | src/components/AdGallery.tsx:29-32 | no placements (absent or empty) give "Unknown placement"; a placement label never contains `_` |
| Gallery.PlatformsLabelCases | src/components/AdGallery.tsx:29-32 | one placement gives its name with spaces; two or more give the first, ", ", then the label of the rest, so the names are joined by ", " in order |
| Gallery.FormatCurrency | src/components/AdGallery.tsx:11-18 | none iff the value is absent or 0; otherwise "$" followed by the comma-grouped amount |
| Gallery.GroupThousandsRoundTrip | src/components/AdGallery.tsx:11-18 | removing the grouping commas gives back the decimal digits |
| Gallery.Present | src/components/AdGallery.tsx:67-75 | `filter(Boolean)` keeps exactly the present bounds: as many as are present, the lower one first and the upper one last |
| Gallery.RangeText | src/components/AdGallery.tsx:129-131 | no bounds give "Not disclosed", one bound is shown alone, two are joined by " – " |
| Gallery.SpendText | src/components/AdGallery.tsx:67-70 | each bound that is present and non-zero is shown as USD, lower first, joined by " – "; "Not disclosed" when neither is |
| Gallery.SpendNotDisclosed | src/components/AdGallery.tsx:129-131 | spend reads "Not disclosed" iff both bounds are absent or 0 |
| Gallery.ImpressionsText | src/components/AdGallery.tsx:72-75 | each present bound, including 0, is shown with en-US grouping, lower first, joined by " – "; "Not disclosed" when neither is present |
| Gallery.ImpressionsNotDisclosed | src/components/AdGallery.tsx:137-139 | impressions read "Not disclosed" iff both bounds are absent; a 0 is shown as "0" |
| Home.QueryPairsMembers | src/components/HomePage.tsx:12-16 | exactly the kept pairs (non-empty text, any number including 0), stringified |
| Home.BuildQueryString | src/components/HomePage.tsx:10-18 | the `set` loop serialises exactly the kept pairs in key order |
| Home.QueryPairsLookup | src/components/HomePage.tsx:12-16 | each key reads as its stringified value when kept and is absent otherwise |
| Home.QueryReachesRoute | src/components/HomePage.tsx:47-54 | the route reads the form's fields back: empty text falls to the route's defaults and the number is clamped |
| Home.ActiveAds | src/components/HomePage.tsx:96 | the filter keeps each active ad (no or empty stop time) as often as it occurs and no other ad |
| Home.ActiveAdsPositions | src/components/HomePage.tsx:96 | the filtered list has one entry per position holding an active ad |
| Home.AllActiveLength | src/components/HomePage.tsx:96 | nothing is filtered out exactly when every ad is active |
| Home.NoneActiveLength | src/components/HomePage.tsx:96 | everything is filtered out exactly when no ad is active |
| Home.ActiveCount | src/components/HomePage.tsx:96 | the number of positions holding an active ad, so at most the number of ads; all ads iff every ad is active, none iff none is |
| Home.TotalSpend | src/components/HomePage.tsx:91 | 0 when no ad has an upper spend bound; never negative when no bound is |
| Home.TotalImpressions | src/components/HomePage.tsx:92-95 | 0 when no ad has an upper impressions bound; never negative when no bound is |
| Home.MetricSummary | src/components/HomePage.tsx:88-103 | none iff there are no ads; otherwise the spend total, the impressions total and the active count, which never exceeds the ads |
| Home.TotalsAppend | src/components/HomePage.tsx:91-96 | the two totals and the active count over two lists add up |
| Home.TotalsOfOne | src/components/HomePage.tsx:91-96 | one ad contributes its upper bounds (0 when absent), and counts as active iff its stop time is absent or empty |
| Home.SampleMetrics | src/components/HomePage.tsx:88-103 | the sample ads sum to $4,050, 280,000 impressions, 3 active |
| Home.ConceptFor | src/components/HomePage.tsx:78-86 | no concept iff there are no ads; otherwise each field is its builder over the top keywords (primary text named after the first ad's page), and the notes satisfy the notes contract |

## Left out

- Network and environment. The `fetch` call, `NextResponse`, `console.error` and `process.env` are left out. The access token and the fetch outcome are parameters of `Route.HandleRequest`, and the request is returned as its parameter list.
- Route.HandleRequest: a 2xx JSON answer is taken to have the declared shape, an optional `data` list of raw ad records. A payload whose `data` is not a list, or holds a malformed record, makes normalisation throw in the source, and the catch then answers with the sample ads. The model has no such payload.
- Random draws. `Math.random` is a parameter. The contracts hold for every draw, but no probability distribution is modelled.
- Repeated note draws. In the source, a draw that hits a note already held adds nothing. `Concept.SynthesizeNotes` skips those draws: each iteration takes a pool note not yet held, chosen by the next entry of `notePicks`. The model therefore counts no wasted iterations.
- Unreachable fallback. The "the market leader" fallback of `generateAdConcept` is not modelled. It needs a missing `pageName`, and a canonical ad always has one.
- `formatDate`. It uses date-fns and the system clock, so it is not part of this model.
- React rendering and state. The JSX, the `useState`/`useMemo`/`useEffect` hooks and the `fetchAds` callback are modelled only through the values they compute.
- Other components. `CompetitorForm.tsx` and `AdConcept.tsx` are presentation only and are not part of this model.
- Percent-encoding. `URLSearchParams.toString` percent-encodes values. `Params.Serialize` joins `name=value` with `&` and does no encoding.
- Unicode. `toLowerCase` and `toUpperCase` are modelled on ASCII letters only. Other characters are unchanged.
- Number precision. JavaScript numbers are doubles, but the model uses unbounded integers. Rounding, `Infinity` from very long digit strings and fractional bounds are not modelled.
- Normalizer.GetBoundAsNumber: models only the integer syntax of `Number`: an optional sign and decimal digits, surrounded by ECMAScript white space and line terminators. Text with a fraction, an exponent or a hexadecimal, binary or octal prefix is finite in JavaScript but reads as absent here. `Infinity` text is absent in both.
- Numbers.ParseInt: models only an optional sign followed by decimal digits after leading whitespace, which is all the route's limit needs.
- Gallery.FormatCurrency: formats integers with the en-US grouping only. The rounding the formatter applies to fractional amounts is not modelled.
- Gallery.LocaleNumber: `toLocaleString()` uses the runtime's default locale. The model fixes the en-US grouping (commas every three digits), which is what `Gallery.ImpressionsText` shows; other locales' separators are not modelled.
- Home.BuildQueryString: requires distinct keys, because its argument is a record. Numbers are integers, so `NaN` is not modelled.
- Keywords.SortByCount: a stable insertion sort stands in for `Array.prototype.sort`. That sort is stable since ES2019.

## Findings

| source | as written | input that shows it | evidently intended | confidence | as-written member | corrected member |
|---|---|---|---|---|---|---|
| src/lib/ads.ts:179 | `KEYWORD_PRIORITIES[keyword]` indexes a plain object, so inherited `Object.prototype` members such as `constructor` are found too and become notes | ads whose text contains the word "constructor" | only the seven own entries of the priority table give notes | not executed | Concept.ConstructorBecomesANote | Concept.PriorityInsight |

The corrected lookup is the one that `Concept.SynthesizeNotes` and `Concept.GenerateAdConcept` use. `Concept.AsWrittenAgreesOffPrototype` shows that the two lookups differ only on inherited member names.

A second observation is not a finding: the table entry for `"ai"` can never match. Tokens are longer than two characters, as `Keywords.AiIsNeverAToken` shows.
