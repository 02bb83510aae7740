/**
 * The keyword extractor: `tokenize` splits ad text into candidate keywords and
 * `collectKeywords` counts them across all ads and ranks the twelve most frequent.
 */
module Keywords {
  import opened Seqs
  import opened FacebookTypes

  datatype KeywordInsight = KeywordInsight(keyword: string, count: nat)

  /** Common English function words that never count as keywords. */
  const StopWords: set<string> := {
    "the", "and", "for", "with", "that", "your", "from", "this", "have", "will",
    "what", "about", "their", "they", "been", "into", "only", "does", "when", "much",
    "more", "than", "then", "them", "make", "made", "free", "just", "every", "over",
    "need", "like", "most", "take", "even", "once"
  }

  /** Every stop-word has at most five letters. */
  lemma StopWordsAreShort(w: string)
    ensures w in StopWords ==> |w| <= 5
  {
  }

  /** `toLowerCase` on the ASCII letters; every other character is left as it is. */
  function LowerChar(c: char): char {
    if 'A' <= c <= 'Z' then ((c as int) + 32) as char else c
  }

  function LowerCase(s: string): (r: string)
    ensures |r| == |s| && forall i :: 0 <= i < |s| ==> r[i] == LowerChar(s[i])
  {
    seq(|s|, i requires 0 <= i < |s| => LowerChar(s[i]))
  }

  /** The characters of the class `[a-z0-9+]`; every other character separates words. */
  predicate IsWordChar(c: char) {
    'a' <= c <= 'z' || '0' <= c <= '9' || c == '+'
  }

  predicate IsWord(w: string) {
    forall k :: 0 <= k < |w| ==> IsWordChar(w[k])
  }

  /** Length of the run of word characters that starts `s`. */
  function WordRun(s: string): (n: nat)
    ensures n <= |s| && IsWord(s[..n])
    ensures n < |s| ==> !IsWordChar(s[n])
  {
    if s != [] && IsWordChar(s[0]) then
      var n := 1 + WordRun(s[1..]);
      assert forall k :: 1 <= k < n ==> s[..n][k] == s[1..][..n - 1][k - 1];
      n
    else 0
  }

  /**
   * The words of `s`: its maximal runs of word characters, in order. These are the
   * non-empty pieces of `s.split(/[^a-z0-9+]+/)`; the empty pieces that split yields
   * at the ends are shorter than three characters and are dropped by `Tokenize` anyway.
   */
  function Words(s: string): (r: seq<string>)
    ensures forall i :: 0 <= i < |r| ==> r[i] != [] && IsWord(r[i])
    decreases |s|
  {
    if s == [] then []
    else if !IsWordChar(s[0]) then Words(s[1..])
    else
      var n := WordRun(s);
      [s[..n]] + Words(s[n..])
  }

  /** The characters of `s` that belong to words, in order. */
  function WordChars(s: string): string {
    if s == [] then [] else (if IsWordChar(s[0]) then [s[0]] else []) + WordChars(s[1..])
  }

  function Concat(ws: seq<string>): string {
    if ws == [] then [] else ws[0] + Concat(ws[1..])
  }

  lemma {:induction false} WordCharsAppend(a: string, b: string)
    ensures WordChars(a + b) == WordChars(a) + WordChars(b)
  {
    if a != [] {
      var head: string := if IsWordChar(a[0]) then [a[0]] else [];
      assert (a + b)[0] == a[0] && (a + b)[1..] == a[1..] + b;
      WordCharsAppend(a[1..], b);
      calc {
        WordChars(a + b);
        head + WordChars(a[1..] + b);
        head + (WordChars(a[1..]) + WordChars(b));
        (head + WordChars(a[1..])) + WordChars(b);
        WordChars(a) + WordChars(b);
      }
    } else {
      assert a + b == b;
    }
  }

  lemma {:induction false} WordCharsOfWord(w: string)
    requires IsWord(w)
    ensures WordChars(w) == w
  {
    if w != [] {
      WordCharsOfWord(w[1..]);
    }
  }

  /** A word is already lower-case. */
  lemma LowerCaseOfWord(w: string)
    requires IsWord(w)
    ensures LowerCase(w) == w
  {
    forall i | 0 <= i < |w| ensures LowerCase(w)[i] == w[i] {
      assert IsWordChar(w[i]);
    }
  }

  lemma {:induction false} WordRunOfWord(w: string)
    requires IsWord(w)
    ensures WordRun(w) == |w|
  {
    if w != [] {
      WordRunOfWord(w[1..]);
    }
  }

  /** A text that is one word splits into that word alone. */
  lemma WordsOfWord(w: string)
    requires w != [] && IsWord(w)
    ensures Words(w) == [w]
  {
    WordRunOfWord(w);
    assert IsWordChar(w[0]);
    assert w[..|w|] == w;
    assert Words(w[|w|..]) == [];
  }

  /** A word run stops at a separator, whatever follows it. */
  lemma {:induction false} WordRunBeforeSeparator(a: string, rest: string)
    requires rest != [] && !IsWordChar(rest[0])
    ensures WordRun(a + rest) == WordRun(a)
    decreases |a|
  {
    if a == [] {
      assert a + rest == rest;
    } else {
      assert (a + rest)[0] == a[0] && (a + rest)[1..] == a[1..] + rest;
      if IsWordChar(a[0]) {
        WordRunBeforeSeparator(a[1..], rest);
      }
    }
  }

  /**
   * Words are maximal: a separator splits the text into the words before it and the
   * words after it, and no word is ever cut anywhere else (see `WordsOfWord`).
   */
  lemma {:induction false} WordsAtSeparator(a: string, c: char, b: string)
    requires !IsWordChar(c)
    ensures Words(a + [c] + b) == Words(a) + Words(b)
    decreases |a|
  {
    var s := a + [c] + b;
    if a == [] {
      assert s == [c] + b && s[1..] == b;
    } else if !IsWordChar(a[0]) {
      assert s[0] == a[0] && s[1..] == a[1..] + [c] + b;
      WordsAtSeparator(a[1..], c, b);
    } else {
      assert s == a + ([c] + b);
      WordRunBeforeSeparator(a, [c] + b);
      var n := WordRun(a);
      assert s[..n] == a[..n];
      assert s[n..] == a[n..] + [c] + b;
      WordsAtSeparator(a[n..], c, b);
    }
  }

  /** Splitting loses no word character and invents none: the words spell out exactly the word characters. */
  lemma {:induction false} WordsSpellWordChars(s: string)
    ensures Concat(Words(s)) == WordChars(s)
    decreases |s|
  {
    if s != [] {
      if !IsWordChar(s[0]) {
        WordsSpellWordChars(s[1..]);
      } else {
        var n := WordRun(s);
        assert s == s[..n] + s[n..];
        WordCharsAppend(s[..n], s[n..]);
        WordCharsOfWord(s[..n]);
        WordsSpellWordChars(s[n..]);
        assert Words(s)[1..] == Words(s[n..]);
      }
    }
  }

  /** The filter of `tokenize`: longer than two characters and not a stop-word. */
  predicate IsKeptToken(w: string) {
    |w| > 2 && w !in StopWords
  }

  /** The `.filter` of `tokenize`. */
  function KeepTokens(ws: seq<string>): (r: seq<string>)
    ensures forall i :: 0 <= i < |r| ==> IsKeptToken(r[i]) && r[i] in ws
    ensures forall i :: 0 <= i < |ws| && IsKeptToken(ws[i]) ==> ws[i] in r
  {
    if ws == [] then []
    else (if IsKeptToken(ws[0]) then [ws[0]] else []) + KeepTokens(ws[1..])
  }

  /** Every kept piece survives as often as it occurs among the pieces, and no other piece survives. */
  lemma {:induction false} KeepTokensCounts(ws: seq<string>)
    ensures forall w :: multiset(KeepTokens(ws))[w] == if IsKeptToken(w) then multiset(ws)[w] else 0
    decreases |ws|
  {
    if ws != [] {
      assert ws == [ws[0]] + ws[1..];
      KeepTokensCounts(ws[1..]);
    }
  }

  /** Filtering keeps order: the kept pieces of a concatenation are the kept pieces of each half, in turn. */
  lemma {:induction false} KeepTokensAppend(a: seq<string>, b: seq<string>)
    ensures KeepTokens(a + b) == KeepTokens(a) + KeepTokens(b)
    decreases |a|
  {
    if a != [] {
      var rest := a[1..];
      assert a == [a[0]] + rest;
      assert a + b == [a[0]] + (rest + b);
      KeepTokensCons(a[0], rest + b);
      KeepTokensCons(a[0], rest);
      KeepTokensAppend(rest, b);
      var h, x, y := (if IsKeptToken(a[0]) then [a[0]] else []), KeepTokens(rest), KeepTokens(b);
      AppendAssoc(h, x, y);
    } else {
      assert a + b == b;
    }
  }

  /** One step of the filter, from the front. */
  lemma KeepTokensCons(w: string, ws: seq<string>)
    ensures KeepTokens([w] + ws) == (if IsKeptToken(w) then [w] else []) + KeepTokens(ws)
  {
    assert ([w] + ws)[1..] == ws;
  }

  /** A single piece is kept exactly when it passes the filter. */
  lemma KeepTokensOfOne(w: string)
    ensures KeepTokens([w]) == if IsKeptToken(w) then [w] else []
  {
    assert [w][1..] == [];
  }

  /** `tokenize`: the lower-cased words of `text` that are longer than two characters and not stop-words. */
  function Tokenize(text: string): (r: seq<string>)
    ensures forall i :: 0 <= i < |r| ==> |r[i]| >= 3 && IsWord(r[i]) && r[i] !in StopWords
    ensures forall w :: w in r <==> w in Words(LowerCase(text)) && IsKeptToken(w)
    ensures forall w :: multiset(r)[w] == if IsKeptToken(w) then multiset(Words(LowerCase(text)))[w] else 0
  {
    KeepTokensCounts(Words(LowerCase(text)));
    KeepTokens(Words(LowerCase(text)))
  }

  /** No token is the two-letter word "ai", so a keyword table entry for it can never be looked up. */
  lemma AiIsNeverAToken(text: string)
    ensures "ai" !in Tokenize(text)
  {
  }

  /** The text `collectKeywords` reads from one ad: headline, description and body, space-separated. */
  function AdText(ad: CompetitorAd): string {
    ad.headline + " " + ad.description + " " + ad.body
  }

  /** Every token of every ad, in ad order. */
  function AllTokens(ads: seq<CompetitorAd>): seq<string> {
    if ads == [] then [] else AllTokens(ads[..|ads| - 1]) + Tokenize(AdText(ads[|ads| - 1]))
  }

  /** How often `w` occurs among `tokens`. */
  function Occurrences(tokens: seq<string>, w: string): nat {
    multiset(tokens)[w]
  }

  /** The counter's entries in `Map` order: each distinct token with its number of occurrences. */
  function Entries(tokens: seq<string>): seq<KeywordInsight>
  {
    var d := Distinct(tokens);
    seq(|d|, k requires 0 <= k < |d| => KeywordInsight(d[k], Occurrences(tokens, d[k])))
  }

  /** Counts never increase along the list. */
  predicate SortedByCount(s: seq<KeywordInsight>) {
    forall i, j :: 0 <= i < j < |s| ==> s[i].count >= s[j].count
  }

  /** Insert `x` before the first entry whose count is not larger: equal counts keep their order. */
  function InsertByCount(x: KeywordInsight, s: seq<KeywordInsight>): (r: seq<KeywordInsight>)
    ensures multiset(r) == multiset(s) + multiset{x}
  {
    if s == [] || x.count >= s[0].count then [x] + s
    else
      assert s == [s[0]] + s[1..];
      [s[0]] + InsertByCount(x, s[1..])
  }

  lemma {:induction false} InsertKeepsSorted(x: KeywordInsight, s: seq<KeywordInsight>)
    requires SortedByCount(s)
    ensures SortedByCount(InsertByCount(x, s))
  {
    if s != [] && x.count < s[0].count {
      var rest := InsertByCount(x, s[1..]);
      InsertKeepsSorted(x, s[1..]);
      assert s == [s[0]] + s[1..];
      forall k | 0 <= k < |rest| ensures rest[k].count <= s[0].count {
        assert rest[k] in multiset(rest);
        assert rest[k] == x || rest[k] in s[1..];
      }
      assert InsertByCount(x, s) == [s[0]] + rest;
    }
  }

  /**
   * `sort((a, b) => b.count - a.count)`: a stable sort by decreasing count, as
   * `Array.prototype.sort` is.
   */
  function SortByCount(s: seq<KeywordInsight>): (r: seq<KeywordInsight>)
    ensures multiset(r) == multiset(s)
    ensures SortedByCount(r)
  {
    if s == [] then [] else
      assert s == [s[0]] + s[1..];
      var rest := SortByCount(s[1..]);
      InsertKeepsSorted(s[0], rest);
      InsertByCount(s[0], rest)
  }

  /** What `collectKeywords` returns: the counter's entries sorted by decreasing count, first twelve. */
  function TopKeywords(ads: seq<CompetitorAd>): seq<KeywordInsight> {
    Take(SortByCount(Entries(AllTokens(ads))), 12)
  }

  function KeywordsOf(ks: seq<KeywordInsight>): seq<string> {
    seq(|ks|, i requires 0 <= i < |ks| => ks[i].keyword)
  }

  /**
   * The counter after reading `seen`: its keys are the tokens seen, in first-seen
   * order, each mapped to its number of occurrences.
   */
  ghost predicate Tallies(counter: map<string, nat>, order: seq<string>, seen: seq<string>) {
    && order == Distinct(seen)
    && (forall w :: w in counter <==> w in seen)
    && (forall w :: w in counter ==> counter[w] == Occurrences(seen, w))
  }

  /** `counter.set(word, counter.get(word) + 1)` for a word already counted keeps the counter exact. */
  lemma TallyAgain(counter: map<string, nat>, order: seq<string>, seen: seq<string>, w: string)
    requires Tallies(counter, order, seen) && w in counter
    ensures Tallies(counter[w := counter[w] + 1], order, seen + [w])
  {
    DistinctSpec(seen);
    assert (seen + [w])[..|seen|] == seen;
  }

  /** `counter.set(word, 0 + 1)` for a new word appends it to the key order. */
  lemma TallyNew(counter: map<string, nat>, order: seq<string>, seen: seq<string>, w: string)
    requires Tallies(counter, order, seen) && w !in counter
    ensures Tallies(counter[w := 1], order + [w], seen + [w])
  {
    DistinctSpec(seen);
    assert (seen + [w])[..|seen|] == seen;
  }

  /** The `Map`'s entries, in its key order, are the `Entries` of the tokens read. */
  lemma TalliedEntries(counter: map<string, nat>, order: seq<string>, seen: seq<string>)
    requires Tallies(counter, order, seen)
    ensures forall k :: 0 <= k < |order| ==> order[k] in counter
    ensures seq(|order|, k requires 0 <= k < |order| => KeywordInsight(order[k], counter[order[k]])) == Entries(seen)
  {
    DistinctSpec(seen);
  }

  /** `counter.set(word, (counter.get(word) ?? 0) + 1)`, with the `Map`'s key order made explicit. */
  method Tally(counter: map<string, nat>, order: seq<string>, ghost read: seq<string>, w: string)
    returns (counter': map<string, nat>, order': seq<string>)
    requires Tallies(counter, order, read)
    ensures Tallies(counter', order', read + [w])
  {
    if w in counter {
      TallyAgain(counter, order, read, w);
      counter', order' := counter[w := counter[w] + 1], order;
    } else {
      TallyNew(counter, order, read, w);
      counter', order' := counter[w := 1], order + [w];
    }
  }

  /** `tokenize(text).forEach(word => counter.set(word, (counter.get(word) ?? 0) + 1))` */
  method CountWords(counter: map<string, nat>, order: seq<string>, ghost seen: seq<string>, words: seq<string>)
    returns (counter': map<string, nat>, order': seq<string>)
    requires Tallies(counter, order, seen)
    ensures Tallies(counter', order', seen + words)
  {
    counter', order' := counter, order;
    var j := 0;
    assert seen + words[..0] == seen;
    while j < |words|
      invariant 0 <= j <= |words|
      invariant Tallies(counter', order', seen + words[..j])
    {
      assert seen + words[..j + 1] == (seen + words[..j]) + [words[j]];
      counter', order' := Tally(counter', order', seen + words[..j], words[j]);
      j := j + 1;
    }
    assert words[..j] == words;
  }

  /**
   * `collectKeywords`: counts every token of every ad in a `Map`, then sorts the
   * entries by decreasing count and keeps the first twelve.
   */
  method CollectKeywords(ads: seq<CompetitorAd>) returns (r: seq<KeywordInsight>)
    ensures r == TopKeywords(ads)
  {
    var counter: map<string, nat> := map[];
    var order: seq<string> := [];
    ghost var seen: seq<string> := [];
    var i := 0;
    while i < |ads|
      invariant 0 <= i <= |ads|
      invariant seen == AllTokens(ads[..i])
      invariant Tallies(counter, order, seen)
    {
      var words := Tokenize(AdText(ads[i]));
      counter, order := CountWords(counter, order, seen, words);
      assert ads[..i + 1][..i] == ads[..i];
      seen := seen + words;
      i := i + 1;
    }
    assert ads[..i] == ads;
    TalliedEntries(counter, order, seen);
    var entries := seq(|order|, k requires 0 <= k < |order| => KeywordInsight(order[k], counter[order[k]]));
    r := Take(SortByCount(entries), 12);
  }

  /** An entry of the ranking is a distinct token with its number of occurrences. */
  lemma SortedEntry(tokens: seq<string>, e: KeywordInsight)
    requires e in SortByCount(Entries(tokens))
    ensures e.keyword in tokens && e.count == Occurrences(tokens, e.keyword) && e.count >= 1
  {
    var entries := Entries(tokens);
    assert e in multiset(SortByCount(entries));
    assert e in entries;
    var k :| 0 <= k < |entries| && entries[k] == e;
    DistinctSpec(tokens);
    assert Distinct(tokens)[k] in Distinct(tokens);
  }

  /** Every distinct token has an entry somewhere in the ranking. */
  lemma TokenRanked(tokens: seq<string>, w: string) returns (p: nat)
    requires w in tokens
    ensures p < |SortByCount(Entries(tokens))|
    ensures SortByCount(Entries(tokens))[p] == KeywordInsight(w, Occurrences(tokens, w))
  {
    var d := Distinct(tokens);
    DistinctSpec(tokens);
    var k :| 0 <= k < |d| && d[k] == w;
    var e := Entries(tokens)[k];
    assert e in multiset(SortByCount(Entries(tokens)));
    var sorted := SortByCount(Entries(tokens));
    p :| 0 <= p < |sorted| && sorted[p] == e;
  }

  /** The ranking never lists a keyword twice. */
  lemma RankingDistinct(tokens: seq<string>)
    ensures NoDup(KeywordsOf(SortByCount(Entries(tokens))))
  {
    var entries := Entries(tokens);
    var sorted := SortByCount(entries);
    assert NoDup(entries) by {
      DistinctSpec(tokens);
      forall i, j | 0 <= i < j < |entries| ensures entries[i] != entries[j] {
        assert entries[i].keyword == Distinct(tokens)[i];
      }
    }
    PermutationNoDup(entries, sorted);
    forall i, j | 0 <= i < j < |sorted| ensures sorted[i].keyword != sorted[j].keyword {
      assert sorted[i] in sorted && sorted[j] in sorted;
      SortedEntry(tokens, sorted[i]);
      SortedEntry(tokens, sorted[j]);
    }
  }

  /**
   * What `collectKeywords` promises: at most twelve entries, counts non-increasing,
   * keywords distinct, each count positive and equal to the keyword's number of
   * occurrences across all headlines, descriptions and bodies.
   */
  lemma TopKeywordsWellFormed(ads: seq<CompetitorAd>)
    ensures |TopKeywords(ads)| <= 12
    ensures SortedByCount(TopKeywords(ads))
    ensures NoDup(KeywordsOf(TopKeywords(ads)))
    ensures forall i :: 0 <= i < |TopKeywords(ads)| ==>
      var e := TopKeywords(ads)[i];
      e.keyword in AllTokens(ads) && e.count >= 1 && e.count == Occurrences(AllTokens(ads), e.keyword)
  {
    var tokens := AllTokens(ads);
    var sorted := SortByCount(Entries(tokens));
    var r := TopKeywords(ads);
    RankingDistinct(tokens);
    assert KeywordsOf(r) == KeywordsOf(sorted)[..|r|];
    forall i | 0 <= i < |r|
      ensures r[i].keyword in tokens && r[i].count >= 1 && r[i].count == Occurrences(tokens, r[i].keyword)
    {
      assert r[i] == sorted[i];
      SortedEntry(tokens, sorted[i]);
    }
  }

  /**
   * The ranking is a true top twelve: a token occurring more often than the entry at
   * rank `i` is listed before rank `i`.
   */
  lemma MoreFrequentRanksEarlier(ads: seq<CompetitorAd>, i: nat, w: string)
    requires i < |TopKeywords(ads)|
    requires w in AllTokens(ads)
    requires Occurrences(AllTokens(ads), w) > TopKeywords(ads)[i].count
    ensures exists j :: 0 <= j < i && TopKeywords(ads)[j].keyword == w
  {
    var tokens := AllTokens(ads);
    var sorted := SortByCount(Entries(tokens));
    var r := TopKeywords(ads);
    assert r == Take(sorted, 12);
    assert r[i] == sorted[i];
    var p := TokenRanked(tokens, w);
    RankBefore(sorted, i, p);
    assert r[p] == sorted[p];
  }

  /** In a list sorted by decreasing count, a strictly larger count sits strictly earlier. */
  lemma RankBefore(sorted: seq<KeywordInsight>, i: nat, p: nat)
    requires SortedByCount(sorted) && i < |sorted| && p < |sorted|
    requires sorted[p].count > sorted[i].count
    ensures p < i
  {
  }

  /**
   * Every token left out of the ranking was cut by the limit of twelve, and occurs no
   * more often than the last entry kept.
   */
  lemma OmittedTokensRankLower(ads: seq<CompetitorAd>, w: string)
    requires w in AllTokens(ads) && w !in KeywordsOf(TopKeywords(ads))
    ensures |TopKeywords(ads)| == 12
    ensures Occurrences(AllTokens(ads), w) <= TopKeywords(ads)[11].count
  {
    var tokens := AllTokens(ads);
    var sorted := SortByCount(Entries(tokens));
    var r := TopKeywords(ads);
    var p := TokenRanked(tokens, w);
    KeywordAt(r, p);
    PrefixAt(r, sorted, p);
    assert p >= |r|;
    assert r[11] == sorted[11];
  }

  lemma PrefixAt<T>(r: seq<T>, s: seq<T>, p: nat)
    requires r <= s
    ensures p < |r| ==> r[p] == s[p]
  {
  }

  lemma KeywordAt(r: seq<KeywordInsight>, p: nat)
    ensures p < |r| ==> r[p].keyword in KeywordsOf(r)
  {
    if p < |r| {
      assert KeywordsOf(r)[p] == r[p].keyword;
    }
  }

  /** No ads, no keywords. */
  lemma TopKeywordsOfNoAds()
    ensures TopKeywords([]) == []
  {
  }
}
