/**
 * The concept synthesiser: hook, primary text, headline, description, call to action
 * and creative notes assembled from the ranked keywords (`generateAdConcept`).
 * Randomness is passed in: `ctaChoice` is the index `Math.floor(Math.random() * 6)`
 * and `notePicks` choose among the pool notes not yet taken.
 */
module Concept {
  import opened Wrappers
  import opened Seqs
  import opened FacebookTypes
  import opened Keywords

  const CtaLibrary: seq<string> := [
    "Get The Playbook",
    "Claim Your Free Audit",
    "Launch My Campaign",
    "See Live Demo",
    "Download the Swipefile",
    "Reserve My Spot"
  ]

  const CreativeNotesPool: seq<string> := [
    "Use lifestyle imagery that mirrors the competitor’s top performing assets but swap in your brand colors.",
    "Lead with a bold stat in the first three words to quickly qualify scrollers.",
    "Add a contrasting CTA button color to win the thumb-stop test on mobile feeds.",
    "Include a short testimonial screenshot in the carousel’s second frame.",
    "Test vertical video with caption overlays pulling the primary hook keywords.",
    "Pair the hook with animated motion graphics to highlight the product outcome."
  ]

  /** The keyword-to-insight table, as its own properties. */
  const KeywordPriorities: map<string, string> := map[
    "ai" := "Position the offer as intelligence-driven rather than manual effort.",
    "automation" := "Promise time savings by automating previously complex workflows.",
    "growth" := "Focus on ROI and compounding gains within 30 days.",
    "clients" := "Showcase social proof and speed to results.",
    "fitness" := "Highlight habit consistency, expert guidance, and flexible schedules.",
    "coaching" := "Emphasize tailored roadmaps and accountability.",
    "leads" := "Stress pipeline visibility, qualified traffic, and conversion tracking."
  ]

  const CtaDefault: string := "Unlock the Strategy"

  const GenericHook: string := "Unlock the hidden pattern competitors keep from prospects."

  /** The concept returned for an empty ad list. */
  const GenericConcept: GeneratedAdConcept := GeneratedAdConcept(
    "We audited the top spenders in your niche and extracted the exact hook they use.",
    "Use our competitor deconstruction matrix to mirror winning structures while injecting your product’s unfair advantage. Launch in under 48 hours with proven copy frameworks.",
    "Swipe Their High-Performing Hook, Stand Out in 2 Days",
    "Stop guessing. Launch ads shaped by live market intel instead of inspiration boards.",
    CtaDefault,
    CreativeNotesPool[..3])

  /** `keywords[i]` as an optional value (array destructuring). */
  function At(keywords: seq<KeywordInsight>, i: nat): (r: Option<KeywordInsight>)
    ensures r.Some? <==> i < |keywords|
    ensures i < |keywords| ==> r.value == keywords[i]
  {
    if i < |keywords| then Some(keywords[i]) else None
  }

  /** `keywords[i]?.keyword ?? default` */
  function KeywordOr(keywords: seq<KeywordInsight>, i: nat, default: string): (r: string)
    ensures i < |keywords| ==> r == keywords[i].keyword
    ensures i >= |keywords| ==> r == default
  {
    if i < |keywords| then keywords[i].keyword else default
  }

  // ----- hook, primary text, headline, description -----

  /**
   * `buildHook`. The middle branch (first and third keyword present, second absent)
   * cannot be taken: a list with a third element has a second.
   */
  function BuildHook(keywords: seq<KeywordInsight>): (r: string)
    ensures |keywords| >= 2 ==> r == "Still chasing " + keywords[0].keyword + " without " + keywords[1].keyword + "?"
    ensures |keywords| < 2 ==> r == GenericHook
  {
    match At(keywords, 0)
    case None => GenericHook
    case Some(first) =>
      match At(keywords, 1)
      case Some(second) => "Still chasing " + first.keyword + " without " + second.keyword + "?"
      case None =>
        match At(keywords, 2)
        case Some(third) => "What " + first.keyword + " leaders know about " + third.keyword + " that you don’t."
        case None => GenericHook
  }

  /** The first sentence of `buildPrimaryText`: the competitor and the lever keyword. */
  function LeverSentence(competitorName: string, lever: string): string {
    "We reverse-engineered " + competitorName + "'s winning ads and found the " + lever
      + " lever they push in every headline."
  }

  /** The second sentence: the fresh-angle keyword. */
  function AngleSentence(angle: string): string {
    "Now we're combining it with a fresh angle on " + angle + " that your audience hasn't seen."
  }

  /** The third sentence: the proof keyword. */
  function ProofSentence(proof: string): string {
    "See how brands like yours turn that insight into " + proof + " within 14 days."
  }

  /** The primary-text paragraph with its slots filled in: the three sentences, separated by single spaces. */
  function PrimaryTextOf(competitorName: string, lever: string, angle: string, proof: string): string {
    LeverSentence(competitorName, lever) + " " + AngleSentence(angle) + " " + ProofSentence(proof)
  }

  /**
   * `buildPrimaryText`: the first three keywords fill the lever, angle and proof
   * slots; a missing one is replaced by "results", "growth" or "clients" respectively.
   */
  function BuildPrimaryText(keywords: seq<KeywordInsight>, competitorName: string): (r: string)
    ensures |keywords| == 0 ==> r == PrimaryTextOf(competitorName, "results", "growth", "clients")
    ensures |keywords| == 1 ==> r == PrimaryTextOf(competitorName, keywords[0].keyword, "growth", "clients")
    ensures |keywords| == 2 ==>
      r == PrimaryTextOf(competitorName, keywords[0].keyword, keywords[1].keyword, "clients")
    ensures |keywords| >= 3 ==>
      r == PrimaryTextOf(competitorName, keywords[0].keyword, keywords[1].keyword, keywords[2].keyword)
  {
    var lever := LeverSentence(competitorName, KeywordOr(keywords, 0, "results"));
    var angle := AngleSentence(KeywordOr(keywords, 1, "growth"));
    var proof := ProofSentence(KeywordOr(keywords, 2, "clients"));
    JoinThree(" ", lever, angle, proof);
    Join(" ", [lever, angle, proof])
  }

  /** `toUpperCase` on ASCII letters. */
  function UpperChar(c: char): char {
    if 'a' <= c <= 'z' then ((c as int) - 32) as char else c
  }

  /** `s.charAt(0).toUpperCase() + s.slice(1)` */
  function Capitalize(s: string): (r: string)
    ensures |r| == |s|
    ensures s != [] ==> r[0] == UpperChar(s[0]) && r[1..] == s[1..]
  {
    if s == [] then [] else [UpperChar(s[0])] + s[1..]
  }

  /** Lower-casing a capitalised keyword gives the keyword back. */
  lemma CapitalizeRoundTrip(w: string)
    requires IsWord(w)
    ensures LowerCase(Capitalize(w)) == w
  {
    var r := LowerCase(Capitalize(w));
    forall k | 0 <= k < |w| ensures r[k] == w[k] {
      assert IsWordChar(w[k]);
    }
  }

  /**
   * `buildHeadline`: the top keyword capitalised, " without ", the second keyword, "?";
   * "growth" and "clients" stand in for missing keywords.
   */
  function BuildHeadline(keywords: seq<KeywordInsight>): (r: string)
    ensures |keywords| == 0 ==> r == "Growth" + " without clients?"
    ensures |keywords| == 1 ==> r == Capitalize(keywords[0].keyword) + " without clients?"
    ensures |keywords| >= 2 ==> r == Capitalize(keywords[0].keyword) + " without " + keywords[1].keyword + "?"
  {
    var primary := KeywordOr(keywords, 0, "growth");
    if |keywords| >= 2 then Capitalize(primary) + " without " + keywords[1].keyword + "?"
    else
      GrowthCapitalized();
      Capitalize(primary) + " without clients?"
  }

  lemma GrowthCapitalized()
    ensures Capitalize("growth") == "Growth"
  {
    assert "growth"[1..] == "rowth";
  }

  /** With no keywords the headline is the default question. */
  lemma DefaultHeadline()
    ensures BuildHeadline([]) == "Growth without clients?"
  {
  }

  /**
   * `buildDescription`: the first three keywords (or as many as there are), separated
   * by ", ", in the borrow-the-playbook sentence. With no keywords the slot is empty,
   * so the two spaces around it meet between "the" and "playbook".
   */
  function BuildDescription(keywords: seq<KeywordInsight>): (r: string)
    ensures |keywords| == 0 ==>
      r == "Borrow the " + " playbook and launch ads that convert faster than your competitors."
    ensures |keywords| == 1 ==>
      r == "Borrow the " + keywords[0].keyword + " playbook and launch ads that convert faster than your competitors."
    ensures |keywords| == 2 ==>
      r == "Borrow the " + keywords[0].keyword + ", " + keywords[1].keyword
        + " playbook and launch ads that convert faster than your competitors."
    ensures |keywords| >= 3 ==>
      r == "Borrow the " + keywords[0].keyword + ", " + keywords[1].keyword + ", " + keywords[2].keyword
        + " playbook and launch ads that convert faster than your competitors."
  {
    KeywordListJoin(keywords);
    "Borrow the " + Join(", ", KeywordsOf(Take(keywords, 3))) + " playbook and launch ads that convert faster than your competitors."
  }

  /** The comma-joined list of the first three keywords, case by case. */
  lemma KeywordListJoin(keywords: seq<KeywordInsight>)
    ensures var j := Join(", ", KeywordsOf(Take(keywords, 3)));
      && (|keywords| == 0 ==> j == "")
      && (|keywords| == 1 ==> j == keywords[0].keyword)
      && (|keywords| == 2 ==> j == keywords[0].keyword + ", " + keywords[1].keyword)
      && (|keywords| >= 3 ==> j == keywords[0].keyword + ", " + keywords[1].keyword + ", " + keywords[2].keyword)
  {
    var ks := KeywordsOf(Take(keywords, 3));
    if |keywords| >= 3 {
      assert ks == [keywords[0].keyword, keywords[1].keyword, keywords[2].keyword];
      JoinThree(", ", keywords[0].keyword, keywords[1].keyword, keywords[2].keyword);
    } else if |keywords| == 2 {
      assert ks == [keywords[0].keyword, keywords[1].keyword];
      assert ks[1..] == [keywords[1].keyword];
    } else if |keywords| == 1 {
      assert ks == [keywords[0].keyword];
    }
  }

  // ----- call to action -----

  /** `s.includes(needle)` */
  predicate Contains(s: string, needle: string)
    decreases |s|
  {
    needle <= s || (s != [] && Contains(s[1..], needle))
  }

  /** The substrings that make a keyword a call-to-action match. */
  predicate HasCtaNeedle(keyword: string) {
    Contains(keyword, "demo") || Contains(keyword, "book") || Contains(keyword, "download")
    || Contains(keyword, "access") || Contains(keyword, "guide") || Contains(keyword, "playbook")
  }

  /** `keywords.find(...)`: the first keyword containing a needle. */
  function FindCtaMatch(keywords: seq<KeywordInsight>): (r: Option<KeywordInsight>)
    ensures r.None? <==> forall i :: 0 <= i < |keywords| ==> !HasCtaNeedle(keywords[i].keyword)
    ensures r.Some? ==>
      exists i :: 0 <= i < |keywords| && keywords[i] == r.value && HasCtaNeedle(r.value.keyword)
        && forall j :: 0 <= j < i ==> !HasCtaNeedle(keywords[j].keyword)
  {
    if keywords == [] then None
    else if HasCtaNeedle(keywords[0].keyword) then Some(keywords[0])
    else
      var r := FindCtaMatch(keywords[1..]);
      assert forall i :: 1 <= i < |keywords| ==> keywords[i] == keywords[1..][i - 1];
      r
  }

  /** `CTA_LIBRARY[index] ?? CTA_DEFAULT` */
  function LibraryCta(index: nat): (r: string)
    ensures index < |CtaLibrary| ==> r == CtaLibrary[index]
    ensures index >= |CtaLibrary| ==> r == CtaDefault
  {
    if index < |CtaLibrary| then CtaLibrary[index] else CtaDefault
  }

  /** The four phrases a matched keyword can select. */
  const FixedCtas: seq<string> := ["Book Live Demo", "Download the Swipe File", "Get the Guide", "Claim the Playbook"]

  /**
   * `pickCallToAction`: the first keyword containing a needle decides; "demo",
   * "download", "guide" and "playbook" (checked in that order) give fixed phrases,
   * and anything else (a keyword matching only "book" or "access", or no match)
   * falls through to the library entry at `ctaChoice`.
   */
  function PickCallToAction(keywords: seq<KeywordInsight>, ctaChoice: nat): (r: string)
    ensures (forall i :: 0 <= i < |keywords| ==> !HasCtaNeedle(keywords[i].keyword)) ==> r == LibraryCta(ctaChoice)
    ensures r in FixedCtas || r == LibraryCta(ctaChoice)
  {
    match FindCtaMatch(keywords)
    case Some(m) =>
      if Contains(m.keyword, "demo") then "Book Live Demo"
      else if Contains(m.keyword, "download") then "Download the Swipe File"
      else if Contains(m.keyword, "guide") then "Get the Guide"
      else if Contains(m.keyword, "playbook") then "Claim the Playbook"
      else LibraryCta(ctaChoice)
    case None => LibraryCta(ctaChoice)
  }

  /**
   * For an index `Math.floor(Math.random() * 6)` can produce, the call to action is a
   * fixed phrase or a library entry, never the default.
   */
  lemma CallToActionRange(keywords: seq<KeywordInsight>, ctaChoice: nat)
    requires ctaChoice < |CtaLibrary|
    ensures PickCallToAction(keywords, ctaChoice) in FixedCtas + CtaLibrary
    ensures PickCallToAction(keywords, ctaChoice) != CtaDefault
  {
  }

  /**
   * The first keyword holding a needle decides: "demo", "download", "guide" and
   * "playbook" are tried in that order, and a keyword with none of them (one that
   * holds only "book" or "access") falls through to the library draw.
   */
  lemma FirstMatchDecides(keywords: seq<KeywordInsight>, i: nat, ctaChoice: nat)
    requires i < |keywords| && HasCtaNeedle(keywords[i].keyword)
    requires forall j :: 0 <= j < i ==> !HasCtaNeedle(keywords[j].keyword)
    ensures var w, r := keywords[i].keyword, PickCallToAction(keywords, ctaChoice);
      && (Contains(w, "demo") ==> r == "Book Live Demo")
      && (!Contains(w, "demo") && Contains(w, "download") ==> r == "Download the Swipe File")
      && (!Contains(w, "demo") && !Contains(w, "download") && Contains(w, "guide") ==> r == "Get the Guide")
      && ((!Contains(w, "demo") && !Contains(w, "download") && !Contains(w, "guide") && Contains(w, "playbook"))
            ==> r == "Claim the Playbook")
      && ((!Contains(w, "demo") && !Contains(w, "download") && !Contains(w, "guide") && !Contains(w, "playbook"))
            ==> r == LibraryCta(ctaChoice))
  {
    var m := FindCtaMatch(keywords);
    var k :| 0 <= k < |keywords| && keywords[k] == m.value && HasCtaNeedle(m.value.keyword)
      && forall j :: 0 <= j < k ==> !HasCtaNeedle(keywords[j].keyword);
    assert k == i;
  }

  /** A needle whose first letter is not in a word is not in it. */
  lemma {:induction false} FirstLetterAbsent(s: string, needle: string)
    requires needle != [] && needle[0] !in s
    ensures !Contains(s, needle)
  {
    if s != [] {
      FirstLetterAbsent(s[1..], needle);
    }
  }

  /** A first match containing only "book" falls through to the library. */
  lemma BookAloneFallsThrough(ctaChoice: nat)
    ensures PickCallToAction([KeywordInsight("book", 1)], ctaChoice) == LibraryCta(ctaChoice)
  {
    assert HasCtaNeedle("book");
    FirstLetterAbsent("book", "demo");
    FirstLetterAbsent("book", "download");
    FirstLetterAbsent("book", "guide");
    FirstLetterAbsent("book", "playbook");
  }

  // ----- creative notes -----

  /** The corrected lookup `KEYWORD_PRIORITIES[keyword]`: only the table's own entries. */
  function PriorityInsight(keyword: string): (r: Option<string>)
    ensures r.Some? <==> keyword in KeywordPriorities
    ensures r.Some? ==> r.value == KeywordPriorities[keyword] && r.value in KeywordPriorities.Values
  {
    if keyword in KeywordPriorities then Some(KeywordPriorities[keyword]) else None
  }

  /** The insights the ranked keywords hit, in rank order (repeats kept). */
  function MatchedInsights(keywords: seq<KeywordInsight>): (r: seq<string>)
    ensures |r| <= |keywords|
    ensures forall x :: x in r ==> x in KeywordPriorities.Values
  {
    if keywords == [] then []
    else
      var init := MatchedInsights(keywords[..|keywords| - 1]);
      var insight := PriorityInsight(keywords[|keywords| - 1].keyword);
      if insight.Some? then
        assert insight.value in KeywordPriorities.Values;
        init + [insight.value]
      else init
  }

  /**
   * The insights are collected keyword by keyword, in rank order: one more keyword adds
   * its insight at the end when it has one, and nothing otherwise.
   */
  lemma MatchedInsightsSnoc(keywords: seq<KeywordInsight>, e: KeywordInsight)
    ensures MatchedInsights([]) == []
    ensures MatchedInsights(keywords + [e]) == MatchedInsights(keywords) +
      match PriorityInsight(e.keyword)
      case Some(insight) => [insight]
      case None => []
  {
    assert (keywords + [e])[..|keywords|] == keywords;
  }

  /**
   * The notes the `forEach` over the top five keywords puts in the set, in insertion
   * order: the distinct insights of those keywords, so at most five, each a table value.
   */
  function PriorityNotes(keywords: seq<KeywordInsight>): (r: seq<string>)
    ensures NoDup(r) && |r| <= 5
    ensures forall x :: x in r <==> x in MatchedInsights(Take(keywords, 5))
    ensures forall i :: 0 <= i < |r| ==> r[i] in KeywordPriorities.Values
  {
    var m := MatchedInsights(Take(keywords, 5));
    DistinctSpec(m);
    Distinct(m)
  }

  // ----- the lookup as written -----

  /** The properties every plain object literal inherits from `Object.prototype`. */
  const ObjectPrototypeMembers: set<string> := {
    "constructor", "hasOwnProperty", "isPrototypeOf", "propertyIsEnumerable", "toLocaleString",
    "toString", "valueOf", "__proto__", "__defineGetter__", "__defineSetter__",
    "__lookupGetter__", "__lookupSetter__"
  }

  /** What `KEYWORD_PRIORITIES[keyword]` evaluates to: an own entry, or an inherited (truthy) member. */
  datatype LookupValue = Insight(text: string) | InheritedMember(name: string)

  /** The lookup as the source writes it: a plain property access on an object literal. */
  function PriorityLookupAsWritten(keyword: string): (r: Option<LookupValue>)
    ensures keyword in KeywordPriorities ==> r == Some(Insight(KeywordPriorities[keyword]))
    ensures keyword !in KeywordPriorities ==>
      (r.Some? <==> keyword in ObjectPrototypeMembers) && (r.Some? ==> r.value == InheritedMember(keyword))
  {
    if keyword in KeywordPriorities then Some(Insight(KeywordPriorities[keyword]))
    else if keyword in ObjectPrototypeMembers then Some(InheritedMember(keyword))
    else None
  }

  function MatchedAsWritten(keywords: seq<KeywordInsight>): seq<LookupValue> {
    if keywords == [] then []
    else
      var init := MatchedAsWritten(keywords[..|keywords| - 1]);
      var value := PriorityLookupAsWritten(keywords[|keywords| - 1].keyword);
      if value.Some? then init + [value.value] else init
  }

  /** The set the source's `forEach` builds, with the lookup as written. */
  function PriorityNotesAsWritten(keywords: seq<KeywordInsight>): seq<LookupValue> {
    Distinct(MatchedAsWritten(Take(keywords, 5)))
  }

  /**
   * "constructor" survives tokenising, so a top keyword can name an inherited member,
   * and the as-written lookup then puts a function, not a note, into the notes.
   */
  lemma ConstructorBecomesANote()
    ensures Tokenize("constructor") == ["constructor"]
    ensures PriorityNotesAsWritten([KeywordInsight("constructor", 1)]) == [InheritedMember("constructor")]
  {
    ConstructorIsAToken();
    var ks := [KeywordInsight("constructor", 1)];
    assert Take(ks, 5) == ks;
    assert ks[..0] == [];
    ConstructorIsInherited();
    assert MatchedAsWritten(ks) == [InheritedMember("constructor")];
  }

  lemma ConstructorIsInherited()
    ensures PriorityLookupAsWritten("constructor") == Some(InheritedMember("constructor"))
  {
    assert "constructor" !in KeywordPriorities;
  }

  lemma ConstructorIsAToken()
    ensures Tokenize("constructor") == ["constructor"]
  {
    var w := "constructor";
    assert IsWord(w) by {
      forall i | 0 <= i < |w| ensures IsWordChar(w[i]) {
      }
    }
    LowerCaseOfWord(w);
    WordsOfWord(w);
    StopWordsAreShort(w);
    assert IsKeptToken(w);
    assert KeepTokens([w]) == [w] + KeepTokens([]);
  }

  function Wrap(notes: seq<string>): (r: seq<LookupValue>)
    ensures |r| == |notes| && forall i :: 0 <= i < |r| ==> r[i] == Insight(notes[i])
  {
    seq(|notes|, i requires 0 <= i < |notes| => Insight(notes[i]))
  }

  lemma {:induction false} MatchedAgrees(keywords: seq<KeywordInsight>)
    requires forall i :: 0 <= i < |keywords| ==> keywords[i].keyword !in ObjectPrototypeMembers
    ensures MatchedAsWritten(keywords) == Wrap(MatchedInsights(keywords))
  {
    if keywords != [] {
      var init := keywords[..|keywords| - 1];
      MatchedAgrees(init);
      var m := MatchedInsights(init);
      var insight := PriorityInsight(keywords[|keywords| - 1].keyword);
      if insight.Some? {
        assert Wrap(m + [insight.value]) == Wrap(m) + [Insight(insight.value)];
      }
    }
  }

  lemma {:induction false} DistinctWrap(notes: seq<string>)
    ensures Distinct(Wrap(notes)) == Wrap(Distinct(notes))
  {
    if notes != [] {
      var init := notes[..|notes| - 1];
      var x := notes[|notes| - 1];
      assert Wrap(notes)[..|notes| - 1] == Wrap(init);
      DistinctWrap(init);
      var d := Distinct(init);
      assert Insight(x) in Wrap(d) <==> x in d by {
        if x in d {
          var k :| 0 <= k < |d| && d[k] == x;
          assert Wrap(d)[k] == Insight(x);
        }
      }
      assert Wrap(d + [x]) == Wrap(d) + [Insight(x)];
    }
  }

  /** Away from the inherited member names, the as-written lookup yields exactly the corrected notes. */
  lemma AsWrittenAgreesOffPrototype(keywords: seq<KeywordInsight>)
    requires forall i :: 0 <= i < |keywords| && i < 5 ==> keywords[i].keyword !in ObjectPrototypeMembers
    ensures PriorityNotesAsWritten(keywords) == Wrap(PriorityNotes(keywords))
  {
    MatchedAgrees(Take(keywords, 5));
    DistinctWrap(MatchedInsights(Take(keywords, 5)));
  }

  /** The pool notes not yet taken, in pool order. */
  function MissingFromPool(notes: seq<string>): (r: seq<string>)
    ensures forall i :: 0 <= i < |r| ==> r[i] in CreativeNotesPool && r[i] !in notes
  {
    Filter(CreativeNotesPool, notes)
  }

  function Filter(pool: seq<string>, notes: seq<string>): (r: seq<string>)
    ensures forall i :: 0 <= i < |r| ==> r[i] in pool && r[i] !in notes
    ensures forall x :: x in pool && x !in notes ==> x in r
  {
    if pool == [] then []
    else (if pool[0] in notes then [] else [pool[0]]) + Filter(pool[1..], notes)
  }

  lemma {:induction false} NoDupSetSize<T>(s: seq<T>)
    requires NoDup(s)
    ensures |set x | x in s| == |s|
  {
    if s != [] {
      var init := s[..|s| - 1];
      assert NoDup(init);
      NoDupSetSize(init);
      assert (set x | x in s) == (set x | x in init) + {s[|s| - 1]};
    }
  }

  /** While fewer notes than the pool holds are taken, some pool note is still free. */
  lemma PoolNotExhausted(notes: seq<string>)
    requires |notes| < |CreativeNotesPool|
    ensures MissingFromPool(notes) != []
  {
    var pool := CreativeNotesPool;
    assert NoDup(pool);
    NoDupSetSize(pool);
    if MissingFromPool(notes) == [] {
      assert (set x | x in pool) <= (set x | x in notes);
      SetOfSeqSize((set x | x in pool), notes);
      assert false;
    }
  }

  /** `notes.add(x)` on an insertion-ordered set. */
  function SetAdd(notes: seq<string>, x: string): seq<string> {
    if x in notes then notes else notes + [x]
  }

  /**
   * What `synthesizeNotes` promises: three or four distinct notes; the priority notes
   * come first (at most four of them), and when fewer than three matched, pool notes
   * not among them fill up to exactly three.
   */
  ghost predicate NotesSpec(keywords: seq<KeywordInsight>, notes: seq<string>) {
    var p := PriorityNotes(keywords);
    && 3 <= |notes| <= 4
    && NoDup(notes)
    && (|p| >= 3 ==> notes == Take(p, 4))
    && (|p| < 3 ==>
          |notes| == 3 && notes[..|p|] == p
          && forall i :: |p| <= i < |notes| ==> notes[i] in CreativeNotesPool && notes[i] !in p)
  }

  /** One step of the `forEach`: the next keyword's insight, if any, is added to the set. */
  lemma MatchedStep(top: seq<KeywordInsight>, i: nat, notes: seq<string>, next: seq<string>)
    requires i < |top| && notes == Distinct(MatchedInsights(top[..i]))
    requires next == match PriorityInsight(top[i].keyword)
      case Some(insight) => SetAdd(notes, insight)
      case None => notes
    ensures next == Distinct(MatchedInsights(top[..i + 1]))
  {
    assert top[..i + 1][..i] == top[..i];
    var m := MatchedInsights(top[..i]);
    var insight := PriorityInsight(top[i].keyword);
    if insight.Some? {
      assert (m + [insight.value])[..|m|] == m;
    }
  }

  /** What holds of the set while pool notes are added after the priority notes `p`. */
  ghost predicate Filling(p: seq<string>, notes: seq<string>) {
    && |p| <= |notes| && notes[..|p|] == p
    && NoDup(notes)
    && (|p| < 3 ==> |notes| <= 3)
    && (|p| >= 3 ==> notes == p)
    && forall k :: |p| <= k < |notes| ==> notes[k] in CreativeNotesPool && notes[k] !in p
  }

  lemma FillStep(p: seq<string>, notes: seq<string>, idea: string)
    requires Filling(p, notes) && |notes| < 3
    requires idea in CreativeNotesPool && idea !in notes
    ensures SetAdd(notes, idea) == notes + [idea]
    ensures Filling(p, notes + [idea])
  {
    var n := notes + [idea];
    assert n[..|p|] == notes[..|p|];
    assert n[..|notes|] == notes;
  }

  lemma FillDone(keywords: seq<KeywordInsight>, p: seq<string>, notes: seq<string>)
    requires p == PriorityNotes(keywords) && Filling(p, notes)
    requires NoDup(p) && |p| <= 5
    requires forall i :: 0 <= i < |p| ==> p[i] in KeywordPriorities.Values
    requires !(|notes| < 3 && |notes| < |CreativeNotesPool|)
    ensures NotesSpec(keywords, Take(notes, 4))
    ensures forall i :: 0 <= i < |Take(notes, 4)| ==>
      Take(notes, 4)[i] in KeywordPriorities.Values || Take(notes, 4)[i] in CreativeNotesPool
  {
    if |p| < 3 {
      FilledFromPool(p, notes);
    } else {
      EnoughPriorityNotes(p, notes);
    }
  }

  /** Fewer than three priority notes: the pool topped the set up to exactly three. */
  lemma FilledFromPool(p: seq<string>, notes: seq<string>)
    requires Filling(p, notes) && |p| < 3
    requires forall i :: 0 <= i < |p| ==> p[i] in KeywordPriorities.Values
    requires !(|notes| < 3 && |notes| < |CreativeNotesPool|)
    ensures Take(notes, 4) == notes && |notes| == 3
    ensures forall i :: 0 <= i < |notes| ==> notes[i] in KeywordPriorities.Values || notes[i] in CreativeNotesPool
  {
    forall i | 0 <= i < |notes| ensures notes[i] in KeywordPriorities.Values || notes[i] in CreativeNotesPool {
      if i < |p| {
        assert notes[i] == notes[..|p|][i];
      }
    }
  }

  /** At least three priority notes: no pool note was added, and the first four are kept. */
  lemma EnoughPriorityNotes(p: seq<string>, notes: seq<string>)
    requires Filling(p, notes) && |p| >= 3
    requires NoDup(p)
    requires forall i :: 0 <= i < |p| ==> p[i] in KeywordPriorities.Values
    ensures Take(notes, 4) == Take(p, 4) && 3 <= |Take(p, 4)| <= 4 && NoDup(Take(p, 4))
    ensures forall i :: 0 <= i < |Take(p, 4)| ==> Take(p, 4)[i] in KeywordPriorities.Values
  {
    var r := Take(p, 4);
    forall i, j | 0 <= i < j < |r| ensures r[i] != r[j] {
      assert r[i] == p[i] && r[j] == p[j];
    }
    forall i | 0 <= i < |r| ensures r[i] in KeywordPriorities.Values {
      assert r[i] == p[i];
    }
  }

  /**
   * `synthesizeNotes`: the insights of the top five keywords, then random pool notes
   * until there are three, then at most four of them. A random draw that repeats a note
   * already in the set changes nothing, so each iteration here takes the free pool note
   * selected by the next entry of `notePicks` (the first free one once they run out).
   */
  method SynthesizeNotes(keywords: seq<KeywordInsight>, notePicks: seq<nat>) returns (r: seq<string>)
    ensures NotesSpec(keywords, r)
    ensures forall i :: 0 <= i < |r| ==> r[i] in KeywordPriorities.Values || r[i] in CreativeNotesPool
  {
    var notes: seq<string> := [];
    var top := Take(keywords, 5);
    var i := 0;
    while i < |top|
      invariant 0 <= i <= |top|
      invariant notes == Distinct(MatchedInsights(top[..i]))
    {
      var next := match PriorityInsight(top[i].keyword)
        case Some(insight) => SetAdd(notes, insight)
        case None => notes;
      MatchedStep(top, i, notes, next);
      notes, i := next, i + 1;
    }
    assert top[..i] == top;
    ghost var p := notes;
    assert p == PriorityNotes(keywords);
    assert Filling(p, notes);
    var step := 0;
    while |notes| < 3 && |notes| < |CreativeNotesPool|
      invariant Filling(p, notes)
      decreases 3 - |notes|
    {
      PoolNotExhausted(notes);
      var free := MissingFromPool(notes);
      var offset := if step < |notePicks| then notePicks[step] else 0;
      var idea := free[offset % |free|];
      FillStep(p, notes, idea);
      notes := SetAdd(notes, idea);
      step := step + 1;
    }
    FillDone(keywords, p, notes);
    r := Take(notes, 4);
  }

  // ----- the concept -----

  /**
   * `generateAdConcept`: the fixed generic concept for no ads; otherwise every part
   * is built from the ranked keywords, with the first ad's page name as the competitor.
   */
  method GenerateAdConcept(ads: seq<CompetitorAd>, ctaChoice: nat, notePicks: seq<nat>)
    returns (r: GeneratedAdConcept)
    ensures ads == [] ==> r == GenericConcept
    ensures ads != [] ==>
      var keywords := TopKeywords(ads);
      && r.hook == BuildHook(keywords)
      && r.primaryText == BuildPrimaryText(keywords, ads[0].pageName)
      && r.headline == BuildHeadline(keywords)
      && r.description == BuildDescription(keywords)
      && r.callToAction == PickCallToAction(keywords, ctaChoice)
      && NotesSpec(keywords, r.creativeNotes)
  {
    if |ads| == 0 {
      return GenericConcept;
    }
    var keywords := CollectKeywords(ads);
    var competitorName := ads[0].pageName;
    var notes := SynthesizeNotes(keywords, notePicks);
    r := GeneratedAdConcept(
      BuildHook(keywords),
      BuildPrimaryText(keywords, competitorName),
      BuildHeadline(keywords),
      BuildDescription(keywords),
      PickCallToAction(keywords, ctaChoice),
      notes);
  }
}
