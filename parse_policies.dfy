/**
 * Indicator extraction from raw policy text: three phrase families searched
 * for in the lower-cased text, reported under a normalised key and under a
 * legacy key that mirrors it.
 */
module PolicyParser {
  import opened Text

  const DATA_LOCALIZATION_KEY := "mentions_data_localization"
  const AI_SYSTEMS_KEY := "mentions_ai_systems"
  const CROSS_BORDER_KEY := "mentions_cross_border"
  const LEGACY_DATA_RESIDENCY_KEY := "data_residency_required"
  const LEGACY_AI_REGISTRY_KEY := "ai_registry_required"
  const LEGACY_CROSS_BORDER_KEY := "cross_border_restrictions"

  const INDICATOR_KEYS: set<string> := {
    DATA_LOCALIZATION_KEY, AI_SYSTEMS_KEY, CROSS_BORDER_KEY,
    LEGACY_DATA_RESIDENCY_KEY, LEGACY_AI_REGISTRY_KEY, LEGACY_CROSS_BORDER_KEY
  }

  /** `extract_indicators`: six boolean indicators, legacy keys equal to their normalised ones. */
  function ExtractIndicators(rawText: string): (r: map<string, bool>)
    ensures r.Keys == INDICATOR_KEYS
    ensures r[LEGACY_DATA_RESIDENCY_KEY] == r[DATA_LOCALIZATION_KEY]
    ensures r[LEGACY_AI_REGISTRY_KEY] == r[AI_SYSTEMS_KEY]
    ensures r[LEGACY_CROSS_BORDER_KEY] == r[CROSS_BORDER_KEY]
  {
    var text := Lower(rawText);
    var dataLocalization :=
      Contains(text, "data localization") || Contains(text, "data localisation") || Contains(text, "data residency");
    var aiSystems :=
      Contains(text, "ai system") || Contains(text, "high-risk ai") || Contains(text, "ai registry");
    var crossBorder :=
      Contains(text, "cross-border data transfer") || Contains(text, "third country") || Contains(text, "cross border");
    map[
      DATA_LOCALIZATION_KEY := dataLocalization,
      AI_SYSTEMS_KEY := aiSystems,
      CROSS_BORDER_KEY := crossBorder,
      LEGACY_DATA_RESIDENCY_KEY := dataLocalization,
      LEGACY_AI_REGISTRY_KEY := aiSystems,
      LEGACY_CROSS_BORDER_KEY := crossBorder
    ]
  }

  /** The window of the raw text starting at `i`, once lower-cased, spells `phrase`. */
  predicate WindowSpells(rawText: string, phrase: string, i: nat) {
    i + |phrase| <= |rawText| && Lower(rawText[i..i + |phrase|]) == phrase
  }

  /** Some window of the raw text, once lower-cased, spells `phrase`. */
  ghost predicate Mentions(rawText: string, phrase: string) {
    exists i: nat :: WindowSpells(rawText, phrase, i)
  }

  lemma WindowIffOccurrence(rawText: string, phrase: string, i: nat)
    ensures WindowSpells(rawText, phrase, i) <==> OccursAt(Lower(rawText), phrase, i)
  {
    if i + |phrase| <= |rawText| {
      LowerSlice(rawText, i, i + |phrase|);
    }
  }

  /** Substring search on the lower-cased text finds exactly the windows that lower-case to the phrase. */
  lemma MentionsIffContained(rawText: string, phrase: string)
    ensures Contains(Lower(rawText), phrase) <==> Mentions(rawText, phrase)
  {
    if Contains(Lower(rawText), phrase) {
      var i := ContainedOccurs(Lower(rawText), phrase);
      WindowIffOccurrence(rawText, phrase, i);
    }
    if Mentions(rawText, phrase) {
      var i: nat :| WindowSpells(rawText, phrase, i);
      WindowIffOccurrence(rawText, phrase, i);
      OccurrenceIsContained(Lower(rawText), phrase, i);
    }
  }

  lemma DataLocalizationDetected(rawText: string)
    ensures ExtractIndicators(rawText)[DATA_LOCALIZATION_KEY] <==>
            Mentions(rawText, "data localization") || Mentions(rawText, "data localisation") ||
            Mentions(rawText, "data residency")
  {
    MentionsIffContained(rawText, "data localization");
    MentionsIffContained(rawText, "data localisation");
    MentionsIffContained(rawText, "data residency");
  }

  lemma AiSystemsDetected(rawText: string)
    ensures ExtractIndicators(rawText)[AI_SYSTEMS_KEY] <==>
            Mentions(rawText, "ai system") || Mentions(rawText, "high-risk ai") || Mentions(rawText, "ai registry")
  {
    MentionsIffContained(rawText, "ai system");
    MentionsIffContained(rawText, "high-risk ai");
    MentionsIffContained(rawText, "ai registry");
  }

  lemma CrossBorderDetected(rawText: string)
    ensures ExtractIndicators(rawText)[CROSS_BORDER_KEY] <==>
            Mentions(rawText, "cross-border data transfer") || Mentions(rawText, "third country") ||
            Mentions(rawText, "cross border")
  {
    MentionsIffContained(rawText, "cross-border data transfer");
    MentionsIffContained(rawText, "third country");
    MentionsIffContained(rawText, "cross border");
  }

  /** Letter case never matters: texts equal up to case, and upper-cased text, give the same indicators. */
  lemma ExtractionIgnoresCase(s: string, t: string)
    requires Lower(s) == Lower(t)
    ensures ExtractIndicators(s) == ExtractIndicators(t)
    ensures ExtractIndicators(Upper(s)) == ExtractIndicators(s)
  {
    LowerOfUpper(s);
  }

  /** A phrase found in `s` is still found once text is added on either side. */
  lemma PhraseSurvivesExtension(p: string, s: string, t: string, phrase: string)
    requires Contains(Lower(s), phrase)
    ensures Contains(Lower(p + s + t), phrase)
  {
    LowerAppend(p + s, t);
    LowerAppend(p, s);
    ContainsInExtension(Lower(p), Lower(s), Lower(t), phrase);
  }

  /** Every indicator set for `s` stays set once text is added on either side of it. */
  lemma ExtractionMonotone(p: string, s: string, t: string)
    ensures forall k | k in INDICATOR_KEYS :: ExtractIndicators(s)[k] ==> ExtractIndicators(p + s + t)[k]
  {
    var before := ExtractIndicators(s);
    var after := ExtractIndicators(p + s + t);
    if Contains(Lower(s), "data localization") { PhraseSurvivesExtension(p, s, t, "data localization"); }
    if Contains(Lower(s), "data localisation") { PhraseSurvivesExtension(p, s, t, "data localisation"); }
    if Contains(Lower(s), "data residency") { PhraseSurvivesExtension(p, s, t, "data residency"); }
    if Contains(Lower(s), "ai system") { PhraseSurvivesExtension(p, s, t, "ai system"); }
    if Contains(Lower(s), "high-risk ai") { PhraseSurvivesExtension(p, s, t, "high-risk ai"); }
    if Contains(Lower(s), "ai registry") { PhraseSurvivesExtension(p, s, t, "ai registry"); }
    if Contains(Lower(s), "cross-border data transfer") { PhraseSurvivesExtension(p, s, t, "cross-border data transfer"); }
    if Contains(Lower(s), "third country") { PhraseSurvivesExtension(p, s, t, "third country"); }
    if Contains(Lower(s), "cross border") { PhraseSurvivesExtension(p, s, t, "cross border"); }
    assert before[DATA_LOCALIZATION_KEY] ==> after[DATA_LOCALIZATION_KEY];
    assert before[AI_SYSTEMS_KEY] ==> after[AI_SYSTEMS_KEY];
    assert before[CROSS_BORDER_KEY] ==> after[CROSS_BORDER_KEY];
  }
}
