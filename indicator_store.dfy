/**
 * The hand-over between ingestion and scoring: extracted indicators are
 * stored as the text of the lower-cased Python boolean, and the scorer reads
 * that text back with its boolean parser.
 */
module IndicatorStore {
  import opened Wrappers
  import opened PolicyParser
  import opened Scoring

  /** `str(v).lower()` for a Python boolean. */
  function BoolText(b: bool): (r: string)
    ensures ParseBool(Some(r)) == b
    ensures r != ""
  {
    if b then
      TrueWordParsesTrue();
      "true"
    else
      FalseWordParsesFalse();
      "false"
  }

  /** The key/value rows written for one policy. */
  function Stored(indicators: map<string, bool>): (r: map<string, string>)
    ensures r.Keys == indicators.Keys
    ensures forall k | k in r :: ParseBool(Some(r[k])) == indicators[k]
  {
    map k | k in indicators :: BoolText(indicators[k])
  }

  /** Scoring stored extracted indicators reads back exactly the flags that extraction set. */
  lemma StoredIndicatorsRoundTrip(rawText: string)
    ensures var ind := ExtractIndicators(rawText);
            Flags(Stored(ind)) == PolicyFlags(ind[DATA_LOCALIZATION_KEY], ind[AI_SYSTEMS_KEY], ind[CROSS_BORDER_KEY])
  {
    var ind := ExtractIndicators(rawText);
    var rows := Stored(ind);
    NormalisedKeyDecides(rows, DATA_LOCALIZATION_KEY, LEGACY_DATA_RESIDENCY_KEY);
    NormalisedKeyDecides(rows, AI_SYSTEMS_KEY, LEGACY_AI_REGISTRY_KEY);
    NormalisedKeyDecides(rows, CROSS_BORDER_KEY, LEGACY_CROSS_BORDER_KEY);
  }
}
