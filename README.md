# Sovereign AI readiness: a verified model of the scoring and map logic

This project models the computational core of a small "sovereign AI
readiness" dashboard in Dafny, and proves properties of that model. The
original system ingests policy texts, turns them into boolean indicators,
scores each country, and shows the scores in a React front end.

What is modelled:

- **Indicator extraction** (`ingest/parse_policies.py`). The policy text is
  lower-cased. Three families of phrases are searched for. Each finding is
  reported twice: under a normalised key and under a legacy key.
- **Indicator storage hand-over** (`ingest/load_db.py:34-39`). Each
  indicator is stored as the text of the lower-cased Python boolean. The
  model proves that the scorer reads those rows back as the flags that
  extraction set.
- **Scoring** (`core/scoring.py`). This covers:
  - the `_bool` text parser;
  - the additive policy score, with its legacy-key fallback;
  - the infrastructure adjustment and its clamp;
  - the language placeholder;
  - the inverse risk heuristic;
  - the readiness formula.

  Scores are exact reals.
- **World map** (`ui-frontend/src/components/WorldChoroplethMap.tsx`). This
  covers:
  - the colour scale;
  - the ISO 3166-1 code normalisation of a map feature, through alpha-2
    aliases, alpha-3 aliases and numeric or alphabetic ids;
  - the score index, built by a loop over the records (an imperative
    `method`);
  - the per-feature resolution, including the European Union aggregate;
  - the hover/click controller: a `class` with a hover slot and a log of
    click-through targets.
- **Top/bottom cards** (`TopBottomCards.tsx`). A stable descending sort by
  readiness, with a missing score read as 0. Then the first five records,
  and the last five in reverse.
- **Country table** (`CountryTable.tsx`). The badge colour bands, and the
  route a row click opens.
- **Compare page** (`Compare.tsx`). The selector options, the chart rows,
  and the insight sentence about the first two selected countries.

Modules:

- `Wrappers`: `Option`.
- `Text`: ASCII case mapping, Python `strip()` whitespace, substring search.
- `Records`: the API's `CountrySummary`.
- `IsoCodes`: the code tables, `isoFromFeature` and `toIso2`.
- `CountryIndex`: the `countryMap` loop and the `Index` function that
  specifies it.
- `WorldMap`: colours, resolution and the `MapController` class.
- `MapScenario`: the component test's scenario.
- `Scoring`.
- `PolicyParser`.
- `IndicatorStore`.
- `TopBottom`.
- `CountryTable`.
- `Compare`.

How the EU aggregate is resolved:

- A direct hit, `countryMap.get(iso)` (`WorldChoroplethMap.tsx:122`),
  supplies the record and so the score and colour. The EU record is used
  only when there is no direct hit.
- The display name and click target (`WorldChoroplethMap.tsx:126-127`) test
  only `EU_SET.has(iso)` and whether an `EU` record exists. So they are
  "European Union" and "EU" for every member code, even a member with a
  record of its own.
- `WorldMap.MemberWithOwnRecordTargetsEu` states this case.

The stability of the top/bottom sort comes from the JavaScript engine:
`Array.prototype.sort` has been stable since ECMAScript 2019. The model
fixes a stable sort and proves stability of it.

## Model

| member | source | states |
|---|---|---|
| Text.PadStart3 | ui-frontend/src/components/WorldChoroplethMap.tsx:60 | A text of at most 3 characters becomes exactly 3 characters: zeros in front, then the original text; a longer text is kept |
| Text.LowerIdentity | core/scoring.py:47 | A text with no upper-case ASCII letter is its own lower-case form |
| Text.StripIgnoresPadding | core/scoring.py:47 | Whitespace (Python's `isspace` set) around a text never changes what `strip()` returns |
| Text.LowerStrip | core/scoring.py:47 | Lower-casing and stripping commute |
| Text.ContainsIffOccurs | ingest/parse_policies.py:14 | `needle in text` holds exactly when the needle occurs at some index of the text |
| IsoCodes.TablesHoldCodes | ui-frontend/src/components/WorldChoroplethMap.tsx:35-48 | Every key of the alpha-3 and numeric tables has 3 characters, and every value found is a 2-character upper-case code |
| IsoCodes.Alpha3TableHoldsCodes | ui-frontend/src/components/WorldChoroplethMap.tsx:35-39 | Every key of the alpha-3 table has 3 characters and maps to a 2-character upper-case code |
| IsoCodes.NumericTableHoldsCodes | ui-frontend/src/components/WorldChoroplethMap.tsx:41-48 | Every key of the numeric table has 3 characters and maps to a 2-character upper-case code |
| IsoCodes.Coalesce | ui-frontend/src/components/WorldChoroplethMap.tsx:52 | The `??` chain: no value when none of the keys is present, otherwise the value of the first present key, even if it is empty |
| IsoCodes.Alpha3ToAlpha2 | ui-frontend/src/components/WorldChoroplethMap.tsx:35-39 | Every key of the alpha-3 table is written in upper-case letters, so only an upper-cased code can be found |
| IsoCodes.NumericToAlpha2 | ui-frontend/src/components/WorldChoroplethMap.tsx:41-48 | Every key of the numeric table is a digit string |
| IsoCodes.RawId | ui-frontend/src/components/WorldChoroplethMap.tsx:56 | `geo.id ?? props.id`: the feature id when there is one; otherwise a value exactly when the properties hold an `id` |
| IsoCodes.IsoFromId | ui-frontend/src/components/WorldChoroplethMap.tsx:57-66 | The id path returns "" or a 2-character code without lower-case letters |
| IsoCodes.IsoFromFeature | ui-frontend/src/components/WorldChoroplethMap.tsx:50-68 | Normalisation never fails; the result is "" or a 2-character code without lower-case letters |
| IsoCodes.ToIso2 | ui-frontend/src/components/WorldChoroplethMap.tsx:70-74 | The result has 2 characters or is the upper-cased input itself (unknown codes are not emptied) |
| IsoCodes.Alpha2AliasWins | ui-frontend/src/components/WorldChoroplethMap.tsx:52-53 | The first alpha-2 alias present decides, upper-cased, when it has two characters, whatever the alpha-3 aliases and the id say |
| IsoCodes.EmptyIsoA2Shadows | ui-frontend/src/components/WorldChoroplethMap.tsx:52 | An empty `ISO_A2` gives an empty alpha-2 candidate, and the later alpha-2 aliases have no influence on the result |
| IsoCodes.CoalesceIgnoresOtherKeys | ui-frontend/src/components/WorldChoroplethMap.tsx:52 | Removing properties not in the key list never changes the `??` chain's value |
| IsoCodes.Alpha3AliasFallback | ui-frontend/src/components/WorldChoroplethMap.tsx:54-55 | Without a 2-character alpha-2 candidate, a known alpha-3 alias gives its table value |
| IsoCodes.Alpha3OnlyFeature | ui-frontend/src/components/WorldChoroplethMap.tsx:54-55 | A feature whose only code is a known upper-case `ISO_A3` value normalises to that code's alpha-2 code |
| IsoCodes.IdFallback | ui-frontend/src/components/WorldChoroplethMap.tsx:56-67 | Failing both aliases, the id decides; with no id the result is "" |
| IsoCodes.NumericIdIsPadded | ui-frontend/src/components/WorldChoroplethMap.tsx:59-61 | A purely numeric 1–3 digit id is zero-padded to 3 digits before the numeric lookup |
| IsoCodes.UnpaddedNumericId | ui-frontend/src/components/WorldChoroplethMap.tsx:59-61 | The id "56" gives "BE" |
| IsoCodes.PaddedNumericId | ui-frontend/src/components/WorldChoroplethMap.tsx:43-44 | The ids "056" and "356" give "BE" and "IN" |
| IsoCodes.IdAfterNumericMiss | ui-frontend/src/components/WorldChoroplethMap.tsx:63-65 | After a numeric miss: a 2-character id is returned upper-cased, a 3-character id only through the alpha-3 table, anything else gives "" |
| IsoCodes.TwoDigitIdMiss | ui-frontend/src/components/WorldChoroplethMap.tsx:64 | The id "12" is returned as "12" |
| IsoCodes.ThreeDigitIdMiss | ui-frontend/src/components/WorldChoroplethMap.tsx:65 | The id "012" gives "" |
| IsoCodes.LowerCaseAlpha3Id | ui-frontend/src/components/WorldChoroplethMap.tsx:63-65 | The id "fra" is upper-cased and gives "FR" |
| IsoCodes.NoIdentifierGivesEmpty | ui-frontend/src/components/WorldChoroplethMap.tsx:67 | A feature with no alias and no id gives "" |
| IsoCodes.CanonicalCodeIsFixed | ui-frontend/src/components/WorldChoroplethMap.tsx:70-74 | An upper-case 2-character code is a fixed point of `toIso2` and of `isoFromFeature` through `ISO_A2` |
| IsoCodes.ToIso2KeepsUnknown | ui-frontend/src/components/WorldChoroplethMap.tsx:72-73 | `toIso2` is the upper-casing identity on 2-character input and on codes the alpha-3 table does not know |
| IsoCodes.ToIso2MapsKnownAlpha3 | ui-frontend/src/components/WorldChoroplethMap.tsx:73 | A known alpha-3 code in any letter case maps to its 2-character code |
| CountryIndex.BuildCountryMap | ui-frontend/src/components/WorldChoroplethMap.tsx:77-87 | The loop builds exactly `Index(data)`; "" is never a key; every value is one of the records |
| CountryIndex.DerivedCodeNotEmpty | ui-frontend/src/components/WorldChoroplethMap.tsx:83 | A non-empty code never derives the empty key |
| CountryIndex.StepDomain | ui-frontend/src/components/WorldChoroplethMap.tsx:80-85 | One loop iteration adds exactly the keys the record registers |
| CountryIndex.StepSetsOwnCode | ui-frontend/src/components/WorldChoroplethMap.tsx:82 | One iteration always files the record under its own code, overwriting any earlier record |
| CountryIndex.StepKeepsOtherKey | ui-frontend/src/components/WorldChoroplethMap.tsx:82-84 | One iteration leaves a present key that is not the record's own code unchanged |
| CountryIndex.StepAddsDerivedKey | ui-frontend/src/components/WorldChoroplethMap.tsx:83-84 | One iteration files the record under its derived key when that key is still free |
| CountryIndex.IndexDomain | ui-frontend/src/components/WorldChoroplethMap.tsx:79-85 | The keys are exactly the codes that some record registers, directly or as its derived alpha-2 code |
| CountryIndex.IndexStep | ui-frontend/src/components/WorldChoroplethMap.tsx:80-85 | One iteration never removes a key, never makes "" a key, and every entry it adds or replaces holds the current record |
| CountryIndex.Index | ui-frontend/src/components/WorldChoroplethMap.tsx:77-87 | Records with an empty code are skipped, so "" is never a key; every value of the index is one of the input records |
| CountryIndex.IndexLastDirectWins | ui-frontend/src/components/WorldChoroplethMap.tsx:82 | A code maps to the last record carrying it |
| CountryIndex.IndexFirstDerivedWins | ui-frontend/src/components/WorldChoroplethMap.tsx:84 | A derived key that no record carries directly maps to the first record deriving it |
| CountryIndex.IndexFindsEveryRecord | ui-frontend/src/components/WorldChoroplethMap.tsx:80-82 | When the non-empty codes are pairwise distinct, every record with a code is found under its own code |
| CountryIndex.IndexRegistersAlpha2 | ui-frontend/src/components/WorldChoroplethMap.tsx:83-84 | The alpha-2 code derived from a record's known alpha-3 code is always a key of the index; which record it holds is given by IndexLastDirectWins and IndexFirstDerivedWins |
| WorldMap.ColorFor | ui-frontend/src/components/WorldChoroplethMap.tsx:8-14 | No score gives the no-data colour; below 40 low; 40 up to 60 medium; 60 and above high (each an if-and-only-if) |
| WorldMap.ColorBandBoundaries | ui-frontend/src/components/WorldChoroplethMap.tsx:11-12 | Exactly 40 and exactly 60 fall in the upper band |
| WorldMap.EmptyCodeIsNotMember | ui-frontend/src/components/WorldChoroplethMap.tsx:31-33 | The empty code is not an EU member code |
| WorldMap.FirstNonEmpty | ui-frontend/src/components/WorldChoroplethMap.tsx:116-121 | The `||` chain of names: "" iff every name is absent or empty, else the first non-empty one |
| WorldMap.FeatureName | ui-frontend/src/components/WorldChoroplethMap.tsx:116-121 | The name is one of the feature's property values, and "" only when `NAME_LONG`, `ADMIN`, `NAME` and `name` are all absent or empty |
| WorldMap.NameLongWins | ui-frontend/src/components/WorldChoroplethMap.tsx:116-117 | A non-empty `NAME_LONG` is the feature's name, whatever the other name properties say |
| WorldMap.Resolve | ui-frontend/src/components/WorldChoroplethMap.tsx:114-127 | The feature's code and name; clickable iff a record was found, iff the code is in the index or the feature is shown as EU; the score is the record's; the fill is the score's colour |
| WorldMap.DirectMatchSuppliesRecord | ui-frontend/src/components/WorldChoroplethMap.tsx:122-123 | A direct match supplies the record and the score |
| WorldMap.MemberFallsBackToEu | ui-frontend/src/components/WorldChoroplethMap.tsx:122 | A member without its own record takes the EU record and score |
| WorldMap.UnmatchedFeatureHasNoData | ui-frontend/src/components/WorldChoroplethMap.tsx:122-125 | Without either there is no record, no click, and the no-data colour |
| WorldMap.EuPresentation | ui-frontend/src/components/WorldChoroplethMap.tsx:126-127 | Name "European Union" and target "EU" iff the code is a member and an EU record exists; otherwise the feature's own name and code |
| WorldMap.MemberWithOwnRecordTargetsEu | ui-frontend/src/components/WorldChoroplethMap.tsx:122-127 | A member with its own record keeps its own score but its click target is "EU" |
| WorldMap.UnidentifiedFeatureHasNoData | ui-frontend/src/components/WorldChoroplethMap.tsx:81 | A feature normalising to "" is never clickable and shows no data, whatever the records |
| WorldMap.Alpha3FeatureFindsRecord | ui-frontend/src/components/WorldChoroplethMap.tsx:83-84 | A feature with only an alpha-3 property matching a record's known alpha-3 code is clickable, through the derived key |
| WorldMap.Alpha3FeatureFindsItsRecord | ui-frontend/src/components/WorldChoroplethMap.tsx:83-84 | Such a feature resolves to the very record stored under that alpha-3 code, when no record carries the alpha-2 code directly and no earlier record derives it |
| WorldMap.HoverTitle | ui-frontend/src/components/WorldChoroplethMap.tsx:165 | The hover title is never empty: the name, else the code, else "Unknown" |
| WorldMap.MapController.constructor | ui-frontend/src/components/WorldChoroplethMap.tsx:27 | The hover slot starts empty, with no click-throughs |
| WorldMap.MapController.MouseMove | ui-frontend/src/components/WorldChoroplethMap.tsx:137-142 | The hover slot is overwritten with the display name, click target, score and pointer position; nothing else changes |
| WorldMap.MapController.MouseLeave | ui-frontend/src/components/WorldChoroplethMap.tsx:143 | The hover slot is cleared; nothing else changes |
| WorldMap.MapController.Click | ui-frontend/src/components/WorldChoroplethMap.tsx:144-147 | The click target is handed to the callback exactly when the feature is clickable and a callback exists; the hover is untouched |
| WorldMap.MapController.ClickEuBadge | ui-frontend/src/components/WorldChoroplethMap.tsx:101-102 | The EU badge, present only when the EU record has a readiness score, clicks through to "EU" |
| MapScenario.ScenarioIndex | ui-frontend/src/components/WorldChoroplethMap.test.tsx:23-26 | The test data index holds exactly "IN" and "EU" |
| MapScenario.IndiaIdentifier | ui-frontend/src/components/WorldChoroplethMap.test.tsx:9-14 | The feature with id "356" normalises to "IN" |
| MapScenario.FranceIdentifier | ui-frontend/src/components/WorldChoroplethMap.test.tsx:15-19 | The feature with `ISO_A3` "FRA" normalises to "FR" |
| MapScenario.IndiaResolves | ui-frontend/src/components/WorldChoroplethMap.test.tsx:39-48 | India resolves to its own record, score 60, high colour, target "IN" |
| MapScenario.FranceResolvesToEu | ui-frontend/src/components/WorldChoroplethMap.test.tsx:49-54 | France resolves to "European Union", score 65, target "EU" |
| MapScenario.HoverAndClick | ui-frontend/src/components/WorldChoroplethMap.test.tsx:39-54 | Hover India, click it, hover France: the callback received exactly "IN", and the hover card shows the EU with 65 |
| Scoring.ParseBool | core/scoring.py:43-48 | `None` is false; a true result needs a stripped text of 1 to 4 characters, the lengths of the truthy words |
| Scoring.ParseBoolIgnoresPadding | core/scoring.py:47 | Surrounding whitespace never changes `_bool` |
| Scoring.ParseBoolIgnoresCase | core/scoring.py:47 | Texts equal up to letter case parse alike |
| Scoring.TruthyWordParses | core/scoring.py:43-48 | Any text whose stripped, lower-cased form is one of "1", "true", "yes", "y" parses as true |
| Scoring.FalseWordParsesFalse | core/scoring.py:48 | "false" parses as false |
| Scoring.TrueWordParsesTrue | core/scoring.py:48 | "true" parses as true |
| Scoring.Flag | core/scoring.py:67-79 | A flag is set only when its normalised key or its legacy key is present |
| Scoring.Flags | core/scoring.py:67-79 | With no indicator rows at all, none of the three flags is set |
| Scoring.NormalisedKeyDecides | core/scoring.py:67-79 | A present, non-empty normalised value alone decides the flag |
| Scoring.LegacyKeyFallback | core/scoring.py:67-79 | The legacy key is read only when the normalised key is absent or empty |
| Scoring.NormalisedFalseBeatsLegacyTrue | core/scoring.py:72-74 | A normalised "false" is not overridden by a legacy "true" |
| Scoring.Clamp | core/scoring.py:88 | `max(lo, min(hi, x))` lies in [lo, hi], is `x` inside, and the nearer bound outside |
| Scoring.ComputePolicyScore | core/scoring.py:51-89 | The flags are the parsed indicators; the score is 50 + 15·localisation + 10·AI + 5·cross-border, so it lies in [50, 80] |
| Scoring.PolicyClampIsInert | core/scoring.py:88 | The clamp never changes the accumulated policy score |
| Scoring.PolicyScoreExample | tests/test_scoring.py:6-17 | Two flags set give 75 and the flags (true, true, false) |
| Scoring.InfraAdjusted | core/scoring.py:107-108 | The adjusted infrastructure score lies in [0, 100] |
| Scoring.ComputeInfraScore | core/scoring.py:92-109 | No signals give (50, low); any signals give medium confidence and the value `InfraAdjusted(gpu, power)`, each metric read as 50 when missing; always in [0, 100] |
| Scoring.InfraMonotone | core/scoring.py:105-108 | Non-decreasing in the GPU index, non-increasing in the power cost |
| Scoring.InfraMissingMetricsDefault | core/scoring.py:104-105 | Signals present but neither metric among them: both default to 50, giving (50, medium) |
| Scoring.InfraExample | tests/test_scoring.py:20-26 | An empty dict gives (50, low); GPU 60 and power 70 give (58, medium) |
| Scoring.LanguageScore | core/scoring.py:112-122 | 70 iff the upper-cased code is "IN" or "EU", else 55 |
| Scoring.LanguageExamples | tests/test_scoring.py:29-31 | "EU" and "in" give 70, "US" gives 55 |
| Scoring.RiskScore | core/scoring.py:125-132 | The risk lies in [0, 100] |
| Scoring.RiskAntitone | core/scoring.py:130-132 | Raising any component never raises the risk |
| Scoring.RiskExample | tests/test_scoring.py:33-35 | (80, 60, 70) gives risk 36 |
| Scoring.Readiness | core/scoring.py:182 | Components in [0, 100] give readiness in [-10, 90]; when risk is the unclamped 100 minus the composite, readiness is 1.1 times the composite minus 10 |
| Scoring.ScoreCountry | core/scoring.py:177-182 | Policy in [50, 80], infra and risk in [0, 100], language 55 or 70 |
| Scoring.ReadinessFromComposite | core/scoring.py:182 | For every input the risk clamp is inert, readiness is 1.1·composite − 10, and it lies in [24.1, 73.6] |
| PolicyParser.ExtractIndicators | ingest/parse_policies.py:23-32 | Exactly the six keys, each legacy key equal to its normalised key |
| PolicyParser.WindowIffOccurrence | ingest/parse_policies.py:12-14 | A window of the raw text lower-cases to the phrase iff the phrase occurs at that index of the lower-cased text |
| PolicyParser.MentionsIffContained | ingest/parse_policies.py:12-14 | A substring test on the lower-cased text holds iff some window of the raw text lower-cases to the phrase |
| PolicyParser.DataLocalizationDetected | ingest/parse_policies.py:13-15 | The localisation flag is set iff the text mentions "data localization", "data localisation" or "data residency" in any case |
| PolicyParser.AiSystemsDetected | ingest/parse_policies.py:16-18 | The AI flag is set iff the text mentions "ai system", "high-risk ai" or "ai registry" in any case |
| PolicyParser.CrossBorderDetected | ingest/parse_policies.py:19-21 | The cross-border flag is set iff the text mentions "cross-border data transfer", "third country" or "cross border" in any case |
| PolicyParser.ExtractionIgnoresCase | ingest/parse_policies.py:12 | Texts equal up to case, and the upper-cased text, give the same indicators |
| PolicyParser.PhraseSurvivesExtension | ingest/parse_policies.py:13-21 | A phrase found in a text is still found once text is added on either side |
| PolicyParser.ExtractionMonotone | ingest/parse_policies.py:13-21 | Every indicator set for `s` stays set for `p + s + t` |
| IndicatorStore.BoolText | ingest/load_db.py:39 | The stored text of a boolean is non-empty and `_bool` reads it back as that boolean |
| IndicatorStore.Stored | ingest/load_db.py:34-39 | The stored rows have the indicators' keys, and each parses back to its indicator |
| IndicatorStore.StoredIndicatorsRoundTrip | ingest/load_db.py:34-39 | Scoring stored extracted indicators reads back exactly the three flags extraction set |
| TopBottom.Insert | ui-frontend/src/components/TopBottomCards.tsx:5 | Inserting adds exactly one element |
| TopBottom.InsertAddsRecord | ui-frontend/src/components/TopBottomCards.tsx:5 | Inserting adds exactly `x` to the multiset of records |
| TopBottom.InsertDrawsFrom | ui-frontend/src/components/TopBottomCards.tsx:5 | Every element after insertion is `x` or came from the sequence |
| TopBottom.InsertKeepsDescending | ui-frontend/src/components/TopBottomCards.tsx:5 | Insertion keeps a descending sequence descending |
| TopBottom.HeadIsLargest | ui-frontend/src/components/TopBottomCards.tsx:5 | The head of a non-empty descending sequence has the largest key |
| TopBottom.Sort | ui-frontend/src/components/TopBottomCards.tsx:5 | The sorted copy has the input's length |
| TopBottom.SortIsDescending | ui-frontend/src/components/TopBottomCards.tsx:5 | The sorted copy is non-increasing in readiness, with a missing score read as 0 |
| TopBottom.SortIsPermutation | ui-frontend/src/components/TopBottomCards.tsx:5 | The sorted copy is a permutation of the input |
| TopBottom.WithKeyConcat | ui-frontend/src/components/TopBottomCards.tsx:5 | Selecting the records with one key distributes over concatenation |
| TopBottom.NoneWithKey | ui-frontend/src/components/TopBottomCards.tsx:5 | No record has key `v` when every key is below `v` |
| TopBottom.InsertBeforeHead | ui-frontend/src/components/TopBottomCards.tsx:5 | Inserting a record above the head appends it to the records with its key and changes no other key's records |
| TopBottom.InsertAfterHead | ui-frontend/src/components/TopBottomCards.tsx:5 | When the record goes past the head, the key-order claim for the whole follows from the claim for the tail |
| TopBottom.InsertKeepsKeyOrder | ui-frontend/src/components/TopBottomCards.tsx:5 | Insertion puts `x` after every earlier record with its key and leaves the other keys' records alone |
| TopBottom.SortIsStable | ui-frontend/src/components/TopBottomCards.tsx:5 | Records with equal readiness keep their input order |
| TopBottom.Reverse | ui-frontend/src/components/TopBottomCards.tsx:7 | Same length, element `i` is element `n − 1 − i` of the input |
| TopBottom.ReverseIsPermutation | ui-frontend/src/components/TopBottomCards.tsx:7 | Reversal is a permutation |
| TopBottom.Top5 | ui-frontend/src/components/TopBottomCards.tsx:6 | The top card has min(5, n) records |
| TopBottom.Bottom5 | ui-frontend/src/components/TopBottomCards.tsx:7 | The bottom card has min(5, n) records |
| TopBottom.TopBottomCards | ui-frontend/src/components/TopBottomCards.tsx:5-7 | Each card holds min(5, n) records |
| TopBottom.TopCardHoldsHighest | ui-frontend/src/components/TopBottomCards.tsx:5-6 | The top card is the first min(5, n) sorted records, descending, each scoring at least every record left off it |
| TopBottom.BottomCardHoldsLowest | ui-frontend/src/components/TopBottomCards.tsx:5-7 | The bottom card is the last min(5, n) sorted records reversed, non-decreasing, each scoring at most every record before them |
| TopBottom.Bottom5Ascends | ui-frontend/src/components/TopBottomCards.tsx:7 | The bottom five of any descending sequence, lowest first, ascend and sit at or below every earlier record |
| TopBottom.SmallDataOnBothCards | ui-frontend/src/components/TopBottomCards.tsx:6-7 | With at most five records both cards hold every record |
| CountryTable.Badge | ui-frontend/src/components/CountryTable.tsx:6-11 | Teal iff the value (missing read as 0) is at least 70, yellow iff in [50, 70), red iff below 50 |
| CountryTable.BadgeEdges | ui-frontend/src/components/CountryTable.tsx:7-10 | A missing value is red; exactly 70 is teal and exactly 50 yellow |
| CountryTable.BadgeMonotone | ui-frontend/src/components/CountryTable.tsx:6-11 | The band rank red < yellow < teal never drops as the value rises |
| CountryTable.RowRoute | ui-frontend/src/components/CountryTable.tsx:16 | The route is "/country/" followed by exactly the code |
| CountryTable.RowRouteInjective | ui-frontend/src/components/CountryTable.tsx:16 | Distinct codes give distinct routes |
| Compare.Options | ui-frontend/src/pages/Compare.tsx:21 | One option per record in order, valued by the code, labelled "name (code)" |
| Compare.ChartData | ui-frontend/src/pages/Compare.tsx:23-28 | No data gives no rows; otherwise one row per record in order, missing components drawn as 0 |
| Compare.Rows | ui-frontend/src/pages/Compare.tsx:23-28 | One row per record in order, missing components drawn as 0 |
| Compare.Winner | ui-frontend/src/pages/Compare.tsx:33-40 | The stronger code is the first record's unless the second scores strictly higher, missing read as 0 |
| Compare.JoinThree | ui-frontend/src/pages/Compare.tsx:41 | Joining three parts puts the separator between them |
| Compare.InsightClauses | ui-frontend/src/pages/Compare.tsx:30-42 | With two or more records, the text is exactly three clauses (policy, infra, language, in that order) joined by ", " |
| Compare.Insight | ui-frontend/src/pages/Compare.tsx:30-42 | The insight is "" iff there is no data or fewer than two records |
| Compare.InsightIgnoresLaterRecords | ui-frontend/src/pages/Compare.tsx:32 | Records after the first two never affect the text |
| Compare.SwapChangesOnlyTies | ui-frontend/src/pages/Compare.tsx:33 | Swapping the pair changes a clause only on a tie, and a tie goes to the first record |

## Left out

- Database and HTTP code is not modelled. This covers the SQL and the psycopg2 connections, `compute_scores`' query/insert loop (only its per-country arithmetic is `Scoring.ScoreCountry`), the row writes of `ingest/load_db.py`, `ingest/fetch_sources.py`, the FastAPI routes, the smoke-test script and the Streamlit dashboard. All of this is I/O plumbing.
- Front-end data loading is not modelled: the fetch wrappers and the `useState`/`useEffect` loading. The model takes the loaded arrays as parameters, and the optional compare `data` as an `Option`.
- Rendering is not modelled: map projection and geometry, the topology download, Mantine and recharts components, styles, routing, and the `useMemo`/`useCallback` caching. These are foreign libraries.
- Debug logging and the debug panel (`window.SOVAI_DEBUG`, `log`, `setDebugInfo`) are not modelled. They are ambient global state and console output.
- Number formatting (`toFixed`) is not modelled. Scores are exact reals, so IEEE rounding of `0.1·x` is not modelled either.
- The pointer position of a mouse move, and the optional `onCountryClick` callback, are parameters:
  - the position is a pair of reals;
  - the callback is a flag saying whether it exists, plus the log of targets it received (`MapController.navigated`).
- The top/bottom input is an immutable sequence, so the promise that the input array is not mutated holds by construction.
- The country table's other cells (the `toFixed` score cells) are not modelled; only the badge colour and the row route are.
- Compare.Options: the option's `label` field is called `text`, because `label` is a reserved word in Dafny.
- IsoCodes.IsoFromFeature: property values and ids are modelled as strings that are already converted. This stands in for `toString()` and `String(rawId)`. A missing `properties` object is an empty map, and `null` and `undefined` are both the absent value.
- IsoCodes.IsoFromFeature, IsoCodes.IsoFromId and IsoCodes.ToIso2: a string's length is its number of Unicode scalar values. JavaScript's `length` counts UTF-16 code units. So a single character outside the Basic Multilingual Plane, such as an emoji `ISO_A2` value, has length 2 in JavaScript and is returned as the code; here it has length 1 and the result is "".
- IsoCodes.IsoFromFeature: case mapping is ASCII only. JavaScript's `toUpperCase` also maps non-ASCII letters, and some of them change length: "ß" becomes "SS". So a 1-character `ß` alias has length 2 in JavaScript but length 1 here.
- CountryIndex.Code: a `null` code is modelled as "", which `c.iso_code || ''` treats the same way. Case mapping is ASCII only, as above.
- Scoring.LanguageScore: `str.upper()` is modelled on ASCII letters only. Python also maps "ı" (U+0131) to "I", so "ın" scores 70 in Python but 55 here.
- Scoring.ParseBool: `str.lower()` is modelled on ASCII letters only. This is exact for `_bool`, because no non-ASCII character lower-cases into one of the truthy words. The inputs are strings, which is what the database returns, so `str(val)` is the identity.
- PolicyParser.ExtractIndicators: lower-casing is ASCII only. Python also maps the Kelvin sign U+212A to "k". So "high-risk ai" spelled with the Kelvin sign in place of its "k" is detected by Python but not by the model.
- Scoring.ComputeInfraScore: the `float()` conversions are not modelled; the metric values are already reals.
- The two code tables are written as `match` functions on string literals, not as map displays; the entries are the same.
