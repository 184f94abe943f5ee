/**
 * The choropleth map component: the colour scale, the per-feature resolution
 * against the score index (with the European Union aggregate), and the
 * hover/click controller.
 */
module WorldMap {
  import opened Wrappers
  import opened Text
  import opened Records
  import opened IsoCodes
  import opened CountryIndex

  const NO_DATA_COLOR := "#e9ecef"
  const LOW_COLOR := "#fa5252"
  const MEDIUM_COLOR := "#fab005"
  const HIGH_COLOR := "#12b886"

  /** `colorFor`: three discrete bands, each closed at its lower bound, plus "no data". */
  function ColorFor(score: Option<real>): (r: string)
    ensures r == NO_DATA_COLOR <==> score.None?
    ensures r == LOW_COLOR <==> score.Some? && score.value < 40.0
    ensures r == MEDIUM_COLOR <==> score.Some? && 40.0 <= score.value < 60.0
    ensures r == HIGH_COLOR <==> score.Some? && 60.0 <= score.value
  {
    match score
    case None => NO_DATA_COLOR
    case Some(s) => if s < 40.0 then LOW_COLOR else if s < 60.0 then MEDIUM_COLOR else HIGH_COLOR
  }

  /** The band boundaries: 40 and 60 belong to the upper band. */
  lemma ColorBandBoundaries()
    ensures ColorFor(Some(39.9)) == LOW_COLOR && ColorFor(Some(40.0)) == MEDIUM_COLOR
    ensures ColorFor(Some(59.9)) == MEDIUM_COLOR && ColorFor(Some(60.0)) == HIGH_COLOR
  {
  }

  /** The member states shown under the European Union aggregate. */
  const EU_SET: set<string> := {
    "AT", "BE", "BG", "HR", "CY", "CZ", "DK", "EE", "FI", "FR", "DE", "GR", "HU", "IE",
    "IT", "LV", "LT", "LU", "MT", "NL", "PL", "PT", "RO", "SK", "SI", "ES", "SE"}

  lemma EmptyCodeIsNotMember()
    ensures "" !in EU_SET
  {
  }

  const NAME_KEYS: seq<string> := ["NAME_LONG", "ADMIN", "NAME", "name"]

  /** `a || b || ... || ''` over the properties named by `keys`: the first non-empty value. */
  function FirstNonEmpty(props: map<string, string>, keys: seq<string>): (r: string)
    ensures r == "" <==> forall i :: 0 <= i < |keys| ==> keys[i] !in props || props[keys[i]] == ""
    ensures forall i :: 0 <= i < |keys| && keys[i] in props && props[keys[i]] != "" &&
                        (forall j :: 0 <= j < i ==> keys[j] !in props || props[keys[j]] == "") ==>
              r == props[keys[i]]
    ensures r != "" ==> r in props.Values
  {
    if keys == [] then ""
    else if keys[0] in props && props[keys[0]] != "" then props[keys[0]]
    else FirstNonEmpty(props, keys[1..])
  }

  /**
   * The feature's own name: one of its property values, and "" only when
   * every name property is absent or empty.
   */
  function FeatureName(f: Feature): (r: string)
    ensures r != "" ==> r in f.props.Values
    ensures r == "" <==> forall k | k in NAME_KEYS :: k !in f.props || f.props[k] == ""
  {
    FirstNonEmpty(f.props, NAME_KEYS)
  }

  /** `NAME_LONG`, the first name property consulted, wins whenever it is non-empty. */
  lemma NameLongWins(f: Feature)
    requires "NAME_LONG" in f.props && f.props["NAME_LONG"] != ""
    ensures FeatureName(f) == f.props["NAME_LONG"]
  {
  }

  /** What the map derives for one feature in one render pass. */
  datatype Binding = Binding(
    iso: string,
    name: string,
    entry: Option<CountrySummary>,
    score: Option<real>,
    fill: string,
    clickable: bool,
    displayName: string,
    clickTarget: string)

  /** `countryMap.get(key)` */
  function Get(countryMap: map<string, CountrySummary>, key: string): Option<CountrySummary> {
    if key in countryMap then Some(countryMap[key]) else None
  }

  /** True when the feature is drawn as part of the EU aggregate. */
  predicate ShownAsEu(countryMap: map<string, CountrySummary>, iso: string) {
    iso in EU_SET && "EU" in countryMap
  }

  /** The per-feature resolution of the map's render callback. */
  function Resolve(countryMap: map<string, CountrySummary>, f: Feature): (b: Binding)
    ensures b.iso == IsoFromFeature(f) && b.name == FeatureName(f)
    ensures b.clickable <==> b.entry.Some?
    ensures b.clickable <==> b.iso in countryMap || ShownAsEu(countryMap, b.iso)
    ensures b.score == (if b.entry.Some? then b.entry.value.readiness else None)
    ensures b.fill == ColorFor(b.score)
  {
    var iso := IsoFromFeature(f);
    var name := FeatureName(f);
    var eu := Get(countryMap, "EU");
    var entry := if iso in countryMap then Some(countryMap[iso]) else if iso in EU_SET then eu else None;
    var score := if entry.Some? then entry.value.readiness else None;
    var useEu := iso in EU_SET && eu.Some?;
    Binding(
      iso, name, entry, score, ColorFor(score), entry.Some?,
      if useEu then "European Union" else name,
      if useEu then "EU" else iso)
  }

  /** A direct match supplies the record and so the score and colour. */
  lemma DirectMatchSuppliesRecord(countryMap: map<string, CountrySummary>, f: Feature)
    requires IsoFromFeature(f) in countryMap
    ensures Resolve(countryMap, f).entry == Some(countryMap[IsoFromFeature(f)])
    ensures Resolve(countryMap, f).score == countryMap[IsoFromFeature(f)].readiness
  {
  }

  /** A member state without its own record takes the EU record. */
  lemma MemberFallsBackToEu(countryMap: map<string, CountrySummary>, f: Feature)
    requires IsoFromFeature(f) !in countryMap && ShownAsEu(countryMap, IsoFromFeature(f))
    ensures Resolve(countryMap, f).entry == Some(countryMap["EU"])
    ensures Resolve(countryMap, f).score == countryMap["EU"].readiness
  {
  }

  /** Without a direct match or the EU fallback there is no data and no click. */
  lemma UnmatchedFeatureHasNoData(countryMap: map<string, CountrySummary>, f: Feature)
    requires IsoFromFeature(f) !in countryMap && !ShownAsEu(countryMap, IsoFromFeature(f))
    ensures Resolve(countryMap, f).entry.None? && !Resolve(countryMap, f).clickable
    ensures Resolve(countryMap, f).fill == NO_DATA_COLOR
  {
  }

  /**
   * The EU name and click target replace the feature's own whenever the code
   * is a member and the EU record exists, even if the member has a record of
   * its own; otherwise the feature keeps its own name and code.
   */
  lemma EuPresentation(countryMap: map<string, CountrySummary>, f: Feature)
    ensures ShownAsEu(countryMap, IsoFromFeature(f)) ==>
              Resolve(countryMap, f).displayName == "European Union" && Resolve(countryMap, f).clickTarget == "EU"
    ensures !ShownAsEu(countryMap, IsoFromFeature(f)) ==>
              Resolve(countryMap, f).displayName == FeatureName(f) &&
              Resolve(countryMap, f).clickTarget == IsoFromFeature(f)
  {
  }

  /** A member with its own record keeps its own score but clicks through to "EU". */
  lemma MemberWithOwnRecordTargetsEu(countryMap: map<string, CountrySummary>, f: Feature)
    requires IsoFromFeature(f) in countryMap && ShownAsEu(countryMap, IsoFromFeature(f))
    ensures Resolve(countryMap, f).score == countryMap[IsoFromFeature(f)].readiness
    ensures Resolve(countryMap, f).clickTarget == "EU"
  {
  }

  /** A feature that cannot be identified shows "no data" and cannot be clicked. */
  lemma UnidentifiedFeatureHasNoData(data: seq<CountrySummary>, f: Feature)
    requires IsoFromFeature(f) == ""
    ensures !Resolve(Index(data), f).clickable
    ensures Resolve(Index(data), f).fill == NO_DATA_COLOR
  {
    EmptyCodeIsNotMember();
    UnmatchedFeatureHasNoData(Index(data), f);
  }

  /**
   * A feature carrying only an alpha-3 property finds the record whose code
   * is that alpha-3 code, through the derived alpha-2 key.
   */
  lemma Alpha3FeatureFindsRecord(data: seq<CountrySummary>, i: nat)
    requires i < |data| && Alpha3ToAlpha2(Code(data[i])).Some?
    ensures Resolve(Index(data), Feature(map["ISO_A3" := Code(data[i])], None)).clickable
  {
    UpperIdempotent(data[i].isoCode);
    Alpha3OnlyFeature(Code(data[i]));
    IndexRegistersAlpha2(data, i);
  }

  /**
   * A feature with only an alpha-3 property resolves to the record stored
   * under that alpha-3 code, provided no record carries the derived alpha-2
   * code directly and no earlier record derives it.
   */
  lemma Alpha3FeatureFindsItsRecord(data: seq<CountrySummary>, i: nat)
    requires i < |data| && Alpha3ToAlpha2(Code(data[i])).Some?
    requires forall j :: 0 <= j < |data| ==> Code(data[j]) != Alpha3ToAlpha2(Code(data[i])).value
    requires forall j :: 0 <= j < i ==> !Registers(data[j], Alpha3ToAlpha2(Code(data[i])).value)
    ensures Resolve(Index(data), Feature(map["ISO_A3" := Code(data[i])], None)).entry == Some(data[i])
  {
    var code := Code(data[i]);
    var k := Alpha3ToAlpha2(code).value;
    var f := Feature(map["ISO_A3" := code], None);
    UpperIdempotent(data[i].isoCode);
    Alpha3OnlyFeature(code);
    assert IsoFromFeature(f) == k;
    ToIso2MapsKnownAlpha3(code);
    assert Registers(data[i], k);
    IndexFirstDerivedWins(data, i, k);
    DirectMatchSuppliesRecord(Index(data), f);
  }

  /** The EU header badge is shown when the EU record has a readiness score. */
  predicate EuBadgeShown(countryMap: map<string, CountrySummary>) {
    "EU" in countryMap && countryMap["EU"].readiness.Some?
  }

  /** The hover card: the binding's display name and target, its score and the pointer position. */
  datatype HoverCard = HoverCard(name: string, iso: string, score: Option<real>, x: real, y: real)

  /** The hover card's title: `hover.name || hover.iso || 'Unknown'`. */
  function HoverTitle(h: HoverCard): (r: string)
    ensures r != ""
    ensures h.name != "" ==> r == h.name
    ensures h.name == "" && h.iso != "" ==> r == h.iso
  {
    if h.name != "" then h.name else if h.iso != "" then h.iso else "Unknown"
  }

  /**
   * The interaction state of one map instance: the hover slot and the codes
   * handed to the `onCountryClick` callback so far (none when it is absent).
   */
  class MapController {
    var hover: Option<HoverCard>
    var navigated: seq<string>
    const hasClickHandler: bool

    constructor (hasClickHandler: bool)
      ensures hover == None && navigated == [] && this.hasClickHandler == hasClickHandler
    {
      this.hasClickHandler := hasClickHandler;
      hover := None;
      navigated := [];
    }

    /** `onMouseMove`: overwrite the hover slot with this feature's card. */
    method MouseMove(b: Binding, x: real, y: real)
      modifies this
      ensures hover == Some(HoverCard(b.displayName, b.clickTarget, b.score, x, y))
      ensures navigated == old(navigated)
    {
      hover := Some(HoverCard(b.displayName, b.clickTarget, b.score, x, y));
    }

    /** `onMouseLeave`: clear the hover slot. */
    method MouseLeave()
      modifies this
      ensures hover == None && navigated == old(navigated)
    {
      hover := None;
    }

    /** `onClick`: hand the click target to the callback only when the feature is clickable. */
    method Click(b: Binding)
      modifies this
      ensures hover == old(hover)
      ensures navigated == old(navigated) + (if b.clickable && hasClickHandler then [b.clickTarget] else [])
    {
      if b.clickable && hasClickHandler {
        navigated := navigated + [b.clickTarget];
      }
    }

    /** A click on the EU header badge, which exists only while `EuBadgeShown` holds. */
    method ClickEuBadge(countryMap: map<string, CountrySummary>)
      modifies this
      ensures hover == old(hover)
      ensures navigated == old(navigated) + (if EuBadgeShown(countryMap) && hasClickHandler then ["EU"] else [])
    {
      if EuBadgeShown(countryMap) && hasClickHandler {
        navigated := navigated + ["EU"];
      }
    }
  }
}
