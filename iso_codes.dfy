/**
 * Identifier normalisation for map features: any of the code forms a feature
 * may carry (ISO 3166-1 alpha-2, alpha-3, or an unpadded numeric-3 id) is
 * reduced to an upper-case 2-character code, or to "" when nothing matches.
 */
module IsoCodes {
  import opened Wrappers
  import opened Text

  /**
   * The partial alpha-3 to alpha-2 table of the map component (`A3_TO_A2`);
   * `None` where the table has no entry. Every key is written in upper-case
   * letters, so a code must be upper-cased before it can be found.
   */
  function Alpha3ToAlpha2(code: string): (r: Option<string>)
    ensures r.Some? ==> forall i :: 0 <= i < |code| ==> IsAsciiUpper(code[i])
  {
    match code
    case "IND" => Some("IN") case "FRA" => Some("FR") case "DEU" => Some("DE") case "ITA" => Some("IT") case "ESP" => Some("ES")
    case "PRT" => Some("PT") case "NLD" => Some("NL") case "BEL" => Some("BE") case "LUX" => Some("LU") case "IRL" => Some("IE")
    case "DNK" => Some("DK") case "SWE" => Some("SE") case "FIN" => Some("FI") case "AUT" => Some("AT") case "POL" => Some("PL")
    case "CZE" => Some("CZ") case "SVK" => Some("SK") case "SVN" => Some("SI") case "HUN" => Some("HU") case "ROU" => Some("RO")
    case "BGR" => Some("BG") case "GRC" => Some("GR") case "HRV" => Some("HR") case "LTU" => Some("LT") case "LVA" => Some("LV")
    case "EST" => Some("EE") case "MLT" => Some("MT") case "CYP" => Some("CY") case "JPN" => Some("JP") case "KOR" => Some("KR")
    case "SAU" => Some("SA") case "SGP" => Some("SG") case "USA" => Some("US")
    case _ => None
  }

  /**
   * The partial numeric-3 (zero-padded) to alpha-2 table of the map component
   * (`NUM_TO_A2`); `None` where the table has no entry. Every key is a
   * string of digits, so only a numeric id can be found in it.
   */
  function NumericToAlpha2(code: string): (r: Option<string>)
    ensures r.Some? ==> AllDigits(code)
  {
    match code
    case "356" => Some("IN") case "156" => Some("CN") case "524" => Some("NP") case "364" => Some("IR") case "760" => Some("SY")
    case "792" => Some("TR") case "250" => Some("FR") case "276" => Some("DE") case "380" => Some("IT") case "724" => Some("ES")
    case "620" => Some("PT") case "528" => Some("NL") case "056" => Some("BE") case "442" => Some("LU") case "372" => Some("IE")
    case "208" => Some("DK") case "752" => Some("SE") case "246" => Some("FI") case "040" => Some("AT") case "616" => Some("PL")
    case "203" => Some("CZ") case "703" => Some("SK") case "705" => Some("SI") case "348" => Some("HU") case "642" => Some("RO")
    case "100" => Some("BG") case "300" => Some("GR") case "191" => Some("HR") case "440" => Some("LT") case "428" => Some("LV")
    case "233" => Some("EE") case "470" => Some("MT") case "196" => Some("CY") case "392" => Some("JP") case "410" => Some("KR")
    case "682" => Some("SA") case "702" => Some("SG") case "840" => Some("US") case "826" => Some("GB") case "124" => Some("CA")
    case "036" => Some("AU") case "076" => Some("BR") case "784" => Some("AE")
    case _ => None
  }

  /** The property keys consulted, in order, for an alpha-2 and an alpha-3 code. */
  const A2_KEYS: seq<string> := ["ISO_A2", "iso_a2", "A2", "a2"]
  const A3_KEYS: seq<string> := ["ISO_A3", "iso_a3", "A3", "a3"]

  /**
   * A geographic feature: its property bag (a key is absent when the property
   * is `undefined` or `null`; values are already converted with `toString()`)
   * and its optional feature id, already converted with `String()`.
   */
  datatype Feature = Feature(props: map<string, string>, id: Option<string>)

  predicate IsCode2(s: string) {
    |s| == 2 && !IsAsciiLower(s[0]) && !IsAsciiLower(s[1])
  }

  /** Both tables map 3-character keys to upper-case 2-character codes. */
  lemma TablesHoldCodes(code: string)
    ensures Alpha3ToAlpha2(code).Some? ==> |code| == 3 && IsCode2(Alpha3ToAlpha2(code).value)
    ensures NumericToAlpha2(code).Some? ==> |code| == 3 && IsCode2(NumericToAlpha2(code).value)
  {
    Alpha3TableHoldsCodes(code);
    NumericTableHoldsCodes(code);
  }

  lemma Alpha3TableHoldsCodes(code: string)
    ensures Alpha3ToAlpha2(code).Some? ==> |code| == 3 && IsCode2(Alpha3ToAlpha2(code).value)
  {
  }

  lemma NumericTableHoldsCodes(code: string)
    ensures NumericToAlpha2(code).Some? ==> |code| == 3 && IsCode2(NumericToAlpha2(code).value)
  {
  }

  /**
   * `a ?? b ?? ...` over the properties named by `keys`: the value of the
   * first key that is present.
   */
  function Coalesce(props: map<string, string>, keys: seq<string>): (r: Option<string>)
    ensures r.None? <==> forall i :: 0 <= i < |keys| ==> keys[i] !in props
    ensures forall i :: 0 <= i < |keys| && keys[i] in props && (forall j :: 0 <= j < i ==> keys[j] !in props) ==>
              r == Some(props[keys[i]])
  {
    if keys == [] then None
    else if keys[0] in props then Some(props[keys[0]])
    else Coalesce(props, keys[1..])
  }

  /** The feature id: `geo.id ?? props.id`. */
  function RawId(f: Feature): (r: Option<string>)
    ensures f.id.Some? ==> r == f.id
    ensures f.id.None? ==> (r.Some? <==> "id" in f.props)
  {
    if f.id.Some? then f.id
    else if "id" in f.props then Some(f.props["id"])
    else None
  }

  /** `/^\d{1,3}$/.test(s)` */
  predicate IsShortNumeric(s: string) {
    1 <= |s| <= 3 && AllDigits(s)
  }

  /** The id path of `isoFromFeature`: numeric lookup, then alpha-2 as is, then alpha-3. */
  function IsoFromId(idStr: string): (r: string)
    ensures r == "" || IsCode2(r)
  {
    TablesHoldCodes(PadStart3(idStr));
    var idUp := Upper(idStr);
    TablesHoldCodes(idUp);
    if IsShortNumeric(idStr) && NumericToAlpha2(PadStart3(idStr)).Some? then NumericToAlpha2(PadStart3(idStr)).value
    else if |idUp| == 2 then idUp
    else if |idUp| == 3 && Alpha3ToAlpha2(idUp).Some? then Alpha3ToAlpha2(idUp).value
    else ""
  }

  /** The candidate alpha-2 code: the first alpha-2 alias present, upper-cased, or "". */
  function Alpha2Candidate(f: Feature): string {
    Upper(Coalesce(f.props, A2_KEYS).GetOr(""))
  }

  /** The candidate alpha-3 code: the first alpha-3 alias present, upper-cased, or "". */
  function Alpha3Candidate(f: Feature): string {
    Upper(Coalesce(f.props, A3_KEYS).GetOr(""))
  }

  /** `isoFromFeature`: never fails; "" means the feature could not be identified. */
  function IsoFromFeature(f: Feature): (r: string)
    ensures r == "" || IsCode2(r)
  {
    var iso2 := Alpha2Candidate(f);
    var iso3 := Alpha3Candidate(f);
    TablesHoldCodes(iso3);
    if |iso2| == 2 then iso2
    else if iso3 != "" && Alpha3ToAlpha2(iso3).Some? then Alpha3ToAlpha2(iso3).value
    else match RawId(f)
      case Some(idStr) => IsoFromId(idStr)
      case None => ""
  }

  /** `toIso2`: upper-case; keep 2-character codes; map known alpha-3 codes; keep anything else. */
  function ToIso2(code: string): (r: string)
    ensures |r| == 2 || r == Upper(code)
  {
    var up := Upper(code);
    if |up| == 2 then up
    else Alpha3ToAlpha2(up).GetOr(up)
  }

  // ---- Precedence and normalisation properties ----

  /**
   * The first alpha-2 alias present wins when its upper-cased value has two
   * characters, whatever the alpha-3 aliases and the id say.
   */
  lemma Alpha2AliasWins(f: Feature, i: nat)
    requires i < |A2_KEYS| && A2_KEYS[i] in f.props
    requires forall j :: 0 <= j < i ==> A2_KEYS[j] !in f.props
    requires |f.props[A2_KEYS[i]]| == 2
    ensures IsoFromFeature(f) == Upper(f.props[A2_KEYS[i]])
  {
  }

  /**
   * An empty `ISO_A2` property is not skipped by `??`: it hides the later
   * alpha-2 aliases, so they have no influence on the result.
   */
  lemma EmptyIsoA2Shadows(f: Feature)
    requires "ISO_A2" in f.props && f.props["ISO_A2"] == ""
    ensures Alpha2Candidate(f) == ""
    ensures IsoFromFeature(f) == IsoFromFeature(Feature(f.props - {"iso_a2", "A2", "a2"}, f.id))
  {
    var g := Feature(f.props - {"iso_a2", "A2", "a2"}, f.id);
    CoalesceIgnoresOtherKeys(f.props, {"iso_a2", "A2", "a2"}, A3_KEYS);
    CoalesceIgnoresOtherKeys(f.props, {"iso_a2", "A2", "a2"}, A2_KEYS[..1]);
    assert Alpha3Candidate(g) == Alpha3Candidate(f);
    assert RawId(g) == RawId(f);
  }

  lemma {:induction false} CoalesceIgnoresOtherKeys(props: map<string, string>, drop: set<string>, keys: seq<string>)
    requires forall i :: 0 <= i < |keys| ==> keys[i] !in drop
    ensures Coalesce(props - drop, keys) == Coalesce(props, keys)
  {
    if keys != [] && keys[0] !in props {
      CoalesceIgnoresOtherKeys(props, drop, keys[1..]);
    }
  }

  /** Without a usable alpha-2 code, a known alpha-3 alias decides. */
  lemma Alpha3AliasFallback(f: Feature)
    requires |Alpha2Candidate(f)| != 2
    requires Alpha3ToAlpha2(Alpha3Candidate(f)).Some?
    ensures IsoFromFeature(f) == Alpha3ToAlpha2(Alpha3Candidate(f)).value
  {
  }

  /** A feature whose only code is a known upper-case alpha-3 `ISO_A3` property gets its alpha-2 code. */
  lemma Alpha3OnlyFeature(code: string)
    requires Upper(code) == code && Alpha3ToAlpha2(code).Some?
    ensures IsoFromFeature(Feature(map["ISO_A3" := code], None)) == Alpha3ToAlpha2(code).value
  {
    var f := Feature(map["ISO_A3" := code], None);
    assert Coalesce(f.props, A2_KEYS) == None;
    assert Coalesce(f.props, A3_KEYS) == Some(code);
    Alpha3AliasFallback(f);
  }

  /** Otherwise the feature id decides, or the result is "" when there is none. */
  lemma IdFallback(f: Feature)
    requires |Alpha2Candidate(f)| != 2
    requires Alpha3ToAlpha2(Alpha3Candidate(f)).None?
    ensures RawId(f).Some? ==> IsoFromFeature(f) == IsoFromId(RawId(f).value)
    ensures RawId(f).None? ==> IsoFromFeature(f) == ""
  {
  }

  /** A short numeric id is zero-padded before the numeric table is consulted. */
  lemma NumericIdIsPadded(idStr: string)
    requires IsShortNumeric(idStr)
    requires NumericToAlpha2(PadStart3(idStr)).Some?
    ensures IsoFromId(idStr) == NumericToAlpha2(PadStart3(idStr)).value
  {
  }

  /** The numeric id "56" is padded to "056" and found: Belgium. */
  lemma UnpaddedNumericId()
    ensures IsoFromId("56") == "BE"
  {
    assert PadStart3("56") == "056";
    assert IsShortNumeric("56");
    assert NumericToAlpha2("056") == Some("BE");
  }

  lemma PaddedNumericId()
    ensures IsoFromId("056") == "BE" && IsoFromId("356") == "IN"
  {
    assert IsShortNumeric("056") && IsShortNumeric("356");
  }

  /**
   * After a numeric miss, a 2-character id is returned upper-cased as it is
   * (digits included), a 3-character id only through the alpha-3 table, and
   * anything else gives "".
   */
  lemma IdAfterNumericMiss(idStr: string)
    requires !(IsShortNumeric(idStr) && NumericToAlpha2(PadStart3(idStr)).Some?)
    ensures |idStr| == 2 ==> IsoFromId(idStr) == Upper(idStr)
    ensures |idStr| == 3 ==> IsoFromId(idStr) == Alpha3ToAlpha2(Upper(idStr)).GetOr("")
    ensures |idStr| != 2 && |idStr| != 3 ==> IsoFromId(idStr) == ""
  {
  }

  /** "12" is not in the numeric table but has two characters, so it is returned as is. */
  lemma TwoDigitIdMiss()
    ensures IsoFromId("12") == "12"
  {
    assert PadStart3("12") == "012";
    assert IsShortNumeric("12");
    assert NumericToAlpha2("012") == None;
    assert Upper("12") == "12";
  }

  /** "012" misses the numeric table and, with three characters, the alpha-3 table too. */
  lemma ThreeDigitIdMiss()
    ensures IsoFromId("012") == ""
  {
    assert IsShortNumeric("012");
    assert Upper("012") == "012";
    assert Alpha3ToAlpha2("012") == None;
  }

  /** A lower-case alpha-3 id is upper-cased before the alpha-3 table is consulted. */
  lemma LowerCaseAlpha3Id()
    ensures IsoFromId("fra") == "FR"
  {
    assert !IsAsciiDigit("fra"[0]);
    assert Upper("fra") == "FRA";
  }

  /** A feature that carries no code and no id normalises to "". */
  lemma NoIdentifierGivesEmpty(f: Feature)
    requires forall i :: 0 <= i < |A2_KEYS| ==> A2_KEYS[i] !in f.props
    requires forall i :: 0 <= i < |A3_KEYS| ==> A3_KEYS[i] !in f.props
    requires f.id.None? && "id" !in f.props
    ensures IsoFromFeature(f) == ""
  {
  }

  /** Normalising an already canonical code, in either entry point, changes nothing. */
  lemma CanonicalCodeIsFixed(code: string)
    requires IsCode2(code)
    ensures ToIso2(code) == code
    ensures IsoFromFeature(Feature(map["ISO_A2" := code], None)) == code
  {
    assert Upper(code) == code;
    assert Coalesce(map["ISO_A2" := code], A2_KEYS) == Some(code);
  }

  /** `toIso2` keeps 2-character codes and codes the alpha-3 table does not know. */
  lemma ToIso2KeepsUnknown(code: string)
    requires |code| == 2 || Alpha3ToAlpha2(Upper(code)).None?
    ensures ToIso2(code) == Upper(code)
  {
  }

  /** `toIso2` maps a known alpha-3 code, in any letter case, to its alpha-2 code. */
  lemma ToIso2MapsKnownAlpha3(code: string)
    requires Alpha3ToAlpha2(Upper(code)).Some?
    ensures ToIso2(code) == Alpha3ToAlpha2(Upper(code)).value
    ensures IsCode2(ToIso2(code))
  {
    TablesHoldCodes(Upper(code));
  }
}
