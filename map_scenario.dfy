/**
 * The map component's hover-and-click scenario: India identified by its
 * numeric id "356", France by its alpha-3 property and shown as the EU.
 */
module MapScenario {
  import opened Wrappers
  import opened Text
  import opened Records
  import opened IsoCodes
  import opened CountryIndex
  import opened WorldMap

  const INDIA := CountrySummary("IN", "India", Some(60.0), Some(70.0), Some(55.0), Some(70.0), Some(40.0))
  const EU := CountrySummary("EU", "European Union", Some(65.0), None, None, None, None)
  const DATA := [INDIA, EU]

  const INDIA_SHAPE := Feature(map["NAME_LONG" := "India"], Some("356"))
  const FRANCE_SHAPE := Feature(map["ISO_A3" := "FRA", "NAME_LONG" := "France"], None)

  lemma ScenarioIndex()
    ensures Index(DATA) == map["IN" := INDIA, "EU" := EU]
  {
    assert Upper("IN") == "IN" && Upper("EU") == "EU";
    assert DATA[..1] == [INDIA];
    assert [INDIA][..0] == [];
    assert Index([INDIA]) == map["IN" := INDIA];
  }

  lemma IndiaIdentifier()
    ensures IsoFromFeature(INDIA_SHAPE) == "IN"
  {
    assert Coalesce(INDIA_SHAPE.props, A2_KEYS) == None;
    assert Coalesce(INDIA_SHAPE.props, A3_KEYS) == None;
    assert Alpha2Candidate(INDIA_SHAPE) == "" && Alpha3Candidate(INDIA_SHAPE) == "";
    assert Alpha3ToAlpha2("") == None;
    IdFallback(INDIA_SHAPE);
    PaddedNumericId();
  }

  lemma FranceIdentifier()
    ensures IsoFromFeature(FRANCE_SHAPE) == "FR"
  {
    assert Coalesce(FRANCE_SHAPE.props, A2_KEYS) == None;
    assert Coalesce(FRANCE_SHAPE.props, A3_KEYS) == Some("FRA");
    assert Upper("FRA") == "FRA";
    assert Alpha2Candidate(FRANCE_SHAPE) == "" && Alpha3Candidate(FRANCE_SHAPE) == "FRA";
    Alpha3AliasFallback(FRANCE_SHAPE);
  }

  /** India: its own record, score 60 in the high band, clicks through to "IN". */
  lemma IndiaResolves()
    ensures Resolve(Index(DATA), INDIA_SHAPE) ==
            Binding("IN", "India", Some(INDIA), Some(60.0), HIGH_COLOR, true, "India", "IN")
  {
    ScenarioIndex();
    IndiaIdentifier();
    NameLongWins(INDIA_SHAPE);
    IndiaIsNotMember();
  }

  lemma IndiaIsNotMember()
    ensures "IN" !in EU_SET
  {
  }

  /** France: no record of its own, so the EU record, name and target. */
  lemma FranceResolvesToEu()
    ensures Resolve(Index(DATA), FRANCE_SHAPE) ==
            Binding("FR", "France", Some(EU), Some(65.0), HIGH_COLOR, true, "European Union", "EU")
  {
    ScenarioIndex();
    FranceIdentifier();
    NameLongWins(FRANCE_SHAPE);
    FranceIsMember();
  }

  lemma FranceIsMember()
    ensures "FR" in EU_SET
  {
  }

  /** Hovering India, clicking it, then hovering France. */
  method HoverAndClick() returns (clicked: seq<string>, card: Option<HoverCard>)
    ensures clicked == ["IN"]
    ensures card == Some(HoverCard("European Union", "EU", Some(65.0), 120.0, 110.0))
  {
    var m := BuildCountryMap(DATA);
    IndiaResolves();
    FranceResolvesToEu();
    var ui := new MapController(true);
    var india := Resolve(m, INDIA_SHAPE);
    ui.MouseMove(india, 100.0, 100.0);
    assert ui.hover == Some(HoverCard("India", "IN", Some(60.0), 100.0, 100.0));
    ui.Click(india);
    var france := Resolve(m, FRANCE_SHAPE);
    ui.MouseMove(france, 120.0, 110.0);
    clicked, card := ui.navigated, ui.hover;
  }
}
