/**
 * The comparison page: the selector options, the bar-chart rows and the
 * one-line insight comparing the first two selected countries.
 */
module Compare {
  import opened Wrappers
  import opened Records

  datatype SelectOption = SelectOption(value: string, text: string)

  /** `all.map(...)`: one option per record, in order, valued by code and labelled "name (code)". */
  function Options(all: seq<CountrySummary>): (r: seq<SelectOption>)
    ensures |r| == |all|
    ensures forall i :: 0 <= i < |all| ==>
              r[i].value == all[i].isoCode &&
              r[i].text == all[i].name + " (" + all[i].isoCode + ")"
  {
    if all == [] then []
    else
      var c := all[0];
      [SelectOption(c.isoCode, c.name + " (" + c.isoCode + ")")] + Options(all[1..])
  }

  datatype ChartRow = ChartRow(iso: string, policy: real, infra: real, language: real)

  /** `(data || []).map(...)`: one bar group per record, in order, missing components drawn as 0. */
  function ChartData(data: Option<seq<CountrySummary>>): (r: seq<ChartRow>)
    ensures data.None? ==> r == []
    ensures data.Some? ==> |r| == |data.value|
    ensures data.Some? ==> forall i :: 0 <= i < |r| ==>
              var c := data.value[i];
              r[i] == ChartRow(c.isoCode, c.policy.GetOr(0.0), c.infra.GetOr(0.0), c.language.GetOr(0.0))
  {
    match data
    case None => []
    case Some(records) => Rows(records)
  }

  function Rows(records: seq<CountrySummary>): (r: seq<ChartRow>)
    ensures |r| == |records|
    ensures forall i :: 0 <= i < |r| ==>
              var c := records[i];
              r[i] == ChartRow(c.isoCode, c.policy.GetOr(0.0), c.infra.GetOr(0.0), c.language.GetOr(0.0))
  {
    if records == [] then []
    else
      var c := records[0];
      [ChartRow(c.isoCode, c.policy.GetOr(0.0), c.infra.GetOr(0.0), c.language.GetOr(0.0))] + Rows(records[1..])
  }

  datatype Dimension = Policy | Infra | Language {
    function Name(): string {
      match this
      case Policy => "policy"
      case Infra => "infra"
      case Language => "language"
    }
  }

  function Score(c: CountrySummary, d: Dimension): Option<real> {
    match d
    case Policy => c.policy
    case Infra => c.infra
    case Language => c.language
  }

  /** `stronger`: at least as high, missing scores read as 0. */
  predicate Stronger(x: Option<real>, y: Option<real>) {
    x.GetOr(0.0) >= y.GetOr(0.0)
  }

  /** The code named as stronger in dimension `d`: `a`'s unless `b` scores strictly higher. */
  function Winner(a: CountrySummary, b: CountrySummary, d: Dimension): (r: string)
    ensures r == a.isoCode || r == b.isoCode
    ensures Score(a, d).GetOr(0.0) >= Score(b, d).GetOr(0.0) ==> r == a.isoCode
    ensures Score(a, d).GetOr(0.0) < Score(b, d).GetOr(0.0) ==> r == b.isoCode
  {
    if Stronger(Score(a, d), Score(b, d)) then a.isoCode else b.isoCode
  }

  function Clause(a: CountrySummary, b: CountrySummary, d: Dimension): string {
    Winner(a, b, d) + " stronger in " + d.Name()
  }

  /** `parts.join(sep)` */
  function Join(parts: seq<string>, sep: string): string {
    if parts == [] then ""
    else if |parts| == 1 then parts[0]
    else parts[0] + sep + Join(parts[1..], sep)
  }

  /**
   * The insight text: three clauses about the first two records, and empty
   * exactly when there is no data or fewer than two records.
   */
  function Insight(data: Option<seq<CountrySummary>>): (r: string)
    ensures r == "" <==> data.None? || |data.value| < 2
  {
    if data.None? || |data.value| < 2 then ""
    else
      var a, b := data.value[0], data.value[1];
      Join([Clause(a, b, Policy), Clause(a, b, Infra), Clause(a, b, Language)], ", ")
  }

  lemma JoinThree(x: string, y: string, z: string, sep: string)
    ensures Join([x, y, z], sep) == x + sep + y + sep + z
  {
    var parts := [x, y, z];
    assert parts[1..][1..] == [z];
    assert Join(parts[1..], sep) == y + sep + z;
  }

  lemma Regroup(w1: string, p1: string, w2: string, p2: string, w3: string, p3: string, sep: string)
    ensures (w1 + p1) + sep + (w2 + p2) + sep + (w3 + p3) == w1 + (p1 + sep) + w2 + (p2 + sep) + w3 + p3
  {
  }

  /**
   * With two or more records the insight names, for policy, infra and
   * language in that order, the stronger of the first two, separated by ", ".
   */
  lemma InsightClauses(records: seq<CountrySummary>)
    requires |records| >= 2
    ensures var a, b := records[0], records[1];
            Insight(Some(records)) ==
              Winner(a, b, Policy) + " stronger in policy, " +
              Winner(a, b, Infra) + " stronger in infra, " +
              Winner(a, b, Language) + " stronger in language"
  {
    var a, b := records[0], records[1];
    var w1, w2, w3 := Winner(a, b, Policy), Winner(a, b, Infra), Winner(a, b, Language);
    var p1, p2, p3 := " stronger in " + "policy", " stronger in " + "infra", " stronger in " + "language";
    calc {
      Insight(Some(records));
      Join([Clause(a, b, Policy), Clause(a, b, Infra), Clause(a, b, Language)], ", ");
      { ClauseParts(a, b, Policy); ClauseParts(a, b, Infra); ClauseParts(a, b, Language); }
      Join([w1 + p1, w2 + p2, w3 + p3], ", ");
      { JoinThree(w1 + p1, w2 + p2, w3 + p3, ", "); }
      (w1 + p1) + ", " + (w2 + p2) + ", " + (w3 + p3);
      { Regroup(w1, p1, w2, p2, w3, p3, ", "); }
      w1 + (p1 + ", ") + w2 + (p2 + ", ") + w3 + p3;
      { ClauseSuffixes(); }
      w1 + " stronger in policy, " + w2 + " stronger in infra, " + w3 + " stronger in language";
    }
  }

  lemma ClauseParts(a: CountrySummary, b: CountrySummary, d: Dimension)
    ensures Clause(a, b, d) == Winner(a, b, d) + (" stronger in " + d.Name())
  {
  }

  /** The fixed text around each winner. */
  lemma ClauseSuffixes()
    ensures (" stronger in " + "policy") + ", " == " stronger in policy, "
    ensures (" stronger in " + "infra") + ", " == " stronger in infra, "
    ensures " stronger in " + "language" == " stronger in language"
  {
  }

  /** Only the first two records matter. */
  lemma InsightIgnoresLaterRecords(records: seq<CountrySummary>, later: seq<CountrySummary>)
    requires |records| >= 2
    ensures Insight(Some(records + later)) == Insight(Some(records[..2]))
  {
  }

  /** Swapping the two records changes a clause only where their scores tie. */
  lemma SwapChangesOnlyTies(a: CountrySummary, b: CountrySummary, d: Dimension)
    ensures Score(a, d).GetOr(0.0) != Score(b, d).GetOr(0.0) ==> Winner(b, a, d) == Winner(a, b, d)
    ensures Score(a, d).GetOr(0.0) == Score(b, d).GetOr(0.0) ==> Winner(a, b, d) == a.isoCode && Winner(b, a, d) == b.isoCode
  {
  }
}
