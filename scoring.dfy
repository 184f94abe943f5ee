/**
 * The readiness scoring arithmetic of the back end: text-to-boolean parsing,
 * the additive policy score, the infrastructure adjustment, the language
 * placeholder, the inverse risk heuristic and the readiness formula.
 * Scores are exact reals.
 */
module Scoring {
  import opened Wrappers
  import opened Text

  const TRUTHY: set<string> := {"1", "true", "yes", "y"}

  /** `_bool`: `None` is false; otherwise the stripped, lower-cased text must be a truthy word. */
  function ParseBool(val: Option<string>): (r: bool)
    ensures val.None? ==> !r
    ensures r ==> 1 <= |Strip(val.value)| <= 4
  {
    assert forall t | t in TRUTHY :: 1 <= |t| <= 4;
    match val
    case None => false
    case Some(s) => Lower(Strip(s)) in TRUTHY
  }

  /** Whitespace around the text never changes the outcome. */
  lemma ParseBoolIgnoresPadding(w1: string, s: string, w2: string)
    requires AllWhitespace(w1) && AllWhitespace(w2)
    ensures ParseBool(Some(w1 + s + w2)) == ParseBool(Some(s))
  {
    StripIgnoresPadding(w1, s, w2);
  }

  /** Texts that differ only in letter case parse alike. */
  lemma ParseBoolIgnoresCase(s: string, t: string)
    requires Lower(s) == Lower(t)
    ensures ParseBool(Some(s)) == ParseBool(Some(t))
  {
    LowerStrip(s);
    LowerStrip(t);
  }

  /** Every truthy word, in any letter case and with any surrounding whitespace, parses as true. */
  lemma TruthyWordParses(w1: string, s: string, w2: string)
    requires AllWhitespace(w1) && AllWhitespace(w2) && Lower(s) in TRUTHY
    ensures ParseBool(Some(w1 + s + w2))
  {
    var n := |s| - 1;
    LowerKeepsWhitespace(s[0]);
    LowerKeepsWhitespace(s[n]);
    assert Lower(s)[0] == LowerChar(s[0]) && Lower(s)[n] == LowerChar(s[n]);
    StripUnpadded(s);
    ParseBoolIgnoresPadding(w1, s, w2);
  }

  lemma FalseWordParsesFalse()
    ensures !ParseBool(Some("false"))
  {
    var w := "false";
    StripUnpadded(w);
    assert |Lower(Strip(w))| == 5;
    assert forall t | t in TRUTHY :: |t| != 5;
  }

  lemma TrueWordParsesTrue()
    ensures ParseBool(Some("true"))
  {
    var w := "true";
    assert w[0] == 't' && w[3] == 'e';
    StripUnpadded(w);
    assert forall i :: 0 <= i < |w| ==> !IsAsciiUpper(w[i]);
    LowerIdentity(w);
    assert Lower(Strip(w)) == w;
  }

  /** `dict.get` */
  function Lookup<V>(m: map<string, V>, key: string): Option<V> {
    if key in m then Some(m[key]) else None
  }

  /** Python's `a or b` on two optional strings: `a` when it is present and non-empty, else `b`. */
  function PyOr(a: Option<string>, b: Option<string>): (r: Option<string>)
    ensures a.Some? && a.value != "" ==> r == a
    ensures !(a.Some? && a.value != "") ==> r == b
  {
    if a.Some? && a.value != "" then a else b
  }

  /** The policy flags of `_compute_policy_score`. */
  datatype PolicyFlags = PolicyFlags(dataLocalization: bool, aiSystems: bool, crossBorder: bool)

  /** One flag: the normalised key, or the legacy key when the normalised one is absent or empty. */
  function Flag(indicators: map<string, string>, key: string, legacy: string): (r: bool)
    ensures r ==> key in indicators || legacy in indicators
  {
    ParseBool(PyOr(Lookup(indicators, key), Lookup(indicators, legacy)))
  }

  /** The three policy flags; with no indicator rows at all, none is set. */
  function Flags(indicators: map<string, string>): (r: PolicyFlags)
    ensures indicators == map[] ==> r == PolicyFlags(false, false, false)
  {
    PolicyFlags(
      Flag(indicators, "mentions_data_localization", "data_residency_required"),
      Flag(indicators, "mentions_ai_systems", "ai_registry_required"),
      Flag(indicators, "mentions_cross_border", "cross_border_restrictions"))
  }

  /** A present, non-empty normalised value decides alone, whatever the legacy key says. */
  lemma NormalisedKeyDecides(indicators: map<string, string>, key: string, legacy: string)
    requires key in indicators && indicators[key] != ""
    ensures Flag(indicators, key, legacy) == ParseBool(Some(indicators[key]))
  {
  }

  /** The legacy key is consulted only when the normalised key is absent or empty. */
  lemma LegacyKeyFallback(indicators: map<string, string>, key: string, legacy: string)
    requires key !in indicators || indicators[key] == ""
    ensures Flag(indicators, key, legacy) == ParseBool(Lookup(indicators, legacy))
  {
  }

  /** A normalised "false" is not overridden by a legacy "true". */
  lemma NormalisedFalseBeatsLegacyTrue()
    ensures !Flags(map["mentions_ai_systems" := "false", "ai_registry_required" := "true"]).aiSystems
  {
    FalseWordParsesFalse();
  }

  /** `max(lo, min(hi, x))` */
  function Clamp(x: real, lo: real, hi: real): (r: real)
    requires lo <= hi
    ensures lo <= r <= hi
    ensures lo <= x <= hi ==> r == x
    ensures x < lo ==> r == lo
    ensures hi < x ==> r == hi
  {
    if hi < x then (if lo < hi then hi else lo) else if lo < x then x else lo
  }

  /** 1 for a set flag, 0 otherwise. */
  function Weight(b: bool): real {
    if b then 1.0 else 0.0
  }

  /** The straight-line accumulation of `_compute_policy_score` before the clamp. */
  function AccumulatedPolicyScore(flags: PolicyFlags): real {
    var s0 := 50.0;
    var s1 := if flags.dataLocalization then s0 + 15.0 else s0;
    var s2 := if flags.aiSystems then s1 + 10.0 else s1;
    if flags.crossBorder then s2 + 5.0 else s2
  }

  /** `_compute_policy_score`: the clamped score and the flags it was computed from. */
  function ComputePolicyScore(indicators: map<string, string>): (r: (real, PolicyFlags))
    ensures r.1 == Flags(indicators)
    ensures 50.0 <= r.0 <= 80.0
    ensures r.0 == 50.0 + 15.0 * Weight(r.1.dataLocalization) + 10.0 * Weight(r.1.aiSystems) +
                   5.0 * Weight(r.1.crossBorder)
  {
    var flags := Flags(indicators);
    (Clamp(AccumulatedPolicyScore(flags), 0.0, 100.0), flags)
  }

  /** The clamp to [0, 100] never changes the policy score. */
  lemma PolicyClampIsInert(flags: PolicyFlags)
    ensures Clamp(AccumulatedPolicyScore(flags), 0.0, 100.0) == AccumulatedPolicyScore(flags)
  {
  }

  /** Two flags set: 50 + 15 + 10. */
  lemma PolicyScoreExample()
    ensures ComputePolicyScore(map["mentions_data_localization" := "true", "mentions_ai_systems" := "true",
                                   "mentions_cross_border" := "false"]) ==
            (75.0, PolicyFlags(true, true, false))
  {
    var m := map["mentions_data_localization" := "true", "mentions_ai_systems" := "true",
                 "mentions_cross_border" := "false"];
    NormalisedKeyDecides(m, "mentions_data_localization", "data_residency_required");
    NormalisedKeyDecides(m, "mentions_ai_systems", "ai_registry_required");
    NormalisedKeyDecides(m, "mentions_cross_border", "cross_border_restrictions");
    TrueWordParsesTrue();
    FalseWordParsesFalse();
    var f := Flags(m);
    assert f == PolicyFlags(true, true, false);
  }

  datatype Confidence = Low | Medium {
    function Name(): string {
      match this
      case Low => "low"
      case Medium => "medium"
    }
  }

  /** The infrastructure formula: the GPU index lowered by a tenth of the power cost above 50. */
  function InfraAdjusted(gpu: real, power: real): (r: real)
    ensures 0.0 <= r <= 100.0
  {
    Clamp(gpu - (power - 50.0) * 0.1, 0.0, 100.0)
  }

  /** `_compute_infra_score`: neutral 50 with low confidence when there are no signals. */
  function ComputeInfraScore(infra: map<string, real>): (r: (real, Confidence))
    ensures |infra| == 0 ==> r == (50.0, Low)
    ensures |infra| != 0 ==> r.1 == Medium
    ensures |infra| != 0 ==> r.0 == InfraAdjusted(Lookup(infra, "gpu_capacity_index").GetOr(50.0),
                                                  Lookup(infra, "power_cost_index").GetOr(50.0))
    ensures 0.0 <= r.0 <= 100.0
  {
    if |infra| == 0 then (50.0, Low)
    else
      var base := Lookup(infra, "gpu_capacity_index").GetOr(50.0);
      var powerCost := Lookup(infra, "power_cost_index").GetOr(50.0);
      (InfraAdjusted(base, powerCost), Medium)
  }

  /** More GPU capacity never lowers the score; a higher power cost never raises it. */
  lemma InfraMonotone(gpu1: real, power1: real, gpu2: real, power2: real)
    requires gpu1 <= gpu2 && power2 <= power1
    ensures InfraAdjusted(gpu1, power1) <= InfraAdjusted(gpu2, power2)
  {
  }

  /** Signals present but neither metric among them: both default to 50, giving 50. */
  lemma InfraMissingMetricsDefault(infra: map<string, real>)
    requires |infra| != 0 && "gpu_capacity_index" !in infra && "power_cost_index" !in infra
    ensures ComputeInfraScore(infra) == (50.0, Medium)
  {
  }

  lemma InfraExample()
    ensures ComputeInfraScore(map[]) == (50.0, Low)
    ensures ComputeInfraScore(map["gpu_capacity_index" := 60.0, "power_cost_index" := 70.0]) == (58.0, Medium)
  {
    var m := map["gpu_capacity_index" := 60.0, "power_cost_index" := 70.0];
    assert |m| != 0 by { assert "gpu_capacity_index" in m; }
  }

  /** `_compute_language_score`: 70 for "IN" and "EU" in any letter case, 55 otherwise. */
  function LanguageScore(isoCode: string): (r: real)
    ensures r == 70.0 <==> Upper(isoCode) == "IN" || Upper(isoCode) == "EU"
    ensures r != 70.0 ==> r == 55.0
  {
    if Upper(isoCode) in {"IN", "EU"} then 70.0 else 55.0
  }

  lemma LanguageExamples()
    ensures LanguageScore("EU") == 70.0 && LanguageScore("in") == 70.0 && LanguageScore("US") == 55.0
  {
    assert Upper("EU") == "EU" && Upper("in") == "IN" && Upper("US") == "US";
  }

  /** The weighted composite of the three positive components. */
  function Composite(policy: real, infra: real, language: real): real {
    0.4 * policy + 0.3 * infra + 0.2 * language
  }

  /** `_compute_risk_score`: 100 minus the composite, clamped to [0, 100]. */
  function RiskScore(policy: real, infra: real, language: real): (r: real)
    ensures 0.0 <= r <= 100.0
  {
    Clamp(100.0 - Composite(policy, infra, language), 0.0, 100.0)
  }

  /** Higher components never raise the risk. */
  lemma RiskAntitone(p1: real, i1: real, l1: real, p2: real, i2: real, l2: real)
    requires p1 <= p2 && i1 <= i2 && l1 <= l2
    ensures RiskScore(p2, i2, l2) <= RiskScore(p1, i1, l1)
  {
  }

  lemma RiskExample()
    ensures RiskScore(80.0, 60.0, 70.0) == 36.0
  {
  }

  /** The readiness formula. */
  function Readiness(policy: real, infra: real, language: real, risk: real): (r: real)
    ensures 0.0 <= policy <= 100.0 && 0.0 <= infra <= 100.0 && 0.0 <= language <= 100.0 && 0.0 <= risk <= 100.0 ==>
              -10.0 <= r <= 90.0
    ensures risk == 100.0 - Composite(policy, infra, language) ==> r == 1.1 * Composite(policy, infra, language) - 10.0
  {
    0.4 * policy + 0.3 * infra + 0.2 * language - 0.1 * risk
  }

  datatype CountryScores = CountryScores(readiness: real, policy: real, infra: real, language: real, risk: real)

  /** The per-country computation of `compute_scores`, without the database reads and writes. */
  function ScoreCountry(indicators: map<string, string>, infra: map<string, real>, isoCode: string): (s: CountryScores)
    ensures 50.0 <= s.policy <= 80.0 && 0.0 <= s.infra <= 100.0 && (s.language == 55.0 || s.language == 70.0)
    ensures 0.0 <= s.risk <= 100.0
  {
    var policy := ComputePolicyScore(indicators).0;
    var infraScore := ComputeInfraScore(infra).0;
    var language := LanguageScore(isoCode);
    var risk := RiskScore(policy, infraScore, language);
    CountryScores(Readiness(policy, infraScore, language, risk), policy, infraScore, language, risk)
  }

  /**
   * For every input the risk clamp is inert, so readiness is 1.1 times the
   * composite minus 10, and lies in [24.1, 73.6].
   */
  lemma ReadinessFromComposite(indicators: map<string, string>, infra: map<string, real>, isoCode: string)
    ensures var s := ScoreCountry(indicators, infra, isoCode);
            && s.risk == 100.0 - Composite(s.policy, s.infra, s.language)
            && s.readiness == 1.1 * Composite(s.policy, s.infra, s.language) - 10.0
            && 24.1 <= s.readiness <= 73.6
  {
    var s := ScoreCountry(indicators, infra, isoCode);
    var c := Composite(s.policy, s.infra, s.language);
    assert 31.0 <= c <= 76.0;
  }
}
