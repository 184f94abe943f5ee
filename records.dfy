/**
 * The per-country summary record the front end receives from the API
 * (`CountrySummary` in ui-frontend/src/api.ts). Every score is optional:
 * `None` stands for both `null` and a missing field.
 */
module Records {
  import opened Wrappers

  datatype CountrySummary = CountrySummary(
    isoCode: string,
    name: string,
    readiness: Option<real>,
    policy: Option<real>,
    infra: Option<real>,
    language: Option<real>,
    risk: Option<real>)
}
