/**
 * The countries table: a readiness badge coloured by band, and the detail
 * page route a row click navigates to.
 */
module CountryTable {
  import opened Wrappers

  datatype BadgeColor = Teal | Yellow | Red {
    function Name(): string {
      match this
      case Teal => "teal"
      case Yellow => "yellow"
      case Red => "red"
    }

    /** Red below yellow below teal. */
    function Rank(): nat {
      match this
      case Red => 0
      case Yellow => 1
      case Teal => 2
    }
  }

  /** `badgeColor`: a missing value reads as 0; teal from 70, yellow from 50, red below. */
  function Badge(value: Option<real>): (r: BadgeColor)
    ensures r == Teal <==> value.GetOr(0.0) >= 70.0
    ensures r == Yellow <==> 50.0 <= value.GetOr(0.0) < 70.0
    ensures r == Red <==> value.GetOr(0.0) < 50.0
  {
    var v := value.GetOr(0.0);
    if v >= 70.0 then Teal
    else if v >= 50.0 then Yellow
    else Red
  }

  /** A missing value is red, and the band boundaries belong to the upper band. */
  lemma BadgeEdges()
    ensures Badge(None) == Red
    ensures Badge(Some(70.0)) == Teal && Badge(Some(50.0)) == Yellow
    ensures Badge(Some(69.9)) == Yellow && Badge(Some(49.9)) == Red
  {
  }

  /** A higher value never gets a lower band. */
  lemma BadgeMonotone(a: Option<real>, b: Option<real>)
    requires a.GetOr(0.0) <= b.GetOr(0.0)
    ensures Badge(a).Rank() <= Badge(b).Rank()
  {
  }

  const COUNTRY_ROUTE_PREFIX := "/country/"

  /** The route a row click navigates to. */
  function RowRoute(isoCode: string): (r: string)
    ensures |r| == |COUNTRY_ROUTE_PREFIX| + |isoCode|
    ensures r[..|COUNTRY_ROUTE_PREFIX|] == COUNTRY_ROUTE_PREFIX && r[|COUNTRY_ROUTE_PREFIX|..] == isoCode
  {
    COUNTRY_ROUTE_PREFIX + isoCode
  }

  /** Distinct codes lead to distinct routes, so each row opens its own country. */
  lemma RowRouteInjective(a: string, b: string)
    requires RowRoute(a) == RowRoute(b)
    ensures a == b
  {
    assert a == RowRoute(a)[|COUNTRY_ROUTE_PREFIX|..];
  }
}
