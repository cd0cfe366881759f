/**
 * The two closed enumerations of the customer file: the area a customer
 * lives in and the standard (service tier) they expect. `Find` is the
 * `Area.find` / `Standard.find` lookup: member by exact name, or `None`.
 */
module Enums {
  import opened Wrappers

  datatype Area = Northtown | Westville | Downtown | Docks | Suburbia | Uptown

  /** The Python member name, which is what `Area[key]` matches against. */
  function AreaName(a: Area): string {
    match a
    case Northtown => "NORTHTOWN"
    case Westville => "WESTVILLE"
    case Downtown => "DOWNTOWN"
    case Docks => "DOCKS"
    case Suburbia => "SUBURBIA"
    case Uptown => "UPTOWN"
  }

  /** `Area.find(key)`: the member called exactly `key`, else `None`; never fails. */
  function FindArea(key: string): (r: Option<Area>)
    ensures r.Some? ==> AreaName(r.value) == key
    ensures r.None? ==> forall a: Area :: AreaName(a) != key
  {
    if key == "NORTHTOWN" then Some(Northtown)
    else if key == "WESTVILLE" then Some(Westville)
    else if key == "DOWNTOWN" then Some(Downtown)
    else if key == "DOCKS" then Some(Docks)
    else if key == "SUBURBIA" then Some(Suburbia)
    else if key == "UPTOWN" then Some(Uptown)
    else None
  }

  /** Every member is found under its own name, so names are distinct. */
  lemma FindAreaName(a: Area)
    ensures FindArea(AreaName(a)) == Some(a)
  {
  }

  /** Lookup is case-sensitive: a lower-case spelling is not a member name. */
  lemma FindAreaIsExact()
    ensures FindArea("docks") == None
    ensures FindArea("DOCKS") == Some(Docks)
  {
  }

  datatype Standard = VeryLow | Low | Moderate | High | VeryHigh

  function StandardName(s: Standard): string {
    match s
    case VeryLow => "VERY_LOW"
    case Low => "LOW"
    case Moderate => "MODERATE"
    case High => "HIGH"
    case VeryHigh => "VERY_HIGH"
  }

  /** `Standard.find(key)`: the member called exactly `key`, else `None`. */
  function FindStandard(key: string): (r: Option<Standard>)
    ensures r.Some? ==> StandardName(r.value) == key
    ensures r.None? ==> forall s: Standard :: StandardName(s) != key
  {
    if key == "VERY_LOW" then Some(VeryLow)
    else if key == "LOW" then Some(Low)
    else if key == "MODERATE" then Some(Moderate)
    else if key == "HIGH" then Some(High)
    else if key == "VERY_HIGH" then Some(VeryHigh)
    else None
  }

  lemma FindStandardName(s: Standard)
    ensures FindStandard(StandardName(s)) == Some(s)
  {
  }
}
