/**
 * OpenStreetMap vocabularies: way types with their road-class order and implied
 * one-way flag, and junction types. Lookups by name are case-insensitive and never
 * throw: an unknown or null name gives nothing.
 */
module Osm {
  import opened Util

  /** The OSM highway classes the engine distinguishes. */
  datatype WayType =
    | Motorway | Trunk | Primary | Secondary | Tertiary | Unclassified | Residential | Service
    | MotorwayLink | TrunkLink | PrimaryLink | SecondaryLink | TertiaryLink
    | LivingStreet
    | Unknown
  {
    /** The enum constant's name, as `valueOf` matches it. */
    function Name(): string
    {
      match this
      case Motorway => "MOTORWAY"
      case Trunk => "TRUNK"
      case Primary => "PRIMARY"
      case Secondary => "SECONDARY"
      case Tertiary => "TERTIARY"
      case Unclassified => "UNCLASSIFIED"
      case Residential => "RESIDENTIAL"
      case Service => "SERVICE"
      case MotorwayLink => "MOTORWAY_LINK"
      case TrunkLink => "TRUNK_LINK"
      case PrimaryLink => "PRIMARY_LINK"
      case SecondaryLink => "SECONDARY_LINK"
      case TertiaryLink => "TERTIARY_LINK"
      case LivingStreet => "LIVING_STREET"
      case Unknown => "UNKNOWN"
    }

    predicate IsLink()
    {
      this in {MotorwayLink, TrunkLink, PrimaryLink, SecondaryLink, TertiaryLink}
    }

    /** The main road class a link type belongs to. */
    function LinkedClass(): WayType
      requires IsLink()
    {
      match this
      case MotorwayLink => Motorway
      case TrunkLink => Trunk
      case PrimaryLink => Primary
      case SecondaryLink => Secondary
      case TertiaryLink => Tertiary
    }

    /**
     * The precedence of the way: motorway 1 up to service 8, each link type one rank
     * below its main class, living street 8, unknown 10.
     */
    function Order(): (r: int)
      ensures 1 <= r <= 10
      ensures r == 10 <==> this == Unknown
      ensures r == 1 <==> this == Motorway
    {
      match this
      case Motorway => 1
      case Trunk => 2
      case Primary => 3
      case Secondary => 4
      case Tertiary => 5
      case Unclassified => 6
      case Residential => 7
      case Service => 8
      case MotorwayLink => 2
      case TrunkLink => 3
      case PrimaryLink => 4
      case SecondaryLink => 5
      case TertiaryLink => 6
      case LivingStreet => 8
      case Unknown => 10
    }

    /** Only the motorway classes imply a one-way road. */
    function OneWayImplied(): (r: bool)
      ensures r <==> this == Motorway || this == MotorwayLink
    {
      this == Motorway || this == MotorwayLink
    }
  }

  /** Each link type ranks one below its main class. */
  lemma LinkOrder(w: WayType)
    requires w.IsLink()
    ensures w.Order() == w.LinkedClass().Order() + 1
  {}

  const WAY_TYPES: seq<WayType> :=
    [Motorway, Trunk, Primary, Secondary, Tertiary, Unclassified, Residential, Service,
     MotorwayLink, TrunkLink, PrimaryLink, SecondaryLink, TertiaryLink, LivingStreet, Unknown]

  /** The first way type in `types` whose name is `name`. */
  function FindWayType(types: seq<WayType>, name: string): (r: Option<WayType>)
    ensures r.Some? ==> r.value in types && r.value.Name() == name
    ensures r.None? ==> forall w :: w in types ==> w.Name() != name
  {
    if types == [] then None
    else if types[0].Name() == name then Some(types[0])
    else FindWayType(types[1..], name)
  }

  lemma WayTypesComplete(w: WayType)
    ensures w in WAY_TYPES
  {}

  lemma WayTypeNamesDistinct(v: WayType, w: WayType)
    requires v.Name() == w.Name()
    ensures v == w
  {}

  /**
   * `WayType.valueOfOptional`: the constant whose name equals the upper-cased input;
   * nothing for null or any other string.
   */
  function ValueOfOptional(input: Option<string>): (r: Option<WayType>)
    ensures forall w: WayType :: r == Some(w) <==> input.Some? && w.Name() == Upper(input.value)
  {
    if input.None? then None
    else
      var r := FindWayType(WAY_TYPES, Upper(input.value));
      if r.None? then
        assert forall w: WayType :: w.Name() != Upper(input.value) by {
          forall w: WayType { WayTypesComplete(w); }
        }
        r
      else
        assert forall w: WayType :: w.Name() == Upper(input.value) ==> w == r.value by {
          forall w: WayType | w.Name() == Upper(input.value) { WayTypeNamesDistinct(w, r.value); }
        }
        r
  }

  /** `WayType.isRelevant`: the input names a way type. */
  function IsRelevant(input: Option<string>): (r: bool)
    ensures r <==> input.Some? && exists w: WayType :: w.Name() == Upper(input.value)
  {
    ValueOfOptional(input).Some?
  }

  /** `WayType.impliesOneWay`: false for null or unknown names. */
  function WayImpliesOneWay(input: Option<string>): (r: bool)
    ensures r <==> input.Some? && Upper(input.value) in {"MOTORWAY", "MOTORWAY_LINK"}
  {
    var v := ValueOfOptional(input);
    assert v == Some(Motorway) <==> input.Some? && Upper(input.value) == "MOTORWAY";
    assert v == Some(MotorwayLink) <==> input.Some? && Upper(input.value) == "MOTORWAY_LINK";
    match v
    case None => false
    case Some(w) => w.OneWayImplied()
  }

  /** The OSM junction types the engine knows. */
  datatype JunctionType = Roundabout
  {
    function Name(): string { "ROUNDABOUT" }

    function OneWayImplied(): (r: bool)
      ensures r
    {
      true
    }
  }

  /** `JunctionType.impliesOneWay`: true for "roundabout" in any letter case, false otherwise. */
  function JunctionImpliesOneWay(input: Option<string>): (r: bool)
    ensures r <==> input.Some? && Upper(input.value) == "ROUNDABOUT"
  {
    if input.Some? && Upper(input.value) == Roundabout.Name() then Roundabout.OneWayImplied() else false
  }
}
