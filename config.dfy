/**
 * The engine's public configuration: how far ahead the horizon reaches, whether it
 * is expanded fully or along the most probable branch only, and how often state
 * updates are taken. Every field may be absent (null), meaning "leave unchanged".
 */
module Config {
  import opened Util

  /** How the horizon tree is grown. */
  datatype HorizonExpansion = Limited | Full
  {
    function Name(): string
    {
      match this
      case Limited => "LIMITED"
      case Full => "FULL"
    }
  }

  /** `HorizonExpansion.valueOfOrNull`: case-insensitive lookup by name; null for anything else. */
  function ExpansionValueOfOrNull(input: Option<string>): (r: Option<HorizonExpansion>)
    ensures r == Some(Limited) <==> input.Some? && Upper(input.value) == "LIMITED"
    ensures r == Some(Full) <==> input.Some? && Upper(input.value) == "FULL"
    ensures r == None <==> input.None? || Upper(input.value) !in {"LIMITED", "FULL"}
  {
    if input.None? then None
    else if Upper(input.value) == Limited.Name() then Some(Limited)
    else if Upper(input.value) == Full.Name() then Some(Full)
    else None
  }

  /** Java's `Objects.hashCode` of a boxed Integer: its value, or 0 for null. */
  function IntegerHash(v: Option<Int32>): Int32
  {
    if v.None? then 0 else v.value
  }

  /** A partial configuration; the `with` setters fill it in one field at a time. */
  class Configuration {
    var horizonDistance: Option<Int32>
    var horizonExpansion: Option<HorizonExpansion>
    var updateFrequency: Option<Int32>

    /** A new configuration leaves every field unset. */
    constructor ()
      ensures horizonDistance == None && horizonExpansion == None && updateFrequency == None
    {
      horizonDistance := None;
      horizonExpansion := None;
      updateFrequency := None;
    }

    method WithHorizonDistance(distance: Int32) returns (r: Configuration)
      modifies this
      ensures r == this
      ensures horizonDistance == Some(distance)
      ensures horizonExpansion == old(horizonExpansion) && updateFrequency == old(updateFrequency)
    {
      horizonDistance := Some(distance);
      r := this;
    }

    method WithHorizonExpansion(expansion: Option<HorizonExpansion>) returns (r: Configuration)
      modifies this
      ensures r == this
      ensures horizonExpansion == expansion
      ensures horizonDistance == old(horizonDistance) && updateFrequency == old(updateFrequency)
    {
      horizonExpansion := expansion;
      r := this;
    }

    method WithUpdateFrequency(frequency: Int32) returns (r: Configuration)
      modifies this
      ensures r == this
      ensures updateFrequency == Some(frequency)
      ensures horizonDistance == old(horizonDistance) && horizonExpansion == old(horizonExpansion)
    {
      updateFrequency := Some(frequency);
      r := this;
    }

    /** `equals`: all three fields equal, null-safe. */
    function Equals(that: Configuration): (b: bool)
      reads this, that
      ensures that == this ==> b
      ensures b ==> forall expansionHash :: that.HashCode(expansionHash) == HashCode(expansionHash)
    {
      horizonDistance == that.horizonDistance &&
      horizonExpansion == that.horizonExpansion &&
      updateFrequency == that.updateFrequency
    }

    /**
     * `hashCode` = `Objects.hash(distance, expansion, frequency)` in wrapping int
     * arithmetic. An enum's hash is its identity hash, which the JVM chooses:
     * `expansionHash` stands for it.
     */
    function HashCode(expansionHash: HorizonExpansion -> Int32): (h: Int32)
      reads this
      ensures var e := if horizonExpansion.None? then 0 else expansionHash(horizonExpansion.value);
              (h - (31 * (31 * (31 + IntegerHash(horizonDistance)) + e) + IntegerHash(updateFrequency))) % TWO_32 == 0
    {
      var e := if horizonExpansion.None? then 0 else expansionHash(horizonExpansion.value);
      var first := Wrap32(31 + IntegerHash(horizonDistance));
      var second := Wrap32(31 * first + e);
      WrapCongruent(first, 31 + IntegerHash(horizonDistance), 31, e);
      CongruentTrans(second, 31 * first + e, 31 * (31 + IntegerHash(horizonDistance)) + e);
      WrapCongruent(second, 31 * (31 + IntegerHash(horizonDistance)) + e, 31, IntegerHash(updateFrequency));
      var h := Wrap32(31 * second + IntegerHash(updateFrequency));
      CongruentTrans(h, 31 * second + IntegerHash(updateFrequency),
                     31 * (31 * (31 + IntegerHash(horizonDistance)) + e) + IntegerHash(updateFrequency));
      h
    }
  }

  /** Equal configurations hash alike, and `equals` is an equivalence. */
  lemma EqualsConsistent(a: Configuration, b: Configuration, c: Configuration, expansionHash: HorizonExpansion -> Int32)
    ensures a.Equals(a)
    ensures a.Equals(b) ==> b.Equals(a)
    ensures a.Equals(b) && b.Equals(c) ==> a.Equals(c)
    ensures a.Equals(b) ==> a.HashCode(expansionHash) == b.HashCode(expansionHash)
  {}
}
