/** The initial-state tables of the two planetary systems. Their sizes and
    values live in `ephemerides.h`, which is not part of this model, so the
    tables are arrays handed in by the caller. They are mutable: the solar
    table is the one global that the simulation's constructor writes. */
module Ephemerides {
  import opened Vectors
  import opened Bodies

  /** One row of a table: what the constructor copies into a core body. */
  datatype EphemeridesBody = EphemeridesBody(mass: real, radius: real, color: Color,
                                             position: Vector3, velocity: Vector3)

  /** The values of the `PLANETARY_SYSTEM` enumeration. */
  const SOLAR: int := 0
  const ALPHACENTAURI: int := 1

  /** Index of Jupiter in the solar table, and the factor of the tweak. */
  const JupiterId: nat := 5
  const TweakJupiterMassFactor: real := 1000.0

  /** The solar table after one Jupiter tweak: entry 5's mass times 1000. */
  function TweakJupiter(table: seq<EphemeridesBody>): (r: seq<EphemeridesBody>)
    requires JupiterId < |table|
    ensures |r| == |table|
  {
    table[JupiterId := table[JupiterId].(mass := table[JupiterId].mass * TweakJupiterMassFactor)]
  }

  /** A tweak touches only Jupiter's mass, and a second one multiplies it by
      1000 again: constructions that each ask for the tweak compound. */
  lemma TweakJupiterCompounds(table: seq<EphemeridesBody>)
    requires JupiterId < |table|
    ensures |TweakJupiter(table)| == |table|
    ensures forall k :: 0 <= k < |table| && k != JupiterId ==> TweakJupiter(table)[k] == table[k]
    ensures TweakJupiter(table)[JupiterId] == table[JupiterId].(mass := TweakJupiter(table)[JupiterId].mass)
    ensures TweakJupiter(table)[JupiterId].mass == table[JupiterId].mass * TweakJupiterMassFactor
    ensures TweakJupiter(TweakJupiter(table))[JupiterId].mass == table[JupiterId].mass * 1000000.0
  {
    var m := table[JupiterId].mass;
    assert m * 1000.0 * 1000.0 == m * 1000000.0;
  }
}
