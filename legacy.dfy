/** The older C-style builder of `orbitalSim.cpp`: a struct holding the
    clock, the body count and an array of bodies copied from the solar
    table. Its update and its asteroid placement are stubs that do nothing. */
module Legacy {
  import opened Vectors
  import opened Bodies
  import opened Ephemerides

  /** The `OrbitalSim` struct. Each body sits in its own allocation that
      nothing else refers to, so the model stores the bodies themselves. */
  class OrbitalSim {
    var timeStep: real
    var time: real
    var bodyNum: int
    var bodysArray: array<Body>

    /** The struct's storage; the other fields are still unset. */
    constructor (bodysArray: array<Body>)
      ensures this.bodysArray == bodysArray
    {
      this.bodysArray := bodysArray;
    }
  }

  /** `makeOrbitalSim`. Fresh memory is not cleared: `junk(i)` is whatever
      the allocation of body i holds. The loop writes the colour, mass,
      velocity, position and radius of every solar table row into its body
      and never writes an acceleration. */
  method MakeOrbitalSim(timeStep: real, solarSystem: array<EphemeridesBody>, junk: nat -> Body)
    returns (sim: OrbitalSim)
    ensures fresh(sim) && fresh(sim.bodysArray)
    ensures sim.bodyNum == solarSystem.Length && sim.bodysArray.Length == solarSystem.Length
    ensures sim.time == 0.0 && sim.timeStep == timeStep
    ensures forall i :: 0 <= i < solarSystem.Length ==>
              sim.bodysArray[i].color == solarSystem[i].color &&
              sim.bodysArray[i].mass == solarSystem[i].mass &&
              sim.bodysArray[i].velocity == solarSystem[i].velocity &&
              sim.bodysArray[i].position == solarSystem[i].position &&
              sim.bodysArray[i].radius == solarSystem[i].radius
    ensures forall i :: 0 <= i < solarSystem.Length ==> sim.bodysArray[i].acceleration == junk(i).acceleration
  {
    var bodies := new Body[solarSystem.Length](k => junk(k));
    var i := 0;
    while i < solarSystem.Length
      invariant 0 <= i <= solarSystem.Length
      invariant forall k :: 0 <= k < solarSystem.Length ==> bodies[k].acceleration == junk(k).acceleration
      invariant forall k :: 0 <= k < i ==>
                  bodies[k].color == solarSystem[k].color &&
                  bodies[k].mass == solarSystem[k].mass &&
                  bodies[k].velocity == solarSystem[k].velocity &&
                  bodies[k].position == solarSystem[k].position &&
                  bodies[k].radius == solarSystem[k].radius
    {
      bodies[i] := bodies[i].(color := solarSystem[i].color);
      bodies[i] := bodies[i].(mass := solarSystem[i].mass);
      bodies[i] := bodies[i].(velocity := solarSystem[i].velocity);
      bodies[i] := bodies[i].(position := solarSystem[i].position);
      bodies[i] := bodies[i].(radius := solarSystem[i].radius);
      i := i + 1;
    }
    sim := new OrbitalSim(bodies);
    sim.timeStep := timeStep;
    sim.time := 0.0;
    sim.bodyNum := solarSystem.Length;
  }

  /** `updateOrbitalSim` has an empty body: the simulation stays as it is. */
  method UpdateOrbitalSim(sim: OrbitalSim)
    ensures sim.time == old(sim.time) && sim.timeStep == old(sim.timeStep)
    ensures sim.bodyNum == old(sim.bodyNum) && sim.bodysArray == old(sim.bodysArray)
    ensures sim.bodysArray[..] == old(sim.bodysArray[..])
  {
  }

  /** `placeAsteroid`: every write to the body is commented out, so the body
      (here, entry k of an array of bodies) keeps every field. The random
      numbers it draws are not modelled. */
  method PlaceAsteroid(bodies: array<Body>, k: nat, centerMass: real)
    requires k < bodies.Length
    ensures bodies[k] == old(bodies[k])
  {
  }
}
