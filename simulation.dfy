/** The simulation object of `OrbitalSim.cpp`: how the constructor lays out
    the body array (table copies, an optional black hole, asteroids), the
    in-place physics step `Update`, and the accessors. */
module Simulation {
  import opened Vectors
  import opened Bodies
  import opened Ephemerides
  import opened Physics

  const BlackHoleMassFactor: real := 100000.0
  const AsteroidMass: real := 1000000000000.0
  const AsteroidRadius: real := 2000.0
  const AsteroidAlpha: byte := 126

  /** The random numbers one asteroid placement consumes, already turned
      into the quantities the placement writes: the orbit radius r, the
      cosine and sine of the angle phi, the tangential speed v, the vertical
      speed vy and, in party mode, three colour channels. */
  datatype AsteroidDraw = AsteroidDraw(r: real, cos: real, sin: real, v: real, vy: real,
                                       red: byte, green: byte, blue: byte)

  /** A core body copied from a table row, with zero acceleration. */
  function CopyEntry(e: EphemeridesBody): (r: Body)
    ensures r.acceleration == Zero
  {
    Body(e.position, e.velocity, Zero, e.mass, e.radius, e.color)
  }

  /** The black hole: placed at solar[3] - solar[6] whatever the system,
      100000 times as heavy as the system's first body and as large; its
      velocity is never set and keeps the default-constructed one. */
  function BlackHole(solar: seq<EphemeridesBody>, table: seq<EphemeridesBody>, blank: Body): (r: Body)
    requires |solar| > 6 && |table| > 0
    ensures r.velocity == blank.velocity && r.acceleration == Zero
  {
    Body(Subtract(solar[3].position, solar[6].position), blank.velocity, Zero,
         table[0].mass * BlackHoleMassFactor, table[0].radius, DarkGray)
  }

  /** What asteroid placement writes over the body `slot`: every field but
      the acceleration. */
  function Asteroid(slot: Body, partyTime: bool, d: AsteroidDraw): (r: Body)
    ensures r.acceleration == slot.acceleration
  {
    slot.(mass := AsteroidMass,
          radius := AsteroidRadius,
          position := Vector3(d.r * d.cos, 0.0, d.r * d.sin),
          color := if partyTime then Color(d.red, d.green, d.blue, AsteroidAlpha) else Gray,
          velocity := Vector3(-d.v * d.sin, d.vy, d.v * d.cos))
  }

  /** `count` asteroids for the slots start, start + 1, ..., each drawn for
      its own slot around the centre mass `center` and written over that
      slot's default body `blanks(start + k)`. */
  function Asteroids(start: nat, count: nat, center: real, partyTime: bool, blanks: nat -> Body,
                     draw: (real, nat) -> AsteroidDraw): seq<Body>
  {
    seq(count, k requires 0 <= k < count => Asteroid(blanks(start + k), partyTime, draw(center, start + k)))
  }

  /** The body array the constructor builds, region by region: a copy of
      every table row, then (with a black hole) the black hole followed by
      one untouched default body, then the asteroids. `blank` is the
      default body `blacky` starts from and `blanks(k)` the default body the
      array holds at index k. */
  function Layout(solar: seq<EphemeridesBody>, table: seq<EphemeridesBody>, setBlackHole: bool,
                  asteroidsNum: nat, partyTime: bool, blank: Body, blanks: nat -> Body,
                  draw: (real, nat) -> AsteroidDraw): (r: seq<Body>)
    requires |solar| > 6 && |table| > 0
    ensures |r| == |table| + (if setBlackHole then 1 else 0) + asteroidsNum
  {
    var copies := seq(|table|, k requires 0 <= k < |table| => CopyEntry(table[k]));
    var center := table[0].mass;
    if !setBlackHole then
      copies + Asteroids(|table|, asteroidsNum, center, partyTime, blanks, draw)
    else if asteroidsNum == 0 then
      copies + [BlackHole(solar, table, blank)]
    else
      copies + [BlackHole(solar, table, blank)] + [blanks(|table| + 1)]
      + Asteroids(|table| + 2, asteroidsNum - 1, center, partyTime, blanks, draw)
  }

  /** The first index that holds an asteroid. */
  function FirstAsteroid(tableSize: nat, setBlackHole: bool): nat {
    if setBlackHole then tableSize + 2 else tableSize
  }

  /** What each slot of the layout holds. There are tableSize + 1 core
      bodies with a black hole, and the slot right after the black hole is
      left as default-constructed, so one asteroid fewer than requested is
      placed whenever a black hole and at least one asteroid are asked for. */
  lemma LayoutSlots(solar: seq<EphemeridesBody>, table: seq<EphemeridesBody>, setBlackHole: bool,
                    asteroidsNum: nat, partyTime: bool, blank: Body, blanks: nat -> Body,
                    draw: (real, nat) -> AsteroidDraw)
    requires |solar| > 6 && |table| > 0
    ensures |Layout(solar, table, setBlackHole, asteroidsNum, partyTime, blank, blanks, draw)|
         == |table| + (if setBlackHole then 1 else 0) + asteroidsNum
    ensures forall k :: 0 <= k < |table| ==>
              Layout(solar, table, setBlackHole, asteroidsNum, partyTime, blank, blanks, draw)[k] == CopyEntry(table[k])
    ensures setBlackHole ==>
              Layout(solar, table, setBlackHole, asteroidsNum, partyTime, blank, blanks, draw)[|table|]
              == BlackHole(solar, table, blank)
    ensures setBlackHole && asteroidsNum > 0 ==>
              Layout(solar, table, setBlackHole, asteroidsNum, partyTime, blank, blanks, draw)[|table| + 1] == blanks(|table| + 1)
    ensures forall k :: FirstAsteroid(|table|, setBlackHole) <= k
                        < |Layout(solar, table, setBlackHole, asteroidsNum, partyTime, blank, blanks, draw)| ==>
              Layout(solar, table, setBlackHole, asteroidsNum, partyTime, blank, blanks, draw)[k]
              == Asteroid(blanks(k), partyTime, draw(table[0].mass, k))
    ensures |Layout(solar, table, setBlackHole, asteroidsNum, partyTime, blank, blanks, draw)|
            - FirstAsteroid(|table|, setBlackHole)
         == if setBlackHole && asteroidsNum > 0 then asteroidsNum - 1
            else if setBlackHole then -1
            else asteroidsNum
  {
    var layout := Layout(solar, table, setBlackHole, asteroidsNum, partyTime, blank, blanks, draw);
    var n := |table|;
    var center := table[0].mass;
    var copies := seq(n, k requires 0 <= k < n => CopyEntry(table[k]));
    if !setBlackHole {
      var rest := Asteroids(n, asteroidsNum, center, partyTime, blanks, draw);
      assert layout == copies + rest;
      forall k | n <= k < |layout|
        ensures layout[k] == Asteroid(blanks(k), partyTime, draw(center, k))
      {
        assert layout[k] == rest[k - n];
      }
    } else if asteroidsNum > 0 {
      var rest := Asteroids(n + 2, asteroidsNum - 1, center, partyTime, blanks, draw);
      var front := copies + [BlackHole(solar, table, blank)] + [blanks(n + 1)];
      assert layout == front + rest;
      assert layout[n + 1] == front[n + 1];
      forall k | n + 2 <= k < |layout|
        ensures layout[k] == Asteroid(blanks(k), partyTime, draw(center, k))
      {
        assert layout[k] == rest[k - (n + 2)];
      }
    }
  }

  /** An asteroid starts in the plane y = 0 with a horizontal velocity at
      right angles to its position; when cos and sin are those of one angle
      it sits at distance r from the origin with horizontal speed v, which
      is the set-up of a circular orbit around the centre. */
  lemma AsteroidOrbit(slot: Body, partyTime: bool, d: AsteroidDraw)
    ensures Asteroid(slot, partyTime, d).position.y == 0.0
    ensures Dot(Asteroid(slot, partyTime, d).position,
                Asteroid(slot, partyTime, d).velocity.(y := 0.0)) == 0.0
    ensures d.cos * d.cos + d.sin * d.sin == 1.0 ==>
              Dot(Asteroid(slot, partyTime, d).position, Asteroid(slot, partyTime, d).position) == d.r * d.r
    ensures d.cos * d.cos + d.sin * d.sin == 1.0 ==>
              Dot(Asteroid(slot, partyTime, d).velocity.(y := 0.0),
                  Asteroid(slot, partyTime, d).velocity.(y := 0.0)) == d.v * d.v
  {
    var r, c, s, v := d.r, d.cos, d.sin, d.v;
    assert (r * c) * (-v * s) + (r * s) * (v * c) == 0.0;
    assert (r * c) * (r * c) + (r * s) * (r * s) == r * r * (c * c + s * s);
    assert (-v * s) * (-v * s) + (v * c) * (v * c) == v * v * (c * c + s * s);
  }

  /** The constructor's `blacky`: a default-constructed body given the black
      hole's position, acceleration, mass, radius and colour through its
      setters. Its velocity is never set. */
  method MakeBlackHole(solarSystem: array<EphemeridesBody>, systemInfo: array<EphemeridesBody>,
                       blank: Body) returns (blacky: OrbitalBody)
    requires solarSystem.Length > 6 && systemInfo.Length > 0
    ensures fresh(blacky)
    ensures blacky.State() == BlackHole(solarSystem[..], systemInfo[..], blank)
  {
    blacky := new OrbitalBody(blank);
    blacky.SetPosition(Subtract(solarSystem[3].position, solarSystem[6].position));
    blacky.SetAcceleration(Zero);
    blacky.SetMass(systemInfo[0].mass * BlackHoleMassFactor);
    blacky.SetRadius(systemInfo[0].radius);
    blacky.SetColor(DarkGray);
  }

  class OrbitalSim {
    var timeStep: real
    var time: real
    var bodyNumCore: nat
    var bodyNum: nat
    var partyTime: bool
    var bodies: array<Body>

    /** The counts agree with the array. */
    ghost predicate Valid()
      reads this
    {
      bodies.Length == bodyNum && bodyNumCore <= bodyNum
    }

    /** `OrbitalSim::OrbitalSim`. Only `partyTime` is stored: `timeStep` and
        `time` are left as they come (`SetTimeStep` sets the step). The
        `default` branch of the system switch dereferences a null table, so
        the system must be one of the two known ones; the black hole's
        position is read from the solar table even for Alpha Centauri, and
        the system's first row is read even without a black hole. The
        source's default arguments are kept; the tables, the default bodies
        and the random draw that follow them are passed by name. */
    constructor (timeStep: real, system: int := SOLAR, setBlackHole: bool := false,
                 tweakJupiterMass: bool := false, asteroidsNum: nat := 0, partyTime: bool := false,
                 solarSystem: array<EphemeridesBody>, alphaCentauriSystem: array<EphemeridesBody>,
                 blank: Body, blanks: nat -> Body, draw: (real, nat) -> AsteroidDraw)
      requires system == SOLAR || system == ALPHACENTAURI
      requires solarSystem.Length > 6
      requires system == ALPHACENTAURI ==> alphaCentauriSystem.Length > 0
      requires solarSystem != alphaCentauriSystem
      modifies solarSystem
      ensures Valid() && fresh(bodies)
      ensures this.partyTime == partyTime
      ensures bodyNumCore == (if system == SOLAR then solarSystem.Length else alphaCentauriSystem.Length)
                             + (if setBlackHole then 1 else 0)
      ensures bodyNum == bodyNumCore + asteroidsNum
      ensures solarSystem[..] == if system == SOLAR && tweakJupiterMass
                                 then TweakJupiter(old(solarSystem[..])) else old(solarSystem[..])
      ensures bodies[..] == Layout(solarSystem[..],
                                   if system == SOLAR then solarSystem[..] else alphaCentauriSystem[..],
                                   setBlackHole, asteroidsNum, partyTime, blank, blanks, draw)
    {
      this.partyTime := partyTime;
      // The counts are computed in locals: before `new;` the object's
      // fields can be assigned but not read.
      var systemInfo: array<EphemeridesBody>;
      var core: nat;
      if system == SOLAR {
        core := solarSystem.Length;
        systemInfo := solarSystem;
        if tweakJupiterMass {
          solarSystem[JupiterId] := solarSystem[JupiterId].(mass := solarSystem[JupiterId].mass * TweakJupiterMassFactor);
        }
        assert solarSystem[..] == if tweakJupiterMass then TweakJupiter(old(solarSystem[..])) else old(solarSystem[..]);
      } else {
        core := alphaCentauriSystem.Length;
        systemInfo := alphaCentauriSystem;
      }
      var num: nat := core + asteroidsNum;
      if setBlackHole {
        num := num + 1;
        core := core + 1;
      }
      bodyNumCore, bodyNum := core, num;

      var blacky := MakeBlackHole(solarSystem, systemInfo, blank);

      var a := new Body[num](k => blanks(k));
      bodies := a;
      new;

      LayOutBodies(systemInfo, blacky.State(), setBlackHole, asteroidsNum, blank, blanks, draw,
                   solarSystem[..], systemInfo[..]);
    }

    /** The constructor's fill loop over a fresh array of default bodies.
        At the black hole's index it copies `blacky` and then skips one
        more index, so the slot after the black hole is never written. */
    method LayOutBodies(systemInfo: array<EphemeridesBody>, blacky: Body, setBlackHole: bool,
                        asteroidsNum: nat, blank: Body, blanks: nat -> Body, draw: (real, nat) -> AsteroidDraw,
                        ghost solar: seq<EphemeridesBody>, ghost table: seq<EphemeridesBody>)
      requires |solar| > 6 && 0 < |table| && systemInfo[..] == table
      requires setBlackHole ==> blacky == BlackHole(solar, table, blank)
      requires bodyNumCore == |table| + (if setBlackHole then 1 else 0)
      requires bodyNum == bodyNumCore + asteroidsNum && bodies.Length == bodyNum
      requires forall k :: 0 <= k < bodies.Length ==> bodies[k] == blanks(k)
      modifies bodies
      ensures bodies[..] == Layout(solar, table, setBlackHole, asteroidsNum, partyTime, blank, blanks, draw)
    {
      LayoutSlots(solar, table, setBlackHole, asteroidsNum, partyTime, blank, blanks, draw);
      FillBodies(systemInfo, blacky, setBlackHole, blanks, draw,
                 Layout(solar, table, setBlackHole, asteroidsNum, partyTime, blank, blanks, draw));
    }

    /** The fill loop itself, against the slot-by-slot description of the
        layout that `LayoutSlots` proves. */
    method FillBodies(systemInfo: array<EphemeridesBody>, blacky: Body, setBlackHole: bool,
                      blanks: nat -> Body, draw: (real, nat) -> AsteroidDraw, ghost layout: seq<Body>)
      requires 0 < systemInfo.Length && |layout| == bodyNum == bodies.Length
      requires bodyNumCore == systemInfo.Length + (if setBlackHole then 1 else 0) <= bodyNum
      requires forall k :: 0 <= k < systemInfo.Length ==> layout[k] == CopyEntry(systemInfo[k])
      requires setBlackHole ==> layout[systemInfo.Length] == blacky
      requires forall k :: FirstAsteroid(systemInfo.Length, setBlackHole) <= k < bodyNum ==>
                 layout[k] == Asteroid(blanks(k), partyTime, draw(systemInfo[0].mass, k))
      requires setBlackHole && bodyNumCore < bodyNum ==> layout[bodyNumCore] == blanks(bodyNumCore)
      requires forall k :: 0 <= k < bodies.Length ==> bodies[k] == blanks(k)
      modifies bodies
      ensures bodies[..] == layout
    {
      var center := systemInfo[0].mass;

      var i: int := 0;
      while i < bodyNum
        invariant 0 <= i <= bodyNum + 1
        invariant !(setBlackHole && i == bodyNumCore)
        invariant forall k :: 0 <= k < i && k < bodyNum ==> bodies[k] == layout[k]
        invariant forall k :: i <= k < bodyNum ==> bodies[k] == blanks(k)
        modifies bodies
        decreases bodyNum + 1 - i
      {
        ghost var before := bodies[..];
        if i == bodyNumCore - 1 && setBlackHole {
          bodies[i] := blacky;
          i := i + 1;
        } else if i < bodyNumCore {
          CopyCoreBody(i, systemInfo);
          assert bodies[..] == before[i := layout[i]];
        } else {
          PlaceAsteroid(i, center, draw);
          assert bodies[..] == before[i := layout[i]];
        }
        i := i + 1;
      }
      assert bodies[..] == layout;
    }

    /** The loop body's copy of table row k into body k: position,
        velocity, mass, radius and colour from the row, and a zero
        acceleration. */
    method CopyCoreBody(k: nat, systemInfo: array<EphemeridesBody>)
      requires k < bodies.Length && k < systemInfo.Length
      modifies bodies
      ensures bodies[..] == old(bodies[..])[k := CopyEntry(systemInfo[k])]
    {
      bodies[k] := bodies[k].(position := systemInfo[k].position);
      bodies[k] := bodies[k].(velocity := systemInfo[k].velocity);
      bodies[k] := bodies[k].(mass := systemInfo[k].mass);
      bodies[k] := bodies[k].(radius := systemInfo[k].radius);
      bodies[k] := bodies[k].(color := systemInfo[k].color);
      bodies[k] := bodies[k].(acceleration := Zero);
      assert bodies[k] == CopyEntry(systemInfo[k]);
    }

    /** `OrbitalSim::placeAsteroid` on the body at index k: it writes that
        body's mass, radius, position, colour and velocity from one draw
        and leaves its acceleration and every other body alone. */
    method PlaceAsteroid(k: nat, centerMass: real, draw: (real, nat) -> AsteroidDraw)
      requires k < bodies.Length
      modifies bodies
      ensures bodies[..] == old(bodies[..])[k := Asteroid(old(bodies[k]), partyTime, draw(centerMass, k))]
    {
      var d := draw(centerMass, k);
      bodies[k] := bodies[k].(mass := AsteroidMass);
      bodies[k] := bodies[k].(radius := AsteroidRadius);
      bodies[k] := bodies[k].(position := Vector3(d.r * d.cos, 0.0, d.r * d.sin));
      if partyTime {
        bodies[k] := bodies[k].(color := Color(d.red, d.green, d.blue, AsteroidAlpha));
      } else {
        bodies[k] := bodies[k].(color := Gray);
      }
      bodies[k] := bodies[k].(velocity := Vector3(-d.v * d.sin, d.vy, d.v * d.cos));
      assert bodies[k] == Asteroid(old(bodies[k]), partyTime, d);
    }

    /** `OrbitalSim::update`: advance the clock, zero every acceleration,
        accumulate the pulls of the pairs (i, j) with i a core body and
        j > i, then integrate every body. No pair is guarded against a zero
        distance, so the visited pairs must be apart. */
    method Update(norm: Vector3 -> real)
      requires Valid() && IsEuclideanLength(norm)
      requires Separated(bodies[..], bodyNumCore)
      modifies this, bodies
      ensures Valid()
      ensures bodies == old(bodies) && bodyNum == old(bodyNum) && bodyNumCore == old(bodyNumCore)
      ensures partyTime == old(partyTime) && timeStep == old(timeStep)
      ensures time == old(time) + timeStep
      ensures bodies[..] == Step(old(bodies[..]), bodyNumCore, timeStep, norm)
    {
      time := time + timeStep;
      ghost var start := bodies[..];
      ZeroAllAccelerations(bodies, bodyNum);
      ghost var zeroed := bodies[..];
      SeparatedKept(zeroed, start, bodyNumCore);
      AccumulateAccelerations(bodies, bodyNumCore, bodyNum, norm);
      IntegrateAllBodies(bodies, bodyNum, timeStep);
    }

    method GetTimeStep() returns (t: real)
      ensures t == timeStep
    {
      t := timeStep;
    }

    method GetTime() returns (t: real)
      ensures t == time
    {
      t := time;
    }

    method GetBodyNumCore() returns (n: nat)
      ensures n == bodyNumCore
    {
      n := bodyNumCore;
    }

    method GetBodyNum() returns (n: nat)
      ensures n == bodyNum
    {
      n := bodyNum;
    }

    method SetTimeStep(timeStep: real)
      modifies this
      ensures this.timeStep == timeStep
      ensures time == old(time) && bodies == old(bodies) && partyTime == old(partyTime)
      ensures bodyNum == old(bodyNum) && bodyNumCore == old(bodyNumCore)
    {
      this.timeStep := timeStep;
    }
  }

  /** Two constructions of the solar system that both ask for the Jupiter
      tweak: the tweak writes the shared table, so the second simulation's
      Jupiter is a million times as heavy as the table's original entry. */
  method TweakJupiterTwice(solarSystem: array<EphemeridesBody>, alphaCentauriSystem: array<EphemeridesBody>,
                           blank: Body, blanks: nat -> Body, draw: (real, nat) -> AsteroidDraw)
    returns (first: OrbitalSim, second: OrbitalSim)
    requires solarSystem.Length > 6 && solarSystem != alphaCentauriSystem
    modifies solarSystem
    ensures solarSystem[JupiterId].mass == old(solarSystem[JupiterId].mass) * 1000000.0
    ensures first.bodies.Length == second.bodies.Length == solarSystem.Length
    ensures first.bodies[JupiterId].mass == old(solarSystem[JupiterId].mass) * TweakJupiterMassFactor
    ensures second.bodies[JupiterId].mass == old(solarSystem[JupiterId].mass) * 1000000.0
  {
    ghost var original := solarSystem[..];
    first := new OrbitalSim(0.0, SOLAR, false, true, 0, false, solarSystem, alphaCentauriSystem, blank, blanks, draw);
    ghost var once := solarSystem[..];
    LayoutSlots(once, once, false, 0, false, blank, blanks, draw);
    assert first.bodies[JupiterId] == CopyEntry(once[JupiterId]);
    second := new OrbitalSim(0.0, SOLAR, false, true, 0, false, solarSystem, alphaCentauriSystem, blank, blanks, draw);
    ghost var twice := solarSystem[..];
    LayoutSlots(twice, twice, false, 0, false, blank, blanks, draw);
    assert second.bodies[JupiterId] == CopyEntry(twice[JupiterId]);
    TweakJupiterCompounds(original);
  }

  /** The construction of `main.cpp`, which gives only the time step and
      the system and leaves every other argument at its default: Alpha
      Centauri's bodies alone, with no black hole, no asteroids and the
      solar table untouched. */
  method MainSimulation(timeStep: real, solarSystem: array<EphemeridesBody>,
                        alphaCentauriSystem: array<EphemeridesBody>,
                        blank: Body, blanks: nat -> Body, draw: (real, nat) -> AsteroidDraw)
    returns (sim: OrbitalSim)
    requires solarSystem.Length > 6 && alphaCentauriSystem.Length > 0
    requires solarSystem != alphaCentauriSystem
    modifies solarSystem
    ensures sim.bodies.Length == sim.bodyNum == sim.bodyNumCore == alphaCentauriSystem.Length
    ensures solarSystem[..] == old(solarSystem[..])
    ensures !sim.partyTime
    ensures forall k :: 0 <= k < sim.bodies.Length ==> sim.bodies[k] == CopyEntry(alphaCentauriSystem[k])
  {
    sim := new OrbitalSim(timeStep, ALPHACENTAURI, solarSystem := solarSystem,
                          alphaCentauriSystem := alphaCentauriSystem,
                          blank := blank, blanks := blanks, draw := draw);
    LayoutSlots(solarSystem[..], alphaCentauriSystem[..], false, 0, false, blank, blanks, draw);
  }

  /** The first loop of `update`: every acceleration becomes zero. */
  method ZeroAllAccelerations(bodies: array<Body>, bodyNum: nat)
    requires bodies.Length == bodyNum
    modifies bodies
    ensures bodies[..] == ZeroAccelerations(old(bodies[..]))
  {
    var i := 0;
    while i < bodyNum
      invariant 0 <= i <= bodyNum
      invariant forall k :: 0 <= k < i ==> bodies[k] == old(bodies[k]).(acceleration := Zero)
      invariant forall k :: i <= k < bodyNum ==> bodies[k] == old(bodies[k])
    {
      bodies[i] := bodies[i].(acceleration := Zero);
      i := i + 1;
    }
  }

  /** The nested loops of `update`: for every core body i, the pairs
      (i, j) with j > i, each adding to both bodies' accelerations. */
  method AccumulateAccelerations(bodies: array<Body>, bodyNumCore: nat, bodyNum: nat,
                                 norm: Vector3 -> real)
    requires IsEuclideanLength(norm)
    requires bodies.Length == bodyNum && bodyNumCore <= bodyNum
    requires Separated(bodies[..], bodyNumCore)
    modifies bodies
    ensures bodies[..] == Accumulate(old(bodies[..]), bodyNumCore, norm)
  {
    var i := 0;
    while i < bodyNumCore
      invariant 0 <= i <= bodyNumCore
      invariant Separated(bodies[..], bodyNumCore)
      invariant Rows(bodies[..], i, bodyNumCore, norm) == Rows(old(bodies[..]), 0, bodyNumCore, norm)
    {
      ghost var rowStart := bodies[..];
      SeparatedRow(rowStart, bodyNumCore, i);
      AccumulateRow(bodies, i, norm);
      SeparatedKept(bodies[..], rowStart, bodyNumCore);
      i := i + 1;
    }
  }

  /** The inner loop of `update` for one core body i. */
  method AccumulateRow(bodies: array<Body>, i: nat, norm: Vector3 -> real)
    requires IsEuclideanLength(norm)
    requires i < bodies.Length && ApartFrom(bodies[..], i, i + 1)
    modifies bodies
    ensures bodies[..] == Row(old(bodies[..]), i, i + 1, norm)
  {
    var j := i + 1;
    while j < bodies.Length
      invariant i + 1 <= j <= bodies.Length
      invariant ApartFrom(bodies[..], i, j)
      invariant Row(bodies[..], i, j, norm) == Row(old(bodies[..]), i, i + 1, norm)
    {
      assert Apart(bodies[..], i, j);
      ghost var prev := bodies[..];
      AccumulatePair(bodies, i, j, norm);
      ApartFromKept(bodies[..], prev, i, j + 1);
      j := j + 1;
    }
  }

  /** One pass of the inner loop: the pull between bodies i and j added to
      both of their accelerations, computed as the source computes it. */
  method AccumulatePair(bodies: array<Body>, i: nat, j: nat, norm: Vector3 -> real)
    requires IsEuclideanLength(norm)
    requires i < j < bodies.Length && Apart(bodies[..], i, j)
    modifies bodies
    ensures bodies[..] == PairStep(old(bodies[..]), i, j, norm)
  {
    ghost var prev := bodies[..];
    var vectorDiff := Subtract(bodies[i].position, bodies[j].position);
    LengthPositive(norm, vectorDiff);
    var vectorLen := norm(vectorDiff);
    var partialAcceleration := Scale(vectorDiff, -1.0 * G / (vectorLen * vectorLen));
    bodies[i] := bodies[i].(acceleration := Add(bodies[i].acceleration,
                                                Scale(partialAcceleration, bodies[j].mass / vectorLen)));
    bodies[j] := bodies[j].(acceleration := Add(bodies[j].acceleration,
                                                Scale(partialAcceleration, -1.0 * bodies[i].mass / vectorLen)));
    assert bodies[..] == prev[i := prev[i].(acceleration := Add(prev[i].acceleration, Scale(partialAcceleration, prev[j].mass / vectorLen)))]
                             [j := prev[j].(acceleration := Add(prev[j].acceleration, Scale(partialAcceleration, -1.0 * prev[i].mass / vectorLen)))];
    PairUpdate(prev, bodies[..], i, j, norm, vectorLen, partialAcceleration);
  }

  /** The last loop of `update`: semi-implicit Euler for every body. */
  method IntegrateAllBodies(bodies: array<Body>, bodyNum: nat, timeStep: real)
    requires bodies.Length == bodyNum
    modifies bodies
    ensures bodies[..] == IntegrateAll(old(bodies[..]), timeStep)
  {
    var i := 0;
    while i < bodyNum
      invariant 0 <= i <= bodyNum
      invariant forall k :: 0 <= k < i ==> bodies[k] == Integrate(old(bodies[k]), timeStep)
      invariant forall k :: i <= k < bodyNum ==> bodies[k] == old(bodies[k])
    {
      var velocity := Add(bodies[i].velocity, Scale(bodies[i].acceleration, timeStep));
      bodies[i] := bodies[i].(velocity := velocity);
      bodies[i] := bodies[i].(position := Add(bodies[i].position, Scale(velocity, timeStep)));
      i := i + 1;
    }
    assert bodies[..] == IntegrateAll(old(bodies[..]), timeStep);
  }

  /** The two writes of one inner-loop pass, as the source computes them,
      are the pair step of the specification. */
  lemma PairUpdate(prev: seq<Body>, now: seq<Body>, i: nat, j: nat, norm: Vector3 -> real,
                   len: real, partial: Vector3)
    requires IsEuclideanLength(norm)
    requires i < j < |prev| && Apart(prev, i, j)
    requires len == norm(Subtract(prev[i].position, prev[j].position)) && len > 0.0
    requires partial == Scale(Subtract(prev[i].position, prev[j].position), -1.0 * G / (len * len))
    requires now == prev[i := prev[i].(acceleration := Add(prev[i].acceleration, Scale(partial, prev[j].mass / len)))]
                        [j := prev[j].(acceleration := Add(prev[j].acceleration, Scale(partial, -1.0 * prev[i].mass / len)))]
    ensures now == PairStep(prev, i, j, norm)
  {
    var d := Subtract(prev[i].position, prev[j].position);
    assert -1.0 * G / (len * len) == -G / (len * len);
    assert PartialAcceleration(d, len) == partial;
    assert -1.0 * prev[i].mass / len == -prev[i].mass / len;
    assert DeltaOnFirst(prev, i, j, norm) == Scale(partial, prev[j].mass / len);
    assert DeltaOnSecond(prev, i, j, norm) == Scale(partial, -1.0 * prev[i].mass / len);
  }
}
