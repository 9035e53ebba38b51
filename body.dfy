/** One simulated mass point: the plain value that the simulation's body
    array stores (`Body`), and the `OrbitalBody` object with one setter and
    one getter per field. */
module Bodies {
  import opened Vectors

  newtype byte = b: int | 0 <= b < 256

  /** raylib's `Color`: red, green, blue and alpha channels. */
  datatype Color = Color(r: byte, g: byte, b: byte, a: byte)

  /** raylib's `GRAY`, the colour of an asteroid outside party mode. */
  const Gray: Color := Color(130, 130, 130, 255)

  /** raylib's `DARKGRAY`, the colour of the black hole. */
  const DarkGray: Color := Color(80, 80, 80, 255)

  /** The six fields of an `OrbitalBody`, as a value. */
  datatype Body = Body(position: Vector3, velocity: Vector3, acceleration: Vector3,
                       mass: real, radius: real, color: Color)

  class OrbitalBody {
    var position: Vector3
    var velocity: Vector3
    var acceleration: Vector3
    var mass: real
    var radius: real
    var color: Color

    /** The object's fields seen as one value; assigning an `OrbitalBody`
        into the simulation's array copies exactly this. */
    function State(): Body
      reads this
    {
      Body(position, velocity, acceleration, mass, radius, color)
    }

    /** Default construction. Its definition is not part of this model, so
        the fields start out holding some unspecified body `blank`. */
    constructor (blank: Body)
      ensures State() == blank
    {
      position, velocity, acceleration := blank.position, blank.velocity, blank.acceleration;
      mass, radius, color := blank.mass, blank.radius, blank.color;
    }

    method SetAcceleration(acceleration: Vector3)
      modifies this
      ensures this.acceleration == acceleration
      ensures State() == old(State()).(acceleration := acceleration)
    {
      this.acceleration := acceleration;
    }

    method SetVelocity(velocity: Vector3)
      modifies this
      ensures this.velocity == velocity
      ensures State() == old(State()).(velocity := velocity)
    {
      this.velocity := velocity;
    }

    method SetPosition(position: Vector3)
      modifies this
      ensures this.position == position
      ensures State() == old(State()).(position := position)
    {
      this.position := position;
    }

    method SetMass(mass: real)
      modifies this
      ensures this.mass == mass
      ensures State() == old(State()).(mass := mass)
    {
      this.mass := mass;
    }

    method SetColor(color: Color)
      modifies this
      ensures this.color == color
      ensures State() == old(State()).(color := color)
    {
      this.color := color;
    }

    method SetRadius(radius: real)
      modifies this
      ensures this.radius == radius
      ensures State() == old(State()).(radius := radius)
    {
      this.radius := radius;
    }

    // The getters have no modifies clause, so they cannot change the body.

    method GetAcceleration() returns (a: Vector3)
      ensures a == acceleration
    {
      a := acceleration;
    }

    method GetMass() returns (m: real)
      ensures m == mass
    {
      m := mass;
    }

    method GetVelocity() returns (v: Vector3)
      ensures v == velocity
    {
      v := velocity;
    }

    method GetRadius() returns (r: real)
      ensures r == radius
    {
      r := radius;
    }

    method GetPosition() returns (p: Vector3)
      ensures p == position
    {
      p := position;
    }

    method GetColor() returns (c: Color)
      ensures c == color
    {
      c := color;
    }
  }

  /** Setting every field and reading them back returns what was set: no
      setter overwrites another setter's field, and no getter disturbs one. */
  method AccessorsRoundTrip(body: OrbitalBody, p: Vector3, v: Vector3, a: Vector3,
                            m: real, r: real, c: Color)
    returns (p': Vector3, v': Vector3, a': Vector3, m': real, r': real, c': Color)
    modifies body
    ensures (p', v', a', m', r', c') == (p, v, a, m, r, c)
    ensures body.State() == Body(p, v, a, m, r, c)
  {
    body.SetPosition(p);
    body.SetVelocity(v);
    body.SetAcceleration(a);
    body.SetMass(m);
    body.SetRadius(r);
    body.SetColor(c);
    a' := body.GetAcceleration();
    m' := body.GetMass();
    v' := body.GetVelocity();
    r' := body.GetRadius();
    p' := body.GetPosition();
    c' := body.GetColor();
  }
}
