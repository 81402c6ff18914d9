/**
 * The projectile example (ProjectileEnvironment.cs): an environment of
 * gravity and wind moves a projectile one tick at a time, and the
 * trajectory is every projectile state, starting with the launch, while
 * it is above the ground (y > 0).
 *
 * The source's trajectory is a lazy sequence that never ends if the
 * projectile never comes down; the model bounds it by `fuel` ticks.
 */
module Projectiles {
  import opened Numerics
  import opened Primitives

  datatype Projectile = Projectile(position: Vector3, velocity: Vector3)

  datatype Environment = Environment(gravity: Vector3, wind: Vector3)

  /** One tick: the position moves by the velocity, the velocity by gravity and then wind. */
  function Tick(env: Environment, p: Projectile): Projectile {
    Projectile(Add3(p.position, p.velocity), Add3(Add3(p.velocity, env.gravity), env.wind))
  }

  /** The state after n ticks. */
  function Iterate(env: Environment, p: Projectile, n: nat): Projectile
    decreases n
  {
    if n == 0 then p else Iterate(env, Tick(env, p), n - 1)
  }

  /**
   * `Trajectory`: p and the states after it, for as long as y > 0 and at
   * most `fuel` of them.
   */
  function Trajectory(env: Environment, p: Projectile, fuel: nat): (t: seq<Projectile>)
    ensures |t| <= fuel
    ensures forall i :: 0 <= i < |t| ==> t[i].position.y > 0.0
    decreases fuel
  {
    if fuel == 0 || p.position.y <= 0.0 then []
    else [p] + Trajectory(env, Tick(env, p), fuel - 1)
  }

  /** The constant change of velocity per tick. */
  function Acceleration(env: Environment): Vector3 {
    Add3(env.gravity, env.wind)
  }

  /** Where uniform acceleration a takes a coordinate x with speed v in n ticks. */
  function Travelled(x: real, v: real, a: real, n: nat): real {
    x + (n as real) * v + ((n * (n - 1)) as real / 2.0) * a
  }

  // ------------------------------------------------------------------ facts

  /** A tick moves the position by the velocity and the velocity by the environment's constant acceleration. */
  lemma TickMotion(env: Environment, p: Projectile)
    ensures Tick(env, p).position == Add3(p.position, p.velocity)
    ensures Tick(env, p).velocity == Add3(p.velocity, Acceleration(env))
  {
  }

  /**
   * Closed form of the motion: after n ticks the velocity has grown by n
   * times the acceleration and the position by n velocities plus
   * n(n-1)/2 accelerations.
   */
  lemma IterateClosedForm(env: Environment, p: Projectile, n: nat)
    ensures Iterate(env, p, n).velocity == Add3(p.velocity, Scale3(Acceleration(env), n as real))
    ensures Iterate(env, p, n).position
         == Vector3(Travelled(p.position.x, p.velocity.x, Acceleration(env).x, n),
                    Travelled(p.position.y, p.velocity.y, Acceleration(env).y, n),
                    Travelled(p.position.z, p.velocity.z, Acceleration(env).z, n))
  {
    IterateVelocity(env, p, n);
    IteratePosition(env, p, n);
  }

  lemma {:induction false} IterateVelocity(env: Environment, p: Projectile, n: nat)
    ensures Iterate(env, p, n).velocity == Add3(p.velocity, Scale3(Acceleration(env), n as real))
    decreases n
  {
    if n > 0 {
      IterateVelocity(env, Tick(env, p), n - 1);
      var a := Acceleration(env);
      VelocityStep(p.velocity.x, a.x, n);
      VelocityStep(p.velocity.y, a.y, n);
      VelocityStep(p.velocity.z, a.z, n);
    }
  }

  lemma {:induction false} IteratePosition(env: Environment, p: Projectile, n: nat)
    ensures Iterate(env, p, n).position
         == Vector3(Travelled(p.position.x, p.velocity.x, Acceleration(env).x, n),
                    Travelled(p.position.y, p.velocity.y, Acceleration(env).y, n),
                    Travelled(p.position.z, p.velocity.z, Acceleration(env).z, n))
    decreases n
  {
    if n > 0 {
      IteratePosition(env, Tick(env, p), n - 1);
      var a := Acceleration(env);
      TravelledStep(p.position.x, p.velocity.x, a.x, n);
      TravelledStep(p.position.y, p.velocity.y, a.y, n);
      TravelledStep(p.position.z, p.velocity.z, a.z, n);
    }
  }

  lemma TravelledStep(x: real, v: real, a: real, n: nat)
    requires n > 0
    ensures Travelled(x + v, v + a, a, n - 1) == Travelled(x, v, a, n)
  {
    var m := (n - 1) as real;
    assert ((n - 1) * (n - 2)) as real == m * (m - 1.0);
    assert (n * (n - 1)) as real == (m + 1.0) * m;
  }

  lemma VelocityStep(v: real, a: real, n: nat)
    requires n > 0
    ensures v + a + a * ((n - 1) as real) == v + a * (n as real)
  {
  }

  /**
   * The trajectory is the run of states from p: entry i is the state after
   * i ticks, and it stops early only when the next state is on or below
   * the ground.
   */
  lemma {:induction false} TrajectoryIterates(env: Environment, p: Projectile, fuel: nat)
    ensures forall i :: 0 <= i < |Trajectory(env, p, fuel)| ==> Trajectory(env, p, fuel)[i] == Iterate(env, p, i)
    ensures |Trajectory(env, p, fuel)| < fuel ==> Iterate(env, p, |Trajectory(env, p, fuel)|).position.y <= 0.0
    decreases fuel
  {
    if fuel > 0 && p.position.y > 0.0 {
      var q := Tick(env, p);
      TrajectoryIterates(env, q, fuel - 1);
      var t := Trajectory(env, p, fuel);
      forall i | 0 <= i < |t| ensures t[i] == Iterate(env, p, i) {
        if i > 0 {
          assert t[i] == Trajectory(env, q, fuel - 1)[i - 1];
        }
      }
    }
  }

  /** One tick more is one more `Tick` at the end. */
  lemma {:induction false} IterateSucc(env: Environment, p: Projectile, n: nat)
    ensures Iterate(env, p, n + 1) == Tick(env, Iterate(env, p, n))
    decreases n
  {
    if n > 0 {
      IterateSucc(env, Tick(env, p), n - 1);
    }
  }

  /**
   * The trajectory's shape: empty exactly when the launch is not above the
   * ground, otherwise it starts with the launch; each entry after the
   * first is `Tick` of the one before; and when it ends before the fuel
   * runs out, `Tick` of its last entry is on or below the ground.
   */
  lemma TrajectorySteps(env: Environment, p: Projectile, fuel: nat)
    requires fuel > 0
    ensures |Trajectory(env, p, fuel)| == 0 <==> p.position.y <= 0.0
    ensures |Trajectory(env, p, fuel)| > 0 ==> Trajectory(env, p, fuel)[0] == p
    ensures forall i :: 0 < i < |Trajectory(env, p, fuel)| ==>
              Trajectory(env, p, fuel)[i] == Tick(env, Trajectory(env, p, fuel)[i - 1])
    ensures 0 < |Trajectory(env, p, fuel)| < fuel ==>
              Tick(env, Trajectory(env, p, fuel)[|Trajectory(env, p, fuel)| - 1]).position.y <= 0.0
  {
    var t := Trajectory(env, p, fuel);
    TrajectoryIterates(env, p, fuel);
    forall i | 0 < i < |t| ensures t[i] == Tick(env, t[i - 1]) {
      IterateSucc(env, p, i - 1);
    }
    if 0 < |t| {
      IterateSucc(env, p, |t| - 1);
    }
  }

  /**
   * The first landing fixes the trajectory: if the states before tick n
   * are all above the ground and the one at tick n is not, the trajectory
   * has exactly n entries, whatever fuel at least n allows.
   */
  lemma TrajectoryLength(env: Environment, p: Projectile, fuel: nat, n: nat)
    requires n <= fuel
    requires forall i :: 0 <= i < n ==> Iterate(env, p, i).position.y > 0.0
    requires Iterate(env, p, n).position.y <= 0.0
    ensures |Trajectory(env, p, fuel)| == n
  {
    TrajectoryIterates(env, p, fuel);
  }

  /** Once the projectile lands within the fuel, more fuel changes nothing. */
  lemma TrajectoryFuel(env: Environment, p: Projectile, fuel: nat, more: nat)
    requires |Trajectory(env, p, fuel)| < fuel <= more
    ensures Trajectory(env, p, more) == Trajectory(env, p, fuel)
  {
    var t := Trajectory(env, p, fuel);
    TrajectoryIterates(env, p, fuel);
    forall i | 0 <= i < |t| ensures Iterate(env, p, i).position.y > 0.0 {
      assert t[i] == Iterate(env, p, i);
    }
    TrajectoryLength(env, p, more, |t|);
    TrajectoryIterates(env, p, more);
  }

  // The virtual cannon test: launched from (1, 1, 0) with the normalised
  // velocity (1, 1, 0), under gravity -0.1 and wind -0.01 per tick.

  /** `Vector3.Normalize(new Vector3(1, 1, 0))` is (s, s, 0) with s > 0 and s² = 1/2. */
  lemma CannonVelocity(sqrt: real -> real)
    requires SqrtOk(sqrt, 2.0)
    ensures Dot(Vector(1.0, 1.0, 0.0), Vector(1.0, 1.0, 0.0)) == 2.0
    ensures var u := Normalize(Vector(1.0, 1.0, 0.0), sqrt);
            u.x == u.y && u.x > 0.0 && u.x * u.x == 0.5 && u.z == 0.0 && u.w == 0.0
  {
    DiagonalLength(sqrt);
    var v := Vector(1.0, 1.0, 0.0);
    NormalizeUnit(v, sqrt);
    var k := 1.0 / sqrt(2.0);
    assert Normalize(v, sqrt) == Vector4(k, k, 0.0, 0.0);
  }

  lemma DiagonalLength(sqrt: real -> real)
    requires SqrtOk(sqrt, 2.0)
    ensures Dot(Vector(1.0, 1.0, 0.0), Vector(1.0, 1.0, 0.0)) == 2.0
    ensures sqrt(2.0) > 0.0
  {
  }

  const CannonEnvironment: Environment := Environment(Vector3(0.0, -0.1, 0.0), Vector3(-0.01, 0.0, 0.0))

  function CannonLaunch(s: real): Projectile {
    Projectile(Vector3(1.0, 1.0, 0.0), Vector3(s, s, 0.0))
  }

  /** The closed form at the cannon's numbers. */
  lemma CannonState(s: real, n: nat)
    ensures Iterate(CannonEnvironment, CannonLaunch(s), n).position
         == Vector3(1.0 + (n as real) * s - ((n * (n - 1)) as real / 2.0) * 0.01,
                    1.0 + (n as real) * s - ((n * (n - 1)) as real / 2.0) * 0.1,
                    0.0)
  {
    var q := Iterate(CannonEnvironment, CannonLaunch(s), n).position;
    var t := (n * (n - 1)) as real / 2.0;
    IterateClosedForm(CannonEnvironment, CannonLaunch(s), n);
    assert Acceleration(CannonEnvironment) == Vector3(-0.01, -0.1, 0.0);
    TravelledDown(1.0, s, 0.01, n);
    TravelledDown(1.0, s, 0.1, n);
    TravelledDown(0.0, 0.0, 0.0, n);
    SameComponents3(q, Vector3(1.0 + (n as real) * s - t * 0.01, 1.0 + (n as real) * s - t * 0.1, 0.0));
  }

  /** Travelling against a downward acceleration a. */
  lemma TravelledDown(x: real, v: real, a: real, n: nat)
    ensures Travelled(x, v, -a, n) == x + (n as real) * v - ((n * (n - 1)) as real / 2.0) * a
  {
  }

  /** 0.7071 < s < 0.70711 when s > 0 and s² = 1/2. */
  lemma HalfRootBounds(s: real)
    requires s > 0.0 && s * s == 0.5
    ensures 0.7071 < s < 0.70711
  {
    if s <= 0.7071 {
      if s < 0.7071 {
        SquareMonotone(s, 0.7071);
      }
    }
    if s >= 0.70711 {
      if s > 0.70711 {
        SquareMonotone(0.70711, s);
      }
    }
  }

  /** The cannon is above the ground for its first 17 states and below it at the 18th. */
  lemma CannonAltitude(s: real, n: nat)
    requires 0.7 < s < 0.71 && n <= 17
    ensures n < 17 ==> 1.0 + (n as real) * s - ((n * (n - 1)) as real / 2.0) * 0.1 > 0.0
    ensures n == 17 ==> 1.0 + (n as real) * s - ((n * (n - 1)) as real / 2.0) * 0.1 <= 0.0
  {
    var m := n as real;
    assert ((n * (n - 1)) as real) == m * m - m;
    if n < 17 {
      AltitudeBound(s, m);
    }
  }

  /** 1 + ms − (m² − m)/20 > 0 for 0 <= m <= 16 once s > 0.7. */
  lemma AltitudeBound(s: real, m: real)
    requires 0.7 < s && 0.0 <= m <= 16.0
    ensures 1.0 + m * s - (m * m - m) / 2.0 * 0.1 > 0.0
  {
    ProductNonnegative(m, s - 0.7);
    ProductNonnegative(m, 16.0 - m);
  }

  lemma ProductNonnegative(a: real, b: real)
    requires a >= 0.0 && b >= 0.0
    ensures a * b >= 0.0
  {
  }

  /**
   * The trajectory has 17 entries and the last one is at
   * (16s - 0.2, 16s - 11, 0), which is (11.114, 0.313) to within 1e-3.
   */
  lemma CannonTrajectory(s: real, fuel: nat)
    requires s > 0.0 && s * s == 0.5 && fuel >= 17
    ensures |Trajectory(CannonEnvironment, CannonLaunch(s), fuel)| == 17
    ensures Trajectory(CannonEnvironment, CannonLaunch(s), fuel)[16].position == Vector3(16.0 * s - 0.2, 16.0 * s - 11.0, 0.0)
    ensures var last := Trajectory(CannonEnvironment, CannonLaunch(s), fuel)[16].position;
            11.113 <= last.x <= 11.115 && 0.312 <= last.y <= 0.314
  {
    HalfRootBounds(s);
    CannonAloft(s);
    TrajectoryLength(CannonEnvironment, CannonLaunch(s), fuel, 17);
    TrajectoryIterates(CannonEnvironment, CannonLaunch(s), fuel);
    CannonLast(s);
  }

  lemma CannonAloft(s: real)
    requires 0.7 < s < 0.71
    ensures forall i :: 0 <= i < 17 ==> Iterate(CannonEnvironment, CannonLaunch(s), i).position.y > 0.0
    ensures Iterate(CannonEnvironment, CannonLaunch(s), 17).position.y <= 0.0
  {
    forall i | 0 <= i < 17 ensures Iterate(CannonEnvironment, CannonLaunch(s), i).position.y > 0.0 {
      CannonHeight(s, i);
    }
    CannonHeight(s, 17);
  }

  /** The cannon's height after n ticks is positive before the 17th tick and not after it. */
  lemma CannonHeight(s: real, n: nat)
    requires 0.7 < s < 0.71 && n <= 17
    ensures n < 17 ==> Iterate(CannonEnvironment, CannonLaunch(s), n).position.y > 0.0
    ensures n == 17 ==> Iterate(CannonEnvironment, CannonLaunch(s), n).position.y <= 0.0
  {
    CannonState(s, n);
    CannonAltitude(s, n);
  }

  lemma CannonLast(s: real)
    ensures Iterate(CannonEnvironment, CannonLaunch(s), 16).position == Vector3(16.0 * s - 0.2, 16.0 * s - 11.0, 0.0)
  {
    var q := Iterate(CannonEnvironment, CannonLaunch(s), 16).position;
    CannonState(s, 16);
    assert (16 * (16 - 1)) as real / 2.0 == 120.0;
    SameComponents3(q, Vector3(16.0 * s - 0.2, 16.0 * s - 11.0, 0.0));
  }
}
