// Shared value types of the hunting game: the records of types.ts, the
// three-component positions the scene works with, and an Option wrapper.

module Types {

  datatype Option<+T> = None | Some(value: T)

  /** The four screens of the game (GameState in types.ts). */
  datatype GameState = Menu | Playing | Paused | Over

  datatype Weather = Clear | Foggy | Rainy | Stormy

  /** An animal's behaviour state (AnimalBehavior in types.ts). */
  datatype Behavior = Wander | Alert | Flee | Idle

  datatype Species = Deer | Wolf | Bear | Rabbit

  /** A point or displacement in the scene; y is the vertical axis. */
  datatype Vec3 = Vec3(x: real, y: real, z: real)

  /** A scent mark left by a moving animal; the timestamp is wall-clock milliseconds. */
  datatype ScentPoint = ScentPoint(position: Vec3, animalType: Species, timestamp: int)

  /** A blood mark left by a wounded animal; the timestamp is wall-clock milliseconds. */
  datatype BloodPoint = BloodPoint(position: Vec3, timestamp: int)

  /** One entry of the hunt log, written once per kill. */
  datatype HuntRecord = HuntRecord(animalType: Species, timestamp: int, distance: real, score: int)

  /** The spawn record the population keeps for each animal (Animal in types.ts). */
  datatype Animal = Animal(id: nat, species: Species, position: Vec3, rotation: real,
                           health: int, isDead: bool, behavior: Behavior)

  function Add(a: Vec3, b: Vec3): Vec3 { Vec3(a.x + b.x, a.y + b.y, a.z + b.z) }

  function Sub(a: Vec3, b: Vec3): Vec3 { Vec3(a.x - b.x, a.y - b.y, a.z - b.z) }

  function Scale(a: Vec3, k: real): Vec3 { Vec3(a.x * k, a.y * k, a.z * k) }

  /** Squared Euclidean length; distances are compared through their squares. */
  function LengthSq(a: Vec3): real { a.x * a.x + a.y * a.y + a.z * a.z }

  function DistSq(a: Vec3, b: Vec3): real { LengthSq(Sub(a, b)) }

  /** Linear interpolation from a towards b by the fraction t (Vector3.lerp). */
  function Lerp(a: Vec3, b: Vec3, t: real): Vec3 { Add(a, Scale(Sub(b, a), t)) }

  /** r is what Vector3.normalize() divides v by, as a reciprocal: 1 / |v|, and 0
      for the zero vector, which normalize leaves as it is. The caller supplies r,
      since the model has no square root. */
  predicate InvLength(v: Vec3, r: real)
  {
    r >= 0.0 && if LengthSq(v) == 0.0 then r == 0.0 else r * r * LengthSq(v) == 1.0
  }

  /** Vector3.normalize() given the reciprocal of the length. */
  function Normalize(v: Vec3, r: real): Vec3
    requires InvLength(v, r)
  {
    Scale(v, r)
  }

  /** Scaling by k scales the squared length by k * k. */
  lemma LengthSqScale(v: Vec3, k: real)
    ensures LengthSq(Scale(v, k)) == k * k * LengthSq(v)
  {
    assert (v.x * k) * (v.x * k) == k * k * (v.x * v.x);
    assert (v.y * k) * (v.y * k) == k * k * (v.y * v.y);
    assert (v.z * k) * (v.z * k) == k * k * (v.z * v.z);
  }

  /** A normalised non-zero vector scaled by len is len long. */
  lemma NormalizedLength(v: Vec3, r: real, len: real)
    requires InvLength(v, r) && LengthSq(v) > 0.0
    ensures LengthSq(Scale(Normalize(v, r), len)) == len * len
  {
    LengthSqScale(v, r * len);
    assert (r * len) * (r * len) * LengthSq(v) == len * len * (r * r * LengthSq(v));
  }

  /** The same point dropped onto the ground plane y = 0. */
  function Ground(a: Vec3): Vec3 { Vec3(a.x, 0.0, a.z) }

  function Max(a: real, b: real): real { if a >= b then a else b }

  function Min(a: real, b: real): real { if a <= b then a else b }

  /** True when every element of s is a draw of Math.random, that is in [0, 1). */
  predicate AllUnit(s: seq<real>)
  {
    forall k :: 0 <= k < |s| ==> 0.0 <= s[k] < 1.0
  }

  /** JavaScript's % on numbers: the remainder of a truncating division, so it
      has the sign of x (only x >= 0 occurs here, where it is the usual modulus). */
  function JsRem(x: real, m: real): (r: real)
    requires m > 0.0
    ensures x >= 0.0 ==> 0.0 <= r < m
  {
    var q := x / m;
    var t := if q >= 0.0 then q.Floor else -((-q).Floor);
    var f := q - t as real;
    assert x == m * q;
    assert x - m * (t as real) == m * f;
    assert q >= 0.0 ==> 0.0 <= f < 1.0;
    assert 0.0 <= f < 1.0 ==> 0.0 <= m * f < m * 1.0;
    x - m * (t as real)
  }

  /** A key name lowered the way String.prototype.toLowerCase lowers ASCII letters. */
  function LowerAscii(s: string): (r: string)
    ensures |r| == |s|
    ensures forall k :: 0 <= k < |s| ==>
      r[k] == if 'A' <= s[k] <= 'Z' then (s[k] as int + 32) as char else s[k]
  {
    if s == [] then []
    else [if 'A' <= s[0] <= 'Z' then (s[0] as int + 32) as char else s[0]] + LowerAscii(s[1..])
  }

  /** Math.PI as the double the browser uses. */
  const Pi: real := 3.141592653589793

  /** One instance of an instanced mesh: a matrix that places a point at a size,
      or a matrix scaled to zero, which draws nothing. */
  datatype Slot = Drawn(position: Vec3, scale: Vec3) | Hidden

  /** The fade Math.max(0, 1 - age / span) of a trail point age milliseconds old. */
  function Life(age: int, span: int): (r: real)
    requires span > 0
    ensures r >= 0.0
    ensures r == 0.0 <==> age >= span
    ensures age >= 0 ==> r <= 1.0
    ensures age <= 0 ==> r >= 1.0
  {
    DivAtLeastOne(age as real, span as real);
    Max(0.0, 1.0 - age as real / span as real)
  }

  lemma DivAtLeastOne(a: real, b: real)
    requires b > 0.0
    ensures a / b >= 1.0 <==> a >= b
  {
    var q := a / b;
    assert q * b == a;
    assert (q - 1.0) * b == a - b;
    if q >= 1.0 {
      assert (q - 1.0) * b >= 0.0;
    } else {
      assert (1.0 - q) * b > 0.0;
    }
  }

  /** An older point never has more life left than a younger one. */
  lemma LifeMonotone(a1: int, a2: int, span: int)
    requires span > 0 && a1 <= a2
    ensures Life(a1, span) >= Life(a2, span)
  {
    assert a1 as real / span as real <= a2 as real / span as real;
  }
}
