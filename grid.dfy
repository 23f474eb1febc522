/**
 * Integer lattice, entity handles and the small numeric helpers shared by
 * every system of the model.
 */
module Grid {

  /** A lattice cell or a lattice vector (Unity.Mathematics.int3). */
  datatype Int3 = Int3(x: int, y: int, z: int)

  const Zero3 := Int3(0, 0, 0)

  function Add(a: Int3, b: Int3): Int3 { Int3(a.x + b.x, a.y + b.y, a.z + b.z) }

  function Neg(a: Int3): Int3 { Int3(-a.x, -a.y, -a.z) }

  function Scale(d: Int3, k: int): Int3 { Int3(d.x * k, d.y * k, d.z * k) }

  /** The cell `i` steps away from `start` along `dir`, that is start + dir * i. */
  function Along(start: Int3, dir: Int3, i: int): Int3 { Add(start, Scale(dir, i)) }

  /** Exactly one component is non-zero and it is +1 or -1. */
  predicate IsUnitAxis(d: Int3)
  {
    || ((d.x == 1 || d.x == -1) && d.y == 0 && d.z == 0)
    || (d.x == 0 && (d.y == 1 || d.y == -1) && d.z == 0)
    || (d.x == 0 && d.y == 0 && (d.z == 1 || d.z == -1))
  }

  /** Along a unit axis, distinct step counts give distinct cells. */
  lemma AlongInjective(start: Int3, dir: Int3, i: int, j: int)
    requires IsUnitAxis(dir) && i != j
    ensures Along(start, dir, i) != Along(start, dir, j)
  {
  }

  /**
   * Entity handles. Handle 0 plays the part of Entity.Null; live entities
   * always have a positive handle.
   */
  type Entity = nat

  const NullEntity: Entity := 0

  datatype Option<T> = None | Some(value: T)

  function Max(a: int, b: int): int { if a >= b then a else b }

  function Min(a: int, b: int): int { if a <= b then a else b }

  /** math.clamp(v, lo, hi), which is max(lo, min(hi, v)). */
  function Clamp(v: int, lo: int, hi: int): int { Max(lo, Min(hi, v)) }

  function MaxReal(a: real, b: real): real { if a >= b then a else b }

  /** math.saturate: clamp a real to [0, 1]. */
  function Saturate(v: real): real { if v < 0.0 then 0.0 else if v > 1.0 then 1.0 else v }

  /** The C# remainder `a % b`: it truncates toward zero, so it takes the sign of `a`. */
  function CsRem(a: int, b: int): int
    requires b != 0
  {
    if a >= 0 then a % b else -((-a) % b)
  }

  const IntMax: int := 0x7FFF_FFFF
  const IntMin: int := -0x8000_0000

  predicate IsInt32(v: int) { IntMin <= v <= IntMax }

  /** Two's-complement wrap-around of a 32-bit `int` result. */
  function Wrap32(v: int): int
  {
    (v - IntMin) % 0x1_0000_0000 + IntMin
  }
}
