/** Shared values of the game: optional JavaScript values, 3-D positions,
    grid coordinates, and JavaScript's truthiness rules for the few value
    kinds the core inspects with `||` and `!`. */
module Values {

  /** A JavaScript value that may be `null` or `undefined`. */
  datatype Option<+T> = None | Some(value: T)

  /** A world-space position `{x, y, z}`. Floating-point numbers are modelled
      as exact reals. */
  datatype Vec3 = Vec3(x: real, y: real, z: real)

  /** A grid cell address as the scene code stores it: `x` is the column,
      `y` the row. */
  datatype GridCoord = GridCoord(x: int, y: int)

  /** A string is truthy when it is present and not empty. */
  predicate TruthyString(s: Option<string>) {
    s.Some? && s.value != ""
  }

  /** A number is truthy when it is present and not zero. */
  predicate TruthyInt(n: Option<int>) {
    n.Some? && n.value != 0
  }

  predicate TruthyReal(n: Option<real>) {
    n.Some? && n.value != 0.0
  }

  /** `s || fallback` for strings. */
  function StringOr(s: Option<string>, fallback: string): (r: string)
    ensures TruthyString(s) ==> r == s.value
    ensures !TruthyString(s) ==> r == fallback
  {
    if TruthyString(s) then s.value else fallback
  }

  /** `n || fallback` for numbers. */
  function IntOr(n: Option<int>, fallback: int): (r: int)
    ensures TruthyInt(n) ==> r == n.value
    ensures !TruthyInt(n) ==> r == fallback
  {
    if TruthyInt(n) then n.value else fallback
  }

  function RealOr(n: Option<real>, fallback: real): (r: real)
    ensures TruthyReal(n) ==> r == n.value
    ensures !TruthyReal(n) ==> r == fallback
  {
    if TruthyReal(n) then n.value else fallback
  }

  function Min(a: int, b: int): (r: int)
    ensures r <= a && r <= b && (r == a || r == b)
  {
    if a <= b then a else b
  }

  function Max(a: int, b: int): (r: int)
    ensures r >= a && r >= b && (r == a || r == b)
  {
    if a >= b then a else b
  }

  /** JavaScript's `a % m` for a positive modulus: the remainder takes the
      sign of the dividend (Dafny's `%` never returns a negative value). */
  function TruncRem(a: int, m: int): (r: int)
    requires m > 0
    ensures a >= 0 ==> 0 <= r < m && r == a % m
    ensures a < 0 ==> -m < r <= 0 && r == -((-a) % m)
  {
    if a >= 0 then a % m else -((-a) % m)
  }

  /** `Math.round(v)`: halves round up. */
  function Round(v: real): (r: int)
    ensures r as real - 0.5 <= v < r as real + 0.5
  {
    (v + 0.5).Floor
  }
}
