/** Value types shared by the voxel pipeline: the engine's vector and colour
    structs restricted to the values the core produces, C#'s truncating integer
    division, and the one sequence fact the enumerations need. */
module Primitives {

  /** An engine Vector3 whose coordinates are integral, which is every vertex,
      cube corner and face-check vector the core builds. */
  datatype Vec3 = Vec3(x: int, y: int, z: int) {
    function Plus(o: Vec3): Vec3 { Vec3(x + o.x, y + o.y, z + o.z) }
    function Neg(): Vec3 { Vec3(-x, -y, -z) }
  }

  /** A texture coordinate. */
  datatype Vec2 = Vec2(u: real, v: real)

  predicate InUnitSquare(p: Vec2) {
    0.0 <= p.u <= 1.0 && 0.0 <= p.v <= 1.0
  }

  /** An engine Color; `CLEAR` is the value a fresh Color[] holds. */
  datatype Color = Color(r: real, g: real, b: real, a: real)

  const CLEAR: Color := Color(0.0, 0.0, 0.0, 0.0)

  datatype Option<T> = None | Some(value: T)

  /** C#'s `/` on `int`: the quotient is truncated toward zero, so the
      remainder takes the sign of the dividend. */
  function TruncDiv(a: int, n: int): (q: int)
    requires n > 0
    ensures 0 <= a ==> 0 <= a - q * n < n && q >= 0
    ensures a < 0 ==> -n < a - q * n <= 0 && q <= 0
  {
    if a >= 0 then a / n else -((-a) / n)
  }

  predicate Distinct<T(==)>(s: seq<T>) {
    forall i, j :: 0 <= i < j < |s| ==> s[i] != s[j]
  }

  lemma DistinctConcat<T>(a: seq<T>, b: seq<T>)
    requires Distinct(a) && Distinct(b)
    requires forall t :: t in a ==> t !in b
    ensures Distinct(a + b)
  {
    forall i, j | 0 <= i < j < |a + b|
      ensures (a + b)[i] != (a + b)[j]
    {
      if j < |a| {
      } else if i >= |a| {
        assert (a + b)[i] == b[i - |a|] && (a + b)[j] == b[j - |a|];
      } else {
        assert (a + b)[i] in a && (a + b)[j] in b;
      }
    }
  }

  /** Dropping the head of a sequence of distinct elements keeps the rest
      distinct and free of the head. */
  lemma DistinctTail<T>(s: seq<T>)
    requires |s| > 0 && Distinct(s)
    ensures Distinct(s[1..]) && s[0] !in s[1..]
    ensures forall t :: t in s <==> t == s[0] || t in s[1..]
  {
    assert s == [s[0]] + s[1..];
    forall i | 0 <= i < |s[1..]|
      ensures s[1..][i] != s[0]
    {
      assert s[1..][i] == s[i + 1];
    }
  }

  /** One more row of `width` adds `width`. */
  lemma MulStep(y: int, width: int)
    ensures (y + 1) * width == y * width + width
  {
  }

  /** Concatenation is associative. */
  lemma AppendAssoc<T>(a: seq<T>, b: seq<T>, c: seq<T>)
    ensures (a + b) + c == a + (b + c)
  {
  }

  /** The first part of a concatenation is its prefix. */
  lemma AppendPrefix<T>(a: seq<T>, b: seq<T>)
    ensures |a| <= |a + b| && (a + b)[..|a|] == a
  {
  }
}
