/** Board coordinates as integer pairs: the `Vector` class of script.js. */
module Geometry {

  /** A (row, column) pair; no intrinsic bounds. */
  datatype Vector = Vector(r: int, c: int) {

    /** Component-wise addition. */
    function Sum(v: Vector): Vector {
      Vector(r + v.r, c + v.c)
    }

    /** Scaling both components by `s`. */
    function Scaled(s: int): Vector {
      Vector(r * s, c * s)
    }

    /** Equality by components. */
    predicate IsEqualTo(v: Vector) {
      r == v.r && c == v.c
    }
  }

  /** `IsEqualTo` is exactly value equality, so positions may key a map. */
  lemma IsEqualToIsEquality(a: Vector, b: Vector)
    ensures a.IsEqualTo(b) <==> a == b
  {
  }

  /** Scaling by -1 mirrors across both axes and undoes itself. */
  lemma MirrorInvolutive(v: Vector)
    ensures v.Scaled(-1) == Vector(-v.r, -v.c)
    ensures v.Scaled(-1).Scaled(-1) == v
  {
  }

  /** Stepping by `v` and then by `v` mirrored returns to the start, so every step can be undone. */
  lemma SumUndone(a: Vector, v: Vector)
    ensures a.Sum(v).Sum(v.Scaled(-1)) == a
  {
  }

  /** Scaling distributes over a sum of step counts: walking `j` then `k` steps is walking `j + k`. */
  lemma ScaledAdds(v: Vector, j: int, k: int)
    ensures v.Scaled(j).Sum(v.Scaled(k)) == v.Scaled(j + k)
  {
    assert v.r * j + v.r * k == v.r * (j + k);
    assert v.c * j + v.c * k == v.c * (j + k);
  }
}
