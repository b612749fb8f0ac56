/** Images as row-major grids of pixels: `g[row][column]`. */
module Grids {

  type Grid<T> = seq<seq<T>>

  /** `g` has `h` rows of `w` pixels each. */
  predicate IsRect<T>(g: Grid<T>, h: nat, w: nat) {
    |g| == h && forall r :: 0 <= r < h ==> |g[r]| == w
  }

  predicate IsSquare<T>(g: Grid<T>, n: nat) {
    IsRect(g, n, n)
  }

  /** Two grids of the same shape. */
  predicate SameShape<A, B>(a: Grid<A>, b: Grid<B>) {
    |a| == |b| && forall r :: 0 <= r < |a| ==> |a[r]| == |b[r]|
  }

  /** Grids of one shape with equal pixels everywhere are equal. */
  lemma Extensionality<T>(a: Grid<T>, b: Grid<T>)
    requires SameShape(a, b)
    requires forall r, c :: 0 <= r < |a| && 0 <= c < |a[r]| ==> a[r][c] == b[r][c]
    ensures a == b
  {
    forall r | 0 <= r < |a|
      ensures a[r] == b[r]
    {
    }
  }

  /** Applies `f` to every pixel (a photometric, coordinate-free change). */
  function MapGrid<A, B>(f: A -> B, g: Grid<A>): (m: Grid<B>)
    ensures SameShape(m, g)
    ensures forall r, c :: 0 <= r < |g| && 0 <= c < |g[r]| ==> m[r][c] == f(g[r][c])
  {
    seq(|g|, r requires 0 <= r < |g| => seq(|g[r]|, c requires 0 <= c < |g[r]| => f(g[r][c])))
  }

  /** Pairs up the pixels of two same-shaped grids. */
  function ZipGrid<A, B>(a: Grid<A>, b: Grid<B>): (z: Grid<(A, B)>)
    requires SameShape(a, b)
    ensures SameShape(z, a)
    ensures forall r, c :: 0 <= r < |a| && 0 <= c < |a[r]| ==> z[r][c] == (a[r][c], b[r][c])
  {
    seq(|a|, r requires 0 <= r < |a| => seq(|a[r]|, c requires 0 <= c < |a[r]| => (a[r][c], b[r][c])))
  }

  /** PIL's `crop((x, y, x + size, y + size))` on a box inside the image:
      `x` is the left column and `y` the upper row. */
  function Crop<T>(g: Grid<T>, x: nat, y: nat, size: nat): (t: Grid<T>)
    requires y + size <= |g|
    requires forall r :: y <= r < y + size ==> x + size <= |g[r]|
    ensures IsSquare(t, size)
    ensures forall i, j :: 0 <= i < size && 0 <= j < size ==> t[i][j] == g[y + i][x + j]
  {
    seq(size, i requires 0 <= i < size => seq(size, j requires 0 <= j < size => g[y + i][x + j]))
  }
}
