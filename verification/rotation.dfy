/** The eight dihedral variants of a square tile chosen by `rotate`
    (dataset_simple.py). PIL's `rotate(90)` turns the picture a quarter turn
    counter-clockwise on the same canvas; `FLIP_TOP_BOTTOM` reverses the
    order of the rows. */
module Rotation {
  import opened Grids
  import opened Outcomes

  /** Quarter turn counter-clockwise: the right column becomes the top row. */
  function Rot90<T>(g: Grid<T>): (t: Grid<T>)
    requires IsSquare(g, |g|)
    ensures IsSquare(t, |g|)
  {
    var n := |g|;
    seq(n, i requires 0 <= i < n => seq(n, j requires 0 <= j < n => g[j][n - 1 - i]))
  }

  /** Half turn. */
  function Rot180<T>(g: Grid<T>): (t: Grid<T>)
    requires IsSquare(g, |g|)
    ensures IsSquare(t, |g|)
  {
    var n := |g|;
    seq(n, i requires 0 <= i < n => seq(n, j requires 0 <= j < n => g[n - 1 - i][n - 1 - j]))
  }

  /** Three quarter turns counter-clockwise: the left column becomes the top
      row, read bottom-up. */
  function Rot270<T>(g: Grid<T>): (t: Grid<T>)
    requires IsSquare(g, |g|)
    ensures IsSquare(t, |g|)
  {
    var n := |g|;
    seq(n, i requires 0 <= i < n => seq(n, j requires 0 <= j < n => g[n - 1 - j][i]))
  }

  /** The rows in reverse order. */
  function FlipTopBottom<T>(g: Grid<T>): (t: Grid<T>)
    requires IsSquare(g, |g|)
    ensures IsSquare(t, |g|)
  {
    var n := |g|;
    seq(n, i requires 0 <= i < n => g[n - 1 - i])
  }

  /** `rotate(img, rotate_index)`: indices 0-3 turn by 0, 90, 180, 270
      degrees, 4-7 do the same and then flip top to bottom; any other index
      falls through every test and yields Python's `None`. */
  function Rotate<T>(img: Grid<T>, k: int): (r: Option<Grid<T>>)
    requires IsSquare(img, |img|)
    ensures r.Some? <==> 0 <= k < 8
    ensures r.Some? ==> IsSquare(r.value, |img|)
  {
    if k == 0 then Some(img)
    else if k == 1 then Some(Rot90(img))
    else if k == 2 then Some(Rot180(img))
    else if k == 3 then Some(Rot270(img))
    else if k == 4 then Some(FlipTopBottom(img))
    else if k == 5 then Some(FlipTopBottom(Rot90(img)))
    else if k == 6 then Some(FlipTopBottom(Rot180(img)))
    else if k == 7 then Some(FlipTopBottom(Rot270(img)))
    else None
  }

  /** Reference definition of the eight variants by coordinates alone: output
      pixel (i, j) of variant k on an n-by-n tile is input pixel
      SourceOf(k, n, i, j). Variant 5 is the transpose, 6 the left-right
      mirror and 7 the anti-transpose. */
  function SourceOf(k: nat, n: nat, i: nat, j: nat): (s: (nat, nat))
    requires k < 8 && i < n && j < n
    ensures s.0 < n && s.1 < n
  {
    match k
    case 0 => (i, j)
    case 1 => (j, n - 1 - i)
    case 2 => (n - 1 - i, n - 1 - j)
    case 3 => (n - 1 - j, i)
    case 4 => (n - 1 - i, j)
    case 5 => (j, i)
    case 6 => (i, n - 1 - j)
    case _ => (n - 1 - j, n - 1 - i)
  }

  /** The variant each variant is undone by. */
  function InverseIndex(k: nat): (k': nat)
    requires k < 8
    ensures k' < 8
  {
    if k == 1 then 3 else if k == 3 then 1 else k
  }

  /** `rotate` only moves pixels: every output pixel is the input pixel at
      the coordinates the reference map gives, whatever the pixel type. */
  lemma RotateMovesPixels<T>(img: Grid<T>, k: nat)
    requires IsSquare(img, |img|) && k < 8
    ensures forall i, j :: 0 <= i < |img| && 0 <= j < |img| ==>
      Rotate(img, k).value[i][j] == img[SourceOf(k, |img|, i, j).0][SourceOf(k, |img|, i, j).1]
  {
  }

  /** Following variant k by its inverse restores every coordinate. */
  lemma SourceOfInverse(k: nat, n: nat, i: nat, j: nat)
    requires k < 8 && i < n && j < n
    ensures var s := SourceOf(InverseIndex(k), n, i, j); SourceOf(k, n, s.0, s.1) == (i, j)
  {
  }

  /** Every variant is a bijection of the tile: applying its inverse variant
      afterwards gives the tile back. */
  lemma {:induction false} RotateInverse<T>(img: Grid<T>, k: nat)
    requires IsSquare(img, |img|) && k < 8
    ensures Rotate(Rotate(img, k).value, InverseIndex(k)) == Some(img)
  {
    var n := |img|;
    var once := Rotate(img, k).value;
    var twice := Rotate(once, InverseIndex(k)).value;
    RotateMovesPixels(img, k);
    RotateMovesPixels(once, InverseIndex(k));
    forall i, j | 0 <= i < n && 0 <= j < n
      ensures twice[i][j] == img[i][j]
    {
      SourceOfInverse(k, n, i, j);
    }
    Extensionality(twice, img);
  }

  /** Index 0 is the identity, and the half turn (2) and the flip (4) are
      involutions. */
  lemma IdentityAndInvolutions<T>(img: Grid<T>)
    requires IsSquare(img, |img|)
    ensures Rotate(img, 0) == Some(img)
    ensures Rotate(Rotate(img, 2).value, 2) == Some(img)
    ensures Rotate(Rotate(img, 4).value, 4) == Some(img)
  {
    RotateInverse(img, 2);
    RotateInverse(img, 4);
  }

  /** Indices 4-7 are indices 0-3 followed by the top-bottom flip. */
  lemma FlippedVariants<T>(img: Grid<T>, k: nat)
    requires IsSquare(img, |img|) && k < 4
    ensures Rotate(img, k + 4) == Some(FlipTopBottom(Rotate(img, k).value))
  {
  }

  /** A 2-by-2 tile with four different pixels. */
  const Marker: Grid<int> := [[0, 1], [2, 3]]

  /** The eight variants are pairwise different: on the marker tile the top
      row alone tells them apart. */
  lemma {:induction false} VariantsDistinct(k1: nat, k2: nat)
    requires k1 < 8 && k2 < 8 && k1 != k2
    ensures Rotate(Marker, k1) != Rotate(Marker, k2)
  {
    assert IsSquare(Marker, 2);
    RotateMovesPixels(Marker, k1);
    RotateMovesPixels(Marker, k2);
    var t1 := Rotate(Marker, k1).value;
    var t2 := Rotate(Marker, k2).value;
    assert [t1[0][0], t1[0][1]] != [t2[0][0], t2[0][1]] by {
      assert t1[0][0] == Marker[SourceOf(k1, 2, 0, 0).0][SourceOf(k1, 2, 0, 0).1];
      assert t1[0][1] == Marker[SourceOf(k1, 2, 0, 1).0][SourceOf(k1, 2, 0, 1).1];
      assert t2[0][0] == Marker[SourceOf(k2, 2, 0, 0).0][SourceOf(k2, 2, 0, 0).1];
      assert t2[0][1] == Marker[SourceOf(k2, 2, 0, 1).0][SourceOf(k2, 2, 0, 1).1];
    }
  }

  /** The quarter turn is counter-clockwise, as PIL's `rotate(90)` is: the
      right column of the marker tile becomes its top row. */
  lemma TurnDirection()
    ensures IsSquare(Marker, |Marker|)
    ensures Rotate(Marker, 1) == Some([[1, 3], [0, 2]])
  {
    var t := Rot90(Marker);
    assert t[0] == [1, 3] && t[1] == [0, 2];
    assert |t| == 2 && t == [t[0], t[1]];
  }

  /** Two quarter turns in the same direction make the half turn. */
  lemma QuarterTurnsCompose<T>(g: Grid<T>)
    requires IsSquare(g, |g|)
    ensures Rot90(Rot90(g)) == Rot180(g)
  {
    var once := Rot90(g);
    Extensionality(Rot90(once), Rot180(g));
  }

  /** Any pixelwise conversion (such as `ToTensor`'s scaling) commutes with
      every variant: the geometry does not look at pixel values. */
  lemma {:induction false} RotateCommutesWithMap<A, B>(f: A -> B, img: Grid<A>, k: nat)
    requires IsSquare(img, |img|) && k < 8
    ensures IsSquare(MapGrid(f, img), |img|)
    ensures Rotate(MapGrid(f, img), k) == Some(MapGrid(f, Rotate(img, k).value))
  {
    var m := MapGrid(f, img);
    RotateMovesPixels(img, k);
    RotateMovesPixels(m, k);
    Extensionality(Rotate(m, k).value, MapGrid(f, Rotate(img, k).value));
  }

  /** Turning a pixelwise-zipped pair is the same as zipping the two turned
      tiles: one shared index keeps the pair aligned. */
  lemma {:induction false} RotateCommutesWithZip<A, B>(a: Grid<A>, b: Grid<B>, k: nat)
    requires IsSquare(a, |a|) && IsSquare(b, |a|) && k < 8
    ensures IsSquare(ZipGrid(a, b), |a|)
    ensures Rotate(ZipGrid(a, b), k) == Some(ZipGrid(Rotate(a, k).value, Rotate(b, k).value))
  {
    var z := ZipGrid(a, b);
    RotateMovesPixels(a, k);
    RotateMovesPixels(b, k);
    RotateMovesPixels(z, k);
    Extensionality(Rotate(z, k).value, ZipGrid(Rotate(a, k).value, Rotate(b, k).value));
  }
}
