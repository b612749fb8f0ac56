/** The geometric half of `TrainLabeled.__getitem__` (dataset_simple.py):
    both images of a labelled pair are resized to 280 by 280, then one crop
    origin and one rotation index, drawn once, are applied to both. */
module PairedCrop {
  import opened Outcomes
  import opened Grids
  import opened Rotation

  /** Side of the intermediate resize both images go through. */
  const ResizeSide: nat := 280

  /** Number of dihedral variants `randrange(0, 8)` chooses among. */
  const Variants: nat := 8

  /** Python's `randrange(stop)`. The generator's output is the parameter
      `draw`; `draw % stop` ranges over exactly the values the generator can
      return. An empty range raises ValueError. */
  function RandRange(stop: int, draw: nat): (r: Result<nat>)
    ensures r.Ok? <==> stop > 0
    ensures r.Ok? ==> r.value < stop
    ensures 0 <= draw < stop ==> r == Ok(draw)
  {
    if stop <= 0 then Err(ValueError("empty range for randrange()")) else Ok(draw % stop)
  }

  /** The three raw draws of one `__getitem__` call. */
  datatype LabeledDraws = LabeledDraws(xDraw: nat, yDraw: nat, rotationDraw: nat)

  /** One shared parameter record: crop origin (column x, row y) and
      rotation index. */
  datatype TileParams = TileParams(x: nat, y: nat, rotation: nat)

  /** Draws the parameters for a `w`-wide, `h`-high image:
      `x, y = randrange(w - fineSize + 1), randrange(h - fineSize + 1)` and
      then `rotate_index = randrange(0, 8)`. The draw fails exactly when the
      tile does not fit, and otherwise the crop window lies inside the image. */
  function DrawTile(w: nat, h: nat, fineSize: nat, d: LabeledDraws): (r: Result<TileParams>)
    ensures r.Ok? <==> fineSize <= w && fineSize <= h
    ensures r.Err? ==> r.error.ValueError?
    ensures r.Ok? ==> r.value.x + fineSize <= w && r.value.y + fineSize <= h
    ensures r.Ok? ==> r.value.rotation < Variants
  {
    var x :- RandRange(w - fineSize + 1, d.xDraw);
    var y :- RandRange(h - fineSize + 1, d.yDraw);
    // a range of eight never fails
    var k := RandRange(Variants, d.rotationDraw).value;
    Ok(TileParams(x, y, k))
  }

  /** Every admissible parameter record is drawn by some draws: the origin
      ranges over all of [0, w - fineSize] by [0, h - fineSize]. */
  lemma EveryTileReachable(w: nat, h: nat, fineSize: nat, p: TileParams)
    requires p.x + fineSize <= w && p.y + fineSize <= h && p.rotation < Variants
    ensures DrawTile(w, h, fineSize, LabeledDraws(p.x, p.y, p.rotation)) == Ok(p)
  {
  }

  /** Crop then rotate one image with the shared parameters. */
  function ApplyTile<T>(g: Grid<T>, fineSize: nat, p: TileParams): (t: Grid<T>)
    requires IsSquare(g, ResizeSide)
    requires p.x + fineSize <= ResizeSide && p.y + fineSize <= ResizeSide && p.rotation < Variants
    ensures IsSquare(t, fineSize)
  {
    Rotate(Crop(g, p.x, p.y, fineSize), p.rotation).value
  }

  /** Output pixel (i, j) of the tile comes from one fixed input coordinate,
      determined by the parameters alone. */
  function TileSource(fineSize: nat, p: TileParams, i: nat, j: nat): (s: (nat, nat))
    requires p.rotation < Variants && i < fineSize && j < fineSize
    ensures s.0 < p.y + fineSize && s.1 < p.x + fineSize
  {
    var c := SourceOf(p.rotation, fineSize, i, j);
    (p.y + c.0, p.x + c.1)
  }

  lemma ApplyTileMovesPixels<T>(g: Grid<T>, fineSize: nat, p: TileParams)
    requires IsSquare(g, ResizeSide)
    requires p.x + fineSize <= ResizeSide && p.y + fineSize <= ResizeSide && p.rotation < Variants
    ensures forall i, j :: 0 <= i < fineSize && 0 <= j < fineSize ==>
      ApplyTile(g, fineSize, p)[i][j] == g[TileSource(fineSize, p, i, j).0][TileSource(fineSize, p, i, j).1]
  {
    RotateMovesPixels(Crop(g, p.x, p.y, fineSize), p.rotation);
  }

  /** The geometric part of `TrainLabeled.__getitem__` on the two resized
      images `a` and `b`: draw once, then crop and rotate both. The result is
      a pair of fineSize-by-fineSize tiles whenever fineSize <= 280, and the
      draw raises ValueError otherwise. */
  function TrainLabeledItem<T>(a: Grid<T>, b: Grid<T>, fineSize: nat, d: LabeledDraws): (r: Result<(Grid<T>, Grid<T>)>)
    requires IsSquare(a, ResizeSide) && IsSquare(b, ResizeSide)
    ensures r.Ok? <==> fineSize <= ResizeSide
    ensures r.Err? ==> r.error.ValueError?
    ensures r.Ok? ==> IsSquare(r.value.0, fineSize) && IsSquare(r.value.1, fineSize)
  {
    var h := |a|;
    var w := |a[0]|;
    var p :- DrawTile(w, h, fineSize, d);
    Ok((ApplyTile(a, fineSize, p), ApplyTile(b, fineSize, p)))
  }

  /** The pair stays pixel-aligned: output pixel (i, j) of both tiles comes
      from the same input coordinate, inside the crop window. */
  lemma {:induction false} LabeledPairAligned<T>(a: Grid<T>, b: Grid<T>, fineSize: nat, d: LabeledDraws, i: nat, j: nat)
    requires IsSquare(a, ResizeSide) && IsSquare(b, ResizeSide)
    requires TrainLabeledItem(a, b, fineSize, d).Ok?
    requires i < fineSize && j < fineSize
    ensures var p := DrawTile(ResizeSide, ResizeSide, fineSize, d).value;
            var s := TileSource(fineSize, p, i, j);
            var r := TrainLabeledItem(a, b, fineSize, d).value;
            s.0 < ResizeSide && s.1 < ResizeSide && r.0[i][j] == a[s.0][s.1] && r.1[i][j] == b[s.0][s.1]
  {
    var p := DrawTile(ResizeSide, ResizeSide, fineSize, d).value;
    ApplyTileMovesPixels(a, fineSize, p);
    ApplyTileMovesPixels(b, fineSize, p);
  }

  /** Transforming the pixelwise-zipped pair as one image gives the zip of
      the two transformed images. */
  lemma {:induction false} LabeledPairIsZipTransform<T>(a: Grid<T>, b: Grid<T>, fineSize: nat, d: LabeledDraws)
    requires IsSquare(a, ResizeSide) && IsSquare(b, ResizeSide)
    requires TrainLabeledItem(a, b, fineSize, d).Ok?
    ensures IsSquare(ZipGrid(a, b), ResizeSide)
    ensures var p := DrawTile(ResizeSide, ResizeSide, fineSize, d).value;
            var r := TrainLabeledItem(a, b, fineSize, d).value;
            ZipGrid(r.0, r.1) == ApplyTile(ZipGrid(a, b), fineSize, p)
  {
    var p := DrawTile(ResizeSide, ResizeSide, fineSize, d).value;
    var z := ZipGrid(a, b);
    var r := TrainLabeledItem(a, b, fineSize, d).value;
    ApplyTileMovesPixels(a, fineSize, p);
    ApplyTileMovesPixels(b, fineSize, p);
    ApplyTileMovesPixels(z, fineSize, p);
    Extensionality(ZipGrid(r.0, r.1), ApplyTile(z, fineSize, p));
  }
}
