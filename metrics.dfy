/** The fixed layout of the demo: a 12 x 8 grid of 20 x 20 cells (the view
    that gets squished), nested in an 18 x 24 grid of the same cells (the
    layer the distortion is anchored to). */
module Metrics {
  import Geometry

  const Rows: int := 8
  const Columns: int := 12
  const GridSize: Geometry.Size := Geometry.Size(20.0, 20.0)

  const LayerRows: int := 24
  const LayerColumns: int := 18

  /** The extent of `columns` x `rows` grid cells. */
  function Extent(columns: int, rows: int): Geometry.Size
  {
    Geometry.Size(columns as real * GridSize.width, rows as real * GridSize.height)
  }

  /** `Metrics.size`: the squished view. */
  function Size(): (s: Geometry.Size)
    ensures s == Geometry.Size(240.0, 160.0)
  {
    Extent(Columns, Rows)
  }

  /** `Metrics.Layer.size`: the layer behind the view. */
  function LayerSize(): (s: Geometry.Size)
    ensures s == Geometry.Size(360.0, 480.0)
  {
    Extent(LayerColumns, LayerRows)
  }

  /** The view fits inside the layer it is framed in, and the layer's centre,
      the distortion's anchor, is (180, 240). */
  lemma ViewInsideLayer()
    ensures Size().width <= LayerSize().width && Size().height <= LayerSize().height
    ensures Geometry.Center(LayerSize()) == Geometry.Point(180.0, 240.0)
  {
  }
}
