/**
 * Sizing of the per-core tile grid on the performance page: how many
 * columns fit the container, how many rows the cores then need, and a tile
 * size fitted to the space and clamped to a comfortable range.
 */
module CoreTiles {
  import opened Wrappers
  import opened Numerics

  const MinTileWidth := 110.0
  const MaxTileWidth := 180.0
  const HorizontalGap := 20.0
  const VerticalGap := 18.0
  const FallbackTileHeight := 80.0

  /** What is applied to the wrap grid. */
  datatype TileSizing = TileSizing(itemWidth: real, itemHeight: real, columns: nat)

  /** The cores the grid lays out: the CPU's physical count when positive,
    * else the number of tiles, and at least 1. */
  function CoreCount(physicalCores: Option<int>, tileCount: Option<nat>): (n: nat)
    ensures n >= 1
    ensures physicalCores.Some? && physicalCores.value > 0 ==> n == physicalCores.value
    ensures !(physicalCores.Some? && physicalCores.value > 0) && tileCount.Some? && tileCount.value > 0 ==>
      n == tileCount.value
  {
    var c := if physicalCores.Some? && physicalCores.value > 0 then physicalCores.value
             else tileCount.GetOr(0);
    if c <= 0 then 1 else c
  }

  /** Columns from the width, at least 1 and at most the core count. */
  function Columns(availableW: real, cores: nat): (c: nat)
    requires cores >= 1
    ensures 1 <= c <= cores
    // every tile of minimum width fits with its gaps, unless a single column is forced
    ensures c == 1 || c as real * (MinTileWidth + HorizontalGap) <= availableW + HorizontalGap
    // one more column would not fit, unless the core count caps the columns
    ensures c == cores || (c + 1) as real * (MinTileWidth + HorizontalGap) > availableW + HorizontalGap
  {
    var byWidth := Floor((availableW + HorizontalGap) / (MinTileWidth + HorizontalGap));
    assert byWidth as real * (MinTileWidth + HorizontalGap) <= availableW + HorizontalGap;
    assert (byWidth + 1) as real * (MinTileWidth + HorizontalGap) > availableW + HorizontalGap;
    var c := if byWidth < 1 then 1 else byWidth;
    if c > cores then cores else c
  }

  /** The raw fitted size when positive, else the fallback, clamped to [lo, hi]. */
  function FitTile(space: real, count: nat, gap: real, fallback: real, lo: real, hi: real): (r: real)
    requires count >= 1 && lo <= hi
    ensures lo <= r <= hi
    ensures Floor((space - (count - 1) as real * gap) / count as real) > 0 ==>
      r == Clamp(Floor((space - (count - 1) as real * gap) / count as real) as real, lo, hi)
    ensures Floor((space - (count - 1) as real * gap) / count as real) <= 0 ==> r == Clamp(fallback, lo, hi)
  {
    var raw := Floor((space - (count - 1) as real * gap) / count as real) as real;
    var size := if raw <= 0.0 then fallback else raw;
    Max(lo, Min(hi, size))
  }

  /** RecomputeCoreTileSizing; None where nothing is applied because the
    * available width or height (actual size less 4) is not positive. */
  function RecomputeCoreTileSizing(actualW: real, actualH: real, physicalCores: Option<int>, tileCount: Option<nat>)
    : (r: Option<TileSizing>)
    ensures r.None? <==> actualW - 4.0 <= 0.0 || actualH - 4.0 <= 0.0
    ensures r.Some? ==>
      && 1 <= r.value.columns <= CoreCount(physicalCores, tileCount)
      && 88.0 <= r.value.itemWidth <= 180.0
      && 70.0 <= r.value.itemHeight <= 140.0
  {
    var availableW := Max(0.0, actualW - 4.0);
    var availableH := Max(0.0, actualH - 4.0);
    if availableW <= 0.0 || availableH <= 0.0 then None
    else
      var cores := CoreCount(physicalCores, tileCount);
      var columns := Columns(availableW, cores);
      var rows := CeilDiv(cores, columns);
      var rows' := if rows < 1 then 1 else rows;
      Some(TileSizing(
        FitTile(availableW, columns, HorizontalGap, MinTileWidth, 88.0, MaxTileWidth),
        FitTile(availableH, rows', VerticalGap, FallbackTileHeight, 70.0, 140.0),
        columns))
  }

  /** The rows the grid needs for a column count: every core has a cell and no row is empty. */
  lemma RowsCoverCores(cores: nat, columns: nat)
    requires 1 <= columns <= cores
    ensures CeilDiv(cores, columns) >= 1
    ensures CeilDiv(cores, columns) * columns >= cores
    ensures (CeilDiv(cores, columns) - 1) * columns < cores
  {
  }

  /** When the fitted width is not raised to the lower clamp, a row of tiles
    * with its gaps fits the available width. */
  lemma RowFitsWidth(availableW: real, columns: nat)
    requires columns >= 1
    requires Floor((availableW - (columns - 1) as real * HorizontalGap) / columns as real) >= 88
    ensures var w := FitTile(availableW, columns, HorizontalGap, MinTileWidth, 88.0, MaxTileWidth);
      columns as real * w + (columns - 1) as real * HorizontalGap <= availableW
  {
    var q := (availableW - (columns - 1) as real * HorizontalGap) / columns as real;
    var raw := Floor(q) as real;
    var w := FitTile(availableW, columns, HorizontalGap, MinTileWidth, 88.0, MaxTileWidth);
    assert w <= raw <= q;
    assert columns as real * w <= columns as real * q by {
      MultiplyMonotone(columns as real, w, q);
    }
    assert columns as real * q == availableW - (columns - 1) as real * HorizontalGap;
  }

  lemma MultiplyMonotone(c: real, a: real, b: real)
    requires c >= 0.0 && a <= b
    ensures c * a <= c * b
  {
  }
}
