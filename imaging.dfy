/**
  Rasters and the few image-library calls the thumbnailer makes.

  An image is a rectangle of ARGB32 pixels. Allocation and `copy` are
  modelled as the toolkit documents them, up to its allocation limit; the three resampling calls are opaque: a `Resampler`
  is any triple of functions, and `Lawful` states the only facts the
  model relies on (the dimension each call is named for).
*/
module Imaging {

  /** One pixel of a `QImage.Format_ARGB32` raster. */
  type Pixel = bv32

  /** A size as the toolkit reports it; a zero or negative side means empty. */
  datatype Size = Size(width: int, height: int) {
    predicate IsEmpty() {
      width <= 0 || height <= 0
    }
  }

  /** What the rendering engine paints at column x, row y of the viewport. */
  type Canvas = (int, int) -> Pixel

  /** A raster: `rows[y][x]` is the pixel at column x, row y. */
  datatype Image = Image(width: nat, height: nat, rows: seq<seq<Pixel>>) {

    /** Every row is `width` pixels long and there are `height` rows. */
    ghost predicate Valid() {
      |rows| == height && forall y :: 0 <= y < |rows| ==> |rows[y]| == width
    }

    /** A null image in the toolkit's sense: it holds no pixel. */
    predicate IsNull() {
      width == 0 || height == 0
    }
  }

  /** The toolkit's null image. */
  const Null: Image := Image(0, 0, [])

  /**
    A raster allocated at `size` and painted by the engine. An empty size
    gives the null image, as the toolkit does.
  */
  function Raster(size: Size, paint: Canvas): (img: Image)
    ensures img.Valid()
    ensures size.IsEmpty() <==> img.IsNull()
    ensures !size.IsEmpty() ==> img.width == size.width && img.height == size.height
    ensures forall y, x :: 0 <= y < img.height && 0 <= x < img.width ==> img.rows[y][x] == paint(x, y)
  {
    if size.IsEmpty() then Null
    else Image(size.width, size.height, seq(size.height, y => seq(size.width, x => paint(x, y))))
  }

  /**
    `QImage.copy(x, y, w, h)`: a `w` by `h` raster whose pixel (i, j) is the
    source pixel (x + i, y + j), or 0 where that lies outside the source.
    Copying from a null image gives the null image.
  */
  function Copy(img: Image, x: int, y: int, w: int, h: int): (r: Image)
    requires img.Valid()
    requires w > 0 && h > 0
    ensures r.Valid()
    ensures img.IsNull() ==> r == Null
    ensures !img.IsNull() ==> r.width == w && r.height == h
    ensures !img.IsNull() ==> forall j, i :: 0 <= j < h && 0 <= i < w ==>
      r.rows[j][i] == if 0 <= x + i < img.width && 0 <= y + j < img.height then img.rows[y + j][x + i] else 0
  {
    if img.IsNull() then Null
    else Image(w, h, seq(h, j => seq(w, i =>
      if 0 <= x + i < img.width && 0 <= y + j < img.height then img.rows[y + j][x + i] else 0)))
  }

  /**
    The toolkit's smooth resampling calls: `scaledToWidth(w)`,
    `scaledToHeight(h)` and `scaled(w, h, KeepAspectRatioByExpanding)`.
  */
  datatype Resampler = Resampler(
    toWidth: (Image, int) -> Image,
    toHeight: (Image, int) -> Image,
    expanding: (Image, int, int) -> Image)

  /**
    What the model assumes of the resampling calls: they return well-formed
    rasters, and on a non-null source with a positive target the result has
    the dimension the call is named for; the expanding scale covers the
    whole target box. The resulting other dimension and the pixels are left open.
  */
  ghost predicate Lawful(rs: Resampler) {
    && (forall img: Image, w: int :: img.Valid() ==>
          rs.toWidth(img, w).Valid() &&
          (!img.IsNull() && w > 0 ==> rs.toWidth(img, w).width == w))
    && (forall img: Image, h: int :: img.Valid() ==>
          rs.toHeight(img, h).Valid() &&
          (!img.IsNull() && h > 0 ==> rs.toHeight(img, h).height == h))
    && (forall img: Image, w: int, h: int :: img.Valid() ==>
          rs.expanding(img, w, h).Valid() &&
          (!img.IsNull() && w > 0 && h > 0 ==>
             rs.expanding(img, w, h).width >= w && rs.expanding(img, w, h).height >= h))
  }

  /** `part` is the top-left corner, anchored at (0, 0), of `whole`. */
  ghost predicate TopLeftOf(part: Image, whole: Image) {
    && part.Valid() && whole.Valid()
    && part.width <= whole.width && part.height <= whole.height
    && forall y, x :: 0 <= y < part.height && 0 <= x < part.width ==> part.rows[y][x] == whole.rows[y][x]
  }
}
