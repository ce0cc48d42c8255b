/**
 * Decoded images as pixel rows, and the crop of an image to a box with
 * half-open bounds: columns left..right-1 and rows top..bottom-1.
 */
module Images {
  import opened Geometry

  /** A colour value; 0 is the fill used outside the source image. */
  type Pixel = int

  datatype Image = Image(width: nat, height: nat, rows: seq<seq<Pixel>>)

  /** `height` rows of `width` pixels each. */
  ghost predicate WellFormed(img: Image) {
    |img.rows| == img.height && forall j :: 0 <= j < |img.rows| ==> |img.rows[j]| == img.width
  }

  /** The pixel at column `x`, row `y`, or the zero fill outside the image. */
  function PixelAt(img: Image, x: int, y: int): (p: Pixel) {
    if 0 <= y < |img.rows| && 0 <= x < |img.rows[y]| then img.rows[y][x] else 0
  }

  /**
   * The part of `img` inside the half-open box: columns `left` up to
   * `right`, rows `top` up to `bottom`, zero fill where the box leaves the image.
   */
  function Crop(img: Image, b: Box): (r: Image)
    requires b.left <= b.right && b.top <= b.bottom
    ensures WellFormed(r)
    ensures r.width == b.right - b.left && r.height == b.bottom - b.top
    ensures forall j, i :: 0 <= j < r.height && 0 <= i < r.width ==>
              r.rows[j][i] == PixelAt(img, b.left + i, b.top + j)
  {
    var w := b.right - b.left;
    var h := b.bottom - b.top;
    Image(w, h, seq(h, j requires 0 <= j < h => seq(w, i requires 0 <= i < w => PixelAt(img, b.left + i, b.top + j))))
  }

  /** Cropping to the whole image gives the image back. */
  lemma CropWholeImage(img: Image)
    requires WellFormed(img)
    ensures Crop(img, Box(0, 0, img.width, img.height)) == img
  {
    var r := Crop(img, Box(0, 0, img.width, img.height));
    forall j | 0 <= j < img.height
      ensures r.rows[j] == img.rows[j]
    {
      assert |r.rows[j]| == |img.rows[j]|;
    }
  }

  /** A crop of a crop, inside its bounds, is one crop of the original image. */
  lemma CropOfCrop(img: Image, outer: Box, inner: Box)
    requires outer.left <= outer.right && outer.top <= outer.bottom
    requires 0 <= inner.left <= inner.right <= outer.right - outer.left
    requires 0 <= inner.top <= inner.bottom <= outer.bottom - outer.top
    ensures Crop(Crop(img, outer), inner) ==
            Crop(img, Box(outer.left + inner.left, outer.top + inner.top,
                          outer.left + inner.right, outer.top + inner.bottom))
  {
    var o := Crop(img, outer);
    var whole := Box(outer.left + inner.left, outer.top + inner.top,
                     outer.left + inner.right, outer.top + inner.bottom);
    var r1, r2 := Crop(o, inner), Crop(img, whole);
    forall j | 0 <= j < r1.height
      ensures r1.rows[j] == r2.rows[j]
    {
      forall i | 0 <= i < r1.width
        ensures r1.rows[j][i] == r2.rows[j][i]
      {
        assert r1.rows[j][i] == PixelAt(o, inner.left + i, inner.top + j);
      }
    }
  }

  /** Box (10, 5, 50, 60) gives a 40 by 55 image. */
  lemma CropExample(img: Image)
    ensures Crop(img, Box(10, 5, 50, 60)).width == 40
    ensures Crop(img, Box(10, 5, 50, 60)).height == 55
  {
  }
}
