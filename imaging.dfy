/** Images as opaque tiles. Pixels are never modelled: an image carries its shape
    (height, width, channels) and a symbolic record of how it was produced, so that the
    model can say which crop, resize and flip were applied to which decoded picture. */
module Imaging {

  /** Rows removed at the top and bottom, columns removed at the left and right. */
  datatype Bounds = Bounds(top: nat, bottom: nat, left: nat, right: nat)

  /** The `dsize` argument of cv2.resize, which is (width, height). */
  datatype OutputSize = OutputSize(width: nat, height: nat)

  datatype Content =
    | Decoded(id: nat)                       // what cv2.imread or model.predict produced
    | Zeros                                  // np.zeros: a black tile
    | Gray2Rgb(source: Content)              // cv2.cvtColor(img, cv2.COLOR_GRAY2RGB)
    | Normalized(source: Content)            // img / 255
    | Cropped(source: Content, bounds: Bounds)
    | Resized(source: Content, size: OutputSize)
    | Flipped(source: Content)               // cv2.flip(img, 1)

  datatype Image = Image(height: nat, width: nat, channels: nat, content: Content)

  /** One processing step recorded in an image's content. */
  datatype Step = GrayToRgbStep | NormalizeStep | CropStep(bounds: Bounds) | ResizeStep(size: OutputSize) | FlipStep

  /** The steps applied since the image was decoded, oldest first. */
  function Steps(c: Content): seq<Step> {
    match c
    case Decoded(_) => []
    case Zeros => []
    case Gray2Rgb(s) => Steps(s) + [GrayToRgbStep]
    case Normalized(s) => Steps(s) + [NormalizeStep]
    case Cropped(s, b) => Steps(s) + [CropStep(b)]
    case Resized(s, size) => Steps(s) + [ResizeStep(size)]
    case Flipped(s) => Steps(s) + [FlipStep]
  }

  /** A picture with fewer than three channels is converted from gray to RGB; one with three
      or more is kept as it is. */
  function ToRgb(img: Image): (r: Image)
    ensures r.height == img.height && r.width == img.width && r.channels >= 3
    ensures img.channels >= 3 <==> r == img
  {
    if img.channels < 3 then Image(img.height, img.width, 3, Gray2Rgb(img.content)) else img
  }

  /** A black three-channel tile of the given height and width. */
  function Black(height: nat, width: nat): (r: Image)
    ensures r.height == height && r.width == width && r.channels == 3
    ensures Steps(r.content) == []
  {
    Image(height, width, 3, Zeros)
  }

  /** `img/255`: the shape is unchanged. */
  function Normalize(img: Image): (r: Image)
    ensures r.height == img.height && r.width == img.width && r.channels == img.channels
    ensures Steps(r.content) == Steps(img.content) + [NormalizeStep]
  {
    img.(content := Normalized(img.content))
  }

  /** The length of the slice `[start:-fromEnd]` of n elements. Python slicing never fails:
      it yields an empty extent when the two bounds overlap, and `-0` is the index 0, so a
      bound of 0 from the end leaves nothing at all. */
  function SliceLength(n: nat, start: nat, fromEnd: nat): (r: nat)
    ensures r <= n
    ensures r > 0 <==> fromEnd >= 1 && start + fromEnd < n
    ensures fromEnd >= 1 && start + fromEnd < n ==> r == n - start - fromEnd
  {
    if fromEnd == 0 || start + fromEnd >= n then 0 else n - start - fromEnd
  }

  /** `img[top:-bottom, left:-right]`. */
  function Crop(img: Image, b: Bounds): (r: Image)
    ensures r.height <= img.height && r.width <= img.width && r.channels == img.channels
    ensures r.height > 0 <==> b.bottom >= 1 && b.top + b.bottom < img.height
    ensures r.width > 0 <==> b.right >= 1 && b.left + b.right < img.width
    ensures Steps(r.content) == Steps(img.content) + [CropStep(b)]
  {
    Image(SliceLength(img.height, b.top, b.bottom), SliceLength(img.width, b.left, b.right),
          img.channels, Cropped(img.content, b))
  }

  /** cv2.resize to `dsize`: the new height and width are those asked for. */
  function Resize(img: Image, size: OutputSize): (r: Image)
    ensures r.height == size.height && r.width == size.width && r.channels == img.channels
    ensures Steps(r.content) == Steps(img.content) + [ResizeStep(size)]
  {
    Image(size.height, size.width, img.channels, Resized(img.content, size))
  }

  /** cv2.flip(img, 1): the shape is unchanged. */
  function FlipHorizontal(img: Image): (r: Image)
    ensures r.height == img.height && r.width == img.width && r.channels == img.channels
    ensures Steps(r.content) == Steps(img.content) + [FlipStep]
  {
    img.(content := Flipped(img.content))
  }
}
