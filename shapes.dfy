/** The dataset classifiers of `src/h5meta.rs` (`impl H5Dataset`): from a
    dataset's shape to a format label and to the width and height of the
    images it holds. */
module DatasetShape {
  import opened Results
  import ArchiveTree

  datatype Format = Param | Scalar | Vec | Gray | Color | RGBD | Hyper

  /** The text `shape_to_format` returns for each format. */
  function Label(f: Format): string
  {
    match f
    case Param => "Param"
    case Scalar => "Scalar"
    case Vec => "Vec"
    case Gray => "Gray"
    case Color => "Color"
    case RGBD => "RGBD"
    case Hyper => "Hyper"
  }

  /** The labels tell the formats apart. */
  lemma LabelInjective(f: Format, g: Format)
    ensures Label(f) == Label(g) <==> f == g
  {
  }

  /** `H5Dataset::shape_to_format`: ranks 0 to 3 are a parameter, a scalar
      series, a vector series and a grey image; from rank 4 on the last
      dimension is the channel count, and 1, 3 and 4 channels are grey,
      colour and colour-plus-depth, any other count hyperspectral. */
  function ShapeToFormat(shape: seq<nat>): (f: Format)
    ensures f == Param <==> |shape| == 0
    ensures f == Scalar <==> |shape| == 1
    ensures f == Vec <==> |shape| == 2
    ensures f == Gray <==> |shape| == 3 || (|shape| >= 4 && shape[|shape| - 1] == 1)
    ensures f == Color <==> |shape| >= 4 && shape[|shape| - 1] == 3
    ensures f == RGBD <==> |shape| >= 4 && shape[|shape| - 1] == 4
    ensures f == Hyper <==> |shape| >= 4 && shape[|shape| - 1] !in {1, 3, 4}
  {
    match |shape|
    case 0 => Param
    case 1 => Scalar
    case 2 => Vec
    case 3 => Gray
    case _ =>
      match shape[|shape| - 1]
      case 1 => Gray
      case 3 => Color
      case 4 => RGBD
      case _ => Hyper
  }

  /** `H5Dataset::format`. */
  function DatasetFormat(d: ArchiveTree.Node): (f: Format)
    requires d.Dataset?
    ensures |d.shape| >= 4 ==> (f == Color <==> d.shape[|d.shape| - 1] == 3)
    ensures |d.shape| < 4 ==> f != Color && f != RGBD && f != Hyper
  {
    ShapeToFormat(d.shape)
  }

  /** From rank 4 on, the format depends on nothing but the last dimension. */
  lemma FormatIsChannelCount(s: seq<nat>, t: seq<nat>)
    requires |s| >= 4 && |t| >= 4 && s[|s| - 1] == t[|t| - 1]
    ensures ShapeToFormat(s) == ShapeToFormat(t)
  {
  }

  datatype Resolution = Resolution(width: nat, height: nat)

  /** `H5Dataset::resolution`: at rank 2 and 3 the image is the last two
      dimensions, height then width; from rank 4 on the last dimension is
      the channel count and the image is the two before it. Below rank 2
      there is no image. */
  function ResolutionOf(shape: seq<nat>): (r: Option<Resolution>)
    ensures r.Some? <==> |shape| >= 2
    ensures 2 <= |shape| <= 3 ==> r.value == Resolution(shape[|shape| - 1], shape[|shape| - 2])
    ensures |shape| >= 4 ==> r.value == Resolution(shape[|shape| - 2], shape[|shape| - 3])
  {
    var d := |shape|;
    if 2 <= d <= 3 then Some(Resolution(shape[d - 1], shape[d - 2]))
    else if d >= 4 then Some(Resolution(shape[d - 2], shape[d - 3]))
    else None
  }

  /** `H5Dataset::resolution_single_image`: a single image laid out as
      height, width and optionally channels. */
  function ResolutionSingleImage(shape: seq<nat>): (r: Option<Resolution>)
    ensures r.Some? <==> 2 <= |shape| <= 3
    ensures r.Some? ==> r.value == Resolution(shape[1], shape[0])
  {
    if 2 <= |shape| <= 3 then Some(Resolution(shape[1], shape[0])) else None
  }

  /** `H5Dataset::resolution_batch_images`: a batch of images laid out as
      count, height, width and optionally channels. */
  function ResolutionBatchImages(shape: seq<nat>): (r: Option<Resolution>)
    ensures r.Some? <==> 3 <= |shape| <= 4
    ensures r.Some? ==> r.value == Resolution(shape[2], shape[1])
  {
    if 3 <= |shape| <= 4 then Some(Resolution(shape[2], shape[1])) else None
  }

  /** A dataset has a resolution exactly when its format is an image
      format, that is, neither a parameter nor a scalar series. */
  lemma ResolutionIffImageFormat(shape: seq<nat>)
    ensures ResolutionOf(shape).Some? <==> ShapeToFormat(shape) !in {Param, Scalar}
  {
  }

  /** The three resolution rules agree where their ranks overlap: the
      general rule is the single-image rule at rank 2 and the batch rule at
      ranks 3 and 4. At rank 3 the single-image rule reads the shape as
      height, width, channels and so disagrees with the other two whenever
      the first two dimensions differ from the last two. */
  lemma ResolutionRulesAgree(shape: seq<nat>)
    ensures |shape| == 2 ==> ResolutionOf(shape) == ResolutionSingleImage(shape)
    ensures 3 <= |shape| <= 4 ==> ResolutionOf(shape) == ResolutionBatchImages(shape)
    ensures |shape| == 3 ==>
      (ResolutionSingleImage(shape) == ResolutionOf(shape) <==> shape[1] == shape[2] && shape[0] == shape[1])
  {
  }
}
