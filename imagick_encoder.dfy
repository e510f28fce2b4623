/** The Imagick-based encoder: which buffers it accepts, and which requests it
    makes of the Imagick library, in what order, to render a variation. The
    library's pixel work is a parameter. */
module ImagickEncoder {
  import opened Wrappers
  import opened Bytes
  import opened ImageFormatEnum
  import opened ImageDimensionsEntity
  import opened ImageCropDimensionsEntity
  import opened DataInspector

  /** The resampling filter: the library's Lanczos constant or any other. */
  datatype Filter = Lanczos | FilterCode(code: int)

  /** The default read resolution of the constructor. */
  const DEFAULT_RESOLUTION: int := 300

  /** One request made of the Imagick object. */
  datatype ImagickCall =
    | SetResolution(x: int, y: int)
    | ReadImage(data: Bytes)
    | SetIteratorIndex(index: int)
    | FlattenImages
    | SetImageFormat(format: string)
    | SetImageCompressionQuality(quality: int)
    | CropImage(width: int, height: int, x: int, y: int)
    | ResizeImage(columns: int, rows: int, filter: Filter, blur: int, bestFit: bool)
    | GetImageBlob

  /** The Imagick library: the blob it returns after a sequence of requests. */
  type Imagick = seq<ImagickCall> -> Bytes

  /** `supports`: a recognised image format, or a PDF. */
  predicate Supports(data: Bytes) {
    GetImageFormat(data).Some? || IsPdf(data)
  }

  lemma SupportsIff(data: Bytes)
    ensures Supports(data) <==> GetImageFormat(data) in {Some(JPEG), Some(PNG), Some(GIF)} || IsPdf(data)
  {
    NeverPdf(data);
  }

  /** The requests `createVariation` makes, in order. */
  function Calls(filter: Filter, resolution: int, data: Bytes, format: ImageFormat, quality: int,
                 dimensions: Option<ImageDimensions>, crop: Option<CropValue>): seq<ImagickCall>
  {
    [SetResolution(resolution, resolution), ReadImage(data), SetIteratorIndex(0), FlattenImages,
     SetImageFormat(format.Value()), SetImageCompressionQuality(quality)] +
    (if crop.Some? then [CropImage(crop.value.width, crop.value.height, crop.value.x, crop.value.y)] else []) +
    (if dimensions.Some? then
       [ResizeImage(OrZero(dimensions.value.width), OrZero(dimensions.value.height), filter, 1, false)]
     else []) +
    [GetImageBlob]
  }

  /** A local Imagick object, recording the requests made of it. */
  class Session {
    var requests: seq<ImagickCall>

    constructor ()
      ensures requests == []
    {
      requests := [];
    }

    method Request(call: ImagickCall)
      modifies this
      ensures requests == old(requests) + [call]
    {
      requests := requests + [call];
    }
  }

  /** `createVariation` of an encoder built with `filter` and `resolution`,
      given the data set on it. */
  method CreateVariation(imagick: Imagick, filter: Filter, resolution: int, data: Bytes,
                         format: ImageFormat, quality: int,
                         dimensions: Option<ImageDimensions>, crop: Option<CropValue>)
    returns (blob: Bytes)
    ensures blob == imagick(Calls(filter, resolution, data, format, quality, dimensions, crop))
  {
    var img := new Session();
    img.Request(SetResolution(resolution, resolution));
    img.Request(ReadImage(data));
    img.Request(SetIteratorIndex(0));
    img.Request(FlattenImages);
    img.Request(SetImageFormat(format.Value()));
    img.Request(SetImageCompressionQuality(quality));
    ghost var setup := img.requests;
    assert setup == [SetResolution(resolution, resolution), ReadImage(data), SetIteratorIndex(0), FlattenImages,
                     SetImageFormat(format.Value()), SetImageCompressionQuality(quality)];
    if crop.Some? {
      img.Request(CropImage(crop.value.width, crop.value.height, crop.value.x, crop.value.y));
    }
    ghost var cropped := img.requests;
    assert cropped == setup +
      (if crop.Some? then [CropImage(crop.value.width, crop.value.height, crop.value.x, crop.value.y)] else []);
    if dimensions.Some? {
      img.Request(ResizeImage(OrZero(dimensions.value.width), OrZero(dimensions.value.height), filter, 1, false));
    }
    assert img.requests == cropped +
      (if dimensions.Some? then
         [ResizeImage(OrZero(dimensions.value.width), OrZero(dimensions.value.height), filter, 1, false)]
       else []);
    img.Request(GetImageBlob);
    assert img.requests == Calls(filter, resolution, data, format, quality, dimensions, crop);
    blob := imagick(img.requests);
  }

  predicate IsCrop(c: ImagickCall) { c.CropImage? }
  predicate IsResize(c: ImagickCall) { c.ResizeImage? }

  /** A crop is requested exactly when crop dimensions are given, with the
      window's width, height, x and y, and never after a resize. */
  lemma CropOnlyWhenGivenAndFirst(filter: Filter, resolution: int, data: Bytes, format: ImageFormat,
                                  quality: int, dimensions: Option<ImageDimensions>, crop: Option<CropValue>)
    ensures var cs := Calls(filter, resolution, data, format, quality, dimensions, crop);
      (exists i :: 0 <= i < |cs| && IsCrop(cs[i])) <==> crop.Some?
    ensures var cs := Calls(filter, resolution, data, format, quality, dimensions, crop);
      forall i :: 0 <= i < |cs| && IsCrop(cs[i]) ==>
        cs[i] == CropImage(crop.value.width, crop.value.height, crop.value.x, crop.value.y) &&
        forall j :: 0 <= j < i ==> !IsResize(cs[j])
  {
    var cs := Calls(filter, resolution, data, format, quality, dimensions, crop);
    if crop.Some? {
      assert IsCrop(cs[6]);
    }
  }

  /** A resize is requested exactly when dimensions are given; an unset width or
      height is passed as 0, and the filter is the encoder's. */
  lemma ResizeOnlyWhenGiven(filter: Filter, resolution: int, data: Bytes, format: ImageFormat,
                            quality: int, dimensions: Option<ImageDimensions>, crop: Option<CropValue>)
    ensures var cs := Calls(filter, resolution, data, format, quality, dimensions, crop);
      (exists i :: 0 <= i < |cs| && IsResize(cs[i])) <==> dimensions.Some?
    ensures var cs := Calls(filter, resolution, data, format, quality, dimensions, crop);
      forall i :: 0 <= i < |cs| && IsResize(cs[i]) ==>
        cs[i] == ResizeImage(OrZero(dimensions.value.width), OrZero(dimensions.value.height), filter, 1, false)
  {
    var cs := Calls(filter, resolution, data, format, quality, dimensions, crop);
    if dimensions.Some? {
      assert IsResize(cs[|cs| - 2]);
    }
  }

  /** The output format is passed by its value ("jpg" for JPEG), and the quality
      unchanged, before any crop or resize; the blob is taken last. */
  lemma FormatAndQualityFirst(filter: Filter, resolution: int, data: Bytes, format: ImageFormat,
                              quality: int, dimensions: Option<ImageDimensions>, crop: Option<CropValue>)
    ensures var cs := Calls(filter, resolution, data, format, quality, dimensions, crop);
      cs[4] == SetImageFormat(format.Value()) && cs[5] == SetImageCompressionQuality(quality) &&
      cs[1] == ReadImage(data) && cs[|cs| - 1] == GetImageBlob
  {
  }
}
