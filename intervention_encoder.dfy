/** The Intervention-based encoder: which buffers it accepts, and the choice
    between a grab and a resize. The library's pixel work is a parameter. */
module InterventionEncoder {
  import opened Wrappers
  import opened Bytes
  import opened ImageFormatEnum
  import opened ImageDimensionsEntity
  import opened DataInspector

  /** One request made of the Intervention image; the width and height are
      passed as given, unset included. */
  datatype InterventionCall =
    | Make(data: Bytes)
    | Grab(width: Option<int>, height: Option<int>)
    | Resize(width: Option<int>, height: Option<int>, maintainRatio: bool, upscale: bool)
    | Encode(format: string, quality: int)

  /** The Intervention library: the encoded bytes after a sequence of requests. */
  type Intervention = seq<InterventionCall> -> Bytes

  /** `supports`: exactly the buffers the data inspector recognises as an image. */
  predicate Supports(data: Bytes) {
    GetImageFormat(data).Some?
  }

  /** PDF buffers, and buffers of no recognised format, are refused. */
  lemma RefusesPdfAndUnknown(data: Bytes)
    requires IsPdf(data) || GetImageFormat(data).None?
    ensures !Supports(data)
  {
    if IsPdf(data) {
      PdfIsNotAnImage(data);
    }
  }

  /** The geometry request for the given dimensions, if any. */
  function Geometry(dimensions: Option<ImageDimensions>): seq<InterventionCall> {
    if dimensions.None? then []
    else
      var d := dimensions.value;
      if d.grab then [Grab(d.width, d.height)]
      else [Resize(d.width, d.height, d.maintainRatio, d.upscale)]
  }

  /** The requests `createVariation` makes, in order. */
  function Calls(data: Bytes, format: ImageFormat, quality: int, dimensions: Option<ImageDimensions>)
    : seq<InterventionCall>
  {
    [Make(data)] + Geometry(dimensions) + [Encode(format.Key(), quality)]
  }

  /** A local Intervention image, recording the requests made of it. */
  class Session {
    var requests: seq<InterventionCall>

    constructor (data: Bytes)
      ensures requests == [Make(data)]
    {
      requests := [Make(data)];
    }

    method Request(call: InterventionCall)
      modifies this
      ensures requests == old(requests) + [call]
    {
      requests := requests + [call];
    }
  }

  /** `createVariation`, given the data set on the encoder. It takes no crop. */
  method CreateVariation(intervention: Intervention, data: Bytes, format: ImageFormat, quality: int,
                         dimensions: Option<ImageDimensions>)
    returns (blob: Bytes)
    ensures blob == intervention(Calls(data, format, quality, dimensions))
  {
    var img := new Session(data);
    if dimensions.Some? {
      if dimensions.value.grab {
        img.Request(Grab(dimensions.value.width, dimensions.value.height));
      } else {
        img.Request(Resize(dimensions.value.width, dimensions.value.height,
                           dimensions.value.maintainRatio, dimensions.value.upscale));
      }
    }
    assert img.requests == [Make(data)] + Geometry(dimensions);
    img.Request(Encode(format.Key(), quality));
    assert img.requests == Calls(data, format, quality, dimensions);
    blob := intervention(img.requests);
  }

  /** Without dimensions there is neither grab nor resize; with them there is
      exactly one: a grab of the width and height when grab is set, otherwise a
      resize carrying the ratio and upscale flags. The format is passed by its
      key ("JPEG"), not its value. */
  lemma GrabOrResize(data: Bytes, format: ImageFormat, quality: int, dimensions: Option<ImageDimensions>)
    ensures var cs := Calls(data, format, quality, dimensions);
      |cs| == (if dimensions.Some? then 3 else 2) &&
      cs[0] == Make(data) && cs[|cs| - 1] == Encode(format.Key(), quality)
    ensures dimensions.Some? ==>
      var cs := Calls(data, format, quality, dimensions);
      var d := dimensions.value;
      (cs[1].Grab? <==> d.grab) &&
      (d.grab ==> cs[1] == Grab(d.width, d.height)) &&
      (!d.grab ==> cs[1] == Resize(d.width, d.height, d.maintainRatio, d.upscale))
  {
  }
}
