/** The encoders the manager can hold, as values, and the choice among an ordered
    list of them. The data an encoder holds during a render is passed as an
    argument instead. */
module Encoders {
  import opened Wrappers
  import opened Bytes
  import opened ImageFormatEnum
  import opened ImageDimensionsEntity
  import opened ImageCropDimensionsEntity
  import opened DataInspector
  import Imagick = ImagickEncoder
  import Intervention = InterventionEncoder

  datatype Encoder =
    | ImagickEncoder(filter: Imagick.Filter, resolution: int)
    | InterventionEncoder

  /** An Imagick encoder built with the constructor's defaults. */
  const DEFAULT_IMAGICK: Encoder := ImagickEncoder(Imagick.Lanczos, Imagick.DEFAULT_RESOLUTION)

  /** The two foreign libraries. */
  datatype Renderers = Renderers(imagick: Imagick.Imagick, intervention: Intervention.Intervention)

  predicate Supports(e: Encoder, data: Bytes) {
    match e
    case ImagickEncoder(_, _) => Imagick.Supports(data)
    case InterventionEncoder => Intervention.Supports(data)
  }

  /** Everything the Intervention encoder accepts, the Imagick encoder accepts;
      PDF only the latter. */
  lemma SupportsNested(data: Bytes, filter: Imagick.Filter, resolution: int)
    ensures Supports(InterventionEncoder, data) ==> Supports(ImagickEncoder(filter, resolution), data)
    ensures IsPdf(data) ==> Supports(ImagickEncoder(filter, resolution), data) && !Supports(InterventionEncoder, data)
  {
    if IsPdf(data) {
      Intervention.RefusesPdfAndUnknown(data);
    }
  }

  /** What `createVariation` of `e` returns for `data`. The crop reaches only the
      Imagick encoder. */
  function Output(rs: Renderers, e: Encoder, data: Bytes, format: ImageFormat, quality: int,
                  dimensions: Option<ImageDimensions>, crop: Option<CropValue>): Bytes
  {
    match e
    case ImagickEncoder(filter, resolution) =>
      rs.imagick(Imagick.Calls(filter, resolution, data, format, quality, dimensions, crop))
    case InterventionEncoder =>
      rs.intervention(Intervention.Calls(data, format, quality, dimensions))
  }

  /** The Intervention encoder ignores crop dimensions. */
  lemma InterventionIgnoresCrop(rs: Renderers, data: Bytes, format: ImageFormat, quality: int,
                                dimensions: Option<ImageDimensions>, crop: Option<CropValue>)
    ensures Output(rs, InterventionEncoder, data, format, quality, dimensions, crop) ==
            Output(rs, InterventionEncoder, data, format, quality, dimensions, None)
  {
  }

  method CreateVariation(rs: Renderers, e: Encoder, data: Bytes, format: ImageFormat, quality: int,
                         dimensions: Option<ImageDimensions>, crop: Option<CropValue>)
    returns (blob: Bytes)
    ensures blob == Output(rs, e, data, format, quality, dimensions, crop)
  {
    match e
    case ImagickEncoder(filter, resolution) =>
      blob := Imagick.CreateVariation(rs.imagick, filter, resolution, data, format, quality, dimensions, crop);
    case InterventionEncoder =>
      blob := Intervention.CreateVariation(rs.intervention, data, format, quality, dimensions);
  }

  /** The index of the first encoder at or after `i` that supports `data`. */
  function FirstFrom(es: seq<Encoder>, data: Bytes, i: nat): (r: Option<nat>)
    requires i <= |es|
    ensures r.Some? ==> i <= r.value < |es| && Supports(es[r.value], data) &&
                        forall j :: i <= j < r.value ==> !Supports(es[j], data)
    ensures r.None? <==> forall j :: i <= j < |es| ==> !Supports(es[j], data)
    decreases |es| - i
  {
    if i == |es| then None
    else if Supports(es[i], data) then Some(i)
    else FirstFrom(es, data, i + 1)
  }

  /** The index of the first encoder in list order that supports `data`. */
  function FirstSupporting(es: seq<Encoder>, data: Bytes): Option<nat> {
    FirstFrom(es, data, 0)
  }

  /** The encoder chosen depends only on what comes before and at it: adding
      encoders at the end never changes a choice already made. */
  lemma {:induction false} FirstFromAppend(es: seq<Encoder>, more: seq<Encoder>, data: Bytes, i: nat)
    requires i <= |es|
    requires FirstFrom(es, data, i).Some?
    ensures FirstFrom(es + more, data, i) == FirstFrom(es, data, i)
    decreases |es| - i
  {
    assert (es + more)[i] == es[i];
    if !Supports(es[i], data) {
      FirstFromAppend(es, more, data, i + 1);
    }
  }

  /** A prepended encoder that supports the data is the one chosen. */
  lemma PrependedWins(e: Encoder, es: seq<Encoder>, data: Bytes)
    requires Supports(e, data)
    ensures FirstSupporting([e] + es, data) == Some(0)
  {
  }
}
