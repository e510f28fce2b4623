/** Inspection of a source image: the guards, the format choice and the
    orientation rule. Decoding is done by an image library outside the
    model; what it reports is the `Probe` parameter. */
module ImageInspector {
  import opened Wrappers
  import opened Bytes
  import opened ImageFormatEnum
  import opened ImageOrientationEnum
  import opened ImageDimensionsEntity
  import opened ImageEntity
  import opened DataInspector

  /** What the image library reports for a decoded buffer: pixel width and height
      and the read density. */
  datatype Measurement = Measurement(width: int, height: int, resolutionX: int, resolutionY: int)

  /** The foreign calls: the image library's measurements and the MIME guess. */
  datatype Probe = Probe(measure: Bytes -> Measurement, mimeType: Bytes -> string)

  /** The record `getImageMetadata` assembles. */
  datatype ImageMetadata = ImageMetadata(
    mimetype: string,
    format: Option<ImageFormat>,
    resolution: ImageDimensions,
    orientation: ImageOrientation,
    dimensions: ImageDimensions)

  /** Why inspection fails. `InaccessibleSetter` is the PHP Error that the
      code as written raises past both guards; `UnknownFormat` is the type error
      of handing no format to the record's `setFormat`, whose parameter is a
      format and not nullable. */
  datatype InspectError = ImageNotHydrated | NotSourceImage | InaccessibleSetter | UnknownFormat

  datatype Inspected<T> = Inspected(value: T) | Rejected(error: InspectError)

  /** The orientation rule: a square counts as landscape. */
  function OrientationOf(width: int, height: int): (o: ImageOrientation)
    ensures o == LANDSCAPE <==> width >= height
    ensures o == PORTRAIT <==> width < height
  {
    if width >= height then LANDSCAPE else PORTRAIT
  }

  /** `getImageOrientation`. */
  function GetImageOrientation(probe: Probe, image: ImageState): (r: Inspected<ImageOrientation>)
    ensures r.Rejected? <==> !Hydrated(image.data)
    ensures r.Rejected? ==> r.error == ImageNotHydrated
    ensures r.Inspected? ==>
      var m := probe.measure(image.data.value);
      (r.value == LANDSCAPE <==> m.width >= m.height)
  {
    if !Hydrated(image.data) then Rejected(ImageNotHydrated)
    else
      var m := probe.measure(image.data.value);
      Inspected(OrientationOf(m.width, m.height))
  }

  /** `getImageDimensions`: pixel width and height, the other flags at their defaults. */
  function GetImageDimensions(probe: Probe, image: ImageState): (r: Inspected<ImageDimensions>)
    ensures r.Rejected? <==> !Hydrated(image.data)
    ensures r.Rejected? ==> r.error == ImageNotHydrated
    ensures r.Inspected? ==>
      var m := probe.measure(image.data.value);
      r.value.width == Some(m.width) && r.value.height == Some(m.height) &&
      r.value.maintainRatio && r.value.upscale && !r.value.grab
  {
    if !Hydrated(image.data) then Rejected(ImageNotHydrated)
    else
      var m := probe.measure(image.data.value);
      Inspected(ImageDimensions(Some(m.width), Some(m.height)))
  }

  /** `getImageResolution`: the read density, as dimensions. */
  function GetImageResolution(probe: Probe, image: ImageState): (r: Inspected<ImageDimensions>)
    ensures r.Rejected? <==> !Hydrated(image.data)
    ensures r.Rejected? ==> r.error == ImageNotHydrated
    ensures r.Inspected? ==>
      var m := probe.measure(image.data.value);
      r.value.width == Some(m.resolutionX) && r.value.height == Some(m.resolutionY)
  {
    if !Hydrated(image.data) then Rejected(ImageNotHydrated)
    else
      var m := probe.measure(image.data.value);
      Inspected(ImageDimensions(Some(m.resolutionX), Some(m.resolutionY)))
  }

  /** The format recorded for a buffer: PDF first, then the sniffed image format. */
  function FormatOf(data: Bytes): Option<ImageFormat> {
    if IsPdf(data) then Some(PDF) else GetImageFormat(data)
  }

  /** The metadata of hydrated source bytes. */
  function MetadataOf(probe: Probe, data: Bytes): ImageMetadata {
    var m := probe.measure(data);
    ImageMetadata(
      probe.mimeType(data),
      FormatOf(data),
      ImageDimensions(Some(m.resolutionX), Some(m.resolutionY)),
      OrientationOf(m.width, m.height),
      ImageDimensions(Some(m.width), Some(m.height)))
  }

  /** `getImageMetadata` with the record's setters reachable: refuses an
      unhydrated image first, then a variation, then bytes of no known format. */
  function GetImageMetadata(probe: Probe, image: ImageState): (r: Inspected<ImageMetadata>)
    ensures r.Rejected? <==>
      !Hydrated(image.data) || image.IsVariation() || FormatOf(image.data.value).None?
    ensures r.Rejected? ==> (r.error == ImageNotHydrated <==> !Hydrated(image.data))
    ensures r.Rejected? ==> (r.error == NotSourceImage <==> Hydrated(image.data) && image.IsVariation())
    ensures r.Inspected? ==> r.value == MetadataOf(probe, image.data.value) && r.value.format.Some?
  {
    if !Hydrated(image.data) then Rejected(ImageNotHydrated)
    else if image.IsVariation() then Rejected(NotSourceImage)
    else if FormatOf(image.data.value).None? then Rejected(UnknownFormat)
    else Inspected(MetadataOf(probe, image.data.value))
  }

  /** The metadata agrees with what the three helpers report on the same image. */
  lemma MetadataAgreesWithHelpers(probe: Probe, image: ImageState)
    requires Hydrated(image.data) && !image.IsVariation() && FormatOf(image.data.value).Some?
    ensures var md := GetImageMetadata(probe, image).value;
      md.orientation == GetImageOrientation(probe, image).value &&
      md.dimensions == GetImageDimensions(probe, image).value &&
      md.resolution == GetImageResolution(probe, image).value
  {
  }

  /** Every recorded format is the PDF or the sniffed one; a PDF buffer is never
      sniffed as an image, so the PDF check only adds to the sniffer. */
  lemma FormatOfExtendsSniffing(data: Bytes)
    ensures GetImageFormat(data).Some? ==> FormatOf(data) == GetImageFormat(data)
    ensures FormatOf(data) == Some(PDF) <==> IsPdf(data)
    ensures FormatOf(data).None? <==> !IsPdf(data) && GetImageFormat(data).None?
  {
    if IsPdf(data) {
      PdfIsNotAnImage(data);
    } else {
      NeverPdf(data);
    }
  }

  /** `getImageMetadata` as written: past the two guards it calls the metadata
      record's `setMimetype`, which is protected, and then `setResolution`, which
      the record does not have (its setter is `setDpi`). Either call raises a PHP
      Error, so no image is ever inspected. */
  function GetImageMetadataAsWritten(probe: Probe, image: ImageState): (r: Inspected<ImageMetadata>)
    ensures r.Rejected?
    ensures r.error == ImageNotHydrated <==> !Hydrated(image.data)
    ensures r.error == InaccessibleSetter <==> Hydrated(image.data) && !image.IsVariation()
  {
    if !Hydrated(image.data) then Rejected(ImageNotHydrated)
    else if image.IsVariation() then Rejected(NotSourceImage)
    else Rejected(InaccessibleSetter)
  }

  /** A five-byte JPEG source: the code as written rejects it, while the intended
      inspection accepts it and records it as a JPEG. */
  lemma AsWrittenRejectsJpegSource(probe: Probe)
    ensures var image := ImageState("photo.jpg", Some([0xFF, 0xD8, 0xFF, 0xE0, 0x00]), false, None);
      GetImageMetadataAsWritten(probe, image) == Rejected(InaccessibleSetter) &&
      GetImageMetadata(probe, image).Inspected? &&
      GetImageMetadata(probe, image).value.format == Some(JPEG)
  {
    var data: Bytes := [0xFF, 0xD8, 0xFF, 0xE0, 0x00];
    assert !IsPdf(data) by {
      assert data[0] != PDF_HEADER[0];
    }
  }
}
