/** Magic-byte sniffing of raw buffers. The checks are the code's own, shorter
    than the file-format standards: two bytes for JPEG (the SOI marker of
    ITU-T T.81, section B.1.1.3), four for PNG (part of the signature of
    ISO/IEC 15948, section 5.2), six for GIF (the header block of the GIF89a
    specification, section 17) and five for PDF (the file header of
    ISO 32000-1, section 7.5.2). */
module DataInspector {
  import opened Wrappers
  import opened Bytes
  import opened ImageFormatEnum

  /** "PNG" */
  const PNG_NAME: Bytes := [0x50, 0x4E, 0x47]
  /** "GIF87a" */
  const GIF87A: Bytes := [0x47, 0x49, 0x46, 0x38, 0x37, 0x61]
  /** "GIF89a" */
  const GIF89A: Bytes := [0x47, 0x49, 0x46, 0x38, 0x39, 0x61]
  /** "%PDF-" */
  const PDF_HEADER: Bytes := [0x25, 0x50, 0x44, 0x46, 0x2D]

  /** `getImageFormat`: a null buffer reads as the empty string, so everything
      shorter than five bytes, "0" included, has no format. */
  function GetImageFormat(data: Bytes): Option<ImageFormat> {
    if PhpEmpty(data) || |data| < 5 then None
    else if data[0] == 0xFF && data[1] == 0xD8 then Some(JPEG)
    else if data[0] == 0x89 && data[1..4] == PNG_NAME then Some(PNG)
    else if HasPrefix(data, GIF87A) || HasPrefix(data, GIF89A) then Some(GIF)
    else None
  }

  /** `isPdf`: the first five bytes are "%PDF-". */
  predicate IsPdf(data: Bytes) {
    HasPrefix(data, PDF_HEADER)
  }

  /** A buffer of fewer than five bytes has no format. */
  lemma ShortHasNoFormat(data: Bytes)
    requires |data| < 5
    ensures GetImageFormat(data) == None
  {
  }

  /** JPEG exactly when the buffer has five bytes or more and starts FF D8. */
  lemma JpegIff(data: Bytes)
    ensures GetImageFormat(data) == Some(JPEG) <==> |data| >= 5 && data[0] == 0xFF && data[1] == 0xD8
  {
  }

  /** PNG exactly when the buffer has five bytes or more and starts 89 'P' 'N' 'G'. */
  lemma PngIff(data: Bytes)
    ensures GetImageFormat(data) == Some(PNG) <==>
      |data| >= 5 && data[0] == 0x89 && data[1] == 0x50 && data[2] == 0x4E && data[3] == 0x47
  {
    if |data| >= 5 && data[0] == 0x89 && data[1] == 0x50 && data[2] == 0x4E && data[3] == 0x47 {
      assert data[1..4] == PNG_NAME;
    }
  }

  /** GIF exactly when the buffer starts "GIF87a" or "GIF89a" (so at least six bytes). */
  lemma GifIff(data: Bytes)
    ensures GetImageFormat(data) == Some(GIF) <==> HasPrefix(data, GIF87A) || HasPrefix(data, GIF89A)
  {
    if HasPrefix(data, GIF87A) || HasPrefix(data, GIF89A) {
      assert data[0] == 0x47;
    }
  }

  /** Any other header has no format. */
  lemma NoFormatIff(data: Bytes)
    ensures GetImageFormat(data) == None <==>
      !(|data| >= 5 && data[0] == 0xFF && data[1] == 0xD8) &&
      !(|data| >= 5 && data[0] == 0x89 && data[1] == 0x50 && data[2] == 0x4E && data[3] == 0x47) &&
      !HasPrefix(data, GIF87A) && !HasPrefix(data, GIF89A)
  {
    JpegIff(data);
    PngIff(data);
    GifIff(data);
  }

  /** The sniffer never reports PDF; that is `isPdf`'s job. */
  lemma NeverPdf(data: Bytes)
    ensures GetImageFormat(data) != Some(PDF)
  {
  }

  /** No buffer is both a PDF and a recognised image: their first bytes differ. */
  lemma PdfIsNotAnImage(data: Bytes)
    requires IsPdf(data)
    ensures GetImageFormat(data) == None
  {
    assert data[0] == 0x25;
  }
}
