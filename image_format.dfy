/** The image format enumeration: four members, each with a constant value. */
module ImageFormatEnum {
  import opened Wrappers
  import opened Enumeration

  datatype ImageFormat = PNG | JPEG | GIF | PDF {
    /** The enumeration value, `value()`: note that JPEG's is "jpg". */
    function Value(): string {
      match this
      case PNG => "png"
      case JPEG => "jpg"
      case GIF => "gif"
      case PDF => "pdf"
    }

    /** The constant's name, `key()`. */
    function Key(): string {
      match this
      case PNG => "PNG"
      case JPEG => "JPEG"
      case GIF => "GIF"
      case PDF => "PDF"
    }
  }

  /** All members, in declaration order. */
  const Members: seq<ImageFormat> := [PNG, JPEG, GIF, PDF]

  /** A member's value, as the lookup uses it. */
  const ValueOf: ImageFormat -> string := (m: ImageFormat) => m.Value()

  /** `ImageFormat::memberByValue($v)`. */
  function MemberByValue(v: string): Option<ImageFormat> {
    FindByValue(Members, ValueOf, v)
  }

  /** There are exactly four members and every format is one of them. */
  lemma MembersComplete(f: ImageFormat)
    ensures f in Members
    ensures |Members| == 4
    ensures forall i, j :: 0 <= i < j < |Members| ==> Members[i] != Members[j]
  {
  }

  /** The values are pairwise distinct. */
  lemma ValuesDistinct(f: ImageFormat, g: ImageFormat)
    ensures f.Value() == g.Value() <==> f == g
  {
  }

  /** Parsing a member's value gives the member back. */
  lemma ValueRoundTrip(f: ImageFormat)
    ensures MemberByValue(f.Value()) == Some(f)
  {
    match f
    case PNG =>
    case JPEG => FindStep(Members, ValueOf, "jpg");
    case GIF => FindStep(Members, ValueOf, "gif"); FindStep(Members[1..], ValueOf, "gif");
    case PDF => FindStep(Members, ValueOf, "pdf"); FindStep(Members[1..], ValueOf, "pdf"); FindStep(Members[2..], ValueOf, "pdf");
  }

  /** Parsing succeeds exactly on the four values, and what it returns prints back as its input. */
  lemma ParseRoundTrip(v: string)
    ensures MemberByValue(v).Some? <==> v in {"png", "jpg", "gif", "pdf"}
    ensures MemberByValue(v).Some? ==> MemberByValue(v).value.Value() == v
  {
  }
}
