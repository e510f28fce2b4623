/** The image orientation enumeration: two members, each with a constant value. */
module ImageOrientationEnum {
  import opened Wrappers
  import opened Enumeration

  datatype ImageOrientation = PORTRAIT | LANDSCAPE {
    /** The enumeration value, `value()`. */
    function Value(): string {
      match this
      case PORTRAIT => "portrait"
      case LANDSCAPE => "landscape"
    }
  }

  /** All members, in declaration order. */
  const Members: seq<ImageOrientation> := [PORTRAIT, LANDSCAPE]

  /** A member's value, as the lookup uses it. */
  const ValueOf: ImageOrientation -> string := (m: ImageOrientation) => m.Value()

  /** `ImageOrientation::memberByValue($v)`. */
  function MemberByValue(v: string): Option<ImageOrientation> {
    FindByValue(Members, ValueOf, v)
  }

  lemma MembersComplete(o: ImageOrientation)
    ensures o in Members
    ensures |Members| == 2 && Members[0] != Members[1]
  {
  }

  lemma ValuesDistinct(o: ImageOrientation, p: ImageOrientation)
    ensures o.Value() == p.Value() <==> o == p
  {
  }

  lemma ValueRoundTrip(o: ImageOrientation)
    ensures MemberByValue(o.Value()) == Some(o)
  {
    match o
    case PORTRAIT =>
    case LANDSCAPE => FindStep(Members, ValueOf, "landscape");
  }

  lemma ParseRoundTrip(v: string)
    ensures MemberByValue(v).Some? <==> v in {"portrait", "landscape"}
    ensures MemberByValue(v).Some? ==> MemberByValue(v).value.Value() == v
  {
  }
}
