/** A resize specification. The source object has no setters: it is a value. */
module ImageDimensionsEntity {
  import opened Wrappers
  import opened Decimal

  /** The constructor's defaults: width and height unset, keep the ratio,
      allow upscaling, do not grab. The getters are the field names. */
  datatype ImageDimensions = ImageDimensions(
    width: Option<int> := None,
    height: Option<int> := None,
    maintainRatio: bool := true,
    upscale: bool := true,
    grab: bool := false)

  /** A PHP integer field that may be null, as `?:` sees it: null counts as 0. */
  function OrZero(v: Option<int>): int {
    if v.Some? then v.value else 0
  }

  /** `($b ? '1' : '0')` */
  function Flag(b: bool): char {
    if b then '1' else '0'
  }

  /** `($b ? 'g' : '0')` */
  function GrabFlag(b: bool): char {
    if b then 'g' else '0'
  }

  /** `__toString`: "x" W "y" H "u" U "r" R "g" G. */
  function Signature(d: ImageDimensions): string {
    "x" + FieldText(OrZero(d.width)) +
    "y" + FieldText(OrZero(d.height)) +
    "u" + [Flag(d.upscale)] +
    "r" + [Flag(d.maintainRatio)] +
    "g" + [GrabFlag(d.grab)]
  }

  /** The facts the signature keeps: a width or height of 0 and an unset one are the same to it. */
  predicate SameSpecification(a: ImageDimensions, b: ImageDimensions) {
    OrZero(a.width) == OrZero(b.width) && OrZero(a.height) == OrZero(b.height) &&
    a.upscale == b.upscale && a.maintainRatio == b.maintainRatio && a.grab == b.grab
  }

  /** The getters return the constructor arguments, and omitted ones take the defaults. */
  lemma ConstructorDefaults(w: Option<int>, h: Option<int>)
    ensures ImageDimensions() == ImageDimensions(None, None, true, true, false)
    ensures ImageDimensions(w).width == w && ImageDimensions(w).height == None
    ensures ImageDimensions(w, h).maintainRatio && ImageDimensions(w, h).upscale && !ImageDimensions(w, h).grab
  {
  }

  /** The signature in two parts: the variable-length head and the six flag characters. */
  lemma SignatureParts(d: ImageDimensions)
    ensures Signature(d) ==
      ("x" + FieldText(OrZero(d.width)) + "y" + FieldText(OrZero(d.height))) +
      ['u', Flag(d.upscale), 'r', Flag(d.maintainRatio), 'g', GrabFlag(d.grab)]
  {
  }

  /** Two rendered fields separated by a marker split back into the same fields. */
  lemma HeadInjective(a: int, b: int, a': int, b': int)
    requires "x" + FieldText(a) + "y" + FieldText(b) == "x" + FieldText(a') + "y" + FieldText(b')
    ensures a == a' && b == b'
  {
    var s := "x" + FieldText(a) + "y" + FieldText(b);
    var s' := "x" + FieldText(a') + "y" + FieldText(b');
    FieldTextChars(a);
    FieldTextChars(a');
    assert s[1..] == FieldText(a) + ['y'] + FieldText(b);
    assert s'[1..] == FieldText(a') + ['y'] + FieldText(b');
    SplitAtMarker(FieldText(a), FieldText(b), FieldText(a'), FieldText(b'), 'y');
    FieldTextInjective(a, a');
    FieldTextInjective(b, b');
  }

  /** Two specifications have the same signature exactly when they agree on
      everything but the difference between 0 and unset. */
  lemma SignatureInjective(a: ImageDimensions, b: ImageDimensions)
    ensures Signature(a) == Signature(b) <==> SameSpecification(a, b)
  {
    if Signature(a) == Signature(b) {
      SignatureParts(a);
      SignatureParts(b);
      var ha := "x" + FieldText(OrZero(a.width)) + "y" + FieldText(OrZero(a.height));
      var hb := "x" + FieldText(OrZero(b.width)) + "y" + FieldText(OrZero(b.height));
      var s := Signature(a);
      assert |ha| == |hb|;
      assert ha == s[..|ha|];
      assert hb == s[..|hb|];
      HeadInjective(OrZero(a.width), OrZero(a.height), OrZero(b.width), OrZero(b.height));
      assert s[|ha| + 1] == Flag(a.upscale) && s[|ha| + 1] == Flag(b.upscale);
      assert s[|ha| + 3] == Flag(a.maintainRatio) && s[|ha| + 3] == Flag(b.maintainRatio);
      assert s[|ha| + 5] == GrabFlag(a.grab) && s[|ha| + 5] == GrabFlag(b.grab);
    }
  }

  /** `getAspectRatio`: bcdiv(width, height, 3), as a whole number of
      thousandths, truncated toward zero. Division by a zero or unset height
      is an error in PHP; so is an unset width here. */
  function AspectRatioThousandths(d: ImageDimensions): (r: Option<int>)
    ensures r.Some? <==> d.width.Some? && d.height.Some? && d.height.value != 0
  {
    if d.width.Some? && d.height.Some? && d.height.value != 0 then
      Some(TruncatedQuotient(d.width.value * 1000, d.height.value))
    else
      None
  }

  function Abs(n: int): nat {
    if n < 0 then -n else n
  }

  /** Division rounding toward zero, as bcdiv does. */
  function TruncatedQuotient(a: int, b: int): int
    requires b != 0
  {
    var q := Abs(a) / Abs(b);
    if (a < 0) == (b < 0) then q else -q
  }

  /** The quotient is the one that truncates toward zero: its magnitude is the
      largest number of whole divisors in the dividend, and its sign is the
      sign of the exact ratio. */
  lemma TruncatedQuotientIsTruncation(a: int, b: int)
    requires b != 0
    ensures Abs(TruncatedQuotient(a, b)) * Abs(b) <= Abs(a) < (Abs(TruncatedQuotient(a, b)) + 1) * Abs(b)
    ensures TruncatedQuotient(a, b) > 0 ==> (a < 0) == (b < 0)
    ensures TruncatedQuotient(a, b) < 0 ==> (a < 0) != (b < 0)
  {
    var A, B := Abs(a), Abs(b);
    var q := A / B;
    assert Abs(TruncatedQuotient(a, b)) == q;
    assert A == q * B + A % B && 0 <= A % B < B;
    assert (q + 1) * B == q * B + B;
  }

  /** For a positive height and a non-negative width the ratio r satisfies
      r <= 1000 * width / height < r + 1: width/height truncated to three decimals. */
  lemma AspectRatioBounds(d: ImageDimensions)
    requires d.width.Some? && d.height.Some? && d.height.value > 0 && d.width.value >= 0
    ensures AspectRatioThousandths(d).Some?
    ensures AspectRatioThousandths(d).value * d.height.value <= d.width.value * 1000
    ensures d.width.value * 1000 < (AspectRatioThousandths(d).value + 1) * d.height.value
  {
    TruncatedQuotientIsTruncation(d.width.value * 1000, d.height.value);
  }
}
