/** A crop window. The source object is updated in place by its setters. */
module ImageCropDimensionsEntity {
  import opened Decimal

  /** The four fields of a crop window, as the getters report them. */
  datatype CropValue = CropValue(x: int, y: int, width: int, height: int)

  /** Built with `x` and `y` then `w` and `h` fields: "x" X "y" Y "w" W "h" H. */
  function CropSignature(c: CropValue): string {
    "x" + FieldText(c.x) +
    "y" + FieldText(c.y) +
    "w" + FieldText(c.width) +
    "h" + FieldText(c.height)
  }

  class ImageCropDimensions {
    var x: int
    var y: int
    var width: int
    var height: int

    /** The window the getters report. */
    function Value(): CropValue
      reads this
    {
      CropValue(x, y, width, height)
    }

    /** Width and height are required; the offsets default to 0. */
    constructor (width: int, height: int, x: int := 0, y: int := 0)
      ensures Value() == CropValue(x, y, width, height)
    {
      this.width := width;
      this.height := height;
      this.x := x;
      this.y := y;
    }

    /** `__toString`: the signature of the current window, "x" X "y" Y "w" W "h" H,
        where a 0 field prints as '-'. */
    function ToString(): string
      reads this
    {
      CropSignature(Value())
    }

    method SetX(x: int)
      modifies this
      ensures Value() == old(Value()).(x := x)
    {
      this.x := x;
    }

    method SetY(y: int)
      modifies this
      ensures Value() == old(Value()).(y := y)
    {
      this.y := y;
    }

    method SetWidth(width: int)
      modifies this
      ensures Value() == old(Value()).(width := width)
    {
      this.width := width;
    }

    method SetHeight(height: int)
      modifies this
      ensures Value() == old(Value()).(height := height)
    {
      this.height := height;
    }
  }

  /** Default offsets print as '-': the signature of a window built from a
      width and height alone. */
  lemma DefaultOffsetsPrintAsDash(w: int, h: int)
    ensures CropSignature(CropValue(0, 0, w, h)) == "x-y-w" + FieldText(w) + "h" + FieldText(h)
  {
  }

  /** Field texts never contain a marker letter. */
  lemma NoMarker(v: int, m: char)
    requires !FieldChar(m)
    ensures forall i :: 0 <= i < |FieldText(v)| ==> FieldText(v)[i] != m
  {
    FieldTextChars(v);
  }

  /** Splitting "A w B h C" at its two markers, on plain strings. */
  lemma SplitTwice(a: string, b: string, c: string, a': string, b': string, c': string)
    requires forall i :: 0 <= i < |a| ==> a[i] != 'w'
    requires forall i :: 0 <= i < |a'| ==> a'[i] != 'w'
    requires forall i :: 0 <= i < |b| ==> b[i] != 'h'
    requires forall i :: 0 <= i < |b'| ==> b'[i] != 'h'
    requires a + "w" + b + "h" + c == a' + "w" + b' + "h" + c'
    ensures a == a' && b == b' && c == c'
  {
    assert a + "w" + b + "h" + c == a + ['w'] + (b + ['h'] + c);
    assert a' + "w" + b' + "h" + c' == a' + ['w'] + (b' + ['h'] + c');
    SplitAtMarker(a, b + ['h'] + c, a', b' + ['h'] + c', 'w');
    SplitAtMarker(b, c, b', c', 'h');
  }

  /** Splitting "x A y R" at its leading letter and its first marker. */
  lemma SplitHead(a: string, r: string, a': string, r': string)
    requires forall i :: 0 <= i < |a| ==> a[i] != 'y'
    requires forall i :: 0 <= i < |a'| ==> a'[i] != 'y'
    requires "x" + a + "y" + r == "x" + a' + "y" + r'
    ensures a == a' && r == r'
  {
    var s := "x" + a + "y" + r;
    assert s[1..] == a + ['y'] + r;
    assert ("x" + a' + "y" + r')[1..] == a' + ['y'] + r';
    SplitAtMarker(a, r, a', r', 'y');
  }

  /** Splitting a whole signature at its four letters, on plain strings. */
  lemma SplitAll(a: string, b: string, c: string, e: string,
                 a': string, b': string, c': string, e': string)
    requires forall i :: 0 <= i < |a| ==> a[i] != 'y'
    requires forall i :: 0 <= i < |a'| ==> a'[i] != 'y'
    requires forall i :: 0 <= i < |b| ==> b[i] != 'w'
    requires forall i :: 0 <= i < |b'| ==> b'[i] != 'w'
    requires forall i :: 0 <= i < |c| ==> c[i] != 'h'
    requires forall i :: 0 <= i < |c'| ==> c'[i] != 'h'
    requires "x" + a + "y" + b + "w" + c + "h" + e == "x" + a' + "y" + b' + "w" + c' + "h" + e'
    ensures a == a' && b == b' && c == c' && e == e'
  {
    var r, r' := b + "w" + c + "h" + e, b' + "w" + c' + "h" + e';
    assert "x" + a + "y" + b + "w" + c + "h" + e == "x" + a + "y" + r;
    assert "x" + a' + "y" + b' + "w" + c' + "h" + e' == "x" + a' + "y" + r';
    SplitHead(a, r, a', r');
    SplitTwice(b, c, e, b', c', e');
  }

  /** Two windows have the same signature exactly when all four fields agree:
      the signature identifies the crop. */
  lemma CropSignatureInjective(c: CropValue, d: CropValue)
    ensures CropSignature(c) == CropSignature(d) <==> c == d
  {
    if CropSignature(c) == CropSignature(d) {
      NoMarker(c.x, 'y');
      NoMarker(d.x, 'y');
      NoMarker(c.y, 'w');
      NoMarker(d.y, 'w');
      NoMarker(c.width, 'h');
      NoMarker(d.width, 'h');
      SplitAll(FieldText(c.x), FieldText(c.y), FieldText(c.width), FieldText(c.height),
               FieldText(d.x), FieldText(d.y), FieldText(d.width), FieldText(d.height));
      FieldTextInjective(c.x, d.x);
      FieldTextInjective(c.y, d.y);
      FieldTextInjective(c.width, d.width);
      FieldTextInjective(c.height, d.height);
    }
  }

  /** A setter changes the signature exactly when it changes its own field. */
  lemma SetXChangesSignature(c: CropValue, v: int)
    ensures CropSignature(c.(x := v)) == CropSignature(c) <==> v == c.x
  {
    CropSignatureInjective(c.(x := v), c);
  }

  /** Two crop objects print the same `__toString` exactly when they hold the
      same window. */
  lemma ToStringDeterminesWindow(a: ImageCropDimensions, b: ImageCropDimensions)
    ensures a.ToString() == b.ToString() <==> a.Value() == b.Value()
  {
    CropSignatureInjective(a.Value(), b.Value());
  }
}
