/** The image entity: a remote key, the image bytes once loaded, and whether
    the bytes are known to be stored on the remote under that key. A variation is
    an image that also carries the key of its parent and the recipe for
    deriving it. */
module ImageEntity {
  import opened Wrappers
  import opened Bytes
  import opened ImageFormatEnum
  import opened ImageDimensionsEntity
  import opened ImageCropDimensionsEntity

  /** How a variation is derived from its parent. Quality None is the PHP null. */
  datatype Recipe = Recipe(
    format: ImageFormat,
    quality: Option<int>,
    dimensions: Option<ImageDimensions>,
    crop: Option<CropValue>)

  /** What makes an image a variation: its parent's key (`getKey(true)`) and its recipe. */
  datatype Derivation = Derivation(parentKey: string, recipe: Recipe)

  /** The rule that names a variation on the remote. Its format is not part of this
      model; it is a parameter, assumed injective where a property needs it. */
  type KeyDeriver = (string, Recipe) -> string

  ghost predicate Injective(derive: KeyDeriver) {
    forall p, r, p', r' :: derive(p, r) == derive(p', r') ==> p == p' && r == r'
  }

  /** Everything the manager can observe about an image. */
  datatype ImageState = ImageState(
    key: string,
    data: Option<Bytes>,
    persistent: bool,
    derivation: Option<Derivation>)
  {
    predicate IsVariation() {
      derivation.Some?
    }
  }

  /** `isHydrated`: the data is set and not empty in PHP's sense. */
  predicate Hydrated(data: Option<Bytes>) {
    data.Some? && !PhpEmpty(data.value)
  }

  /** Hydration is exactly "some bytes other than the empty string and the string 0". */
  lemma HydratedIff(data: Option<Bytes>)
    ensures Hydrated(data) <==> data.Some? && data.value != [] && data.value != [0x30]
  {
  }

  /** A one-byte image holding the digit 0 is not hydrated: PHP treats "0" as empty. */
  lemma ZeroStringIsNotHydrated()
    ensures !Hydrated(Some([0x30]))
    ensures Hydrated(Some([0x31]))
  {
  }

  class Image {
    var key: string
    var data: Option<Bytes>
    var persistent: bool
    const derivation: Option<Derivation>

    function State(): ImageState
      reads this
    {
      ImageState(key, data, persistent, derivation)
    }

    /** A source image. The key must be non-empty in PHP's sense; `Create` models
        the rejection. */
    constructor (key: string)
      requires ValidKey(key)
      ensures State() == ImageState(key, None, false, None)
    {
      this.key := key;
      data := None;
      persistent := false;
      derivation := None;
    }

    /** A variation of the image stored under `parentKey`, stored under the key the
        deriver assigns. The variation's own key is not checked. */
    constructor Variation(parentKey: string, recipe: Recipe, derive: KeyDeriver)
      ensures State() == ImageState(derive(parentKey, recipe), None, false, Some(Derivation(parentKey, recipe)))
    {
      key := derive(parentKey, recipe);
      data := None;
      persistent := false;
      derivation := Some(Derivation(parentKey, recipe));
    }

    /** `new Image($key)`, with the "Invalid key" exception as a null result. */
    static method Create(key: string) returns (image: Image?)
      ensures image != null <==> ValidKey(key)
      ensures image != null ==> fresh(image) && image.State() == ImageState(key, None, false, None)
    {
      if !ValidKey(key) {
        return null;
      }
      image := new Image(key);
    }

    predicate IsHydrated()
      reads this
    {
      Hydrated(data)
    }

    predicate IsPersistent()
      reads this
    {
      persistent
    }

    function GetKey(): string
      reads this
    {
      key
    }

    function GetData(): Option<Bytes>
      reads this
    {
      data
    }

    /** `isHydrated` as the getters see it: the data is set and is neither the
        empty string nor "0". */
    lemma IsHydratedIff()
      ensures IsHydrated() <==> GetData().Some? && GetData().value != [] && GetData().value != ZERO_STRING
    {
    }

    /** Replaces the key, without the constructor's check; the image is no
        longer known to be on the remote. */
    method SetKey(key: string)
      modifies this
      ensures State() == old(State()).(key := key, persistent := false)
    {
      this.key := key;
      persistent := false;
    }

    /** Replaces the data; the image is no longer known to be on the remote. */
    method SetData(data: Option<Bytes>)
      modifies this
      ensures State() == old(State()).(data := data, persistent := false)
    {
      this.data := data;
      persistent := false;
    }

    /** Drops the data from memory; key and persistence are kept. */
    method Flush()
      modifies this
      ensures State() == old(State()).(data := None)
      ensures !IsHydrated()
    {
      data := None;
    }

    /** The manager's privileged write of `persistent`. */
    method MarkPersistent()
      modifies this
      ensures State() == old(State()).(persistent := true)
    {
      persistent := true;
    }
  }
}
