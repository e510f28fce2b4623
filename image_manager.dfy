/** The image manager: a remote blob store, an optional cache of existence tags,
    and an ordered list of encoders. Every method is proved to leave the state
    the matching function of ManagerSpec describes. */
module ImageManagerService {
  import opened Wrappers
  import opened Bytes
  import opened ImageFormatEnum
  import opened ImageDimensionsEntity
  import opened ImageCropDimensionsEntity
  import opened ImageEntity
  import opened ImageInspector
  import opened Encoders
  import opened ManagerSpec

  class ImageManager {
    /** The filesystem. */
    var remote: map<string, Bytes>
    /** The cache pool's items, or None without a cache pool. */
    var cache: Option<map<string, Tag>>
    var encoders: seq<Encoder>
    const validateTags: bool
    const renderers: Renderers
    const probe: Probe
    /** The key a new variation is stored under. */
    const variationKey: KeyDeriver

    function Store(): ManagerSpec.Store
      reads this
    {
      ManagerSpec.Store(remote, cache)
    }

    function Config(): ManagerSpec.Config {
      ManagerSpec.Config(validateTags, renderers, probe)
    }

    /** Without encoders, the manager gets an Intervention encoder. */
    constructor (remote: map<string, Bytes>, cache: Option<map<string, Tag>>, encoders: seq<Encoder>,
                 validateTags: bool, renderers: Renderers, probe: Probe, variationKey: KeyDeriver)
      ensures Store() == ManagerSpec.Store(remote, cache)
      ensures this.encoders == DefaultEncoders(encoders)
      ensures Config() == ManagerSpec.Config(validateTags, renderers, probe)
      ensures this.variationKey == variationKey
    {
      this.remote := remote;
      this.cache := cache;
      this.encoders := encoders;
      this.validateTags := validateTags;
      this.renderers := renderers;
      this.probe := probe;
      this.variationKey := variationKey;
      new;
      if encoders == [] {
        AddEncoder(InterventionEncoder, false);
      }
    }

    method AddEncoder(e: Encoder, prepend: bool)
      modifies this
      ensures encoders == AddedEncoder(old(encoders), e, prepend)
      ensures Store() == old(Store())
    {
      if prepend {
        encoders := [e] + encoders;
      } else {
        encoders := encoders + [e];
      }
    }

    method SetEncoders(es: seq<Encoder>)
      modifies this
      ensures encoders == es
      ensures Store() == old(Store())
    {
      encoders := es;
    }

    function GetEncoders(): seq<Encoder>
      reads this
    {
      encoders
    }

    /** `tag`. */
    method Tag(key: string, metadata: Option<ImageMetadata>)
      modifies this
      ensures Store() == old(Store()).Tagged(key, TagValue(metadata))
      ensures encoders == old(encoders)
    {
      if cache.None? {
        return;
      }
      cache := Some(cache.value[CacheKey(key) := TagValue(metadata)]);
    }

    /** `untag`. */
    method Untag(key: string)
      modifies this
      ensures Store() == old(Store()).Untagged(key)
      ensures encoders == old(encoders)
    {
      if cache.None? {
        return;
      }
      cache := Some(cache.value - {CacheKey(key)});
    }

    /** `tagExists`. */
    method TagExists(key: string) returns (r: Option<bool>)
      ensures r == Store().TagExists(key)
      ensures r.Some? <==> cache.Some?
    {
      if cache.None? {
        return None;
      }
      r := Some(CacheKey(key) in cache.value);
    }

    /** `setImageExists`. */
    method SetImageExists(image: Image, present: bool)
      modifies this
      ensures Store() == old(Store()).SetImageExists(image.key, present)
      ensures encoders == old(encoders)
    {
      if present {
        Tag(image.key, None);
      } else {
        Untag(image.key);
      }
    }

    /** `validateTag`. */
    method ValidateTag(image: Image) returns (present: bool)
      modifies this
      ensures Gate(Store(), present) == ManagerSpec.ValidateTag(old(Store()), image.key)
      ensures encoders == old(encoders)
    {
      present := image.key in remote;
      SetImageExists(image, present);
    }

    /** `exists`. */
    method Exists(image: Image) returns (present: bool)
      ensures present == ManagerSpec.Exists(Store(), image.key)
    {
      var tagged := TagExists(image.key);
      if tagged.Some? {
        return tagged.value;
      }
      present := image.key in remote;
    }

    /** `pullSource`. */
    method PullSource(image: Image) returns (status: Status)
      modifies this, image
      ensures Step(Store(), image.State(), status) == ManagerSpec.PullSource(Config(), old(Store()), old(image.State()))
      ensures encoders == old(encoders)
    {
      var tagged := TagExists(image.key);
      if tagged == Some(false) {
        if !validateTags {
          return NotExists(false);
        }
        var present := ValidateTag(image);
        if !present {
          return NotExists(false);
        }
      }
      if image.key !in remote {
        Untag(image.key);
        return NotExists(false);
      }
      image.SetData(Some(remote[image.key]));
      image.MarkPersistent();
      status := Ok;
    }

    /** `hydrateVariation`: the first encoder in list order that supports the
        parent's data renders the variation. */
    method HydrateVariation(parent: Image, variation: Image) returns (status: Status)
      requires parent != variation
      requires variation.derivation.Some?
      modifies variation
      ensures Rendered(variation.State(), status) ==
              ManagerSpec.HydrateVariation(renderers, encoders, parent.data, old(variation.State()))
    {
      if !parent.IsHydrated() {
        return NotHydrated(true);
      }
      var recipe := variation.derivation.value.recipe;
      var quality := if recipe.quality.None? || recipe.quality.value == 0 then 90 else recipe.quality.value;
      if quality < 1 {
        quality := 1;
      } else if quality > 100 {
        quality := 100;
      }
      assert quality == EffectiveQuality(recipe.quality);
      variation.SetData(None);
      ghost var cleared := variation.State();
      var input := parent.data.value;
      var i := 0;
      while i < |encoders|
        invariant 0 <= i <= |encoders|
        invariant FirstSupporting(encoders, input) == FirstFrom(encoders, input, i)
        invariant variation.State() == cleared
      {
        if Supports(encoders[i], input) {
          var out := Encoders.CreateVariation(renderers, encoders[i], input, recipe.format, quality,
                                     recipe.dimensions, recipe.crop);
          variation.SetData(Some(out));
          break;
        }
        i := i + 1;
      }
      if !variation.IsHydrated() {
        return NoSupportedEncoder;
      }
      status := Ok;
    }

    /** `pullVariation`. */
    method PullVariation(image: Image) returns (status: Status)
      requires image.derivation.Some?
      modifies this, image
      ensures Step(Store(), image.State(), status) ==
              ManagerSpec.PullVariation(Config(), old(encoders), old(Store()), old(image.State()))
      ensures encoders == old(encoders)
    {
      status := PullSource(image);
      if status.Ok? {
        return;
      }
      var parentKey := image.derivation.value.parentKey;
      var parent := Image.Create(parentKey);
      if parent == null {
        return InvalidKey;
      }
      var tagged := TagExists(parentKey);
      if tagged == Some(false) {
        if !validateTags {
          return NotExists(true);
        }
        var present := ValidateTag(parent);
        if !present {
          return NotExists(true);
        }
      }
      if parentKey !in remote {
        return NotExists(true);
      }
      parent.SetData(Some(remote[parentKey]));
      status := HydrateVariation(parent, image);
      parent.Flush();
    }

    /** `pull`. */
    method Pull(image: Image) returns (status: Status)
      modifies this, image
      ensures Step(Store(), image.State(), status) ==
              ManagerSpec.Pull(Config(), old(encoders), old(Store()), old(image.State()))
      ensures encoders == old(encoders)
    {
      if image.derivation.Some? {
        status := PullVariation(image);
      } else {
        status := PullSource(image);
      }
    }

    /** `push`. */
    method Push(image: Image, overwrite: bool) returns (status: Status)
      modifies this, image
      ensures Step(Store(), image.State(), status) ==
              ManagerSpec.Push(Config(), old(encoders), old(Store()), old(image.State()), overwrite)
      ensures encoders == old(encoders)
    {
      if !image.IsHydrated() && image.derivation.Some? {
        status := Pull(image);
        if !status.Ok? {
          return;
        }
      }
      if !image.IsHydrated() {
        return NotHydrated(false);
      }
      var tagged := TagExists(image.key);
      if !overwrite && tagged == Some(true) {
        return AlreadyExists;
      }
      var metadata: Option<ImageMetadata> := None;
      if image.derivation.None? {
        var inspected := GetImageMetadata(probe, image.State());
        if inspected.Rejected? {
          return InspectFailed(inspected.error);
        }
        metadata := Some(inspected.value);
      }
      if !overwrite && image.key in remote {
        Tag(image.key, metadata);
        return AlreadyExists;
      }
      remote := remote[image.key := image.data.value];
      image.MarkPersistent();
      Tag(image.key, metadata);
      status := Ok;
    }

    /** `remove`. */
    method Remove(image: Image) returns (status: Status)
      modifies this
      ensures Changed(Store(), status) == ManagerSpec.Remove(old(Store()), image.key)
      ensures encoders == old(encoders)
    {
      if image.key !in remote {
        return StoreError;
      }
      remote := remote - {image.key};
      Untag(image.key);
      status := Ok;
    }

    /** `rename`. */
    method Rename(source: string, target: string) returns (status: Status)
      modifies this
      ensures Changed(Store(), status) == ManagerSpec.Rename(old(Store()), source, target)
      ensures encoders == old(encoders)
    {
      if source !in remote || target in remote {
        return StoreError;
      }
      remote := (remote - {source})[target := remote[source]];
      var tagged := TagExists(source);
      if tagged == Some(true) {
        var metadata := cache.value[CacheKey(source)];
        cache := Some(cache.value[CacheKey(target) := metadata]);
        Untag(source);
      }
      status := Ok;
    }

    /** `createVariation`: a new variation of `source`, rendered. */
    method CreateVariation(source: Image, recipe: Recipe) returns (variation: Image, status: Status)
      ensures fresh(variation)
      ensures Rendered(variation.State(), status) ==
              ManagerSpec.CreateVariation(renderers, encoders, source.State(), recipe, variationKey)
    {
      variation := new Image.Variation(source.key, recipe, variationKey);
      status := HydrateVariation(source, variation);
    }

    /** `load`: a new source image holding `data`, or None for an invalid key. */
    method Load(data: Option<Bytes>, key: string) returns (image: Image?)
      ensures image != null <==> ValidKey(key)
      ensures image != null ==> fresh(image) && image.State() == ImageState(key, data, false, None)
    {
      image := Image.Create(key);
      if image != null {
        image.SetData(data);
      }
    }
  }
}
