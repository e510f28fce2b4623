/** The image manager's behaviour as functions of its state: the remote blob
    store, the optional existence-tag cache, and the image an operation is given.
    The class in ImageManagerService is proved to follow these functions step
    for step. */
module ManagerSpec {
  import opened Wrappers
  import opened Bytes
  import opened ImageFormatEnum
  import opened ImageDimensionsEntity
  import opened ImageCropDimensionsEntity
  import opened ImageEntity
  import opened ImageInspector
  import opened Encoders

  /** A cache item's value: the sentinel 1, or the metadata of a source image. */
  datatype Tag = Sentinel | Meta(metadata: ImageMetadata)

  /** The value `tag` stores for optional metadata. */
  function TagValue(metadata: Option<ImageMetadata>): Tag {
    if metadata.None? then Sentinel else Meta(metadata.value)
  }

  /** The cache item under which an image key is tagged. */
  function CacheKey(key: string): string {
    "remote." + key
  }

  lemma CacheKeyInjective(a: string, b: string)
    ensures CacheKey(a) == CacheKey(b) <==> a == b
  {
    if CacheKey(a) == CacheKey(b) {
      assert a == CacheKey(a)[7..];
      assert b == CacheKey(b)[7..];
    }
  }

  /** The remote filesystem, and the cache pool if there is one. */
  datatype Store = Store(remote: map<string, Bytes>, cache: Option<map<string, Tag>>)
  {
    /** `tagExists`: unknown without a cache pool. */
    function TagExists(key: string): Option<bool> {
      if cache.None? then None else Some(CacheKey(key) in cache.value)
    }

    /** `tag`: a no-op without a cache pool. */
    function Tagged(key: string, t: Tag): Store {
      if cache.None? then this else this.(cache := Some(cache.value[CacheKey(key) := t]))
    }

    /** `untag`: a no-op without a cache pool. */
    function Untagged(key: string): Store {
      if cache.None? then this else this.(cache := Some(cache.value - {CacheKey(key)}))
    }

    /** `setImageExists`. */
    function SetImageExists(key: string, present: bool): Store {
      if present then Tagged(key, Sentinel) else Untagged(key)
    }
  }

  /** The fixed parts of a manager: whether a negative tag is checked against the
      remote, the encoders' libraries, and the inspector's library. */
  datatype Config = Config(validateTags: bool, renderers: Renderers, probe: Probe)

  /** How an operation ends: normally, or with the exception it throws. */
  datatype Status =
    | Ok
    | NotHydrated(parent: bool)
    | NotExists(parent: bool)
    | AlreadyExists
    | NoSupportedEncoder
    | InvalidKey
    | StoreError
    | InspectFailed(error: InspectError)

  /** The state after an operation on an image. */
  datatype Step = Step(store: Store, image: ImageState, status: Status)

  /** The state after an operation on keys only. */
  datatype Changed = Changed(store: Store, status: Status)

  /** The outcome of rendering a variation, which touches only the variation. */
  datatype Rendered = Rendered(image: ImageState, status: Status)

  /** The outcome of the tag check that opens `pullSource` and the parent step of
      `pullVariation`: whether to go on to the remote, and the store after any
      `validateTag`. */
  datatype Gate = Gate(store: Store, open: bool)

  function TagGate(c: Config, s: Store, key: string): Gate {
    if s.TagExists(key) == Some(false) then
      if c.validateTags then Gate(s.SetImageExists(key, key in s.remote), key in s.remote)
      else Gate(s, false)
    else Gate(s, true)
  }

  /** `validateTag` (and the store it leaves). */
  function ValidateTag(s: Store, key: string): Gate {
    Gate(s.SetImageExists(key, key in s.remote), key in s.remote)
  }

  /** `exists`: the tag when there is a cache, otherwise the remote. */
  function Exists(s: Store, key: string): bool {
    match s.TagExists(key)
    case Some(b) => b
    case None => key in s.remote
  }

  /** `pullSource`. */
  function PullSource(c: Config, s: Store, image: ImageState): Step {
    var g := TagGate(c, s, image.key);
    if !g.open then Step(g.store, image, NotExists(false))
    else if image.key in g.store.remote then
      Step(g.store, image.(data := Some(g.store.remote[image.key]), persistent := true), Ok)
    else Step(g.store.Untagged(image.key), image, NotExists(false))
  }

  /** The quality handed to an encoder: a null or 0 quality means 90, then the
      value is clamped to 1..100. */
  function EffectiveQuality(quality: Option<int>): int {
    var q := if quality.None? || quality.value == 0 then 90 else quality.value;
    if q < 1 then 1 else if q > 100 then 100 else q
  }

  /** `hydrateVariation`, given the parent's data. */
  function HydrateVariation(rs: Renderers, es: seq<Encoder>, parentData: Option<Bytes>,
                            variation: ImageState): Rendered
    requires variation.IsVariation()
  {
    if !Hydrated(parentData) then Rendered(variation, NotHydrated(true))
    else
      var cleared := variation.(data := None, persistent := false);
      var input := parentData.value;
      var recipe := variation.derivation.value.recipe;
      match FirstSupporting(es, input)
      case None => Rendered(cleared, NoSupportedEncoder)
      case Some(i) =>
        var out := Output(rs, es[i], input, recipe.format, EffectiveQuality(recipe.quality),
                          recipe.dimensions, recipe.crop);
        Rendered(cleared.(data := Some(out)), if PhpEmpty(out) then NoSupportedEncoder else Ok)
  }

  /** `pullVariation`: the rendition itself if it can be pulled, otherwise a
      rendering from the parent. */
  function PullVariation(c: Config, es: seq<Encoder>, s: Store, image: ImageState): Step
    requires image.IsVariation()
  {
    var first := PullSource(c, s, image);
    if first.status.Ok? then first
    else
      var parentKey := image.derivation.value.parentKey;
      if !ValidKey(parentKey) then Step(first.store, image, InvalidKey)
      else
        var g := TagGate(c, first.store, parentKey);
        if !g.open || parentKey !in g.store.remote then Step(g.store, image, NotExists(true))
        else
          var r := HydrateVariation(c.renderers, es, Some(g.store.remote[parentKey]), image);
          Step(g.store, r.image, r.status)
  }

  /** `pull`. */
  function Pull(c: Config, es: seq<Encoder>, s: Store, image: ImageState): Step {
    if image.IsVariation() then PullVariation(c, es, s, image) else PullSource(c, s, image)
  }

  /** A reading of `getImageMetadata`: the intended one or the one as written. */
  type Inspector = (Probe, ImageState) -> Inspected<ImageMetadata>

  /** What `push` tags an image with: the sentinel for a variation, and the
      inspected metadata of a source. */
  function PushTag(inspect: Inspector, c: Config, image: ImageState): Tag
    requires image.IsVariation() || inspect(c.probe, image).Inspected?
  {
    if image.IsVariation() then Sentinel
    else TagValue(Some(inspect(c.probe, image).value))
  }

  /** `push` on a given reading of the inspector. A source is inspected after
      the tag check and before the write, so an inspection that fails stops the
      push with nothing written. The remote write fails with a collision exactly
      when it may not overwrite and the key is taken. */
  function PushWith(inspect: Inspector, c: Config, es: seq<Encoder>, s: Store, image: ImageState,
                    overwrite: bool): Step
  {
    var pre := if !Hydrated(image.data) && image.IsVariation() then Pull(c, es, s, image)
               else Step(s, image, Ok);
    if !pre.status.Ok? then pre
    else
      var s1, i1 := pre.store, pre.image;
      if !Hydrated(i1.data) then Step(s1, i1, NotHydrated(false))
      else if !overwrite && s1.TagExists(i1.key) == Some(true) then Step(s1, i1, AlreadyExists)
      else if !i1.IsVariation() && inspect(c.probe, i1).Rejected? then
        Step(s1, i1, InspectFailed(inspect(c.probe, i1).error))
      else
        var t := PushTag(inspect, c, i1);
        if !overwrite && i1.key in s1.remote then Step(s1.Tagged(i1.key, t), i1, AlreadyExists)
        else Step(s1.(remote := s1.remote[i1.key := i1.data.value]).Tagged(i1.key, t),
                  i1.(persistent := true), Ok)
  }

  /** `push`, with the metadata record's setters reachable. */
  function Push(c: Config, es: seq<Encoder>, s: Store, image: ImageState, overwrite: bool): Step {
    PushWith(GetImageMetadata, c, es, s, image, overwrite)
  }

  /** `push` as written, where inspecting any hydrated source raises. */
  function PushAsWritten(c: Config, es: seq<Encoder>, s: Store, image: ImageState, overwrite: bool): Step {
    PushWith(GetImageMetadataAsWritten, c, es, s, image, overwrite)
  }

  /** `remove`: the remote refuses to delete a missing key. */
  function Remove(s: Store, key: string): Changed {
    if key !in s.remote then Changed(s, StoreError)
    else Changed(s.(remote := s.remote - {key}).Untagged(key), Ok)
  }

  /** `rename`: the remote refuses a missing source and an existing target; a
      tagged source has its tag value moved to the target. */
  function Rename(s: Store, source: string, target: string): Changed {
    if source !in s.remote || target in s.remote then Changed(s, StoreError)
    else
      var moved := s.(remote := (s.remote - {source})[target := s.remote[source]]);
      if moved.TagExists(source) == Some(true) then
        Changed(moved.Tagged(target, moved.cache.value[CacheKey(source)]).Untagged(source), Ok)
      else Changed(moved, Ok)
  }

  /** The variation `createVariation` builds before rendering it. */
  function NewVariation(source: ImageState, recipe: Recipe, derive: KeyDeriver): ImageState {
    ImageState(derive(source.key, recipe), None, false, Some(Derivation(source.key, recipe)))
  }

  /** `createVariation`. */
  function CreateVariation(rs: Renderers, es: seq<Encoder>, source: ImageState, recipe: Recipe,
                           derive: KeyDeriver): Rendered
  {
    HydrateVariation(rs, es, source.data, NewVariation(source, recipe, derive))
  }

  /** The encoder list the constructor keeps: a default encoder in place of none. */
  function DefaultEncoders(es: seq<Encoder>): seq<Encoder> {
    if es == [] then [InterventionEncoder] else es
  }

  /** `addEncoder`. */
  function AddedEncoder(es: seq<Encoder>, e: Encoder, prepend: bool): seq<Encoder> {
    if prepend then [e] + es else es + [e]
  }

  /** Every tag in the cache is for a key the remote holds. */
  ghost predicate Sound(s: Store) {
    s.cache.Some? ==> forall k :: CacheKey(k) in s.cache.value ==> k in s.remote
  }
}
