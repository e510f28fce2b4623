/** What the manager promises, proved about the functions of ManagerSpec. */
module ManagerProperties {
  import opened Wrappers
  import opened Bytes
  import opened ImageEntity
  import opened ImageInspector
  import opened Encoders
  import opened ManagerSpec

  // ---- push ----------------------------------------------------------------

  /** An unhydrated source image is refused and nothing changes. */
  lemma PushUnhydratedSource(c: Config, es: seq<Encoder>, s: Store, image: ImageState, overwrite: bool)
    requires !Hydrated(image.data) && !image.IsVariation()
    ensures Push(c, es, s, image, overwrite) == Step(s, image, NotHydrated(false))
  {
  }

  /** An unhydrated variation is pulled (or rendered) first; a failing pull is
      the push's outcome, a pull that leaves no usable bytes is refused as
      unhydrated, and otherwise the variation is written as it came unless the
      key is taken and overwriting is off. */
  lemma PushUnhydratedVariation(c: Config, es: seq<Encoder>, s: Store, image: ImageState,
                                overwrite: bool)
    requires !Hydrated(image.data) && image.IsVariation()
    ensures var p := Pull(c, es, s, image);
      !p.status.Ok? ==> Push(c, es, s, image, overwrite) == p
    ensures var p := Pull(c, es, s, image);
      p.status.Ok? && !Hydrated(p.image.data) ==>
        Push(c, es, s, image, overwrite) == Step(p.store, p.image, NotHydrated(false))
    ensures var p := Pull(c, es, s, image);
      p.status.Ok? && Hydrated(p.image.data) &&
      (overwrite || (p.store.TagExists(image.key) != Some(true) && image.key !in p.store.remote)) ==>
        var r := Push(c, es, s, image, overwrite);
        r.status == Ok && r.store.remote == p.store.remote[image.key := p.image.data.value] &&
        r.image.persistent && r.image.data == p.image.data
  {
    var p := Pull(c, es, s, image);
    if p.status.Ok? {
      assert p.image.key == image.key && p.image.IsVariation();
    }
  }

  /** Without overwrite, a present tag refuses the push before the remote is
      touched. */
  lemma PushTaggedRefused(c: Config, es: seq<Encoder>, s: Store, image: ImageState)
    requires Hydrated(image.data)
    requires s.TagExists(image.key) == Some(true)
    ensures Push(c, es, s, image, false) == Step(s, image, AlreadyExists)
  {
  }

  /** Without overwrite, a remote collision still tags the key, leaves the image
      (and its persistence) as it was, and refuses the push. */
  lemma PushCollision(c: Config, es: seq<Encoder>, s: Store, image: ImageState)
    requires Hydrated(image.data) && (image.IsVariation() || FormatOf(image.data.value).Some?)
    requires s.TagExists(image.key) != Some(true) && image.key in s.remote
    ensures var r := Push(c, es, s, image, false);
      r.status == AlreadyExists && r.image == image && r.store.remote == s.remote &&
      r.store == s.Tagged(image.key, PushTag(GetImageMetadata, c, image))
  {
  }

  /** A hydrated image is written when overwriting or when its key is new: the
      remote holds its bytes, it becomes persistent, and a cache tags it, with
      metadata for a source and the sentinel for a variation. */
  lemma PushWrites(c: Config, es: seq<Encoder>, s: Store, image: ImageState, overwrite: bool)
    requires Hydrated(image.data) && (image.IsVariation() || FormatOf(image.data.value).Some?)
    requires overwrite || (s.TagExists(image.key) != Some(true) && image.key !in s.remote)
    ensures var r := Push(c, es, s, image, overwrite);
      r.status == Ok &&
      r.store.remote == s.remote[image.key := image.data.value] &&
      r.image == image.(persistent := true) &&
      (s.cache.None? ==> r.store.cache == None) &&
      (s.cache.Some? ==>
        r.store.cache.Some? &&
        r.store.cache.value == s.cache.value[CacheKey(image.key) := PushTag(GetImageMetadata, c, image)])
    ensures image.IsVariation() ==> PushTag(GetImageMetadata, c, image) == Sentinel
    ensures !image.IsVariation() ==>
      PushTag(GetImageMetadata, c, image) == Meta(MetadataOf(c.probe, image.data.value))
  {
  }

  /** A hydrated source whose bytes are of no known format gets past the tag
      check and is then refused by the inspector, with nothing written. */
  lemma PushUnknownFormat(c: Config, es: seq<Encoder>, s: Store, image: ImageState, overwrite: bool)
    requires Hydrated(image.data) && !image.IsVariation() && FormatOf(image.data.value).None?
    requires overwrite || s.TagExists(image.key) != Some(true)
    ensures Push(c, es, s, image, overwrite) == Step(s, image, InspectFailed(UnknownFormat))
  {
  }

  /** As written, every hydrated source that gets past the tag check is refused
      by the inspector, so no source image is ever written; variations are
      unaffected. */
  lemma PushAsWrittenRefusesSources(c: Config, es: seq<Encoder>, s: Store, image: ImageState,
                                    overwrite: bool)
    requires Hydrated(image.data) && !image.IsVariation()
    requires overwrite || s.TagExists(image.key) != Some(true)
    ensures PushAsWritten(c, es, s, image, overwrite) == Step(s, image, InspectFailed(InaccessibleSetter))
    ensures FormatOf(image.data.value).Some? ==>
      Push(c, es, s, image, overwrite).status in {Ok, AlreadyExists}
  {
  }

  /** Either way a push that ends Ok or AlreadyExists leaves the image reported
      as existing. */
  lemma PushThenExists(c: Config, es: seq<Encoder>, s: Store, image: ImageState, overwrite: bool)
    ensures var r := Push(c, es, s, image, overwrite);
      r.status.Ok? || r.status.AlreadyExists? ==> Exists(r.store, image.key)
  {
    var r := Push(c, es, s, image, overwrite);
    var pre := if !Hydrated(image.data) && image.IsVariation() then Pull(c, es, s, image)
               else Step(s, image, Ok);
    if r.status.Ok? || r.status.AlreadyExists? {
      assert pre.status.Ok?;
      assert pre.image.key == image.key;
    }
  }

  // ---- pullSource ----------------------------------------------------------

  /** A negative tag is trusted unless validation is on and the remote has the
      key: the pull fails and the store is left as it was. */
  lemma PullSourceTrustsNegativeTag(c: Config, s: Store, image: ImageState)
    requires s.TagExists(image.key) == Some(false)
    requires !c.validateTags || image.key !in s.remote
    ensures PullSource(c, s, image) == Step(s, image, NotExists(false))
  {
    if c.validateTags {
      assert s.cache.value - {CacheKey(image.key)} == s.cache.value;
    }
  }

  /** A remote miss behind a missing-or-positive tag untags the key. */
  lemma PullSourceMissUntags(c: Config, s: Store, image: ImageState)
    requires s.TagExists(image.key) != Some(false)
    requires image.key !in s.remote
    ensures PullSource(c, s, image) == Step(s.Untagged(image.key), image, NotExists(false))
  {
  }

  /** The pull succeeds exactly when the remote has the key and the tag does not
      rule it out; it then holds the remote's bytes and is persistent. */
  lemma PullSourceOk(c: Config, s: Store, image: ImageState)
    ensures var r := PullSource(c, s, image);
      r.status.Ok? <==> image.key in s.remote && (s.TagExists(image.key) != Some(false) || c.validateTags)
    ensures var r := PullSource(c, s, image);
      r.status.Ok? ==> r.image == image.(data := Some(s.remote[image.key]), persistent := true) &&
                       r.store.remote == s.remote
  {
  }

  /** A pull never changes the remote and ends Ok or NotExists. */
  lemma PullSourceKeepsRemote(c: Config, s: Store, image: ImageState)
    ensures PullSource(c, s, image).store.remote == s.remote
    ensures PullSource(c, s, image).status in {Ok, NotExists(false)}
  {
  }

  /** Push then pull: a pushed source image pulls back byte for byte, into any
      image object under the same key. */
  lemma PushThenPull(c: Config, es: seq<Encoder>, s: Store, image: ImageState, overwrite: bool,
                     other: ImageState)
    requires Push(c, es, s, image, overwrite).status == Ok
    requires other.key == image.key && !other.IsVariation()
    ensures var r := Push(c, es, s, image, overwrite);
      var p := PullSource(c, r.store, other);
      p.status == Ok && p.image.data == r.image.data && Hydrated(p.image.data) && p.image.persistent
  {
    var r := Push(c, es, s, image, overwrite);
    var pre := if !Hydrated(image.data) && image.IsVariation() then Pull(c, es, s, image)
               else Step(s, image, Ok);
    assert pre.image.key == image.key;
    assert r.store.remote[image.key] == r.image.data.value;
    if r.store.cache.Some? {
      assert CacheKey(image.key) in r.store.cache.value;
    }
  }

  // ---- pullVariation -------------------------------------------------------

  /** A rendition that can be pulled is used as it is: hydrated from the remote
      and persistent. */
  lemma PullVariationExisting(c: Config, es: seq<Encoder>, s: Store, v: ImageState)
    requires v.IsVariation()
    requires v.key in s.remote && s.TagExists(v.key) != Some(false)
    ensures var r := PullVariation(c, es, s, v);
      r.status == Ok && r.image.data == Some(s.remote[v.key]) && r.image.persistent && r.store == s
  {
  }

  /** A parent the remote does not hold fails with the parent message,
      whatever its tag says, and the variation is untouched. */
  lemma PullVariationMissingParent(c: Config, es: seq<Encoder>, s: Store, v: ImageState)
    requires v.IsVariation() && ValidKey(v.derivation.value.parentKey)
    requires PullSource(c, s, v).status != Ok
    requires v.derivation.value.parentKey !in s.remote
    ensures var r := PullVariation(c, es, s, v);
      r.status == NotExists(true) && r.image == v && r.store.remote == s.remote
  {
    PullSourceKeepsRemote(c, s, v);
  }

  /** Without validation a negative parent tag is trusted: the parent message,
      even when the remote holds the parent, and the variation is untouched. */
  lemma PullVariationTrustsParentTag(c: Config, es: seq<Encoder>, s: Store, v: ImageState)
    requires v.IsVariation() && ValidKey(v.derivation.value.parentKey)
    requires PullSource(c, s, v).status != Ok
    requires !c.validateTags && s.TagExists(v.derivation.value.parentKey) == Some(false)
    ensures var r := PullVariation(c, es, s, v);
      r.status == NotExists(true) && r.image == v && r == Step(PullSource(c, s, v).store, v, NotExists(true))
  {
    var pk := v.derivation.value.parentKey;
    var first := PullSource(c, s, v);
    assert first.store.TagExists(pk) == Some(false) by {
      CacheKeyInjective(pk, v.key);
    }
  }

  /** With validation a negative parent tag is checked against the remote: a
      parent the remote holds is tagged again and the variation is rendered
      from the remote's bytes. */
  lemma PullVariationRevalidatesParent(c: Config, es: seq<Encoder>, s: Store, v: ImageState)
    requires v.IsVariation() && ValidKey(v.derivation.value.parentKey)
    requires PullSource(c, s, v).status != Ok
    requires c.validateTags && s.TagExists(v.derivation.value.parentKey) == Some(false)
    requires v.derivation.value.parentKey in s.remote
    ensures var pk := v.derivation.value.parentKey;
      var r := PullVariation(c, es, s, v);
      var h := HydrateVariation(c.renderers, es, Some(s.remote[pk]), v);
      r.image == h.image && r.status == h.status &&
      r.store.TagExists(pk) == Some(true) && r.store.remote == s.remote
  {
    var pk := v.derivation.value.parentKey;
    var first := PullSource(c, s, v);
    PullSourceKeepsRemote(c, s, v);
    assert first.store.cache.Some? && first.store.TagExists(pk) == Some(false) by {
      CacheKeyInjective(pk, v.key);
    }
  }

  /** A parent key that is not valid is refused as the parent image is built. */
  lemma PullVariationInvalidParent(c: Config, es: seq<Encoder>, s: Store, v: ImageState)
    requires v.IsVariation() && !ValidKey(v.derivation.value.parentKey)
    requires PullSource(c, s, v).status != Ok
    ensures PullVariation(c, es, s, v).status == InvalidKey
  {
  }

  /** A rendered variation ends hydrated but not persistent, and is still not
      reported as existing: it has not been pushed. */
  lemma PullVariationRendered(c: Config, es: seq<Encoder>, s: Store, v: ImageState)
    requires v.IsVariation()
    requires PullSource(c, s, v).status != Ok
    requires PullVariation(c, es, s, v).status == Ok
    ensures var r := PullVariation(c, es, s, v);
      Hydrated(r.image.data) && !r.image.persistent && !Exists(r.store, v.key) &&
      r.store.remote == s.remote
  {
    var first := PullSource(c, s, v);
    PullSourceKeepsRemote(c, s, v);
    var pk := v.derivation.value.parentKey;
    var g := TagGate(c, first.store, pk);
    var r := PullVariation(c, es, s, v);
    assert !Exists(first.store, v.key);
    assert g.open && pk in g.store.remote;
    assert pk != v.key || first.store.cache.None?;
    if first.store.cache.Some? {
      assert r.store.TagExists(v.key) == first.store.TagExists(v.key) by {
        CacheKeyInjective(pk, v.key);
      }
    }
  }

  // ---- hydrateVariation ----------------------------------------------------

  /** The quality handed to an encoder is always within 1..100: unset or 0
      means 90, and other values are clamped. */
  lemma QualityBounds(q: Option<int>)
    ensures 1 <= EffectiveQuality(q) <= 100
    ensures q.None? || q == Some(0) ==> EffectiveQuality(q) == 90
    ensures q.Some? && q.value != 0 && q.value < 1 ==> EffectiveQuality(q) == 1
    ensures q.Some? && q.value > 100 ==> EffectiveQuality(q) == 100
    ensures q.Some? && 1 <= q.value <= 100 ==> EffectiveQuality(q) == q.value
  {
  }

  /** An unhydrated parent is refused and the variation is untouched. */
  lemma HydrateRefusesUnhydratedParent(rs: Renderers, es: seq<Encoder>, parentData: Option<Bytes>,
                                       v: ImageState)
    requires v.IsVariation() && !Hydrated(parentData)
    ensures HydrateVariation(rs, es, parentData, v) == Rendered(v, NotHydrated(true))
  {
  }

  /** Otherwise the data is cleared first; the first encoder in list order that
      supports the parent's data renders it, and nothing rendered, or an empty
      rendering, is the NoSupportedEncoder error. */
  lemma HydrateUsesFirstSupporting(rs: Renderers, es: seq<Encoder>, parentData: Option<Bytes>,
                                   v: ImageState)
    requires v.IsVariation() && Hydrated(parentData)
    ensures var r := HydrateVariation(rs, es, parentData, v);
      !r.image.persistent && r.image.key == v.key && r.image.derivation == v.derivation
    ensures var r := HydrateVariation(rs, es, parentData, v);
      (forall j :: 0 <= j < |es| ==> !Supports(es[j], parentData.value)) ==>
        r == Rendered(v.(data := None, persistent := false), NoSupportedEncoder)
    ensures var r := HydrateVariation(rs, es, parentData, v);
      r.status == Ok <==> r.image.data.Some? && Hydrated(r.image.data)
    ensures var r := HydrateVariation(rs, es, parentData, v);
      var recipe := v.derivation.value.recipe;
      r.image.data.Some? ==>
        exists i :: 0 <= i < |es| && Supports(es[i], parentData.value) &&
          (forall j :: 0 <= j < i ==> !Supports(es[j], parentData.value)) &&
          r.image.data.value == Output(rs, es[i], parentData.value, recipe.format,
                                       EffectiveQuality(recipe.quality), recipe.dimensions, recipe.crop)
    ensures var r := HydrateVariation(rs, es, parentData, v);
      var recipe := v.derivation.value.recipe;
      var first := FirstSupporting(es, parentData.value);
      first.Some? ==>
        r.image.data == Some(Output(rs, es[first.value], parentData.value, recipe.format,
                                    EffectiveQuality(recipe.quality), recipe.dimensions, recipe.crop)) &&
        (r.status == Ok <==> !PhpEmpty(r.image.data.value)) &&
        (r.status != Ok ==> r.status == NoSupportedEncoder)
  {
    var r := HydrateVariation(rs, es, parentData, v);
    match FirstSupporting(es, parentData.value)
    case None =>
    case Some(i) =>
      assert Supports(es[i], parentData.value);
  }

  /** `createVariation` yields, on success, a hydrated variation of the source
      that is not persistent. */
  lemma CreateVariationHydrated(rs: Renderers, es: seq<Encoder>, source: ImageState, recipe: Recipe,
                                derive: KeyDeriver)
    ensures var r := ManagerSpec.CreateVariation(rs, es, source, recipe, derive);
      r.image.key == derive(source.key, recipe) &&
      r.image.derivation == Some(Derivation(source.key, recipe))
    ensures var r := ManagerSpec.CreateVariation(rs, es, source, recipe, derive);
      r.status == Ok ==> Hydrated(r.image.data) && !r.image.persistent
    ensures !Hydrated(source.data) ==> ManagerSpec.CreateVariation(rs, es, source, recipe, derive).status == NotHydrated(true)
  {
    if Hydrated(source.data) {
      HydrateUsesFirstSupporting(rs, es, source.data, NewVariation(source, recipe, derive));
    }
  }

  /** With an injective key rule, two variations of one source made from
      different recipes are stored apart: pushing both leaves each one's bytes
      in the remote under its own key. */
  lemma RecipesStoredApart(c: Config, es: seq<Encoder>, s: Store, source: ImageState,
                           r1: Recipe, r2: Recipe, derive: KeyDeriver)
    requires Injective(derive) && r1 != r2
    requires ManagerSpec.CreateVariation(c.renderers, es, source, r1, derive).status == Ok
    requires ManagerSpec.CreateVariation(c.renderers, es, source, r2, derive).status == Ok
    ensures var v1 := ManagerSpec.CreateVariation(c.renderers, es, source, r1, derive).image;
      var v2 := ManagerSpec.CreateVariation(c.renderers, es, source, r2, derive).image;
      var p1 := Push(c, es, s, v1, true);
      var p2 := Push(c, es, p1.store, v2, true);
      v1.key != v2.key && p1.status == Ok && p2.status == Ok &&
      p2.store.remote[v1.key] == v1.data.value && p2.store.remote[v2.key] == v2.data.value
  {
    var v1 := ManagerSpec.CreateVariation(c.renderers, es, source, r1, derive).image;
    var v2 := ManagerSpec.CreateVariation(c.renderers, es, source, r2, derive).image;
    CreateVariationHydrated(c.renderers, es, source, r1, derive);
    CreateVariationHydrated(c.renderers, es, source, r2, derive);
    assert derive(source.key, r1) != derive(source.key, r2);
    PushWrites(c, es, s, v1, true);
    var p1 := Push(c, es, s, v1, true);
    PushWrites(c, es, p1.store, v2, true);
  }

  // ---- encoders ------------------------------------------------------------

  /** The constructor puts exactly one default encoder in place of none. */
  lemma DefaultEncoderOnlyWhenEmpty(es: seq<Encoder>)
    ensures es == [] ==> DefaultEncoders(es) == [InterventionEncoder]
    ensures es != [] ==> DefaultEncoders(es) == es
  {
  }

  /** `addEncoder` prepends or appends; a prepended encoder that supports the
      data is the one chosen, and an appended one never displaces one chosen
      before. */
  lemma AddEncoderOrder(es: seq<Encoder>, e: Encoder, data: Bytes)
    ensures AddedEncoder(es, e, true) == [e] + es && AddedEncoder(es, e, false) == es + [e]
    ensures Supports(e, data) ==> FirstSupporting(AddedEncoder(es, e, true), data) == Some(0)
    ensures FirstSupporting(es, data).Some? ==>
            FirstSupporting(AddedEncoder(es, e, false), data) == FirstSupporting(es, data)
  {
    if FirstSupporting(es, data).Some? {
      FirstFromAppend(es, [e], data, 0);
    }
  }

  // ---- the cache -----------------------------------------------------------

  /** Without a cache pool, tagging and untagging do nothing, the tag is unknown,
      pulls always go to the remote and existence is the remote's. */
  lemma NoCacheFallsBackToRemote(c: Config, s: Store, key: string, t: Tag, image: ImageState)
    requires s.cache.None?
    ensures s.TagExists(key) == None && s.Tagged(key, t) == s && s.Untagged(key) == s
    ensures Exists(s, key) <==> key in s.remote
    ensures PullSource(c, s, image).status == Ok <==> image.key in s.remote
    ensures PullSource(c, s, image).store == s
  {
  }

  /** `validateTag` makes the tag agree with the remote. */
  lemma ValidateTagAgrees(s: Store, key: string)
    ensures var g := ValidateTag(s, key);
      g.open == (key in s.remote) && g.store.remote == s.remote &&
      Exists(g.store, key) == (key in s.remote) &&
      (s.cache.Some? ==> g.store.TagExists(key) == Some(key in s.remote))
  {
  }

  /** Tags of other keys are not disturbed by tagging or untagging a key. */
  lemma TagsAreIndependent(s: Store, key: string, other: string, t: Tag)
    requires key != other
    ensures s.Tagged(key, t).TagExists(other) == s.TagExists(other)
    ensures s.Untagged(key).TagExists(other) == s.TagExists(other)
  {
    CacheKeyInjective(key, other);
  }

  /** `remove` deletes, then untags; a missing key is an error and changes nothing. */
  lemma RemoveDeletesAndUntags(s: Store, key: string)
    ensures var r := Remove(s, key);
      r.status == Ok <==> key in s.remote
    ensures var r := Remove(s, key);
      r.status == Ok ==>
        key !in r.store.remote && !Exists(r.store, key) &&
        forall k :: k != key ==> (k in r.store.remote <==> k in s.remote)
    ensures var r := Remove(s, key);
      forall k :: k != key && k in s.remote ==> r.store.remote[k] == s.remote[k]
    ensures var r := Remove(s, key);
      forall k :: k != key ==> r.store.TagExists(k) == s.TagExists(k)
    ensures !(key in s.remote) ==> Remove(s, key) == Changed(s, StoreError)
  {
    var r := Remove(s, key);
    forall k | k != key
      ensures r.store.TagExists(k) == s.TagExists(k)
    {
      CacheKeyInjective(k, key);
    }
  }

  /** `rename` moves the bytes, and an existing tag, from the source key to the
      target key. */
  lemma RenameMovesTag(s: Store, source: string, target: string)
    requires source in s.remote && target !in s.remote
    ensures var r := Rename(s, source, target);
      r.status == Ok && source !in r.store.remote && r.store.remote[target] == s.remote[source]
    ensures var r := Rename(s, source, target);
      s.TagExists(source) == Some(true) ==>
        r.store.cache.Some? && CacheKey(target) in r.store.cache.value &&
        r.store.cache.value[CacheKey(target)] == s.cache.value[CacheKey(source)] &&
        r.store.TagExists(source) == Some(false)
    ensures var r := Rename(s, source, target);
      s.TagExists(source) != Some(true) ==> r.store.cache == s.cache
    ensures var r := Rename(s, source, target);
      forall k :: k != source && k != target ==>
        (k in r.store.remote <==> k in s.remote) &&
        (k in s.remote ==> r.store.remote[k] == s.remote[k]) &&
        r.store.TagExists(k) == s.TagExists(k)
  {
    assert source != target;
    CacheKeyInjective(source, target);
    var r := Rename(s, source, target);
    forall k | k != source && k != target
      ensures r.store.TagExists(k) == s.TagExists(k)
    {
      CacheKeyInjective(k, source);
      CacheKeyInjective(k, target);
    }
  }

  // ---- the soundness of tags ----------------------------------------------

  /** In a sound store a positive answer of `exists` is true of the remote. */
  lemma SoundExistsIsRemote(s: Store, key: string)
    requires Sound(s)
    ensures Exists(s, key) ==> key in s.remote
  {
  }

  lemma SoundTagged(s: Store, key: string, t: Tag)
    requires Sound(s) && key in s.remote
    ensures Sound(s.Tagged(key, t))
  {
    if s.cache.Some? {
      forall k | CacheKey(k) in s.Tagged(key, t).cache.value
        ensures k in s.remote
      {
        CacheKeyInjective(k, key);
      }
    }
  }

  lemma SoundUntagged(s: Store, key: string)
    requires Sound(s)
    ensures Sound(s.Untagged(key))
  {
  }

  /** Validation keeps the store sound. */
  lemma SoundTagGate(c: Config, s: Store, key: string)
    requires Sound(s)
    ensures Sound(TagGate(c, s, key).store) && TagGate(c, s, key).store.remote == s.remote
  {
    if s.TagExists(key) == Some(false) && c.validateTags && key in s.remote {
      SoundTagged(s, key, Sentinel);
    }
  }

  /** Pulls keep the store sound. */
  lemma SoundPull(c: Config, es: seq<Encoder>, s: Store, image: ImageState)
    requires Sound(s)
    ensures Sound(Pull(c, es, s, image).store) && Pull(c, es, s, image).store.remote == s.remote
  {
    SoundTagGate(c, s, image.key);
    var g := TagGate(c, s, image.key);
    if g.open && image.key !in g.store.remote {
      SoundUntagged(g.store, image.key);
    }
    if image.IsVariation() {
      var first := PullSource(c, s, image);
      SoundTagGate(c, first.store, image.derivation.value.parentKey);
    }
  }

  /** Pushes keep the store sound: every tag they add is for a key the remote
      holds afterwards. */
  lemma SoundPush(c: Config, es: seq<Encoder>, s: Store, image: ImageState, overwrite: bool)
    requires Sound(s)
    ensures Sound(Push(c, es, s, image, overwrite).store)
  {
    SoundPull(c, es, s, image);
    var pre := if !Hydrated(image.data) && image.IsVariation() then Pull(c, es, s, image)
               else Step(s, image, Ok);
    var s1, i1 := pre.store, pre.image;
    assert Sound(s1);
    var r := PushWith(GetImageMetadata, c, es, s, image, overwrite);
    if !pre.status.Ok? || !Hydrated(i1.data) || (!overwrite && s1.TagExists(i1.key) == Some(true)) {
      assert r.store == s1;
    } else if !i1.IsVariation() && GetImageMetadata(c.probe, i1).Rejected? {
      assert r.store == s1;
    } else {
      var t := PushTag(GetImageMetadata, c, i1);
      if !overwrite && i1.key in s1.remote {
        assert r.store == s1.Tagged(i1.key, t);
        SoundTagged(s1, i1.key, t);
      } else {
        var written := s1.(remote := s1.remote[i1.key := i1.data.value]);
        assert r.store == written.Tagged(i1.key, t);
        assert Sound(written);
        SoundTagged(written, i1.key, t);
      }
    }
  }

  /** Removal keeps the store sound. */
  lemma SoundRemove(s: Store, key: string)
    requires Sound(s)
    ensures Sound(Remove(s, key).store)
  {
    if key in s.remote {
      var deleted := s.(remote := s.remote - {key});
      assert Sound(deleted.Untagged(key)) by {
        if s.cache.Some? {
          forall k | CacheKey(k) in deleted.Untagged(key).cache.value
            ensures k in deleted.remote
          {
            CacheKeyInjective(k, key);
          }
        }
      }
    }
  }

  /** Renaming keeps the store sound. */
  lemma SoundRename(s: Store, source: string, target: string)
    requires Sound(s)
    ensures Sound(Rename(s, source, target).store)
  {
    if source in s.remote && target !in s.remote {
      var moved := s.(remote := (s.remote - {source})[target := s.remote[source]]);
      if moved.TagExists(source) == Some(true) {
        var tagged := moved.Tagged(target, moved.cache.value[CacheKey(source)]);
        forall k | CacheKey(k) in tagged.Untagged(source).cache.value
          ensures k in tagged.remote
        {
          CacheKeyInjective(k, source);
          CacheKeyInjective(k, target);
        }
      } else if moved.cache.Some? {
        forall k | CacheKey(k) in moved.cache.value
          ensures k in moved.remote
        {
          CacheKeyInjective(k, source);
        }
      }
    }
  }

  /** Marking an image as existing keeps the store sound only when the remote
      has it; marking it absent always does. */
  lemma SoundSetImageExists(s: Store, key: string, present: bool)
    requires Sound(s)
    requires present ==> key in s.remote
    ensures Sound(s.SetImageExists(key, present))
  {
    if present {
      SoundTagged(s, key, Sentinel);
    }
  }
}
