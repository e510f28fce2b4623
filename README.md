# Image manager in Dafny

A model of the core of bravo3/image-manager, a PHP library. It stores images
on a remote blob store, such as S3 behind a Gaufrette filesystem. Beside the
store it keeps an optional cache pool of existence tags, so it can tell
whether a key exists without asking the remote. On demand it renders
*variations* of a source image (re-encoded, resized or cropped), using the
first encoder in an ordered list that accepts the source's bytes.

The model has these parts:

- **`ImageManagerService.ImageManager`**, a class. It has the remote
  (`map<string, Bytes>`), the cache (`Option<map<string, Tag>>`, where
  `None` means no cache pool), the encoder list, and the `validate_tags`
  switch. Every public and protected operation of the PHP class is a method,
  except `getMetadata`, `save` and `loadFromFile` (see "Left out").
  Each method's postcondition says that the new remote, cache and image
  equal one function of **`ManagerSpec`** applied to the old state. An
  exception the PHP code throws becomes a `Status` value: `NotHydrated`,
  `NotExists`, `AlreadyExists`, `NoSupportedEncoder`, `InvalidKey`,
  `StoreError`, or `InspectFailed` for an error raised while a source is
  inspected.
- **`ManagerProperties`** proves what the library promises about those
  functions. It covers push, pull and rendering, `exists`, `remove` and
  `rename`. It also proves a store invariant: every tag in the cache is for
  a key the remote holds. All operations preserve it, except marking a
  missing image as existing.
- **`ImageEntity.Image`** is the image record: key, data and persistence, with
  their reset rules. A variation is an image that also carries its parent's
  key and a `Recipe` (format, quality, dimensions, crop).
- The pure pieces:
  - magic-byte sniffing (**`DataInspector`**);
  - the dimension and crop signature strings, proved injective
    (**`ImageDimensionsEntity`**, **`ImageCropDimensionsEntity`** and
    **`Decimal`**);
  - the inspector's guards and its format and orientation rules
    (**`ImageInspector`**);
  - the two encoders' `supports` predicates, and the library requests each
    makes, in order (**`ImagickEncoder`**, **`InterventionEncoder`**,
    **`Encoders`**);
  - the two enumerations (**`ImageFormatEnum`**, **`ImageOrientationEnum`**),
    with the enumeration library's lookup by value (**`Enumeration`**).

Code outside the model is turned into parameters:

- Imagick and Intervention are functions from a request sequence to bytes
  (`Encoders.Renderers`).
- The inspector's width, height and density, and the MIME guess, are the
  `ImageInspector.Probe` functions.
- The rule that names variations on the remote is a `KeyDeriver`.

Some behaviour depends on the Gaufrette filesystem, which is not part of this
model. A write without overwrite fails when the key is taken. Delete refuses
a missing key. Rename refuses a missing source or an existing target. The
model follows what that library documents, as `AlreadyExists` and
`StoreError`.

## Model

| member | source | states |
|---|---|---|
| ImageManagerService.ImageManager.constructor | src/Bravo3/ImageManager/Services/ImageManager.php:90-104 | stores the remote, cache, switch and libraries; an empty encoder list becomes exactly `[InterventionEncoder]` |
| ImageManagerService.ImageManager.AddEncoder | src/Bravo3/ImageManager/Services/ImageManager.php:586-595 | the list, as `GetEncoders` returns it, becomes `[e] + old` when prepending, `old + [e]` otherwise; the store is unchanged |
| ImageManagerService.ImageManager.SetEncoders | src/Bravo3/ImageManager/Services/ImageManager.php:571-576 | the list `GetEncoders` returns is replaced by the argument; the store is unchanged |
| ImageManagerService.ImageManager.Tag | src/Bravo3/ImageManager/Services/ImageManager.php:315-332 | without a cache nothing changes; otherwise the item `remote.<key>` holds the metadata, or the sentinel when there is none |
| ImageManagerService.ImageManager.Untag | src/Bravo3/ImageManager/Services/ImageManager.php:341-351 | without a cache nothing changes; otherwise the item `remote.<key>` is deleted |
| ImageManagerService.ImageManager.TagExists | src/Bravo3/ImageManager/Services/ImageManager.php:362-371 | None exactly when there is no cache; otherwise whether the item exists |
| ImageManagerService.ImageManager.SetImageExists | src/Bravo3/ImageManager/Services/ImageManager.php:294-303 | tags the key with the sentinel or untags it |
| ImageManagerService.ImageManager.ValidateTag | src/Bravo3/ImageManager/Services/ImageManager.php:628-634 | returns whether the remote has the key, and makes the tag say the same |
| ImageManagerService.ImageManager.Exists | src/Bravo3/ImageManager/Services/ImageManager.php:542-552 | the tag when a cache exists, otherwise the remote's answer |
| ImageManagerService.ImageManager.PullSource | src/Bravo3/ImageManager/Services/ImageManager.php:228-246 | the new store and image are those of `ManagerSpec.PullSource` |
| ImageManagerService.ImageManager.HydrateVariation | src/Bravo3/ImageManager/Services/ImageManager.php:424-462 | the new variation and status are those of `ManagerSpec.HydrateVariation`; the foreach-with-break over the encoders is proved to pick `FirstSupporting` |
| ImageManagerService.ImageManager.PullVariation | src/Bravo3/ImageManager/Services/ImageManager.php:255-282 | the new store and image are those of `ManagerSpec.PullVariation`; the parent is a fresh image, hydrated, used and flushed |
| ImageManagerService.ImageManager.Pull | src/Bravo3/ImageManager/Services/ImageManager.php:177-186 | the result is `ManagerSpec.Pull`: variations go through `pullVariation`, sources through `pullSource` |
| ImageManagerService.ImageManager.Push | src/Bravo3/ImageManager/Services/ImageManager.php:120-162 | the new store, image and status are those of `ManagerSpec.Push`, which inspects a source before writing it; the encoder list is unchanged |
| ImageManagerService.ImageManager.Remove | src/Bravo3/ImageManager/Services/ImageManager.php:380-386 | delete, then untag, as `ManagerSpec.Remove` |
| ImageManagerService.ImageManager.Rename | src/Bravo3/ImageManager/Services/ImageManager.php:607-619 | move the bytes, then move a present tag, as `ManagerSpec.Rename` |
| ImageManagerService.ImageManager.CreateVariation | src/Bravo3/ImageManager/Services/ImageManager.php:478-488 | a fresh variation of the source under the derived key, rendered as `ManagerSpec.CreateVariation` |
| ImageManagerService.ImageManager.Load | src/Bravo3/ImageManager/Services/ImageManager.php:524-530 | a fresh, non-persistent source image holding the data; null exactly for an invalid key |
| ManagerProperties.PushUnhydratedSource | src/Bravo3/ImageManager/Services/ImageManager.php:127-129 | an unhydrated source gives `NotHydrated`, and the store and the image are unchanged |
| ManagerProperties.PushUnhydratedVariation | src/Bravo3/ImageManager/Services/ImageManager.php:122-159 | an unhydrated variation is pulled first, for either value of overwrite: a failed pull is the push's outcome; a pull leaving no usable bytes gives `NotHydrated`; otherwise, when overwriting or when the key is neither tagged nor taken, the pulled bytes are written and the variation becomes persistent |
| ManagerProperties.PushTaggedRefused | src/Bravo3/ImageManager/Services/ImageManager.php:131-133 | without overwrite, a present tag gives `AlreadyExists` before any write; nothing changes |
| ManagerProperties.PushCollision | src/Bravo3/ImageManager/Services/ImageManager.php:152-159 | without overwrite, a remote collision still tags the key, leaves the remote and the image (its persistence included) unchanged, and gives `AlreadyExists` |
| ManagerProperties.PushWrites | src/Bravo3/ImageManager/Services/ImageManager.php:146-155 | a hydrated variation, or a hydrated source of a known format, is written when overwriting or when its key is new: it is in the remote as its bytes and is persistent; a cache tags it with metadata for a source and the sentinel for a variation |
| ManagerProperties.PushUnknownFormat | src/Bravo3/ImageManager/Services/ImageManager.php:145-150 | a hydrated source whose bytes are of no known format is refused by the inspector after the tag check, with the store and the image unchanged |
| ManagerProperties.PushAsWrittenRefusesSources | src/Bravo3/ImageManager/Services/ImageManager.php:145-150 | with the inspector as written, every hydrated source past the tag check is refused with nothing written, where the intended push of a known format ends Ok or `AlreadyExists` |
| ManagerProperties.PushThenExists | src/Bravo3/ImageManager/Services/ImageManager.php:152-159 | after a push ending Ok or `AlreadyExists`, `exists` is true for the key |
| ManagerProperties.PullSourceTrustsNegativeTag | src/Bravo3/ImageManager/Services/ImageManager.php:231-235 | a negative tag, unchecked or confirmed by the remote, gives `NotExists` and changes nothing |
| ManagerProperties.PullSourceMissUntags | src/Bravo3/ImageManager/Services/ImageManager.php:241-245 | a remote miss untags the key and gives `NotExists` |
| ManagerProperties.PullSourceOk | src/Bravo3/ImageManager/Services/ImageManager.php:231-240 | the pull succeeds exactly when the remote has the key and the tag does not rule it out (or validation overrides it); the image then holds the remote bytes and is persistent |
| ManagerProperties.PullSourceKeepsRemote | src/Bravo3/ImageManager/Services/ImageManager.php:228-246 | a pull never changes the remote and ends Ok or `NotExists` |
| ManagerProperties.PushThenPull | src/Bravo3/ImageManager/Services/ImageManager.php:152-155 | after a successful push, pulling the key into any source image gives back the same bytes, hydrated and persistent |
| ManagerProperties.PullVariationExisting | src/Bravo3/ImageManager/Services/ImageManager.php:257-259 | a rendition already on the remote is pulled as it is: hydrated and persistent |
| ManagerProperties.PullVariationMissingParent | src/Bravo3/ImageManager/Services/ImageManager.php:265-279 | a parent the remote does not hold gives `NotExists(parent)` whatever its tag says, and the variation is untouched |
| ManagerProperties.PullVariationTrustsParentTag | src/Bravo3/ImageManager/Services/ImageManager.php:265-269 | without validation, a negative parent tag gives `NotExists(parent)` even when the remote holds the parent; the variation is untouched and the store is what the failed `pullSource` left |
| ManagerProperties.PullVariationRevalidatesParent | src/Bravo3/ImageManager/Services/ImageManager.php:265-276 | with validation, a negative parent tag for a parent the remote holds is replaced by a positive one, and the variation is rendered from the remote's bytes as `hydrateVariation` renders it |
| ManagerProperties.PullVariationInvalidParent | src/Bravo3/ImageManager/Services/ImageManager.php:263 | a parent key that is not valid fails as the parent image is built |
| ManagerProperties.PullVariationRendered | src/Bravo3/ImageManager/Services/ImageManager.php:271-276 | a variation rendered from its parent ends hydrated, not persistent, not reported by `exists`, and with the remote unchanged |
| ManagerProperties.QualityBounds | src/Bravo3/ImageManager/Services/ImageManager.php:430-436 | the quality passed on is always in 1..100: null or 0 gives 90, lower values give 1, higher values give 100, in-range values pass unchanged |
| ManagerProperties.HydrateRefusesUnhydratedParent | src/Bravo3/ImageManager/Services/ImageManager.php:426-428 | an unhydrated parent is refused and the variation is untouched |
| ManagerProperties.HydrateUsesFirstSupporting | src/Bravo3/ImageManager/Services/ImageManager.php:438-459 | the data is cleared first; only the first supporting encoder in list order renders; no match gives `NoSupportedEncoder` with no data; when an encoder supports the data, the first one's output is stored, and the status is Ok exactly when that output is not empty, `NoSupportedEncoder` otherwise |
| ManagerProperties.CreateVariationHydrated | src/Bravo3/ImageManager/Services/ImageManager.php:478-488 | the new variation has the derived key and the source as parent; on success it is hydrated and not persistent; an unhydrated source is refused |
| ManagerProperties.RecipesStoredApart | src/Bravo3/ImageManager/Services/ImageManager.php:478-488 | with an injective key rule, two variations of one source made from different recipes have different keys, and pushing both leaves each one's bytes in the remote |
| ManagerProperties.DefaultEncoderOnlyWhenEmpty | src/Bravo3/ImageManager/Services/ImageManager.php:101-103 | an empty list becomes a single default encoder; any other list is kept |
| ManagerProperties.AddEncoderOrder | src/Bravo3/ImageManager/Services/ImageManager.php:586-595 | prepending puts the encoder first, and it is chosen whenever it supports the data; appending never changes a choice already made |
| ManagerProperties.NoCacheFallsBackToRemote | src/Bravo3/ImageManager/Services/ImageManager.php:317-319 | without a cache, tag and untag do nothing, tags are unknown, pulls succeed exactly when the remote has the key, and `exists` asks the remote |
| ManagerProperties.ValidateTagAgrees | src/Bravo3/ImageManager/Services/ImageManager.php:628-634 | after `validateTag`, the tag and `exists` agree with the remote |
| ManagerProperties.TagsAreIndependent | src/Bravo3/ImageManager/Services/ImageManager.php:321 | tagging or untagging a key leaves every other key's tag as it was |
| ManagerProperties.RemoveDeletesAndUntags | src/Bravo3/ImageManager/Services/ImageManager.php:380-386 | remove succeeds exactly on stored keys; the key is then gone from the remote and `exists` is false; every other key keeps its bytes and its tag |
| ManagerProperties.RenameMovesTag | src/Bravo3/ImageManager/Services/ImageManager.php:607-619 | the bytes move to the target; a present tag moves too, with its value, and the source is untagged; otherwise the cache is unchanged; every key other than the source and the target keeps its presence, its bytes and its tag |
| ManagerProperties.SoundExistsIsRemote | src/Bravo3/ImageManager/Services/ImageManager.php:542-552 | when every tag is for a stored key, a positive `exists` means the remote has the key |
| ManagerProperties.SoundTagged | src/Bravo3/ImageManager/Services/ImageManager.php:315-332 | tagging a stored key keeps every tag for a stored key |
| ManagerProperties.SoundUntagged | src/Bravo3/ImageManager/Services/ImageManager.php:341-351 | untagging keeps every tag for a stored key |
| ManagerProperties.SoundTagGate | src/Bravo3/ImageManager/Services/ImageManager.php:231-235 | the tag check, validation included, keeps every tag for a stored key and leaves the remote unchanged |
| ManagerProperties.SoundPull | src/Bravo3/ImageManager/Services/ImageManager.php:177-186 | pulls keep every tag for a stored key and leave the remote unchanged |
| ManagerProperties.SoundPush | src/Bravo3/ImageManager/Services/ImageManager.php:120-162 | pushes keep every tag for a stored key |
| ManagerProperties.SoundRemove | src/Bravo3/ImageManager/Services/ImageManager.php:380-386 | removal keeps every tag for a stored key |
| ManagerProperties.SoundRename | src/Bravo3/ImageManager/Services/ImageManager.php:607-619 | rename keeps every tag for a stored key |
| ManagerProperties.SoundSetImageExists | src/Bravo3/ImageManager/Services/ImageManager.php:294-303 | marking absent always, and marking present when the remote has the key, keeps every tag for a stored key |
| ManagerSpec.CacheKeyInjective | src/Bravo3/ImageManager/Services/ImageManager.php:321 | different image keys have different cache items `remote.<key>` |
| ImageEntity.Image.constructor | src/Bravo3/ImageManager/Entities/Image.php:41-47 | a valid key gives an image with that key, no data, not persistent |
| ImageEntity.Image.Variation | src/Bravo3/ImageManager/Services/ImageManager.php:485 | a variation with the derived key, its parent's key and the recipe; no data, not persistent |
| ImageEntity.Image.Create | src/Bravo3/ImageManager/Entities/Image.php:43-45 | null exactly for an empty key, `""` or `"0"`; otherwise a fresh image, as the constructor gives |
| ImageEntity.Image.SetKey | src/Bravo3/ImageManager/Entities/Image.php:86-92 | the key `GetKey` returns is replaced without validation, persistence resets, the data `GetData` returns is kept |
| ImageEntity.Image.SetData | src/Bravo3/ImageManager/Entities/Image.php:131-141 | the data is replaced, persistence resets, the key is kept |
| ImageEntity.Image.Flush | src/Bravo3/ImageManager/Entities/Image.php:54-61 | the data is cleared, so the image is not hydrated; key and persistence are kept |
| ImageEntity.Image.MarkPersistent | src/Bravo3/ImageManager/Services/ImageManager.php:154 | only persistence changes, to true, so `IsPersistent` then holds |
| ImageEntity.HydratedIff | src/Bravo3/ImageManager/Entities/Image.php:119-122 | hydrated exactly when the data is set and is neither `""` nor `"0"` |
| ImageEntity.Image.IsHydratedIff | src/Bravo3/ImageManager/Entities/Image.php:119-122 | `IsHydrated` holds exactly when `GetData` is set and is neither `""` nor `"0"` |
| ImageEntity.ZeroStringIsNotHydrated | src/Bravo3/ImageManager/Entities/Image.php:121 | the one-byte string `"0"` is not hydrated, while `"1"` is |
| DataInspector.ShortHasNoFormat | src/Bravo3/ImageManager/Services/DataInspector.php:21-23 | a buffer shorter than five bytes has no format |
| DataInspector.JpegIff | src/Bravo3/ImageManager/Services/DataInspector.php:26-28 | `GetImageFormat` reports JPEG exactly when the buffer has at least five bytes and starts FF D8 |
| DataInspector.PngIff | src/Bravo3/ImageManager/Services/DataInspector.php:31-33 | `GetImageFormat` reports PNG exactly when it has at least five bytes, starts 0x89 then "PNG", and is not JPEG |
| DataInspector.GifIff | src/Bravo3/ImageManager/Services/DataInspector.php:37-39 | `GetImageFormat` reports GIF exactly when it starts "GIF87a" or "GIF89a" |
| DataInspector.NoFormatIff | src/Bravo3/ImageManager/Services/DataInspector.php:19-42 | `GetImageFormat` reports no format exactly when none of the three checks matches |
| DataInspector.NeverPdf | src/Bravo3/ImageManager/Services/DataInspector.php:19-42 | the sniffer never reports PDF |
| DataInspector.PdfIsNotAnImage | src/Bravo3/ImageManager/Services/DataInspector.php:51-54 | a buffer `IsPdf` accepts (one starting "%PDF-") has no image format |
| ImageDimensionsEntity.ConstructorDefaults | src/Bravo3/ImageManager/Entities/ImageDimensions.php:42-50 | width and height unset, ratio kept, upscale allowed, no grab; the getters return the arguments |
| ImageDimensionsEntity.SignatureParts | src/Bravo3/ImageManager/Entities/ImageDimensions.php:57-64 | `Signature` is `x`W`y`H followed by `u`, `1`/`0`, `r`, `1`/`0`, `g`, `g`/`0` |
| ImageDimensionsEntity.HeadInjective | src/Bravo3/ImageManager/Entities/ImageDimensions.php:59-60 | the `x`W`y`H head determines width and height |
| ImageDimensionsEntity.SignatureInjective | src/Bravo3/ImageManager/Entities/ImageDimensions.php:57-64 | equal signatures exactly when the flags agree and width and height agree, with 0 and unset treated as the same |
| ImageDimensionsEntity.AspectRatioThousandths | src/Bravo3/ImageManager/Entities/ImageDimensions.php:94-97 | a ratio exists exactly when width and height are set and the height is not 0 |
| ImageDimensionsEntity.TruncatedQuotientIsTruncation | src/Bravo3/ImageManager/Entities/ImageDimensions.php:96 | the quotient rounds toward zero: largest magnitude that fits, sign of the exact ratio |
| ImageDimensionsEntity.AspectRatioBounds | src/Bravo3/ImageManager/Entities/ImageDimensions.php:94-97 | for a positive height, r ≤ 1000·w/h < r + 1: the ratio truncated to three decimals |
| ImageCropDimensionsEntity.ImageCropDimensions.constructor | src/Bravo3/ImageManager/Entities/ImageCropDimensions.php:36-42 | width and height as given; x and y default to 0 |
| ImageCropDimensionsEntity.ImageCropDimensions.SetX | src/Bravo3/ImageManager/Entities/ImageCropDimensions.php:64-69 | x becomes the value; the other three fields are unchanged |
| ImageCropDimensionsEntity.ImageCropDimensions.SetY | src/Bravo3/ImageManager/Entities/ImageCropDimensions.php:78-83 | y becomes the value; the other three are unchanged |
| ImageCropDimensionsEntity.ImageCropDimensions.SetWidth | src/Bravo3/ImageManager/Entities/ImageCropDimensions.php:93-98 | the width becomes the value; the other three are unchanged |
| ImageCropDimensionsEntity.ImageCropDimensions.SetHeight | src/Bravo3/ImageManager/Entities/ImageCropDimensions.php:108-113 | the height becomes the value; the other three are unchanged |
| ImageCropDimensionsEntity.DefaultOffsetsPrintAsDash | src/Bravo3/ImageManager/Entities/ImageCropDimensions.php:49-55 | default offsets print as `x-y-` |
| ImageCropDimensionsEntity.CropSignatureInjective | src/Bravo3/ImageManager/Entities/ImageCropDimensions.php:49-55 | two windows have equal `CropSignature`s exactly when all four fields are equal |
| ImageCropDimensionsEntity.ToStringDeterminesWindow | src/Bravo3/ImageManager/Entities/ImageCropDimensions.php:49-55 | two crop objects' `ToString` agree exactly when they hold the same window |
| ImageCropDimensionsEntity.SetXChangesSignature | src/Bravo3/ImageManager/Entities/ImageCropDimensions.php:64-69 | setting x changes the signature exactly when it changes x |
| Decimal.NatToStringShape | src/Bravo3/ImageManager/Entities/ImageDimensions.php:59 | a natural number prints as one or more digits; single-digit numbers as one |
| Decimal.NatToStringInjective | src/Bravo3/ImageManager/Entities/ImageDimensions.php:59 | different natural numbers print differently |
| Decimal.IntToStringInjective | src/Bravo3/ImageManager/Entities/ImageDimensions.php:59 | different integers print differently |
| Decimal.FieldTextInjective | src/Bravo3/ImageManager/Entities/ImageCropDimensions.php:51-54 | `($v ?: '-')` keeps integers apart: the dash stands only for 0 |
| Decimal.SplitAtMarker | src/Bravo3/ImageManager/Entities/ImageCropDimensions.php:51-54 | a separator letter that fields never contain splits a signature in one place only |
| ImageInspector.OrientationOf | src/Bravo3/ImageManager/Services/ImageInspector.php:40-44 | landscape exactly when width ≥ height (a square is landscape), portrait otherwise |
| ImageInspector.GetImageOrientation | src/Bravo3/ImageManager/Services/ImageInspector.php:29-45 | refuses an unhydrated image; otherwise landscape exactly when the measured width ≥ height |
| ImageInspector.GetImageDimensions | src/Bravo3/ImageManager/Services/ImageInspector.php:54-69 | refuses an unhydrated image; otherwise the measured width and height, with the other flags at their defaults |
| ImageInspector.GetImageResolution | src/Bravo3/ImageManager/Services/ImageInspector.php:80-96 | refuses an unhydrated image; otherwise the measured density as width and height |
| ImageInspector.GetImageMetadata | src/Bravo3/ImageManager/Services/ImageInspector.php:103-132 | refuses an unhydrated image first, then a variation, then bytes of no known format (the format setter takes no null); otherwise the record of the image's bytes, which has a format |
| ImageInspector.FormatOfExtendsSniffing | src/Bravo3/ImageManager/Services/ImageInspector.php:117-121 | the recorded format is PDF exactly for PDF buffers, and otherwise the sniffed format |
| ImageInspector.MetadataAgreesWithHelpers | src/Bravo3/ImageManager/Services/ImageInspector.php:123-129 | the record's orientation, dimensions and resolution are what the three helpers report |
| ImageInspector.GetImageMetadataAsWritten | src/Bravo3/ImageManager/Services/ImageInspector.php:123-126 | as the code is written, every image is rejected; every hydrated source fails at the setter calls |
| ImageInspector.AsWrittenRejectsJpegSource | src/Bravo3/ImageManager/Services/ImageInspector.php:123-126 | a five-byte JPEG source is rejected as written, but inspected, as JPEG, by the intended code |
| ImagickEncoder.SupportsIff | src/Bravo3/ImageManager/Encoders/ImagickEncoder.php:41-56 | `ImagickEncoder.Supports` accepts exactly JPEG, PNG and GIF buffers and PDF buffers |
| ImagickEncoder.CreateVariation | src/Bravo3/ImageManager/Encoders/ImagickEncoder.php:61-96 | the blob is the library's answer to `Calls`, the requests made one by one on a local Imagick object |
| ImagickEncoder.CropOnlyWhenGivenAndFirst | src/Bravo3/ImageManager/Encoders/ImagickEncoder.php:76-83 | a crop is requested exactly when crop dimensions are given, with width, height, x and y, and never after a resize |
| ImagickEncoder.ResizeOnlyWhenGiven | src/Bravo3/ImageManager/Encoders/ImagickEncoder.php:85-93 | a resize is requested exactly when dimensions are given; unset sizes are 0; the encoder's filter is used, with blur 1 and no best fit |
| ImagickEncoder.FormatAndQualityFirst | src/Bravo3/ImageManager/Encoders/ImagickEncoder.php:66-95 | the data is read first, then the format goes by its value and the quality as given; the blob is taken last |
| InterventionEncoder.RefusesPdfAndUnknown | src/Bravo3/ImageManager/Encoders/InterventionEncoder.php:18-22 | `InterventionEncoder.Supports` refuses PDF buffers and unrecognised buffers |
| InterventionEncoder.CreateVariation | src/Bravo3/ImageManager/Encoders/InterventionEncoder.php:32-56 | the output is the library's answer to `Calls`, the requests made one by one on a local image |
| InterventionEncoder.GrabOrResize | src/Bravo3/ImageManager/Encoders/InterventionEncoder.php:42-55 | no geometry without dimensions; with them, one grab of width and height when grab is set, otherwise one resize with the ratio and upscale flags; the format goes by its key |
| Encoders.SupportsNested | src/Bravo3/ImageManager/Encoders/InterventionEncoder.php:21 | whatever the Intervention encoder accepts, the Imagick encoder accepts; PDF only the latter |
| Encoders.InterventionIgnoresCrop | src/Bravo3/ImageManager/Encoders/InterventionEncoder.php:32 | the Intervention output does not depend on the crop |
| Encoders.CreateVariation | src/Bravo3/ImageManager/Services/ImageManager.php:443-451 | the manager's call is dispatched to the chosen encoder's own `createVariation`, and the crop reaches only the Imagick encoder |
| Encoders.FirstFrom | src/Bravo3/ImageManager/Services/ImageManager.php:441-455 | the least index at or after i whose encoder supports the data, or none exactly when no such encoder exists |
| Encoders.FirstFromAppend | src/Bravo3/ImageManager/Services/ImageManager.php:591 | appending encoders never changes a choice already made |
| Encoders.PrependedWins | src/Bravo3/ImageManager/Services/ImageManager.php:589 | a prepended encoder that supports the data is chosen |
| ImageFormatEnum.MembersComplete | src/Bravo3/ImageManager/Enum/ImageFormat.php:15-18 | exactly four distinct members, PNG, JPEG, GIF and PDF |
| ImageFormatEnum.ValuesDistinct | src/Bravo3/ImageManager/Enum/ImageFormat.php:15-18 | the values `png`, `jpg`, `gif`, `pdf` are pairwise distinct |
| ImageFormatEnum.ValueRoundTrip | src/Bravo3/ImageManager/Enum/ImageFormat.php:15-18 | parsing a member's value gives the member back |
| ImageFormatEnum.ParseRoundTrip | src/Bravo3/ImageManager/Enum/ImageFormat.php:15-18 | parsing succeeds exactly on the four values and returns the member with that value |
| Enumeration.FindByValue | src/Bravo3/ImageManager/Enum/ImageFormat.php:15-18 | a found member has the value looked for; none is found only when no member has it |
| ImageOrientationEnum.MembersComplete | src/Bravo3/ImageManager/Enum/ImageOrientation.php:13-14 | exactly two distinct members, PORTRAIT and LANDSCAPE |
| ImageOrientationEnum.ValuesDistinct | src/Bravo3/ImageManager/Enum/ImageOrientation.php:13-14 | `portrait` and `landscape` are distinct |
| ImageOrientationEnum.ValueRoundTrip | src/Bravo3/ImageManager/Enum/ImageOrientation.php:13-14 | parsing a member's value gives the member back |
| ImageOrientationEnum.ParseRoundTrip | src/Bravo3/ImageManager/Enum/ImageOrientation.php:13-14 | parsing succeeds exactly on the two values and returns the member with that value |

## Findings

| source | as written | input that shows it | evidently intended | confidence | as-written member | corrected member |
|---|---|---|---|---|---|---|
| src/Bravo3/ImageManager/Services/ImageInspector.php:123-126 | `getImageMetadata` calls `setMimetype` and `setFormat`, which are protected on the metadata record, and `setResolution`, which the record does not have (its setter is `setDpi`); every hydrated source image therefore, past the guards, raises a PHP Error, and so does every push of a source image that gets past the tag check (`ManagerProperties.PushAsWrittenRefusesSources`) | a source image holding the five bytes FF D8 FF E0 00 | the metadata record of the image: MIME type, format, density, orientation and pixel size | medium, not executed | ImageInspector.GetImageMetadataAsWritten | ImageInspector.GetImageMetadata |

## Left out

- Pixel work: the Imagick and Intervention decoders, resizers and encoders are parameters. Their BadImage errors are not modelled. Neither is the temporary file the Imagick encoder reads its input from.
- `MetadataSupporter::setMetadata` (the ContentType on the remote), the MIME type an image records in `setData`, and `finfo`: foreign capabilities. The MIME guess appears only as a `Probe` parameter inside metadata.
- `save` and `loadFromFile`, which are local file I/O, and the `gc_collect_cycles` call in `flush`.
- Metadata JSON `serialise`/`deserialise`: a tag holds the metadata record itself. `rename` copies that value to the target. The PHP code rebuilds it through `getMetadata`, which is not part of this model.
- ManagerSpec.Rename: for a tagged source the PHP rebuild raises after the remote move has happened. A sentinel tag makes `memberByValue(null)` throw, and a JSON tag is read with array access on the object `json_decode` returns. The source's tag is then left on a key the remote no longer holds. The model copies the tag value instead, so `ManagerProperties.SoundRename` holds for that copy and not for the PHP code as written.
- ManagerSpec.Push: a source is inspected with the intended reading of `getImageMetadata`, in which the metadata record's setters are reachable; `ManagerSpec.PushAsWritten` is the reading as written. Even in the intended reading, bytes of no known format are refused, because `setFormat` takes no null; the model records that as `InspectFailed(UnknownFormat)`.
- `getMetadata` and its in-process memo, whose second `instanceof` branch is dead: rename's tag move copies the value directly.
- `FriendTrait`: the manager's write of `persistent` is the method `Image.MarkPersistent`.
- The key format of variations: `getKey(true)` is the derivation's parent key, and a variation's own key comes from a `KeyDeriver` parameter. The variation constructor is not shown. `Image.Variation` therefore does not check the key, and `createVariation` cannot fail on one.
- `ImageVariation`'s `setParent`/`getParent` and `AbstractEncoder`/`EncoderInterface`: they hold no logic. An encoder's `data` field is set only for the duration of one render, so the data is passed as an argument.
- ImageInspector.GetImageResolution: Imagick reports density as floats; the model uses integers.
- ImageCropDimensionsEntity.ImageCropDimensions: a recipe holds a copy of the crop window, so a change to the crop object after a variation is made is not seen, unlike in PHP.
- ImageCropDimensionsEntity.CropSignature: fields are integers, so the null a PHP setter would accept is not modelled.
- ImageDimensionsEntity.AspectRatioThousandths: an unset width gives no ratio. PHP's bcmath reads null as 0 or refuses it, depending on the PHP version. The result is a whole number of thousandths rather than bcdiv's decimal string.
- The remote filesystem: failures other than a write collision, a missing key on delete or rename, and an existing target on rename are not modelled. Races between concurrent writers are not modelled either; the remote is whatever map is current when an operation starts.
- ImageEntity.Image.Create: PHP's falsy-key check on non-string keys (null, false, 0) collapses into the check for `""` and `"0"`, since keys are strings here.
