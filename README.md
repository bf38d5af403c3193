# Super-Swank Featured Image — crop anchoring and fallbacks in Dafny

This project models the logic inside the WordPress plugin class
`Super_Swank_Featured_Image` (`super-swank-featured-image.php`):

- **Crop anchoring** (`CropAnchor`): the `image_resize_dimensions` filter
  `customize_crop_position`. For one of the plugin's sizes with a stored
  anchor, it returns WordPress's eight-value resize payload. The source offset
  on each axis is 0 for `left`/`top`, the whole excess for `right`/`bottom`,
  and the half excess rounded away from zero for any other keyword. Also
  modelled: `get_crop_position`, which falls back to centre/centre.
- **Fallbacks** (`Fallback`): `set_default_thumbnail` (a default attachment id
  for posts without a featured image) and `maybe_set_social_image` (a
  fallback URL for SEO plugins).
- **Regeneration** (`Regeneration`): the two loops of
  `regenerate_attachment_sizes` that edit `$metadata['sizes']`. The first
  removes each of the four registered keys (`SocialSizeNames`); any other
  key, even one starting with `ssfi-`, stays. The second re-adds one entry per
  successful save.
  Also modelled: the counting loop of `handle_regenerate_crops`. A
  `MediaLibrary` class holds the attachment metadata that these methods update
  in place. The reference definitions of these steps are the functions
  `Regeneration.Rewritten` and `Regeneration.Readded` (lines 625-653),
  `Regeneration.AfterRegeneration` (lines 596-662) and
  `Regeneration.AfterRegeneratingAll` (lines 712-716); the rows below for
  `RewriteSizes`, `RewrittenSpec`, `RegenerationIsLocal` and the class methods
  state what they mean.
- **Sizes** (`ImageSizes`): the four registered sizes and their constants.

Host calls become parameters:
- the size name found by walking the call stack;
- the stored options `ssfi_crop_positions` and `ssfi_default_image`;
- the URL `get_social_image_url` returns;
- the outcomes of `file_exists`, `getimagesize`, `wp_get_image_editor` and
  `$editor->save()`, gathered per call in a `Probe`.

Points of the code worth knowing:
- Each `switch` (lines 359-368 and 374-383) sends every keyword other than
  `left`/`right` (`top`/`bottom`) to its `default: // center` branch, so any
  other stored string centres the window.
- The filter returns its payload unchanged when cropping is off, when no
  plugin size is detected, or when no anchor is stored for it (lines 322-347).
- The source-size slots hold the original's size, not the target's. See
  Findings.

## Model

| member | source | states |
|---|---|---|
| `ImageSizes.SocialSizesWellFormed` | super-swank-featured-image.php:618-623 | the four registered sizes have distinct `ssfi-*` names, exactly the plugin-owned key set, and positive dimensions (constants of lines 32-38) |
| `CropAnchor.AxisOffset` | super-swank-featured-image.php:356-384 | the offset on one axis is 0 when the original is not larger, otherwise it lies in `[0, excess]` |
| `CropAnchor.CustomizeCropPosition` | super-swank-featured-image.php:321-388 | payload unchanged unless cropping a detected, non-falsy size with a stored anchor; otherwise destination offset (0,0), destination size (dest_w, dest_h), source size (orig_w, orig_h), and offsets that keep a target-sized window inside the original on every axis where the original is larger |
| `CropAnchor.GetCropPosition` | super-swank-featured-image.php:396-399 | the stored anchor when the platform has one, centre/centre otherwise |
| `CropAnchor.NoExcessNoOffset` | super-swank-featured-image.php:353-372 | an axis on which the original is not larger than the target has offset 0, whatever the anchor |
| `CropAnchor.NearAnchorsGiveZero` | super-swank-featured-image.php:357-377 | `left` gives x offset 0 and `top` gives y offset 0 |
| `CropAnchor.FarAnchorsGiveExcess` | super-swank-featured-image.php:363-380 | `right`/`bottom` on a larger original give an offset equal to the excess |
| `CropAnchor.OtherAnchorsCentre` | super-swank-featured-image.php:366-382 | any other keyword gives twice the offset equal to the excess rounded up to even, so the two margins differ by 0 or 1 pixel |
| `CropAnchor.AnchorsMoveOnlySourceOffsets` | super-swank-featured-image.php:349-387 | two stored anchors give results that agree on every slot except the source offsets |
| `CropAnchor.DefaultAnchorCentres` | super-swank-featured-image.php:396-399 | the fallback anchor of `get_crop_position`, if stored, yields centred offsets `(excess + 1) / 2` on both axes |
| `CropAnchor.SourceWindowOverhangs` | super-swank-featured-image.php:387 | as written, the source window overhangs the original by exactly the offset whenever the offset is positive |
| `CropAnchor.InstagramCentreOverhangs` | super-swank-featured-image.php:387 | a 1200x1600 original cut to the 1080 square with centre anchors yields source window (60, 260, 1200, 1600), past both edges |
| `CropAnchor.SourceExtent` | super-swank-featured-image.php:387 | the corrected source extent on one axis is no larger than the original nor the target |
| `CropAnchor.CorrectedCropPosition` | super-swank-featured-image.php:387 | the intended filter: same pass-through cases and offsets, and a source window that always lies inside the original and has the target's size on every axis where the original is larger |
| `CropAnchor.CorrectionKeepsOffsets` | super-swank-featured-image.php:353-387 | the correction changes only the two source-size slots |
| `CropAnchor.SocialSizesFitPortrait` | super-swank-featured-image.php:618-623 | each registered size, cut centred from a 1200x1600 original by the corrected filter, lies inside the original |
| `CropAnchor.FacebookCentreExample` | super-swank-featured-image.php:381-382 | 1200x800 cut to 1200x630 with centre anchors starts at (0, 85) |
| `Fallback.SetDefaultThumbnail` | super-swank-featured-image.php:458-466 | returns the default id exactly when the thumbnail is empty (null or 0) and the default is positive, and the input unchanged in every other case |
| `Fallback.SetDefaultThumbnailIdempotent` | super-swank-featured-image.php:458-466 | applying the fallback twice equals applying it once |
| `Fallback.MaybeSetSocialImage` | super-swank-featured-image.php:548-556 | a non-empty URL is never replaced; an empty one ("" or "0") is replaced exactly by a non-empty fallback URL |
| `Fallback.MaybeSetSocialImageIdempotent` | super-swank-featured-image.php:548-556 | filtering twice equals filtering once |
| `Regeneration.ReaddedKeys` | super-swank-featured-image.php:641-653 | after the first n sizes are re-added, other keys are as kept; a size among the first n is present exactly when its save succeeded, with the saved entry; later sizes are absent |
| `Regeneration.RewrittenSpec` | super-swank-featured-image.php:625-653 | keys outside the four registered ones untouched (including other `ssfi-` keys); each of the four registered keys (`SocialSizeNames`) present exactly when the editor was obtained and its save succeeded, holding the save's entry |
| `Regeneration.AllFailedRemovesEverySocialKey` | super-swank-featured-image.php:625-653 | when every save fails, the keys left are exactly the old keys minus the plugin's |
| `Regeneration.RewrittenIdempotent` | super-swank-featured-image.php:618-653 | rewriting again with the same save outcomes changes nothing |
| `Regeneration.RewriteSizes` | super-swank-featured-image.php:625-653 | the removal loop and the re-add loop compute exactly the rewritten dictionary |
| `Regeneration.RegenerationIsLocal` | super-swank-featured-image.php:596-662 | one regeneration keeps every other attachment, the attachment's `file`, and its non-plugin sizes |
| `Regeneration.RegeneratingAllIsLocal` | super-swank-featured-image.php:712-716 | regenerating a list never touches an attachment outside it |
| `Regeneration.MediaLibrary.RegenerateAttachmentSizes` | super-swank-featured-image.php:596-663 | the store is unchanged when the attachment has no metadata or `file`, or its file is missing or unreadable; otherwise its sizes are rewritten and written back |
| `Regeneration.MediaLibrary.HandleRegenerateCrops` | super-swank-featured-image.php:690-726 | reports "no images" for an empty list, otherwise a count equal to the number of ids; the store is each attachment regenerated in order |

## Findings

| source | as written | input that shows it | evidently intended | confidence | as-written member | corrected member |
|---|---|---|---|---|---|---|
| super-swank-featured-image.php:387 | slots 6 and 7 (source width and height) are `orig_w`, `orig_h`, so the source window starts at the anchor offset and is as large as the whole original | original 1200x1600, Instagram 1080x1080, centre anchors: offset (60, 260), window 1200x1600, past the edges by 60 and 260 pixels | a target-sized window at the anchor offset on every axis where the original is larger, which always lies inside the original | medium, not executed | `CropAnchor.SourceWindowOverhangs` | `CropAnchor.CorrectedCropPosition` |

## Left out

- Size detection from `debug_backtrace` and the file name (lines 327-337): this is runtime introspection. The detected size is the parameter `currentSize`.
- Options, database query, file system and image editor (`get_option`, `$wpdb`, `file_exists`, `unlink`, `getimagesize`, `wp_get_image_editor`, `resize`, `save`, `wp_update_attachment_metadata`): these are host calls. Their results are parameters. Deleting the old files is not modelled.
- `get_social_image_url` (lines 474-507): its result is the `socialImage` parameter of `MaybeSetSocialImage`.
- `regenerate_images_on_crop_change` (lines 565-588): it is the loop of `HandleRegenerateCrops` without the counter.
- Hook, filter, setting and REST registration, asset enqueueing, HTML and meta-tag output, and the singleton `get_instance`: these are host glue and rendering.
- The JavaScript editor and admin UI: it holds no logic beyond UI state.
- CropAnchor.CustomizeCropPosition: offsets are integers. PHP's `round` yields a float with the same value.
- CropAnchor.CustomizeCropPosition: `$crop` is a boolean. WordPress may also pass an array of positions, which is truthy and takes the same path.
- CropAnchor.CustomizeCropPosition: the payload is `array|false` (`None` is `false`). The `null` that WordPress passes into this filter is not modelled.
- CropAnchor.Position: an entry whose `x` or `y` key is missing reads as `null`, which the `switch` treats as centre. The model stores both keys as strings.
- Regeneration.RewriteSizes: a PHP array is ordered, so re-added keys move to the end. A Dafny `map` has no order. A missing `sizes` key is modelled as an empty dictionary.
- Regeneration.SaveResult: the entry's `file` is the base name of the saved path, computed by the host.
- Regeneration.MediaLibrary.RegenerateAttachmentSizes: the editor is fetched again after each size (line 656) without an error check. If that fetch fails after any size but the last, the next `resize` call (line 643) is made on an error object and ends the request with a fatal error. The metadata is then never written back (line 662), although the old files were already deleted (line 630). After the last size no further call is made, so a failed fetch there is harmless. This abort path is not modelled: the model assumes every re-fetch that is used succeeds.
- Regeneration.MediaLibrary.HandleRegenerateCrops: attachment ids are modelled as integers. The database query (lines 695-703) returns them as strings. Under `strict_types` (line 19) passing a string to the `int` parameter of `regenerate_attachment_sizes` (lines 596, 714) would raise a TypeError on the first id. The model does not capture that failure; it describes the loop as evidently intended, with each id converted.
