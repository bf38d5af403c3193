/**
 * The two fallbacks of the plugin: a default attachment id for posts that
 * have no featured image (`get_post_thumbnail_id` filter), and a social
 * image URL for SEO plugins that found none.
 */
module Fallback {
  import opened Wrappers

  /** PHP `empty()` of a nullable attachment id: null or 0. */
  predicate EmptyId(id: Option<int>) {
    id.None? || id.value == 0
  }

  /**
   * `set_default_thumbnail`; `defaultImage` is the stored option
   * `ssfi_default_image` cast to an integer.
   */
  function SetDefaultThumbnail(thumbnail: Option<int>, defaultImage: int): (r: Option<int>)
    // a thumbnail that is set is never replaced
    ensures !EmptyId(thumbnail) ==> r == thumbnail
    // a missing thumbnail is filled exactly when the default is a positive id
    ensures EmptyId(thumbnail) ==> (!EmptyId(r) <==> defaultImage > 0)
    // nothing but the input or the default ever comes out
    ensures r == thumbnail || r == Some(defaultImage)
    // in every case but an empty thumbnail with a positive default, the input comes back unchanged
    ensures !(EmptyId(thumbnail) && defaultImage > 0) ==> r == thumbnail
    ensures EmptyId(thumbnail) && defaultImage > 0 ==> r == Some(defaultImage)
  {
    if EmptyId(thumbnail) && defaultImage > 0 then Some(defaultImage) else thumbnail
  }

  /** Applying the fallback twice changes nothing more. */
  lemma SetDefaultThumbnailIdempotent(thumbnail: Option<int>, defaultImage: int)
    ensures SetDefaultThumbnail(SetDefaultThumbnail(thumbnail, defaultImage), defaultImage)
         == SetDefaultThumbnail(thumbnail, defaultImage)
  {
  }

  /**
   * `maybe_set_social_image`; `socialImage` is what `get_social_image_url`
   * yields for Facebook (null when no image is available).
   */
  function MaybeSetSocialImage(imageUrl: string, socialImage: Option<string>): (r: string)
    // a URL that is set is never replaced
    ensures !EmptyString(imageUrl) ==> r == imageUrl
    // an empty URL is replaced exactly when the fallback is a non-empty string
    ensures EmptyString(imageUrl) ==>
      (r != imageUrl <==> socialImage.Some? && !EmptyString(socialImage.value) && socialImage.value != imageUrl)
    ensures r == imageUrl || (socialImage.Some? && r == socialImage.value)
  {
    if EmptyString(imageUrl) && socialImage.Some? && !EmptyString(socialImage.value)
    then socialImage.value
    else imageUrl
  }

  /** Filtering a URL twice gives the same as filtering it once. */
  lemma MaybeSetSocialImageIdempotent(imageUrl: string, socialImage: Option<string>)
    ensures MaybeSetSocialImage(MaybeSetSocialImage(imageUrl, socialImage), socialImage)
         == MaybeSetSocialImage(imageUrl, socialImage)
  {
  }
}
