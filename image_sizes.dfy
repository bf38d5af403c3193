/**
 * The four social-media image sizes the plugin registers and regenerates,
 * in the order the plugin lists them.
 */
module ImageSizes {

  const FbWidth: int := 1200
  const FbHeight: int := 630
  const TwitterWidth: int := 1200
  const TwitterHeight: int := 600
  const InstagramSize: int := 1080
  const PinterestWidth: int := 1000
  const PinterestHeight: int := 1500

  /** A registered intermediate size: its metadata key and its target box. */
  datatype SocialSize = SocialSize(name: string, width: int, height: int)

  const SocialSizes: seq<SocialSize> := [
    SocialSize("ssfi-facebook", FbWidth, FbHeight),
    SocialSize("ssfi-twitter", TwitterWidth, TwitterHeight),
    SocialSize("ssfi-instagram", InstagramSize, InstagramSize),
    SocialSize("ssfi-pinterest", PinterestWidth, PinterestHeight)
  ]

  /** The metadata keys owned by the plugin. */
  const SocialSizeNames: set<string> :=
    {"ssfi-facebook", "ssfi-twitter", "ssfi-instagram", "ssfi-pinterest"}

  /** The key set is exactly the names in the list, and no name is listed twice. */
  lemma SocialSizesWellFormed()
    ensures |SocialSizes| == 4
    ensures forall i :: 0 <= i < |SocialSizes| ==> SocialSizes[i].name in SocialSizeNames
    ensures forall k :: k in SocialSizeNames ==> exists i :: 0 <= i < |SocialSizes| && SocialSizes[i].name == k
    ensures forall i, j :: 0 <= i < j < |SocialSizes| ==> SocialSizes[i].name != SocialSizes[j].name
    ensures forall i :: 0 <= i < |SocialSizes| ==> SocialSizes[i].width > 0 && SocialSizes[i].height > 0
  {
    assert SocialSizes[0].name == "ssfi-facebook";
    assert SocialSizes[1].name == "ssfi-twitter";
    assert SocialSizes[2].name == "ssfi-instagram";
    assert SocialSizes[3].name == "ssfi-pinterest";
  }
}
