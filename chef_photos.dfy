/**
 * Local chef photos (src/utils/chefPhotos.ts): chef ids cycle over three
 * bundled images, and an API photo URL is replaced when it is missing or a
 * placeholder.
 */
module ChefPhotos {
  import opened Wrappers
  import opened JsText
  import opened Decimal

  /** The three bundled images, `chef1.jpg` to `chef3.jpg`. */
  datatype Photo = Chef1Jpg | Chef2Jpg | Chef3Jpg

  /** The `chefPhotos` table, keyed by property name. */
  const ChefPhotoTable: map<string, Photo> :=
    map["chef1" := Chef1Jpg, "chef2" := Chef2Jpg, "chef3" := Chef3Jpg]

  /**
   * `a % 3` as JavaScript computes it: `a` minus a multiple of 3, smaller
   * than 3 in size, with the sign of the dividend (the quotient is rounded
   * toward zero, where Dafny's `%` is Euclidean).
   */
  function TruncRem3(a: int): (r: int)
    ensures -3 < r < 3
    ensures (a - r) % 3 == 0
    ensures a >= 0 ==> r >= 0
    ensures a < 0 ==> r <= 0
  {
    if a >= 0 then a % 3 else -((-a) % 3)
  }

  /** `((chefId - 1) % 3) + 1` */
  function PhotoIndex(chefId: int): int {
    TruncRem3(chefId - 1) + 1
  }

  /** The property name `getChefPhoto` looks up: `chef${photoIndex}`. */
  function PhotoKey(chefId: int): string {
    "chef" + IntToString(PhotoIndex(chefId))
  }

  /** `getChefPhoto`; `None` stands for the `undefined` of a missing property. */
  function GetChefPhoto(chefId: int): Option<Photo> {
    Lookup(ChefPhotoTable, PhotoKey(chefId))
  }

  /** Every real (positive) chef id gets one of the three photo indices. */
  lemma PhotoIndexInRange(chefId: int)
    requires chefId >= 1
    ensures 1 <= PhotoIndex(chefId) <= 3
  {
  }

  /** Ids 1, 2 and 3 get photos 1, 2 and 3. */
  lemma FirstThreeIds()
    ensures PhotoIndex(1) == 1 && PhotoIndex(2) == 2 && PhotoIndex(3) == 3
    ensures GetChefPhoto(1) == Some(Chef1Jpg)
    ensures GetChefPhoto(2) == Some(Chef2Jpg)
    ensures GetChefPhoto(3) == Some(Chef3Jpg)
  {
    PhotoKeyOfIndex(1);
    PhotoKeyOfIndex(2);
    PhotoKeyOfIndex(3);
  }

  /** For positive ids the photo repeats with period 3. */
  lemma PhotoIndexPeriodic(chefId: int)
    requires chefId >= 1
    ensures PhotoIndex(chefId + 3) == PhotoIndex(chefId)
  {
  }

  /** The key built for each index that the arithmetic can produce. */
  lemma PhotoKeyOfIndex(chefId: int)
    ensures PhotoIndex(chefId) == -1 ==> PhotoKey(chefId) == "chef-1"
    ensures PhotoIndex(chefId) == 0 ==> PhotoKey(chefId) == "chef0"
    ensures PhotoIndex(chefId) == 1 ==> PhotoKey(chefId) == "chef1"
    ensures PhotoIndex(chefId) == 2 ==> PhotoKey(chefId) == "chef2"
    ensures PhotoIndex(chefId) == 3 ==> PhotoKey(chefId) == "chef3"
  {
    assert NatToString(0) == "0" && NatToString(1) == "1";
    assert NatToString(2) == "2" && NatToString(3) == "3";
  }

  /**
   * The lookup finds a photo exactly for positive ids and for those
   * non-positive ids whose remainder is zero (for which the index is 1);
   * the photo found is the one at the computed index.
   */
  lemma GetChefPhotoDefined(chefId: int)
    ensures GetChefPhoto(chefId).Some? <==> chefId >= 1 || (chefId - 1) % 3 == 0
    ensures GetChefPhoto(chefId).Some? ==>
      1 <= PhotoIndex(chefId) <= 3
      && GetChefPhoto(chefId).value == [Chef1Jpg, Chef2Jpg, Chef3Jpg][PhotoIndex(chefId) - 1]
  {
    PhotoKeyOfIndex(chefId);
    var k := PhotoKey(chefId);
    assert "chef-1" != "chef1" && "chef-1" != "chef2" && "chef-1" != "chef3";
    assert "chef0" != "chef1" && "chef0" != "chef2" && "chef0" != "chef3";
    if chefId < 1 && (chefId - 1) % 3 == 0 {
      assert TruncRem3(chefId - 1) == 0;
    }
  }

  /** `shouldUseLocalPhoto`: `!url || url.includes('placeholder') || url.includes('via.placeholder')` */
  function ShouldUseLocalPhoto(apiPhotoUrl: Option<string>): bool {
    || apiPhotoUrl.None?
    || apiPhotoUrl.value == ""
    || Contains(apiPhotoUrl.value, "placeholder")
    || Contains(apiPhotoUrl.value, "via.placeholder")
  }

  /**
   * The local photo is used exactly when the URL is null, empty or mentions
   * `placeholder`; the `via.placeholder` test adds nothing.
   */
  lemma ShouldUseLocalPhotoIff(apiPhotoUrl: Option<string>)
    ensures ShouldUseLocalPhoto(apiPhotoUrl) <==>
      apiPhotoUrl.None? || apiPhotoUrl.value == "" || Contains(apiPhotoUrl.value, "placeholder")
  {
    if apiPhotoUrl.Some? && Contains(apiPhotoUrl.value, "via.placeholder") {
      assert "via.placeholder" == "via." + "placeholder";
      ContainsLongerNeedle(apiPhotoUrl.value, "via.", "placeholder");
    }
  }

  /** A null or empty URL always falls back to the local photo. */
  lemma MissingUrlUsesLocalPhoto()
    ensures ShouldUseLocalPhoto(None) && ShouldUseLocalPhoto(Some(""))
  {
  }
}
