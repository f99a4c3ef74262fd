/**
 * The authenticated storage routes (/storage/private): listing is limited to
 * the caller's own images unless the caller is an admin, and deleting is
 * limited to the caller's own blobs for everybody, admins included.
 */
module StoragePrivate {
  import opened Outcomes
  import opened StorageCommon

  const ForbiddenListing: Exception := HttpException(403, "Only admins can access other users' images")

  /** user_role == "admin", for what get_user_role answered. */
  predicate IsAdminRole(role: Option<string>)
  {
    role == Some("admin")
  }

  /**
   * Whose images get_images lists: an admin naming a uid gets that uid; a
   * non-admin naming one is refused with 403; without a (non-empty) uid the
   * caller gets their own. A non-admin can only ever list their own images.
   */
  function ListingTarget(uid: Option<string>, isAdmin: bool, currentUid: string): (r: Try<string>)
    ensures Truthy(uid) && isAdmin ==> r == Ok(uid.value)
    ensures Truthy(uid) && !isAdmin ==> r == Raise(ForbiddenListing)
    ensures !Truthy(uid) ==> r == Ok(currentUid)
    ensures r.Ok? && !isAdmin ==> r.value == currentUid
  {
    if Truthy(uid) && isAdmin then Ok(uid.value)
    else if Truthy(uid) && !isAdmin then Raise(ForbiddenListing)
    else Ok(currentUid)
  }

  /**
   * get_images. `roleOf` is firebase_auth.get_user_role. The response lists
   * exactly the target user's blobs that have a SAS URL, in order, with their
   * count; a 403 passes through, and a failed role lookup, blob listing or
   * URL computation becomes a 500.
   */
  method GetImages(uid: Option<string>, filenamePrefix: Option<string>, userInfo: UserInfo,
                   roleOf: string -> Try<Option<string>>, storage: Storage)
    returns (r: Try<UserImagesResponse>)
    ensures roleOf(UserId(userInfo)).Raise? ==>
      r == Guard(roleOf(UserId(userInfo)).exc, "Failed to list images: ")
    ensures roleOf(UserId(userInfo)).Ok? && !IsAdminRole(roleOf(UserId(userInfo)).value) && Truthy(uid) ==>
      r == Raise(ForbiddenListing)
    ensures r.Raise? ==> r.exc.HttpException?
    ensures r.Ok? ==>
      var isAdmin := IsAdminRole(roleOf(UserId(userInfo)).value);
      var target := ListingTarget(uid, isAdmin, UserId(userInfo)).value;
      roleOf(UserId(userInfo)).Ok? &&
      ListingTarget(uid, isAdmin, UserId(userInfo)).Ok? &&
      (!isAdmin ==> r.value.userId == UserId(userInfo)) &&
      r.value.userId == target &&
      storage.listUserBlobs(Some(target), filenamePrefix).Ok? &&
      Listing(storage.listUserBlobs(Some(target), filenamePrefix).value, storage.sasUrl) == Ok(r.value.images) &&
      r.value.count == |r.value.images|
    ensures var role := roleOf(UserId(userInfo));
      var target := ListingTarget(uid, role.Ok? && IsAdminRole(role.value), UserId(userInfo));
      role.Ok? && target.Ok? ==>
        var blobs := storage.listUserBlobs(Some(target.value), filenamePrefix);
        (blobs.Raise? ==> r == Guard(blobs.exc, "Failed to list images: ")) &&
        (blobs.Ok? && Listing(blobs.value, storage.sasUrl).Raise? ==>
          r == Guard(Listing(blobs.value, storage.sasUrl).exc, "Failed to list images: "))
    ensures var role := roleOf(UserId(userInfo));
      var target := ListingTarget(uid, role.Ok? && IsAdminRole(role.value), UserId(userInfo));
      r.Ok? <==>
        role.Ok? && target.Ok? &&
        var blobs := storage.listUserBlobs(Some(target.value), filenamePrefix);
        blobs.Ok? && Listing(blobs.value, storage.sasUrl).Ok?
  {
    var currentUid := UserId(userInfo);
    var role := roleOf(currentUid);
    if role.Raise? {
      return Guard(role.exc, "Failed to list images: ");
    }
    var isAdmin := IsAdminRole(role.value);
    var target := ListingTarget(uid, isAdmin, currentUid);
    if target.Raise? {
      return Guard(target.exc, "Failed to list images: ");
    }
    var targetUid := target.value;
    var blobNames := storage.listUserBlobs(Some(targetUid), filenamePrefix);
    if blobNames.Raise? {
      return Guard(blobNames.exc, "Failed to list images: ");
    }
    var images := CollectImages(blobNames.value, storage.sasUrl);
    if images.Raise? {
      return Guard(images.exc, "Failed to list images: ");
    }
    r := Ok(UserImagesResponse(targetUid, |images.value|, images.value));
  }

  /**
   * delete_image: the blob must lie under "<user_id>/"; there is no admin
   * override here. Storage is asked to delete only such a blob; a refusal
   * from storage is a 500 and success echoes the blob name.
   */
  function DeleteImage(blobName: string, userInfo: UserInfo, storage: Storage): (d: Deletion)
    ensures d.requested.Some? ==> d.requested.value == blobName && StartsWith(blobName, OwnerPrefix(UserId(userInfo)))
    ensures !StartsWith(blobName, OwnerPrefix(UserId(userInfo))) ==> d == Deletion(Raise(ForbiddenDelete), None)
    ensures StartsWith(blobName, OwnerPrefix(UserId(userInfo))) ==> d.requested == Some(blobName)
    ensures d.requested.Some? ==> d.response == DeleteBlob(blobName, storage)
  {
    var userId := UserId(userInfo);
    if !StartsWith(blobName, OwnerPrefix(userId)) then Deletion(Raise(ForbiddenDelete), None)
    else Deletion(DeleteBlob(blobName, storage), Some(blobName))
  }
}
