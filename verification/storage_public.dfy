/**
 * The public storage routes (/storage/public): anybody may list anybody's
 * images, and deleting is allowed to the blob's owner and to admins.
 */
module StoragePublic {
  import opened Outcomes
  import opened StorageCommon
  import StoragePrivate

  /** The user_id a listing reports: the uid asked for, or "all" when none (or "") was given. */
  function ReportedUser(uid: Option<string>): (u: string)
    ensures Truthy(uid) ==> u == uid.value
    ensures !Truthy(uid) ==> u == "all"
  {
    if Truthy(uid) then uid.value else "all"
  }

  /**
   * get_images: no authentication. The blobs are listed for `uid` as given
   * (None meaning every user); the response holds exactly those with a SAS
   * URL, in order, with their count. Any exception at all, HTTP or not,
   * becomes a 500.
   */
  method GetImages(uid: Option<string>, filenamePrefix: Option<string>, storage: Storage)
    returns (r: Try<UserImagesResponse>)
    ensures r.Raise? ==> r.exc.HttpException? && r.exc.status == 500
    ensures storage.listUserBlobs(uid, filenamePrefix).Raise? ==>
      r == Raise(HttpException(500, "Failed to list images: " + Describe(storage.listUserBlobs(uid, filenamePrefix).exc)))
    ensures r.Ok? ==>
      storage.listUserBlobs(uid, filenamePrefix).Ok? &&
      Listing(storage.listUserBlobs(uid, filenamePrefix).value, storage.sasUrl) == Ok(r.value.images) &&
      r.value.userId == ReportedUser(uid) &&
      r.value.count == |r.value.images|
    ensures (storage.listUserBlobs(uid, filenamePrefix).Ok? &&
             Listing(storage.listUserBlobs(uid, filenamePrefix).value, storage.sasUrl).Ok?) ==> r.Ok?
    ensures var blobs := storage.listUserBlobs(uid, filenamePrefix);
      blobs.Ok? && Listing(blobs.value, storage.sasUrl).Raise? ==>
        r == Raise(HttpException(500, "Failed to list images: " + Describe(Listing(blobs.value, storage.sasUrl).exc)))
  {
    var blobNames := storage.listUserBlobs(uid, filenamePrefix);
    if blobNames.Raise? {
      return Raise(HttpException(500, "Failed to list images: " + Describe(blobNames.exc)));
    }
    var images := CollectImages(blobNames.value, storage.sasUrl);
    if images.Raise? {
      return Raise(HttpException(500, "Failed to list images: " + Describe(images.exc)));
    }
    r := Ok(UserImagesResponse(ReportedUser(uid), |images.value|, images.value));
  }

  /** `not is_admin and not blob_name.startswith(f"{user_id}/")` negated: admin or owner. */
  predicate MayDelete(blobName: string, userId: string, isAdmin: bool)
  {
    isAdmin || StartsWith(blobName, OwnerPrefix(userId))
  }

  /**
   * delete_image. `roleOf` is firebase_auth.get_user_role; a failed lookup
   * is a 500 before anything is deleted. Storage is asked to delete the blob
   * exactly when the caller is an admin or owns it (403 otherwise); a
   * refusal from storage is a 500 and success echoes the blob name.
   */
  function DeleteImage(blobName: string, userInfo: UserInfo, roleOf: string -> Try<Option<string>>,
                       storage: Storage): (d: Deletion)
    ensures roleOf(UserId(userInfo)).Raise? ==>
      d == Deletion(Guard(roleOf(UserId(userInfo)).exc, "Delete failed: "), None)
    ensures roleOf(UserId(userInfo)).Ok? ==>
      var isAdmin := roleOf(UserId(userInfo)).value == Some("admin");
      (d.requested.Some? <==> MayDelete(blobName, UserId(userInfo), isAdmin)) &&
      (!MayDelete(blobName, UserId(userInfo), isAdmin) ==> d.response == Raise(ForbiddenDelete))
    ensures d.requested.Some? ==> d.requested.value == blobName
    ensures d.requested.Some? ==> d.response == DeleteBlob(blobName, storage)
    ensures d.response.Raise? ==> d.response.exc.HttpException?
  {
    var userId := UserId(userInfo);
    match roleOf(userId)
    case Raise(e) => Deletion(Guard(e, "Delete failed: "), None)
    case Ok(role) =>
      var isAdmin := role == Some("admin");
      if !isAdmin && !StartsWith(blobName, OwnerPrefix(userId)) then Deletion(Raise(ForbiddenDelete), None)
      else
        Deletion(DeleteBlob(blobName, storage), Some(blobName))
  }

  /**
   * The two delete routes differ only for an admin deleting somebody else's
   * blob: the public route asks storage to delete it, the private route
   * refuses with 403 and asks nothing.
   */
  lemma AdminOverrideOnlyInPublicRoute(blobName: string, userInfo: UserInfo,
                                       roleOf: string -> Try<Option<string>>, storage: Storage)
    requires roleOf(UserId(userInfo)) == Ok(Some("admin"))
    requires !StartsWith(blobName, OwnerPrefix(UserId(userInfo)))
    ensures DeleteImage(blobName, userInfo, roleOf, storage).requested == Some(blobName)
    ensures StoragePrivate.DeleteImage(blobName, userInfo, storage) == Deletion(Raise(ForbiddenDelete), None)
  {
  }

  /** For a blob the caller owns, both routes make the same storage request and give the same response. */
  lemma OwnersDeleteAlike(blobName: string, userInfo: UserInfo,
                          roleOf: string -> Try<Option<string>>, storage: Storage)
    requires roleOf(UserId(userInfo)).Ok?
    requires StartsWith(blobName, OwnerPrefix(UserId(userInfo)))
    ensures DeleteImage(blobName, userInfo, roleOf, storage) == StoragePrivate.DeleteImage(blobName, userInfo, storage)
  {
  }
}
