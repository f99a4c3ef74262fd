/**
 * What the private and the public storage routes share: the caller's user
 * id, the content-type gate and the whole upload handler (identical in both
 * route files), the mapping of failures to HTTP errors, and the loop that
 * turns blob names into listing entries.
 *
 * Azure Blob Storage and Firebase are not part of this model: their calls
 * are the functions held in a `Storage` record, each answering a value or
 * the exception it raises.
 */
module StorageCommon {
  import opened Outcomes

  /** The decoded Firebase token: a string-keyed dictionary. */
  type UserInfo = map<string, string>

  /** StorageResponse */
  datatype StorageResponse = StorageResponse(
    success: bool, blobName: Option<string>, blobUrl: Option<string>, message: Option<string>)

  /** UserImagesResponse */
  datatype UserImagesResponse = UserImagesResponse(userId: string, count: nat, images: seq<StorageResponse>)

  /** The dictionary a successful delete returns. */
  datatype DeleteResponse = DeleteResponse(success: bool, message: string, blobName: string)

  /**
   * The storage calls a route makes.
   *   upload(user_id)               : azure_storage.upload_image(...)'s blob_name
   *   sasUrl(blob_name)             : azure_storage.get_blob_url_with_sas(blob_name, 24)
   *   listUserBlobs(user_id, prefix): azure_storage.list_user_blobs(...)
   *   deleteBlob(blob_name)         : azure_storage.delete_blob(blob_name)
   */
  datatype Storage = Storage(
    upload: string -> Try<Option<string>>,
    sasUrl: string -> Try<Option<string>>,
    listUserBlobs: (Option<string>, Option<string>) -> Try<seq<string>>,
    deleteBlob: string -> Try<bool>)

  /** user_info.get("uid", "unknown") */
  function UserId(userInfo: UserInfo): (uid: string)
    ensures "uid" in userInfo ==> uid == userInfo["uid"]
    ensures "uid" !in userInfo ==> uid == "unknown"
  {
    if "uid" in userInfo then userInfo["uid"] else "unknown"
  }

  /** The prefix every blob of a user starts with: "<user_id>/". */
  function OwnerPrefix(userId: string): string
  {
    userId + "/"
  }

  /** file.content_type.startswith("image/"), for a content type that is present. */
  predicate IsImageContentType(contentType: string)
  {
    StartsWith(contentType, "image/")
  }

  /**
   * `except HTTPException: raise` / `except Exception as e: raise
   * HTTPException(500, detail=prefix + str(e))`: an HTTP error passes
   * through unchanged, anything else becomes a 500.
   */
  function Guard<T>(e: Exception, prefix: string): (r: Try<T>)
    ensures r.Raise? && r.exc.HttpException?
    ensures e.HttpException? ==> r.exc == e
    ensures !e.HttpException? ==> r.exc == HttpException(500, prefix + Describe(e))
  {
    if e.HttpException? then Raise(e) else Raise(HttpException(500, prefix + Describe(e)))
  }

  /** A content type was sent and it names an image. */
  predicate ImageSent(contentType: Option<string>)
  {
    contentType.Some? && IsImageContentType(contentType.value)
  }

  const NotAnImage: Exception := HttpException(400, "File must be an image")
  const UploadFailed: Exception := HttpException(500, "Failed to upload image")

  /**
   * upload_image (both routes). `contentType` is None when the client sent
   * none, and then `.startswith` raises AttributeError outside the try
   * block; `readError` is the exception reading or opening the file raises,
   * if any. Uploading needs an image content type and a non-empty blob name
   * from storage; every failure inside the try block ends as an HTTP error.
   */
  function UploadImage(contentType: Option<string>, userInfo: UserInfo, readError: Option<Exception>,
                       storage: Storage): (r: Try<StorageResponse>)
    ensures contentType.None? ==> r.Raise? && r.exc.OtherError?
    ensures contentType.Some? && !IsImageContentType(contentType.value) ==> r == Raise(NotAnImage)
    ensures r.Raise? && contentType.Some? ==> r.exc.HttpException?
    ensures ImageSent(contentType) && readError.Some? ==> r == Guard(readError.value, "Upload failed: ")
    ensures var up := storage.upload(UserId(userInfo));
      ImageSent(contentType) && readError.None? && up.Raise? ==> r == Guard(up.exc, "Upload failed: ")
    ensures var up := storage.upload(UserId(userInfo));
      ImageSent(contentType) && readError.None? && up.Ok? && !Truthy(up.value) ==> r == Raise(UploadFailed)
    ensures var up := storage.upload(UserId(userInfo));
      ImageSent(contentType) && readError.None? && up.Ok? && Truthy(up.value) &&
      storage.sasUrl(up.value.value).Raise? ==>
        r == Guard(storage.sasUrl(up.value.value).exc, "Upload failed: ")
    ensures var up := storage.upload(UserId(userInfo));
      r.Ok? <==>
        ImageSent(contentType) && readError.None? && up.Ok? && Truthy(up.value) &&
        storage.sasUrl(up.value.value).Ok?
    ensures var up := storage.upload(UserId(userInfo));
      r.Ok? ==>
        r.value == StorageResponse(true, up.value, storage.sasUrl(up.value.value).value,
                                   Some("Image uploaded successfully"))
  {
    if contentType.None? then Raise(OtherError("'NoneType' object has no attribute 'startswith'"))
    else if !IsImageContentType(contentType.value) then Raise(NotAnImage)
    else if readError.Some? then Guard(readError.value, "Upload failed: ")
    else
      var userId := UserId(userInfo);
      match storage.upload(userId)
      case Raise(e) => Guard(e, "Upload failed: ")
      case Ok(blobName) =>
        if !Truthy(blobName) then Raise(UploadFailed)
        else
          match storage.sasUrl(blobName.value)
          case Raise(e) => Guard(e, "Upload failed: ")
          case Ok(sasUrl) => Ok(StorageResponse(true, blobName, sasUrl, Some("Image uploaded successfully")))
  }

  // ---------------------------------------------------------------------
  // Deleting

  const ForbiddenDelete: Exception := HttpException(403, "You can only delete your own images")
  const DeleteFailed: Exception := HttpException(500, "Failed to delete image")

  /** What delete_image does: its response, and the blob storage was asked to delete, if any. */
  datatype Deletion = Deletion(response: Try<DeleteResponse>, requested: Option<string>)

  /**
   * The end of delete_image once permission is granted: storage deletes the
   * blob; True echoes the blob name, False is a 500, an exception is guarded.
   */
  function DeleteBlob(blobName: string, storage: Storage): (r: Try<DeleteResponse>)
    ensures r.Ok? <==> storage.deleteBlob(blobName) == Ok(true)
    ensures r.Ok? ==> r.value == DeleteResponse(true, "Image deleted successfully", blobName)
    ensures storage.deleteBlob(blobName) == Ok(false) ==> r == Raise(DeleteFailed)
    ensures r.Raise? ==> r.exc.HttpException?
    ensures storage.deleteBlob(blobName).Raise? ==> r == Guard(storage.deleteBlob(blobName).exc, "Delete failed: ")
  {
    match storage.deleteBlob(blobName)
    case Raise(e) => Guard(e, "Delete failed: ")
    case Ok(success) =>
      if !success then Raise(DeleteFailed)
      else Ok(DeleteResponse(true, "Image deleted successfully", blobName))
  }

  // ---------------------------------------------------------------------
  // Listing

  /** The listing entry of a blob that has a SAS URL. */
  function Entry(blobName: string, sasUrl: string): StorageResponse
  {
    StorageResponse(true, Some(blobName), Some(sasUrl), None)
  }

  /**
   * What the listing loop produces for `names`: one entry per blob whose
   * SAS URL is non-empty, in order; the first exception stops it.
   */
  function Listing(names: seq<string>, sasUrl: string -> Try<Option<string>>): Try<seq<StorageResponse>>
  {
    if names == [] then Ok([])
    else
      match Listing(names[..|names| - 1], sasUrl)
      case Raise(e) => Raise(e)
      case Ok(images) =>
        var last := names[|names| - 1];
        match sasUrl(last)
        case Raise(e) => Raise(e)
        case Ok(url) => if Truthy(url) then Ok(images + [Entry(last, url.value)]) else Ok(images)
  }

  /** Whether a blob gets a listing entry: its SAS URL is computed and non-empty. */
  predicate HasUrl(name: string, sasUrl: string -> Try<Option<string>>)
  {
    sasUrl(name).Ok? && Truthy(sasUrl(name).value)
  }

  /** The blob names that get a listing entry, in their listing order. */
  function WithUrl(names: seq<string>, sasUrl: string -> Try<Option<string>>): seq<string>
  {
    if names == [] then []
    else
      var last := names[|names| - 1];
      WithUrl(names[..|names| - 1], sasUrl) + if HasUrl(last, sasUrl) then [last] else []
  }

  /** The listing fails exactly when some SAS URL computation raises. */
  lemma {:induction false} ListingOkIff(names: seq<string>, sasUrl: string -> Try<Option<string>>)
    ensures Listing(names, sasUrl).Ok? <==> forall n :: n in names ==> sasUrl(n).Ok?
  {
    if names != [] {
      var init := names[..|names| - 1];
      ListingOkIff(init, sasUrl);
      assert names == init + [names[|names| - 1]];
    }
  }

  /**
   * A successful listing has one entry per blob with a URL, in the same
   * order: entry i names the i-th such blob and carries its URL, so the
   * reported count is the number of blobs with a URL.
   */
  lemma {:induction false} ListingEntries(names: seq<string>, sasUrl: string -> Try<Option<string>>)
    requires Listing(names, sasUrl).Ok?
    ensures |Listing(names, sasUrl).value| == |WithUrl(names, sasUrl)|
    ensures forall i :: 0 <= i < |WithUrl(names, sasUrl)| ==>
      HasUrl(WithUrl(names, sasUrl)[i], sasUrl) &&
      Listing(names, sasUrl).value[i] == Entry(WithUrl(names, sasUrl)[i], sasUrl(WithUrl(names, sasUrl)[i]).value.value)
  {
    if names != [] {
      ListingEntries(names[..|names| - 1], sasUrl);
    }
  }

  /** The blobs that get an entry are exactly the listed blobs with a URL. */
  lemma {:induction false} WithUrlMembers(names: seq<string>, sasUrl: string -> Try<Option<string>>)
    ensures forall n :: n in WithUrl(names, sasUrl) <==> n in names && HasUrl(n, sasUrl)
  {
    if names != [] {
      var init := names[..|names| - 1];
      WithUrlMembers(init, sasUrl);
      assert names == init + [names[|names| - 1]];
    }
  }

  /** A failure on a prefix of the names is the failure of the whole loop. */
  lemma {:induction false} ListingStopsAtFirstFailure(names: seq<string>, k: nat, sasUrl: string -> Try<Option<string>>)
    requires k <= |names|
    requires Listing(names[..k], sasUrl).Raise?
    ensures Listing(names, sasUrl) == Listing(names[..k], sasUrl)
    decreases |names| - k
  {
    if k < |names| {
      assert names[..k + 1][..k] == names[..k];
      ListingStopsAtFirstFailure(names, k + 1, sasUrl);
    } else {
      assert names[..k] == names;
    }
  }

  /**
   * The loop of get_images: for each blob name, compute its SAS URL and
   * append an entry when the URL is non-empty.
   */
  method CollectImages(blobNames: seq<string>, sasUrl: string -> Try<Option<string>>)
    returns (r: Try<seq<StorageResponse>>)
    ensures r == Listing(blobNames, sasUrl)
  {
    var images := [];
    for i := 0 to |blobNames|
      invariant Listing(blobNames[..i], sasUrl) == Ok(images)
    {
      var blobName := blobNames[i];
      assert blobNames[..i + 1][..i] == blobNames[..i];
      var url := sasUrl(blobName);
      if url.Raise? {
        ListingStopsAtFirstFailure(blobNames, i + 1, sasUrl);
        return Raise(url.exc);
      }
      if Truthy(url.value) {
        images := images + [Entry(blobName, url.value.value)];
      }
    }
    assert blobNames[..|blobNames|] == blobNames;
    r := Ok(images);
  }
}
