/**
 * `createOrUpdatePost` of service/postService.ts. The post is a plain object that the
 * function changes in place (`post.file = ...`) before it is upserted, so it is a class
 * here. Uploading (`uploadImage`) and the database upsert are parameters: functions
 * from what is sent to what comes back.
 */
module PostService {
  import opened Wrappers
  import opened Strings
  import opened ImageService
  import PostCard

  /** The fields of a post object at one moment, as the upsert receives them. */
  datatype PostFields = PostFields(id: Option<string>, userId: string, body: string, file: FileValue)

  /** `uploadImage`'s answer: `{ success: true, data: path }` or `{ success: false, msg }`. */
  datatype UploadResult = Uploaded(path: string) | UploadError(msg: string)

  /** The arguments of the one `uploadImage` call (postService.ts:11). */
  datatype UploadCall = UploadCall(folderName: string, fileUri: string, isImage: bool)

  /** The upsert's answer: the stored row, or an error. */
  datatype UpsertResult = Upserted(row: PostFields) | UpsertError

  /** What `createOrUpdatePost` returns. */
  datatype PostReply =
    | Saved(data: PostFields)          // { success: true, msg, data }
    | UploadFailed(result: UploadResult) // the upload's own failure object, returned as is
    | SaveFailed                        // { success: false, msg }

  /** The storage folder (postService.ts:9-10): `postImages` for an image, `postVideo` for anything else. */
  function FolderFor(asset: Asset): (r: string)
    ensures r == "postImages" <==> asset.assetType == Some("image")
    ensures r == "postVideo" <==> asset.assetType != Some("image")
  {
    if asset.assetType == Some("image") then "postImages" else "postVideo"
  }

  /** A post object whose fields the service updates in place. */
  class PostObject {
    var id: Option<string>
    var userId: string
    var body: string
    var file: FileValue

    constructor (fields: PostFields)
      ensures Fields() == fields
    {
      id, userId, body, file := fields.id, fields.userId, fields.body, fields.file;
    }

    function Fields(): PostFields
      reads this
    {
      PostFields(id, userId, body, file)
    }
  }

  /** A file goes through `uploadImage` exactly when it is truthy and an object (postService.ts:8). */
  predicate NeedsUpload(file: FileValue)
    ensures NeedsUpload(file) <==> file.Local?
  {
    Truthy(file) && IsLocalFile(file)
  }

  /**
   * `createOrUpdatePost` (postService.ts:5-31). `upload` and `upsert` stand for the
   * storage and database calls; `uploadCall` and `upserted` report what was sent to them.
   */
  method CreateOrUpdatePost(post: PostObject, upload: UploadCall -> UploadResult, upsert: PostFields -> UpsertResult)
    returns (reply: PostReply, uploadCall: Option<UploadCall>, upserted: Option<PostFields>)
    modifies post
    ensures !NeedsUpload(old(post.file)) ==> uploadCall == None && post.Fields() == old(post.Fields())
    ensures NeedsUpload(old(post.file)) ==>
      var asset := old(post.file).asset;
      uploadCall == Some(UploadCall(FolderFor(asset), asset.uri, asset.assetType == Some("image")))
    ensures uploadCall.Some? && upload(uploadCall.value).UploadError? ==>
      reply == UploadFailed(upload(uploadCall.value)) && upserted == None && post.Fields() == old(post.Fields())
    ensures uploadCall.Some? && upload(uploadCall.value).Uploaded? ==>
      post.Fields() == old(post.Fields()).(file := Remote(upload(uploadCall.value).path))
    ensures uploadCall.None? || upload(uploadCall.value).Uploaded? ==> upserted == Some(post.Fields())
    ensures upserted.Some? ==>
      reply == match upsert(upserted.value) { case Upserted(row) => Saved(row) case UpsertError => SaveFailed }
  {
    uploadCall := None;
    if Truthy(post.file) && IsLocalFile(post.file) {
      var asset := post.file.asset;
      var isImage := asset.assetType == Some("image");
      var folderName := if isImage then "postImages" else "postVideo";
      uploadCall := Some(UploadCall(folderName, asset.uri, isImage));
      var fileResult := upload(uploadCall.value);
      if fileResult.Uploaded? {
        post.file := Remote(fileResult.path);
      } else {
        reply, upserted := UploadFailed(fileResult), None;
        return;
      }
    }
    upserted := Some(post.Fields());
    var result := upsert(upserted.value);
    if result.UpsertError? {
      reply := SaveFailed;
      return;
    }
    reply := Saved(result.row);
  }

  /**
   * The video folder and the card's video test disagree: a path generated for an
   * uploaded video contains `postVideo` but never `postVideos`, so the card shows
   * neither an image nor a video for it, while `getFileType` still calls it a video.
   * An image path, by contrast, is rendered as an image.
   */
  lemma UploadedVideoIsNeverRendered(asset: Asset, timestamp: nat)
    requires asset.assetType != Some("image")
    ensures var path := GetFilePath(FolderFor(asset), false, timestamp);
      && Contains(path, "postVideo")
      && !PostCard.RendersVideo(Some(path))
      && !PostCard.RendersImage(Some(path))
      && GetFileType(Remote(path)) == Some("Video")
  {
    var digits := DecimalText(timestamp);
    var path := GetFilePath("postVideo", false, timestamp);
    assert path == "/postVideo/" + digits + ".mp4";
    assert path[1..][..|"postVideo"|] == "postVideo";
    NoWordInVideoPath(digits, "postVideos");
    NoWordInVideoPath(digits, "postImages");
    NoWordInVideoPath(digits, "postImage");
  }

  /** None of the words the card and `getFileType` look for occurs in `/postVideo/<digits>.mp4`. */
  lemma NoWordInVideoPath(digits: string, word: string)
    requires forall i :: 0 <= i < |digits| ==> IsDigit(digits[i])
    requires word in {"postVideos", "postImages", "postImage"}
    ensures !Contains("/postVideo/" + digits + ".mp4", word)
  {
    var path := "/postVideo/" + digits + ".mp4";
    var n := |path|;
    assert |word| >= 9 && word[0] == 'p';
    forall i | 0 <= i <= n
      ensures !(word <= path[i..])
    {
      if i + |word| <= n {
        if i == 1 {
          if word == "postVideos" {
            assert path[i..][9] == '/' != word[9];
          } else {
            assert path[i..][4] == 'V' != word[4];
          }
        } else if i < 11 {
          assert path[i..][0] == "/postVideo/"[i] != word[0];
        } else {
          assert path[i] == digits[i - 11] && IsDigit(digits[i - 11]);
          assert path[i..][0] != word[0];
        }
      }
    }
  }

  /** An uploaded image's path is rendered as an image and typed `"Image"`. */
  lemma UploadedImageIsRendered(asset: Asset, timestamp: nat)
    requires asset.assetType == Some("image")
    ensures var path := GetFilePath(FolderFor(asset), true, timestamp);
      && PostCard.RendersImage(Some(path))
      && GetFileType(Remote(path)) == Some("Image")
  {
    var path := GetFilePath("postImages", true, timestamp);
    assert path[1..][..|"postImages"|] == "postImages";
    assert path[1..][..|"postImage"|] == "postImage";
  }
}
