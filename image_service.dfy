/**
 * The pure path helpers of service/imageService.ts. The environment values they read
 * (`EXPO_PUBLIC_SUPABASE_URL`, `FileSystem.documentDirectory`) and the clock
 * (`new Date().getTime()`) are parameters.
 */
module ImageService {
  import opened Wrappers
  import opened Strings

  /** The fixed part of a public storage URL between the project URL and the file path. */
  const PublicUploads := "/storage/v1/object/public/uploads/"

  /** An image source as `<Image source>` takes it: a `{ uri }` object or the bundled default picture. */
  datatype ImageSource = Uri(uri: string) | DefaultProfile

  /** A picked media file as the image picker describes it. */
  datatype Asset = Asset(uri: string, assetType: Option<string>)

  /**
   * The JavaScript values a post's `file` takes: `null`, `undefined`, a storage path
   * (a string) or a freshly picked local asset (an object).
   */
  datatype FileValue = Null | Undefined | Remote(path: string) | Local(asset: Asset)

  /** JavaScript truthiness of a `file` value: the empty string, `null` and `undefined` are falsy. */
  predicate Truthy(f: FileValue) {
    match f
    case Null => false
    case Undefined => false
    case Remote(p) => p != ""
    case Local(_) => true
  }

  /** `getSupabaseFileUrl` (imageService.ts:14-21): `null` for an empty path, else the public URL. */
  function GetSupabaseFileUrl(base: string, path: string): (r: Option<string>)
    ensures r.None? <==> path == ""
    ensures r.Some? ==> UrlPath(base, r.value) == Some(path)
  {
    if path != "" then Some(base + PublicUploads + path) else None
  }

  /** Recovers the storage path from a public URL: the inverse of GetSupabaseFileUrl. */
  function UrlPath(base: string, url: string): (r: Option<string>)
    ensures r.Some? ==> url == base + PublicUploads + r.value
  {
    var head := base + PublicUploads;
    if head <= url && |url| > |head| then Some(url[|head|..]) else None
  }

  /** A public URL ends with the path it was built from. */
  lemma UrlEndsWithPath(base: string, path: string)
    requires path != ""
    ensures var url := GetSupabaseFileUrl(base, path).value;
      |url| >= |path| && url[|url| - |path|..] == path
  {
    var url := base + PublicUploads + path;
    assert url[|url| - |path|..] == path;
  }

  /** `getUserImageSrc` (imageService.ts:5-12): the default picture exactly when the path is missing or empty. */
  function GetUserImageSrc(base: string, imagePath: Option<string>): (r: ImageSource)
    ensures r == DefaultProfile <==> imagePath.None? || imagePath.value == ""
    ensures r.Uri? ==> Some(r.uri) == GetSupabaseFileUrl(base, imagePath.value)
  {
    if imagePath.Some? && imagePath.value != "" then
      Uri(GetSupabaseFileUrl(base, imagePath.value).value)
    else
      DefaultProfile
  }

  /** `filePath.split("/").pop()`: the text after the last `/`, or all of it when there is none. */
  function LastSegment(path: string): (r: string)
    ensures '/' !in r
    ensures |r| <= |path| && r == path[|path| - |r|..]
    ensures |r| < |path| ==> path[|path| - |r| - 1] == '/'
  {
    if path == [] then []
    else if path[|path| - 1] == '/' then []
    else LastSegment(path[..|path| - 1]) + [path[|path| - 1]]
  }

  /** A path without `/` is kept whole. */
  lemma {:induction false} LastSegmentOfPlainName(path: string)
    requires '/' !in path
    ensures LastSegment(path) == path
  {
    if path != [] {
      assert path[|path| - 1] in path;
      var init := path[..|path| - 1];
      assert '/' !in init by {
        forall i | 0 <= i < |init| ensures init[i] != '/' {
          assert init[i] == path[i] && path[i] in path;
        }
      }
      LastSegmentOfPlainName(path[..|path| - 1]);
    }
  }

  /** The segment after a final `/`-free tail is that tail. */
  lemma {:induction false} LastSegmentAfterSlash(dir: string, name: string)
    requires '/' !in name
    ensures LastSegment(dir + "/" + name) == name
    decreases |name|
  {
    var p := dir + "/" + name;
    if name == [] {
      assert p[|p| - 1] == '/';
    } else {
      assert p[|p| - 1] == name[|name| - 1];
      assert p[..|p| - 1] == dir + "/" + name[..|name| - 1];
      var init := name[..|name| - 1];
      assert '/' !in init by {
        forall i | 0 <= i < |init| ensures init[i] != '/' {
          assert init[i] == name[i] && name[i] in name;
        }
      }
      LastSegmentAfterSlash(dir, name[..|name| - 1]);
      assert name[..|name| - 1] + [name[|name| - 1]] == name;
    }
  }

  /** `getLocalFilePath` (imageService.ts:32-35): the last segment of the path under the documents directory. */
  function GetLocalFilePath(documentDirectory: string, filePath: string): (r: string)
    ensures |r| >= |documentDirectory| && r[..|documentDirectory|] == documentDirectory
    ensures r[|documentDirectory|..] == LastSegment(filePath)
    ensures '/' !in r[|documentDirectory|..]
  {
    documentDirectory + LastSegment(filePath)
  }

  /** `getFilePath` (imageService.ts:76-80) with the clock reading `timestamp` as a parameter. */
  function GetFilePath(folderName: string, isImage: bool, timestamp: nat): (r: string)
  {
    "/" + folderName + "/" + DecimalText(timestamp) + Extension(isImage)
  }

  function Extension(isImage: bool): (r: string)
    ensures r == ".png" <==> isImage
    ensures r == ".mp4" <==> !isImage
  {
    if isImage then ".png" else ".mp4"
  }

  /** The file name of a generated path is the timestamp followed by the extension, and a local copy keeps it. */
  lemma FilePathFileName(documentDirectory: string, folderName: string, isImage: bool, timestamp: nat)
    ensures var name := DecimalText(timestamp) + Extension(isImage);
      && LastSegment(GetFilePath(folderName, isImage, timestamp)) == name
      && GetLocalFilePath(documentDirectory, GetFilePath(folderName, isImage, timestamp)) == documentDirectory + name
  {
    var digits := DecimalText(timestamp);
    var name := digits + Extension(isImage);
    assert '/' !in name by {
      forall i | 0 <= i < |name| ensures name[i] != '/' {
        if i < |digits| {
          assert IsDigit(digits[i]);
        }
      }
    }
    assert GetFilePath(folderName, isImage, timestamp) == ("/" + folderName) + "/" + name;
    LastSegmentAfterSlash("/" + folderName, name);
  }

  /** The folder and the timestamp are read back from a generated path. */
  lemma FilePathParts(folderName: string, isImage: bool, timestamp: nat)
    ensures var p := GetFilePath(folderName, isImage, timestamp);
      && p[..|folderName| + 2] == "/" + folderName + "/"
      && p[|p| - 4..] == Extension(isImage)
      && var digits := p[|folderName| + 2..|p| - 4];
         (forall i :: 0 <= i < |digits| ==> IsDigit(digits[i])) && DecimalValue(digits) == timestamp
  {
    var p := GetFilePath(folderName, isImage, timestamp);
    assert p[|folderName| + 2..|p| - 4] == DecimalText(timestamp);
    DecimalRoundTrip(timestamp);
  }

  /** `isLocalFile` (imageService.ts:82-84): `typeof file == "object"`, which also holds for `null`. */
  predicate IsLocalFile(f: FileValue) {
    f.Null? || f.Local?
  }

  /**
   * `getFileType` (imageService.ts:86-97): `null` for a falsy file, a local asset's own
   * `type`, `"Image"` for a remote path containing `postImage`, `"Video"` for any other.
   */
  function GetFileType(f: FileValue): (r: Option<string>)
    ensures !Truthy(f) ==> r == None
    ensures f.Local? ==> r == f.asset.assetType
    ensures f.Remote? && f.path != "" ==> r == Some(if Contains(f.path, "postImage") then "Image" else "Video")
  {
    if !Truthy(f) then None
    else if IsLocalFile(f) then f.asset.assetType
    else if Contains(f.path, "postImage") then Some("Image")
    else Some("Video")
  }

  /**
   * `getFileUri` (imageService.ts:99-105): `null` for a falsy file, a local asset's own `uri`,
   * and the public URL of a remote path.
   */
  function GetFileUri(base: string, f: FileValue): (r: Option<string>)
    ensures !Truthy(f) ==> r == None
    ensures f.Local? ==> r == Some(f.asset.uri)
    ensures f.Remote? ==> r == GetSupabaseFileUrl(base, f.path)
  {
    if !Truthy(f) then None
    else if IsLocalFile(f) then Some(f.asset.uri)
    else GetSupabaseFileUrl(base, f.path)
  }
}
