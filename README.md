# rn-social-app: a Dafny model of the relay, the like button and the media helpers

This project models the small parts of the rn-social-app repository that hold logic of their own. The rest of the app is React Native screens and thin Supabase calls.

- **Chat relay** (`server/server.mjs`), module `Relay`. The socket.io `connection` handler is a class `RelayServer`. Its state is socket.io's room table (`map<RoomId, set<SessionId>>`), an outbox with one `Emission` per `io.to(room).emit`, and the `console.log` lines. `JoinRoom` adds the socket to a room. `SendMessage` builds the row (with `type` defaulting to `"TEXT"`), inserts it, re-fetches it by the new id with the sender joined in, and emits to the payload's room only when both queries returned data. `Disconnect` only logs. The two Supabase queries are parameters: functions from what is sent to what comes back. `Received(outbox, s)` lists what a socket has been sent.
- **Like button** (`components/PostCard.tsx`), module `PostCard`. `liked`, the two `filter`s and the `posts.map` are functions. The card's `likes` state and the shared `posts` store are the fields of class `PostCardState`. `OnLike` takes the like service's answer as a parameter. The module also holds the edit/delete condition and the image and video conditions.
- **Media paths** (`service/imageService.ts`), module `ImageService`. Storage URL building, the last path segment, `/<folder>/<timestamp><ext>` naming (the clock reading is a parameter), and the `getFileType` / `getFileUri` classification over the JavaScript values a `file` can hold.
- **Post saving** (`service/postService.ts`), module `PostService`. `createOrUpdatePost` updates `post.file` in place, so the post is a class `PostObject`. The upload and the upsert are parameters.
- **`stripHtmlTags`** (`helpers/commons.js`), module `Html`. The global regex `/<[^>]*>?/g` becomes the recursive function `Strip`.
- **Message grouping** (`components/MessageItem.tsx`), module `MessageItem`. `isMine`, `showUserInfo` and the header condition. Over a whole list, a lemma ties the number of headers to the list's maximal same-sender runs.

The shared modules are `Wrappers` (`Option`, for `null`/`undefined`) and `Strings`. `Strings` holds JavaScript's `includes`, subsequences, and the decimal text of a number.

The relay model follows the code:
- A failed enrichment fetch aborts the broadcast (`server.mjs:58-60`); it is not best-effort.
- The default type is `"TEXT"`.
- There is no input validation.
- Disconnect only logs. Leaving the rooms on disconnect is socket.io's own behaviour and is not part of the handler.

**Cross-file mismatch.** Video uploads go to the folder `postVideo` (`service/postService.ts:10`). The card draws a video only for paths that contain `postVideos` (`components/PostCard.tsx:253`). `PostService.UploadedVideoIsNeverRendered` proves that a generated video path contains `postVideo` and neither `postVideos` nor `postImages`. So the card shows neither a video nor an image for it, although `getFileType` calls it `"Video"`. The model keeps the code as written and states the mismatch as a lemma.

## Model

| member | source | states |
|---|---|---|
| Relay.BuildValues | server/server.mjs:35-40 | the row copies `userId`, `roomId` and `content`; `type` is the payload's type when truthy, else `"TEXT"`, so the stored type is never empty |
| Relay.Join | server/server.mjs:29-31 | joining adds the socket to that room's members and leaves every other room's members as they were |
| Relay.JoinIdempotent | server/server.mjs:29-31 | joining the same room twice leaves the table as after one join |
| Relay.ReceivedAfterEmit | server/server.mjs:62 | an emission adds its record to what each recipient has received, and to nobody else's |
| Relay.RelayServer.constructor | server/server.mjs:18-23 | a fresh server has an empty room table, outbox and log |
| Relay.RelayServer.Connect | server/server.mjs:25-26 | a connection only appends the log line; rooms and outbox stay as they were |
| Relay.RelayServer.JoinRoom | server/server.mjs:29-31 | the room table becomes `Join(old, socket, room)`: the socket is a member of the room, and nothing else changes |
| Relay.RelayServer.SendMessage | server/server.mjs:33-68 | missing insert data or missing fetch data gives `SendFailed` with the outbox unchanged; success happens iff both returned data; then the reply carries the row fetched by the inserted id, exactly one emission of it is appended, addressed to the payload's room with that room's current members; every member of the room receives the record once, and no other socket receives anything |
| Relay.RelayServer.Disconnect | server/server.mjs:70-72 | disconnect only appends the log line; the room table and the outbox are unchanged |
| Relay.ConsistentStoreDeliversPayload | server/server.mjs:35-62 | if the insert of the built row returns a row with the payload's fields and fetching that row's id returns it with its sender, then each member of the room receives one more record, with the payload's content, sender, room and type |
| Html.AfterTagIsSuffix | helpers/commons.js:14 | after a tag's `<`, `[^>]*>?` leaves an unchanged suffix of the text |
| Html.StripRemovesOpenBrackets | helpers/commons.js:14 | the result contains no `<` |
| Html.StripKeepsTagFreeText | helpers/commons.js:14 | a text with no `<` is returned unchanged |
| Html.StripIdempotent | helpers/commons.js:14 | stripping twice equals stripping once |
| Html.StripIsSubsequence | helpers/commons.js:14 | the result is a subsequence of the input |
| Html.StripNeverLonger | helpers/commons.js:14 | the result is never longer than the input |
| Html.StripTagFreePrefix | helpers/commons.js:14 | text before the first `<` is kept as is, whatever follows it |
| Html.UnclosedTagRunsToEnd | helpers/commons.js:14 | a `<` with no later `>` removes everything from it to the end |
| Html.UnclosedTagIsDropped | helpers/commons.js:14 | with no `>` left, the tag consumes the rest of the text |
| Html.ClosedTagIsRemoved | helpers/commons.js:14 | a closed tag `<name>` is removed; the text before and after it is kept in order |
| Html.ClosedTagBody | helpers/commons.js:14 | `[^>]*>` stops at the first `>` and consumes it |
| Html.UnclosedExample | helpers/commons.js:14 | `"a<b"` becomes `"a"` |
| Html.ClosedExample | helpers/commons.js:14 | `"a<b>c>"` becomes `"ac>"`: a `>` that no tag consumed is kept |
| Strings.DecimalText | service/imageService.ts:79 | a timestamp's text is one or more digits, with no leading zero unless it is 0 |
| Strings.DecimalRoundTrip | service/imageService.ts:79 | the timestamp's text reads back as the timestamp |
| ImageService.GetSupabaseFileUrl | service/imageService.ts:14-21 | null exactly for an empty path; otherwise a URL from which `UrlPath` recovers the path |
| ImageService.UrlPath | service/imageService.ts:17 | a recovered path is what follows `<base>/storage/v1/object/public/uploads/` in the URL |
| ImageService.UrlEndsWithPath | service/imageService.ts:14-21 | the public URL ends with the file path |
| ImageService.GetUserImageSrc | service/imageService.ts:5-12 | the default profile image exactly when the path is null or empty; otherwise the path's public URL |
| ImageService.LastSegment | service/imageService.ts:33 | `split("/").pop()` has no `/`, is a suffix of the path, and is preceded by a `/` whenever it is not the whole path |
| ImageService.LastSegmentOfPlainName | service/imageService.ts:33 | a path without `/` is kept whole |
| ImageService.LastSegmentAfterSlash | service/imageService.ts:33 | the segment after a last `/` is the text after it |
| ImageService.GetLocalFilePath | service/imageService.ts:32-35 | the result is the documents directory followed by exactly the last segment of the path (the text after its last `/`), which contains no `/` |
| ImageService.Extension | service/imageService.ts:78 | `.png` iff the file is an image, `.mp4` otherwise |
| ImageService.FilePathFileName | service/imageService.ts:76-80 | a generated path's file name is `<timestamp><ext>`, and a local copy keeps that name |
| ImageService.FilePathParts | service/imageService.ts:76-80 | a generated path is `/` + folder + `/` + the timestamp's digits + the extension, and the digits read back as the timestamp |
| ImageService.GetFileType | service/imageService.ts:86-97 | null for a falsy file; a local asset's own `type`; `"Image"` for a remote path containing `postImage`; `"Video"` for any other non-empty remote path |
| ImageService.GetFileUri | service/imageService.ts:99-105 | null for a falsy file; a local asset's own `uri`; for a remote path, the same value as `getSupabaseFileUrl` |
| PostService.FolderFor | service/postService.ts:9-10 | `postImages` iff the asset's type is `"image"`; `postVideo` for every other type |
| PostService.NeedsUpload | service/postService.ts:8 | a file is uploaded iff it is a local (object) asset: no upload for null, undefined or a path |
| PostService.CreateOrUpdatePost | service/postService.ts:5-31 | no upload call for a non-object file; otherwise one call with the asset's folder, uri and image flag; an upload failure returns that result, never upserts and leaves the post unchanged; an upload success sets `post.file` to the returned path and touches no other field before the upsert; the upsert's row gives `Saved`, its error `SaveFailed` |
| PostService.UploadedVideoIsNeverRendered | service/postService.ts:9-11 | a generated video path contains `postVideo` but neither `postVideos` nor `postImages`, so the card renders neither branch; `getFileType` still says `"Video"` |
| PostService.NoWordInVideoPath | components/PostCard.tsx:243-253 | none of `postVideos`, `postImages`, `postImage` occurs in `/postVideo/<digits>.mp4` |
| PostService.UploadedImageIsRendered | service/postService.ts:9-11 | a generated image path is rendered by the card's image branch, and `getFileType` says `"Image"` |
| PostCard.LikesBy | components/PostCard.tsx:163 | every kept like is the user's, and the result is empty iff no like is the user's |
| PostCard.LikesNotBy | components/PostCard.tsx:87-89 | no kept like is the user's; every other like is kept, in its original order (a subsequence); its length is the total minus the user's likes |
| PostCard.LikedIff | components/PostCard.tsx:163-165 | `liked` iff some like's `user_id` is the user's id |
| PostCard.UnlikeClearsLiked | components/PostCard.tsx:87-95 | after unliking, `liked` is false and no other user's like is lost |
| PostCard.LikeSetsLiked | components/PostCard.tsx:105-109 | appending the returned like makes `liked` true for its user |
| PostCard.LikeThenUnlikeRestores | components/PostCard.tsx:87-109 | liking a post not yet liked and then unliking it gives back the original list |
| PostCard.ReplacePostLikes | components/PostCard.tsx:97-101 | same length and order; the posts whose id matches get the new `postLikes` and nothing else changes; the other posts are unchanged |
| PostCard.ReplacePostLikesTwice | components/PostCard.tsx:112-118 | a second replacement overrides the first |
| PostCard.StoreMatchesCard | components/PostCard.tsx:97-118 | after the update, the matching post's `postLikes` equals the card's likes, and every other field of it is unchanged |
| PostCard.ShowsEditControls | components/PostCard.tsx:202 | the controls appear iff `showDelete` holds and the viewer wrote the post |
| PostCard.RendersImage | components/PostCard.tsx:243 | drawn as an image iff the file path contains `postImages` |
| PostCard.RendersVideo | components/PostCard.tsx:253 | drawn as a video iff the file path contains `postVideos` |
| PostCard.PostCardState.constructor | components/PostCard.tsx:65-67 | after mounting, the card's likes are the item's `postLikes` |
| PostCard.PostCardState.OnLike | components/PostCard.tsx:80-121 | a liked post sends a delete, otherwise a create; a failed call alerts and changes neither `likes` nor `posts`; a successful unlike sets `likes` to the other users' likes; a successful like appends exactly the returned like; on success the matching post in the store gets the new list |
| MessageItem.IsMine | components/MessageItem.tsx:18 | own message iff the flat `user_id` equals the signed-in user's id (never when signed out) |
| MessageItem.ShowUserInfo | components/MessageItem.tsx:19 | always true for the first message; otherwise false exactly when the previous message's nested `user.id` equals this one's |
| MessageItem.ShowsHeader | components/MessageItem.tsx:23 | a header is never drawn over one's own message, nor over a message that continues a run; the first message, and a message after a different sender, has one iff it is not one's own |
| MessageItem.Runs | components/MessageItem.tsx:19 | there are no runs iff there are no messages; every run is non-empty; the last run's sender is the last message's sender |
| MessageItem.RunsWellFormed | components/MessageItem.tsx:19 | every run is non-empty and all its messages come from its sender |
| MessageItem.RunsSendersAlternate | components/MessageItem.tsx:19 | neighbouring runs have different senders, so the runs are maximal |
| MessageItem.RunsFlatten | components/MessageItem.tsx:19 | put together, the runs are the message list |
| MessageItem.HeadersCountForeignRuns | components/MessageItem.tsx:18-23 | the number of headers in a list equals the number of runs whose first message is not one's own |
| MessageItem.HeadersCountRunsOfOthers | components/MessageItem.tsx:18-23 | when every `user_id` agrees with its `user.id`, the number of headers equals the number of runs whose sender is not the signed-in user |

## Left out

- `server/server.mjs:1-23,75-78`: environment loading, Express, CORS and `listen` are process setup. The Supabase client is replaced by the two query parameters of `SendMessage`.
- Relay.RelayServer.SendMessage: the reply's `msg` strings are left out. The reply's `data: []` on failure is the `SendFailed` case.
- Relay.RelayServer.SendMessage: the payload is always a record here. A payload that is not an object makes the field access throw, and the handler's `catch` turns that into the same failure reply. Field values are modelled as strings; a truthy non-string `type` is not modelled.
- Relay.RelayServer.SendMessage: each call runs to completion before the next event. Interleaving at the two `await`s (cross-sender ordering) is concurrency, not logic of this handler. So is socket.io's delivery of an emission to each socket.
- Relay.RelayServer.Disconnect: socket.io itself removes a disconnected socket from its rooms, and on connect it puts every socket into a room named by its own id, so that `io.to(id)` reaches it. Both are library behaviour, not code in this handler, so the model's room table has neither: a disconnected socket stays in its rooms, and neither the constructor nor `Connect` adds the per-socket room.
- The handler's return value is computed but socket.io discards it (there is no acknowledgement callback). It is modelled as the method's result all the same.
- `helpers/commons.js:5-10` (`hp`, `wp`): floating-point scaling by the device size.
- `service/imageService.ts:23-30,44-74` (`downloadFile`, `uploadImage`): file-system and storage I/O and base64 decoding. `uploadImage` is a parameter of `CreateOrUpdatePost`. The mismatch lemmas take the uploaded path to be the one `getFilePath` generated, which is the name handed to the storage.
- `service/postService.ts:33-39` (`getPosts`) and the like service calls `createPostLike`/`deletePostLike`: database wrappers. The like calls' answers are the `reply` parameter of `OnLike`.
- PostService.CreateOrUpdatePost: an upload success whose `data` is undefined is not modelled. `data` is always a path here.
- PostCard.PostCardState.OnLike: the alert's text, and the closure's capture of `likes`/`posts` at render time. Without interleaving, the captured values equal the current ones.
- PostCard: sharing, deleting, navigation, date formatting and all layout in `components/PostCard.tsx` are rendering and navigation glue. Likes entries that are `null` (the optional chaining in `liked`) are not modelled.
- `==` versus `===`: all ids compared are strings, where the two agree.
- MessageItem: rendering and navigation on press. The list comes from `app/(main)/message.tsx:106`, which passes the previous item as `prevItem`.
- Html: characters are Dafny `char`s. `<` and `>` are single UTF-16 units, so this matches JavaScript's string indexing for this pattern.
- The rest of the repository (screens, stores, contexts, the socket client, the message, notification, user and auth services) is not part of this model.
