/**
 * The like button and the media/controls conditions of components/PostCard.tsx.
 * The list updates are pure functions; `onLike` changes the card's `likes` state and
 * the shared `posts` store, so the card is a class whose method takes the outcome of
 * the like service call as a parameter.
 */
module PostCard {
  import opened Wrappers
  import opened Strings

  type UserId = string
  type PostId = string

  datatype Like = Like(id: string, userId: UserId, postId: PostId)

  /** A post as the feed store holds it; `file` is its storage path, when it has one. */
  datatype Post = Post(id: PostId, userId: UserId, body: string, file: Option<string>, postLikes: seq<Like>)

  /** The like row sent to `createPostLike` / `deletePostLike` (PostCard.tsx:81-84). */
  datatype LikeRequest = CreateLike(userId: UserId, postId: PostId) | DeleteLike(userId: UserId, postId: PostId)

  /** What the like service answers: `{ success: false }` or `{ success: true, data }`. */
  datatype LikeReply = LikeFailed | LikeSucceeded(data: Like)

  /** `likes.filter((like) => like.user_id === userId)`. */
  function LikesBy(likes: seq<Like>, userId: UserId): (r: seq<Like>)
    ensures forall i :: 0 <= i < |r| ==> r[i].userId == userId
    ensures |r| == 0 <==> forall i :: 0 <= i < |likes| ==> likes[i].userId != userId
  {
    if likes == [] then []
    else if likes[0].userId == userId then [likes[0]] + LikesBy(likes[1..], userId)
    else LikesBy(likes[1..], userId)
  }

  /** `likes.filter((like) => like.user_id !== userId)` (PostCard.tsx:87-89). */
  function LikesNotBy(likes: seq<Like>, userId: UserId): (r: seq<Like>)
    ensures forall i :: 0 <= i < |r| ==> r[i].userId != userId
    ensures forall l :: l in likes && l.userId != userId ==> l in r
    ensures IsSubsequence(r, likes)
    ensures |r| + |LikesBy(likes, userId)| == |likes|
  {
    if likes == [] then []
    else if likes[0].userId == userId then
      var r := LikesNotBy(likes[1..], userId);
      SubsequenceOfTail(r, likes);
      r
    else
      var r := [likes[0]] + LikesNotBy(likes[1..], userId);
      assert r[1..] == LikesNotBy(likes[1..], userId);
      r
  }

  /** `liked` (PostCard.tsx:163-165): the user's filter has a first element. */
  predicate Liked(likes: seq<Like>, userId: UserId) {
    LikesBy(likes, userId) != []
  }

  /** `liked` holds exactly when some like is the user's. */
  lemma LikedIff(likes: seq<Like>, userId: UserId)
    ensures Liked(likes, userId) <==> exists i :: 0 <= i < |likes| && likes[i].userId == userId
  {
  }

  /** After removing the user's likes the post is no longer liked by them, and nobody else lost a like. */
  lemma UnlikeClearsLiked(likes: seq<Like>, userId: UserId)
    ensures !Liked(LikesNotBy(likes, userId), userId)
    ensures forall l :: l in likes && l.userId != userId ==> l in LikesNotBy(likes, userId)
  {
    var r := LikesNotBy(likes, userId);
    assert forall i :: 0 <= i < |r| ==> r[i].userId != userId;
  }

  /** Appending the like the server returned makes the post liked by its author. */
  lemma {:induction false} LikeSetsLiked(likes: seq<Like>, like: Like)
    ensures Liked(likes + [like], like.userId)
    decreases |likes|
  {
    if likes != [] {
      assert (likes + [like])[1..] == likes[1..] + [like];
      LikeSetsLiked(likes[1..], like);
    }
  }

  /** Liking a post the user had not liked and then unliking it gives back the original list. */
  lemma {:induction false} LikeThenUnlikeRestores(likes: seq<Like>, like: Like)
    requires !Liked(likes, like.userId)
    ensures LikesNotBy(likes + [like], like.userId) == likes
    decreases |likes|
  {
    if likes == [] {
      assert [] + [like] == [like];
    } else {
      assert likes[0].userId != like.userId;
      assert (likes + [like])[1..] == likes[1..] + [like];
      assert !Liked(likes[1..], like.userId);
      LikeThenUnlikeRestores(likes[1..], like);
      assert [likes[0]] + likes[1..] == likes;
    }
  }

  /**
   * `posts.map((post) => post.id == id ? { ...post, postLikes } : post)`
   * (PostCard.tsx:97-101, 112-118).
   */
  function ReplacePostLikes(posts: seq<Post>, id: PostId, postLikes: seq<Like>): (r: seq<Post>)
    ensures |r| == |posts|
    ensures forall i :: 0 <= i < |posts| ==>
      r[i] == if posts[i].id == id then posts[i].(postLikes := postLikes) else posts[i]
  {
    if posts == [] then []
    else
      var head := if posts[0].id == id then posts[0].(postLikes := postLikes) else posts[0];
      [head] + ReplacePostLikes(posts[1..], id, postLikes)
  }

  /** Replacing a post's likes twice keeps only the second list. */
  lemma ReplacePostLikesTwice(posts: seq<Post>, id: PostId, first: seq<Like>, second: seq<Like>)
    ensures ReplacePostLikes(ReplacePostLikes(posts, id, first), id, second) == ReplacePostLikes(posts, id, second)
  {
  }

  /** Edit and delete controls (PostCard.tsx:202): only with `showDelete` and only on the viewer's own post. */
  predicate ShowsEditControls(showDelete: bool, viewer: UserId, post: Post)
    ensures ShowsEditControls(showDelete, viewer, post) ==> showDelete && post.userId == viewer
    ensures showDelete && post.userId == viewer ==> ShowsEditControls(showDelete, viewer, post)
  {
    showDelete && viewer == post.userId
  }

  /** The image branch (PostCard.tsx:243): a non-empty file path that contains `postImages`. */
  predicate RendersImage(file: Option<string>)
    ensures RendersImage(file) <==> file.Some? && Contains(file.value, "postImages")
  {
    file.Some? && file.value != "" && Contains(file.value, "postImages")
  }

  /** The video branch (PostCard.tsx:253): a non-empty file path that contains `postVideos`. */
  predicate RendersVideo(file: Option<string>)
    ensures RendersVideo(file) <==> file.Some? && Contains(file.value, "postVideos")
  {
    file.Some? && file.value != "" && Contains(file.value, "postVideos")
  }

  /** The state of one rendered card: its own `likes` and the shared `posts` store. */
  class PostCardState {
    const item: Post
    const currentUser: UserId
    var likes: seq<Like>
    var posts: seq<Post>

    /** Mounting: `likes` starts empty and the effect at PostCard.tsx:65-67 copies `item.postLikes` into it. */
    constructor (item: Post, currentUser: UserId, posts: seq<Post>)
      ensures this.item == item && this.currentUser == currentUser
      ensures likes == item.postLikes && this.posts == posts
    {
      this.item := item;
      this.currentUser := currentUser;
      this.likes := item.postLikes;
      this.posts := posts;
    }

    /** The heart is filled (PostCard.tsx:163-165, 271). */
    predicate IsLiked()
      reads this
    {
      Liked(likes, currentUser)
    }

    /**
     * `onLike` (PostCard.tsx:80-121): a liked post sends a delete, otherwise a create;
     * on failure an alert is shown and nothing changes; on success `likes` and the
     * matching post in `posts` get the new list.
     */
    method OnLike(reply: LikeReply) returns (request: LikeRequest, alerted: bool)
      modifies this
      ensures request == if old(IsLiked()) then DeleteLike(currentUser, item.id) else CreateLike(currentUser, item.id)
      ensures alerted <==> reply.LikeFailed?
      ensures reply.LikeFailed? ==> likes == old(likes) && posts == old(posts)
      ensures reply.LikeSucceeded? && old(IsLiked()) ==> likes == LikesNotBy(old(likes), currentUser)
      ensures reply.LikeSucceeded? && !old(IsLiked()) ==> likes == old(likes) + [reply.data]
      ensures reply.LikeSucceeded? ==> posts == ReplacePostLikes(old(posts), item.id, likes)
    {
      if IsLiked() {
        var updatedLikes := LikesNotBy(likes, currentUser);
        request := DeleteLike(currentUser, item.id);
        if reply.LikeFailed? {
          alerted := true;
        } else {
          alerted := false;
          likes := updatedLikes;
          posts := ReplacePostLikes(posts, item.id, updatedLikes);
        }
      } else {
        request := CreateLike(currentUser, item.id);
        if reply.LikeFailed? {
          alerted := true;
        } else {
          alerted := false;
          var newLikes := likes + [reply.data];
          likes := newLikes;
          posts := ReplacePostLikes(posts, item.id, newLikes);
        }
      }
    }
  }

  /** A successful toggle leaves the card's `likes` and its post in the store in agreement. */
  lemma StoreMatchesCard(posts: seq<Post>, id: PostId, likes: seq<Like>, i: nat)
    requires i < |posts| && posts[i].id == id
    ensures ReplacePostLikes(posts, id, likes)[i].postLikes == likes
    ensures ReplacePostLikes(posts, id, likes)[i].(postLikes := posts[i].postLikes) == posts[i]
  {
  }
}
