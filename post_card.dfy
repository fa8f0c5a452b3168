/**
 * `PostCard`: the like button, a two-state toggle with a counter that the
 * card flips whatever the write reports, and deletion of one's own post.
 */
module PostCard {
  import opened Common
  import opened Tables

  /** The card's like state: the `likes` counter and `isLiked`. */
  datatype LikeState = LikeState(likes: int, isLiked: bool)

  /** One `handleLike` on the card: unliking takes one off, liking adds one, and the flag flips. */
  function Toggled(s: LikeState): (r: LikeState)
    ensures r.isLiked == !s.isLiked
    ensures r.likes - s.likes == if s.isLiked then -1 else 1
  {
    if s.isLiked then LikeState(s.likes - 1, false) else LikeState(s.likes + 1, true)
  }

  /** Liking then unliking (or the reverse) restores the counter and the flag. */
  lemma ToggleTwice(s: LikeState)
    ensures Toggled(Toggled(s)) == s
  {
  }

  /** The card starts at zero, unliked; from there the counter is 1 exactly when liked. */
  predicate FromZero(s: LikeState)
  {
    s.likes == if s.isLiked then 1 else 0
  }

  lemma ToggleKeepsFromZero(s: LikeState)
    requires FromZero(s)
    ensures FromZero(Toggled(s))
  {
  }

  /** Deleting the like just inserted gives the table back, when the user had not liked the post before. */
  lemma {:induction false} UnlikeUndoesLike(likes: seq<Like>, postId: Id, userId: Id)
    requires Like(postId, userId) !in likes
    ensures WithoutLike(likes + [Like(postId, userId)], postId, userId) == likes
  {
    var x := Like(postId, userId);
    if likes == [] {
      assert likes + [x] == [x];
    } else {
      assert (likes + [x])[0] == likes[0];
      assert (likes + [x])[1..] == likes[1..] + [x];
      UnlikeUndoesLike(likes[1..], postId, userId);
      assert likes == [likes[0]] + likes[1..];
    }
  }

  class PostCard {
    const post: Post
    var likes: int
    var isLiked: bool
    var showMenu: bool

    constructor (post: Post)
      ensures this.post == post && State() == LikeState(0, false) && !showMenu && FromZero(State())
    {
      this.post := post;
      likes, isLiked, showMenu := 0, false, false;
    }

    function State(): LikeState
      reads this
    {
      LikeState(likes, isLiked)
    }

    /**
     * `handleLike`: nothing without a user. Otherwise the like is deleted
     * when the card shows it liked and inserted when not; the result of the
     * write is not inspected (`writeFails` only decides whether the table
     * changed), and the card toggles either way.
     */
    method HandleLike(db: Store, user: Option<Account>, writeFails: bool)
      modifies db`likes, this`likes, this`isLiked
      ensures user.None? ==> db.likes == old(db.likes) && State() == old(State())
      ensures user.Some? ==> State() == Toggled(old(State()))
      ensures user.Some? && !writeFails ==>
        db.likes == if old(isLiked) then WithoutLike(old(db.likes), post.id, user.value.id)
                    else old(db.likes) + [Like(post.id, user.value.id)]
      ensures writeFails ==> db.likes == old(db.likes)
      ensures old(FromZero(State())) ==> FromZero(State())
    {
      if user.None? {
        return;
      }
      if isLiked {
        if !writeFails {
          db.likes := WithoutLike(db.likes, post.id, user.value.id);
        }
        likes := likes - 1;
      } else {
        if !writeFails {
          db.likes := db.likes + [Like(post.id, user.value.id)];
        }
        likes := likes + 1;
      }
      isLiked := !isLiked;
    }

    /**
     * `handleDelete`: only the post's author deletes it; `deleted` is the
     * `onDelete` call, made only when the delete reports no error.
     */
    method HandleDelete(db: Store, user: Option<Account>, deleteFails: bool) returns (deleted: bool)
      modifies db`posts
      ensures user.None? || user.value.id != post.userId ==> !deleted && db.posts == old(db.posts)
      ensures user.Some? && user.value.id == post.userId ==>
        && deleted == !deleteFails
        && db.posts == if deleteFails then old(db.posts) else WithoutPost(old(db.posts), post.id)
      ensures deleted ==> forall p :: p in db.posts ==> p.id != post.id
    {
      if user.None? || user.value.id != post.userId {
        return false;
      }
      if deleteFails {
        return false;
      }
      db.posts := WithoutPost(db.posts, post.id);
      deleted := true;
    }
  }
}
