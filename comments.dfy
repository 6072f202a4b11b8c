/** The comment route (server/src/routes/comments.js): `POST /:postId`
    checks the user first, then the content, and then inserts into the comment
    table of the post store. The insert fails on a post id that is not stored,
    since every comment belongs to a post; the route answers that with 500. */
module Comments {
  import opened Common
  import JsStrings
  import opened Posts

  datatype CommentReply = Rejected(status: nat, error: string) | Posted(status: nat, comment: Comment)

  /** `!content || content.trim() === ''`: the guard refuses exactly the
      missing contents and those that are empty or only white space. */
  predicate EmptyContent(content: Option<string>)
    ensures EmptyContent(content) <==> content.None? || JsStrings.IsBlank(content.value)
  {
    assert content.Some? && content.value == "" ==> JsStrings.IsBlank(content.value);
    !Present(content) || JsStrings.Trim(content.value) == ""
  }

  /** Storing a comment stamped with the clock on a stored post keeps the
      store's invariant. */
  lemma InsertCommentKeeps(posts: seq<Post>, comments: seq<Comment>, categoryNames: set<string>, clock: nat, c: Comment)
    requires StoreInvariant(posts, comments, categoryNames, clock)
    requires c.id == clock && c.createdAt == clock
    requires exists p :: p in posts && p.id == c.postId
    ensures StoreInvariant(posts, comments + [c], categoryNames, clock + 1)
  {
  }

  /** `POST /:postId`: 401 without a user; then 400 for missing or blank
      content; then 500 when the post does not exist; otherwise exactly one
      comment is stored with the path's post id, `authorId = user.id` and the
      content as sent (not trimmed), and the answer is 201. Nothing is stored
      on any refusal. */
  method Create(store: BlogStore, user: Option<Claims>, postId: PostId, content: Option<string>)
    returns (r: CommentReply)
    requires store.Valid()
    modifies store`comments, store`clock
    ensures store.Valid()
    ensures user.None? ==> r == Rejected(401, "Authentication required")
    ensures user.Some? && EmptyContent(content) ==> r == Rejected(400, "Content cannot be empty")
    ensures user.Some? && !EmptyContent(content) && !store.HasPost(postId) ==> r == Rejected(500, "Server error")
    ensures r.Rejected? ==> store.comments == old(store.comments) && store.clock == old(store.clock)
    ensures user.Some? && !EmptyContent(content) && store.HasPost(postId) ==>
      var c := Comment(old(store.clock), postId, user.value.id, content.value, old(store.clock));
      && r == Posted(201, c)
      && store.comments == old(store.comments) + [c]
      && store.clock == old(store.clock) + 1
  {
    if user.None? {
      return Rejected(401, "Authentication required");
    }
    if !Present(content) || JsStrings.Trim(content.value) == "" {
      return Rejected(400, "Content cannot be empty");
    }
    if !store.HasPost(postId) {
      return Rejected(500, "Server error");
    }
    var c := Comment(store.clock, postId, user.value.id, content.value, store.clock);
    InsertCommentKeeps(store.posts, store.comments, store.categoryNames, store.clock, c);
    store.comments := store.comments + [c];
    store.clock := store.clock + 1;
    r := Posted(201, c);
  }
}
