/** Runs of the story pages against the post store, with each request handed
    to its route at once and its answer handed back. */
module PostScenarios {
  import opened Common
  import JsStrings
  import opened PostViews
  import opened Posts
  import Comments
  import StoryForm
  import StoryCard
  import Feed
  import PostDetail

  /** A created post as its 201 answer shows it: the categories are included,
      the author is not. */
  function CreatedView(p: Post): (v: PostView)
    ensures v.id == p.id && v.title == p.title && v.content == p.content && v.imageUrl == p.imageUrl
    ensures v.authorName == None && v.comments == []
    ensures v.categories.List? && |v.categories.entries| == |p.categories|
    ensures forall i :: 0 <= i < |p.categories| ==> v.categories.entries[i] == Some(p.categories[i])
  {
    PostView(p.id, p.title, p.content, p.imageUrl, None,
             List(seq(|p.categories|, i requires 0 <= i < |p.categories| => Some(p.categories[i]))), [])
  }

  /** Publishing from the story form: the store gains one post by the user
      with the form's title, text and chosen names; the form is no longer busy
      and shows no error; the feed shows the post first, its card signed
      "Anonymous" because the answer carries no author until the feed is
      fetched again; and every non-empty chosen name becomes a chip. */
  method PublishToFeed(store: BlogStore, form: StoryForm.FormState, feed: Feed.FeedPage, user: Claims)
    requires store.Valid() && feed.posts.Some?
    modifies store, form, feed
    ensures store.Valid()
    ensures |store.posts| == |old(store.posts)| + 1
    ensures var p := store.posts[|store.posts| - 1];
      p.authorId == user.id && p.title == Some(old(form.title)) && p.content == Some(old(form.content))
      && p.categories == old(form.selected)
    ensures !form.busy && form.err == ""
    ensures feed.posts.Some? && |feed.posts.value| == |old(feed.posts.value)| + 1
    ensures feed.posts.value[1..] == old(feed.posts.value)
    ensures feed.posts.value[0].title == Some(old(form.title))
    ensures StoryCard.CardOf(feed.posts.value[0]).username == "Anonymous"
    ensures forall n :: n in old(form.selected) && n != "" ==> n in feed.categories
  {
    var body := form.BeginSubmit();
    var r := store.Create(Some(user), Some(body.title), Some(body.content), None, Names(body.categories));
    ConnectRoundTrip(body.categories);
    var view := CreatedView(r.post);
    var created := form.FinishSubmit(StoryForm.Published(view));
    feed.OnCreated(created.value);
    forall n | n in body.categories && n != "" ensures n in feed.categories {
      var i :| 0 <= i < |body.categories| && body.categories[i] == n;
      assert view.categories.entries[i] == Some(n);
    }
  }

  /** Commenting from the post page: a non-blank input reaches the route as
      typed, the store keeps it untrimmed under the page's post, and the page
      shows the answer at the end of the post's comments and clears the input. */
  method CommentFromPage(store: BlogStore, page: PostDetail.DetailPage, user: Claims, text: string)
    requires store.Valid() && page.post.Some? && store.HasPost(page.id)
    requires !JsStrings.IsBlank(text)
    modifies store, page
    ensures store.Valid()
    ensures |store.comments| == |old(store.comments)| + 1
    ensures var c := store.comments[|store.comments| - 1];
      c.postId == page.id && c.authorId == user.id && c.content == text
    ensures page.comment == ""
    ensures page.post.Some? && |page.post.value.comments| == |old(page.post.value.comments)| + 1
    ensures page.post.value.comments[|page.post.value.comments| - 1].content == text
  {
    page.TypeComment(text);
    var r := Comments.Create(store, Some(user), page.id, Some(text));
    var shown := CommentView(r.comment.id, r.comment.content, Some(user.username));
    var request := page.AddComment(Some(shown));
  }
}
