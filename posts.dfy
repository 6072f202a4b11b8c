/** The post routes (server/src/routes/posts.js) over an in-memory store that
    also holds the comment table and the category names: listing with an
    optional category filter, reading one post with its comments, and
    creating a post with its category links. As in the chat server, the
    store's `createdAt` is a clock that goes up by one at every insert and the
    clock value serves as the new row's id. */
module Posts {
  import opened Common

  type PostId = nat

  datatype Post = Post(id: PostId, title: Option<string>, content: Option<string>, imageUrl: Option<string>,
                       authorId: nat, categories: seq<string>, createdAt: nat)

  datatype Comment = Comment(id: nat, postId: PostId, authorId: nat, content: string, createdAt: nat)

  /** The `categories` field of a create request: absent (`undefined` or
      `null`), an array of names, or some other value, on which `.map` throws. */
  datatype CategoryField = Absent | Names(names: seq<string>) | NotArray

  /** One `{ category: { connectOrCreate: { where: { name }, create: { name } } } }` entry. */
  datatype CategoryLink = ConnectOrCreate(name: string)

  datatype GetReply = Missing(status: nat, error: string) | Found(post: Post, comments: seq<Comment>)

  datatype CreateReply = Refused(status: nat, error: string) | Created(status: nat, post: Post)

  function PostTime(p: Post): int { p.createdAt }
  function CommentTime(c: Comment): int { c.createdAt }

  /** The list filter: no (or an empty) category keeps every post; a category
      keeps the posts that have some category of that name. */
  predicate InCategory(p: Post, category: Option<string>) {
    !Present(category) || category.value in p.categories
  }

  /** `GET /`: the filtered posts, newest first. */
  function Listing(posts: seq<Post>, category: Option<string>): (list: seq<Post>)
    ensures |list| <= |posts|
    ensures forall p :: p in list <==> p in posts && InCategory(p, category)
  {
    var kept := Filter(posts, (p: Post) => InCategory(p, category));
    assert forall p :: p in Reverse(kept) <==> p in kept by {
      forall p ensures p in Reverse(kept) <==> p in kept {
        if p in kept {
          var k :| 0 <= k < |kept| && kept[k] == p;
          assert Reverse(kept)[|kept| - 1 - k] == p;
        }
      }
    }
    Reverse(Filter(posts, (p: Post) => InCategory(p, category)))
  }

  /** On a table kept in creation order, the listing holds exactly the posts
      the filter admits, newest first. */
  lemma ListingExactAndOrdered(posts: seq<Post>, category: Option<string>)
    requires Ascending(posts, PostTime)
    ensures Descending(Listing(posts, category), PostTime)
    ensures forall p :: p in Listing(posts, category) <==> p in posts && InCategory(p, category)
  {
    var kept := Filter(posts, (p: Post) => InCategory(p, category));
    SubseqAscending(kept, posts, PostTime);
    ReverseDescending(kept, PostTime);
  }

  /** A post just created heads every listing it belongs to, and leaves the
      rest of each listing as it was. */
  lemma {:induction false} ListingAfterCreate(posts: seq<Post>, post: Post, category: Option<string>)
    ensures Listing(posts + [post], category)
         == (if InCategory(post, category) then [post] else []) + Listing(posts, category)
  {
    var f := (p: Post) => InCategory(p, category);
    FilterAppend(posts, [post], f);
    assert Filter([post], f) == if f(post) then [post] else [];
    if f(post) {
      ReverseSnoc(Filter(posts, f), post);
    } else {
      assert Filter(posts + [post], f) == Filter(posts, f);
    }
  }

  /** `categories?.map(name => ...) || []`: one link per name, in order, and
      none for an absent field. */
  function CategoryConnect(names: seq<string>): (links: seq<CategoryLink>)
    ensures |links| == |names|
  {
    seq(|names|, i requires 0 <= i < |names| => ConnectOrCreate(names[i]))
  }

  /** The category names a created post ends up linked to. */
  function Linked(links: seq<CategoryLink>): (names: seq<string>)
    ensures |names| == |links|
  {
    seq(|links|, i requires 0 <= i < |links| => links[i].name)
  }

  /** Each requested name becomes one link and the links give back exactly
      the requested names, in their order. */
  lemma ConnectRoundTrip(names: seq<string>)
    ensures Linked(CategoryConnect(names)) == names
    ensures forall i :: 0 <= i < |names| ==> CategoryConnect(names)[i] == ConnectOrCreate(names[i])
  {
  }

  /** The names a create request asks for; an absent field asks for none. */
  function Requested(field: CategoryField): (names: seq<string>)
    requires !field.NotArray?
    ensures field.Absent? ==> names == []
  {
    if field.Absent? then [] else field.names
  }

  /** Rows are kept in creation order with their clock value as id; every
      comment belongs to a stored post; every name a post is linked to is in
      the category table. */
  ghost predicate StoreInvariant(posts: seq<Post>, comments: seq<Comment>, categoryNames: set<string>, clock: nat) {
    && Ascending(posts, PostTime)
    && Ascending(comments, CommentTime)
    && (forall i :: 0 <= i < |posts| ==> posts[i].createdAt < clock && posts[i].id == posts[i].createdAt)
    && (forall i :: 0 <= i < |comments| ==> comments[i].createdAt < clock && comments[i].id == comments[i].createdAt)
    && (forall i :: 0 <= i < |comments| ==> exists p :: p in posts && p.id == comments[i].postId)
    && (forall p, n :: p in posts && n in p.categories ==> n in categoryNames)
  }

  /** Storing a post stamped with the clock, whose names all go into the
      category table, keeps the invariant. */
  lemma InsertPostKeeps(posts: seq<Post>, comments: seq<Comment>, categoryNames: set<string>, clock: nat,
                        post: Post, added: set<string>)
    requires StoreInvariant(posts, comments, categoryNames, clock)
    requires post.id == clock && post.createdAt == clock
    requires forall n :: n in post.categories ==> n in added
    ensures StoreInvariant(posts + [post], comments, categoryNames + added, clock + 1)
  {
    var all := posts + [post];
    assert forall p :: p in posts ==> p in all;
    assert forall p :: p in all ==> p in posts || p == post;
  }

  /** The store behind the post and comment routes. */
  class BlogStore {
    var posts: seq<Post>
    var comments: seq<Comment>
    var categoryNames: set<string>
    var clock: nat

    ghost predicate Valid()
      reads this
    {
      StoreInvariant(posts, comments, categoryNames, clock)
    }

    constructor ()
      ensures Valid()
      ensures posts == [] && comments == [] && categoryNames == {}
    {
      posts, comments, categoryNames, clock := [], [], {}, 0;
    }

    /** Whether a post with this id is stored. */
    predicate HasPost(id: PostId)
      reads this
    {
      exists p :: p in posts && p.id == id
    }

    /** `GET /`: the posts in the given category, or all posts, newest first. */
    method List(category: Option<string>) returns (list: seq<Post>)
      requires Valid()
      ensures list == Listing(posts, category)
      ensures Descending(list, PostTime)
      ensures forall p :: p in list <==> p in posts && InCategory(p, category)
    {
      list := Listing(posts, category);
      ListingExactAndOrdered(posts, category);
    }

    /** `GET /:id`: 404 for an unknown id; otherwise the post with exactly its
        comments, oldest first. */
    method Get(id: PostId) returns (r: GetReply)
      requires Valid()
      ensures r.Missing? <==> !HasPost(id)
      ensures r.Missing? ==> r == Missing(404, "Not found")
      ensures r.Found? ==> r.post in posts && r.post.id == id
      ensures r.Found? ==> forall c :: c in r.comments <==> c in comments && c.postId == id
      ensures r.Found? ==> Ascending(r.comments, CommentTime)
    {
      var found := FindFirst(posts, (p: Post) => p.id == id);
      if found.None? {
        return Missing(404, "Not found");
      }
      var own := Filter(comments, (c: Comment) => c.postId == id);
      SubseqAscending(own, comments, CommentTime);
      r := Found(posts[found.value], own);
    }

    /** `POST /`: 401 without a user; a `categories` value that is not an
        array makes the mapping throw, answered 500; otherwise one post is
        stored with the request's fields, `authorId = user.id` and one link
        per requested name, each name connected to or created in the
        category table, and the answer is 201. */
    method Create(user: Option<Claims>, title: Option<string>, content: Option<string>,
                  imageUrl: Option<string>, categories: CategoryField) returns (r: CreateReply)
      requires Valid()
      modifies this`posts, this`categoryNames, this`clock
      ensures Valid()
      ensures user.None? ==> r == Refused(401, "Auth required")
      ensures user.Some? && categories.NotArray? ==> r == Refused(500, "Failed to create post")
      ensures r.Refused? ==> posts == old(posts) && categoryNames == old(categoryNames) && clock == old(clock)
      ensures user.Some? && !categories.NotArray? ==>
        var names := Requested(categories);
        var post := Post(old(clock), title, content, imageUrl, user.value.id, Linked(CategoryConnect(names)), old(clock));
        && r == Created(201, post)
        && posts == old(posts) + [post]
        && categoryNames == old(categoryNames) + (set i | 0 <= i < |names| :: names[i])
        && clock == old(clock) + 1
    {
      if user.None? {
        return Refused(401, "Auth required");
      }
      if categories.NotArray? {
        return Refused(500, "Failed to create post");
      }
      var links := CategoryConnect(Requested(categories));
      var post := Post(clock, title, content, imageUrl, user.value.id, Linked(links), clock);
      ConnectRoundTrip(Requested(categories));
      var added := set i | 0 <= i < |links| :: links[i].name;
      forall n | n in post.categories ensures n in added {
        var j :| 0 <= j < |post.categories| && post.categories[j] == n;
        assert links[j].name == n;
      }
      InsertPostKeeps(posts, comments, categoryNames, clock, post, added);
      posts := posts + [post];
      categoryNames := categoryNames + added;
      clock := clock + 1;
      r := Created(201, post);
    }
  }
}
