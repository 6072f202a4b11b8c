/** The feed page (client/src/pages/Feed.jsx): the post list, the category
    chips, the active category, the search box, and the posts requests the
    page issues. Each request is split at its `await`: `LoadPosts` runs before
    it and `PostsLoaded` when it settles. */
module Feed {
  import opened Common
  import JsStrings
  import opened PostViews

  /** How a fetch settled. */
  datatype Fetch<T> = Fetched(data: T) | FetchFailed

  /** The category names a newly created post brings: its non-empty names,
      or none when its `categories` is not an array. */
  function NewNames(cats: Categories): (names: seq<string>)
    ensures cats.NotArray? ==> names == []
    ensures cats.List? ==> forall n :: n in names <==> n != "" && Some(n) in cats.entries
  {
    if cats.List? then CategoryNames(cats.entries) else []
  }

  /** `Array.from(new Set([...prev, ...added]))`: each name once, at its first
      occurrence, so the old list keeps its place at the front and the new
      names follow it in the order they first occur. */
  function Merge(prev: seq<string>, added: seq<string>): (merged: seq<string>)
    ensures NoDup(merged)
    ensures forall n :: n in merged <==> n in prev || n in added
    ensures |Dedup(prev)| <= |merged| && merged[..|Dedup(prev)|] == Dedup(prev)
    ensures NoDup(prev) ==> merged == prev + Dedup(Filter(added, (n: string) => n !in prev))
  {
    var all := prev + added;
    DedupPrefix(prev, added);
    assert NoDup(prev) ==> Dedup(all) == prev + Dedup(Filter(added, (n: string) => n !in prev)) by {
      if NoDup(prev) {
        DedupAfter(prev, added);
      }
    }
    Dedup(all)
  }

  /** The search predicate for the lower-cased query `q`: the lower-cased
      title includes it, or the lower-cased text does; a missing field does
      not. A post with neither field never matches, and with an empty query
      every other post does. */
  predicate Matches(p: PostView, q: string)
    ensures Matches(p, q) ==> p.title.Some? || p.content.Some?
    ensures q == "" ==> (Matches(p, q) <==> p.title.Some? || p.content.Some?)
  {
    assert q == "" ==> (p.title.Some? ==> JsStrings.Includes(JsStrings.Lower(p.title.value), q)) by {
      if q == "" && p.title.Some? {
        JsStrings.IncludesEmpty(JsStrings.Lower(p.title.value));
      }
    }
    assert q == "" ==> (p.content.Some? ==> JsStrings.Includes(JsStrings.Lower(p.content.value), q)) by {
      if q == "" && p.content.Some? {
        JsStrings.IncludesEmpty(JsStrings.Lower(p.content.value));
      }
    }
    || (p.title.Some? && JsStrings.Includes(JsStrings.Lower(p.title.value), q))
    || (p.content.Some? && JsStrings.Includes(JsStrings.Lower(p.content.value), q))
  }

  /** `filteredPosts`: the posts the search matches, in their order; a posts
      value that is not an array shows nothing. */
  function Visible(posts: Option<seq<PostView>>, search: string): (shown: seq<PostView>)
    ensures posts.None? ==> shown == []
    ensures posts.Some? ==> IsSubseq(shown, posts.value)
    ensures posts.Some? ==> forall p :: p in shown <==> p in posts.value && Matches(p, JsStrings.Lower(search))
  {
    if posts.None? then [] else Filter(posts.value, (p: PostView) => Matches(p, JsStrings.Lower(search)))
  }

  /** A matching post is shown as many times as the list holds it, and a
      post that does not match is not shown at all. */
  lemma VisibleCount(posts: seq<PostView>, search: string, p: PostView)
    ensures multiset(Visible(Some(posts), search))[p]
         == if Matches(p, JsStrings.Lower(search)) then multiset(posts)[p] else 0
  {
    FilterCount(posts, (q: PostView) => Matches(q, JsStrings.Lower(search)), p);
  }

  /** The search ignores the case of the query. */
  lemma SearchIgnoresCase(posts: Option<seq<PostView>>, search: string)
    ensures Visible(posts, JsStrings.Lower(search)) == Visible(posts, search)
  {
    JsStrings.LowerIdempotent(search);
  }

  /** An empty search keeps exactly the posts that have a title or a text. */
  lemma EmptySearch(posts: seq<PostView>)
    ensures forall p :: p in Visible(Some(posts), "") <==> p in posts && (p.title.Some? || p.content.Some?)
  {
    forall p: PostView ensures Matches(p, "") <==> p.title.Some? || p.content.Some? {
      assert JsStrings.Lower("") == "";
    }
  }

  /** The chip click's `cat === activeCategory ? null : cat`. */
  function ChipTarget(active: Option<string>, cat: string): (next: Option<string>)
    ensures active == Some(cat) <==> next.None?
    ensures next.Some? ==> next.value == cat
  {
    if active == Some(cat) then None else Some(cat)
  }

  /** Clicking the same chip twice from no selection comes back to no selection. */
  lemma ChipTwice(cat: string)
    ensures ChipTarget(ChipTarget(None, cat), cat) == None
  {
  }

  /** The query of a posts request: `category ? { category } : {}`. */
  function RequestParam(category: Option<string>): (param: Option<string>)
    ensures param.Some? <==> Present(category)
    ensures param.Some? ==> param == category
  {
    if Present(category) then category else None
  }

  class FeedPage {
    /** `None` when the last fetched value was not an array. */
    var posts: Option<seq<PostView>>
    var categories: seq<string>
    var activeCategory: Option<string>
    var loading: bool
    var search: string
    /** The `category` query of every posts request issued so far. */
    var requests: seq<Option<string>>

    constructor ()
      ensures posts == Some([]) && categories == [] && activeCategory == None
      ensures loading && search == "" && requests == []
    {
      posts, categories, activeCategory, loading, search, requests := Some([]), [], None, true, "", [];
    }

    /** What the page shows below the sidebar. */
    function Shown(): (shown: seq<PostView>)
      reads this
      ensures posts.None? ==> shown == []
      ensures posts.Some? ==> IsSubseq(shown, posts.value)
      ensures posts.Some? ==> forall p :: p in shown <==> p in posts.value && Matches(p, JsStrings.Lower(search))
    {
      Visible(posts, search)
    }

    /** `loadPosts(category)` up to the fetch. */
    method LoadPosts(category: Option<string>)
      modifies this`loading, this`requests
      ensures loading
      ensures requests == old(requests) + [RequestParam(category)]
    {
      loading := true;
      requests := requests + [RequestParam(category)];
    }

    /** `loadPosts` after the fetch: the list becomes what was fetched, or
        stays as it was on a failure; either way loading ends. */
    method PostsLoaded(outcome: Fetch<Option<seq<PostView>>>)
      modifies this`posts, this`loading
      ensures !loading
      ensures outcome.Fetched? ==> posts == outcome.data
      ensures outcome.FetchFailed? ==> posts == old(posts)
    {
      if outcome.Fetched? {
        posts := outcome.data;
      }
      loading := false;
    }

    /** `loadCategories` after its fetch: the names, or no change on a failure. */
    method CategoriesLoaded(outcome: Fetch<seq<string>>)
      modifies this`categories
      ensures outcome.Fetched? ==> categories == outcome.data
      ensures outcome.FetchFailed? ==> categories == old(categories)
    {
      if outcome.Fetched? {
        categories := outcome.data;
      }
    }

    /** `onCreated(p)`: the new post goes first with the old ones after it in
        their order, and its names are merged into the chips. The spread
        `[p, ...prev]` needs the list to be an array. */
    method OnCreated(p: PostView)
      requires posts.Some?
      modifies this`posts, this`categories
      ensures posts == Some([p] + old(posts).value)
      ensures categories == Merge(old(categories), NewNames(p.categories))
    {
      posts := Some([p] + posts.value);
      categories := Merge(categories, NewNames(p.categories));
    }

    /** A category chip's `onClick`: the active chip is cleared, any other one
        selected, and the posts are fetched for the new choice. */
    method ClickChip(cat: string)
      modifies this`activeCategory, this`loading, this`requests
      ensures activeCategory == ChipTarget(old(activeCategory), cat)
      ensures loading && requests == old(requests) + [RequestParam(activeCategory)]
    {
      activeCategory := ChipTarget(activeCategory, cat);
      LoadPosts(activeCategory);
    }

    /** The Reset button: no category, no search, and all posts fetched. */
    method Reset()
      modifies this`activeCategory, this`search, this`loading, this`requests
      ensures activeCategory == None && search == ""
      ensures loading && requests == old(requests) + [None]
    {
      activeCategory := None;
      search := "";
      LoadPosts(None);
    }

    /** The search box's `onChange`. */
    method TypeSearch(text: string)
      modifies this`search
      ensures search == text
    {
      search := text;
    }
  }
}
