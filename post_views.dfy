/** The post data as the client pages receive it, and the derivations the
    story card (client/src/components/StoryCard.jsx) and the post page
    (client/src/pages/PostDetail.jsx) share: the category badges and the
    reading time. */
module PostViews {
  import opened Common
  import JsStrings

  /** A comment as the post page holds it. */
  datatype CommentView = CommentView(id: nat, content: string, authorName: Option<string>)

  /** A post's `categories` field: an array whose entries each carry
      `c.category?.name` (`None` where that is missing), or some other value. */
  datatype Categories = NotArray | List(entries: seq<Option<string>>)

  /** A post as the pages receive it; `authorName` is `post.author?.username`. */
  datatype PostView = PostView(id: nat, title: Option<string>, content: Option<string>, imageUrl: Option<string>,
                               authorName: Option<string>, categories: Categories, comments: seq<CommentView>)

  /** `.map((c) => c.category?.name).filter(Boolean)`: the non-empty names,
      in their order. */
  function CategoryNames(entries: seq<Option<string>>): (names: seq<string>)
    ensures forall n :: n in names <==> n != "" && Some(n) in entries
    ensures |names| <= |entries|
    ensures (forall i :: 0 <= i < |entries| ==> !Present(entries[i])) ==> names == []
  {
    if entries == [] then []
    else
      var rest := CategoryNames(entries[1..]);
      assert forall e :: e in entries <==> e == entries[0] || e in entries[1..];
      if Present(entries[0]) then [entries[0].value] + rest else rest
  }

  /** The names keep their order: the names of a longer list start with the
      names of its first part. */
  lemma {:induction false} CategoryNamesAppend(xs: seq<Option<string>>, ys: seq<Option<string>>)
    ensures CategoryNames(xs + ys) == CategoryNames(xs) + CategoryNames(ys)
    decreases |xs|
  {
    if xs == [] {
      assert xs + ys == ys;
    } else {
      assert (xs + ys)[1..] == xs[1..] + ys;
      CategoryNamesAppend(xs[1..], ys);
    }
  }

  /** The badges of a card or a post page: the non-empty names when the field
      is a non-empty array, and the single badge "General" otherwise. */
  function DisplayCategories(cats: Categories): (shown: seq<string>)
    ensures cats.NotArray? || cats.entries == [] ==> shown == ["General"]
    ensures cats.List? && cats.entries != [] ==> shown == CategoryNames(cats.entries)
  {
    if cats.List? && |cats.entries| > 0 then CategoryNames(cats.entries) else ["General"]
  }

  /** The fallback badge is shown only for a missing or empty list: a
      non-empty list whose names are all empty shows no badge at all, and
      "General" otherwise appears only when the post has a category of that name. */
  lemma FallbackOnlyWhenEmpty(cats: Categories)
    ensures cats.List? && cats.entries != [] && (forall i :: 0 <= i < |cats.entries| ==> !Present(cats.entries[i]))
      ==> DisplayCategories(cats) == []
    ensures "General" in DisplayCategories(cats) ==>
      cats.NotArray? || cats.entries == [] || Some("General") in cats.entries
  {
  }

  /** `text.split(" ").length`: at least one piece, even for the empty text. */
  function Words(text: string): (n: nat)
    ensures n >= 1
    ensures n == JsStrings.Occurrences(text, ' ') + 1
  {
    JsStrings.SplitLength(text, ' ');
    |JsStrings.Split(text, ' ')|
  }

  /** `Math.ceil(words / 180)`: the fewest whole minutes at 180 words a minute. */
  function Minutes(words: nat): (m: nat)
    ensures 180 * m >= words
    ensures m > 0 ==> 180 * (m - 1) < words
  {
    (words + 179) / 180
  }
}
