/** The story card (client/src/components/StoryCard.jsx): the values it
    derives from one post of the feed. The date line is left out. */
module StoryCard {
  import opened Common
  import JsStrings
  import opened PostViews

  const DefaultImage: string := "https://source.unsplash.com/600x400/?nature,light"

  datatype Card = Card(username: string, title: string, content: string, image: string,
                       categories: seq<string>, readTime: nat, avatar: string)

  /** The text a field shows: the field when it is a non-empty string, else the default. */
  function OrDefault(field: Option<string>, default: string): (shown: string)
    ensures Present(field) ==> shown == field.value
    ensures !Present(field) ==> shown == default
  {
    if Present(field) then field.value else default
  }

  /** The card of a post: the author defaults to "Anonymous", the title to
      "Untitled Story", the text to "" and the picture to a stock image; the
      badges fall back to "General" only for a missing or empty list; the
      reading time counts the `" "`-separated pieces of the text, so it is at
      least one minute even for an empty text; and the avatar is the
      author's first letter in upper case. */
  function CardOf(post: PostView): (c: Card)
    ensures c.username != "" && c.title != ""
    ensures Present(post.authorName) ==> c.username == post.authorName.value
    ensures !Present(post.authorName) ==> c.username == "Anonymous"
    ensures Present(post.title) ==> c.title == post.title.value
    ensures !Present(post.title) ==> c.title == "Untitled Story"
    ensures Present(post.content) ==> c.content == post.content.value
    ensures !Present(post.content) ==> c.content == ""
    ensures Present(post.imageUrl) ==> c.image == post.imageUrl.value
    ensures !Present(post.imageUrl) ==> c.image == DefaultImage
    ensures c.categories == DisplayCategories(post.categories)
    ensures c.readTime >= 1
    ensures 180 * (c.readTime - 1) < Words(c.content) <= 180 * c.readTime
    ensures |c.avatar| == 1 && c.avatar[0] == JsStrings.UpperChar(c.username[0])
  {
    var username := OrDefault(post.authorName, "Anonymous");
    var content := OrDefault(post.content, "");
    Card(username, OrDefault(post.title, "Untitled Story"), content, OrDefault(post.imageUrl, DefaultImage),
         DisplayCategories(post.categories), Minutes(Words(content)), [JsStrings.UpperChar(username[0])])
  }

  /** A card of a post with no text reads in one minute. */
  lemma EmptyStoryReadsInOneMinute(post: PostView)
    requires !Present(post.content)
    ensures CardOf(post).readTime == 1
  {
    assert JsStrings.Occurrences("", ' ') == 0;
  }
}
