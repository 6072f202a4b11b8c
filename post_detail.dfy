/** The post page (client/src/pages/PostDetail.jsx): the loaded post, the
    comment input, adding a comment, and the reading time. The badges are
    `PostViews.DisplayCategories`, shared with the story card. */
module PostDetail {
  import opened Common
  import JsStrings
  import opened PostViews

  /** The body of `POST /api/comments/:id`. */
  datatype CommentRequest = CommentRequest(postId: nat, content: string)

  /** `post.content?.split(" ").length || 0`, in whole minutes: nothing for
      a post without text, and at least one minute otherwise, the empty text
      included. */
  function ReadTime(content: Option<string>): (m: nat)
    ensures content.None? ==> m == 0
    ensures content.Some? ==> m >= 1 && 180 * (m - 1) < Words(content.value) <= 180 * m
  {
    if content.None? then Minutes(0) else Minutes(Words(content.value))
  }

  /** `{ ...post, comments: [...post.comments, data] }`. */
  function WithComment(p: PostView, c: CommentView): (q: PostView)
    ensures q.comments == p.comments + [c]
    ensures q.(comments := p.comments) == p
  {
    p.(comments := p.comments + [c])
  }

  class DetailPage {
    const id: nat
    var post: Option<PostView>
    var comment: string

    constructor (id: nat)
      ensures this.id == id && post == None && comment == ""
    {
      this.id := id;
      post, comment := None, "";
    }

    /** The mount effect's fetch resolving. */
    method Loaded(data: PostView)
      modifies this`post
      ensures post == Some(data)
    {
      post := Some(data);
    }

    /** The comment input's `onChange`. */
    method TypeComment(text: string)
      modifies this`comment
      ensures comment == text
    {
      comment := text;
    }

    /** `addComment`: a blank input sends nothing and changes nothing;
        otherwise the input is sent as it is, and when the server answers with
        the comment it goes at the end of the post's comments, every other
        field of the post stays, and the input is cleared. A failed request
        leaves the page as it was. The form exists only once the post is
        loaded. */
    method AddComment(reply: Option<CommentView>) returns (request: Option<CommentRequest>)
      requires post.Some?
      modifies this`post, this`comment
      ensures JsStrings.IsBlank(old(comment)) ==> request == None
      ensures !JsStrings.IsBlank(old(comment)) ==> request == Some(CommentRequest(id, old(comment)))
      ensures JsStrings.IsBlank(old(comment)) || reply.None? ==> post == old(post) && comment == old(comment)
      ensures !JsStrings.IsBlank(old(comment)) && reply.Some? ==>
        post == Some(WithComment(old(post).value, reply.value)) && comment == ""
    {
      if JsStrings.Trim(comment) == "" {
        return None;
      }
      request := Some(CommentRequest(id, comment));
      if reply.Some? {
        post := Some(post.value.(comments := post.value.comments + [reply.value]));
        comment := "";
      }
    }
  }
}
