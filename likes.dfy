/** The like toggle (server/src/routes/likes.js) over an in-memory like table.
    The route sits behind the required-token middleware, so a user is always given. */
module Likes {
  import opened Common

  type PostId = nat
  type UserId = nat

  datatype Like = Like(id: nat, postId: PostId, userId: UserId)

  predicate IsPair(l: Like, postId: PostId, userId: UserId) {
    l.postId == postId && l.userId == userId
  }

  /** The (post, user) pairs that have a like. */
  function Pairs(likes: seq<Like>): set<(PostId, UserId)> {
    set l | l in likes :: (l.postId, l.userId)
  }

  /** At most one like per (post, user) pair. */
  predicate UniquePairs(likes: seq<Like>) {
    forall i, j :: 0 <= i < j < |likes| ==> (likes[i].postId, likes[i].userId) != (likes[j].postId, likes[j].userId)
  }

  /** `findFirst({ where: { postId, userId } })`. */
  function FindLike(likes: seq<Like>, postId: PostId, userId: UserId): Option<nat> {
    FindFirst(likes, (l: Like) => IsPair(l, postId, userId))
  }

  /** The table after one toggle: the found like is deleted, or a like with
      the fresh id is appended. */
  function Toggled(likes: seq<Like>, postId: PostId, userId: UserId, freshId: nat): (after: seq<Like>)
    ensures FindLike(likes, postId, userId).Some? ==>
      |after| == |likes| - 1 && forall l :: l in after ==> l in likes
    ensures FindLike(likes, postId, userId).None? ==>
      |after| == |likes| + 1 && after[..|likes|] == likes && after[|likes|] == Like(freshId, postId, userId)
    ensures forall l :: l in likes && !IsPair(l, postId, userId) ==> l in after
  {
    match FindLike(likes, postId, userId)
    case Some(i) =>
      assert forall l :: l in likes && !IsPair(l, postId, userId) ==> l in likes[..i] + likes[i + 1..] by {
        forall l | l in likes && !IsPair(l, postId, userId) ensures l in likes[..i] + likes[i + 1..] {
          DeletionKeeps(likes, i, l);
        }
      }
      likes[..i] + likes[i + 1..]
    case None => likes + [Like(freshId, postId, userId)]
  }

  /** Deleting the i-th entry keeps every value held at another index. */
  lemma DeletionKeeps(likes: seq<Like>, i: nat, l: Like)
    requires i < |likes| && l in likes && l != likes[i]
    ensures l in likes[..i] + likes[i + 1..]
  {
    var k :| 0 <= k < |likes| && likes[k] == l;
    if k < i {
      assert l == likes[..i][k];
    } else {
      assert l == likes[i + 1..][k - i - 1];
    }
  }

  lemma PairsAppend(likes: seq<Like>, l: Like)
    ensures Pairs(likes + [l]) == Pairs(likes) + {(l.postId, l.userId)}
  {
    var all := likes + [l];
    forall p | p in Pairs(all) ensures p in Pairs(likes) + {(l.postId, l.userId)} {
      var x :| x in all && (x.postId, x.userId) == p;
    }
  }

  /** Deleting the one like of a pair removes that pair and no other. */
  lemma {:induction false} PairsRemove(likes: seq<Like>, i: nat)
    requires i < |likes| && UniquePairs(likes)
    ensures Pairs(likes[..i] + likes[i + 1..]) == Pairs(likes) - {(likes[i].postId, likes[i].userId)}
    ensures UniquePairs(likes[..i] + likes[i + 1..])
  {
    var rest := likes[..i] + likes[i + 1..];
    var p := (likes[i].postId, likes[i].userId);
    assert forall k :: 0 <= k < |rest| ==> rest[k] == likes[if k < i then k else k + 1];
    forall q | q in Pairs(rest) ensures q in Pairs(likes) - {p} {
      var x :| x in rest && (x.postId, x.userId) == q;
      var k :| 0 <= k < |rest| && rest[k] == x;
    }
    forall q | q in Pairs(likes) - {p} ensures q in Pairs(rest) {
      var x :| x in likes && (x.postId, x.userId) == q;
      var k :| 0 <= k < |likes| && likes[k] == x;
      assert k != i;
      assert x == rest[if k < i then k else k - 1];
    }
  }

  /** The lookup finds a like exactly when the pair has one. */
  lemma FoundIffLiked(likes: seq<Like>, postId: PostId, userId: UserId)
    ensures (postId, userId) in Pairs(likes) <==> FindLike(likes, postId, userId).Some?
  {
    match FindLike(likes, postId, userId)
    case Some(i) =>
      assert likes[i] in likes;
    case None =>
      forall x | x in likes ensures (x.postId, x.userId) != (postId, userId) {
        var k :| 0 <= k < |likes| && likes[k] == x;
        assert !IsPair(likes[k], postId, userId);
      }
  }

  /** After a toggle, the pair has a like exactly when the toggle said
      `liked: true`; every other pair is as it was; and a table with one like
      per pair still has one like per pair. */
  lemma {:induction false} ToggleEffect(likes: seq<Like>, postId: PostId, userId: UserId, freshId: nat)
    requires UniquePairs(likes)
    ensures var after := Toggled(likes, postId, userId, freshId);
      && ((postId, userId) in Pairs(after) <==> FindLike(likes, postId, userId).None?)
      && Pairs(after) - {(postId, userId)} == Pairs(likes) - {(postId, userId)}
      && UniquePairs(after)
  {
    FoundIffLiked(likes, postId, userId);
    match FindLike(likes, postId, userId)
    case Some(i) =>
      PairsRemove(likes, i);
    case None =>
      PairsAppend(likes, Like(freshId, postId, userId));
  }

  /** Toggling twice gives back the original set of liked pairs. */
  lemma {:induction false} ToggleTwice(likes: seq<Like>, postId: PostId, userId: UserId, id1: nat, id2: nat)
    requires UniquePairs(likes)
    ensures Pairs(Toggled(Toggled(likes, postId, userId, id1), postId, userId, id2)) == Pairs(likes)
  {
    var pair := (postId, userId);
    var once := Toggled(likes, postId, userId, id1);
    var twice := Toggled(once, postId, userId, id2);
    ToggleEffect(likes, postId, userId, id1);
    ToggleEffect(once, postId, userId, id2);
    FoundIffLiked(likes, postId, userId);
    FoundIffLiked(once, postId, userId);
    assert pair in Pairs(twice) <==> pair in Pairs(likes);
    assert Pairs(twice) - {pair} == Pairs(likes) - {pair};
    SameApartFrom(Pairs(twice), Pairs(likes), pair);
  }

  /** Two sets that agree on one element and on everything else are equal. */
  lemma SameApartFrom<T>(a: set<T>, b: set<T>, x: T)
    requires x in a <==> x in b
    requires a - {x} == b - {x}
    ensures a == b
  {
    forall y ensures y in a <==> y in b {
      if y != x {
        assert y in a <==> y in a - {x};
        assert y in b <==> y in b - {x};
      }
    }
  }

  class LikeTable {
    var likes: seq<Like>
    var nextId: nat

    ghost predicate Valid()
      reads this
    {
      && UniquePairs(likes)
      && (forall i :: 0 <= i < |likes| ==> likes[i].id < nextId)
    }

    constructor ()
      ensures Valid() && likes == []
    {
      likes, nextId := [], 0;
    }

    /** `POST /:postId/toggle`: looks the pair up, then deletes the like it
        found and answers `liked: false`, or inserts one and answers `liked: true`. */
    method Toggle(postId: PostId, userId: UserId) returns (liked: bool)
      requires Valid()
      modifies this
      ensures Valid()
      ensures likes == Toggled(old(likes), postId, userId, old(nextId))
      ensures liked <==> FindLike(old(likes), postId, userId).None?
      ensures liked <==> (postId, userId) in Pairs(likes)
    {
      var i := 0;
      while i < |likes| && !IsPair(likes[i], postId, userId)
        invariant i <= |likes|
        invariant forall k :: 0 <= k < i ==> !IsPair(likes[k], postId, userId)
      {
        i := i + 1;
      }
      ToggleEffect(likes, postId, userId, nextId);
      if i < |likes| {
        assert FindLike(likes, postId, userId) == Some(i);
        likes := likes[..i] + likes[i + 1..];
        liked := false;
      } else {
        assert FindLike(likes, postId, userId) == None;
        likes := likes + [Like(nextId, postId, userId)];
        nextId := nextId + 1;
        liked := true;
      }
    }
  }
}
