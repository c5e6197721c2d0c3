/** The pure parts of the content handlers: their required-field lists, the
    date formatting and the reshaping of populated posts for the two listing
    routes. */
module Posters {
  import opened Common
  import opened Models
  import opened Requests

  const CREATE_FIELDS: seq<string> := ["userOwn", "description"]
  const COMMENT_FIELDS: seq<string> := ["user", "text"]

  /** Post creation reports the absent fields in the order userOwn, description. */
  lemma CreatePostMissingInOrder(body: Body)
    ensures MissingFields(CREATE_FIELDS, body) == Absent("userOwn", body) + Absent("description", body)
  {
    MissingFieldsCons("userOwn", ["description"], body);
    MissingFieldsSingle("description", body);
  }

  /** Comments and replies report the absent fields in the order user, text. */
  lemma CommentMissingInOrder(body: Body)
    ensures MissingFields(COMMENT_FIELDS, body) == Absent("user", body) + Absent("text", body)
  {
    MissingFieldsCons("user", ["text"], body);
    MissingFieldsSingle("text", body);
  }

  // ---------------------------------------------------------------------------
  // formatDate

  /** The two renderings `formatDate` chooses between: moment's relative
      `fromNow()` phrase, or the calendar form `DD [de] MMMM [de] YYYY`. The text
      itself is the date library's; only the choice is modelled. */
  datatype DateText = FromNow(date: Time, now: Time) | Calendar(date: Time)

  const HOUR_MS: int := 3_600_000

  /** `formatDate(date)` at the instant `now`: the elapsed time in hours
      (`moment.duration(now.diff(date)).asHours()`) decides the form. */
  function FormatDate(date: Time, now: Time): (text: DateText)
    ensures text.FromNow? <==> now - date < 24 * HOUR_MS
    ensures text.date == date
  {
    var hours := (now - date) as real / HOUR_MS as real;
    if hours < 24.0 then FromNow(date, now) else Calendar(date)
  }

  /** Ten minutes ago and one millisecond short of a day are relative; exactly
      one day and three days ago are calendar dates. */
  lemma FormatDateBoundary(now: Time)
    ensures FormatDate(now - 10 * 60 * 1000, now).FromNow?
    ensures FormatDate(now - 24 * HOUR_MS + 1, now).FromNow?
    ensures FormatDate(now - 24 * HOUR_MS, now).Calendar?
    ensures FormatDate(now - 3 * 24 * HOUR_MS, now).Calendar?
  {
  }

  // ---------------------------------------------------------------------------
  // Listing: populated documents and their reshaping

  /** A reply as the listing populates it: the comment document with its id;
      its own `replies` stay ids. `D` is the type of `createdAt`. */
  datatype ReplyView<D> = ReplyView(
    id: Id, post: Id, user: Id, text: string, likes: nat, replies: seq<Id>, createdAt: D)

  /** A top-level comment with its replies populated. */
  datatype CommentView<D> = CommentView(
    id: Id, post: Id, user: Id, text: string, likes: nat, replies: seq<ReplyView<D>>, createdAt: D)

  /** A post with its comments, and their replies, populated. */
  datatype PostView<D> = PostView(
    id: Id, userOwn: Id, description: string, media: string, mediaType: MediaType, likes: nat,
    comments: seq<CommentView<D>>, createdAt: D)

  /** Every id a post or a comment lists names a stored comment, so populating
      drops nothing. */
  predicate Resolves(posts: map<Id, Post>, comments: map<Id, Comment>)
  {
    && (forall p, c :: p in posts && c in posts[p].comments ==> c in comments)
    && (forall c, r :: c in comments && r in comments[c].replies ==> r in comments)
  }

  /** A reply document populated in place of its id: the stored document
      whole, which the view gives back field for field. */
  function ReplyDoc(comments: map<Id, Comment>, id: Id): (v: ReplyView<Time>)
    requires id in comments
    ensures v.id == id
    ensures Comment(v.post, v.user, v.text, v.likes, v.replies, v.createdAt) == comments[id]
  {
    var c := comments[id];
    ReplyView(id, c.post, c.user, c.text, c.likes, c.replies, c.createdAt)
  }

  /** A comment document with its replies populated, in their stored order. */
  function CommentDoc(comments: map<Id, Comment>, id: Id): (v: CommentView<Time>)
    requires id in comments
    requires forall r :: r in comments[id].replies ==> r in comments
    ensures v.id == id && v.post == comments[id].post && v.user == comments[id].user
    ensures v.text == comments[id].text && v.likes == comments[id].likes && v.createdAt == comments[id].createdAt
    ensures |v.replies| == |comments[id].replies|
    ensures forall j :: 0 <= j < |v.replies| ==> v.replies[j] == ReplyDoc(comments, comments[id].replies[j])
    ensures forall j :: 0 <= j < |v.replies| ==> v.replies[j].id == comments[id].replies[j]
  {
    var c := comments[id];
    var rs := c.replies;
    CommentView(id, c.post, c.user, c.text, c.likes,
      seq(|rs|, i requires 0 <= i < |rs| => ReplyDoc(comments, rs[i])), c.createdAt)
  }

  /** `populate('comments')` with the nested `populate('replies')`. */
  function PostDoc(posts: map<Id, Post>, comments: map<Id, Comment>, id: Id): (v: PostView<Time>)
    requires id in posts && Resolves(posts, comments)
    ensures v.id == id && v.userOwn == posts[id].userOwn && v.createdAt == posts[id].createdAt
    ensures v.description == posts[id].description && v.media == posts[id].media
    ensures v.mediaType == posts[id].mediaType && v.likes == posts[id].likes
    ensures |v.comments| == |posts[id].comments|
    ensures forall i :: 0 <= i < |v.comments| ==> v.comments[i] == CommentDoc(comments, posts[id].comments[i])
    ensures forall i :: 0 <= i < |v.comments| ==> v.comments[i].id == posts[id].comments[i]
  {
    var p := posts[id];
    var cs := p.comments;
    PostView(id, p.userOwn, p.description, p.media, p.mediaType, p.likes,
      seq(|cs|, i requires 0 <= i < |cs| => CommentDoc(comments, cs[i])), p.createdAt)
  }

  /** `{ ...reply.toObject(), createdAt: formatDate(reply.createdAt) }`. */
  function ShapeReply(r: ReplyView<Time>, now: Time): (v: ReplyView<DateText>)
    ensures EraseReply(v) == EraseReply(r)
    ensures v.createdAt == FormatDate(r.createdAt, now)
  {
    ReplyView(r.id, r.post, r.user, r.text, r.likes, r.replies, FormatDate(r.createdAt, now))
  }

  function ShapeComment(c: CommentView<Time>, now: Time): CommentView<DateText>
  {
    CommentView(c.id, c.post, c.user, c.text, c.likes,
      seq(|c.replies|, i requires 0 <= i < |c.replies| => ShapeReply(c.replies[i], now)),
      FormatDate(c.createdAt, now))
  }

  /** The reshaping both listing routes apply to each populated post. */
  function ShapePost(p: PostView<Time>, now: Time): PostView<DateText>
  {
    PostView(p.id, p.userOwn, p.description, p.media, p.mediaType, p.likes,
      seq(|p.comments| , i requires 0 <= i < |p.comments| => ShapeComment(p.comments[i], now)),
      FormatDate(p.createdAt, now))
  }

  /** A view with every `createdAt` blanked out: what two views share when they
      differ only in their dates. */
  function EraseReply<D>(r: ReplyView<D>): ReplyView<()>
  {
    ReplyView(r.id, r.post, r.user, r.text, r.likes, r.replies, ())
  }

  function EraseComment<D>(c: CommentView<D>): CommentView<()>
  {
    CommentView(c.id, c.post, c.user, c.text, c.likes,
      seq(|c.replies|, i requires 0 <= i < |c.replies| => EraseReply(c.replies[i])), ())
  }

  function ErasePost<D>(p: PostView<D>): PostView<()>
  {
    PostView(p.id, p.userOwn, p.description, p.media, p.mediaType, p.likes,
      seq(|p.comments|, i requires 0 <= i < |p.comments| => EraseComment(p.comments[i])), ())
  }

  lemma ShapeCommentKeepsFields(c: CommentView<Time>, now: Time)
    ensures EraseComment(ShapeComment(c, now)) == EraseComment(c)
  {
    var s := ShapeComment(c, now);
    assert |s.replies| == |c.replies|;
    forall i | 0 <= i < |c.replies|
      ensures EraseReply(s.replies[i]) == EraseReply(c.replies[i])
    {
    }
    assert EraseComment(s).replies == EraseComment(c).replies;
  }

  /** The reshaping changes nothing but dates: the post keeps every other field,
      the number and order of its comments, and of each comment's replies, and
      every field of each of them except `createdAt`. */
  lemma ShapePostKeepsFields(p: PostView<Time>, now: Time)
    ensures ErasePost(ShapePost(p, now)) == ErasePost(p)
  {
    var s := ShapePost(p, now);
    forall i | 0 <= i < |p.comments|
      ensures EraseComment(s.comments[i]) == EraseComment(p.comments[i])
    {
      ShapeCommentKeepsFields(p.comments[i], now);
    }
    assert ErasePost(s).comments == ErasePost(p).comments;
  }

  /** ... and every `createdAt`, at all three levels, is the formatted date. */
  lemma ShapePostFormatsDates(p: PostView<Time>, now: Time)
    ensures var s := ShapePost(p, now);
      && s.createdAt == FormatDate(p.createdAt, now)
      && |s.comments| == |p.comments|
      && forall i :: 0 <= i < |p.comments| ==>
           && s.comments[i].createdAt == FormatDate(p.comments[i].createdAt, now)
           && |s.comments[i].replies| == |p.comments[i].replies|
           && forall j :: 0 <= j < |p.comments[i].replies| ==>
                s.comments[i].replies[j].createdAt == FormatDate(p.comments[i].replies[j].createdAt, now)
  {
  }

  /** `Post.find({ userOwn: userId })`: the posts of one owner, in the
      collection's order. */
  function OwnedBy(order: seq<Id>, posts: map<Id, Post>, userId: Id): (mine: seq<Id>)
    ensures forall id :: id in mine <==> id in order && id in posts && posts[id].userOwn == userId
  {
    Filter(order, id => id in posts && posts[id].userOwn == userId)
  }

  /** The listing of the posts `order` names, populated and reshaped. */
  function ListPosts(order: seq<Id>, posts: map<Id, Post>, comments: map<Id, Comment>, now: Time)
    : (listed: seq<PostView<DateText>>)
    requires Resolves(posts, comments)
    requires forall id :: id in order ==> id in posts
    ensures |listed| == |order|
    ensures forall i :: 0 <= i < |order| ==> listed[i] == ShapePost(PostDoc(posts, comments, order[i]), now)
    ensures forall i :: 0 <= i < |order| ==>
      && listed[i].id == order[i]
      && ErasePost(listed[i]) == ErasePost(PostDoc(posts, comments, order[i]))
      && listed[i].createdAt == FormatDate(posts[order[i]].createdAt, now)
  {
    var listed := seq(|order|, i requires 0 <= i < |order| => ShapePost(PostDoc(posts, comments, order[i]), now));
    assert forall i :: 0 <= i < |order| ==> ErasePost(listed[i]) == ErasePost(PostDoc(posts, comments, order[i])) by {
      forall i | 0 <= i < |order|
        ensures ErasePost(listed[i]) == ErasePost(PostDoc(posts, comments, order[i]))
      {
        ShapePostKeepsFields(PostDoc(posts, comments, order[i]), now);
      }
    }
    listed
  }

  /** Listing the posts `OwnedBy` picks shows only that owner's posts. */
  lemma OwnedListingOwners(order: seq<Id>, posts: map<Id, Post>, comments: map<Id, Comment>, userId: Id, now: Time)
    requires Resolves(posts, comments)
    ensures forall id :: id in OwnedBy(order, posts, userId) ==> id in posts
    ensures var listed := ListPosts(OwnedBy(order, posts, userId), posts, comments, now);
      forall i :: 0 <= i < |listed| ==> listed[i].userOwn == userId
  {
    var mine := OwnedBy(order, posts, userId);
    var listed := ListPosts(mine, posts, comments, now);
    forall i | 0 <= i < |listed| ensures listed[i].userOwn == userId {
      assert mine[i] in mine;
      assert ErasePost(listed[i]).userOwn == ErasePost(PostDoc(posts, comments, mine[i])).userOwn;
    }
  }

  /** Listing a collection in an order that names each post exactly once shows
      every post exactly once, each populated and with only its dates formatted. */
  lemma AllListing(order: seq<Id>, posts: map<Id, Post>, comments: map<Id, Comment>, now: Time)
    requires Resolves(posts, comments)
    requires forall id :: id in posts <==> id in order
    requires forall i, j :: 0 <= i < j < |order| ==> order[i] != order[j]
    ensures var listed := ListPosts(order, posts, comments, now);
      && (forall id :: id in posts <==> exists i :: 0 <= i < |listed| && listed[i].id == id)
      && (forall i, j :: 0 <= i < j < |listed| ==> listed[i].id != listed[j].id)
  {
    var listed := ListPosts(order, posts, comments, now);
    forall id | id in posts ensures exists i :: 0 <= i < |listed| && listed[i].id == id {
      var i :| 0 <= i < |order| && order[i] == id;
      assert listed[i].id == id;
    }
  }

  /** The by-user listing over such an order shows exactly the posts of that
      owner. */
  lemma ByUserListing(order: seq<Id>, posts: map<Id, Post>, comments: map<Id, Comment>, userId: Id, now: Time)
    requires Resolves(posts, comments)
    requires forall id :: id in posts <==> id in order
    requires Distinct(order)
    ensures forall id :: id in OwnedBy(order, posts, userId) ==> id in posts
    ensures var listed := ListPosts(OwnedBy(order, posts, userId), posts, comments, now);
      && (forall i :: 0 <= i < |listed| ==> listed[i].userOwn == userId)
      && (forall i, j :: 0 <= i < j < |listed| ==> listed[i].id != listed[j].id)
      && (forall id :: id in posts && posts[id].userOwn == userId <==>
            exists i :: 0 <= i < |listed| && listed[i].id == id)
  {
    var mine := OwnedBy(order, posts, userId);
    OwnedListingOwners(order, posts, comments, userId, now);
    FilterDistinct(order, id => id in posts && posts[id].userOwn == userId);
    var listed := ListPosts(mine, posts, comments, now);
    forall id | id in posts && posts[id].userOwn == userId
      ensures exists i :: 0 <= i < |listed| && listed[i].id == id
    {
      var i :| 0 <= i < |mine| && mine[i] == id;
      assert listed[i].id == id;
    }
  }

  /** A one-post collection whose post has one comment with one reply lists, for
      the post's owner, that post with that comment and that reply. */
  lemma {:induction false} OneThreadListing(posts: map<Id, Post>, comments: map<Id, Comment>,
                                            userId: Id, postId: Id, commentId: Id, replyId: Id, now: Time)
    requires Resolves(posts, comments)
    requires postId in posts && posts[postId].userOwn == userId && posts[postId].comments == [commentId]
    requires commentId in comments && comments[commentId].replies == [replyId]
    requires replyId in comments && comments[replyId].post == postId
    ensures var listed := ListPosts(OwnedBy([postId], posts, userId), posts, comments, now);
      && |listed| == 1 && listed[0].id == postId && listed[0].userOwn == userId
      && |listed[0].comments| == 1 && listed[0].comments[0].id == commentId
      && |listed[0].comments[0].replies| == 1 && listed[0].comments[0].replies[0].id == replyId
      && listed[0].comments[0].replies[0].post == postId
  {
    var keep := id => id in posts && posts[id].userOwn == userId;
    assert OwnedBy([postId], posts, userId) == [postId] by {
      FilterKeepsAll([postId], keep);
    }
    var listed := ListPosts([postId], posts, comments, now);
    var doc := PostDoc(posts, comments, postId);
    assert ErasePost(listed[0]) == ErasePost(doc);
    assert ErasePost(listed[0]).comments[0] == EraseComment(doc.comments[0]);
    assert EraseComment(doc.comments[0]).replies[0] == EraseReply(doc.comments[0].replies[0]);
  }
}
