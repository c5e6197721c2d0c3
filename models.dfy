/** The three document shapes of the database (users, posts, comments) with
    their schema defaults and required fields. */
module Models {

  /** A document id. ObjectIds are opaque here: the database generates them and
      the handlers only compare them. */
  type Id = string

  /** A JavaScript `Date`, as milliseconds since the epoch. */
  type Time = int

  /** The random salt bcrypt draws for each hash. */
  type Salt = nat

  /** A bcrypt digest, kept abstract: it records the salt and stands for the
      one-way hash of `secret`; only `Compare` looks inside it. */
  datatype Digest = Bcrypt(salt: Salt, secret: string)

  /** `bcrypt.hash(password, salt)`. */
  function Hash(password: string, salt: Salt): (d: Digest)
    ensures d.salt == salt && Compare(password, d)
  {
    Bcrypt(salt, password)
  }

  /** A digest accepts the password it was made from and no other, whatever
      the salt. */
  lemma HashMatchesOnlyItsPassword(password: string, salt: Salt)
    ensures forall attempt :: Compare(attempt, Hash(password, salt)) <==> attempt == password
  {
  }

  /** `bcrypt.compare(attempt, digest)`: true exactly on the hashed password. */
  predicate Compare(attempt: string, d: Digest)
  {
    attempt == d.secret
  }

  /** A user document. The schema declares every field an optional String and
      nothing unique: uniqueness of email and username exists only through the
      checks the account handlers make before writing. */
  datatype User = User(
    name: string,
    profileImage: string,
    lastName: string,
    email: string,
    username: string,
    password: Digest)

  datatype MediaType = Image | Video

  /** A post document. `comments` holds the ids of its top-level comments in the
      order they were added. */
  datatype Post = Post(
    userOwn: Id,
    description: string,
    media: string,
    mediaType: MediaType,
    likes: nat,
    comments: seq<Id>,
    createdAt: Time)

  /** A comment document; a reply is a comment too, listed in its parent's
      `replies`. */
  datatype Comment = Comment(
    post: Id,
    user: Id,
    text: string,
    likes: nat,
    replies: seq<Id>,
    createdAt: Time)

  /** Mongoose's `required` check on the post schema: `userOwn` and
      `description` must be present and non-empty. */
  predicate PostValid(p: Post)
  {
    p.userOwn != "" && p.description != ""
  }

  /** Mongoose's `required` check on the comment schema: `post`, `user` and
      `text` must be present and non-empty. */
  predicate CommentValid(c: Comment)
  {
    c.post != "" && c.user != "" && c.text != ""
  }

  /** `new Post({...})`: the counter starts at zero and the comment list empty. */
  function NewPost(userOwn: Id, description: string, media: string, mediaType: MediaType, createdAt: Time): (p: Post)
    ensures p.likes == 0 && p.comments == []
    ensures p.userOwn == userOwn && p.description == description && p.createdAt == createdAt
    ensures p.media == media && p.mediaType == mediaType
    ensures PostValid(p) <==> userOwn != "" && description != ""
  {
    Post(userOwn, description, media, mediaType, 0, [], createdAt)
  }

  /** `new Comment({...})`: the counter starts at zero and the reply list empty. */
  function NewComment(post: Id, user: Id, text: string, createdAt: Time): (c: Comment)
    ensures c.likes == 0 && c.replies == []
    ensures c.post == post && c.user == user && c.text == text && c.createdAt == createdAt
    ensures CommentValid(c) <==> post != "" && user != "" && text != ""
  {
    Comment(post, user, text, 0, [], createdAt)
  }
}
