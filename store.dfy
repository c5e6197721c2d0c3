/** The three collections and every route handler, each as one atomic step on
    them. Ids the database would generate, the clock and bcrypt's salt come in
    as parameters. */
module Backend {
  import opened Common
  import opened Models
  import opened Requests
  import opened Uploads
  import Users
  import Posters

  /** A document just written, with the id it was stored under. */
  datatype Saved<T> = Saved(id: Id, doc: T)

  /** What a handler answers. */
  datatype Outcome<T> =
    | Ok(value: T)                            // 200 or 201 with the payload
    | BadRequest(missingFields: seq<string>)  // 400: required fields absent
    | MediaRequired                           // 400: a post without a file
    | Conflict(field: Users.Field)            // 400: email or username taken
    | Forbidden                               // 403: wrong username or password
    | NotFound                                // 404: the id names no document
    | ServerError                             // 500: the save failed schema validation

  /** The post order lists every post exactly once. */
  ghost predicate OrderListsPosts(postOrder: seq<Id>, posts: map<Id, Post>)
  {
    && (forall i, j :: 0 <= i < j < |postOrder| ==> postOrder[i] != postOrder[j])
    && (forall id :: id in posts <==> id in postOrder)
  }

  /** Every reference resolves; a top-level comment names the post that lists
      it, and a reply names the same post as its parent. */
  ghost predicate Threads(posts: map<Id, Post>, comments: map<Id, Comment>)
  {
    && Posters.Resolves(posts, comments)
    && (forall id :: id in comments ==> comments[id].post in posts)
    && (forall p, c :: p in posts && c in posts[p].comments ==> c in comments && comments[c].post == p)
    && (forall c, r :: c in comments && r in comments[c].replies ==>
          r in comments && comments[r].post == comments[c].post)
  }

  /** Every stored document passed its schema's `required` checks. */
  ghost predicate SchemaHolds(posts: map<Id, Post>, comments: map<Id, Comment>)
  {
    && (forall id :: id in posts ==> PostValid(posts[id]))
    && (forall id :: id in comments ==> CommentValid(comments[id]))
  }

  /** The store's invariant on the collections' values. The last part, unique
      accounts, is kept by the account handlers' checks alone. */
  ghost predicate Consistent(users: map<Id, User>, posts: map<Id, Post>, comments: map<Id, Comment>, postOrder: seq<Id>)
  {
    && OrderListsPosts(postOrder, posts)
    && Threads(posts, comments)
    && SchemaHolds(posts, comments)
    && Users.UniqueAccounts(users)
  }

  lemma ThreadsAfterPost(posts: map<Id, Post>, comments: map<Id, Comment>, newId: Id, post: Post)
    requires Threads(posts, comments) && newId !in posts && post.comments == []
    ensures Threads(posts[newId := post], comments)
  {
  }

  lemma ThreadsAfterComment(posts: map<Id, Post>, comments: map<Id, Comment>, postId: Id, newId: Id, comment: Comment)
    requires Threads(posts, comments) && postId in posts && newId !in comments
    requires comment.post == postId && comment.replies == []
    ensures var post := posts[postId];
      Threads(posts[postId := post.(comments := post.comments + [newId])], comments[newId := comment])
  {
    var post := posts[postId];
    var posts' := posts[postId := post.(comments := post.comments + [newId])];
    var comments' := comments[newId := comment];
    forall p, c | p in posts' && c in posts'[p].comments
      ensures c in comments' && comments'[c].post == p
    {
      if p == postId && c !in post.comments {
        assert c == newId;
      }
    }
  }

  lemma ThreadsAfterReply(posts: map<Id, Post>, comments: map<Id, Comment>, parentId: Id, newId: Id, reply: Comment)
    requires Threads(posts, comments) && parentId in comments && newId !in comments
    requires reply.post == comments[parentId].post && reply.replies == []
    ensures var parent := comments[parentId];
      Threads(posts, comments[newId := reply][parentId := parent.(replies := parent.replies + [newId])])
  {
    var parent := comments[parentId];
    var comments' := comments[newId := reply][parentId := parent.(replies := parent.replies + [newId])];
    forall c, r | c in comments' && r in comments'[c].replies
      ensures r in comments' && comments'[r].post == comments'[c].post
    {
      if c == parentId && r !in parent.replies {
        assert r == newId;
      }
    }
    forall c | c in comments' ensures forall r :: r in comments'[c].replies ==> r in comments' {
    }
  }

  /** Adding a user that clashes with no stored user keeps the invariant. */
  lemma ConsistentAfterRegister(users: map<Id, User>, posts: map<Id, Post>, comments: map<Id, Comment>, postOrder: seq<Id>,
                                newId: Id, user: User)
    requires Consistent(users, posts, comments, postOrder) && newId !in users
    requires forall id :: id in users ==> !Users.Clashes(users[id], user.email, user.username)
    ensures Consistent(users[newId := user], posts, comments, postOrder)
  {
  }

  /** Writing an updated user whose email and username are unchanged or free
      keeps the invariant. */
  lemma ConsistentAfterUpdate(users: map<Id, User>, posts: map<Id, Post>, comments: map<Id, Comment>, postOrder: seq<Id>,
                              id: Id, updated: User)
    requires Consistent(users, posts, comments, postOrder) && id in users
    requires updated.email == users[id].email || forall u :: u in users && u != id ==> users[u].email != updated.email
    requires updated.username == users[id].username || forall u :: u in users && u != id ==> users[u].username != updated.username
    ensures Consistent(users[id := updated], posts, comments, postOrder)
  {
    UniqueAfterUpdate(users, id, updated);
  }

  /** Storing a valid post without comments at the end of the order keeps the
      invariant. */
  lemma ConsistentAfterPost(users: map<Id, User>, posts: map<Id, Post>, comments: map<Id, Comment>, postOrder: seq<Id>,
                            newId: Id, post: Post)
    requires Consistent(users, posts, comments, postOrder) && newId !in posts
    requires post.comments == [] && PostValid(post)
    ensures Consistent(users, posts[newId := post], comments, postOrder + [newId])
  {
    ThreadsAfterPost(posts, comments, newId, post);
  }

  /** Storing a valid comment on a post and appending it to that post keeps the
      invariant. */
  lemma ConsistentAfterComment(users: map<Id, User>, posts: map<Id, Post>, comments: map<Id, Comment>, postOrder: seq<Id>,
                               postId: Id, newId: Id, comment: Comment)
    requires Consistent(users, posts, comments, postOrder)
    requires postId in posts && newId !in comments
    requires comment.post == postId && comment.replies == [] && CommentValid(comment)
    ensures var post := posts[postId];
      Consistent(users, posts[postId := post.(comments := post.comments + [newId])], comments[newId := comment], postOrder)
  {
    ThreadsAfterComment(posts, comments, postId, newId, comment);
  }

  /** A like changes a counter only, so the invariant holds. */
  lemma ConsistentAfterLikePost(users: map<Id, User>, posts: map<Id, Post>, comments: map<Id, Comment>, postOrder: seq<Id>,
                                postId: Id)
    requires Consistent(users, posts, comments, postOrder) && postId in posts
    ensures var post := posts[postId];
      Consistent(users, posts[postId := post.(likes := post.likes + 1)], comments, postOrder)
  {
  }

  lemma ConsistentAfterLikeComment(users: map<Id, User>, posts: map<Id, Post>, comments: map<Id, Comment>, postOrder: seq<Id>,
                                   commentId: Id)
    requires Consistent(users, posts, comments, postOrder) && commentId in comments
    ensures var comment := comments[commentId];
      Consistent(users, posts, comments[commentId := comment.(likes := comment.likes + 1)], postOrder)
  {
  }

  /** Storing a valid reply and appending it to its parent keeps the invariant. */
  lemma ConsistentAfterReply(users: map<Id, User>, posts: map<Id, Post>, comments: map<Id, Comment>, postOrder: seq<Id>,
                             parentId: Id, newId: Id, reply: Comment)
    requires Consistent(users, posts, comments, postOrder)
    requires parentId in comments && newId !in comments
    requires reply.post == comments[parentId].post && reply.replies == [] && CommentValid(reply)
    ensures var parent := comments[parentId];
      Consistent(users, posts, comments[newId := reply][parentId := parent.(replies := parent.replies + [newId])], postOrder)
  {
    ThreadsAfterReply(posts, comments, parentId, newId, reply);
  }

  /** What a `findOne` on one identifying field tells the update handler:
      with unique accounts, the user it returns is someone other than `id`
      exactly when someone other than `id` holds `value`. */
  lemma LookupHitMeans(users: map<Id, User>, id: Id, value: string, hit: Option<Id>, email: bool)
    requires Users.UniqueAccounts(users)
    requires hit.Some? ==> hit.value in users && (if email then users[hit.value].email else users[hit.value].username) == value
    requires hit.None? ==> forall u :: u in users ==> (if email then users[u].email else users[u].username) != value
    ensures hit.Some? && hit.value != id <==>
      exists u :: u in users && u != id && (if email then users[u].email else users[u].username) == value
  {
    if hit.Some? && hit.value == id {
      forall u | u in users && u != id
        ensures (if email then users[u].email else users[u].username) != value
      {
        assert users[u].email != users[id].email && users[u].username != users[id].username;
      }
    }
  }

  /** Writing `updated` over user `id` keeps accounts unique when its email and
      username are either unchanged or held by no other user. */
  lemma UniqueAfterUpdate(users: map<Id, User>, id: Id, updated: User)
    requires Users.UniqueAccounts(users) && id in users
    requires updated.email == users[id].email || forall u :: u in users && u != id ==> users[u].email != updated.email
    requires updated.username == users[id].username || forall u :: u in users && u != id ==> users[u].username != updated.username
    ensures Users.UniqueAccounts(users[id := updated])
  {
  }

  class Store {
    var users: map<Id, User>
    var posts: map<Id, Post>
    var comments: map<Id, Comment>
    /** The order in which `Post.find()` hands the posts back. MongoDB
        promises no particular order without a sort; the model fixes one
        sequence holding each post once and lists in it. */
    var postOrder: seq<Id>

    ghost predicate Valid()
      reads this
    {
      Consistent(users, posts, comments, postOrder)
    }

    /** `id` names no document yet: a fresh ObjectId, which is never empty. */
    predicate Unused(id: Id)
      reads this
    {
      id != "" && id !in users && id !in posts && id !in comments
    }

    constructor ()
      ensures Valid()
      ensures users == map[] && posts == map[] && comments == map[] && postOrder == []
    {
      users, posts, comments, postOrder := map[], map[], map[], [];
    }

    /** `User.findOne(query)`: some stored user the query matches, if any. */
    method FindOne(matches: User -> bool) returns (hit: Option<Id>)
      ensures hit.Some? ==> hit.value in users && matches(users[hit.value])
      ensures hit.None? ==> forall id :: id in users ==> !matches(users[id])
    {
      if exists id :: id in users && matches(users[id]) {
        var id :| id in users && matches(users[id]);
        hit := Some(id);
      } else {
        hit := None;
      }
    }

    // -------------------------------------------------------------------------
    // Accounts

    /** POST /register. */
    method Register(body: Body, file: Option<Upload>, iso: string, salt: Salt, newId: Id)
      returns (r: Outcome<Saved<User>>)
      requires Valid() && Unused(newId)
      modifies this
      ensures Valid()
      ensures !r.Ok? ==> unchanged(this)
      ensures r.BadRequest? || r.Conflict? || r.Ok?
      ensures var missing := MissingFields(Users.REGISTER_FIELDS, body);
        (missing != [] ==> r == BadRequest(missing)) && (r.BadRequest? ==> missing != [])
      ensures MissingFields(Users.REGISTER_FIELDS, body) == [] ==>
        (r.Conflict? <==> exists id :: id in old(users) && Users.Clashes(old(users)[id], body["email"], body["username"]))
      ensures r.Conflict? ==>
        exists id :: id in users && Users.Clashes(users[id], body["email"], body["username"])
          && r.field == Users.ConflictField(users[id], body["email"], body["username"])
      ensures r.Ok? ==>
        && r.value.id == newId
        && r.value.doc == User(body["name"], UploadName(file, iso).GetOr(""), body["lastName"],
                               body["email"], body["username"], Hash(body["password"], salt))
        && users == old(users)[newId := r.value.doc]
        && posts == old(posts) && comments == old(comments) && postOrder == old(postOrder)
    {
      var missing := MissingFields(Users.REGISTER_FIELDS, body);
      if missing != [] {
        return BadRequest(missing);
      }
      var user := User(body["name"], UploadName(file, iso).GetOr(""), body["lastName"],
                       body["email"], body["username"], Hash(body["password"], salt));
      r := AddUser(user, newId);
    }

    /** The part of registration after the field check: the conflict lookup on
        the new user's email and username, then the write. */
    method AddUser(user: User, newId: Id) returns (r: Outcome<Saved<User>>)
      requires Valid() && Unused(newId)
      modifies this
      ensures Valid()
      ensures !r.Ok? ==> unchanged(this)
      ensures r.Conflict? || r.Ok?
      ensures r.Conflict? <==> exists id :: id in old(users) && Users.Clashes(old(users)[id], user.email, user.username)
      ensures r.Conflict? ==>
        exists id :: id in users && Users.Clashes(users[id], user.email, user.username)
          && r.field == Users.ConflictField(users[id], user.email, user.username)
      ensures r.Ok? ==>
        && r.value == Saved(newId, user)
        && users == old(users)[newId := user]
        && posts == old(posts) && comments == old(comments) && postOrder == old(postOrder)
    {
      var clash := RegisterConflict(user.email, user.username);
      if clash.Some? {
        return Conflict(clash.value);
      }
      ConsistentAfterRegister(users, posts, comments, postOrder, newId, user);
      users := users[newId := user];
      r := Ok(Saved(newId, user));
    }

    /** The registration's lookup of a user holding the email or the username,
        and the field its message names. */
    method RegisterConflict(email: string, username: string) returns (clash: Option<Users.Field>)
      ensures clash.None? <==> forall id :: id in users ==> !Users.Clashes(users[id], email, username)
      ensures clash.Some? ==>
        exists id :: id in users && Users.Clashes(users[id], email, username)
          && clash.value == Users.ConflictField(users[id], email, username)
    {
      var found := FindOne(u => Users.Clashes(u, email, username));
      if found.Some? {
        return Some(Users.ConflictField(users[found.value], email, username));
      }
      return None;
    }

    /** PUT /update/:id. `emailHitIfAbsent` and `usernameHitIfAbsent` stand for
        what the database returns when the body has no email (no username) and
        the handler still queries with that undefined value. */
    method Update(id: Id, body: Body, file: Option<Upload>, iso: string, salt: Salt,
                  emailHitIfAbsent: Option<Id>, usernameHitIfAbsent: Option<Id>)
      returns (r: Outcome<User>)
      requires Valid()
      requires emailHitIfAbsent.Some? ==> emailHitIfAbsent.value in users
      requires usernameHitIfAbsent.Some? ==> usernameHitIfAbsent.value in users
      modifies this
      ensures Valid()
      ensures !r.Ok? ==> unchanged(this)
      ensures r.Conflict? || r.NotFound? || r.Ok?
      ensures r == Conflict(Users.Email) <==> Users.EmailTaken(old(users), id, body, emailHitIfAbsent)
      ensures r == Conflict(Users.Username) <==>
        !Users.EmailTaken(old(users), id, body, emailHitIfAbsent)
        && Users.UsernameTaken(old(users), id, body, usernameHitIfAbsent)
      ensures r == NotFound <==>
        !Users.EmailTaken(old(users), id, body, emailHitIfAbsent)
        && !Users.UsernameTaken(old(users), id, body, usernameHitIfAbsent)
        && id !in old(users)
      ensures r.Ok? ==>
        && id in old(users)
        && r.value == Users.Apply(old(users)[id], Users.BuildPatch(body, UploadName(file, iso), salt))
        && users == old(users)[id := r.value]
        && posts == old(posts) && comments == old(comments) && postOrder == old(postOrder)
    {
      var patch := Users.BuildPatch(body, UploadName(file, iso), salt);

      var clash := UpdateConflict(id, body, emailHitIfAbsent, usernameHitIfAbsent);
      if clash.Some? {
        return Conflict(clash.value);
      }
      if id !in users {
        return NotFound;
      }
      var updated := Users.Apply(users[id], patch);
      Users.UpdateTouchesOnlyTruthyFields(users[id], body, UploadName(file, iso), salt);
      ConsistentAfterUpdate(users, posts, comments, postOrder, id, updated);
      users := users[id := updated];
      r := Ok(updated);
    }

    /** The two uniqueness checks of the update handler, email first: the
        field some other user already holds, if any. */
    method UpdateConflict(id: Id, body: Body, emailHitIfAbsent: Option<Id>, usernameHitIfAbsent: Option<Id>)
      returns (clash: Option<Users.Field>)
      requires Valid()
      requires emailHitIfAbsent.Some? ==> emailHitIfAbsent.value in users
      requires usernameHitIfAbsent.Some? ==> usernameHitIfAbsent.value in users
      ensures clash == Some(Users.Email) <==> Users.EmailTaken(users, id, body, emailHitIfAbsent)
      ensures clash == Some(Users.Username) <==>
        !Users.EmailTaken(users, id, body, emailHitIfAbsent) && Users.UsernameTaken(users, id, body, usernameHitIfAbsent)
      ensures clash == None <==>
        !Users.EmailTaken(users, id, body, emailHitIfAbsent) && !Users.UsernameTaken(users, id, body, usernameHitIfAbsent)
    {
      var emailHit := emailHitIfAbsent;
      if "email" in body {
        var email := body["email"];
        emailHit := FindOne((u: User) => u.email == email);
        LookupHitMeans(users, id, email, emailHit, true);
      }
      if emailHit.Some? && emailHit.value != id {
        return Some(Users.Email);
      }
      var usernameHit := usernameHitIfAbsent;
      if "username" in body {
        var username := body["username"];
        usernameHit := FindOne((u: User) => u.username == username);
        LookupHitMeans(users, id, username, usernameHit, false);
      }
      if usernameHit.Some? && usernameHit.value != id {
        return Some(Users.Username);
      }
      return None;
    }

    /** POST /login. Changes nothing; an unknown username and a wrong password
        get the same answer. */
    method Login(body: Body) returns (r: Outcome<Users.PublicUser>)
      requires Valid()
      ensures r.BadRequest? || r == Forbidden || r.Ok?
      ensures var missing := MissingFields(Users.LOGIN_FIELDS, body);
        (missing != [] ==> r == BadRequest(missing)) && (r.BadRequest? ==> missing != [])
      ensures MissingFields(Users.LOGIN_FIELDS, body) == [] ==>
        (r.Ok? <==> exists id :: id in users && users[id].username == body["username"]
                                  && Compare(body["password"], users[id].password))
      ensures r.Ok? ==>
        exists id :: id in users && users[id].username == body["username"]
                     && r.value == Users.WithoutPassword(id, users[id])
    {
      var missing := MissingFields(Users.LOGIN_FIELDS, body);
      if missing != [] {
        return BadRequest(missing);
      }
      var username, password := body["username"], body["password"];
      var found := FindOne((u: User) => u.username == username);
      if found.None? {
        return Forbidden;
      }
      var user := users[found.value];
      if !Compare(password, user.password) {
        assert forall id :: id in users && users[id].username == username ==> id == found.value;
        return Forbidden;
      }
      r := Ok(Users.WithoutPassword(found.value, user));
    }

    // -------------------------------------------------------------------------
    // Posts, comments, replies, likes

    /** POST /create. */
    method CreatePost(body: Body, file: Option<Upload>, iso: string, now: Time, newId: Id)
      returns (r: Outcome<Saved<Post>>)
      requires Valid() && Unused(newId)
      modifies this
      ensures Valid()
      ensures !r.Ok? ==> unchanged(this)
      ensures var missing := MissingFields(Posters.CREATE_FIELDS, body);
        missing != [] ==> r == BadRequest(missing)
      ensures MissingFields(Posters.CREATE_FIELDS, body) == [] && file.None? ==> r == MediaRequired
      ensures MissingFields(Posters.CREATE_FIELDS, body) == [] && file.Some? ==>
        var post := NewPost(body["userOwn"], body["description"], StoredName(iso, file.value.originalName),
                            MediaTypeOf(file.value.mimeType), now);
        && (r.Ok? <==> PostValid(post))
        && (!r.Ok? ==> r == ServerError)
        && (r.Ok? ==>
              && r.value == Saved(newId, post)
              && posts == old(posts)[newId := post]
              && postOrder == old(postOrder) + [newId]
              && users == old(users) && comments == old(comments))
    {
      var missing := MissingFields(Posters.CREATE_FIELDS, body);
      if missing != [] {
        return BadRequest(missing);
      }
      var userOwn, description := body["userOwn"], body["description"];
      if file.None? {
        return MediaRequired;
      }
      var media := StoredName(iso, file.value.originalName);
      var mediaType := MediaTypeOf(file.value.mimeType);
      var post := NewPost(userOwn, description, media, mediaType, now);
      if !PostValid(post) {
        return ServerError;
      }
      ConsistentAfterPost(users, posts, comments, postOrder, newId, post);
      posts := posts[newId := post];
      postOrder := postOrder + [newId];
      r := Ok(Saved(newId, post));
    }

    /** POST /comment/:postId. */
    method AddComment(postId: Id, body: Body, now: Time, newId: Id) returns (r: Outcome<Saved<Comment>>)
      requires Valid() && Unused(newId)
      modifies this
      ensures Valid()
      ensures !r.Ok? ==> unchanged(this)
      ensures var missing := MissingFields(Posters.COMMENT_FIELDS, body);
        missing != [] ==> r == BadRequest(missing)
      ensures MissingFields(Posters.COMMENT_FIELDS, body) == [] && postId !in old(posts) ==> r == NotFound
      ensures MissingFields(Posters.COMMENT_FIELDS, body) == [] && postId in old(posts) ==>
        var comment := NewComment(postId, body["user"], body["text"], now);
        var post := old(posts)[postId];
        && (r.Ok? <==> CommentValid(comment))
        && (!r.Ok? ==> r == ServerError)
        && (r.Ok? ==>
              && r.value == Saved(newId, comment)
              && comments == old(comments)[newId := comment]
              && posts == old(posts)[postId := post.(comments := post.comments + [newId])]
              && users == old(users) && postOrder == old(postOrder))
    {
      var missing := MissingFields(Posters.COMMENT_FIELDS, body);
      if missing != [] {
        return BadRequest(missing);
      }
      var user, text := body["user"], body["text"];
      if postId !in posts {
        return NotFound;
      }
      var post := posts[postId];
      var comment := NewComment(postId, user, text, now);
      if !CommentValid(comment) {
        return ServerError;
      }
      ConsistentAfterComment(users, posts, comments, postOrder, postId, newId, comment);
      comments := comments[newId := comment];
      posts := posts[postId := post.(comments := post.comments + [newId])];
      r := Ok(Saved(newId, comment));
    }

    /** POST /comment/reply/:commentId. The reply belongs to the parent's post. */
    method AddReply(commentId: Id, body: Body, now: Time, newId: Id) returns (r: Outcome<Saved<Comment>>)
      requires Valid() && Unused(newId)
      modifies this
      ensures Valid()
      ensures !r.Ok? ==> unchanged(this)
      ensures var missing := MissingFields(Posters.COMMENT_FIELDS, body);
        missing != [] ==> r == BadRequest(missing)
      ensures MissingFields(Posters.COMMENT_FIELDS, body) == [] && commentId !in old(comments) ==> r == NotFound
      ensures MissingFields(Posters.COMMENT_FIELDS, body) == [] && commentId in old(comments) ==>
        var parent := old(comments)[commentId];
        var reply := NewComment(parent.post, body["user"], body["text"], now);
        && (r.Ok? <==> CommentValid(reply))
        && (!r.Ok? ==> r == ServerError)
        && (r.Ok? ==>
              && r.value == Saved(newId, reply)
              && comments == old(comments)[newId := reply][commentId := parent.(replies := parent.replies + [newId])]
              && posts == old(posts) && users == old(users) && postOrder == old(postOrder))
    {
      var missing := MissingFields(Posters.COMMENT_FIELDS, body);
      if missing != [] {
        return BadRequest(missing);
      }
      var user, text := body["user"], body["text"];
      if commentId !in comments {
        return NotFound;
      }
      var parent := comments[commentId];
      var reply := NewComment(parent.post, user, text, now);
      if !CommentValid(reply) {
        return ServerError;
      }
      ConsistentAfterReply(users, posts, comments, postOrder, commentId, newId, reply);
      comments := comments[newId := reply][commentId := parent.(replies := parent.replies + [newId])];
      r := Ok(Saved(newId, reply));
    }

    /** POST /like/:postId: one more like; answers the new count. */
    method LikePost(postId: Id) returns (r: Outcome<nat>)
      requires Valid()
      modifies this
      ensures Valid()
      ensures postId !in old(posts) ==> r == NotFound && unchanged(this)
      ensures postId in old(posts) ==>
        var post := old(posts)[postId];
        && r == Ok(post.likes + 1)
        && posts == old(posts)[postId := post.(likes := post.likes + 1)]
        && users == old(users) && comments == old(comments) && postOrder == old(postOrder)
    {
      if postId !in posts {
        return NotFound;
      }
      ConsistentAfterLikePost(users, posts, comments, postOrder, postId);
      var post := posts[postId];
      post := post.(likes := post.likes + 1);
      posts := posts[postId := post];
      r := Ok(post.likes);
    }

    /** POST /comment/like/:commentId: one more like on a comment or a reply. */
    method LikeComment(commentId: Id) returns (r: Outcome<nat>)
      requires Valid()
      modifies this
      ensures Valid()
      ensures commentId !in old(comments) ==> r == NotFound && unchanged(this)
      ensures commentId in old(comments) ==>
        var comment := old(comments)[commentId];
        && r == Ok(comment.likes + 1)
        && comments == old(comments)[commentId := comment.(likes := comment.likes + 1)]
        && users == old(users) && posts == old(posts) && postOrder == old(postOrder)
    {
      if commentId !in comments {
        return NotFound;
      }
      ConsistentAfterLikeComment(users, posts, comments, postOrder, commentId);
      var comment := comments[commentId];
      comment := comment.(likes := comment.likes + 1);
      comments := comments[commentId := comment];
      r := Ok(comment.likes);
    }

    // -------------------------------------------------------------------------
    // Listings

    /** GET /post/all: every post once, in the store's listing order, each with its
        comments and their replies, with all dates formatted at `now`. */
    function ListAll(now: Time): (listed: seq<Posters.PostView<Posters.DateText>>)
      reads this
      requires Valid()
      ensures forall id :: id in posts <==> exists i :: 0 <= i < |listed| && listed[i].id == id
      ensures forall i, j :: 0 <= i < j < |listed| ==> listed[i].id != listed[j].id
      ensures forall i :: 0 <= i < |listed| ==>
        && listed[i].id in posts
        && Posters.ErasePost(listed[i]) == Posters.ErasePost(Posters.PostDoc(posts, comments, listed[i].id))
        && listed[i].createdAt == Posters.FormatDate(posts[listed[i].id].createdAt, now)
        && listed[i] == Posters.ShapePost(Posters.PostDoc(posts, comments, listed[i].id), now)
    {
      Posters.AllListing(postOrder, posts, comments, now);
      Posters.ListPosts(postOrder, posts, comments, now)
    }

    /** GET /post/byUser/:userId: exactly the posts whose owner is `userId`, in
        the store's listing order, populated and formatted like `ListAll`. */
    function ListByUser(userId: Id, now: Time): (listed: seq<Posters.PostView<Posters.DateText>>)
      reads this
      requires Valid()
      ensures forall i :: 0 <= i < |listed| ==> listed[i].userOwn == userId
      ensures forall i, j :: 0 <= i < j < |listed| ==> listed[i].id != listed[j].id
      ensures forall id :: id in posts && posts[id].userOwn == userId <==>
        exists i :: 0 <= i < |listed| && listed[i].id == id
      ensures forall i :: 0 <= i < |listed| ==>
        && listed[i].id in posts
        && Posters.ErasePost(listed[i]) == Posters.ErasePost(Posters.PostDoc(posts, comments, listed[i].id))
        && listed[i].createdAt == Posters.FormatDate(posts[listed[i].id].createdAt, now)
        && listed[i] == Posters.ShapePost(Posters.PostDoc(posts, comments, listed[i].id), now)
    {
      Posters.ByUserListing(postOrder, posts, comments, userId, now);
      Posters.ListPosts(Posters.OwnedBy(postOrder, posts, userId), posts, comments, now)
    }
  }

  /** The first step of `RegisterPostCommentReply`: an account registers on
      the empty store under the id "u". */
  method OpenAccount(store: Store, iso: string)
    requires store.Valid()
    requires store.users == map[] && store.posts == map[] && store.comments == map[] && store.postOrder == []
    modifies store
    ensures store.Valid() && store.users.Keys == {"u"}
    ensures store.posts == map[] && store.comments == map[] && store.postOrder == []
  {
    var account := map["name" := "Ana", "lastName" := "Mora", "email" := "ana@example.com",
                        "username" := "ana", "password" := "secret"];
    Users.RegisterMissingInOrder(account);
    assert "name" in account && "lastName" in account && "email" in account
      && "username" in account && "password" in account;
    assert MissingFields(Users.REGISTER_FIELDS, account) == [];
    var registered := store.Register(account, None, iso, 7, "u");
    assert registered.Ok?;
  }

  /** The second step: "u" posts an image under the id "p". */
  method PostImage(store: Store, image: Upload, iso: string, now: Time)
    requires store.Valid() && store.users.Keys == {"u"}
    requires store.posts == map[] && store.comments == map[] && store.postOrder == []
    modifies store
    ensures store.Valid() && store.users.Keys == {"u"} && store.comments == map[]
    ensures store.postOrder == ["p"] && store.posts.Keys == {"p"}
    ensures store.posts["p"].userOwn == "u" && store.posts["p"].comments == []
  {
    var body := map["userOwn" := "u", "description" := "sunset"];
    Posters.CreatePostMissingInOrder(body);
    assert "userOwn" in body && "description" in body;
    assert MissingFields(Posters.CREATE_FIELDS, body) == [];
    var created := store.CreatePost(body, Some(image), iso, now, "p");
    assert created.Ok?;
  }

  /** The third step: "u" comments on "p" as "c" and replies to that comment
      as "r". */
  method CommentAndReply(store: Store, now: Time)
    requires store.Valid() && store.users.Keys == {"u"} && store.comments == map[]
    requires store.postOrder == ["p"] && store.posts.Keys == {"p"}
    requires store.posts["p"].userOwn == "u" && store.posts["p"].comments == []
    modifies store
    ensures store.Valid() && store.postOrder == ["p"]
    ensures "p" in store.posts && store.posts["p"].userOwn == "u" && store.posts["p"].comments == ["c"]
    ensures "c" in store.comments && store.comments["c"].replies == ["r"]
    ensures "r" in store.comments && store.comments["r"].post == "p"
  {
    var body := map["user" := "u", "text" := "nice"];
    Posters.CommentMissingInOrder(body);
    assert "user" in body && "text" in body;
    assert MissingFields(Posters.COMMENT_FIELDS, body) == [];
    var commented := store.AddComment("p", body, now, "c");
    assert commented.Ok?;
    var replied := store.AddReply("c", body, now, "r");
    assert replied.Ok?;
  }

  /** The end-to-end path through the handlers: a user registers, posts an
      image, comments on it and replies to the comment; that user's listing then
      shows the post with its one comment and the comment's one reply. */
  method RegisterPostCommentReply(iso: string, image: Upload, now: Time) returns (listed: seq<Posters.PostView<Posters.DateText>>)
    ensures |listed| == 1
    ensures listed[0].id == "p" && listed[0].userOwn == "u"
    ensures |listed[0].comments| == 1 && listed[0].comments[0].id == "c"
    ensures |listed[0].comments[0].replies| == 1 && listed[0].comments[0].replies[0].id == "r"
    ensures listed[0].comments[0].replies[0].post == "p"
  {
    var store := new Store();
    OpenAccount(store, iso);
    PostImage(store, image, iso, now);
    CommentAndReply(store, now);
    listed := store.ListByUser("u", now);
    Posters.OneThreadListing(store.posts, store.comments, "u", "p", "c", "r", now);
  }
}
