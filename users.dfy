/** The pure parts of the account handlers: the required-field lists, the
    conflict report of registration, the partial-update patch and the login
    view of a user. */
module Users {
  import opened Common
  import opened Models
  import opened Requests

  const REGISTER_FIELDS: seq<string> := ["name", "lastName", "email", "username", "password"]
  const LOGIN_FIELDS: seq<string> := ["username", "password"]

  /** Registration reports the absent fields in the order name, lastName,
      email, username, password. */
  lemma RegisterMissingInOrder(body: Body)
    ensures MissingFields(REGISTER_FIELDS, body)
         == Absent("name", body) + (Absent("lastName", body) + (Absent("email", body)
            + (Absent("username", body) + Absent("password", body))))
  {
    MissingFiveInOrder("name", "lastName", "email", "username", "password", body);
  }

  lemma MissingFiveInOrder(a: string, b: string, c: string, d: string, e: string, body: Body)
    ensures MissingFields([a, b, c, d, e], body)
         == Absent(a, body) + (Absent(b, body) + (Absent(c, body) + (Absent(d, body) + Absent(e, body))))
  {
    var r4: seq<string> := [e];
    var r3: seq<string> := [d] + r4;
    var r2: seq<string> := [c] + r3;
    var r1: seq<string> := [b] + r2;
    assert [a, b, c, d, e] == [a] + r1;
    MissingFieldsCons(a, r1, body);
    MissingFieldsCons(b, r2, body);
    MissingFieldsCons(c, r3, body);
    MissingFieldsCons(d, r4, body);
    MissingFieldsSingle(e, body);
  }

  /** Login reports the absent fields in the order username, password. */
  lemma LoginMissingInOrder(body: Body)
    ensures MissingFields(LOGIN_FIELDS, body) == Absent("username", body) + Absent("password", body)
  {
    MissingFieldsCons("username", ["password"], body);
    MissingFieldsSingle("password", body);
  }

  /** Which identifying field a registration collides on. */
  datatype Field = Email | Username

  /** A stored user that `findOne({ $or: [{ email }, { username }] })` can return. */
  predicate Clashes(u: User, email: string, username: string)
  {
    u.email == email || u.username == username
  }

  /** `user.email === email ? 'email' : 'username'`: the field named in the
      conflict message for the user the lookup returned. */
  function ConflictField(found: User, email: string, username: string): (f: Field)
    requires Clashes(found, email, username)
    ensures f == Email <==> found.email == email
    ensures f == Username ==> found.username == username
  {
    if found.email == email then Email else Username
  }

  /** No two stored users share an email or a username. The schema does not
      promise this; the handlers keep it by checking before they write. */
  ghost predicate UniqueAccounts(users: map<Id, User>)
  {
    forall u, v :: u in users && v in users && u != v ==>
      users[u].email != users[v].email && users[u].username != users[v].username
  }

  /** The outcome of the update handler's email check: with an email in the
      body, some other user holds it; without one, the lookup runs on an
      undefined value, and `hitIfAbsent` is whatever user the database driver
      returns for that query. */
  ghost predicate EmailTaken(users: map<Id, User>, id: Id, body: Body, hitIfAbsent: Option<Id>)
  {
    if "email" in body then exists u :: u in users && u != id && users[u].email == body["email"]
    else hitIfAbsent.Some? && hitIfAbsent.value != id
  }

  /** The same check on the username. */
  ghost predicate UsernameTaken(users: map<Id, User>, id: Id, body: Body, hitIfAbsent: Option<Id>)
  {
    if "username" in body then exists u :: u in users && u != id && users[u].username == body["username"]
    else hitIfAbsent.Some? && hitIfAbsent.value != id
  }

  /** `updatedData`: the fields an update sets; `None` leaves a field alone. */
  datatype Patch = Patch(
    name: Option<string>,
    lastName: Option<string>,
    email: Option<string>,
    username: Option<string>,
    password: Option<Digest>,
    profileImage: Option<string>)

  /** `if (body[key]) updatedData[key] = body[key]`. */
  function Pick(body: Body, key: string): (v: Option<string>)
    ensures v.Some? <==> Truthy(body, key)
    ensures v.Some? ==> v.value == body[key] && v.value != ""
  {
    if Truthy(body, key) then Some(body[key]) else None
  }

  /** The patch the update handler builds: each text field only when its value
      is truthy, the password hashed with a fresh salt, and the profile image
      only when a file was uploaded (`image` is its stored name). */
  function BuildPatch(body: Body, image: Option<string>, salt: Salt): (p: Patch)
    ensures p.name == Pick(body, "name") && p.lastName == Pick(body, "lastName")
    ensures p.email == Pick(body, "email") && p.username == Pick(body, "username")
    ensures p.password.Some? <==> Truthy(body, "password")
    ensures p.password.Some? ==> p.password.value == Hash(body["password"], salt)
    ensures p.profileImage == image
  {
    Patch(
      Pick(body, "name"),
      Pick(body, "lastName"),
      Pick(body, "email"),
      Pick(body, "username"),
      if Truthy(body, "password") then Some(Hash(body["password"], salt)) else None,
      image)
  }

  function Override<T>(old_: T, v: Option<T>): T
  {
    if v.Some? then v.value else old_
  }

  /** `$set: updatedData` on a stored user: a field the patch carries takes
      its value, every other field stays as stored. */
  function Apply(u: User, p: Patch): (v: User)
    ensures p.name.Some? ==> v.name == p.name.value
    ensures p.name.None? ==> v.name == u.name
    ensures p.lastName.Some? ==> v.lastName == p.lastName.value
    ensures p.lastName.None? ==> v.lastName == u.lastName
    ensures p.email.Some? ==> v.email == p.email.value
    ensures p.email.None? ==> v.email == u.email
    ensures p.username.Some? ==> v.username == p.username.value
    ensures p.username.None? ==> v.username == u.username
    ensures p.password.Some? ==> v.password == p.password.value
    ensures p.password.None? ==> v.password == u.password
    ensures p.profileImage.Some? ==> v.profileImage == p.profileImage.value
    ensures p.profileImage.None? ==> v.profileImage == u.profileImage
    ensures p == Patch(None, None, None, None, None, None) ==> v == u
  {
    User(
      Override(u.name, p.name),
      Override(u.profileImage, p.profileImage),
      Override(u.lastName, p.lastName),
      Override(u.email, p.email),
      Override(u.username, p.username),
      Override(u.password, p.password))
  }

  /** An update changes exactly the fields whose body values are truthy (and the
      profile image when a file came with it); every other field keeps its value. */
  lemma UpdateTouchesOnlyTruthyFields(u: User, body: Body, image: Option<string>, salt: Salt)
    ensures var v := Apply(u, BuildPatch(body, image, salt));
      && v.name == (if Truthy(body, "name") then body["name"] else u.name)
      && v.lastName == (if Truthy(body, "lastName") then body["lastName"] else u.lastName)
      && v.email == (if Truthy(body, "email") then body["email"] else u.email)
      && v.username == (if Truthy(body, "username") then body["username"] else u.username)
      && (Truthy(body, "password") ==> Compare(body["password"], v.password) && v.password.salt == salt)
      && (!Truthy(body, "password") ==> v.password == u.password)
      && v.profileImage == (if image.Some? then image.value else u.profileImage)
  {
  }

  /** What login answers with: the lean user document after
      `delete user.password`. */
  datatype PublicUser = PublicUser(
    id: Id,
    name: string,
    profileImage: string,
    lastName: string,
    email: string,
    username: string)

  /** Dropping the password loses nothing else: the stored user comes back
      from the public view and the password alone. */
  function WithoutPassword(id: Id, u: User): (p: PublicUser)
    ensures p.id == id
    ensures User(p.name, p.profileImage, p.lastName, p.email, p.username, u.password) == u
  {
    PublicUser(id, u.name, u.profileImage, u.lastName, u.email, u.username)
  }
}
