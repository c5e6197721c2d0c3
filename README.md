# Costa Lover backend — a Dafny model of its route handlers

The backend is an Express/Mongoose server for a small social application.
Users register, update their profile and log in. They publish posts carrying
an image or a video. They comment on posts, reply to comments and like both.
Two listings return posts with their comments and replies, and each date is
rendered relative to the current moment.

This project models the behaviour the route handlers impose on the three
document collections (users, posts, comments):

- `common.dfy` (`Common`): an `Option` type and the order-preserving `Filter`
  that every `requiredFields.filter(...)` and the timestamp `replace` amount to.
- `models.dfy` (`Models`): the three document shapes, their schema defaults
  (`likes` 0, empty id lists) and their `required` fields. bcrypt's hash and
  compare are modelled as an abstract digest.
- `requests.dfy` (`Requests`): request bodies, the missing-field check, and
  JavaScript truthiness of a body value.
- `uploads.dfy` (`Uploads`): the stored file name and the media type. The name
  is the ISO timestamp with `-`, `T`, `:`, `.`, `Z` removed, followed by
  `path.extname` of the client's file name. The media type is image or video
  by MIME prefix.
- `users.dfy` (`Users`): the pure parts of the account handlers. These are the
  field lists, the conflict field registration reports, the update patch built
  from truthy fields, and the password-free login view.
- `posters.dfy` (`Posters`): the pure parts of the content handlers. These are
  the field lists, `formatDate`'s 24-hour choice, the populated post views,
  their reshaping and the by-owner filter.
- `store.dfy` (`Backend`): the class `Store` holds the three collections as
  maps from id to document, plus the order in which the posts are listed. Every handler is
  one method of `Store`, one atomic step that answers an `Outcome`: `Ok`,
  `BadRequest(missingFields)`, `MediaRequired`, `Conflict(field)`,
  `Forbidden`, `NotFound` or `ServerError`. The invariant `Valid` says four
  things:
  - the post order lists each post once;
  - every comment reference resolves, top-level comments point at the post
    that lists them, and replies point at their parent's post;
  - every stored document satisfies its schema's `required` fields;
  - no two users share an email or a username.

  `RegisterPostCommentReply` runs the handlers end to end: register, post,
  comment, reply, then list by user.

The environment is passed in as parameters:
- the id the database would assign (`newId`, required unused);
- the clock (`iso` for file names, `now` in milliseconds for `createdAt` and
  date formatting);
- bcrypt's salt;
- what the database answers to the update handler's lookups on an undefined
  email or username.

## Model

| member | source | states |
|---|---|---|
| Models.Hash | src/routes/user.routes.js:53-54 | the digest records the salt drawn, and comparing the hashed password against it succeeds |
| Models.HashMatchesOnlyItsPassword | src/routes/user.routes.js:152 | comparing an attempt against a digest succeeds exactly when the attempt is the password it was made from |
| Models.NewPost | src/models/models.js:14-22 | a new post starts with 0 likes and no comments, keeps the given owner, description, media, media type and date, and passes the schema's required check iff owner and description are non-empty |
| Models.NewComment | src/models/models.js:24-31 | a new comment starts with 0 likes and no replies, keeps post, user, text and date, and passes the required check iff post, user and text are non-empty |
| Models.Compare | src/routes/user.routes.js:152 | `bcrypt.compare`: an attempt matches a digest iff it is the password the digest was made from (proved in Models.HashMatchesOnlyItsPassword) |
| Models.PostValid | src/models/models.js:15-16 | the post schema's `required` check: owner and description are non-empty |
| Models.CommentValid | src/models/models.js:25-27 | the comment schema's `required` check: post, user and text are non-empty |
| Requests.MissingFields | src/routes/user.routes.js:23 | a field is reported iff it is required and not a key of the body (an empty value counts as present); nothing is reported iff every required field is present |
| Requests.MissingFieldsAppend | src/routes/user.routes.js:23 | checking a list in two parts reports the first part's missing fields, in order, before the second's |
| Requests.MissingFieldsCons | src/routes/user.routes.js:23 | the first field is reported first, exactly when it is absent, followed by the rest of the list's report |
| Requests.Truthy | src/routes/user.routes.js:76-80 | JavaScript truthiness of a body value: the key is present and its text is non-empty |
| Users.RegisterMissingInOrder | src/routes/user.routes.js:22-31 | registration reports exactly the absent ones of name, lastName, email, username, password, in that order |
| Users.LoginMissingInOrder | src/routes/user.routes.js:130-139 | login reports exactly the absent ones of username, password, in that order |
| Users.ConflictField | src/routes/user.routes.js:41-43 | the reported field is email iff the clashing user's email equals the input, otherwise username, which then equals the input |
| Users.Clashes | src/routes/user.routes.js:41 | a stored user matches the `$or` lookup iff it holds the email or the username |
| Users.EmailTaken | src/routes/user.routes.js:90-91 | the email check fails iff another user than the one updated holds the body's email (or, without one, the lookup on undefined returns another user) |
| Users.UsernameTaken | src/routes/user.routes.js:98-99 | the same check on the username |
| Users.Pick | src/routes/user.routes.js:76-79 | a field is set iff its body value is truthy (present and non-empty), and then to that value |
| Users.BuildPatch | src/routes/user.routes.js:73-86 | name, lastName, email and username are each set exactly when the body value is truthy, to that value; the password is set iff the body's password is truthy, as its hash with the given salt; the profile image is set iff a file was uploaded, to its stored name |
| Users.Apply | src/routes/user.routes.js:106 | `$set`: each field the patch carries takes the patch's value, each field it leaves out keeps the stored value; a patch that sets nothing leaves the user as it was |
| Users.UpdateTouchesOnlyTruthyFields | src/routes/user.routes.js:73-86 | after an update, each text field is the body's value when truthy and its old value otherwise; the password matches the new one when given and is unchanged otherwise; the image changes only with an upload |
| Users.WithoutPassword | src/routes/user.routes.js:161-165 | the login answer carries the user's id and every stored field but the password: the stored user is recovered from it together with the password alone |
| Posters.CreatePostMissingInOrder | src/routes/posters.routes.js:32-41 | post creation reports exactly the absent ones of userOwn, description, in that order |
| Posters.CommentMissingInOrder | src/routes/posters.routes.js:85-94 | comments and replies report exactly the absent ones of user, text, in that order |
| Posters.FormatDate | src/routes/posters.routes.js:19-29 | a date renders in the relative form iff less than 24 hours have elapsed since it, and in the calendar form otherwise; the rendering is of that date |
| Posters.FormatDateBoundary | src/routes/posters.routes.js:24 | ten minutes ago and one millisecond short of a day are relative; exactly one day and three days ago are calendar dates |
| Posters.ReplyDoc | src/routes/posters.routes.js:188-192 | a populated reply is the stored comment document whole: its id, and the stored document recovered field for field from the view |
| Posters.CommentDoc | src/routes/posters.routes.js:180-194 | a populated comment keeps its id, post, user, text, likes and date, and its replies are the populated reply documents of its reply ids, in stored order |
| Posters.PostDoc | src/routes/posters.routes.js:178-195 | a populated post keeps its id, owner, description, media, media type, likes and date, and its comments are the populated comment documents of its comment ids, in stored order |
| Posters.ShapeReply | src/routes/posters.routes.js:205-208 | reshaping a reply formats its date at `now` and changes nothing else |
| Posters.ShapeComment | src/routes/posters.routes.js:202-209 | a comment keeps its fields, formats its date and reshapes each reply (proved in Posters.ShapeCommentKeepsFields) |
| Posters.ShapePost | src/routes/posters.routes.js:199-210 | a post keeps its fields, formats its date and reshapes each comment (proved in Posters.ShapePostKeepsFields and Posters.ShapePostFormatsDates) |
| Posters.ShapeCommentKeepsFields | src/routes/posters.routes.js:202-209 | reshaping a comment changes only its createdAt and those of its replies; the replies keep their number, order and other fields |
| Posters.ShapePostKeepsFields | src/routes/posters.routes.js:199-210 | reshaping a post changes nothing but dates: every other field, the number and order of comments and replies, and their other fields stay |
| Posters.ShapePostFormatsDates | src/routes/posters.routes.js:199-210 | after reshaping, the createdAt of the post, of each comment and of each reply is that document's date formatted at the same instant |
| Posters.OwnedBy | src/routes/posters.routes.js:230 | the selected ids are exactly the listed posts whose owner is the requested user |
| Posters.ListPosts | src/routes/posters.routes.js:199-210 | the listing has one entry per id, in order, each exactly the populated post reshaped at `now`: equal to it except for the dates, and with the post's own date formatted |
| Posters.OwnedListingOwners | src/routes/posters.routes.js:230-260 | every post the by-user listing shows belongs to the requested user |
| Posters.AllListing | src/routes/posters.routes.js:178-210 | listing in an order that names each post once shows every post, and each exactly once |
| Posters.ByUserListing | src/routes/posters.routes.js:230-260 | the by-user listing shows only posts of the requested owner, and every post of that owner |
| Posters.OneThreadListing | src/routes/posters.routes.js:230-260 | a user's single post with one comment and one reply is listed for that user with that comment and that reply |
| Uploads.StripSeparators | src/routes/posters.routes.js:55 | the stripped timestamp contains exactly the characters of the original other than `-`, `T`, `:`, `.`, `Z`, and is no longer |
| Uploads.DigitsSurvive | src/routes/posters.routes.js:55 | a run of digits is left whole by the stripping |
| Uploads.StripStep | src/routes/posters.routes.js:55 | stripping a digit run, a separator and a rest keeps the run and drops the separator |
| Uploads.StripTwoRuns | src/routes/posters.routes.js:55 | two digit runs, each closed by a separator, strip to the two runs |
| Uploads.StripHead | src/routes/posters.routes.js:55 | the date part of a timestamp strips to year, month and day, followed by the stripped time part |
| Uploads.StripTail | src/routes/posters.routes.js:55 | the time part of a timestamp strips to hours, minutes, seconds and milliseconds, all digits |
| Uploads.IsoStampDigits | src/routes/posters.routes.js:55 | an ISO-8601 timestamp strips to its 17 digits: year, month, day, hours, minutes, seconds and milliseconds, in order |
| Uploads.LastDot | src/routes/posters.routes.js:56 | the index found holds the last '.' of the name; there is none iff the name has no '.' |
| Uploads.Extname | src/routes/posters.routes.js:56 | the extension is a suffix of the name that starts with its last '.'; it is empty iff the name has no '.', is `..`, or has its only '.' first |
| Uploads.StoredNameParts | src/routes/posters.routes.js:55-57 | the stored name is the timestamp's 17 digits followed by the original file's extension |
| Uploads.StoredName | src/routes/posters.routes.js:55-57 | the stored name ends with the original file's extension, and no timestamp separator survives before it |
| Uploads.UploadName | src/routes/user.routes.js:84-86 | a name exists iff a file was uploaded, and then it is that file's stored name |
| Uploads.MediaTypeOf | src/routes/posters.routes.js:58 | the media type is image iff the MIME type starts with `image`, and video otherwise |
| Backend.ThreadsAfterPost | src/routes/posters.routes.js:61-62 | storing a new post without comments keeps every comment reference resolved |
| Backend.ThreadsAfterComment | src/routes/posters.routes.js:108-112 | storing a comment on a post and appending its id to that post's comments keeps references resolved and comments pointing at their post |
| Backend.ThreadsAfterReply | src/routes/posters.routes.js:153-157 | storing a reply that names its parent's post, and appending its id to the parent's replies, keeps references resolved and replies on their parent's post |
| Backend.ConsistentAfterRegister | src/routes/user.routes.js:41-56 | adding a user that clashes with no stored user keeps the store invariant, accounts unique included |
| Backend.ConsistentAfterUpdate | src/routes/user.routes.js:89-106 | writing an updated user whose email and username are unchanged or free keeps the store invariant |
| Backend.ConsistentAfterPost | src/routes/posters.routes.js:61-62 | storing a valid post without comments, at the end of the listing order, keeps the store invariant |
| Backend.ConsistentAfterComment | src/routes/posters.routes.js:108-112 | storing a valid comment and appending it to its post keeps the store invariant |
| Backend.ConsistentAfterReply | src/routes/posters.routes.js:153-157 | storing a valid reply on its parent's post and appending it to the parent keeps the store invariant |
| Backend.ConsistentAfterLikePost | src/routes/posters.routes.js:286-287 | raising a post's like counter keeps the store invariant |
| Backend.ConsistentAfterLikeComment | src/routes/posters.routes.js:314-315 | raising a comment's like counter keeps the store invariant |
| Backend.LookupHitMeans | src/routes/user.routes.js:90-91 | with unique accounts, the lookup returns a user other than the one updated iff some other user holds the value |
| Backend.UniqueAfterUpdate | src/routes/user.routes.js:89-106 | writing an updated user whose email and username are unchanged or free keeps accounts unique |
| Backend.Store.FindOne | src/routes/user.routes.js:41 | the returned user matches the query; nothing is returned only when no user matches |
| Backend.Store.Register | src/routes/user.routes.js:21-69 | missing fields give BadRequest with exactly those fields; otherwise Conflict iff a stored user shares the email or username, naming the field; otherwise exactly one user is added, with hashed password and the uploaded file name or "" as image; every failure writes nothing |
| Backend.Store.RegisterConflict | src/routes/user.routes.js:41-43 | a conflict is found iff some stored user holds the email or the username, and it names the field of such a user |
| Backend.Store.AddUser | src/routes/user.routes.js:41-56 | Conflict iff a stored user shares the email or username; otherwise exactly that user is added under the new id and nothing else changes |
| Backend.Store.UpdateConflict | src/routes/user.routes.js:89-104 | reports email iff another user holds the email, else username iff another user holds the username, else nothing |
| Backend.Store.Update | src/routes/user.routes.js:72-126 | the email conflict comes first, then the username conflict, and only then NotFound for an unknown id; on success only that user changes, to the patched record |
| Backend.Store.Login | src/routes/user.routes.js:129-174 | missing fields give BadRequest; success iff a user with that username has a matching password, answering it without its password; an unknown user and a wrong password both get Forbidden; nothing is written |
| Backend.Store.CreatePost | src/routes/posters.routes.js:31-81 | missing fields give BadRequest, then no file gives MediaRequired; otherwise the new post (stored name, media type, 0 likes, no comments) is stored and appended to the order iff it passes the schema, else ServerError; failures write nothing |
| Backend.Store.AddComment | src/routes/posters.routes.js:84-126 | missing fields give BadRequest, an unknown post NotFound; otherwise the comment, with post set to the post id, is stored and its id appended to the end of that post's comments, nothing else changes |
| Backend.Store.AddReply | src/routes/posters.routes.js:129-171 | missing fields give BadRequest, an unknown comment NotFound; otherwise the reply takes its parent's post, is stored, and its id is appended to the parent's replies; no post changes |
| Backend.Store.LikePost | src/routes/posters.routes.js:276-301 | an existing post's likes grow by exactly one and the answer is the new count; an unknown id gives NotFound and changes nothing |
| Backend.Store.LikeComment | src/routes/posters.routes.js:304-329 | an existing comment's or reply's likes grow by exactly one and the answer is the new count; an unknown id gives NotFound and changes nothing |
| Backend.Store.ListAll | src/routes/posters.routes.js:176-224 | every post appears exactly once, and each entry is that post populated with its comments and replies and reshaped with every date formatted |
| Backend.Store.ListByUser | src/routes/posters.routes.js:227-274 | exactly the posts owned by the requested user appear, each once, and each entry is that post populated and reshaped with every date formatted |
| Backend.RegisterPostCommentReply | src/routes/posters.routes.js:227-274 | after registering, posting, commenting and replying, the user's listing shows the one post with its one comment and that comment's one reply |

## Left out

- HTTP plumbing: Express routing, multer's storage engines, `express.static` serving, status codes and JSON envelopes are left out; the outcome datatype stands for the response.
- File writes: `saveFile` and `fs.writeFileSync` are file I/O; only the stored name is modelled.
- bcrypt internals: hashing is an abstract digest that records its salt, and compare is true exactly on the hashed password. bcrypt reads only the first 72 bytes of a password, so two passwords that agree on those bytes compare equal in the source but not in the model.
- moment's text: `fromNow()` and the `DD [de] MMMM [de] YYYY` calendar format, in moment's default locale, are library string rendering. Only the choice between the two renderings is modelled.
- Posters.FormatDate: divides exact milliseconds instead of floating-point `asHours()`. It therefore does not model rounding at the 24-hour boundary.
- Backend.Store.Update: when the body has no email (or no username), the handler still queries on the undefined value, and the answer depends on the database driver. The model takes that answer as a parameter and asserts nothing about it.
- Backend.Store.Login: the source checks fields with `req.body.hasOwnProperty` (src/routes/user.routes.js:131), while the other handlers use `in`. A form-encoded body is parsed by `bodyParser.urlencoded({extended:false})` (src/index.js:15) into an object without a prototype, so `hasOwnProperty` is undefined and the call throws before the `try` at line 143: the source then gives no BadRequest, Forbidden or Ok answer at all. The model treats every body as a plain map, where the check means "is a key", as it does for a JSON body.
- Ids: ObjectIds are opaque strings compared exactly, and fresh ones are a parameter. A malformed id therefore answers NotFound instead of the 500 a cast error gives. Only the canonical lower-case spelling of an id names its document. Mongoose casts an upper-case hex id to the same ObjectId, so `findById` (src/routes/posters.routes.js:100, 145, 278, 306), `findByIdAndUpdate` (src/routes/user.routes.js:106) and `Post.find({ userOwn })` (src/routes/posters.routes.js:230) find the document the model reports NotFound or lists nothing for. The `_id.toString()` comparisons against the raw URL id at src/routes/user.routes.js:91 and 99 are modelled as exact string equality.
- Backend.Store.CreatePost, Backend.Store.AddComment, Backend.Store.AddReply: a malformed `userOwn` (src/routes/posters.routes.js:61) or comment `user` (lines 108 and 153) fails ObjectId casting when saved, and the source answers 500. The model stores any non-empty string and answers Ok.
- Backend.Store.ListByUser: `Post.find({ userOwn: userId })` (src/routes/posters.routes.js:230) with a malformed `userId` fails casting and the source answers 500. The model returns the empty listing.
- Backend.Store.ListAll, Backend.Store.ListByUser: the listing order is whatever `Post.find()` returns, which MongoDB leaves unspecified without a sort. The model fixes one order, `postOrder`, and proves each post appears once, not any particular order.
- Posters.ListPosts: all dates in one listing are formatted against a single `now`. The source's `formatDate` takes a fresh `moment()` on each call (src/routes/posters.routes.js:20), so dates within one response may be measured from slightly different instants.
- Populating `userOwn` and `user` with the selected user fields is left out. Posts, comments and replies show user ids, while comments and replies are populated.
- Concurrency and partial failure: each handler is one atomic step. The source writes a comment and its post in two saves, and two concurrent likes can lose an increment.
- Server errors: database failures other than schema validation are left out. So is `Register` failing on a database error.
- Request bodies are maps from string to string. JSON values that are not strings (numbers, arrays, null) are left out.
- Uploads.Extname: takes the client's file name as a base name. Directory separators inside it are not modelled.
- Uploads.IsoStampDigits: states the 17-digit form for `toISOString` output of years 0 to 9999. Extended years with a sign and six digits are left out.
- Server bootstrap: the database connection and server start-up in `src/index.js` are not part of this model.
