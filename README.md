# A verified model of a small social-posting backend

The system is a FastAPI and SQLAlchemy service over two tables, `user` and
`post`, joined by a `user_post` association of likes. Users register with a
unique email and username, and the password policy is checked at that point.
They log in with email and password, or renew their tokens with a refresh
token, and then act through a bearer token. A user can create posts, and can
update or delete only their own. A user can like and unlike another user's
post, but never their own.

This project models that core in Dafny and proves what it promises.

- **Utils** models `utils.py`: the password policy, hash-then-compare
  checking, how a token pair is issued and decoded, and safe file names.
- **Schemas** models `services/schemas.py`: the pydantic validators and the
  shapes that go in and out.
- **Models** and **BaseDao** model `dao/models.py` and the generic reads of
  `dao/base_dao.py`. Rows are datatypes, with the cascade and set-null rules
  on deletion. A query is a function over a table kept as a map from id to
  row.
- **Dao** holds the database as a `class Database`. Its `users` and `posts`
  maps, its `likes` set and its two autoincrement counters are updated in
  place by `modifies` methods. `Valid()` holds what the database enforces:
  ids and foreign keys. `UniqueAccounts()` and `NoSelfLikes()` hold what
  the services keep.
- **BaseService**, **UserService** and **PostService** model the services
  in `services/`. Each error becomes a `Fault` that carries its HTTP status.
- **PostRouter** models the guard logic of `routers/post_router.py`.

Three kinds of code are not modelled and arrive as parameters instead:
- the password hash, and the JWT signer with its format and signature
  check and its test of the algorithm a token's header names (a `Signer`);
- the EmailStr syntax check, EmailStr's normal form of an address, and the
  SMTP deliverability check;
- `uuid4().hex`.

The clock is an integer `now`, in seconds.

SQL without ORDER BY promises no order. Every list in the model is in
ascending id order, so "the first matching row" means the one with the
smallest id. An autoincrement counter advances on every INSERT that is
attempted, including one the table rejects.

## Model

| member | source | states |
|---|---|---|
| Utils.ValidatePasswords | utils.py:27-44 | Each error and success holds exactly when its condition does, and the checks run in order: empty or mismatched, shorter than 8, longer than 50, missing character classes. A password of length 50 passes the length checks. |
| Utils.HasRequiredCharactersIsRegex | utils.py:40-42 | The executable character test agrees with the `re.match` look-ahead pattern read literally: three A-Z letters and a digit, each reachable without crossing a newline. |
| Utils.ScenarioPasswordAccepted | utils.py:27-44 | A concrete password with three capitals and digits passes the whole policy. |
| Utils.CheckPassword | utils.py:82-89 | True exactly when the candidate hashes to the stored value. |
| Utils.CheckPasswordAcceptsOwnHash | utils.py:72-89 | `check_password(p, encode_password(p))` holds. |
| Utils.CheckPasswordRejectsOthers | utils.py:82-89 | With a collision-free hash, a stored hash accepts exactly the password it was made from. |
| Utils.CreateToken | utils.py:47-60 | The pair is the two signatures of the caller's claims, with `exp` set to now + minutes·60 and now + days·86400. The caller's dict is left with `exp` set to the refresh expiry. |
| Utils.IssueTokens | utils.py:47-60 | Under a sound signer, each token of the pair opens to the caller's claims with only `exp` replaced, by the access and the refresh expiry, and names the configured algorithm. |
| Utils.CheckClaims | utils.py:63-69 | PyJWT's claim checks with no leeway. The claims pass exactly when `iat`, `nbf` and `exp` are integers or absent, `nbf` is not later than now, `exp` is later than now, and there is no `aud`. Expired holds exactly when only the `exp` time check fails. A textual `iat` is refused. |
| Utils.DecodeToken | utils.py:63-69 | A token naming another algorithm is refused, and one that does not open is a DecodeError. A decoded token opened to exactly its claims, which pass the checks. An expired one carries an integer `exp` not later than now. |
| Utils.IssuedTokensDecode | utils.py:47-69 | For claims without `iat`, `nbf` or `aud` (the application signs only `email`), each token of the pair decodes to the caller's claims with only `exp` replaced. It does so until its own expiry, and is expired from then on. |
| Utils.SplitThenJoin | utils.py:113 | Joining the pieces of `split('.')` with dots gives the name back. |
| Utils.SplitHasOnePieceIffNoDot | utils.py:113 | `split('.')` yields a single piece exactly when the name has no dot. |
| Utils.ExtensionIsLastSegment | utils.py:113 | `split('.')[-1]` is the text after the last dot, or the whole name when there is none. |
| Utils.DotlessNameIsItsExtension | utils.py:113 | A name without a dot is its own extension. |
| Utils.CreateSafeFilename | utils.py:105-118 | Any string name succeeds, giving the hex, a dot and the last dot-free segment of the name. An absent name fails. |
| Schemas.ValidateAge | services/schemas.py:15-27 | None passes. Otherwise the age passes exactly when it is in [14, 100], and each other range gets its own error: not positive, under 14, over 100. |
| Schemas.RegisterSchema | services/schemas.py:59-80 | Success holds exactly when email syntax, the deliverability of the normalised address, age and password policy all pass. On success `password_repeat` is gone, the email is EmailStr's normal form and the password is its hash, which `check_password` accepts. Each failing check contributes its reason. |
| Schemas.UserUpdateSchema | services/schemas.py:114-127 | `id`, `email` and `username` are None whatever was sent. The other fields are kept, and the age is validated. |
| Schemas.UserUpdateKeepsIdentity | services/schemas.py:114-127 | Applying such an update to a stored user keeps its id, email, username and password. |
| Schemas.CreatePostSchema | services/schemas.py:130-140 | A new post's favorites are `[]` whatever was sent. The text and owner are kept, and there is no image yet. |
| Schemas.UpdatePostSchemaAsWritten | services/schemas.py:143-147 | As written, a schema without text is refused, because `text: str` is required. |
| Schemas.PictureOnlyUpdateRefusedAsWritten | routers/post_router.py:49-64 | The update form the route allows, with a picture and no text, is refused by the schema as written. |
| Schemas.UpdatePostSchema | services/schemas.py:143-147 | The corrected schema always carries the post id and the given text. Favorites and image are None, so an exclude-None update never writes them. |
| Schemas.UpdatePostSchemaKeepsOmittedFields | services/base_service.py:100-111 | Applying the corrected schema changes the text only when text was sent and the image only when a picture was. Id and owner never change. |
| Schemas.RelatedIds | services/schemas.py:48-56 | A related list becomes ids element by element, keeping length and order, when it is all ints or all objects. Otherwise it is refused. |
| Schemas.RelatedObjectsBecomeIds | services/schemas.py:89-105 | The ORM's related objects become exactly their ids, in order. |
| Schemas.RelatedIdsIdempotent | services/schemas.py:48-56 | A list that already holds ints is left unchanged. |
| Schemas.MixedRelatedListRefused | services/schemas.py:53-54 | A list mixing ints and objects fails the `list[int]` check. |
| Schemas.UserSchemaOf | services/schemas.py:83-105 | Every user column except the password, with liked and created posts as ids. |
| Schemas.PostSchemaOf | services/schemas.py:43-56 | Every post column, with favorites as user ids. |
| Models.LikesWithoutUser | dao/models.py:14-15 | Deleting a user only removes rows: no remaining row names that user, and every row naming another user is kept. |
| Models.LikesWithoutPost | dao/models.py:16-17 | Deleting a post only removes rows: no remaining row names that post, and every row naming another post is kept. |
| Models.ApplyUserChanges | dao/base_dao.py:95-97 | Every key present in the update overwrites its column, and every absent key leaves it. Id and password are never changed. |
| Models.ApplyPostChanges | dao/base_dao.py:95-97 | The same for a post's text and image. Id and owner are never changed. |
| Models.Disown | dao/models.py:48 | Deleting a user keeps every post. The user's posts get owner None, and all other posts are unchanged. |
| Models.Links | dao/post_dao.py:17-20 | A post's `user_post` rows are exactly those pairing it with the users in its favorites. |
| BaseDao.SortedIds | dao/models.py:31-36 | A related-id list holds each id of its set exactly once, in ascending order. It is empty when the set is. |
| BaseDao.Where | dao/post_dao.py:22-27 | Every row the condition keeps appears, only such rows appear, and no row appears twice. |
| BaseDao.Rows | dao/base_dao.py:68-75 | Every stored row appears exactly once. |
| BaseDao.First | dao/base_dao.py:77-87 | `scalar()` gives a matching row, the one with the smallest id, or None exactly when no row matches. |
| Dao.Database.constructor | dao/models.py:10-50 | An empty database is valid and keeps both service invariants. |
| Dao.Database.AllUsers | dao/base_dao.py:68-75 | `get_all` on `user` returns every stored user once, in id order. |
| Dao.Database.AllPosts | dao/base_dao.py:68-75 | `get_all` on `post` returns every stored post once, in id order. |
| Dao.Database.UserById | dao/base_dao.py:77-87 | Returns the user with that id, or None exactly when there is none. |
| Dao.Database.PostById | dao/base_dao.py:77-87 | Returns the post with that id, or None exactly when there is none. |
| Dao.Database.UserByEmail | dao/user_dao.py:15-19 | Returns a stored user with that email, or None exactly when no user has it. |
| Dao.Database.UserByUsername | dao/user_dao.py:21-30 | Returns a stored user with that username, or None exactly when no user has it. |
| Dao.Database.PostsByOwner | dao/post_dao.py:22-27 | Returns exactly the posts whose owner is the user, without duplicates. |
| Dao.Database.Favorites | dao/models.py:45-47 | A user is in `post.favorites` exactly when the `user_post` row is stored. |
| Dao.Database.LikedPosts | dao/models.py:31-33 | A post is in `user.liked_posts` exactly when the same row is stored, so the two views mirror each other. |
| Dao.Database.CreatedPosts | dao/models.py:34-36 | `user.created_posts` is exactly the posts whose `owner_id` is the user's id. |
| Dao.Database.AddUser | dao/base_dao.py:56-66 | Inserts the row under the counter's id, which is new, when every column fits its width and the age fits the 32-bit `Integer` column. Otherwise nothing is added. The counter advances either way. No existing row changes. |
| Dao.Database.AddPost | dao/base_dao.py:56-66 | Inserts the post when its image fits and its owner exists or is None. No other row changes, and the invariants are kept. |
| Dao.Database.UpdateUser | dao/base_dao.py:89-99 | Only the row with the given id changes, and only in the columns present. An unknown or missing id changes nothing. A value too wide is refused and writes nothing. |
| Dao.Database.UpdatePost | dao/base_dao.py:89-99 | The same rule for posts. Owner and id never change. |
| Dao.Database.DeleteUser | dao/base_dao.py:101-108 | Removes exactly that user and their likes, and clears the owner of their posts. Both invariants are kept. |
| Dao.Database.DeletePost | dao/base_dao.py:101-108 | Removes exactly that post and its likes. |
| Dao.Database.PartialUpdate | dao/post_dao.py:17-20 | The post's likes become exactly its favorites list. Every other post's likes, and every row, are unchanged. |
| BaseService.UserViewOf | services/base_service.py:69 | The view has the stored columns, with liked and created posts taken from the database. |
| BaseService.PostViewOf | services/base_service.py:69 | The view has the stored columns, with favorites taken from the database. |
| BaseService.UserViews | services/base_service.py:83 | One view per row, in the same order. |
| BaseService.PostViews | services/base_service.py:83 | One view per post row, in the same order, each the view of its stored row. |
| BaseService.AddUser | services/base_service.py:60-75 | A refused insert is a 400. Otherwise exactly one user is added, and the answer is the view of the row read back by id, with empty related lists. |
| BaseService.AddPost | services/base_service.py:60-75 | The same for posts: 400 exactly when the insert fails. The new post's favorites are empty. |
| BaseService.GetAllUsers | services/base_service.py:77-85 | One view per stored user, each once, in id order. |
| BaseService.GetAllPosts | services/base_service.py:77-85 | One view per stored post, ownerless posts included. |
| BaseService.GetUserById | services/base_service.py:87-98 | The view when the id exists, and 404 exactly when it does not. |
| BaseService.GetPostById | services/base_service.py:87-98 | The view when the id exists, and 404 exactly when it does not. |
| BaseService.UpdateUser | services/base_service.py:100-111 | Columns sent as None keep their values. A failure is a 400 that writes nothing. Unique emails and usernames survive an update that leaves both alone. |
| BaseService.UpdatePost | services/base_service.py:100-111 | The same for posts. |
| BaseService.DeleteUser | services/base_service.py:113-123 | A missing id is a 404 and nothing changes. Otherwise the cascade happens. |
| BaseService.DeletePost | services/base_service.py:113-123 | A missing id is a 404 and nothing changes. Otherwise the post and its likes go. |
| UserService.Register | services/user_service.py:33-51 | A taken email is a 400, then a taken username is a 400, and neither writes anything. Otherwise exactly one user is added, now found by email, and the user counter advances by one even when the row is refused. Emails and usernames stay unique, and the post counter is untouched. |
| UserService.GetByEmail | services/user_service.py:53-63 | The view of the user with that email, or 404 exactly when there is none. |
| UserService.RefreshClaimsAsWritten | services/user_service.py:78-85 | As written, a malformed refresh token is a 400. An expired one, or one refused for its algorithm, `iat`, `nbf` or `aud`, escapes as a 500. |
| UserService.RefreshClaims | services/user_service.py:78-85 | Corrected: any token that fails to decode is a 400. |
| UserService.RefreshLogin | services/user_service.py:81-82 | The refresh path logs in with EmailStr's normal form of the token's `email` claim, exactly when that claim is a well-formed string. Otherwise the ValidationError is a 500. |
| UserService.Authenticate | services/user_service.py:65-99 | Corrected (see Findings): a refused refresh token is a 400 of every kind. Password path: no data is a 500, an unknown email a 404, a wrong password a 400, and otherwise a pair for `{'email': found.email}`. Refresh path: decode, take the email claim, and skip the password check. Every success is a pair for a stored user. |
| UserService.GetCurrent | services/user_service.py:101-122 | No header, or a token decode_token refuses for any reason, is a 401. For a decoded token: a missing email claim is a 404, and a numeric one a 500. A textual one gives exactly the stored user with that email, or a 404 when there is none. A success is always a stored row whose email is the claim. |
| UserService.LoginAccepted | services/user_service.py:86-99 | A registered email with its password yields that user's pair. |
| UserService.WrongPasswordRefused | services/user_service.py:91-94 | With a collision-free hash, any other password is a 400. |
| UserService.AccessTokenResolvesUser | services/user_service.py:112-122 | The access token from a login resolves to the same user until it expires, and is a 401 from then on. |
| UserService.RefreshTokenRenews | services/user_service.py:78-99 | Before its expiry, the refresh token from a login yields a new pair for the same user, at the new time. |
| UserService.ExpiredRefreshTokenRefused | services/user_service.py:78-85 | Corrected: an expired refresh token is a 400. |
| UserService.ExpiredRefreshTokenUnhandledAsWritten | services/user_service.py:78-85 | As written, the same token escapes as a 500. |
| UserService.RefreshTokenActsAsBearer | services/user_service.py:112-122 | Nothing marks a token as a refresh token, so the refresh token is accepted as a bearer token for as long as it lives. |
| UserService.ForeignAlgorithmUnhandledAsWritten | services/user_service.py:78-85 | As written, a refresh token whose header names another algorithm escapes as a 500. The corrected handling makes it a 400. |
| UserService.ForgedTokenRefused | services/user_service.py:112-116 | A token the signer rejects is a 401 as a bearer token and a 400 as a refresh token. |
| PostService.RemoveFirst | services/post_service.py:36 | `list.remove` shortens the list by one. |
| PostService.RemoveFirstMembers | services/post_service.py:35-36 | On a duplicate-free list, `remove(x)` drops exactly x and keeps the list duplicate-free. |
| PostService.RemoveFirstBag | services/post_service.py:35-36 | `remove(x)` takes exactly one x out of the multiset. |
| PostService.Toggle | services/post_service.py:33-36 | Corrected (see Findings), the user recognised by id. A like keeps the list and adds the user at its end, and an unlike takes exactly one of the user out of the multiset. |
| PostService.ToggleAsWritten | services/post_service.py:33-36 | As written, the user is appended whatever the list holds. |
| PostService.UnlikeAppendsAgainAsWritten | services/post_service.py:33-36 | The as-written toggle agrees with the intended one on a first like. On an unlike it lists the user one more time, where the intended toggle takes one out. |
| PostService.RemoveAppended | services/post_service.py:33-36 | Removing the element just appended gives the list back. |
| PostService.ToggleFlips | services/post_service.py:33-36 | After the toggle, the user is a favorite exactly when they were not before. Every other user is unchanged, and the list stays duplicate-free. |
| PostService.ToggleTwiceFromAbsent | services/post_service.py:33-36 | Liking and then unliking gives back the identical list. |
| PostService.ToggleTwiceFromPresent | services/post_service.py:33-36 | Unliking and then liking gives back the same users (same multiset), with the toggled user moved to the end. |
| PostService.ToggledLikes | services/post_service.py:33-37 | Exactly one `user_post` row flips, and every other row stays as it was. |
| PostService.ToggledLikesTwice | services/post_service.py:33-37 | Flipping the same like twice restores the relation. |
| PostService.RelinkIsToggle | services/post_service.py:33-37 | Writing back the toggled favorites list is that one-row flip. |
| PostService.ToggleKeepsNoSelfLikes | services/post_service.py:29-31 | A like on someone else's post keeps "nobody likes their own post". |
| PostService.UpdateFavorites | services/post_service.py:20-37 | Corrected (see Findings), comparing the user by id. Acting on one's own post is a 400 and nothing changes. Otherwise exactly the one like flips, only that post's likes are written, and nobody ends up liking their own post. |
| PostService.GetByOwner | services/post_service.py:39-47 | Views of exactly the user's posts, each once. |
| PostRouter.PictureLocation | routers/post_router.py:37-39 | No upload leaves the image alone. An upload without a name is a 400. Otherwise the URL is `/images/picture/`, the hex, a dot and the upload's extension. |
| PostRouter.OwnerCheck | routers/post_router.py:60-62 | A missing post is a 404. Anyone other than the owner gets a 403. The owner passes. |
| PostRouter.OwnerlessPostIsClosed | routers/post_router.py:142 | A post with no owner can be updated or deleted by nobody. |
| PostRouter.DisownedPostIsClosed | dao/models.py:48 | After its owner's account is deleted, nobody can update or delete the post, the former owner included. |
| PostRouter.CreatePost | routers/post_router.py:31-42 | The post belongs to the acting user and starts with no favorites. A bad upload is a 400 that writes nothing. Otherwise the post counter advances by one, and the user counter is untouched. |
| PostRouter.UpdatePost | routers/post_router.py:60-68 | Corrected (see Findings): built on the corrected UpdatePostSchema, so a picture-only update keeps the text. A missing post is a 404, a non-owner gets a 403, and neither writes anything. The owner's update writes the text when sent and the image when uploaded, never owner or favorites. Neither counter moves. |
| PostRouter.DeletePost | routers/post_router.py:141-144 | The guard's 404 or 403 changes nothing. The owner's delete removes the post and its likes. Neither counter moves. |

## Left out

- HTTP plumbing is not modelled: FastAPI forms, `Depends`, HTTPBearer, the route decorators, `main.py` and `container.py`. The acting user comes in as a parameter that is a stored user.
- `routers/user_router.py` is not part of this model. It only delegates, with the acting user's id as the target.
- File I/O is not modelled: `save_to_file`, `read_from_file`, `create_path`, `get_filepath`, and the write in `save_file_and_get_url`. It has no part in the decisions. A picture is saved before the insert or update that may then fail; the model does not capture that leftover file.
- PBKDF2, base64, JWT signing and checking, and the constant-time comparison of `compare_digest` are parameters. Timing cannot be stated.
- Utils.CreateToken: the two `datetime.now()` readings are one `now` parameter, and `timegm` of local time is taken as that same number.
- UpdatePostSchema's `updated_at` and the posts' `created_at`/`updated_at` columns are left out, because they are timestamps. The `updated_at` default is evaluated once at import.
- EmailStr's syntax check and normal form, and the SMTP deliverability lookup, are parameters, because they are library and network calls. The normal form is applied where the source parses an EmailStr: at registration and on the refresh path. A bearer token's claim is not parsed, so get_current looks it up raw.
- The database session, commit/close, async/await and the engine are not modelled. All operations are sequential, so the check-then-write race in `add_new` and the read-modify-write race in `update_favorites` are not modelled.
- `user_post` has a surrogate `id` column; the model keys the relation by the pair. This API never writes a pair twice.
- PostService.UpdateFavorites: a missing post is a precondition. The source dereferences `None` there, an unhandled 500.
- PostService.UpdateFavorites: models the intended toggle, which compares users by id. As written, the ORM compares objects by identity, and the objects are always distinct (see Findings). What the session then does with the duplicate is not modelled.
- `from_orm` re-validates stored rows (age, EmailStr). The model assumes stored rows pass, as they entered through the same validators.
- PostRouter.CreatePost: the 400 for a ValidationError of CreatePostSchema is not modelled. A form string and an integer owner id always pass it.
- `UserLoginSchema` validation on the password path happens in the login route, which is not modelled, so `Login` is an already-validated value.
- UserService.Authenticate: models the intended refresh path through UserService.RefreshClaims. The as-written 500s are stated separately (see Findings).
- PostRouter.UpdatePost: models the route over the corrected Schemas.UpdatePostSchema. The as-written refusal of a picture-only update is stated separately (see Findings).
- Utils.DecodeToken: PyJWT reads `exp`, `nbf` and `iat` with `int()`, so a string of digits passes there. The model treats every textual value as malformed (refused for `iat`). The `iss` check and leeway are not modelled, since neither is configured. Some PyJWT versions also refuse an `iat` in the future, which is not modelled.
- The token lifetime named in hours is added as minutes. That is modelled as written, in `TokenLifetimes.accessMinutes`.

## Findings

| source | as written | input that shows it | evidently intended | confidence | as-written member | corrected member |
|---|---|---|---|---|---|---|
| services/user_service.py:78-85 | only `jwt.DecodeError` is caught on the refresh path | a refresh token whose `exp` has passed gives a 500. PyJWT raises ExpiredSignatureError, which is not a DecodeError. The same holds for a header naming another algorithm (InvalidAlgorithmError), an `nbf` in the future (ImmatureSignatureError) or an `aud` claim (InvalidAudienceError) | a refused refresh token is a 400 | not executed | UserService.RefreshClaimsAsWritten, UserService.ExpiredRefreshTokenUnhandledAsWritten, UserService.ForeignAlgorithmUnhandledAsWritten | UserService.RefreshClaims, UserService.ExpiredRefreshTokenRefused |
| services/schemas.py:143-147 | UpdatePostSchema inherits the required `text: str` | a PUT to `/posts/{id}/update/` with a picture and no text, which the route allows (`text=Form(default=None)`), then raises an uncaught ValidationError, giving a 500 | text is optional, so a picture-only update keeps the stored text | not executed | Schemas.UpdatePostSchemaAsWritten, Schemas.PictureOnlyUpdateRefusedAsWritten | Schemas.UpdatePostSchema, Schemas.UpdatePostSchemaKeepsOmittedFields |
| services/post_service.py:33-36 | `user not in post.favorites` compares ORM objects by identity. Every DAO read ends with `db.close()`, which detaches what it loaded, so the acting user from get_current is never the same object as a favorite loaded with the post | a user who already likes a post sends the like request again. The user is appended a second time instead of removed, and writing back a post holding two objects with one identity is refused (500) | the second request removes the like | not executed | PostService.ToggleAsWritten, PostService.UnlikeAppendsAgainAsWritten | PostService.Toggle, PostService.ToggleFlips |
