/** services/base_service.py: create, read, update and delete on top of the
    DAO, for users (UserService) and posts (PostService). A failure inside
    add_new or update becomes 400, a missing row 404, and rows leave through
    UserSchema / PostSchema, whose related lists the ORM hands over as
    objects. */
module BaseService {
  import opened Wrappers
  import opened Models
  import opened Schemas
  import opened Dao

  // ---------------------------------------------------------------------
  // Shaping rows (from_orm)

  /** UserSchema.from_orm on a stored user: no password, and the liked and
      created posts as ids. */
  function UserViewOf(db: Database, u: User): (v: UserView)
    reads db
    requires db.Valid()
    ensures v.id == u.id && v.email == u.email && v.username == u.username
    ensures v.name == u.name && v.surname == u.surname && v.age == u.age && v.avatar == u.avatar
    ensures v.likedPosts == db.LikedPosts(u.id) && v.createdPosts == db.CreatedPosts(u.id)
  {
    RelatedObjectsBecomeIds(db.LikedPosts(u.id));
    RelatedObjectsBecomeIds(db.CreatedPosts(u.id));
    UserSchemaOf(u, Objects(db.LikedPosts(u.id)), Objects(db.CreatedPosts(u.id))).value
  }

  /** PostSchema.from_orm on a stored post: its favorites as user ids. */
  function PostViewOf(db: Database, p: Post): (v: PostView)
    reads db
    requires db.Valid()
    ensures v.id == p.id && v.text == p.text && v.image == p.image && v.ownerId == p.ownerId
    ensures v.favorites == db.Favorites(p.id)
  {
    RelatedObjectsBecomeIds(db.Favorites(p.id));
    PostSchemaOf(p, Objects(db.Favorites(p.id))).value
  }

  /** `[self._schema.from_orm(model) for model in all_models]` on users. */
  function UserViews(db: Database, rows: seq<User>): (r: seq<UserView>)
    reads db
    requires db.Valid()
    ensures |r| == |rows|
    ensures forall i :: 0 <= i < |rows| ==> r[i] == UserViewOf(db, rows[i])
    ensures forall x :: x in rows ==> UserViewOf(db, x) in r
  {
    if rows == [] then []
    else
      assert rows == [rows[0]] + rows[1..];
      [UserViewOf(db, rows[0])] + UserViews(db, rows[1..])
  }

  /** The same comprehension on posts. */
  function PostViews(db: Database, rows: seq<Post>): (r: seq<PostView>)
    reads db
    requires db.Valid()
    ensures |r| == |rows|
    ensures forall i :: 0 <= i < |rows| ==> r[i] == PostViewOf(db, rows[i])
    ensures forall x :: x in rows ==> PostViewOf(db, x) in r
  {
    if rows == [] then []
    else
      assert rows == [rows[0]] + rows[1..];
      [PostViewOf(db, rows[0])] + PostViews(db, rows[1..])
  }

  // ---------------------------------------------------------------------
  // add_new

  /** add_new for users: insert, read the row back by id, shape it. Any
      failure on the way is a 400. */
  method AddUser(db: Database, data: NewUser) returns (r: Result<UserView, Fault>)
    requires db.Valid()
    modifies db
    ensures db.Valid()
    ensures r.Ok? <==> NewUserFits(data)
    ensures r.Err? ==> r.error == BadRequest && db.users == old(db.users)
    ensures r.Ok? ==> r.value.id == old(db.nextUserId) && r.value.id !in old(db.users)
    ensures r.Ok? ==> db.users == old(db.users)[r.value.id := BuildUser(r.value.id, data)]
    ensures r.Ok? ==> r.value == UserViewOf(db, db.users[r.value.id])
    ensures r.Ok? ==> r.value.likedPosts == [] && r.value.createdPosts == []
    ensures db.posts == old(db.posts) && db.likes == old(db.likes) && db.nextPostId == old(db.nextPostId)
    ensures db.nextUserId == old(db.nextUserId) + 1
    ensures old(db.NoSelfLikes()) ==> db.NoSelfLikes()
  {
    var row := db.AddUser(data);
    if row.None? {
      return Err(BadRequest);
    }
    var stored := db.UserById(row.value.id);
    r := Ok(UserViewOf(db, stored.value));
  }

  /** add_new for posts. */
  method AddPost(db: Database, data: NewPost) returns (r: Result<PostView, Fault>)
    requires db.Valid()
    modifies db
    ensures db.Valid()
    ensures r.Ok? <==>
      data.favorites == [] && Fits(data.image, ImageWidth)
      && (data.ownerId.None? || data.ownerId.value in old(db.users))
    ensures r.Err? ==> r.error == BadRequest && db.posts == old(db.posts)
    ensures r.Ok? ==> r.value.id == old(db.nextPostId) && r.value.id !in old(db.posts)
    ensures r.Ok? ==> db.posts == old(db.posts)[r.value.id := BuildPost(r.value.id, data)]
    ensures r.Ok? ==> r.value == PostViewOf(db, db.posts[r.value.id]) && r.value.favorites == []
    ensures db.users == old(db.users) && db.likes == old(db.likes) && db.nextUserId == old(db.nextUserId)
    ensures db.nextPostId == if data.favorites == [] then old(db.nextPostId) + 1 else old(db.nextPostId)
    ensures old(db.NoSelfLikes()) ==> db.NoSelfLikes()
    ensures old(db.UniqueAccounts()) ==> db.UniqueAccounts()
  {
    var row := db.AddPost(data);
    if row.None? {
      return Err(BadRequest);
    }
    var stored := db.PostById(row.value.id);
    r := Ok(PostViewOf(db, stored.value));
  }

  // ---------------------------------------------------------------------
  // get_all, get_by_id

  /** get_all for users: one view per stored user, in id order. */
  function GetAllUsers(db: Database): (r: seq<UserView>)
    reads db
    requires db.Valid()
    ensures forall id :: id in db.users ==> UserViewOf(db, db.users[id]) in r
    ensures forall i :: 0 <= i < |r| ==> r[i].id in db.users && r[i] == UserViewOf(db, db.users[r[i].id])
    ensures forall i, j :: 0 <= i < j < |r| ==> r[i].id < r[j].id
  {
    UserViews(db, db.AllUsers())
  }

  /** get_all for posts, ownerless posts included. */
  function GetAllPosts(db: Database): (r: seq<PostView>)
    reads db
    requires db.Valid()
    ensures forall id :: id in db.posts ==> PostViewOf(db, db.posts[id]) in r
    ensures forall i :: 0 <= i < |r| ==> r[i].id in db.posts && r[i] == PostViewOf(db, db.posts[r[i].id])
    ensures forall i, j :: 0 <= i < j < |r| ==> r[i].id < r[j].id
  {
    PostViews(db, db.AllPosts())
  }

  /** get_by_id for users: the view, or 404. */
  function GetUserById(db: Database, id: int): (r: Result<UserView, Fault>)
    reads db
    requires db.Valid()
    ensures r.Ok? <==> id in db.users
    ensures r.Ok? ==> r.value == UserViewOf(db, db.users[id]) && r.value.id == id
    ensures r.Err? ==> r.error == NotFound
  {
    match db.UserById(id)
    case Some(u) => Ok(UserViewOf(db, u))
    case None => Err(NotFound)
  }

  /** get_by_id for posts. */
  function GetPostById(db: Database, id: int): (r: Result<PostView, Fault>)
    reads db
    requires db.Valid()
    ensures r.Ok? <==> id in db.posts
    ensures r.Ok? ==> r.value == PostViewOf(db, db.posts[id]) && r.value.id == id
    ensures r.Err? ==> r.error == NotFound
  {
    match db.PostById(id)
    case Some(p) => Ok(PostViewOf(db, p))
    case None => Err(NotFound)
  }

  // ---------------------------------------------------------------------
  // update, delete

  /** update for users: the given columns of the row with data.id; a refused
      value is a 400 and writes nothing. An update that leaves email and
      username alone keeps them unique. */
  method UpdateUser(db: Database, data: UserChanges) returns (r: Outcome<Fault>)
    requires db.Valid()
    modifies db
    ensures db.Valid()
    ensures r.Fail? <==> data.id.Some? && data.id.value in old(db.users) && !UserChangesFit(data)
    ensures r.Fail? ==> r.error == BadRequest && db.users == old(db.users)
    ensures r.Pass? && data.id.Some? && data.id.value in old(db.users) ==>
      db.users == old(db.users)[data.id.value := ApplyUserChanges(old(db.users)[data.id.value], data)]
    ensures r.Pass? && (data.id.None? || data.id.value !in old(db.users)) ==> db.users == old(db.users)
    ensures db.posts == old(db.posts) && db.likes == old(db.likes)
    ensures db.nextUserId == old(db.nextUserId) && db.nextPostId == old(db.nextPostId)
    ensures old(db.NoSelfLikes()) ==> db.NoSelfLikes()
    ensures old(db.UniqueAccounts()) && data.email.None? && data.username.None? ==> db.UniqueAccounts()
  {
    var ok := db.UpdateUser(data);
    r := if ok then Pass else Fail(BadRequest);
  }

  /** update for posts. */
  method UpdatePost(db: Database, data: PostChanges) returns (r: Outcome<Fault>)
    requires db.Valid()
    modifies db
    ensures db.Valid()
    ensures r.Fail? <==> data.id.Some? && data.id.value in old(db.posts) && !PostChangesFit(data)
    ensures r.Fail? ==> r.error == BadRequest && db.posts == old(db.posts)
    ensures r.Pass? && data.id.Some? && data.id.value in old(db.posts) ==>
      db.posts == old(db.posts)[data.id.value := ApplyPostChanges(old(db.posts)[data.id.value], data)]
    ensures r.Pass? && (data.id.None? || data.id.value !in old(db.posts)) ==> db.posts == old(db.posts)
    ensures db.users == old(db.users) && db.likes == old(db.likes)
    ensures db.nextUserId == old(db.nextUserId) && db.nextPostId == old(db.nextPostId)
    ensures old(db.NoSelfLikes()) ==> db.NoSelfLikes()
    ensures old(db.UniqueAccounts()) ==> db.UniqueAccounts()
  {
    var ok := db.UpdatePost(data);
    r := if ok then Pass else Fail(BadRequest);
  }

  /** delete for users: 404 and no change when the id is unknown; otherwise
      the user goes, with their likes, and their posts lose their owner. */
  method DeleteUser(db: Database, id: int) returns (r: Outcome<Fault>)
    requires db.Valid()
    modifies db
    ensures db.Valid()
    ensures r.Fail? <==> id !in old(db.users)
    ensures r.Fail? ==> r.error == NotFound && unchanged(db)
    ensures r.Pass? ==>
      && db.users == old(db.users) - {id}
      && db.posts == Disown(old(db.posts), id)
      && db.likes == LikesWithoutUser(old(db.likes), id)
    ensures db.nextUserId == old(db.nextUserId) && db.nextPostId == old(db.nextPostId)
    ensures old(db.NoSelfLikes()) ==> db.NoSelfLikes()
    ensures old(db.UniqueAccounts()) ==> db.UniqueAccounts()
  {
    var deleted := db.UserById(id);
    if deleted.None? {
      return Fail(NotFound);
    }
    db.DeleteUser(deleted.value.id);
    r := Pass;
  }

  /** delete for posts: 404 and no change when the id is unknown; otherwise
      the post goes, with the likes it had. */
  method DeletePost(db: Database, id: int) returns (r: Outcome<Fault>)
    requires db.Valid()
    modifies db
    ensures db.Valid()
    ensures r.Fail? <==> id !in old(db.posts)
    ensures r.Fail? ==> r.error == NotFound && unchanged(db)
    ensures r.Pass? ==> db.posts == old(db.posts) - {id} && db.likes == LikesWithoutPost(old(db.likes), id)
    ensures db.users == old(db.users)
    ensures db.nextUserId == old(db.nextUserId) && db.nextPostId == old(db.nextPostId)
    ensures old(db.NoSelfLikes()) ==> db.NoSelfLikes()
    ensures old(db.UniqueAccounts()) ==> db.UniqueAccounts()
  {
    var deleted := db.PostById(id);
    if deleted.None? {
      return Fail(NotFound);
    }
    db.DeletePost(deleted.value.id);
    r := Pass;
  }
}
