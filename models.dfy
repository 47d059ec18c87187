/** dao/models.py: the `user`, `post` and `user_post` tables as records, the
    column widths the database enforces, and the deletion rules of the two
    foreign keys (CASCADE on user_post, SET NULL on post.owner_id). */
module Models {
  import opened Wrappers

  /** A row of `user`. */
  datatype User = User(
    id: int, username: string, email: string, avatar: Option<string>,
    name: Option<string>, surname: Option<string>, age: Option<int>, password: string)

  /** A row of `post` (its created_at / updated_at columns are not modelled). */
  datatype Post = Post(id: int, text: string, image: Option<string>, ownerId: Option<int>)

  /** A row of `user_post`: the user has the post among their favorites.
      The table's own autoincrement id is never read and is not modelled. */
  datatype UserPost = UserPost(userId: int, postId: int)

  /** The keyword arguments of User(**data). */
  datatype NewUser = NewUser(
    username: string, email: string, avatar: Option<string>, name: Option<string>,
    surname: Option<string>, age: Option<int>, password: string)

  /** The keyword arguments of Post(**data); `favorites` holds user ids. */
  datatype NewPost = NewPost(text: string, image: Option<string>, favorites: seq<int>, ownerId: Option<int>)

  /** The dict BaseDAO.update receives: Some is a key that is present, None a
      key that is absent. `id` selects the row. */
  datatype UserChanges = UserChanges(
    id: Option<int>, username: Option<string>, email: Option<string>, avatar: Option<string>,
    name: Option<string>, surname: Option<string>, age: Option<int>)

  datatype PostChanges = PostChanges(id: Option<int>, text: Option<string>, image: Option<string>)

  // Column widths: String(n) is a varchar(n), which refuses longer values.
  const UsernameWidth: nat := 50
  const EmailWidth: nat := 30
  const AvatarWidth: nat := 255
  const NameWidth: nat := 50
  const SurnameWidth: nat := 50
  const PasswordWidth: nat := 50
  const ImageWidth: nat := 255

  predicate Fits(s: Option<string>, width: nat) {
    s.None? || |s.value| <= width
  }

  // `age` is an Integer column, a 32-bit int4, which refuses values outside
  // its range.
  const Int4Min: int := -0x8000_0000
  const Int4Max: int := 0x7fff_ffff

  predicate FitsInt4(n: Option<int>) {
    n.None? || Int4Min <= n.value <= Int4Max
  }

  predicate NewUserFits(f: NewUser) {
    && |f.username| <= UsernameWidth && |f.email| <= EmailWidth && Fits(f.avatar, AvatarWidth)
    && Fits(f.name, NameWidth) && Fits(f.surname, SurnameWidth) && |f.password| <= PasswordWidth
    && FitsInt4(f.age)
  }

  predicate UserChangesFit(c: UserChanges) {
    && Fits(c.username, UsernameWidth) && Fits(c.email, EmailWidth) && Fits(c.avatar, AvatarWidth)
    && Fits(c.name, NameWidth) && Fits(c.surname, SurnameWidth) && FitsInt4(c.age)
  }

  predicate PostChangesFit(c: PostChanges) {
    Fits(c.image, ImageWidth)
  }

  /** The primary key of a row. */
  function UserId(u: User): int { u.id }
  function PostId(p: Post): int { p.id }

  function BuildUser(id: int, f: NewUser): User {
    User(id, f.username, f.email, f.avatar, f.name, f.surname, f.age, f.password)
  }

  function BuildPost(id: int, f: NewPost): Post {
    Post(id, f.text, f.image, f.ownerId)
  }

  function Pick<T>(given: Option<T>, stored: T): T {
    if given.Some? then given.value else stored
  }

  /** UPDATE ... SET: every present key overwrites its column, every absent
      one leaves it; the key and the password are not among the keys. */
  function ApplyUserChanges(u: User, c: UserChanges): (r: User)
    ensures r.id == u.id && r.password == u.password
    ensures (c.username.Some? ==> r.username == c.username.value) && (c.username.None? ==> r.username == u.username)
    ensures (c.email.Some? ==> r.email == c.email.value) && (c.email.None? ==> r.email == u.email)
    ensures r.avatar == (if c.avatar.Some? then c.avatar else u.avatar)
    ensures r.name == (if c.name.Some? then c.name else u.name)
    ensures r.surname == (if c.surname.Some? then c.surname else u.surname)
    ensures r.age == (if c.age.Some? then c.age else u.age)
  {
    User(u.id, Pick(c.username, u.username), Pick(c.email, u.email),
         if c.avatar.Some? then c.avatar else u.avatar,
         if c.name.Some? then c.name else u.name,
         if c.surname.Some? then c.surname else u.surname,
         if c.age.Some? then c.age else u.age,
         u.password)
  }

  /** The same for a post: text and image are written when present; the key
      and the owner are not among the keys. */
  function ApplyPostChanges(p: Post, c: PostChanges): (r: Post)
    ensures r.id == p.id && r.ownerId == p.ownerId
    ensures (c.text.Some? ==> r.text == c.text.value) && (c.text.None? ==> r.text == p.text)
    ensures r.image == (if c.image.Some? then c.image else p.image)
  {
    Post(p.id, Pick(c.text, p.text), if c.image.Some? then c.image else p.image, p.ownerId)
  }

  /** user_post.user_id, ondelete='CASCADE': deleting a user drops their rows. */
  function LikesWithoutUser(likes: set<UserPost>, userId: int): (r: set<UserPost>)
    ensures r <= likes
    ensures forall l :: l in r ==> l.userId != userId
    ensures forall l :: l in likes && l.userId != userId ==> l in r
  {
    set l | l in likes && l.userId != userId
  }

  /** user_post.post_id, ondelete='CASCADE': deleting a post drops its rows. */
  function LikesWithoutPost(likes: set<UserPost>, postId: int): (r: set<UserPost>)
    ensures r <= likes
    ensures forall l :: l in r ==> l.postId != postId
    ensures forall l :: l in likes && l.postId != postId ==> l in r
  {
    set l | l in likes && l.postId != postId
  }

  /** post.owner_id, ondelete='SET NULL': deleting a user keeps their posts and
      clears the owner of each. */
  function Disown(posts: map<int, Post>, userId: int): (r: map<int, Post>)
    ensures r.Keys == posts.Keys
    ensures forall id :: id in r ==> r[id].ownerId != Some(userId)
    ensures forall id :: id in r ==>
      r[id] == if posts[id].ownerId == Some(userId) then posts[id].(ownerId := None) else posts[id]
  {
    map id | id in posts :: if posts[id].ownerId == Some(userId) then posts[id].(ownerId := None) else posts[id]
  }

  /** The user_post rows of one post whose favorites collection is `favorites`. */
  function Links(favorites: seq<int>, postId: int): (r: set<UserPost>)
    ensures forall l :: l in r <==> l.postId == postId && l.userId in favorites
  {
    if favorites == [] then {}
    else
      assert forall u :: u in favorites <==> u == favorites[0] || u in favorites[1..];
      {UserPost(favorites[0], postId)} + Links(favorites[1..], postId)
  }
}
