/** The database behind dao/user_dao.py and dao/post_dao.py (both BaseDAO
    subclasses from dao/base_dao.py): the `user` and `post` tables keyed by
    id, the `user_post` association, and the two autoincrement counters.

    `Valid()` is what the database itself enforces: every row sits under its
    own id, every id came from the counter, and every foreign key points at
    an existing row. Unique emails and usernames, and nobody liking their own
    post, are kept by the services, not by the schema, so they are separate
    predicates the methods below are proved to preserve. */
module Dao {
  import opened Wrappers
  import opened Models
  import BaseDao

  /** No two rows of `users` share an email or a username. */
  ghost predicate UniqueIn(users: map<int, User>) {
    forall a, b :: a in users && b in users && a != b ==>
      users[a].email != users[b].email && users[a].username != users[b].username
  }

  /** No row of `likes` is a user liking a post they own. */
  ghost predicate NoSelfLikesIn(posts: map<int, Post>, likes: set<UserPost>) {
    forall l :: l in likes && l.postId in posts ==> posts[l.postId].ownerId != Some(l.userId)
  }

  class Database {
    var users: map<int, User>
    var posts: map<int, Post>
    var likes: set<UserPost>
    var nextUserId: int
    var nextPostId: int

    ghost predicate Valid()
      reads this
    {
      && 1 <= nextUserId && 1 <= nextPostId
      && BaseDao.Keyed(users, UserId, nextUserId)
      && BaseDao.Keyed(posts, PostId, nextPostId)
      && (forall p :: p in posts && posts[p].ownerId.Some? ==> posts[p].ownerId.value in users)
      && (forall l :: l in likes ==> l.userId in users && l.postId in posts)
    }

    /** No two accounts share an email or a username (UserService.add_new). */
    ghost predicate UniqueAccounts()
      reads this
    {
      UniqueIn(users)
    }

    /** Nobody has their own post among their favorites
        (PostService.update_favorites). */
    ghost predicate NoSelfLikes()
      reads this
    {
      NoSelfLikesIn(posts, likes)
    }

    /** An empty database: no rows, both counters at 1. */
    constructor ()
      ensures Valid() && UniqueAccounts() && NoSelfLikes()
      ensures users == map[] && posts == map[] && likes == {}
      ensures nextUserId == 1 && nextPostId == 1
    {
      users, posts, likes := map[], map[], {};
      nextUserId, nextPostId := 1, 1;
    }

    // ----- reads -----

    /** BaseDAO.get_all on `user`. */
    function AllUsers(): (r: seq<User>)
      reads this
      requires Valid()
      ensures forall id :: id in users ==> users[id] in r
      ensures forall i :: 0 <= i < |r| ==> r[i].id in users && users[r[i].id] == r[i]
      ensures forall i, j :: 0 <= i < j < |r| ==> r[i].id < r[j].id
    {
      BaseDao.Rows(users, UserId, nextUserId)
    }

    /** BaseDAO.get_all on `post`. */
    function AllPosts(): (r: seq<Post>)
      reads this
      requires Valid()
      ensures forall id :: id in posts ==> posts[id] in r
      ensures forall i :: 0 <= i < |r| ==> r[i].id in posts && posts[r[i].id] == r[i]
      ensures forall i, j :: 0 <= i < j < |r| ==> r[i].id < r[j].id
    {
      BaseDao.Rows(posts, PostId, nextPostId)
    }

    /** BaseDAO.get_by_id on `user`: the row whose id column equals `id`. */
    function UserById(id: int): (r: Option<User>)
      reads this
      requires Valid()
      ensures r.Some? <==> id in users
      ensures r.Some? ==> r.value == users[id]
    {
      BaseDao.First(users, UserId, nextUserId, (u: User) => u.id == id)
    }

    /** BaseDAO.get_by_id on `post`. */
    function PostById(id: int): (r: Option<Post>)
      reads this
      requires Valid()
      ensures r.Some? <==> id in posts
      ensures r.Some? ==> r.value == posts[id]
    {
      BaseDao.First(posts, PostId, nextPostId, (p: Post) => p.id == id)
    }

    /** UserDAO.get_by_email. */
    function UserByEmail(email: string): (r: Option<User>)
      reads this
      requires Valid()
      ensures r.Some? ==> r.value.id in users && users[r.value.id] == r.value && r.value.email == email
      ensures r.Some? ==> forall id :: id in users && users[id].email == email ==> r.value.id <= id
      ensures r.None? <==> forall id :: id in users ==> users[id].email != email
    {
      BaseDao.First(users, UserId, nextUserId, (u: User) => u.email == email)
    }

    /** UserDAO.get_by_username. */
    function UserByUsername(username: string): (r: Option<User>)
      reads this
      requires Valid()
      ensures r.Some? ==> r.value.id in users && users[r.value.id] == r.value && r.value.username == username
      ensures r.Some? ==> forall id :: id in users && users[id].username == username ==> r.value.id <= id
      ensures r.None? <==> forall id :: id in users ==> users[id].username != username
    {
      BaseDao.First(users, UserId, nextUserId, (u: User) => u.username == username)
    }

    /** PostDAO.get_by_owner_id: the posts whose owner_id is `userId`. */
    function PostsByOwner(userId: int): (r: seq<Post>)
      reads this
      requires Valid()
      ensures forall id :: id in posts && posts[id].ownerId == Some(userId) ==> posts[id] in r
      ensures forall i :: 0 <= i < |r| ==>
        r[i].id in posts && posts[r[i].id] == r[i] && r[i].ownerId == Some(userId)
      ensures forall i, j :: 0 <= i < j < |r| ==> r[i].id < r[j].id
    {
      BaseDao.Where(posts, PostId, nextPostId, (p: Post) => p.ownerId == Some(userId))
    }

    /** Post.favorites, through user_post: the users who like the post. */
    function Favorites(postId: int): (r: seq<int>)
      reads this
      requires Valid()
      ensures forall u :: u in r <==> UserPost(u, postId) in likes
      ensures forall i, j :: 0 <= i < j < |r| ==> r[i] < r[j]
      ensures (forall u :: UserPost(u, postId) !in likes) ==> r == []
    {
      BaseDao.SortedIds((set u | 1 <= u < nextUserId && UserPost(u, postId) in likes), nextUserId)
    }

    /** User.liked_posts, through user_post: the posts the user likes. */
    function LikedPosts(userId: int): (r: seq<int>)
      reads this
      requires Valid()
      ensures forall p :: p in r <==> UserPost(userId, p) in likes
      ensures forall i, j :: 0 <= i < j < |r| ==> r[i] < r[j]
      ensures (forall p :: UserPost(userId, p) !in likes) ==> r == []
    {
      BaseDao.SortedIds((set p | 1 <= p < nextPostId && UserPost(userId, p) in likes), nextPostId)
    }

    /** User.created_posts, through post.owner_id. */
    function CreatedPosts(userId: int): (r: seq<int>)
      reads this
      requires Valid()
      ensures forall p :: p in r <==> p in posts && posts[p].ownerId == Some(userId)
      ensures forall i, j :: 0 <= i < j < |r| ==> r[i] < r[j]
      ensures (forall p :: p in posts ==> posts[p].ownerId != Some(userId)) ==> r == []
    {
      BaseDao.SortedIds((set p | p in posts && posts[p].ownerId == Some(userId)), nextPostId)
    }

    // ----- writes -----

    /** BaseDAO.add_new on `user`: INSERT under the counter's next value. The
        counter advances even when the database refuses the row, which it does
        when a value is longer than its column. */
    method AddUser(fields: NewUser) returns (r: Option<User>)
      requires Valid()
      modifies this
      ensures Valid()
      ensures r.Some? <==> NewUserFits(fields)
      ensures r.Some? ==> r.value == BuildUser(old(nextUserId), fields) && r.value.id !in old(users)
      ensures r.Some? ==> users == old(users)[r.value.id := r.value]
      ensures r.None? ==> users == old(users)
      ensures nextUserId == old(nextUserId) + 1
      ensures posts == old(posts) && likes == old(likes) && nextPostId == old(nextPostId)
      ensures old(NoSelfLikes()) ==> NoSelfLikes()
    {
      var id := nextUserId;
      nextUserId := nextUserId + 1;
      if NewUserFits(fields) {
        var u := BuildUser(id, fields);
        users := users[id := u];
        r := Some(u);
      } else {
        r := None;
      }
    }

    /** BaseDAO.add_new on `post`. Post(**data) itself refuses a non-empty
        list of ids for the `favorites` relationship, before any INSERT; the
        database refuses an over-long image or an owner that does not exist. */
    method AddPost(fields: NewPost) returns (r: Option<Post>)
      requires Valid()
      modifies this
      ensures Valid()
      ensures r.Some? <==>
        fields.favorites == [] && Fits(fields.image, ImageWidth)
        && (fields.ownerId.None? || fields.ownerId.value in old(users))
      ensures r.Some? ==> r.value == BuildPost(old(nextPostId), fields) && r.value.id !in old(posts)
      ensures r.Some? ==> posts == old(posts)[r.value.id := r.value]
      ensures r.None? ==> posts == old(posts)
      ensures nextPostId == if fields.favorites == [] then old(nextPostId) + 1 else old(nextPostId)
      ensures users == old(users) && likes == old(likes) && nextUserId == old(nextUserId)
      ensures old(NoSelfLikes()) ==> NoSelfLikes()
    {
      if fields.favorites != [] {
        return None;
      }
      var id := nextPostId;
      nextPostId := nextPostId + 1;
      if Fits(fields.image, ImageWidth) && (fields.ownerId.None? || fields.ownerId.value in users) {
        var p := BuildPost(id, fields);
        posts := posts[id := p];
        r := Some(p);
      } else {
        r := None;
      }
    }

    /** BaseDAO.update on `user`: UPDATE ... WHERE id = data['id'] SET the given
        columns. No row matches an absent or unknown id, and then nothing is
        written and nothing can fail. */
    method UpdateUser(c: UserChanges) returns (ok: bool)
      requires Valid()
      modifies this
      ensures Valid()
      ensures ok <==> c.id.None? || c.id.value !in old(users) || UserChangesFit(c)
      ensures ok && c.id.Some? && c.id.value in old(users) ==>
        users == old(users)[c.id.value := ApplyUserChanges(old(users)[c.id.value], c)]
      ensures !ok || c.id.None? || c.id.value !in old(users) ==> users == old(users)
      ensures posts == old(posts) && likes == old(likes)
      ensures nextUserId == old(nextUserId) && nextPostId == old(nextPostId)
      ensures old(NoSelfLikes()) ==> NoSelfLikes()
    {
      if c.id.None? || c.id.value !in users {
        return true;
      }
      if !UserChangesFit(c) {
        return false;
      }
      users := users[c.id.value := ApplyUserChanges(users[c.id.value], c)];
      ok := true;
    }

    /** BaseDAO.update on `post`. */
    method UpdatePost(c: PostChanges) returns (ok: bool)
      requires Valid()
      modifies this
      ensures Valid()
      ensures ok <==> c.id.None? || c.id.value !in old(posts) || PostChangesFit(c)
      ensures ok && c.id.Some? && c.id.value in old(posts) ==>
        posts == old(posts)[c.id.value := ApplyPostChanges(old(posts)[c.id.value], c)]
      ensures !ok || c.id.None? || c.id.value !in old(posts) ==> posts == old(posts)
      ensures users == old(users) && likes == old(likes)
      ensures nextUserId == old(nextUserId) && nextPostId == old(nextPostId)
      ensures old(NoSelfLikes()) ==> NoSelfLikes()
      ensures old(UniqueAccounts()) ==> UniqueAccounts()
    {
      if c.id.None? || c.id.value !in posts {
        return true;
      }
      if !PostChangesFit(c) {
        return false;
      }
      posts := posts[c.id.value := ApplyPostChanges(posts[c.id.value], c)];
      ok := true;
    }

    /** BaseDAO.delete of a stored user: the row goes, its user_post rows go
        with it (CASCADE) and its posts stay without an owner (SET NULL). */
    method DeleteUser(id: int)
      requires Valid() && id in users
      modifies this
      ensures Valid()
      ensures users == old(users) - {id}
      ensures posts == Disown(old(posts), id)
      ensures likes == LikesWithoutUser(old(likes), id)
      ensures nextUserId == old(nextUserId) && nextPostId == old(nextPostId)
      ensures old(NoSelfLikes()) ==> NoSelfLikes()
      ensures old(UniqueAccounts()) ==> UniqueAccounts()
    {
      users := users - {id};
      posts := Disown(posts, id);
      likes := LikesWithoutUser(likes, id);
    }

    /** BaseDAO.delete of a stored post: the row goes, its user_post rows go
        with it (CASCADE). */
    method DeletePost(id: int)
      requires Valid() && id in posts
      modifies this
      ensures Valid()
      ensures posts == old(posts) - {id}
      ensures likes == LikesWithoutPost(old(likes), id)
      ensures users == old(users)
      ensures nextUserId == old(nextUserId) && nextPostId == old(nextPostId)
      ensures old(NoSelfLikes()) ==> NoSelfLikes()
      ensures old(UniqueAccounts()) ==> UniqueAccounts()
    {
      posts := posts - {id};
      likes := LikesWithoutPost(likes, id);
    }

    /** PostDAO.partial_update after the post's favorites collection was set to
        `favorites`: the flush makes the post's user_post rows exactly those
        users, and leaves every other post's rows alone. */
    method PartialUpdate(postId: int, favorites: seq<int>)
      requires Valid() && postId in posts
      requires forall i :: 0 <= i < |favorites| ==> favorites[i] in users
      modifies this
      ensures Valid()
      ensures likes == LikesWithoutPost(old(likes), postId) + Links(favorites, postId)
      ensures forall u :: u in Favorites(postId) <==> u in favorites
      ensures users == old(users) && posts == old(posts)
      ensures nextUserId == old(nextUserId) && nextPostId == old(nextPostId)
      ensures old(UniqueAccounts()) ==> UniqueAccounts()
    {
      likes := LikesWithoutPost(likes, postId) + Links(favorites, postId);
    }
  }
}
