/** services/post_service.py: liking and unliking a post (the favorites
    toggle, refused on one's own post) and listing a user's posts. */
module PostService {
  import opened Wrappers
  import opened Models
  import opened Schemas
  import opened Dao
  import BaseService

  // ---------------------------------------------------------------------
  // The favorites list and its toggle

  /** No user appears twice. */
  predicate Distinct(s: seq<int>) {
    forall i, j :: 0 <= i < j < |s| ==> s[i] != s[j]
  }

  /** list.remove(x): drop the first occurrence of x. */
  function RemoveFirst(s: seq<int>, x: int): (r: seq<int>)
    requires x in s
    ensures |r| == |s| - 1
  {
    if s[0] == x then s[1..] else [s[0]] + RemoveFirst(s[1..], x)
  }

  /** `append(user)` when the user is not among the favorites, otherwise
      `remove(user)`; the user is recognised by id. A like keeps the list and
      adds the user at its end; an unlike takes exactly one of the user out. */
  function Toggle(favorites: seq<int>, u: int): (r: seq<int>)
    ensures u !in favorites ==> |r| == |favorites| + 1 && r[..|favorites|] == favorites && r[|favorites|] == u
    ensures u in favorites ==> multiset(r) == multiset(favorites) - multiset{u}
  {
    if u !in favorites then favorites + [u]
    else
      RemoveFirstBag(favorites, u);
      RemoveFirst(favorites, u)
  }

  /** The toggle as written: `user not in post.favorites` compares ORM objects
      by identity. Every read of the DAO ends with db.close(), which detaches
      what it loaded, so the acting user (loaded by get_current) is never the
      same object as any favorite loaded afterwards with the post, and the
      user is appended every time. */
  function ToggleAsWritten(favorites: seq<int>, u: int): (r: seq<int>)
    ensures |r| == |favorites| + 1 && r[..|favorites|] == favorites && r[|favorites|] == u
  {
    favorites + [u]
  }

  /** As written, a first like does what the intended toggle does, but an
      unlike puts the user in the list a second time instead of taking them
      out. */
  lemma UnlikeAppendsAgainAsWritten(favorites: seq<int>, u: int)
    ensures u !in favorites ==> ToggleAsWritten(favorites, u) == Toggle(favorites, u)
    ensures u in favorites ==>
      && multiset(ToggleAsWritten(favorites, u))[u] == multiset(favorites)[u] + 1 >= 2
      && multiset(Toggle(favorites, u))[u] == multiset(favorites)[u] - 1
  {
    if u in favorites {
      assert multiset(ToggleAsWritten(favorites, u)) == multiset(favorites) + multiset{u};
    }
  }

  /** remove leaves every other element, and none of x when x was there once. */
  lemma {:induction false} RemoveFirstMembers(s: seq<int>, x: int)
    requires x in s && Distinct(s)
    ensures forall v :: v in RemoveFirst(s, x) <==> v in s && v != x
    ensures Distinct(RemoveFirst(s, x))
  {
    assert s == [s[0]] + s[1..];
    if s[0] == x {
      assert forall v :: v in s <==> v == s[0] || v in s[1..];
      assert forall k :: 0 <= k < |s| - 1 ==> s[1..][k] == s[k + 1];
    } else {
      assert Distinct(s[1..]) by {
        assert forall k :: 0 <= k < |s| - 1 ==> s[1..][k] == s[k + 1];
      }
      RemoveFirstMembers(s[1..], x);
      var rest := RemoveFirst(s[1..], x);
      assert RemoveFirst(s, x) == [s[0]] + rest;
      assert forall v :: v in RemoveFirst(s, x) <==> v == s[0] || v in rest;
      assert s[0] !in rest by {
        assert s[0] !in s[1..] by {
          forall k | 0 <= k < |s| - 1 ensures s[1..][k] != s[0] {
            assert s[1..][k] == s[k + 1];
          }
        }
      }
      var r := [s[0]] + rest;
      forall i, j | 0 <= i < j < |r| ensures r[i] != r[j] {
        if i == 0 {
          assert r[j] == rest[j - 1];
        } else {
          assert r[i] == rest[i - 1] && r[j] == rest[j - 1];
        }
      }
    }
  }

  /** remove takes exactly one x out of the bag. */
  lemma {:induction false} RemoveFirstBag(s: seq<int>, x: int)
    requires x in s
    ensures multiset(RemoveFirst(s, x)) == multiset(s) - multiset{x}
  {
    assert s == [s[0]] + s[1..];
    if s[0] != x {
      RemoveFirstBag(s[1..], x);
    }
  }

  /** Removing the element just appended gives the list back. */
  lemma {:induction false} RemoveAppended(s: seq<int>, x: int)
    requires x !in s
    ensures RemoveFirst(s + [x], x) == s
  {
    if s != [] {
      assert (s + [x])[0] == s[0] && (s + [x])[1..] == s[1..] + [x];
      assert x !in s[1..] by {
        forall k | 0 <= k < |s| - 1 ensures s[1..][k] != x {
          assert s[1..][k] == s[k + 1];
        }
      }
      RemoveAppended(s[1..], x);
    }
  }

  /** After the toggle the user is a favorite exactly when they were not
      before; every other user keeps their standing, and no one appears
      twice. */
  lemma ToggleFlips(favorites: seq<int>, u: int)
    requires Distinct(favorites)
    ensures u in Toggle(favorites, u) <==> u !in favorites
    ensures forall v :: v != u ==> (v in Toggle(favorites, u) <==> v in favorites)
    ensures Distinct(Toggle(favorites, u))
  {
    if u in favorites {
      RemoveFirstMembers(favorites, u);
    } else {
      var r := favorites + [u];
      assert forall v :: v in r <==> v in favorites || v == u;
      forall i, j | 0 <= i < j < |r| ensures r[i] != r[j] {
        if j == |favorites| {
          assert r[i] == favorites[i];
        } else {
          assert r[i] == favorites[i] && r[j] == favorites[j];
        }
      }
    }
  }

  /** Liking and then unliking gives back the very list. */
  lemma ToggleTwiceFromAbsent(favorites: seq<int>, u: int)
    requires u !in favorites
    ensures Toggle(Toggle(favorites, u), u) == favorites
  {
    RemoveAppended(favorites, u);
  }

  /** Unliking and then liking gives back the same users, the one toggled
      moved to the end. */
  lemma ToggleTwiceFromPresent(favorites: seq<int>, u: int)
    requires u in favorites && Distinct(favorites)
    ensures multiset(Toggle(Toggle(favorites, u), u)) == multiset(favorites)
    ensures Toggle(Toggle(favorites, u), u) == RemoveFirst(favorites, u) + [u]
  {
    RemoveFirstMembers(favorites, u);
    RemoveFirstBag(favorites, u);
  }

  // ---------------------------------------------------------------------
  // The toggle on the user_post relation

  /** user_post after the user's like of the post is flipped. */
  function ToggledLikes(likes: set<UserPost>, u: int, postId: int): (r: set<UserPost>)
    ensures UserPost(u, postId) in r <==> UserPost(u, postId) !in likes
    ensures forall l :: l != UserPost(u, postId) ==> (l in r <==> l in likes)
  {
    if UserPost(u, postId) in likes then likes - {UserPost(u, postId)} else likes + {UserPost(u, postId)}
  }

  /** Flipping the same like twice restores the relation. */
  lemma ToggledLikesTwice(likes: set<UserPost>, u: int, postId: int)
    ensures ToggledLikes(ToggledLikes(likes, u, postId), u, postId) == likes
  {
  }

  /** Writing back a post whose favorites list was toggled flips exactly one
      user_post row. */
  lemma RelinkIsToggle(likes: set<UserPost>, postId: int, favorites: seq<int>, u: int)
    requires Distinct(favorites)
    requires forall v :: v in favorites <==> UserPost(v, postId) in likes
    ensures LikesWithoutPost(likes, postId) + Links(Toggle(favorites, u), postId) == ToggledLikes(likes, u, postId)
  {
    ToggleFlips(favorites, u);
  }

  /** Ids in strictly ascending order are distinct. */
  lemma AscendingIsDistinct(s: seq<int>)
    requires forall i, j :: 0 <= i < j < |s| ==> s[i] < s[j]
    ensures Distinct(s)
  {
  }

  // ---------------------------------------------------------------------
  // update_favorites, get_by_owner

  /** update_favorites(db, post_id, user): 400 on one's own post, writing
      nothing; otherwise the user is appended to or removed from the post's
      favorites, and the post is written back. */
  method UpdateFavorites(db: Database, postId: int, user: User) returns (r: Outcome<Fault>)
    requires db.Valid() && postId in db.posts && user.id in db.users
    modifies db
    ensures db.Valid()
    ensures r.Fail? <==> old(db.posts[postId].ownerId) == Some(user.id)
    ensures r.Fail? ==> r.error == BadRequest && unchanged(db)
    ensures r.Pass? ==> db.likes == ToggledLikes(old(db.likes), user.id, postId)
    ensures r.Pass? ==> (user.id in db.Favorites(postId) <==> user.id !in old(db.Favorites(postId)))
    ensures db.users == old(db.users) && db.posts == old(db.posts)
    ensures db.nextUserId == old(db.nextUserId) && db.nextPostId == old(db.nextPostId)
    ensures old(db.NoSelfLikes()) ==> db.NoSelfLikes()
    ensures old(db.UniqueAccounts()) ==> db.UniqueAccounts()
  {
    var post := db.PostById(postId);
    if post.value.ownerId == Some(user.id) {
      return Fail(BadRequest);
    }
    ghost var before := db.likes;
    var favorites := db.Favorites(postId);
    ghost var current := favorites;
    AscendingIsDistinct(favorites);
    RelinkIsToggle(before, postId, current, user.id);
    ToggleFlips(current, user.id);
    if user.id !in favorites {
      favorites := favorites + [user.id];
    } else {
      favorites := RemoveFirst(favorites, user.id);
    }
    assert favorites == Toggle(current, user.id);
    forall i | 0 <= i < |favorites| ensures favorites[i] in db.users {
      var v := favorites[i];
      if v != user.id {
        assert v in current;
        assert UserPost(v, postId) in db.likes;
      }
    }
    db.PartialUpdate(postId, favorites);
    assert db.likes == ToggledLikes(before, user.id, postId);
    ToggleKeepsNoSelfLikes(db.posts, before, user.id, postId);
    r := Pass;
  }

  /** A like that is not of one's own post keeps the rule that nobody likes
      their own post. */
  lemma ToggleKeepsNoSelfLikes(posts: map<int, Post>, likes: set<UserPost>, u: int, postId: int)
    requires postId in posts && posts[postId].ownerId != Some(u)
    ensures NoSelfLikesIn(posts, likes) ==> NoSelfLikesIn(posts, ToggledLikes(likes, u, postId))
  {
  }

  /** get_by_owner(db, user): the views of the user's posts, each once. */
  function GetByOwner(db: Database, user: User): (r: seq<PostView>)
    reads db
    requires db.Valid()
    ensures forall id :: id in db.posts && db.posts[id].ownerId == Some(user.id) ==>
      BaseService.PostViewOf(db, db.posts[id]) in r
    ensures forall i :: 0 <= i < |r| ==>
      r[i].id in db.posts && r[i] == BaseService.PostViewOf(db, db.posts[r[i].id]) && r[i].ownerId == Some(user.id)
    ensures forall i, j :: 0 <= i < j < |r| ==> r[i].id < r[j].id
  {
    BaseService.PostViews(db, db.PostsByOwner(user.id))
  }
}
