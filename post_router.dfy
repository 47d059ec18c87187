/** The decisions of routers/post_router.py: who owns a new post, who may
    update or delete one, and where an uploaded picture is published. The
    file itself is not written here; `hex` is the uuid4 hex the upload was
    named with. */
module PostRouter {
  import opened Wrappers
  import opened Models
  import opened Schemas
  import opened Dao
  import BaseService
  import Utils

  /** An UploadFile, reduced to the name the client gave it. */
  datatype Upload = Upload(filename: Option<string>)

  /** settings.PICTURE_URL, the prefix of every published picture. */
  const PictureUrl := "/images/picture/"

  /** `if picture: post_data.image = save_file_and_get_url(PICTURE_URL, ...)`:
      no upload leaves the image alone; an upload whose name cannot be turned
      into a safe file name is a 400; otherwise the picture is published under
      PICTURE_URL, the hex, a dot and the upload's extension. */
  function PictureLocation(picture: Option<Upload>, hex: string): (r: Result<Option<string>, Fault>)
    ensures picture.None? ==> r == Ok(None)
    ensures picture.Some? ==> (r.Ok? <==> picture.value.filename.Some?)
    ensures r.Err? ==> r.error == BadRequest
    ensures picture.Some? && r.Ok? ==>
      && r.value.Some?
      && var url := r.value.value;
         && |url| > |PictureUrl| + |hex| && url[..|PictureUrl| + |hex| + 1] == PictureUrl + hex + "."
         && Utils.IsLastSegment(picture.value.filename.value, url[|PictureUrl| + |hex| + 1..])
  {
    match picture
    case None => Ok(None)
    case Some(upload) =>
      match Utils.CreateSafeFilename(upload.filename, hex)
      case NotCreated => Err(BadRequest)
      case Created(name) =>
        var url := PictureUrl + name;
        assert url[..|PictureUrl| + |hex| + 1] == PictureUrl + name[..|hex| + 1];
        assert url[|PictureUrl| + |hex| + 1..] == name[|hex| + 1..];
        Ok(Some(url))
  }

  /** The guard shared by update_post and delete_post: get_by_id answers 404
      for a missing post, and `post.owner_id != current_user.id` is a 403, so
      a post without an owner is closed to everyone. */
  function OwnerCheck(db: Database, postId: int, userId: int): (r: Outcome<Fault>)
    reads db
    requires db.Valid()
    ensures r.Pass? <==> postId in db.posts && db.posts[postId].ownerId == Some(userId)
    ensures r == Fail(NotFound) <==> postId !in db.posts
    ensures r == Fail(Forbidden) <==> postId in db.posts && db.posts[postId].ownerId != Some(userId)
  {
    match BaseService.GetPostById(db, postId)
    case Err(f) => Fail(f)
    case Ok(post) => if post.ownerId != Some(userId) then Fail(Forbidden) else Pass
  }

  /** Nobody passes the guard on a post whose owner was deleted. */
  lemma OwnerlessPostIsClosed(db: Database, postId: int, userId: int)
    requires db.Valid() && postId in db.posts && db.posts[postId].ownerId.None?
    ensures OwnerCheck(db, postId, userId) == Fail(Forbidden)
  {
  }

  /** After an owner deletes their account, none of their old posts can be
      updated or deleted by anyone, the former owner included. */
  lemma DisownedPostIsClosed(db: Database, posts: map<int, Post>, owner: int, postId: int, userId: int)
    requires db.Valid() && db.posts == Disown(posts, owner)
    requires postId in posts && posts[postId].ownerId == Some(owner)
    ensures OwnerCheck(db, postId, userId) == Fail(Forbidden)
  {
    OwnerlessPostIsClosed(db, postId, userId);
  }

  /** create_post: the post belongs to the acting user and starts with no
      favorites; a picture whose name cannot be made safe is a 400 before
      anything is written, and a value the table refuses (an image URL over
      255 characters) is add_new's 400. */
  method CreatePost(db: Database, currentUser: User, text: string, picture: Option<Upload>, hex: string)
    returns (r: Result<PostView, Fault>)
    requires db.Valid() && currentUser.id in db.users
    modifies db
    ensures db.Valid()
    ensures PictureLocation(picture, hex).Err? ==> r == Err(BadRequest) && unchanged(db)
    ensures r.Ok? <==> PictureLocation(picture, hex).Ok? && Fits(PictureLocation(picture, hex).value, ImageWidth)
    ensures r.Err? ==> r.error == BadRequest && db.posts == old(db.posts)
    ensures r.Ok? ==>
      && r.value.ownerId == Some(currentUser.id) && r.value.favorites == []
      && r.value.text == text && r.value.image == PictureLocation(picture, hex).value
      && r.value.id !in old(db.posts)
      && db.posts == old(db.posts)[r.value.id := Post(r.value.id, text, r.value.image, Some(currentUser.id))]
    ensures db.users == old(db.users) && db.likes == old(db.likes) && db.nextUserId == old(db.nextUserId)
    ensures PictureLocation(picture, hex).Ok? ==> db.nextPostId == old(db.nextPostId) + 1
    ensures old(db.NoSelfLikes()) ==> db.NoSelfLikes()
    ensures old(db.UniqueAccounts()) ==> db.UniqueAccounts()
  {
    var postData := CreatePostSchema(text, Some(currentUser.id), []);
    var image := PictureLocation(picture, hex);
    if image.Err? {
      return Err(image.error);
    }
    postData := postData.(image := image.value);
    r := BaseService.AddPost(db, postData);
  }

  /** update_post with the corrected UpdatePostSchema: 404 for a missing post
      and 403 for anyone but its owner, both before anything is written; then
      the text, when one was sent, and the picture, when one was uploaded.
      The owner and the favorites are never written. */
  method UpdatePost(db: Database, postId: int, text: Option<string>, picture: Option<Upload>,
                    currentUser: User, hex: string) returns (r: Outcome<Fault>)
    requires db.Valid()
    modifies db
    ensures db.Valid()
    ensures old(OwnerCheck(db, postId, currentUser.id)).Fail? ==>
      r == old(OwnerCheck(db, postId, currentUser.id)) && unchanged(db)
    ensures old(OwnerCheck(db, postId, currentUser.id)).Pass? && PictureLocation(picture, hex).Err? ==>
      r == Fail(BadRequest) && unchanged(db)
    ensures old(OwnerCheck(db, postId, currentUser.id)).Pass? && PictureLocation(picture, hex).Ok? ==>
      var image := PictureLocation(picture, hex).value;
      && (r.Fail? <==> !Fits(image, ImageWidth))
      && (r.Fail? ==> r.error == BadRequest && db.posts == old(db.posts))
      && (r.Pass? ==> db.posts == old(db.posts)[postId := ApplyPostChanges(old(db.posts[postId]), PostChanges(Some(postId), text, image))])
    ensures r.Pass? ==>
      && postId in old(db.posts) && old(db.posts[postId].ownerId) == Some(currentUser.id)
      && db.posts[postId].ownerId == old(db.posts[postId].ownerId)
      && db.posts[postId].text == (if text.Some? then text.value else old(db.posts[postId].text))
    ensures db.users == old(db.users) && db.likes == old(db.likes)
    ensures db.nextUserId == old(db.nextUserId) && db.nextPostId == old(db.nextPostId)
    ensures old(db.NoSelfLikes()) ==> db.NoSelfLikes()
    ensures old(db.UniqueAccounts()) ==> db.UniqueAccounts()
  {
    var guard := OwnerCheck(db, postId, currentUser.id);
    if guard.Fail? {
      return guard;
    }
    var postData := UpdatePostSchema(postId, text);
    var image := PictureLocation(picture, hex);
    if image.Err? {
      return Fail(image.error);
    }
    if picture.Some? {
      postData := postData.(image := image.value);
    }
    r := BaseService.UpdatePost(db, postData);
  }

  /** delete_post: 404 for a missing post and 403 for anyone but its owner,
      writing nothing; otherwise the post goes, with its likes. */
  method DeletePost(db: Database, postId: int, currentUser: User) returns (r: Outcome<Fault>)
    requires db.Valid()
    modifies db
    ensures db.Valid()
    ensures r == old(OwnerCheck(db, postId, currentUser.id))
    ensures r.Fail? ==> unchanged(db)
    ensures r.Pass? ==>
      && db.posts == old(db.posts) - {postId}
      && db.likes == LikesWithoutPost(old(db.likes), postId)
    ensures db.users == old(db.users)
    ensures db.nextUserId == old(db.nextUserId) && db.nextPostId == old(db.nextPostId)
    ensures old(db.NoSelfLikes()) ==> db.NoSelfLikes()
    ensures old(db.UniqueAccounts()) ==> db.UniqueAccounts()
  {
    var guard := OwnerCheck(db, postId, currentUser.id);
    if guard.Fail? {
      return guard;
    }
    r := BaseService.DeletePost(db, postId);
  }
}
