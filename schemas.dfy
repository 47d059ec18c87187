/** services/schemas.py: the pydantic schemas that validate what comes in and
    shape what goes out. A schema that can refuse its input answers a Result
    whose error side lists the reasons, in field order, as pydantic collects
    them. EmailStr's syntax check and normal form, and the deliverability
    lookup of validate_email, are function parameters. */
module Schemas {
  import opened Wrappers
  import opened Models
  import Utils

  /** What a validator reports. */
  datatype Reason =
    | AgeNotPositive                      // PositiveInt
    | AgeTooYoung | AgeTooOld             // validate_age
    | EmailMalformed                      // EmailStr
    | EmailUndeliverable                  // validate_email
    | BadPassword(error: Utils.PasswordError)   // validate_password
    | TextMissing                         // the required `text: str`

  const MinAge: int := 14
  const MaxAge: int := 100

  // ---------------------------------------------------------------------
  // BaseUserSchema.age

  /** `age: PositiveInt | None` and then validate_age, which only runs when the
      type check passed. */
  function ValidateAge(age: Option<int>): (r: Result<Option<int>, Reason>)
    ensures r.Ok? <==> age.None? || MinAge <= age.value <= MaxAge
    ensures r.Ok? ==> r.value == age
    ensures r == Err(AgeNotPositive) <==> age.Some? && age.value <= 0
    ensures r == Err(AgeTooYoung) <==> age.Some? && 0 < age.value < MinAge
    ensures r == Err(AgeTooOld) <==> age.Some? && age.value > MaxAge
  {
    match age
    case None => Ok(None)
    case Some(n) =>
      if n <= 0 then Err(AgeNotPositive)
      else if n < MinAge then Err(AgeTooYoung)
      else if n > MaxAge then Err(AgeTooOld)
      else Ok(age)
  }

  function AgeErrors(age: Option<int>): seq<Reason> {
    if ValidateAge(age).Err? then [ValidateAge(age).error] else []
  }

  // ---------------------------------------------------------------------
  // UserRegisterSchema

  /** The form fields register_user passes to UserRegisterSchema. */
  datatype RegisterForm = RegisterForm(
    username: string, email: string, name: Option<string>, surname: Option<string>,
    age: Option<int>, password: string, passwordRepeat: string)

  /** `email: EmailStr`, then validate_email (existence by SMTP). EmailStr
      either refuses the string or hands on its normal form (surrounding
      blanks stripped, a "Name <address>" reduced to the address, the domain
      lower-cased), and validate_email sees that normal form. */
  function EmailErrors(email: string, wellFormed: string -> bool, normalize: string -> string,
                       deliverable: string -> bool): seq<Reason> {
    if !wellFormed(email) then [EmailMalformed]
    else if !deliverable(normalize(email)) then [EmailUndeliverable]
    else []
  }

  function PasswordErrors(password: string, repeat: string): seq<Reason> {
    match Utils.ValidatePasswords(password, repeat)
    case Pass => []
    case Fail(e) => [BadPassword(e)]
  }

  /** UserRegisterSchema(...).dict(): the field validators run in field order
      (email, then age), then the root validator validate_password, which
      runs even when a field failed. On success `password_repeat` is gone,
      `email` holds EmailStr's normal form of what was sent and `password`
      holds the encoded password. */
  function RegisterSchema(form: RegisterForm, wellFormed: string -> bool, normalize: string -> string,
                          deliverable: string -> bool, encode: string -> string): (r: Result<NewUser, seq<Reason>>)
    ensures r.Ok? <==>
      && wellFormed(form.email) && deliverable(normalize(form.email)) && ValidateAge(form.age).Ok?
      && Utils.ValidatePasswords(form.password, form.passwordRepeat) == Pass
    ensures r.Ok? ==>
      r.value == NewUser(form.username, normalize(form.email), None, form.name, form.surname, form.age,
                         encode(form.password))
    ensures r.Ok? ==> Utils.CheckPassword(encode, form.password, r.value.password)
    ensures !wellFormed(form.email) ==> r.Err? && EmailMalformed in r.error
    ensures wellFormed(form.email) && !deliverable(normalize(form.email)) ==> r.Err? && EmailUndeliverable in r.error
    ensures ValidateAge(form.age).Err? ==> r.Err? && ValidateAge(form.age).error in r.error
    ensures Utils.ValidatePasswords(form.password, form.passwordRepeat).Fail? ==>
      r.Err? && BadPassword(Utils.ValidatePasswords(form.password, form.passwordRepeat).error) in r.error
  {
    var errors := EmailErrors(form.email, wellFormed, normalize, deliverable) + AgeErrors(form.age)
                  + PasswordErrors(form.password, form.passwordRepeat);
    if errors != [] then Err(errors)
    else
      Utils.CheckPasswordAcceptsOwnHash(encode, form.password);
      Ok(NewUser(form.username, normalize(form.email), None, form.name, form.surname, form.age, encode(form.password)))
  }

  // ---------------------------------------------------------------------
  // UserUpdateSchema

  /** UserUpdateSchema(...).dict(exclude_none=True): the pre root validator
      drops email, id and username whatever the caller sent, and the age is
      checked as at registration. */
  function UserUpdateSchema(values: UserChanges): (r: Result<UserChanges, seq<Reason>>)
    ensures r.Ok? <==> ValidateAge(values.age).Ok?
    ensures r.Ok? ==> r.value.id.None? && r.value.email.None? && r.value.username.None?
    ensures r.Ok? ==>
      r.value.name == values.name && r.value.surname == values.surname
      && r.value.age == values.age && r.value.avatar == values.avatar
    ensures r.Err? ==> r.error == [ValidateAge(values.age).error]
  {
    if ValidateAge(values.age).Err? then Err([ValidateAge(values.age).error])
    else Ok(values.(id := None, email := None, username := None))
  }

  /** However a user fills the update form, once the caller's own id is put
      back the stored row keeps its id, email, username and password. */
  lemma UserUpdateKeepsIdentity(u: User, values: UserChanges)
    requires UserUpdateSchema(values).Ok?
    ensures var c := UserUpdateSchema(values).value.(id := Some(u.id));
      var v := ApplyUserChanges(u, c);
      v.id == u.id && v.email == u.email && v.username == u.username && v.password == u.password
  {
  }

  // ---------------------------------------------------------------------
  // CreatePostSchema and UpdatePostSchema

  /** CreatePostSchema(...).dict(): the pre root validator drops whatever
      favorites the caller sent, so a new post starts with none. */
  function CreatePostSchema(text: string, ownerId: Option<int>, favorites: seq<int>): (r: NewPost)
    ensures r.favorites == []
    ensures r.text == text && r.ownerId == ownerId && r.image.None?
  {
    NewPost(text, None, [], ownerId)
  }

  /** UpdatePostSchema(id=..., text=...) as written: `text: str` is inherited
      from BasePostSchema as required, so a form without text is a
      ValidationError, which update_post does not catch. */
  function UpdatePostSchemaAsWritten(id: int, text: Option<string>): (r: Result<PostChanges, seq<Reason>>)
    ensures r.Ok? <==> text.Some?
    ensures r.Ok? ==> r.value == PostChanges(Some(id), text, None)
    ensures r.Err? ==> r.error == [TextMissing]
  {
    if text.None? then Err([TextMissing]) else Ok(PostChanges(Some(id), text, None))
  }

  /** A picture-only update, which the route's `text=Form(default=None)`
      offers, is refused by the schema as written. */
  lemma PictureOnlyUpdateRefusedAsWritten(id: int)
    ensures UpdatePostSchemaAsWritten(id, None) == Err([TextMissing])
  {
  }

  /** UpdatePostSchema with `text` optional, as the route intends; with
      exclude_none an omitted text is not written. */
  function UpdatePostSchema(id: int, text: Option<string>): (r: PostChanges)
    ensures r.id == Some(id) && r.text == text && r.image.None?
  {
    PostChanges(Some(id), text, None)
  }

  /** The corrected schema accepts every form, and an update built from it
      changes the text only when a text was sent and the image only when a
      picture was. */
  lemma UpdatePostSchemaKeepsOmittedFields(p: Post, text: Option<string>, image: Option<string>)
    ensures var q := ApplyPostChanges(p, UpdatePostSchema(p.id, text).(image := image));
      && q.id == p.id && q.ownerId == p.ownerId
      && q.text == (if text.Some? then text.value else p.text)
      && q.image == (if image.Some? then image else p.image)
  {
  }

  // ---------------------------------------------------------------------
  // PostSchema and UserSchema (from_orm)

  /** An entry of a related list: an id, or an ORM object carrying one. */
  datatype Related = Id(n: int) | Row(id: int)

  function IdOf(x: Related): int {
    match x
    case Id(n) => n
    case Row(id) => id
  }

  predicate AllIds(items: seq<Related>) {
    forall i :: 0 <= i < |items| ==> items[i].Id?
  }

  predicate AllRows(items: seq<Related>) {
    forall i :: 0 <= i < |items| ==> items[i].Row?
  }

  /** The pre root validators of PostSchema (favorites) and UserSchema
      (liked_posts, created_posts), then the `list[int]` check: a list whose
      first entry is not an int is mapped to the entries' ids, and a list left
      with a non-int in it fails. None is that failure. */
  function RelatedIds(items: seq<Related>): (r: Option<seq<int>>)
    ensures r.Some? <==> AllIds(items) || AllRows(items)
    ensures r.Some? ==> |r.value| == |items| && forall i :: 0 <= i < |items| ==> r.value[i] == IdOf(items[i])
  {
    if items == [] then Some([])
    else if items[0].Id? then
      if AllIds(items) then Some(seq(|items|, i requires 0 <= i < |items| => IdOf(items[i]))) else None
    else if AllRows(items) then Some(seq(|items|, i requires 0 <= i < |items| => items[i].id))
    else None
  }

  function Ids(ns: seq<int>): (r: seq<Related>)
    ensures |r| == |ns| && AllIds(r)
    ensures forall i :: 0 <= i < |ns| ==> IdOf(r[i]) == ns[i]
  {
    seq(|ns|, i requires 0 <= i < |ns| => Id(ns[i]))
  }

  function Objects(ns: seq<int>): (r: seq<Related>)
    ensures |r| == |ns| && AllRows(r)
    ensures forall i :: 0 <= i < |ns| ==> IdOf(r[i]) == ns[i]
  {
    seq(|ns|, i requires 0 <= i < |ns| => Row(ns[i]))
  }

  /** The ORM's related objects become exactly their ids, in order. */
  lemma RelatedObjectsBecomeIds(ns: seq<int>)
    ensures RelatedIds(Objects(ns)) == Some(ns)
  {
    var items := Objects(ns);
    if ns != [] {
      assert !items[0].Id?;
      assert RelatedIds(items).value == ns;
    }
  }

  /** Validating again what one validation produced changes nothing. */
  lemma RelatedIdsIdempotent(items: seq<Related>)
    requires RelatedIds(items).Some?
    ensures RelatedIds(Ids(RelatedIds(items).value)) == RelatedIds(items)
  {
    var ns := RelatedIds(items).value;
    if ns != [] {
      assert Ids(ns)[0].Id?;
      assert RelatedIds(Ids(ns)).value == ns;
    }
  }

  /** An int first and an object later is refused. */
  lemma MixedRelatedListRefused(n: int, id: int)
    ensures RelatedIds([Id(n), Row(id)]).None?
    ensures RelatedIds([Row(id), Id(n)]).None?
  {
    assert [Id(n), Row(id)][0] == Id(n) && [Id(n), Row(id)][1] == Row(id);
    assert [Row(id), Id(n)][1] == Id(n);
    assert [Row(id), Id(n)][0] == Row(id);
  }

  /** UserSchema: every column but the password, and the related lists as ids. */
  datatype UserView = UserView(
    id: int, email: string, username: string, name: Option<string>, surname: Option<string>,
    age: Option<int>, avatar: Option<string>, likedPosts: seq<int>, createdPosts: seq<int>)

  /** PostSchema. */
  datatype PostView = PostView(id: int, text: string, image: Option<string>, favorites: seq<int>, ownerId: Option<int>)

  /** UserSchema.from_orm. */
  function UserSchemaOf(u: User, liked: seq<Related>, created: seq<Related>): (r: Option<UserView>)
    ensures r.Some? <==> RelatedIds(liked).Some? && RelatedIds(created).Some?
    ensures r.Some? ==>
      && r.value.id == u.id && r.value.email == u.email && r.value.username == u.username
      && r.value.name == u.name && r.value.surname == u.surname && r.value.age == u.age
      && r.value.avatar == u.avatar
      && r.value.likedPosts == RelatedIds(liked).value && r.value.createdPosts == RelatedIds(created).value
  {
    match (RelatedIds(liked), RelatedIds(created))
    case (Some(l), Some(c)) => Some(UserView(u.id, u.email, u.username, u.name, u.surname, u.age, u.avatar, l, c))
    case _ => None
  }

  /** PostSchema.from_orm. */
  function PostSchemaOf(p: Post, favorites: seq<Related>): (r: Option<PostView>)
    ensures r.Some? <==> RelatedIds(favorites).Some?
    ensures r.Some? ==>
      r.value == PostView(p.id, p.text, p.image, RelatedIds(favorites).value, p.ownerId)
  {
    match RelatedIds(favorites)
    case Some(f) => Some(PostView(p.id, p.text, p.image, f, p.ownerId))
    case None => None
  }
}
