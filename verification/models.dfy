/**
 * The three stored record kinds (posts, media images, users) and the
 * schema rules applied when a record is created: required fields, default
 * values and the Gmail-only e-mail validator.
 *
 * A required `String` path rejects a value that is missing, `null` or the
 * empty string; creation reports every failing path at once, so a failed
 * creation is modelled as the set of failing field names.
 */
module Models {
  import opened Common
  import opened Strings

  /** A stored post. `uploadTime` is a timestamp in milliseconds. */
  datatype Post = Post(
    id: string,
    title: string,
    bodyText: string,
    author: string,
    uploadTime: int,
    status: string,
    likes: int,
    comments: int,
    tags: seq<string>)

  /**
   * A stored media record: the owning post, the opaque hosting-service handle
   * and, once resolved, the file path on the hosting service.
   */
  datatype Image = Image(
    postId: string,
    fileId: string,
    filePath: Option<string>,
    caption: Option<string>)

  /** A stored user. `likes` may be missing from older records. */
  datatype User = User(
    name: string,
    username: string,
    email: string,
    password: string,
    rooms: string,
    rank: string,
    likes: Option<seq<string>>)

  /** The liked post ids of a user; a record without the field has none. */
  function LikesOf(u: User): seq<string> {
    if u.likes.Some? then u.likes.value else []
  }

  const DefaultStatus := "Ok"
  const GmailSuffix := "@gmail.com"

  /** The e-mail validator of the user schema: the address ends in `@gmail.com`. */
  predicate IsGmail(email: string) {
    EndsWith(email, GmailSuffix)
  }

  /** Field values handed to the post constructor; `None` means the caller left the field out. */
  datatype PostFields = PostFields(
    title: Option<string>,
    bodyText: Option<string>,
    author: Option<string>,
    uploadTime: Option<int>,
    status: Option<string>,
    likes: Option<int>,
    comments: Option<int>,
    tags: Option<seq<string>>)

  function GetOr<T>(o: Option<T>, default: T): T {
    if o.Some? then o.value else default
  }

  /** The names of the required post fields that `f` fails to supply. */
  function MissingPostFields(f: PostFields): set<string> {
    (if Truthy(f.title) then {} else {"title"})
    + (if Truthy(f.bodyText) then {} else {"bodyText"})
    + (if Truthy(f.author) then {} else {"author"})
  }

  /**
   * Creating a post: `title`, `bodyText` and `author` are required;
   * `uploadTime` defaults to the creation time `now`, `status` to "Ok",
   * `likes` and `comments` to 0 and `tags` to the empty list.
   */
  function NewPost(id: string, f: PostFields, now: int): (r: Result<Post, set<string>>)
    ensures r.Ok? <==> Truthy(f.title) && Truthy(f.bodyText) && Truthy(f.author)
    ensures r.Err? ==> ("title" in r.error <==> !Truthy(f.title))
    ensures r.Err? ==> ("bodyText" in r.error <==> !Truthy(f.bodyText))
    ensures r.Err? ==> ("author" in r.error <==> !Truthy(f.author))
    ensures r.Ok? ==> r.value.id == id && r.value.title == f.title.value
                      && r.value.bodyText == f.bodyText.value && r.value.author == f.author.value
    ensures r.Ok? ==> r.value.title != "" && r.value.bodyText != "" && r.value.author != ""
    ensures r.Ok? && f.likes.Some? ==> r.value.likes == f.likes.value
    ensures r.Ok? && f.comments.Some? ==> r.value.comments == f.comments.value
    ensures r.Ok? && f.tags.Some? ==> r.value.tags == f.tags.value
    ensures r.Ok? && f.status.Some? ==> r.value.status == f.status.value
    ensures r.Ok? && f.uploadTime.Some? ==> r.value.uploadTime == f.uploadTime.value
    ensures r.Ok? && f.likes.None? ==> r.value.likes == 0
    ensures r.Ok? && f.comments.None? ==> r.value.comments == 0
    ensures r.Ok? && f.tags.None? ==> r.value.tags == []
    ensures r.Ok? && f.status.None? ==> r.value.status == DefaultStatus
    ensures r.Ok? && f.uploadTime.None? ==> r.value.uploadTime == now
  {
    var missing := MissingPostFields(f);
    if missing != {} then Err(missing)
    else Ok(Post(
      id, f.title.value, f.bodyText.value, f.author.value,
      GetOr(f.uploadTime, now), GetOr(f.status, DefaultStatus),
      GetOr(f.likes, 0), GetOr(f.comments, 0), GetOr(f.tags, [])))
  }

  /** Field values handed to the user constructor. */
  datatype UserFields = UserFields(
    name: Option<string>,
    username: Option<string>,
    email: Option<string>,
    password: Option<string>,
    rooms: Option<string>,
    rank: Option<string>,
    likes: Option<seq<string>>)

  /** The names of the user fields that fail their schema rule. */
  function InvalidUserFields(f: UserFields): set<string> {
    (if Truthy(f.name) then {} else {"name"})
    + (if Truthy(f.username) then {} else {"username"})
    + (if Truthy(f.email) && IsGmail(f.email.value) then {} else {"email"})
    + (if Truthy(f.password) then {} else {"password"})
    + (if Truthy(f.rank) then {} else {"rank"})
  }

  /**
   * Creating a user: `name`, `username`, `password` and `rank` are required,
   * `email` is required and must end in `@gmail.com`; `rooms` defaults to the
   * empty string. `likes` is not required; an array path receives an empty
   * list when the caller gives none.
   */
  function NewUser(f: UserFields): (r: Result<User, set<string>>)
    ensures r.Ok? <==> Truthy(f.name) && Truthy(f.username) && Truthy(f.password)
                       && Truthy(f.rank) && Truthy(f.email) && IsGmail(f.email.value)
    ensures r.Err? ==> ("email" in r.error <==> !(Truthy(f.email) && IsGmail(f.email.value)))
    ensures r.Err? ==> ("name" in r.error <==> !Truthy(f.name))
    ensures r.Err? ==> ("username" in r.error <==> !Truthy(f.username))
    ensures r.Err? ==> ("password" in r.error <==> !Truthy(f.password))
    ensures r.Err? ==> ("rank" in r.error <==> !Truthy(f.rank))
    ensures r.Ok? ==> IsGmail(r.value.email) && r.value.rank == f.rank.value
    ensures r.Ok? ==> r.value.name == f.name.value && r.value.username == f.username.value
                      && r.value.email == f.email.value && r.value.password == f.password.value
    ensures r.Ok? && f.rooms.None? ==> r.value.rooms == ""
    ensures r.Ok? && f.rooms.Some? ==> r.value.rooms == f.rooms.value
    ensures r.Ok? && f.likes.None? ==> r.value.likes == Some([])
    ensures r.Ok? && f.likes.Some? ==> r.value.likes == f.likes
  {
    var invalid := InvalidUserFields(f);
    if invalid != {} then Err(invalid)
    else Ok(User(
      f.name.value, f.username.value, f.email.value, f.password.value,
      GetOr(f.rooms, ""), f.rank.value, Some(GetOr(f.likes, []))))
  }

  /** Field values handed to the image constructor. */
  datatype ImageFields = ImageFields(
    postId: Option<string>,
    fileId: Option<string>,
    filePath: Option<string>,
    caption: Option<string>)

  /**
   * Creating an image record: `postId` and `fileId` are required; `filePath`
   * and `caption` are optional, so a new record may be unresolved.
   */
  function NewImage(f: ImageFields): (r: Result<Image, set<string>>)
    ensures r.Ok? <==> Truthy(f.postId) && Truthy(f.fileId)
    ensures r.Err? ==> ("postId" in r.error <==> !Truthy(f.postId))
    ensures r.Err? ==> ("fileId" in r.error <==> !Truthy(f.fileId))
    ensures r.Ok? ==> r.value.postId == f.postId.value && r.value.fileId == f.fileId.value
    ensures r.Ok? ==> r.value.filePath == f.filePath && r.value.caption == f.caption
  {
    var missing := (if Truthy(f.postId) then {} else {"postId"})
                   + (if Truthy(f.fileId) then {} else {"fileId"});
    if missing != {} then Err(missing)
    else Ok(Image(f.postId.value, f.fileId.value, f.filePath, f.caption))
  }

  /** An image may be created without a file path or caption. */
  lemma UnresolvedImageAccepted(postId: string, fileId: string)
    requires postId != "" && fileId != ""
    ensures NewImage(ImageFields(Some(postId), Some(fileId), None, None))
            == Ok(Image(postId, fileId, None, None))
  {
  }

  /** A post created from title, body and author alone gets every default. */
  lemma PostDefaults(id: string, title: string, bodyText: string, author: string, now: int)
    requires title != "" && bodyText != "" && author != ""
    ensures NewPost(id, PostFields(Some(title), Some(bodyText), Some(author), None, None, None, None, None), now)
            == Ok(Post(id, title, bodyText, author, now, "Ok", 0, 0, []))
  {
  }
}
