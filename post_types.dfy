/** The post entity and its payloads (types/post.go): creation-payload
    validation, the change-set of an update, and the construction of a post
    from a creation payload. */
module PostTypes {
  import opened Common
  import opened Mongo

  const MinContentLen: nat := 10

  /** A stored post. `author` refers to a user by id; nothing checks that
      the user exists. */
  datatype Post = Post(
    id: ObjectId,
    content: GoString,
    author: ObjectId,
    createdAt: Time,
    updatedAt: Time)

  /** `createdAt` is part of the payload's shape, but construction ignores it. */
  datatype CreatePostParams = CreatePostParams(
    content: GoString,
    createdAt: Time,
    author: GoString)

  datatype UpdatePostParams = UpdatePostParams(content: GoString)

  /** `UpdatePostParams.ToBSON` at instant `now`: the content when it is
      non-empty, and the update instant always. */
  function ToBson(p: UpdatePostParams, now: Time): (m: ChangeSet)
    ensures "updated_at" in m && m["updated_at"] == BDateTime(now)
    ensures "content" in m <==> |p.content| > 0
    ensures "content" in m ==> m["content"] == BString(p.content)
    ensures m.Keys <= {"content", "updated_at"}
  {
    var m0: ChangeSet := map[];
    var m1 := if |p.content| > 0 then m0["content" := BString(p.content)] else m0;
    m1["updated_at" := BDateTime(now)]
  }

  /** The message `fmt.Sprintf("content length should be at least %d characters", minContentLen)`. */
  function ContentViolation(): GoString
  {
    "content length should be at least " + Decimal(MinContentLen) + " characters"
  }

  /** The content message as the user reads it. */
  lemma ContentMessage()
    ensures ContentViolation() == "content length should be at least 10 characters"
  {
    assert Decimal(1) == "1";
    assert Decimal(10) == Decimal(1) + "0";
  }

  /** `CreatePostParams.Validate`: only the content length is checked. */
  method Validate(p: CreatePostParams) returns (errors: map<string, GoString>)
    ensures "content" in errors <==> |p.content| < MinContentLen
    ensures errors.Keys <= {"content"}
    ensures "content" in errors ==> errors["content"] == ContentViolation()
    ensures errors == map[] <==> |p.content| >= MinContentLen
  {
    errors := map[];
    if |p.content| < MinContentLen {
      errors := errors["content" := ContentViolation()];
    }
  }

  /** `NewPostFromParams` at instant `now`: never fails; a malformed author
      string silently becomes the zero ObjectID. */
  function NewPostFromParams(p: CreatePostParams, now: Time): (post: Post)
    ensures post.content == p.content
    ensures post.createdAt == now && post.updatedAt == ZeroTime && post.id == Nil
    ensures |p.author| == 24 && AllHex(p.author) ==> ObjectIdFromHex(p.author) == Ok(post.author)
    ensures !(|p.author| == 24 && AllHex(p.author)) ==> post.author == Nil
  {
    Post(Nil, p.content, IdOrNil(p.author), now, ZeroTime)
  }

  /** A post built from the printed form of a user's id names that user
      as its author. */
  lemma NewPostAuthorRoundTrip(p: CreatePostParams, now: Time, user: ObjectId)
    requires p.author == Hex(user)
    ensures NewPostFromParams(p, now).author == user
  {
    HexRoundTrip(user);
  }
}
