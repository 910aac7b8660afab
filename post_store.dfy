/** The post store (db/post_store.go) over an in-memory collection: a map
    from `_id` to the stored post, changed as the MongoDB operators the
    store issues change it. */
module PostStore {
  import opened Common
  import opened Mongo
  import opened PostTypes

  type Posts = map<ObjectId, Post>

  /** Every post is stored under its own id. A collection may hold a post
      under the zero id, written by another client; `InsertPost` never
      stores one. */
  ghost predicate WellKeyed(docs: Posts)
  {
    forall k | k in docs :: docs[k].id == k
  }

  /** `$set` of a post change-set onto a stored post, read back as a `Post`. */
  function ApplySet(p: Post, m: ChangeSet): Post
  {
    p.(content := if "content" in m then DecodedString(m["content"]) else p.content,
       updatedAt := if "updated_at" in m then DecodedTime(m["updated_at"]) else p.updatedAt)
  }

  /** `UpdateOne({_id: id}, {$set: m})`. */
  function UpdateOneSet(docs: Posts, id: ObjectId, m: ChangeSet): Posts
  {
    if id in docs then docs[id := ApplySet(docs[id], m)] else docs
  }

  /** What a post update does: only the matched post changes; its content
      is replaced only by a non-empty one, its update instant always
      becomes `now`, and its id, author and creation instant stay. */
  lemma UpdatePostEffect(docs: Posts, id: ObjectId, p: UpdatePostParams, now: Time)
    ensures id !in docs ==> UpdateOneSet(docs, id, ToBson(p, now)) == docs
    ensures var after := UpdateOneSet(docs, id, ToBson(p, now));
      && after.Keys == docs.Keys
      && (forall k | k in docs && k != id :: after[k] == docs[k])
      && (id in docs ==>
            var before, updated := docs[id], after[id];
            && updated.id == before.id && updated.author == before.author && updated.createdAt == before.createdAt
            && updated.updatedAt == now
            && updated.content == (if |p.content| > 0 then p.content else before.content))
  {
  }

  /** No length rule guards an update: content shorter than creation
      allows is stored as given. */
  lemma UpdateAllowsShortContent(docs: Posts, id: ObjectId, p: UpdatePostParams, now: Time)
    requires id in docs
    requires 0 < |p.content| < MinContentLen
    ensures UpdateOneSet(docs, id, ToBson(p, now))[id].content == p.content
  {
    UpdatePostEffect(docs, id, p, now);
  }

  /** An id that does not parse becomes the zero ObjectID: when no stored
      post has that id, as with every post `InsertPost` stores, updating or
      deleting by it changes nothing. */
  lemma MalformedIdTouchesNothing(docs: Posts, s: GoString, m: ChangeSet)
    requires Nil !in docs
    requires ObjectIdFromHex(s).Err?
    ensures UpdateOneSet(docs, IdOrNil(s), m) == docs
    ensures docs - {IdOrNil(s)} == docs
  {
    assert IdOrNil(s) !in docs;
  }

  /** A post stored under the zero id by another client is the one a
      malformed id reaches: an update by it rewrites that post and a delete
      by it removes that post. */
  lemma MalformedIdHitsZeroIdPost(docs: Posts, s: GoString, p: UpdatePostParams, now: Time)
    requires Nil in docs
    requires ObjectIdFromHex(s).Err?
    ensures UpdateOneSet(docs, IdOrNil(s), ToBson(p, now))[Nil].updatedAt == now
    ensures Nil !in docs - {IdOrNil(s)} && |docs - {IdOrNil(s)}| == |docs| - 1
  {
    assert IdOrNil(s) == Nil;
  }

  /** `MongoPostStore`: the `posts` collection. */
  class MongoPostStore {
    var docs: Posts

    ghost predicate Valid()
      reads this
    {
      WellKeyed(docs)
    }

    /** `NewMongoPostStore`: a store over the `posts` collection as it
        already is in the database. */
    constructor (initial: Posts)
      requires WellKeyed(initial)
      ensures Valid() && docs == initial
    {
      docs := initial;
    }

    /** `UpdatePost`: the parse error is dropped, so the filter's `_id`
        becomes the parsed id or the zero id, and the change-set is `$set`
        on the matching post, if any. */
    method UpdatePost(filter: Filter, params: UpdatePostParams, now: Time) returns (err: Option<DbError>)
      requires Valid()
      requires filter.id.HexString?
      modifies this, filter
      ensures Valid()
      ensures err == None
      ensures filter.id == Oid(IdOrNil(old(filter.id.text)))
      ensures docs == UpdateOneSet(old(docs), IdOrNil(old(filter.id.text)), ToBson(params, now))
    {
      var oid := IdOrNil(filter.id.text);
      filter.id := Oid(oid);
      docs := UpdateOneSet(docs, oid, ToBson(params, now));
      err := None;
    }

    /** `DeletePost`: the parse error is dropped and the delete count is
        discarded; at most the one matching post goes. */
    method DeletePost(id: GoString) returns (err: Option<DbError>)
      requires Valid()
      modifies this
      ensures Valid()
      ensures err == None
      ensures docs == old(docs) - {IdOrNil(id)}
      ensures |old(docs)| - 1 <= |docs| <= |old(docs)|
    {
      docs := docs - {IdOrNil(id)};
      err := None;
    }

    /** `InsertPost`: stored under its own id, or under the driver's
        `generated` id when its id is zero; the returned post carries that
        id. An id already stored is a duplicate-key error. */
    method InsertPost(post: Post, generated: ObjectId) returns (r: Result<Post, DbError>)
      requires Valid()
      requires generated != Nil
      modifies this
      ensures Valid()
      ensures var key := if post.id == Nil then generated else post.id;
        && (key in old(docs) ==> r == Err(DuplicateKey) && docs == old(docs))
        && (key !in old(docs) ==> r == Ok(post.(id := key)) && docs == old(docs)[key := post.(id := key)])
    {
      var key := if post.id == Nil then generated else post.id;
      if key in docs {
        r := Err(DuplicateKey);
      } else {
        var stored := post.(id := key);
        docs := docs[key := stored];
        r := Ok(stored);
      }
    }

    /** `GetPosts`: every stored post, each once, with no filter. */
    method GetPosts() returns (posts: seq<Post>)
      requires Valid()
      ensures |posts| == |docs|
      ensures forall p | p in posts :: p.id in docs && docs[p.id] == p
      ensures forall k | k in docs :: docs[k] in posts
      ensures forall i, j | 0 <= i < j < |posts| :: posts[i].id != posts[j].id
    {
      posts := [];
      var remaining := docs.Keys;
      while remaining != {}
        invariant remaining <= docs.Keys
        invariant |posts| + |remaining| == |docs|
        invariant forall p | p in posts :: p.id in docs && docs[p.id] == p && p.id !in remaining
        invariant forall k | k in docs && k !in remaining :: docs[k] in posts
        invariant forall i, j | 0 <= i < j < |posts| :: posts[i].id != posts[j].id
        decreases remaining
      {
        var k :| k in remaining;
        posts := posts + [docs[k]];
        remaining := remaining - {k};
      }
    }

    /** `GetPostByID`: a malformed id is its parse error, an absent one
        `NoDocuments`; otherwise the stored post. */
    method GetPostByID(id: GoString) returns (r: Result<Post, DbError>)
      requires Valid()
      ensures ObjectIdFromHex(id).Err? ==> r == Err(ObjectIdFromHex(id).error)
      ensures ObjectIdFromHex(id).Ok? && ObjectIdFromHex(id).value !in docs ==> r == Err(NoDocuments)
      ensures ObjectIdFromHex(id).Ok? && ObjectIdFromHex(id).value in docs ==>
        r == Ok(docs[ObjectIdFromHex(id).value])
      ensures r.Ok? ==> r.value.id == ObjectIdFromHex(id).value
    {
      match ObjectIdFromHex(id)
      case Err(e) =>
        r := Err(e);
      case Ok(oid) =>
        if oid in docs {
          r := Ok(docs[oid]);
        } else {
          r := Err(NoDocuments);
        }
    }

    /** `GetPostsByUserID`: a malformed id is its parse error; otherwise
        exactly the stored posts whose author is that id, each once. */
    method GetPostsByUserID(id: GoString) returns (r: Result<seq<Post>, DbError>)
      requires Valid()
      ensures ObjectIdFromHex(id).Err? ==> r == Err(ObjectIdFromHex(id).error)
      ensures ObjectIdFromHex(id).Ok? ==> r.Ok?
      ensures r.Ok? ==>
        var author := ObjectIdFromHex(id).value;
        && (forall p | p in r.value :: p.id in docs && docs[p.id] == p && p.author == author)
        && (forall k | k in docs && docs[k].author == author :: docs[k] in r.value)
        && (forall i, j | 0 <= i < j < |r.value| :: r.value[i].id != r.value[j].id)
    {
      match ObjectIdFromHex(id)
      case Err(e) =>
        r := Err(e);
      case Ok(author) =>
        var posts: seq<Post> := [];
        var remaining := docs.Keys;
        while remaining != {}
          invariant remaining <= docs.Keys
          invariant forall p | p in posts :: p.id in docs && docs[p.id] == p && p.author == author && p.id !in remaining
          invariant forall k | k in docs && k !in remaining && docs[k].author == author :: docs[k] in posts
          invariant forall i, j | 0 <= i < j < |posts| :: posts[i].id != posts[j].id
          decreases remaining
        {
          var k :| k in remaining;
          if docs[k].author == author {
            posts := posts + [docs[k]];
          }
          remaining := remaining - {k};
        }
        r := Ok(posts);
    }
  }
}
