/** The user store (db/user_store.go) over an in-memory collection. The
    collection is a map from `_id` to the stored user; each store method
    does what the MongoDB operator it issues does to that map (`$set`,
    `$addToSet`, `$pull`, `InsertOne`, `DeleteOne`, `FindOne`, `Find`). */
module UserStore {
  import opened Common
  import opened Mongo
  import opened UserTypes

  type Users = map<ObjectId, User>

  /** Every user is stored under its own id. A collection may hold a user
      under the zero id, written by another client: this application never
      stores one, since `_id` is `omitempty` and a zero id is replaced by
      one the driver generates. */
  ghost predicate WellKeyed(docs: Users)
  {
    forall k | k in docs :: docs[k].id == k
  }

  // ---------------------------------------------------------------------
  // $set

  /** `$set` of a user change-set onto a stored user, read back as a `User`. */
  function ApplySet(u: User, m: ChangeSet): User
  {
    u.(firstName := if "firstName" in m then DecodedString(m["firstName"]) else u.firstName,
       lastName := if "lastName" in m then DecodedString(m["lastName"]) else u.lastName,
       password := if "password" in m then DecodedString(m["password"]) else u.password)
  }

  /** `UpdateOne({_id: id}, {$set: m})`: the matched user, if any, takes
      the change-set; a filter that matches nothing changes nothing. */
  function UpdateOneSet(docs: Users, id: ObjectId, m: ChangeSet): Users
  {
    if id in docs then docs[id := ApplySet(docs[id], m)] else docs
  }

  /** What a user update does to the collection: only the matched user
      changes, and in it only the fields the payload supplies non-empty;
      a supplied password is stored as its hash, or as "" when hashing
      fails. */
  lemma UpdateUserEffect(docs: Users, id: ObjectId, p: UpdateUserParams, hash: Hasher)
    ensures id !in docs ==> UpdateOneSet(docs, id, ToBson(p, hash)) == docs
    ensures var after := UpdateOneSet(docs, id, ToBson(p, hash));
      && after.Keys == docs.Keys
      && (forall k | k in docs && k != id :: after[k] == docs[k])
      && (id in docs ==>
            var u, v := docs[id], after[id];
            && v.id == u.id && v.email == u.email && v.fcmToken == u.fcmToken && v.friends == u.friends
            && v.firstName == (if |p.firstName| > 0 then p.firstName else u.firstName)
            && v.lastName == (if |p.lastName| > 0 then p.lastName else u.lastName)
            && v.password == (if |p.password| == 0 then u.password
                              else if hash(p.password).Ok? then hash(p.password).value
                              else ""))
  {
  }

  lemma UpdateKeepsWellKeyed(docs: Users, id: ObjectId, m: ChangeSet)
    requires WellKeyed(docs)
    ensures WellKeyed(UpdateOneSet(docs, id, m))
  {
  }

  // ---------------------------------------------------------------------
  // $addToSet and $pull on a friend list

  predicate NoDuplicates(s: seq<ObjectId>)
  {
    forall i, j | 0 <= i < j < |s| :: s[i] != s[j]
  }

  /** `$addToSet`: append `x` unless it is already there. */
  function AddToSet(s: seq<ObjectId>, x: ObjectId): (r: seq<ObjectId>)
    ensures x in r
    ensures forall y :: y in r <==> y in s || y == x
    ensures x in s ==> r == s
    ensures x !in s ==> r == s + [x]
    ensures NoDuplicates(s) ==> NoDuplicates(r)
  {
    if x in s then s else s + [x]
  }

  /** `$pull`: remove every occurrence of `x`, keeping the rest in order. */
  function Pull(s: seq<ObjectId>, x: ObjectId): (r: seq<ObjectId>)
    ensures x !in r
    ensures forall y | y != x :: y in r <==> y in s
    ensures |r| <= |s|
    ensures x !in s ==> r == s
    ensures NoDuplicates(s) ==> NoDuplicates(r)
    decreases |s|
  {
    if s == [] then []
    else if s[0] == x then Pull(s[1..], x)
    else
      var rest := Pull(s[1..], x);
      assert NoDuplicates(s) ==> NoDuplicates(s[1..]) && s[0] !in s[1..] by {
        if NoDuplicates(s) {
          forall i | 0 <= i < |s| - 1 ensures s[1..][i] != s[0] {
            assert s[1..][i] == s[i + 1];
          }
        }
      }
      [s[0]] + rest
  }

  /** `$pull` works element by element: pulling from a concatenation is
      pulling from each part, so the survivors keep their order. */
  lemma {:induction false} PullAppend(a: seq<ObjectId>, b: seq<ObjectId>, x: ObjectId)
    ensures Pull(a + b, x) == Pull(a, x) + Pull(b, x)
    decreases |a|
  {
    if a != [] {
      assert (a + b)[0] == a[0] && (a + b)[1..] == a[1..] + b;
      PullAppend(a[1..], b, x);
      if a[0] == x {
        assert Pull(a + b, x) == Pull(a[1..] + b, x);
        assert Pull(a, x) == Pull(a[1..], x);
      } else {
        assert Pull(a + b, x) == [a[0]] + Pull(a[1..] + b, x);
        assert Pull(a, x) == [a[0]] + Pull(a[1..], x);
        assert [a[0]] + (Pull(a[1..], x) + Pull(b, x)) == ([a[0]] + Pull(a[1..], x)) + Pull(b, x);
      }
    } else {
      assert a + b == b;
    }
  }

  /** Removing a friend just added restores the list it was added to. */
  lemma PullUndoesAddToSet(s: seq<ObjectId>, x: ObjectId)
    requires x !in s
    ensures Pull(AddToSet(s, x), x) == s
  {
    PullAppend(s, [x], x);
    assert Pull([x], x) == Pull([], x);
  }

  // ---------------------------------------------------------------------
  // The friend relation

  /** `UpdateOne({_id: subject}, {$addToSet: {friends: friend}})`. */
  function WithFriendAdded(docs: Users, subject: ObjectId, friend: ObjectId): Users
  {
    if subject in docs
    then docs[subject := docs[subject].(friends := AddToSet(docs[subject].friends, friend))]
    else docs
  }

  /** `UpdateOne({_id: subject}, {$pull: {friends: friend}})`. */
  function WithFriendPulled(docs: Users, subject: ObjectId, friend: ObjectId): Users
  {
    if subject in docs
    then docs[subject := docs[subject].(friends := Pull(docs[subject].friends, friend))]
    else docs
  }

  /** The directed friend relation: (a, b) when b is on a's friend list. */
  ghost function Edges(docs: Users): set<(ObjectId, ObjectId)>
  {
    set a, b | a in docs && b in docs[a].friends :: (a, b)
  }

  ghost predicate FriendListsDistinct(docs: Users)
  {
    forall k | k in docs :: NoDuplicates(docs[k].friends)
  }

  /** Adding a friend adds exactly the one directed edge from the subject,
      when the subject is stored, and nothing otherwise. */
  lemma AddFriendEdges(docs: Users, subject: ObjectId, friend: ObjectId)
    ensures Edges(WithFriendAdded(docs, subject, friend))
         == if subject in docs then Edges(docs) + {(subject, friend)} else Edges(docs)
  {
    var after := WithFriendAdded(docs, subject, friend);
    if subject in docs {
      forall e | e in Edges(after) ensures e in Edges(docs) + {(subject, friend)} {
        var (a, b) := e;
        assert a in after && b in after[a].friends;
      }
      forall e | e in Edges(docs) + {(subject, friend)} ensures e in Edges(after) {
        var (a, b) := e;
        if e != (subject, friend) {
          assert a in docs && b in docs[a].friends;
          assert b in after[a].friends;
        } else {
          assert b in after[a].friends;
        }
      }
    }
  }

  /** Removing a friend removes exactly the one directed edge from the
      subject; removing an absent friend changes nothing. */
  lemma RemoveFriendEdges(docs: Users, subject: ObjectId, friend: ObjectId)
    ensures Edges(WithFriendPulled(docs, subject, friend))
         == if subject in docs then Edges(docs) - {(subject, friend)} else Edges(docs)
  {
    var after := WithFriendPulled(docs, subject, friend);
    if subject in docs {
      forall e | e in Edges(after) ensures e in Edges(docs) - {(subject, friend)} {
        var (a, b) := e;
        assert a in after && b in after[a].friends;
        assert b in docs[a].friends;
      }
      forall e | e in Edges(docs) - {(subject, friend)} ensures e in Edges(after) {
        var (a, b) := e;
        assert a in docs && b in docs[a].friends;
        assert b in after[a].friends;
      }
    }
  }

  /** Adding the same friend twice is adding it once. */
  lemma AddFriendIdempotent(docs: Users, subject: ObjectId, friend: ObjectId)
    ensures WithFriendAdded(WithFriendAdded(docs, subject, friend), subject, friend)
         == WithFriendAdded(docs, subject, friend)
  {
  }

  /** The relation is directed: befriending changes no edge back towards
      the subject, so the friend's own list is as it was. */
  lemma FriendOpsNotSymmetric(docs: Users, subject: ObjectId, friend: ObjectId)
    requires subject != friend
    ensures (friend, subject) in Edges(WithFriendAdded(docs, subject, friend))
        <==> (friend, subject) in Edges(docs)
    ensures (friend, subject) in Edges(WithFriendPulled(docs, subject, friend))
        <==> (friend, subject) in Edges(docs)
  {
    AddFriendEdges(docs, subject, friend);
    RemoveFriendEdges(docs, subject, friend);
  }

  /** Neither friend operation makes a friend list hold an id twice. */
  lemma FriendOpsKeepListsDistinct(docs: Users, subject: ObjectId, friend: ObjectId)
    requires FriendListsDistinct(docs)
    ensures FriendListsDistinct(WithFriendAdded(docs, subject, friend))
    ensures FriendListsDistinct(WithFriendPulled(docs, subject, friend))
  {
  }

  // ---------------------------------------------------------------------
  // The store

  /** `MongoUserStore`: the `users` collection. */
  class MongoUserStore {
    var docs: Users

    ghost predicate Valid()
      reads this
    {
      WellKeyed(docs)
    }

    /** `NewMongoUserStore`: a store over the `users` collection as it
        already is in the database. */
    constructor (initial: Users)
      requires WellKeyed(initial)
      ensures Valid() && docs == initial
    {
      docs := initial;
    }

    /** `UpdateUser`: parse the filter's `_id` (an error leaves everything as
        it was), write the parsed id back into the caller's filter, and
        `$set` the payload's change-set on the matching user. Matching no
        user is not an error. */
    method UpdateUser(filter: Filter, params: UpdateUserParams, hash: Hasher) returns (err: Option<DbError>)
      requires Valid()
      requires filter.id.HexString?
      modifies this, filter
      ensures Valid()
      ensures ObjectIdFromHex(old(filter.id.text)).Err? ==>
        err == Some(ObjectIdFromHex(old(filter.id.text)).error) && docs == old(docs) && filter.id == old(filter.id)
      ensures ObjectIdFromHex(old(filter.id.text)).Ok? ==>
        var oid := ObjectIdFromHex(old(filter.id.text)).value;
        && err == None
        && filter.id == Oid(oid)
        && docs == UpdateOneSet(old(docs), oid, ToBson(params, hash))
    {
      match ObjectIdFromHex(filter.id.text)
      case Err(e) =>
        err := Some(e);
      case Ok(oid) =>
        filter.id := Oid(oid);
        UpdateKeepsWellKeyed(docs, oid, ToBson(params, hash));
        docs := UpdateOneSet(docs, oid, ToBson(params, hash));
        err := None;
    }

    /** `DeleteUser`: a malformed id is an error; a well-formed one deletes
        the matching user if there is one, and is not an error otherwise. */
    method DeleteUser(id: GoString) returns (err: Option<DbError>)
      requires Valid()
      modifies this
      ensures Valid()
      ensures ObjectIdFromHex(id).Err? ==> err == Some(ObjectIdFromHex(id).error) && docs == old(docs)
      ensures ObjectIdFromHex(id).Ok? ==>
        err == None && docs == old(docs) - {ObjectIdFromHex(id).value}
    {
      match ObjectIdFromHex(id)
      case Err(e) =>
        err := Some(e);
      case Ok(oid) =>
        docs := docs - {oid};
        err := None;
    }

    /** `InsertUser`: `InsertOne` stores the user under its own id, or
        under `generated`, the id the driver makes, when its id is zero;
        the returned user carries that id. An id already stored is a
        duplicate-key error that stores nothing. */
    method InsertUser(user: User, generated: ObjectId) returns (r: Result<User, DbError>)
      requires Valid()
      requires generated != Nil
      modifies this
      ensures Valid()
      ensures var key := if user.id == Nil then generated else user.id;
        && (key in old(docs) ==> r == Err(DuplicateKey) && docs == old(docs))
        && (key !in old(docs) ==> r == Ok(user.(id := key)) && docs == old(docs)[key := user.(id := key)])
    {
      var key := if user.id == Nil then generated else user.id;
      if key in docs {
        r := Err(DuplicateKey);
      } else {
        var stored := user.(id := key);
        docs := docs[key := stored];
        r := Ok(stored);
      }
    }

    /** `GetUsers`: every stored user, each once. */
    method GetUsers() returns (users: seq<User>)
      requires Valid()
      ensures |users| == |docs|
      ensures forall u | u in users :: u.id in docs && docs[u.id] == u
      ensures forall k | k in docs :: docs[k] in users
      ensures forall i, j | 0 <= i < j < |users| :: users[i].id != users[j].id
    {
      users := [];
      var remaining := docs.Keys;
      while remaining != {}
        invariant remaining <= docs.Keys
        invariant |users| + |remaining| == |docs|
        invariant forall u | u in users :: u.id in docs && docs[u.id] == u && u.id !in remaining
        invariant forall k | k in docs && k !in remaining :: docs[k] in users
        invariant forall i, j | 0 <= i < j < |users| :: users[i].id != users[j].id
        decreases remaining
      {
        var k :| k in remaining;
        users := users + [docs[k]];
        remaining := remaining - {k};
      }
    }

    /** `GetUser`: a malformed id is its parse error, an absent one
        `NoDocuments`; otherwise the stored user. */
    method GetUser(id: GoString) returns (r: Result<User, DbError>)
      requires Valid()
      ensures ObjectIdFromHex(id).Err? ==> r == Err(ObjectIdFromHex(id).error)
      ensures ObjectIdFromHex(id).Ok? && ObjectIdFromHex(id).value !in docs ==> r == Err(NoDocuments)
      ensures ObjectIdFromHex(id).Ok? && ObjectIdFromHex(id).value in docs ==>
        r == Ok(docs[ObjectIdFromHex(id).value])
      ensures r.Ok? ==> r.value.id == ObjectIdFromHex(id).value
    {
      match ObjectIdFromHex(id)
      case Err(e) =>
        r := Err(e);
      case Ok(oid) =>
        r := GetUserByObjectID(oid);
    }

    /** `GetUserByObjectID`: the stored user with that id, or `NoDocuments`. */
    method GetUserByObjectID(oid: ObjectId) returns (r: Result<User, DbError>)
      requires Valid()
      ensures oid !in docs ==> r == Err(NoDocuments)
      ensures oid in docs ==> r == Ok(docs[oid]) && r.value.id == oid
    {
      if oid in docs {
        r := Ok(docs[oid]);
      } else {
        r := Err(NoDocuments);
      }
    }

    /** `AddFriend`: both ids must parse (otherwise nothing changes); the
        filter's `_id` becomes the subject's id and `$addToSet` puts the
        friend on the subject's list. Only the subject's list changes. */
    method AddFriend(filter: Filter, id: GoString, userID: GoString) returns (err: Option<DbError>)
      requires Valid()
      modifies this, filter
      ensures Valid()
      ensures ObjectIdFromHex(id).Err? ==>
        err == Some(ObjectIdFromHex(id).error) && docs == old(docs) && filter.id == old(filter.id)
      ensures ObjectIdFromHex(id).Ok? && ObjectIdFromHex(userID).Err? ==>
        err == Some(ObjectIdFromHex(userID).error) && docs == old(docs) && filter.id == old(filter.id)
      ensures ObjectIdFromHex(id).Ok? && ObjectIdFromHex(userID).Ok? ==>
        var oid, uid := ObjectIdFromHex(id).value, ObjectIdFromHex(userID).value;
        && err == None
        && filter.id == Oid(oid)
        && docs == WithFriendAdded(old(docs), oid, uid)
        && (forall k | k in old(docs) && k != oid :: k in docs && docs[k] == old(docs)[k])
        && (oid in old(docs) ==> uid in docs[oid].friends)
    {
      match ObjectIdFromHex(id)
      case Err(e) =>
        err := Some(e);
      case Ok(oid) =>
        match ObjectIdFromHex(userID)
        case Err(e) =>
          err := Some(e);
        case Ok(uid) =>
          filter.id := Oid(oid);
          docs := WithFriendAdded(docs, oid, uid);
          err := None;
    }

    /** `RemoveFriend`: both ids must parse (otherwise nothing changes); the
        filter's `_id` becomes the subject's id and `$pull` removes every
        occurrence of the friend from the subject's list. Only the subject's
        list changes. */
    method RemoveFriend(filter: Filter, id: GoString, userID: GoString) returns (err: Option<DbError>)
      requires Valid()
      modifies this, filter
      ensures Valid()
      ensures ObjectIdFromHex(id).Err? ==>
        err == Some(ObjectIdFromHex(id).error) && docs == old(docs) && filter.id == old(filter.id)
      ensures ObjectIdFromHex(id).Ok? && ObjectIdFromHex(userID).Err? ==>
        err == Some(ObjectIdFromHex(userID).error) && docs == old(docs) && filter.id == old(filter.id)
      ensures ObjectIdFromHex(id).Ok? && ObjectIdFromHex(userID).Ok? ==>
        var oid, uid := ObjectIdFromHex(id).value, ObjectIdFromHex(userID).value;
        && err == None
        && filter.id == Oid(oid)
        && docs == WithFriendPulled(old(docs), oid, uid)
        && (forall k | k in old(docs) && k != oid :: k in docs && docs[k] == old(docs)[k])
        && (oid in docs ==> uid !in docs[oid].friends)
    {
      match ObjectIdFromHex(id)
      case Err(e) =>
        err := Some(e);
      case Ok(oid) =>
        match ObjectIdFromHex(userID)
        case Err(e) =>
          err := Some(e);
        case Ok(uid) =>
          filter.id := Oid(oid);
          docs := WithFriendPulled(docs, oid, uid);
          err := None;
    }
  }

  /** Inserting a user and fetching it back by the printed form of the id
      it was given yields the inserted user. */
  method InsertThenGet(store: MongoUserStore, user: User, generated: ObjectId)
    returns (inserted: Result<User, DbError>, fetched: Result<User, DbError>)
    requires store.Valid()
    requires generated != Nil
    modifies store
    ensures store.Valid()
    ensures inserted.Ok? ==> fetched == inserted
  {
    inserted := store.InsertUser(user, generated);
    if inserted.Ok? {
      HexRoundTrip(inserted.value.id);
      fetched := store.GetUser(Hex(inserted.value.id));
    } else {
      fetched := Err(DuplicateKey);
    }
  }
}
