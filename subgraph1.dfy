/** The User subgraph: the `createUser`, `updateUser` and `deleteUser`
    mutations and the `user` query, all over the "users" collection. */
module Subgraph1 {
  import opened Wrappers
  import opened Bson
  import opened GraphQL
  import Mongo

  /** The User object the resolvers return. */
  datatype User = User(id: string, name: string, email: string)

  /** The argument of `createUser`. */
  datatype NewUserInput = NewUserInput(id: string, name: string, email: string)

  /** The document `createUser` inserts. */
  function NewUserDoc(input: NewUserInput): (d: Document)
    ensures d.Keys == {"id", "name", "email"}
    ensures Mongo.Matches(d, input.id)
    ensures ProjectUser(d) == Ok(User(input.id, input.name, input.email))
  {
    map["id" := String(input.id), "name" := String(input.name), "email" := String(input.email)]
  }

  /** The `$set` document of `updateUser`: one field per supplied argument,
      and never "id". */
  function UserUpdate(name: Option<string>, email: Option<string>): (u: Document)
    ensures "name" in u <==> name.Some?
    ensures "email" in u <==> email.Some?
    ensures "id" !in u
    ensures u.Keys <= {"name", "email"}
    ensures name.Some? ==> u["name"] == String(name.value)
    ensures email.Some? ==> u["email"] == String(email.value)
  {
    var withName: Document := if name.Some? then map["name" := String(name.value)] else map[];
    if email.Some? then withName["email" := String(email.value)] else withName
  }

  /** A found document read as a User with `get_str(..).unwrap()` on "id",
      "name" and "email": it succeeds only when all three are strings, and
      otherwise the resolver panics (it never reports an error). */
  function ProjectUser(d: Document): (r: FieldResult<User>)
    ensures r.Ok? || r.Panicked?
    ensures r.Ok? <==> GetStr(d, "id").Some? && GetStr(d, "name").Some? && GetStr(d, "email").Some?
    ensures r.Ok? ==>
      && d["id"] == String(r.value.id)
      && d["name"] == String(r.value.name)
      && d["email"] == String(r.value.email)
  {
    match (GetStr(d, "id"), GetStr(d, "name"), GetStr(d, "email"))
    case (Some(id), Some(name), Some(email)) => Ok(User(id, name, email))
    case _ => Panicked
  }

  /** What the `user` query answers for a collection: "User not found" exactly
      when no document has the id, and otherwise the projection of the first
      one that does. */
  function LookupUser(docs: seq<Document>, id: string): (r: FieldResult<User>)
    ensures r == Err("User not found") <==> !Mongo.HasId(docs, id)
    ensures Mongo.HasId(docs, id) ==> r == ProjectUser(docs[Mongo.FirstMatch(docs, id).value])
  {
    match Mongo.FindOne(docs, id)
    case Some(d) => ProjectUser(d)
    case None => Err("User not found")
  }

  /** The "users" collection, with the resolvers of `Subgraph1Mutation` and
      `Subgraph1Query` as its methods. */
  class Users {
    var docs: seq<Document>

    constructor (initial: seq<Document>)
      ensures docs == initial
    {
      docs := initial;
    }

    /** `createUser`: inserts the input as a document, without checking the
        id, and echoes it back. */
    method CreateUser(input: NewUserInput) returns (r: FieldResult<User>)
      modifies this
      ensures docs == old(docs) + [NewUserDoc(input)]
      ensures r == Ok(User(input.id, input.name, input.email))
    {
      var userDoc := NewUserDoc(input);
      docs := Mongo.InsertOne(docs, userDoc);
      r := Ok(User(input.id, input.name, input.email));
    }

    /** `updateUser`: `$set` the supplied fields on the first document with
        the id and read it back. With no such document the call still
        upserts `{id}` plus the supplied fields, yet reports "User not
        found". The "User not found after update" branch is never taken. */
    method UpdateUser(id: string, name: Option<string>, email: Option<string>) returns (r: FieldResult<User>)
      modifies this
      ensures match Mongo.FirstMatch(old(docs), id)
        case Some(i) =>
          && docs == old(docs)[i := old(docs)[i] + UserUpdate(name, email)]
          && r == ProjectUser(docs[i])
        case None =>
          && docs == old(docs) + [Mongo.UpsertDoc(id, UserUpdate(name, email))]
          && r == Err("User not found")
    {
      var updateDoc: Document := map[];
      if name.Some? {
        updateDoc := updateDoc["name" := String(name.value)];
      }
      if email.Some? {
        updateDoc := updateDoc["email" := String(email.value)];
      }
      assert updateDoc == UserUpdate(name, email);

      ghost var before := docs;
      var updateResult := Mongo.UpdateOne(docs, id, updateDoc, true);
      docs := updateResult.collection;
      if updateResult.matchedCount > 0 {
        Mongo.ReadBackAfterUpdate(before, id, updateDoc, true);
        var updatedUserDoc := Mongo.FindOne(docs, id);
        if updatedUserDoc.Some? {
          r := ProjectUser(updatedUserDoc.value);
        } else {
          r := Err("User not found after update");
        }
      } else {
        r := Err("User not found");
      }
    }

    /** `deleteUser`: removes the first document with the id and answers
        whether there was one. */
    method DeleteUser(id: string) returns (r: FieldResult<bool>)
      modifies this
      ensures r == Ok(Mongo.HasId(old(docs), id))
      ensures match Mongo.FirstMatch(old(docs), id)
        case Some(i) => docs == old(docs)[..i] + old(docs)[i + 1..]
        case None => docs == old(docs)
    {
      var deleteResult := Mongo.DeleteOne(docs, id);
      docs := deleteResult.collection;
      r := Ok(deleteResult.deletedCount > 0);
    }

    /** The `user` query. */
    method GetUser(id: string) returns (r: FieldResult<User>)
      ensures r == LookupUser(docs, id)
    {
      var userDoc := Mongo.FindOne(docs, id);
      if userDoc.Some? {
        r := ProjectUser(userDoc.value);
      } else {
        r := Err("User not found");
      }
    }
  }

  /** Creating a user whose id is new makes the `user` query return exactly
      the input. */
  lemma CreateThenGet(docs: seq<Document>, input: NewUserInput)
    requires !Mongo.HasId(docs, input.id)
    ensures LookupUser(Mongo.InsertOne(docs, NewUserDoc(input)), input.id) == Ok(User(input.id, input.name, input.email))
  {
    Mongo.FirstMatchAfterAppend(docs, NewUserDoc(input), input.id);
  }

  /** Creating a user whose id is already taken inserts a second document that
      the `user` query never sees. */
  lemma CreateDuplicateIsShadowed(docs: seq<Document>, input: NewUserInput)
    requires Mongo.HasId(docs, input.id)
    ensures LookupUser(Mongo.InsertOne(docs, NewUserDoc(input)), input.id) == LookupUser(docs, input.id)
  {
    Mongo.FirstMatchUnchangedByAppend(docs, NewUserDoc(input), input.id);
  }

  /** Updating a stored user overwrites the supplied fields, keeps the others,
      and the `user` query then returns that same record. */
  lemma UpdateThenGet(docs: seq<Document>, id: string, name: Option<string>, email: Option<string>, stored: User)
    requires Mongo.HasId(docs, id)
    requires ProjectUser(docs[Mongo.FirstMatch(docs, id).value]) == Ok(stored)
    ensures var updated := docs[Mongo.FirstMatch(docs, id).value] + UserUpdate(name, email);
      var expected := Ok(User(id, name.GetOr(stored.name), email.GetOr(stored.email)));
      && ProjectUser(updated) == expected
      && LookupUser(Mongo.UpdateOne(docs, id, UserUpdate(name, email), true).collection, id) == expected
  {
  }

  /** The document an update of a missing id upserts is found by the `user`
      query, which returns a User only when both name and email were supplied
      and panics otherwise. */
  lemma GetAfterUpsert(docs: seq<Document>, id: string, name: Option<string>, email: Option<string>)
    requires !Mongo.HasId(docs, id)
    ensures LookupUser(Mongo.InsertOne(docs, Mongo.UpsertDoc(id, UserUpdate(name, email))), id)
      == if name.Some? && email.Some? then Ok(User(id, name.value, email.value)) else Panicked
  {
    Mongo.FirstMatchAfterAppend(docs, Mongo.UpsertDoc(id, UserUpdate(name, email)), id);
  }

  /** The `user` query after a delete answers "User not found" exactly when
      at most one document had the id. */
  lemma DeleteThenGet(docs: seq<Document>, id: string)
    ensures LookupUser(Mongo.DeleteOne(docs, id).collection, id) == Err("User not found") <==> Mongo.AtMostOne(docs, id)
  {
    Mongo.DeleteRemovesIdIff(docs, id);
  }

  /** With two documents for one id, as a repeated create leaves, deleting
      the id reports true and the `user` query then answers the second
      document: the id is still found. */
  lemma GetAfterDeleteOfDuplicate(docs: seq<Document>, id: string, i: nat, j: nat)
    requires i < j < |docs|
    requires Mongo.Matches(docs[i], id) && Mongo.Matches(docs[j], id)
    requires forall k :: 0 <= k < j && k != i ==> !Mongo.Matches(docs[k], id)
    ensures Mongo.DeleteOne(docs, id).deletedCount == 1
    ensures LookupUser(Mongo.DeleteOne(docs, id).collection, id) == ProjectUser(docs[j])
  {
    Mongo.FirstMatchAfterDelete(docs, id, i, j);
  }

  /** The life cycle of one user: create, query, update the email, query,
      delete, query. Then an update of a missing id, which reports "User not
      found" and leaves behind a document that makes the query panic. */
  method LifeCycle() {
    var users := new Users([]);
    var input := NewUserInput("u1", "Ann", "a@x.com");
    var created := users.CreateUser(input);
    assert created == Ok(User("u1", "Ann", "a@x.com"));
    CreateThenGet([], input);
    var found := users.GetUser("u1");
    assert found == Ok(User("u1", "Ann", "a@x.com"));

    ghost var beforeUpdate := users.docs;
    var updated := users.UpdateUser("u1", None, Some("b@x.com"));
    UpdateThenGet(beforeUpdate, "u1", None, Some("b@x.com"), User("u1", "Ann", "a@x.com"));
    assert updated == Ok(User("u1", "Ann", "b@x.com"));
    found := users.GetUser("u1");
    assert found == Ok(User("u1", "Ann", "b@x.com"));

    ghost var beforeDelete := users.docs;
    var deleted := users.DeleteUser("u1");
    assert Mongo.Matches(beforeDelete[0], "u1");
    assert deleted == Ok(true);
    found := users.GetUser("u1");
    assert found == Err("User not found");

    var upserted := users.UpdateUser("u2", None, Some("c@x.com"));
    assert upserted == Err("User not found");
    GetAfterUpsert([], "u2", None, Some("c@x.com"));
    found := users.GetUser("u2");
    assert found == Panicked;
  }
}
