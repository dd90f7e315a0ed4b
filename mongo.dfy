/** The document-store driver calls the resolvers make, as operations on one
    collection held as a sequence of documents in insertion order. Every
    filter the resolvers use is `{"id": id}`: equality on the document's own
    "id" field, which is not the store's primary key, so nothing keeps it
    unique. */
module Mongo {
  import opened Wrappers
  import opened Bson

  /** Document `d` satisfies the filter `{"id": id}`. */
  predicate Matches(d: Document, id: string) {
    "id" in d && d["id"] == String(id)
  }

  /** Some document of the collection satisfies `{"id": id}`. */
  predicate HasId(docs: seq<Document>, id: string) {
    exists i :: 0 <= i < |docs| && Matches(docs[i], id)
  }

  /** At most one document of the collection satisfies `{"id": id}`. */
  predicate AtMostOne(docs: seq<Document>, id: string) {
    forall i, j :: 0 <= i < |docs| && 0 <= j < |docs| && Matches(docs[i], id) && Matches(docs[j], id) ==> i == j
  }

  /** No two documents carry the same "id" (the uniqueness the entities are
      meant to have; the store does not enforce it). */
  ghost predicate UniqueIds(docs: seq<Document>) {
    forall i, j, id :: 0 <= i < |docs| && 0 <= j < |docs| && Matches(docs[i], id) && Matches(docs[j], id) ==> i == j
  }

  /** Position of the first document that satisfies `{"id": id}`; the
      single-document calls (`find_one`, `update_one`, `delete_one`) act on
      it. */
  function FirstMatch(docs: seq<Document>, id: string): (r: Option<nat>)
    ensures r.None? <==> !HasId(docs, id)
    ensures r.Some? ==> r.value < |docs| && Matches(docs[r.value], id)
    ensures r.Some? ==> forall j :: 0 <= j < r.value ==> !Matches(docs[j], id)
    decreases |docs|
  {
    if docs == [] then None
    else if Matches(docs[0], id) then Some(0)
    else
      match FirstMatch(docs[1..], id)
      case None =>
        assert forall i :: 1 <= i < |docs| ==> docs[i] == docs[1..][i - 1];
        None
      case Some(k) =>
        assert forall j :: 1 <= j < k + 1 ==> docs[j] == docs[1..][j - 1];
        Some(k + 1)
  }

  /** `find_one({"id": id})`. */
  function FindOne(docs: seq<Document>, id: string): (r: Option<Document>)
    ensures r.None? <==> !HasId(docs, id)
    ensures r.Some? ==> r.value in docs && Matches(r.value, id)
    ensures r.Some? ==> r.value == docs[FirstMatch(docs, id).value]
  {
    match FirstMatch(docs, id)
    case None => None
    case Some(i) => Some(docs[i])
  }

  /** `insert_one(d)`: appends, whatever "id" the collection already holds. */
  function InsertOne(docs: seq<Document>, d: Document): (r: seq<Document>)
    ensures |r| == |docs| + 1 && r[|docs|] == d
    ensures forall j :: 0 <= j < |docs| ==> r[j] == docs[j]
  {
    docs + [d]
  }

  /** The document an upsert creates when nothing matches: the filter's
      equality field, then the `$set` fields. */
  function UpsertDoc(id: string, fields: Document): (d: Document)
    requires "id" !in fields
    ensures Matches(d, id)
    ensures d.Keys == fields.Keys + {"id"}
    ensures forall k :: k in fields ==> d[k] == fields[k]
  {
    map["id" := String(id)] + fields
  }

  /** The `UpdateResult` of `update_one`, paired with the collection after
      the call. */
  datatype UpdateOutcome = UpdateOutcome(matchedCount: nat, collection: seq<Document>)

  /** `update_one({"id": id}, {"$set": set}, upsert)`: `$set` overwrites the
      set fields of the first match and keeps its other fields; with no
      match and `upsert`, one new document is appended. An empty `$set` is a
      no-op on the matched document. */
  function UpdateOne(docs: seq<Document>, id: string, fields: Document, upsert: bool): (u: UpdateOutcome)
    requires "id" !in fields
    ensures u.matchedCount == (if HasId(docs, id) then 1 else 0)
    ensures HasId(docs, id) ==>
      var i := FirstMatch(docs, id).value;
      && |u.collection| == |docs|
      && (forall j :: 0 <= j < |docs| && j != i ==> u.collection[j] == docs[j])
      && u.collection[i].Keys == docs[i].Keys + fields.Keys
      && (forall k :: k in fields ==> u.collection[i][k] == fields[k])
      && (forall k :: k in docs[i] && k !in fields ==> u.collection[i][k] == docs[i][k])
    ensures !HasId(docs, id) ==>
      u.collection == if upsert then docs + [UpsertDoc(id, fields)] else docs
  {
    match FirstMatch(docs, id)
    case Some(i) => UpdateOutcome(1, docs[i := docs[i] + fields])
    case None => UpdateOutcome(0, if upsert then docs + [UpsertDoc(id, fields)] else docs)
  }

  /** The `DeleteResult` of `delete_one`, paired with the collection after the
      call. */
  datatype DeleteOutcome = DeleteOutcome(deletedCount: nat, collection: seq<Document>)

  /** `delete_one({"id": id})`: removes the first match, if any. */
  function DeleteOne(docs: seq<Document>, id: string): (u: DeleteOutcome)
    ensures u.deletedCount == (if HasId(docs, id) then 1 else 0)
    ensures |u.collection| == |docs| - u.deletedCount
    ensures HasId(docs, id) ==>
      var i := FirstMatch(docs, id).value;
      && (forall j :: 0 <= j < i ==> u.collection[j] == docs[j])
      && (forall j :: i <= j < |u.collection| ==> u.collection[j] == docs[j + 1])
    ensures !HasId(docs, id) ==> u.collection == docs
  {
    match FirstMatch(docs, id)
    case Some(i) =>
      var rest := docs[..i] + docs[i + 1..];
      assert forall j :: 0 <= j < i ==> rest[j] == docs[j];
      assert forall j :: i <= j < |rest| ==> rest[j] == docs[j + 1];
      DeleteOutcome(1, rest)
    case None => DeleteOutcome(0, docs)
  }

  /** After an update that matched, reading the same id back finds the
      updated document at the same position: the `$set` never touches "id",
      and the documents before it are unchanged. */
  lemma ReadBackAfterUpdate(docs: seq<Document>, id: string, fields: Document, upsert: bool)
    requires "id" !in fields
    requires HasId(docs, id)
    ensures var i := FirstMatch(docs, id).value;
      && FirstMatch(UpdateOne(docs, id, fields, upsert).collection, id) == Some(i)
      && FindOne(UpdateOne(docs, id, fields, upsert).collection, id) == Some(docs[i] + fields)
  {
  }

  /** Appending a document for `id` to a collection that had none makes that
      document the first match. */
  lemma FirstMatchAfterAppend(docs: seq<Document>, d: Document, id: string)
    requires Matches(d, id)
    requires !HasId(docs, id)
    ensures FirstMatch(InsertOne(docs, d), id) == Some(|docs|)
  {
    var after := InsertOne(docs, d);
    assert Matches(after[|docs|], id);
    assert forall j :: 0 <= j < |docs| ==> after[j] == docs[j];
  }

  /** Appending to a collection that already holds `id` leaves the first match
      where it was: a duplicate insert is invisible to `find_one`. */
  lemma FirstMatchUnchangedByAppend(docs: seq<Document>, d: Document, id: string)
    requires HasId(docs, id)
    ensures FirstMatch(InsertOne(docs, d), id) == FirstMatch(docs, id)
  {
    var i := FirstMatch(docs, id).value;
    var after := InsertOne(docs, d);
    assert after[i] == docs[i];
    assert HasId(after, id);
    var r := FirstMatch(after, id).value;
    assert r <= i;
    assert after[r] == docs[r];
  }

  /** When a second document carries `id`, deleting the first match makes
      that second document the first match: `delete_one` removes one
      document, not the id. */
  lemma FirstMatchAfterDelete(docs: seq<Document>, id: string, i: nat, j: nat)
    requires i < j < |docs|
    requires Matches(docs[i], id) && Matches(docs[j], id)
    requires forall k :: 0 <= k < j && k != i ==> !Matches(docs[k], id)
    ensures FirstMatch(DeleteOne(docs, id).collection, id) == Some(j - 1)
    ensures DeleteOne(docs, id).collection[j - 1] == docs[j]
  {
  }

  /** `delete_one` leaves no document with `id` exactly when at most one
      document had it: a duplicate survives the delete. */
  lemma DeleteRemovesIdIff(docs: seq<Document>, id: string)
    ensures !HasId(DeleteOne(docs, id).collection, id) <==> AtMostOne(docs, id)
  {
    var after := DeleteOne(docs, id).collection;
    if HasId(docs, id) {
      var i := FirstMatch(docs, id).value;
      if AtMostOne(docs, id) {
        forall k | 0 <= k < |after|
          ensures !Matches(after[k], id)
        {
          assert after[k] == docs[if k < i then k else k + 1];
        }
      } else {
        var a, b :| 0 <= a < |docs| && 0 <= b < |docs| && Matches(docs[a], id) && Matches(docs[b], id) && a != b;
        var j := if a == i then b else a;
        assert i < j;
        assert Matches(after[j - 1], id);
      }
    }
  }

  /** Inserting a document for `id` keeps the ids unique exactly when no
      document had that id before. */
  lemma InsertKeepsUniqueIff(docs: seq<Document>, d: Document, id: string)
    requires UniqueIds(docs)
    requires Matches(d, id)
    ensures UniqueIds(InsertOne(docs, d)) <==> !HasId(docs, id)
  {
  }

  /** A `$set` that leaves "id" alone, with or without upsert, keeps the ids
      unique: the upsert only adds a document when the id was absent. */
  lemma UpdateKeepsUnique(docs: seq<Document>, id: string, fields: Document, upsert: bool)
    requires UniqueIds(docs)
    requires "id" !in fields
    ensures UniqueIds(UpdateOne(docs, id, fields, upsert).collection)
  {
  }

  /** `delete_one` keeps the ids unique, and when they were unique no
      document with the deleted id is left. */
  lemma DeleteKeepsUnique(docs: seq<Document>, id: string)
    requires UniqueIds(docs)
    ensures UniqueIds(DeleteOne(docs, id).collection)
    ensures !HasId(DeleteOne(docs, id).collection, id)
  {
  }
}
