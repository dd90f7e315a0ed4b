# User and Product resolvers over a document store

This project models the two entity resolvers of a GraphQL gateway built from
two subgraphs. The User subgraph (`src/schema/subgraph1.rs`) owns the "users"
collection. The Product subgraph (`src/schema/subgraph2.rs`) owns the
"products" collection. Each subgraph has three mutations (create, update,
delete) and one query (look up by id). All of them talk to a MongoDB
collection.

The model has these parts:

- `Bson` holds the values the resolvers write. A document is a map from field
  name to value, and a value is a string or a double. An `f64` is kept as its
  64-bit pattern (`F64`), because prices are only stored and copied.
  `GetStr` and `GetF64` are the driver's typed accessors. They fail when a
  field is missing or holds another type.
- `Mongo` models the driver calls as functions over the collection. The
  collection is a sequence of documents in insertion order. Each call uses
  the filter `{"id": id}`, which tests the document's own "id" field and not
  the store's primary key.
  - `insert_one` appends and enforces no uniqueness.
  - `find_one`, `update_one` and `delete_one` act on the first match.
  - `update_one` with `upsert` appends `{id}` plus the `$set` fields when
    nothing matches, and reports `matched_count = 0`.
  - `UniqueIds` is the uniqueness of ids that the entities are meant to have.
    The lemmas say which calls keep it.
- `GraphQL.FieldResult` is what a resolver produces: `Ok`, `Err(message)`, or
  `Panicked`. `Panicked` means an `unwrap()` on a field accessor failed, so
  the resolver never returned.
- `Subgraph1.Users` and `Subgraph2.Products` are classes that hold one
  collection (`docs`). Their methods are the resolvers: they change `docs`
  step by step as the source does, including the `$set` document that is
  built up one field at a time. The functions `LookupUser` and
  `LookupProduct` specify the queries. The lemmas relate operations to each
  other: create then query, update then query, delete then query, and the
  upsert left behind by a failed update.

The code carries a quirk, and the model keeps it. An update of a missing id
reports "User not found" (or "Product not found"). Because the call runs with
`upsert(true)`, it still inserts a document holding only the id and the
supplied fields. A later query on that id finds this document. Unless both
optional fields were supplied, the query then panics at `unwrap()`
(`GetAfterUpsert`, and the `LifeCycle` client methods).

Two more facts about the code:

- Nothing enforces unique ids. Create never reports a duplicate. While the
  first document for an id remains, the later duplicate does not change what
  the query answers (`CreateDuplicateIsShadowed`). Once that first document
  is deleted, the delete reports true and the query answers the duplicate
  instead of "not found" (`GetAfterDeleteOfDuplicate`). A delete makes the
  query answer "not found" exactly when at most one document held the id,
  whatever other ids are duplicated (`DeleteThenGet`).
- The query panics on an incomplete document instead of reporting an error.

## Model

| member | source | states |
|---|---|---|
| `Mongo.FirstMatch` | src/schema/subgraph1.rs:92-93 | the position the single-document calls act on: none exactly when no document has the id; otherwise a document with the id, with no match before it |
| `Mongo.FindOne` | src/schema/subgraph1.rs:93 | `find_one` finds nothing exactly when no document has the id; otherwise it returns the first stored document with that id |
| `Mongo.InsertOne` | src/schema/subgraph1.rs:35 | `insert_one` appends the document at the end and keeps every earlier document in place, whatever ids the collection already holds |
| `Mongo.UpdateOne` | src/schema/subgraph1.rs:56 | `update_one` reports matched_count 1 exactly when the id exists. It then overwrites only the `$set` fields of the first match, keeps that document's other fields and leaves every other document alone. With no match and upsert it appends `{id}` plus the `$set` fields |
| `Mongo.DeleteOne` | src/schema/subgraph1.rs:79 | `delete_one` reports deleted_count 1 exactly when the id exists. The collection then loses exactly the first match: the documents before it stay in place, and the documents after it shift down one position in their old order |
| `Mongo.UpsertDoc` | src/schema/subgraph1.rs:56 | the document an upsert creates has exactly the filter's id and the `$set` fields, and satisfies the filter |
| `Bson.GetStr` | src/schema/subgraph1.rs:97-99 | `get_str` yields a string exactly when the field is present and holds a string, and that string is the field's value |
| `Bson.GetF64` | src/schema/subgraph2.rs:100 | `get_f64` yields a double exactly when the field is present and holds a double, and that double is the field's value |
| `Mongo.ReadBackAfterUpdate` | src/schema/subgraph1.rs:56-69 | after an update that matched, `find_one` on the id returns the updated document at the same position, so the "not found after update" branch cannot be taken |
| `Mongo.FirstMatchAfterAppend` | src/schema/subgraph1.rs:35 | inserting a document for an id the collection lacked makes it the first match |
| `Mongo.FirstMatchUnchangedByAppend` | src/schema/subgraph1.rs:35 | inserting a document for an id the collection already holds does not change the first match |
| `Mongo.FirstMatchAfterDelete` | src/schema/subgraph1.rs:79 | when a second document has the id, deleting the first match makes that second document the first match |
| `Mongo.DeleteRemovesIdIff` | src/schema/subgraph1.rs:79 | after `delete_one` no document has the id if and only if at most one document had it before |
| `Mongo.InsertKeepsUniqueIff` | src/schema/subgraph1.rs:35 | an insert keeps ids unique if and only if no document had that id before |
| `Mongo.UpdateKeepsUnique` | src/schema/subgraph1.rs:56 | an update whose `$set` omits "id" keeps ids unique, with or without upsert |
| `Mongo.DeleteKeepsUnique` | src/schema/subgraph1.rs:79 | a delete keeps ids unique, and under unique ids no document with the deleted id remains |
| `Subgraph1.UserUpdate` | src/schema/subgraph1.rs:48-54 | the `$set` document holds "name" iff a name is supplied and "email" iff an email is supplied, with the supplied strings, and never holds "id" |
| `Subgraph1.NewUserDoc` | src/schema/subgraph1.rs:29-33 | the document create inserts holds exactly "id", "name" and "email", satisfies the filter on the input's id, and projects back to a User equal to the input |
| `Subgraph1.ProjectUser` | src/schema/subgraph1.rs:96-100 | the projection never yields an error: it returns a User whose fields are the document's "id", "name" and "email" exactly when all three are strings, and panics otherwise |
| `Subgraph1.LookupUser` | src/schema/subgraph1.rs:92-104 | the `user` query answers "User not found" if and only if no document has the id; otherwise it answers the projection of the first matching document |
| `Subgraph1.Users.CreateUser` | src/schema/subgraph1.rs:29-41 | appends exactly one document with the input's id, name and email, and returns a User equal to the input |
| `Subgraph1.Users.UpdateUser` | src/schema/subgraph1.rs:44-72 | on an existing id it applies the `$set` to the first match only and returns the read-back projection; on a missing id it appends `{id}` plus the supplied fields and returns "User not found" |
| `Subgraph1.Users.DeleteUser` | src/schema/subgraph1.rs:75-81 | returns true iff some document had the id, and removes exactly the first such document |
| `Subgraph1.Users.GetUser` | src/schema/subgraph1.rs:89-105 | the query method answers what `LookupUser` specifies and does not change the collection |
| `Subgraph1.CreateThenGet` | src/schema/subgraph1.rs:92-101 | after creating a user whose id was absent, the query returns a User equal to the input |
| `Subgraph1.CreateDuplicateIsShadowed` | src/schema/subgraph1.rs:35 | creating a user whose id is present changes nothing the query can see |
| `Subgraph1.UpdateThenGet` | src/schema/subgraph1.rs:56-66 | updating a complete stored user yields the stored record with only the supplied fields replaced, and the query then returns that record |
| `Subgraph1.GetAfterUpsert` | src/schema/subgraph1.rs:97-99 | the query on the id a failed update upserted returns a User iff both name and email were supplied, and panics otherwise |
| `Subgraph1.DeleteThenGet` | src/schema/subgraph1.rs:79-80 | the query after a delete answers "User not found" if and only if at most one document held the id |
| `Subgraph1.GetAfterDeleteOfDuplicate` | src/schema/subgraph1.rs:79-80 | with two documents for one id, the delete reports one document removed and the query then answers the projection of the second document, not "User not found" |
| `Subgraph2.ProductUpdate` | src/schema/subgraph2.rs:48-54 | the `$set` document holds "name" iff a name is supplied and "price" iff a price is supplied, with the supplied values, and never holds "id" |
| `Subgraph2.NewProductDoc` | src/schema/subgraph2.rs:29-33 | the document create inserts holds exactly "id", "name" and "price", satisfies the filter on the input's id, and projects back to a Product equal to the input |
| `Subgraph2.ProjectProduct` | src/schema/subgraph2.rs:97-101 | the projection never yields an error: it returns a Product from the document's fields exactly when "id" and "name" are strings and "price" is a double, and panics otherwise |
| `Subgraph2.LookupProduct` | src/schema/subgraph2.rs:93-105 | the `product` query answers "Product not found" if and only if no document has the id; otherwise it answers the projection of the first matching document |
| `Subgraph2.Products.CreateProduct` | src/schema/subgraph2.rs:29-41 | appends exactly one document with the input's id, name and price, and returns a Product equal to the input |
| `Subgraph2.Products.UpdateProduct` | src/schema/subgraph2.rs:44-72 | on an existing id it applies the `$set` to the first match only and returns the read-back projection; on a missing id it appends `{id}` plus the supplied fields and returns "Product not found" |
| `Subgraph2.Products.DeleteProduct` | src/schema/subgraph2.rs:75-81 | returns true iff some document had the id, and removes exactly the first such document |
| `Subgraph2.Products.GetProduct` | src/schema/subgraph2.rs:89-106 | the query method answers what `LookupProduct` specifies and does not change the collection |
| `Subgraph2.CreateThenGet` | src/schema/subgraph2.rs:93-102 | after creating a product whose id was absent, the query returns a Product equal to the input |
| `Subgraph2.CreateDuplicateIsShadowed` | src/schema/subgraph2.rs:35 | creating a product whose id is present changes nothing the query can see |
| `Subgraph2.UpdateThenGet` | src/schema/subgraph2.rs:56-66 | updating a complete stored product yields the stored record with only the supplied fields replaced, and the query then returns that record |
| `Subgraph2.GetAfterUpsert` | src/schema/subgraph2.rs:98-100 | the query on the id a failed update upserted returns a Product iff both name and price were supplied, and panics otherwise |
| `Subgraph2.DeleteThenGet` | src/schema/subgraph2.rs:79-80 | the query after a delete answers "Product not found" if and only if at most one document held the id |
| `Subgraph2.GetAfterDeleteOfDuplicate` | src/schema/subgraph2.rs:79-80 | with two documents for one id, the delete reports one document removed and the query then answers the projection of the second document, not "Product not found" |

## Left out

- Driver and transport failures are not modelled. This covers every `?` on a driver call and the `ctx.data::<MongoDb>()` lookup. The in-memory collection never fails, so no "backend failure" outcome exists.
- The shared `Arc<Mutex<Database>>` handle, its locking and every `.await` are not modelled (`src/db.rs`). The resolvers run one after another on plain state.
- Schema composition (`src/schema/mod.rs`), the HTTP server and playground (`src/main.rs`), the decimal scalar (`src/schema/scalars.rs`) and the plain record definitions (`src/models.rs`) are not part of this model. Composition is done entirely by a library derive. The scalar delegates to a decimal library and to floating point.
- The `_id` primary key the server adds on insertion is not modelled. No resolver reads it.
- Only string and double BSON values are modelled, since the resolvers write nothing else. A field of another type makes the accessors fail in the same way as a missing field.
- An empty `$set` (update with neither optional field) is modelled as a no-op on the matched document, as MongoDB 5.0 and later treat it. Older servers reject that update, and that rejection is not modelled.
- Prices are compared by bit pattern. Rust's `f64` equality, which differs for NaN and for the two zeros, is not modelled; no resolver compares prices.
- What a panic does to the request beyond the resolver is not modelled; `Panicked` records only that the resolver did not return.
