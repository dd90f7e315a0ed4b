/** The Product subgraph: the `createProduct`, `updateProduct` and `deleteProduct`
    mutations and the `product` query, all over the "products" collection. */
module Subgraph2 {
  import opened Wrappers
  import opened Bson
  import opened GraphQL
  import Mongo

  /** The Product object the resolvers return. */
  datatype Product = Product(id: string, name: string, price: F64)

  /** The argument of `createProduct`. */
  datatype NewProductInput = NewProductInput(id: string, name: string, price: F64)

  /** The document `createProduct` inserts. */
  function NewProductDoc(input: NewProductInput): (d: Document)
    ensures d.Keys == {"id", "name", "price"}
    ensures Mongo.Matches(d, input.id)
    ensures ProjectProduct(d) == Ok(Product(input.id, input.name, input.price))
  {
    map["id" := String(input.id), "name" := String(input.name), "price" := Double(input.price)]
  }

  /** The `$set` document of `updateProduct`: one field per supplied argument,
      and never "id". */
  function ProductUpdate(name: Option<string>, price: Option<F64>): (u: Document)
    ensures "name" in u <==> name.Some?
    ensures "price" in u <==> price.Some?
    ensures "id" !in u
    ensures u.Keys <= {"name", "price"}
    ensures name.Some? ==> u["name"] == String(name.value)
    ensures price.Some? ==> u["price"] == Double(price.value)
  {
    var withName: Document := if name.Some? then map["name" := String(name.value)] else map[];
    if price.Some? then withName["price" := Double(price.value)] else withName
  }

  /** A found document read as a Product with `get_str(..).unwrap()` on "id"
      and "name" and `get_f64(..).unwrap()` on "price": it succeeds only when
      the first two are strings and the price a double, and otherwise the
      resolver panics (it never reports an error). */
  function ProjectProduct(d: Document): (r: FieldResult<Product>)
    ensures r.Ok? || r.Panicked?
    ensures r.Ok? <==> GetStr(d, "id").Some? && GetStr(d, "name").Some? && GetF64(d, "price").Some?
    ensures r.Ok? ==>
      && d["id"] == String(r.value.id)
      && d["name"] == String(r.value.name)
      && d["price"] == Double(r.value.price)
  {
    match (GetStr(d, "id"), GetStr(d, "name"), GetF64(d, "price"))
    case (Some(id), Some(name), Some(price)) => Ok(Product(id, name, price))
    case _ => Panicked
  }

  /** What the `product` query answers for a collection: "Product not found" exactly
      when no document has the id, and otherwise the projection of the first
      one that does. */
  function LookupProduct(docs: seq<Document>, id: string): (r: FieldResult<Product>)
    ensures r == Err("Product not found") <==> !Mongo.HasId(docs, id)
    ensures Mongo.HasId(docs, id) ==> r == ProjectProduct(docs[Mongo.FirstMatch(docs, id).value])
  {
    match Mongo.FindOne(docs, id)
    case Some(d) => ProjectProduct(d)
    case None => Err("Product not found")
  }

  /** The "products" collection, with the resolvers of `Subgraph2Mutation` and
      `Subgraph2Query` as its methods. */
  class Products {
    var docs: seq<Document>

    constructor (initial: seq<Document>)
      ensures docs == initial
    {
      docs := initial;
    }

    /** `createProduct`: inserts the input as a document, without checking the
        id, and echoes it back. */
    method CreateProduct(input: NewProductInput) returns (r: FieldResult<Product>)
      modifies this
      ensures docs == old(docs) + [NewProductDoc(input)]
      ensures r == Ok(Product(input.id, input.name, input.price))
    {
      var productDoc := NewProductDoc(input);
      docs := Mongo.InsertOne(docs, productDoc);
      r := Ok(Product(input.id, input.name, input.price));
    }

    /** `updateProduct`: `$set` the supplied fields on the first document with
        the id and read it back. With no such document the call still
        upserts `{id}` plus the supplied fields, yet reports "Product not
        found". The "Product not found after update" branch is never taken. */
    method UpdateProduct(id: string, name: Option<string>, price: Option<F64>) returns (r: FieldResult<Product>)
      modifies this
      ensures match Mongo.FirstMatch(old(docs), id)
        case Some(i) =>
          && docs == old(docs)[i := old(docs)[i] + ProductUpdate(name, price)]
          && r == ProjectProduct(docs[i])
        case None =>
          && docs == old(docs) + [Mongo.UpsertDoc(id, ProductUpdate(name, price))]
          && r == Err("Product not found")
    {
      var updateDoc: Document := map[];
      if name.Some? {
        updateDoc := updateDoc["name" := String(name.value)];
      }
      if price.Some? {
        updateDoc := updateDoc["price" := Double(price.value)];
      }
      assert updateDoc == ProductUpdate(name, price);

      ghost var before := docs;
      var updateResult := Mongo.UpdateOne(docs, id, updateDoc, true);
      docs := updateResult.collection;
      if updateResult.matchedCount > 0 {
        Mongo.ReadBackAfterUpdate(before, id, updateDoc, true);
        var updatedProductDoc := Mongo.FindOne(docs, id);
        if updatedProductDoc.Some? {
          r := ProjectProduct(updatedProductDoc.value);
        } else {
          r := Err("Product not found after update");
        }
      } else {
        r := Err("Product not found");
      }
    }

    /** `deleteProduct`: removes the first document with the id and answers
        whether there was one. */
    method DeleteProduct(id: string) returns (r: FieldResult<bool>)
      modifies this
      ensures r == Ok(Mongo.HasId(old(docs), id))
      ensures match Mongo.FirstMatch(old(docs), id)
        case Some(i) => docs == old(docs)[..i] + old(docs)[i + 1..]
        case None => docs == old(docs)
    {
      var deleteResult := Mongo.DeleteOne(docs, id);
      docs := deleteResult.collection;
      r := Ok(deleteResult.deletedCount > 0);
    }

    /** The `product` query. */
    method GetProduct(id: string) returns (r: FieldResult<Product>)
      ensures r == LookupProduct(docs, id)
    {
      var productDoc := Mongo.FindOne(docs, id);
      if productDoc.Some? {
        r := ProjectProduct(productDoc.value);
      } else {
        r := Err("Product not found");
      }
    }
  }

  /** Creating a product whose id is new makes the `product` query return exactly
      the input. */
  lemma CreateThenGet(docs: seq<Document>, input: NewProductInput)
    requires !Mongo.HasId(docs, input.id)
    ensures LookupProduct(Mongo.InsertOne(docs, NewProductDoc(input)), input.id) == Ok(Product(input.id, input.name, input.price))
  {
    Mongo.FirstMatchAfterAppend(docs, NewProductDoc(input), input.id);
  }

  /** Creating a product whose id is already taken inserts a second document that
      the `product` query never sees. */
  lemma CreateDuplicateIsShadowed(docs: seq<Document>, input: NewProductInput)
    requires Mongo.HasId(docs, input.id)
    ensures LookupProduct(Mongo.InsertOne(docs, NewProductDoc(input)), input.id) == LookupProduct(docs, input.id)
  {
    Mongo.FirstMatchUnchangedByAppend(docs, NewProductDoc(input), input.id);
  }

  /** Updating a stored product overwrites the supplied fields, keeps the others,
      and the `product` query then returns that same record. */
  lemma UpdateThenGet(docs: seq<Document>, id: string, name: Option<string>, price: Option<F64>, stored: Product)
    requires Mongo.HasId(docs, id)
    requires ProjectProduct(docs[Mongo.FirstMatch(docs, id).value]) == Ok(stored)
    ensures var updated := docs[Mongo.FirstMatch(docs, id).value] + ProductUpdate(name, price);
      var expected := Ok(Product(id, name.GetOr(stored.name), price.GetOr(stored.price)));
      && ProjectProduct(updated) == expected
      && LookupProduct(Mongo.UpdateOne(docs, id, ProductUpdate(name, price), true).collection, id) == expected
  {
  }

  /** The document an update of a missing id upserts is found by the `product`
      query, which returns a Product only when both name and price were supplied
      and panics otherwise. */
  lemma GetAfterUpsert(docs: seq<Document>, id: string, name: Option<string>, price: Option<F64>)
    requires !Mongo.HasId(docs, id)
    ensures LookupProduct(Mongo.InsertOne(docs, Mongo.UpsertDoc(id, ProductUpdate(name, price))), id)
      == if name.Some? && price.Some? then Ok(Product(id, name.value, price.value)) else Panicked
  {
    Mongo.FirstMatchAfterAppend(docs, Mongo.UpsertDoc(id, ProductUpdate(name, price)), id);
  }

  /** The `product` query after a delete answers "Product not found" exactly when
      at most one document had the id. */
  lemma DeleteThenGet(docs: seq<Document>, id: string)
    ensures LookupProduct(Mongo.DeleteOne(docs, id).collection, id) == Err("Product not found") <==> Mongo.AtMostOne(docs, id)
  {
    Mongo.DeleteRemovesIdIff(docs, id);
  }

  /** With two documents for one id, as a repeated create leaves, deleting
      the id reports true and the `product` query then answers the second
      document: the id is still found. */
  lemma GetAfterDeleteOfDuplicate(docs: seq<Document>, id: string, i: nat, j: nat)
    requires i < j < |docs|
    requires Mongo.Matches(docs[i], id) && Mongo.Matches(docs[j], id)
    requires forall k :: 0 <= k < j && k != i ==> !Mongo.Matches(docs[k], id)
    ensures Mongo.DeleteOne(docs, id).deletedCount == 1
    ensures LookupProduct(Mongo.DeleteOne(docs, id).collection, id) == ProjectProduct(docs[j])
  {
    Mongo.FirstMatchAfterDelete(docs, id, i, j);
  }

  /** The life cycle of one product: create, query, update the price, query,
      delete, query. Then an update of a missing id, which reports "Product
      not found" and leaves behind a document that makes the query panic. */
  method LifeCycle(p1: F64, p2: F64) {
    var products := new Products([]);
    var input := NewProductInput("p1", "Lamp", p1);
    var created := products.CreateProduct(input);
    assert created == Ok(Product("p1", "Lamp", p1));
    CreateThenGet([], input);
    var found := products.GetProduct("p1");
    assert found == Ok(Product("p1", "Lamp", p1));

    ghost var beforeUpdate := products.docs;
    var updated := products.UpdateProduct("p1", None, Some(p2));
    UpdateThenGet(beforeUpdate, "p1", None, Some(p2), Product("p1", "Lamp", p1));
    assert updated == Ok(Product("p1", "Lamp", p2));
    found := products.GetProduct("p1");
    assert found == Ok(Product("p1", "Lamp", p2));

    ghost var beforeDelete := products.docs;
    var deleted := products.DeleteProduct("p1");
    assert Mongo.Matches(beforeDelete[0], "p1");
    assert deleted == Ok(true);
    found := products.GetProduct("p1");
    assert found == Err("Product not found");

    var upserted := products.UpdateProduct("p2", Some("Desk"), None);
    assert upserted == Err("Product not found");
    GetAfterUpsert([], "p2", Some("Desk"), None);
    found := products.GetProduct("p2");
    assert found == Panicked;
  }
}
