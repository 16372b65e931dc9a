/**
 * The product service: the document `createProduct` writes, with its fixed
 * field list and forced status, and the `updatedAt` stamp `updateProduct`
 * adds. Neither wraps backend errors: a rejection reaches the caller with
 * the backend's own message.
 */
module ProductService {
  import opened Json
  import opened Remote

  const ProductsCollection := "products"
  const ProductFields: set<string> :=
    {"name", "description", "price", "categoryId", "brandId", "stock", "image", "status"}

  /**
   * The document `createProduct(data)` writes: seven fields read from
   * `data` (undefined where `data` lacks them) and `status: 'active'`.
   */
  function ProductDocument(data: Doc): (r: Doc)
    ensures r.Keys == ProductFields
    ensures r["status"] == Str("active")
    ensures forall k :: k in r && k != "status" ==> r[k] == Get(data, k)
  {
    map["name" := Get(data, "name"), "description" := Get(data, "description"), "price" := Get(data, "price"),
        "categoryId" := Get(data, "categoryId"), "brandId" := Get(data, "brandId"), "stock" := Get(data, "stock"),
        "image" := Get(data, "image"), "status" := Str("active")]
  }

  /** Whatever status the caller asks for, the stored one is 'active'. */
  lemma StatusAlwaysActive(data: Doc, status: Value)
    ensures ProductDocument(data["status" := status]) == ProductDocument(data)
  {
  }

  /** `createProduct(data)`: one create request in the 'products' collection. */
  method CreateProduct(env: Env, respond: Call -> Response, data: Doc, documentId: string)
    returns (calls: seq<Call>, r: Result<Doc>)
    ensures calls == [CreateDocument(EnvValue(env, DatabaseVar), ProductsCollection, documentId, ProductDocument(data))]
    ensures respond(calls[0]).Done? ==> r == Success(respond(calls[0]).doc)
    ensures respond(calls[0]).Rejected? ==> r == Failure(respond(calls[0]).message)
  {
    var c := CreateDocument(EnvValue(env, DatabaseVar), ProductsCollection, documentId, ProductDocument(data));
    calls := [c];
    match respond(c)
    case Done(d) => r := Success(d);
    case Rejected(m) => r := Failure(m);
  }

  /** The payload `updateProduct(id, data)` sends: the caller's fields plus `updatedAt`. */
  function UpdatePayload(data: Doc, isoNow: string): (r: Doc)
    ensures r.Keys == data.Keys + {"updatedAt"}
    ensures r["updatedAt"] == Str(isoNow)
    ensures forall k :: k in data && k != "updatedAt" ==> r[k] == data[k]
  {
    Spread(data, map["updatedAt" := Str(isoNow)])
  }

  /** A caller-supplied `updatedAt` is overridden; nothing else is touched. */
  lemma UpdatePayloadOverrides(data: Doc, stale: Value, isoNow: string)
    ensures UpdatePayload(data["updatedAt" := stale], isoNow) == UpdatePayload(data, isoNow)
  {
  }

  /** `updateProduct(id, data)`: one update request with the stamped payload. */
  method UpdateProduct(env: Env, respond: Call -> Response, productId: string, data: Doc, isoNow: string)
    returns (calls: seq<Call>, r: Result<Doc>)
    ensures calls == [UpdateDocument(EnvValue(env, DatabaseVar), ProductsCollection, productId, UpdatePayload(data, isoNow))]
    ensures respond(calls[0]).Done? ==> r == Success(respond(calls[0]).doc)
    ensures respond(calls[0]).Rejected? ==> r == Failure(respond(calls[0]).message)
  {
    var c := UpdateDocument(EnvValue(env, DatabaseVar), ProductsCollection, productId, UpdatePayload(data, isoNow));
    calls := [c];
    match respond(c)
    case Done(d) => r := Success(d);
    case Rejected(m) => r := Failure(m);
  }
}
