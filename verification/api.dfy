/**
 The REST client: the `Product` record the server returns and the request
 targets the client builds. Sending the requests is not modelled; a request is
 its verb and path.
 */
module Api {
  import opened Wrappers
  import opened JsStrings

  /** The server-assigned expiry bucket. */
  datatype Status = OK | POR_VENCER | VENCIDO

  /** The status as spelled in the `Product` record. */
  function StatusName(s: Status): string {
    match s
    case OK => "OK"
    case POR_VENCER => "POR_VENCER"
    case VENCIDO => "VENCIDO"
  }

  /** A numeric field after `Number(...)`: a finite value or NaN. */
  datatype JsNumber = NaN | Finite(x: real)

  /**
   The fields of a product the client reads. Text fields may be absent or
   null on the wire; numeric fields are given as `Number(field)`.
   */
  datatype Product = Product(
    id: string,
    code: JsString,
    batch: JsString,
    name: JsString,
    brand: JsString,
    category: JsString,
    subtype: JsString,
    presentation: JsString,
    expiryDate: JsString,
    quantity: JsNumber,
    unitPrice: JsNumber,
    status: Option<Status>)

  datatype Verb = Get | Post | Put | Delete

  datatype Request = Request(verb: Verb, path: string)

  const CollectionPath: string := "/products"
  const StatusQueryPrefix: string := "/products?status="
  const ItemPrefix: string := "/products/"

  /**
   The list path: the collection, with a status filter added only for a
   non-empty status; the filter can be read back and the path names no item.
   */
  function ProductsPath(status: Option<string>): (p: string)
    ensures CollectionPath <= p
    ensures StatusOfPath(p) == if status.Some? && status.value != "" then status else None
    ensures IdOfPath(p) == None
  {
    if status.Some? && status.value != "" then
      var p := StatusQueryPrefix + status.value;
      assert p[|StatusQueryPrefix|..] == status.value;
      assert p[9] == '?';
      p
    else
      CollectionPath
  }

  /** The item path: the id is appended as is, without URL encoding, and reads back unchanged. */
  function ItemPath(id: string): (p: string)
    ensures CollectionPath <= p
    ensures IdOfPath(p) == Some(id)
    ensures StatusOfPath(p) == None
  {
    var p := ItemPrefix + id;
    assert p[|ItemPrefix|..] == id;
    assert p[9] == '/';
    p
  }

  /** Reads the list, filtered by the status it was given when that is non-empty. */
  function GetProducts(status: Option<string>): (r: Request)
    ensures r.verb == Get
    ensures StatusOfPath(r.path) == if status.Some? && status.value != "" then status else None
    ensures IdOfPath(r.path) == None
  {
    Request(Get, ProductsPath(status))
  }

  /** Reads the one product whose id the path carries. */
  function GetProduct(id: string): (r: Request)
    ensures r.verb == Get && IdOfPath(r.path) == Some(id)
  {
    Request(Get, ItemPath(id))
  }

  /** Creates a product: posts to the unfiltered collection. */
  function CreateProduct(): (r: Request)
    ensures r.verb == Post
    ensures r.path == GetProducts(None).path
    ensures StatusOfPath(r.path) == None && IdOfPath(r.path) == None
  {
    Request(Post, CollectionPath)
  }

  /** Replaces the product whose id the path carries. */
  function UpdateProduct(id: string): (r: Request)
    ensures r.verb == Put && IdOfPath(r.path) == Some(id)
  {
    Request(Put, ItemPath(id))
  }

  /** Deletes the product whose id the path carries. */
  function DeleteProduct(id: string): (r: Request)
    ensures r.verb == Delete && IdOfPath(r.path) == Some(id)
  {
    Request(Delete, ItemPath(id))
  }

  /** Reads the status filter back out of a list path, if it carries one. */
  function StatusOfPath(path: string): Option<string> {
    if StatusQueryPrefix <= path then Some(path[|StatusQueryPrefix|..]) else None
  }

  /** Reads the id back out of an item path. */
  function IdOfPath(path: string): Option<string> {
    if ItemPrefix <= path then Some(path[|ItemPrefix|..]) else None
  }

  /**
   The list request carries exactly the non-empty status it was given: an
   absent or empty status requests the whole collection.
   */
  lemma ProductsPathRoundTrip(status: Option<string>)
    ensures StatusOfPath(ProductsPath(status)) ==
      (if status.Some? && status.value != "" then status else None)
    ensures GetProducts(status).verb == Get
    ensures status.None? || status == Some("") ==> GetProducts(status).path == "/products"
  {
  }

  /**
   Reading, updating and deleting all target the same item path, from which
   the id is recovered unchanged; they differ only in the verb.
   */
  lemma ItemRequestsShareTarget(id: string)
    ensures GetProduct(id).path == UpdateProduct(id).path == DeleteProduct(id).path
    ensures IdOfPath(GetProduct(id).path) == Some(id)
    ensures GetProduct(id).verb == Get && UpdateProduct(id).verb == Put
      && DeleteProduct(id).verb == Delete
  {
  }

  /** No item path is a list path, whatever the id and status. */
  lemma ItemPathIsNotListPath(id: string, status: Option<string>)
    ensures ItemPath(id) != ProductsPath(status)
  {
  }
}
