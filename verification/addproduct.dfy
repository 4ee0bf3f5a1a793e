/** The add-product page: its starting draft and the create request it submits. */
module AddProduct {
  import opened ProductForm
  import Api

  /** A new product starts with quantity 1, price 0, category "Pintura", presentation "Galón". */
  function Initial(): (d: Draft)
    ensures d.quantity == Num(1.0) && d.unitPrice == Num(0.0)
    ensures d.category == "Pintura" && d.presentation == "Galón"
    ensures d.code == d.batch == d.name == d.brand == d.subtype == d.expiryDate == ""
  {
    Blank(1.0)
  }

  /** Submitting posts the normalised draft to the collection path. */
  function Submit(d: Draft): (r: Submission)
    ensures r.request.verb == Api.Post && r.request.path == "/products"
    ensures r.body == ToPayload(d)
  {
    Submission(Api.CreateProduct(), ToPayload(d))
  }
}
