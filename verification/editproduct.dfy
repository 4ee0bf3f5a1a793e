/**
 The edit-product page: the draft it starts from, the normalisation of the
 fetched product into that draft, and the update request it submits.
 */
module EditProduct {
  import opened Wrappers
  import opened JsStrings
  import opened ProductForm
  import Api
  import AddProduct

  /** Until the product is loaded the draft holds quantity 0 and price 0. */
  function Initial(): (d: Draft)
    ensures d.quantity == Num(0.0) && d.unitPrice == Num(0.0)
    ensures d.category == "Pintura" && d.presentation == "Galón"
    ensures d.code == d.batch == d.name == d.brand == d.subtype == d.expiryDate == ""
  {
    Blank(0.0)
  }

  /** The two forms start alike except for the quantity. */
  lemma InitialDraftsDifferOnlyInQuantity()
    ensures forall k :: k != Quantity ==> Get(Initial(), k) == Get(AddProduct.Initial(), k)
    ensures Get(Initial(), Quantity) != Get(AddProduct.Initial(), Quantity)
  {
  }

  const LoadFailedMessage: string := "\U{26A0}\U{FE0F} No se pudo cargar el producto (puede que no exista)."

  /** The page state this model tracks: the draft and the message line. */
  datatype Page = Page(form: Draft, msg: string)

  function InitialPage(): Page {
    Page(Initial(), "")
  }

  /** `v || fallback` as a load-time default: `r` is the server text, or `fallback` when that is falsy. */
  predicate LoadedAs(v: JsString, fallback: string, r: string) {
    if v.Text? && v.s != "" then r == v.s else r == fallback
  }

  /** `Number(x) || 0` on a converted value: always a number, 0 in place of NaN. */
  function NumberOrZero(n: Api.JsNumber): (r: Value)
    ensures r.Num?
    ensures n.Finite? ==> r.n == n.x
    ensures n.NaN? ==> r.n == 0.0
  {
    match n
    case NaN => Num(0.0)
    case Finite(x) => Num(x)
  }

  /**
   The draft built from a fetched product: falsy text fields get their
   defaults, the expiry date is cut to its first ten characters, and numbers
   that did not convert become 0.
   */
  function FromServer(data: Api.Product): (d: Draft)
    ensures LoadedAs(data.code, "", d.code) && LoadedAs(data.batch, "", d.batch)
    ensures LoadedAs(data.name, "", d.name) && LoadedAs(data.brand, "", d.brand)
    ensures LoadedAs(data.subtype, "", d.subtype)
    ensures LoadedAs(data.category, "Pintura", d.category)
    ensures LoadedAs(data.presentation, "Galón", d.presentation)
    ensures |d.expiryDate| <= 10 && d.expiryDate <= OrEmpty(data.expiryDate)
    ensures |OrEmpty(data.expiryDate)| >= 10 ==> |d.expiryDate| == 10
    ensures |OrEmpty(data.expiryDate)| <= 10 ==> d.expiryDate == OrEmpty(data.expiryDate)
    ensures |OrEmpty(data.expiryDate)| > 10 ==> d.expiryDate == OrEmpty(data.expiryDate)[..10]
    ensures data.quantity.NaN? ==> d.quantity == Num(0.0)
    ensures data.quantity.Finite? ==> d.quantity == Num(data.quantity.x)
    ensures data.unitPrice.NaN? ==> d.unitPrice == Num(0.0)
    ensures data.unitPrice.Finite? ==> d.unitPrice == Num(data.unitPrice.x)
  {
    Draft(
      OrEmpty(data.code),
      OrEmpty(data.batch),
      OrEmpty(data.name),
      OrEmpty(data.brand),
      if OrEmpty(data.category) == "" then "Pintura" else OrEmpty(data.category),
      OrEmpty(data.subtype),
      if OrEmpty(data.presentation) == "" then "Galón" else OrEmpty(data.presentation),
      Take(OrEmpty(data.expiryDate), 10),
      NumberOrZero(data.quantity),
      NumberOrZero(data.unitPrice))
  }

  /**
   The load effect: a fetched product replaces the draft and clears the
   message; a failed fetch leaves the draft as it was and sets the warning.
   */
  function OnLoad(page: Page, fetched: Option<Api.Product>): (r: Page)
    ensures fetched.None? ==> r.form == page.form && r.msg == LoadFailedMessage
    ensures fetched.Some? ==> r.form == FromServer(fetched.value) && r.msg == ""
  {
    match fetched
    case Some(data) => Page(FromServer(data), "")
    case None => Page(page.form, LoadFailedMessage)
  }

  /**
   A successful load does not depend on what the page held before, and a
   repeated failure changes nothing more than the first one did.
   */
  lemma LoadOutcomeLaws(p: Page, q: Page, fetched: Option<Api.Product>)
    ensures fetched.Some? ==> OnLoad(p, fetched) == OnLoad(q, fetched)
    ensures fetched.None? ==> OnLoad(OnLoad(p, fetched), fetched) == OnLoad(p, fetched)
    ensures OnLoad(OnLoad(p, None), fetched).form == OnLoad(p, fetched).form
  {
  }

  /** When the load fails the form keeps its zero defaults and only the message changes. */
  lemma FailedLoadKeepsDefaults()
    ensures OnLoad(InitialPage(), None).form == Initial()
    ensures OnLoad(InitialPage(), None).form.quantity == Num(0.0)
    ensures OnLoad(InitialPage(), None).form.unitPrice == Num(0.0)
    ensures OnLoad(InitialPage(), None).msg != InitialPage().msg
  {
  }

  /** Submitting puts the normalised draft to the product's own path. */
  function Submit(id: string, d: Draft): (r: Submission)
    ensures r.request.verb == Api.Put && r.request.path == "/products/" + id
    ensures r.body == ToPayload(d)
  {
    Submission(Api.UpdateProduct(id), ToPayload(d))
  }

  /**
   Saving a loaded product without editing it sends back its non-empty
   optional fields verbatim and null for the empty or missing ones.
   */
  lemma LoadThenSubmit(id: string, data: Api.Product)
    ensures var body := Submit(id, FromServer(data)).body;
      && (body.batch.None? <==> OrEmpty(data.batch) == "")
      && (body.batch.Some? ==> data.batch == Text(body.batch.value))
      && (body.subtype.None? <==> OrEmpty(data.subtype) == "")
      && (body.subtype.Some? ==> data.subtype == Text(body.subtype.value))
      && body.quantity == NumberOrZero(data.quantity)
      && body.unitPrice == NumberOrZero(data.unitPrice)
  {
  }
}
