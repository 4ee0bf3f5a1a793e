/**
 The product draft shared by the add and edit forms: its fields, the
 single-field update every input uses, and the payload built on submit.
 */
module ProductForm {
  import opened Wrappers
  import opened JsStrings
  import Api

  /**
   A numeric draft field: a number until the user types into its input, then
   the typed text.
   */
  datatype Value = Str(s: string) | Num(n: real)

  datatype Draft = Draft(
    code: string,
    batch: string,
    name: string,
    brand: string,
    category: string,
    subtype: string,
    presentation: string,
    expiryDate: string,
    quantity: Value,
    unitPrice: Value)

  /** The keys of a draft. */
  datatype Key = Code | Batch | Name | Brand | Category | Subtype | Presentation | ExpiryDate
               | Quantity | UnitPrice

  /** The field of `d` at key `k`. */
  function Get(d: Draft, k: Key): Value {
    match k
    case Code => Str(d.code)
    case Batch => Str(d.batch)
    case Name => Str(d.name)
    case Brand => Str(d.brand)
    case Category => Str(d.category)
    case Subtype => Str(d.subtype)
    case Presentation => Str(d.presentation)
    case ExpiryDate => Str(d.expiryDate)
    case Quantity => d.quantity
    case UnitPrice => d.unitPrice
  }

  /**
   `set(k, v)`, i.e. `{ ...s, [k]: v }`: field `k` becomes `v` and every other
   field keeps its value. Every input passes the text it holds.
   */
  function Set(d: Draft, k: Key, v: string): (r: Draft)
    ensures Get(r, k) == Str(v)
    ensures forall k' :: k' != k ==> Get(r, k') == Get(d, k')
  {
    match k
    case Code => d.(code := v)
    case Batch => d.(batch := v)
    case Name => d.(name := v)
    case Brand => d.(brand := v)
    case Category => d.(category := v)
    case Subtype => d.(subtype := v)
    case Presentation => d.(presentation := v)
    case ExpiryDate => d.(expiryDate := v)
    case Quantity => d.(quantity := Str(v))
    case UnitPrice => d.(unitPrice := Str(v))
  }

  /** A second update of the same field overrides the first; updates of different fields commute. */
  lemma SetLaws(d: Draft, k: Key, j: Key, v: string, w: string)
    ensures Set(Set(d, k, v), k, w) == Set(d, k, w)
    ensures k != j ==> Set(Set(d, k, v), j, w) == Set(Set(d, j, w), k, v)
  {
  }

  /** The draft both forms start from, apart from the starting quantity. */
  function Blank(quantity: real): Draft {
    Draft("", "", "", "", "Pintura", "", "Galón", "", Num(quantity), Num(0.0))
  }

  /** The body sent to the server: optional fields are null instead of empty. */
  datatype Payload = Payload(
    code: string,
    batch: Option<string>,
    name: string,
    brand: string,
    category: string,
    subtype: Option<string>,
    presentation: string,
    expiryDate: string,
    quantity: Value,
    unitPrice: Value)

  /** `s || null`: only the empty string is null; blanks are kept. */
  function NullIfEmpty(s: string): Option<string> {
    if s == "" then None else Some(s)
  }

  /**
   `String(price).replace(',', '.')`, the text handed to `Number`: a number
   is left as it is, since its string form has no comma.
   */
  function PriceText(v: Value): Value {
    match v
    case Num(_) => v
    case Str(s) => Str(ReplaceFirst(s, ',', '.'))
  }

  /**
   The submit payload: empty batch and subtype become null, the first comma of
   a typed price becomes a point, and every other field is copied.
   */
  function ToPayload(d: Draft): (p: Payload)
    ensures p.code == d.code && p.name == d.name && p.brand == d.brand
    ensures p.category == d.category && p.presentation == d.presentation
    ensures p.expiryDate == d.expiryDate && p.quantity == d.quantity
    ensures p.batch.None? <==> d.batch == ""
    ensures p.batch.Some? ==> p.batch.value == d.batch
    ensures p.subtype.None? <==> d.subtype == ""
    ensures p.subtype.Some? ==> p.subtype.value == d.subtype
    ensures d.unitPrice.Num? ==> p.unitPrice == d.unitPrice
    ensures d.unitPrice.Str? && ',' !in d.unitPrice.s ==> p.unitPrice == d.unitPrice
    ensures d.unitPrice.Str? && ',' in d.unitPrice.s ==>
      var s := d.unitPrice.s;
      var i := IndexOf(s, ',');
      p.unitPrice == Str(s[..i] + "." + s[i + 1..])
  {
    Payload(d.code, NullIfEmpty(d.batch), d.name, d.brand, d.category, NullIfEmpty(d.subtype),
            d.presentation, d.expiryDate, d.quantity, PriceText(d.unitPrice))
  }

  /** The draft a payload came from, when its price text had no comma to rewrite. */
  function DraftOf(p: Payload): Draft {
    Draft(p.code, p.batch.GetOr(""), p.name, p.brand, p.category, p.subtype.GetOr(""),
          p.presentation, p.expiryDate, p.quantity, p.unitPrice)
  }

  /**
   Building the payload loses nothing but the decimal comma: the draft is
   recovered from it whenever the price holds no comma.
   */
  lemma PayloadRoundTrip(d: Draft)
    requires !(d.unitPrice.Str? && ',' in d.unitPrice.s)
    ensures DraftOf(ToPayload(d)) == d
  {
  }

  /** A typed price with a decimal comma is sent with a point; only the first comma changes. */
  /** The decimal comma of a price written with one comma becomes a point; a second comma stays. */
  lemma DecimalCommaExample()
    ensures ReplaceFirst("12,50", ',', '.') == "12.50"
    ensures ReplaceFirst("1,234,50", ',', '.') == "1.234,50"
  {
    ReplaceFirstAt("12,50", ',', '.', 2);
    assert "12,50"[..2] + ['.'] + "12,50"[3..] == "12.50";
    ReplaceFirstAt("1,234,50", ',', '.', 1);
    assert "1,234,50"[..1] + ['.'] + "1,234,50"[2..] == "1.234,50";
  }

  lemma PriceCommaExamples(d: Draft)
    ensures ToPayload(d.(unitPrice := Str("12,50"))).unitPrice == Str("12.50")
    ensures ToPayload(d.(unitPrice := Str("1,234,50"))).unitPrice == Str("1.234,50")
  {
    DecimalCommaExample();
  }

  /** The submitted request and its body. */
  datatype Submission = Submission(request: Api.Request, body: Payload)
}
