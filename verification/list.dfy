/**
 The product list page: the status tab sent to the server, the brand
 dropdown, the search-and-brand filter, the expiry date shown for a row and
 the status badge of a row. All of it is derived from the last fetched
 snapshot `items`.
 */
module ProductList {
  import opened Wrappers
  import opened JsStrings
  import opened Seqs
  import Api
  import Ui

  /** The tabs above the list: every product, or one status. */
  datatype Tab = Todos | StatusTab(status: Api.Status)

  /**
   `mapStatus`: the status filter the list request carries. The server spells
   statuses in lower case with a hyphen.
   */
  function MapStatus(t: Tab): (r: Option<string>)
    ensures t == Todos ==> r == None
    ensures t == StatusTab(Api.OK) ==> r == Some("ok")
    ensures t == StatusTab(Api.POR_VENCER) ==> r == Some("por-vencer")
    ensures t == StatusTab(Api.VENCIDO) ==> r == Some("vencido")
  {
    match t
    case Todos => None
    case StatusTab(s) =>
      if s == Api.POR_VENCER then Some("por-vencer")
      else
        assert Lower("OK") == "ok";
        assert Lower("VENCIDO") == "vencido";
        Some(Lower(Api.StatusName(s)))
  }

  /** The tab a server status filter stands for. */
  function TabOfWire(w: Option<string>): Option<Tab> {
    match w
    case None => Some(Todos)
    case Some(s) =>
      if s == "ok" then Some(StatusTab(Api.OK))
      else if s == "por-vencer" then Some(StatusTab(Api.POR_VENCER))
      else if s == "vencido" then Some(StatusTab(Api.VENCIDO))
      else None
  }

  /** Distinct tabs are sent as distinct filters: the tab is recovered from what is sent. */
  lemma MapStatusRoundTrip(t: Tab)
    ensures TabOfWire(MapStatus(t)) == Some(t)
  {
  }

  /** `load`: the request the list issues for the selected tab. */
  function ListRequest(t: Tab): Api.Request {
    Api.GetProducts(MapStatus(t))
  }

  /**
   The list request for a tab reads its status back as the tab's wire status:
   'todos' fetches the bare collection and "Por vencer" asks for `por-vencer`.
   */
  lemma ListRequestForTab(t: Tab)
    ensures Api.StatusOfPath(ListRequest(t).path) == MapStatus(t)
    ensures ListRequest(Todos).path == "/products"
    ensures ListRequest(StatusTab(Api.POR_VENCER)).path == "/products?status=por-vencer"
  {
    Api.ProductsPathRoundTrip(MapStatus(t));
  }

  /** The dropdown key of a product: its brand, trimmed. */
  function BrandKey(p: Api.Product): string {
    Trim(OrEmpty(p.brand))
  }

  /** The dropdown key of every product, in snapshot order. */
  function BrandKeys(items: seq<Api.Product>): (keys: seq<string>)
    ensures |keys| == |items| && forall i :: 0 <= i < |items| ==> keys[i] == BrandKey(items[i])
  {
    seq(|items|, i requires 0 <= i < |items| => BrandKey(items[i]))
  }

  /** The trimmed brands of the non-blank-branded products, in snapshot order, repeats included. */
  function PresentBrands(items: seq<Api.Product>): (r: seq<string>)
    ensures forall b :: b in r <==> b != "" && exists i :: 0 <= i < |items| && BrandKey(items[i]) == b
  {
    var keys := BrandKeys(items);
    var r := Filter(keys, (b: string) => b != "");
    PresentBrandsMembers(items, keys, r);
    r
  }

  lemma PresentBrandsMembers(items: seq<Api.Product>, keys: seq<string>, r: seq<string>)
    requires |keys| == |items| && forall i :: 0 <= i < |items| ==> keys[i] == BrandKey(items[i])
    requires forall b :: b in r ==> b in keys && b != ""
    requires forall i :: 0 <= i < |keys| && keys[i] != "" ==> keys[i] in r
    ensures forall b :: b in r <==> b != "" && exists i :: 0 <= i < |items| && BrandKey(items[i]) == b
  {
    forall b | b in r
      ensures b != "" && exists i :: 0 <= i < |items| && BrandKey(items[i]) == b
    {
      var i :| 0 <= i < |keys| && keys[i] == b;
      assert BrandKey(items[i]) == b;
    }
    forall b | b != "" && exists i :: 0 <= i < |items| && BrandKey(items[i]) == b
      ensures b in r
    {
      var i :| 0 <= i < |items| && BrandKey(items[i]) == b;
      assert keys[i] == b;
    }
  }

  /**
   The brand dropdown: the distinct non-empty trimmed brands of the snapshot,
   sorted by `leq` (the page sorts with `localeCompare`).
   */
  function Brands(items: seq<Api.Product>, leq: (string, string) -> bool): (r: seq<string>)
    requires TotalPreorder(leq)
    ensures forall i :: 0 <= i < |r| ==> r[i] != "" && Trimmed(r[i])
    ensures NoDuplicates(r)
    ensures Sorted(r, leq)
    ensures forall b :: b in r <==> b != "" && exists i :: 0 <= i < |items| && BrandKey(items[i]) == b
  {
    var distinct := Distinct(PresentBrands(items));
    var r := SortBy(distinct, leq);
    PermutationKeepsNoDuplicates(distinct, r);
    BrandsMembers(items, distinct, r);
    r
  }

  lemma BrandsMembers(items: seq<Api.Product>, distinct: seq<string>, r: seq<string>)
    requires distinct == Distinct(PresentBrands(items)) && multiset(r) == multiset(distinct)
    ensures forall b :: b in r <==> b != "" && exists i :: 0 <= i < |items| && BrandKey(items[i]) == b
    ensures forall i :: 0 <= i < |r| ==> r[i] != "" && Trimmed(r[i])
  {
    var present := PresentBrands(items);
    forall b ensures b in r <==> b in present {
      assert b in r <==> b in multiset(r);
      assert b in distinct <==> b in multiset(distinct);
      if b in present {
        var i :| 0 <= i < |present| && present[i] == b;
      }
      if b in distinct {
        var i :| 0 <= i < |distinct| && distinct[i] == b;
      }
    }
    BrandsTrimmed(items, present, r);
  }

  lemma BrandsTrimmed(items: seq<Api.Product>, present: seq<string>, r: seq<string>)
    requires present == PresentBrands(items)
    requires forall b :: b in r ==> b in present
    ensures forall i :: 0 <= i < |r| ==> r[i] != "" && Trimmed(r[i])
  {
    forall i | 0 <= i < |r| ensures r[i] != "" && Trimmed(r[i]) {
      assert r[i] in present;
      var j :| 0 <= j < |items| && BrandKey(items[j]) == r[i];
    }
  }

  /** The search key: the query trimmed and lower-cased. */
  function QueryKey(q: string): string {
    Lower(Trim(q))
  }

  /** The search test: an empty key, or the key inside the lower-cased code, name or brand. */
  predicate MatchesQuery(p: Api.Product, k: string) {
    || k == ""
    || Includes(Lower(OrEmpty(p.code)), k)
    || Includes(Lower(OrEmpty(p.name)), k)
    || Includes(Lower(OrEmpty(p.brand)), k)
  }

  /** The brand test: no brand selected, or the RAW brand equals the selection. */
  predicate MatchesBrand(p: Api.Product, brand: string) {
    brand == "" || OrEmpty(p.brand) == brand
  }

  /**
   `filtered`: the snapshot narrowed by the search query and the selected
   brand; every shown row passes both tests and every row that does is shown.
   */
  function Filtered(items: seq<Api.Product>, q: string, brand: string): (r: seq<Api.Product>)
    ensures |r| <= |items|
    ensures forall p :: p in r ==> p in items && MatchesQuery(p, QueryKey(q)) && MatchesBrand(p, brand)
    ensures forall j :: 0 <= j < |items| ==>
      (MatchesQuery(items[j], QueryKey(q)) && MatchesBrand(items[j], brand) ==> items[j] in r)
  {
    var k := QueryKey(q);
    Filter(items, (p: Api.Product) => MatchesQuery(p, k) && MatchesBrand(p, brand))
  }

  /**
   The filtered list is the ordered subsequence of the snapshot made of
   exactly the rows that pass both tests.
   */
  lemma FilteredSelection(items: seq<Api.Product>, q: string, brand: string) returns (idx: seq<int>)
    ensures SelectedBy(Filtered(items, q, brand), items, idx)
    ensures forall j :: 0 <= j < |items| ==>
      (j in idx <==> MatchesQuery(items[j], QueryKey(q)) && MatchesBrand(items[j], brand))
  {
    var k := QueryKey(q);
    idx := FilterSelects(items, (p: Api.Product) => MatchesQuery(p, k) && MatchesBrand(p, brand));
  }

  /**
   A product is shown iff it is in the snapshot, the lower-cased trimmed query
   occurs in its lower-cased code, name or brand (or the query is blank), and
   its raw brand equals the selected brand (or none is selected).
   */
  lemma FilteredMembers(items: seq<Api.Product>, q: string, brand: string, p: Api.Product)
    ensures p in Filtered(items, q, brand) <==>
      && p in items
      && (|| AllWhitespace(q)
          || Includes(Lower(OrEmpty(p.code)), Lower(Trim(q)))
          || Includes(Lower(OrEmpty(p.name)), Lower(Trim(q)))
          || Includes(Lower(OrEmpty(p.brand)), Lower(Trim(q))))
      && (brand == "" || OrEmpty(p.brand) == brand)
  {
    if p in items {
      var j :| 0 <= j < |items| && items[j] == p;
    }
  }

  /** A blank query and no brand show the whole snapshot. */
  lemma EmptyFiltersKeepAll(items: seq<Api.Product>, q: string)
    requires AllWhitespace(q)
    ensures Filtered(items, q, "") == items
  {
    var k := QueryKey(q);
    FilterKeepsAll(items, (p: Api.Product) => MatchesQuery(p, k) && MatchesBrand(p, ""));
  }

  /** Filtering the filtered list again with the same query and brand changes nothing. */
  lemma FilteredIdempotent(items: seq<Api.Product>, q: string, brand: string)
    ensures Filtered(Filtered(items, q, brand), q, brand) == Filtered(items, q, brand)
  {
    var k := QueryKey(q);
    FilterIdempotent(items, (p: Api.Product) => MatchesQuery(p, k) && MatchesBrand(p, brand));
  }

  /** Applying the search alone and then the brand alone, in either order, is the combined filter. */
  lemma FiltersCommute(items: seq<Api.Product>, q: string, brand: string)
    ensures Filtered(Filtered(items, q, ""), "", brand) == Filtered(items, q, brand)
    ensures Filtered(Filtered(items, "", brand), q, "") == Filtered(items, q, brand)
  {
    var k := QueryKey(q);
    assert QueryKey("") == "";
    var byQuery := (p: Api.Product) => MatchesQuery(p, k) && MatchesBrand(p, "");
    var byBrand := (p: Api.Product) => MatchesQuery(p, "") && MatchesBrand(p, brand);
    var both := (p: Api.Product) => MatchesQuery(p, k) && MatchesBrand(p, brand);
    FilterFuse(items, byQuery, byBrand, both);
    FilterCommute(items, byBrand, byQuery);
  }

  /**
   A product whose brand carries surrounding spaces is listed in the dropdown
   under its trimmed brand, yet choosing that entry hides the product: the
   brand test compares the untrimmed brand.
   */
  lemma PaddedBrandHiddenByOwnEntry(items: seq<Api.Product>, leq: (string, string) -> bool,
                                    q: string, p: Api.Product)
    requires TotalPreorder(leq)
    requires p in items && BrandKey(p) != "" && BrandKey(p) != OrEmpty(p.brand)
    ensures BrandKey(p) in Brands(items, leq)
    ensures p !in Filtered(items, q, BrandKey(p))
  {
    var i :| 0 <= i < |items| && items[i] == p;
    FilteredMembers(items, q, BrandKey(p), p);
  }

  /**
   `s.slice(0,10).split('-').reverse().join('/')`: every '-' of the first ten
   characters becomes a '/', so the shown text is as long as they are.
   */
  function DisplayDate(s: string): (r: string)
    ensures |r| == |Take(s, 10)|
    ensures '-' !in r
  {
    var parts := Split(Take(s, 10), '-');
    DisplayDateShape(parts, Take(s, 10));
    Join(Reverse(parts), '/')
  }

  lemma DisplayDateShape(parts: seq<string>, t: string)
    requires parts == Split(t, '-')
    ensures |Join(Reverse(parts), '/')| == |t|
    ensures '-' !in Join(Reverse(parts), '/')
  {
    var rev := Reverse(parts);
    SplitLength(t, '-');
    ReverseTotalLength(parts);
    JoinLength(rev, '/');
    assert forall i :: 0 <= i < |rev| ==> '-' !in rev[i] by {
      forall i | 0 <= i < |rev| ensures '-' !in rev[i] {
        assert rev[i] == parts[|parts| - 1 - i];
      }
    }
    JoinAvoids(rev, '/', '-');
  }

  lemma {:induction false} ReverseTotalLength(parts: seq<string>)
    ensures TotalLength(Reverse(parts)) == TotalLength(parts)
  {
    if |parts| > 0 {
      ReverseTotalLength(parts[1..]);
      TotalLengthAppend(Reverse(parts[1..]), [parts[0]]);
    }
  }

  /** Text of at most ten characters without a '-' is shown as it is. */
  lemma UndashedShownAsIs(s: string)
    requires |s| <= 10 && '-' !in s
    ensures DisplayDate(s) == s
  {
    assert Take(s, 10) == s;
    SplitJoin([s], '-');
    assert Reverse([s]) == [s];
  }

  /**
   The expiry date shown for a row, from `String(p.expiryDate)`: an ISO date
   reads day first, and a missing date shows "undefined" (or "null").
   */
  function ExpiryText(p: Api.Product): (r: string)
    ensures p.expiryDate.Undefined? ==> r == "undefined"
    ensures p.expiryDate.Null? ==> r == "null"
    ensures var s := Stringify(p.expiryDate);
      StartsWithIsoDate(s) ==> r == s[8..10] + "/" + s[5..7] + "/" + s[..4]
  {
    var s := Stringify(p.expiryDate);
    if p.expiryDate.Undefined? then
      UndashedShownAsIs("undefined");
      DisplayDate(s)
    else if p.expiryDate.Null? then
      UndashedShownAsIs("null");
      DisplayDate(s)
    else
      if StartsWithIsoDate(s) then IsoDateShownDayFirst(s); DisplayDate(s) else DisplayDate(s)
  }

  predicate IsDigit(c: char) {
    '0' <= c <= '9'
  }

  /** `s` starts with an ISO calendar date YYYY-MM-DD. */
  predicate StartsWithIsoDate(s: string) {
    && |s| >= 10 && s[4] == '-' && s[7] == '-'
    && (forall i :: 0 <= i < 10 && i != 4 && i != 7 ==> IsDigit(s[i]))
  }

  /** An ISO date, with or without a time part, is shown as DD/MM/YYYY. */
  lemma IsoDateShownDayFirst(s: string)
    requires StartsWithIsoDate(s)
    ensures DisplayDate(s) == s[8..10] + "/" + s[5..7] + "/" + s[..4]
  {
    var y, m, d := s[..4], s[5..7], s[8..10];
    assert '-' !in y && '-' !in m && '-' !in d by {
      assert forall i :: 0 <= i < 4 ==> y[i] == s[i];
      assert m[0] == s[5] && m[1] == s[6] && d[0] == s[8] && d[1] == s[9];
    }
    assert Take(s, 10) == y + ['-'] + (m + ['-'] + d);
    JoinCons(m, [d], '-');
    assert [m] + [d] == [m, d];
    JoinCons(y, [m, d], '-');
    assert [y] + [m, d] == [y, m, d];
    SplitJoin([y, m, d], '-');
    assert Reverse([y, m, d]) == [d, m, y];
    JoinCons(m, [y], '/');
    assert [m] + [y] == [m, y];
    JoinCons(d, [m, y], '/');
    assert [d] + [m, y] == [d, m, y];
  }

  /**
   The shown date loses nothing: when the first ten characters hold no '/',
   splitting the shown text at '/', reversing and joining with '-' gives them back.
   */
  lemma DisplayDateRoundTrip(s: string)
    requires '/' !in Take(s, 10)
    ensures Join(Reverse(Split(DisplayDate(s), '/')), '-') == Take(s, 10)
  {
    var parts := Split(Take(s, 10), '-');
    SplitPartsFromString(Take(s, 10), '-', '/');
    var rev := Reverse(parts);
    SplitJoin(rev, '/');
    ReverseInvolution(parts);
    JoinSplit(Take(s, 10), '-');
  }

  datatype Badge = Badge(cls: string, text: string)

  /**
   The status cell of a row: one conditional badge per status, in this order;
   at most one of them applies, and its label names the row's status.
   */
  function Badges(status: Option<Api.Status>): (r: seq<Badge>)
    ensures |r| == if status.Some? then 1 else 0
    ensures status.Some? ==> Ui.StatusOfLabel(r[0].text) == status
  {
    assert status.Some? ==> status.value == Api.OK || status.value == Api.POR_VENCER || status.value == Api.VENCIDO;
    (if status == Some(Api.OK) then [Badge("badge badge-ok", "OK")] else [])
    + (if status == Some(Api.POR_VENCER) then [Badge("badge badge-warn", "Por vencer")] else [])
    + (if status == Some(Api.VENCIDO) then [Badge("badge badge-error", "Vencido")] else [])
  }

  /**
   A row with a status shows exactly one badge, whose text is the status
   chip's label for that status; a row without a status shows none.
   */
  lemma OneBadgePerStatus(status: Option<Api.Status>)
    ensures |Badges(status)| == if status.Some? then 1 else 0
    ensures status.Some? ==>
      && Badges(status)[0].text == Ui.StatusChip(Api.StatusName(status.value)).text
      && Ui.StatusOfLabel(Badges(status)[0].text) == status
  {
  }
}
