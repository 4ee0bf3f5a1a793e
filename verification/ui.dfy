/** The presentational helpers whose output is a pure function of their props. */
module Ui {
  import opened Wrappers
  import opened JsStrings
  import Api

  datatype Variant = Default | Primary | Ghost

  /** The class word a variant adds; the default variant adds the empty word. */
  function VariantWord(v: Variant): string {
    match v
    case Primary => "primary"
    case Ghost => "ghost"
    case Default => ""
  }

  /**
   `['btn', word].join(' ').trim()`: the default variant's trailing space is
   trimmed away, so its class is the bare "btn".
   */
  function ButtonClass(v: Variant): (cls: string)
    ensures v == Default ==> cls == "btn"
    ensures v == Primary ==> cls == "btn primary"
    ensures v == Ghost ==> cls == "btn ghost"
  {
    var joined := Join(["btn", VariantWord(v)], ' ');
    JoinPair("btn", VariantWord(v), ' ');
    if v == Default then
      assert joined == "btn" + [' '];
      TrimDropsTrailingSpace("btn");
      Trim(joined)
    else
      assert Trimmed(joined);
      Trim(joined)
  }

  /** Every variant has its own class, and none ends in a space. */
  lemma ButtonClassesDistinct(v: Variant, w: Variant)
    ensures ButtonClass(v) == ButtonClass(w) ==> v == w
    ensures Trimmed(ButtonClass(v))
  {
  }

  datatype TabItem = TabItem(value: string, text: string)

  /** One rendered tab: its React key, class attribute and label. */
  datatype TabView = TabView(key: string, cls: string, text: string)

  predicate IsActive(t: TabView) {
    t.cls == "tab active"
  }

  /** The class of one tab: "tab active" when selected, otherwise "tab " with its trailing space. */
  function TabClass(selected: string, it: TabItem): string {
    "tab " + (if selected == it.value then "active" else "")
  }

  /** One tab per item, in item order; a tab is active iff its value is the selected value. */
  function Tabs(value: string, items: seq<TabItem>): (r: seq<TabView>)
    ensures |r| == |items|
    ensures forall i :: 0 <= i < |items| ==> r[i].key == items[i].value && r[i].text == items[i].text
    ensures forall i :: 0 <= i < |items| ==> (IsActive(r[i]) <==> value == items[i].value)
  {
    var r := seq(|items|, i requires 0 <= i < |items| =>
      TabView(items[i].value, TabClass(value, items[i]), items[i].text));
    assert forall i :: 0 <= i < |items| && value != items[i].value ==> |r[i].cls| == 4;
    r
  }

  predicate DistinctValues(items: seq<TabItem>) {
    forall i, j :: 0 <= i < j < |items| ==> items[i].value != items[j].value
  }

  /** With distinct item values at most one tab is active, and exactly one when the value is listed. */
  lemma AtMostOneActiveTab(value: string, items: seq<TabItem>)
    requires DistinctValues(items)
    ensures forall i, j ::
      (0 <= i < |items| && 0 <= j < |items| &&
       IsActive(Tabs(value, items)[i]) && IsActive(Tabs(value, items)[j])) ==> i == j
    ensures (exists i :: 0 <= i < |items| && items[i].value == value) ==>
      exists i :: 0 <= i < |items| && IsActive(Tabs(value, items)[i])
  {
    if exists i :: 0 <= i < |items| && items[i].value == value {
      var i :| 0 <= i < |items| && items[i].value == value;
      assert IsActive(Tabs(value, items)[i]);
    }
  }

  datatype Chip = Chip(cls: string, text: string)

  /**
   The chip for a status value: the two named statuses have their own chip and
   every other value falls through to the expired one.
   */
  function StatusChip(status: string): (c: Chip)
    ensures status == "OK" ==> c == Chip("chip badge-ok", "OK")
    ensures status == "POR_VENCER" ==> c == Chip("chip badge-warn", "Por vencer")
    ensures status != "OK" && status != "POR_VENCER" ==> c == Chip("chip badge-bad", "Vencido")
  {
    var cls :=
      if status == "OK" then "chip badge-ok"
      else if status == "POR_VENCER" then "chip badge-warn"
      else "chip badge-bad";
    var txt :=
      if status == "OK" then "OK"
      else if status == "POR_VENCER" then "Por vencer"
      else "Vencido";
    Chip(cls, txt)
  }

  /** The status a chip label stands for. */
  function StatusOfLabel(txt: string): Option<Api.Status> {
    if txt == "OK" then Some(Api.OK)
    else if txt == "Por vencer" then Some(Api.POR_VENCER)
    else if txt == "Vencido" then Some(Api.VENCIDO)
    else None
  }

  /**
   Over the three statuses the chip is total and one-to-one: its label names
   the status back, and two statuses never share a label or a class.
   */
  lemma StatusChipOneToOne(s: Api.Status, t: Api.Status)
    ensures StatusOfLabel(StatusChip(Api.StatusName(s)).text) == Some(s)
    ensures StatusChip(Api.StatusName(s)).cls == StatusChip(Api.StatusName(t)).cls ==> s == t
  {
  }
}
