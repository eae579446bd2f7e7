/** The invoice the editor in src/components/MainFeature.jsx keeps in its `invoice` state,
    and the pure updates its handlers apply to it: the totals recomputation its effect
    runs, the line-item list operations, the text and numeric field updates, the reset
    after a submission, `formatDate` and the generated invoice number.

    Money is an exact `real`: the source keeps JavaScript numbers and rounds only for
    display. */
module Invoices {
  import opened Wrappers
  import opened Text
  import opened Lists

  datatype Client = Client(name: string, email: string, address: string)

  /** One row of the items table; `total` is derived from `quantity` and `price`. */
  datatype LineItem = LineItem(id: int, description: string, quantity: real, price: real, total: real)

  datatype Invoice = Invoice(
    invoiceNumber: string,
    date: string,
    dueDate: string,
    client: Client,
    items: seq<LineItem>,
    subtotal: real,
    taxRate: real,
    taxAmount: real,
    discount: real,
    total: real,
    notes: string)

  /** A calendar date as a JavaScript `Date` reports it: `getFullYear()`, the 0-based
      `getMonth()` and `getDate()`. */
  datatype CalendarDate = CalendarDate(year: int, month: nat, day: nat)

  predicate ValidDate(d: CalendarDate) {
    d.month < 12 && 1 <= d.day <= 31
  }

  /** `{ id, description: '', quantity: 1, price: 0, total: 0 }` */
  function BlankItem(id: int): LineItem {
    LineItem(id, "", 1.0, 0.0, 0.0)
  }

  /** The invoice the component starts with; `today` and `due` are the dates of `new Date()`
      and of thirty days later, which the host clock supplies. */
  function InitialInvoice(today: CalendarDate, due: CalendarDate): Invoice {
    Invoice("", FormatDate(today), FormatDate(due), Client("", "", ""), [BlankItem(1)],
            0.0, 0.0, 0.0, 0.0, 0.0, "")
  }

  // ---------------------------------------------------------------------------
  // Totals

  /** What one line contributes: quantity × price. */
  function LineAmount(item: LineItem): real {
    Times(item.quantity, item.price)
  }

  /** The product of two amounts, such as a line's quantity × price. */
  function Times(a: real, b: real): real {
    a * b
  }

  /** `amount * (rate / 100)`: the given percentage of an amount. */
  function Percent(amount: real, rate: real): real {
    amount * (rate / 100.0)
  }

  /** Reference sum of quantity × price over the items, independent of the stored totals. */
  function LineAmounts(items: seq<LineItem>): real {
    if items == [] then 0.0 else LineAmount(items[0]) + LineAmounts(items[1..])
  }

  /** `items.reduce((sum, item) => sum + item.total, 0)`, folded from the left as `reduce` does. */
  function SumTotals(items: seq<LineItem>): real {
    if items == [] then 0.0 else SumTotals(items[..|items| - 1]) + items[|items| - 1].total
  }

  /** The effect's `items.map(item => ({ ...item, total: item.quantity * item.price }))`. */
  function WithItemTotals(items: seq<LineItem>): (r: seq<LineItem>)
    ensures |r| == |items|
  {
    seq(|items|, i requires 0 <= i < |items| => items[i].(total := LineAmount(items[i])))
  }

  /** The invariant the totals effect establishes: every line total is quantity × price,
      the subtotal is their sum, the tax is the rate's percentage of the subtotal, and the
      total is subtotal plus tax minus discount. */
  ghost predicate TotalsConsistent(inv: Invoice) {
    && (forall i :: 0 <= i < |inv.items| ==> inv.items[i].total == LineAmount(inv.items[i]))
    && inv.subtotal == LineAmounts(inv.items)
    && inv.taxAmount == Percent(inv.subtotal, inv.taxRate)
    && inv.total == inv.subtotal + inv.taxAmount - inv.discount
  }

  /** The invoice agrees with `before` on everything the totals effect does not write. */
  predicate SameInputs(inv: Invoice, before: Invoice) {
    && inv.invoiceNumber == before.invoiceNumber && inv.date == before.date && inv.dueDate == before.dueDate
    && inv.client == before.client && inv.taxRate == before.taxRate && inv.discount == before.discount
    && inv.notes == before.notes
    && |inv.items| == |before.items|
    && (forall i :: 0 <= i < |inv.items| ==> inv.items[i].id == before.items[i].id)
    && (forall i :: 0 <= i < |inv.items| ==> inv.items[i].description == before.items[i].description)
    && (forall i :: 0 <= i < |inv.items| ==> inv.items[i].quantity == before.items[i].quantity)
    && (forall i :: 0 <= i < |inv.items| ==> inv.items[i].price == before.items[i].price)
  }

  lemma {:induction false} LineAmountsAppend(items: seq<LineItem>, x: LineItem)
    ensures LineAmounts(items + [x]) == LineAmounts(items) + LineAmount(x)
    decreases |items|
  {
    if items != [] {
      assert (items + [x])[1..] == items[1..] + [x];
      LineAmountsAppend(items[1..], x);
    }
  }

  /** The reference sum reads only quantities and prices. */
  lemma {:induction false} LineAmountsIgnoresTotals(a: seq<LineItem>, b: seq<LineItem>)
    requires |a| == |b|
    requires forall i :: 0 <= i < |a| ==> a[i].quantity == b[i].quantity && a[i].price == b[i].price
    ensures LineAmounts(a) == LineAmounts(b)
    decreases |a|
  {
    if a != [] {
      LineAmountsIgnoresTotals(a[1..], b[1..]);
    }
  }

  /** Summing the recomputed line totals from the left gives the reference sum. */
  lemma {:induction false} SumOfItemTotals(items: seq<LineItem>)
    ensures SumTotals(WithItemTotals(items)) == LineAmounts(items)
    decreases |items|
  {
    if items != [] {
      var n := |items|;
      var front := items[..n - 1];
      forall i | 0 <= i < n - 1 ensures WithItemTotals(items)[..n - 1][i] == WithItemTotals(front)[i] {
        assert front[i] == items[i];
      }
      assert WithItemTotals(items)[..n - 1] == WithItemTotals(front);
      SumOfItemTotals(front);
      assert items == front + [items[n - 1]];
      LineAmountsAppend(front, items[n - 1]);
    }
  }

  /** The totals effect (src/components/MainFeature.jsx, lines 41-58): recompute every line
      total, then the subtotal, the tax amount and the total, together. */
  function Recompute(inv: Invoice): (r: Invoice)
    ensures SameInputs(r, inv)
  {
    var items := WithItemTotals(inv.items);
    var subtotal := SumTotals(items);
    var taxAmount := Percent(subtotal, inv.taxRate);
    inv.(items := items, subtotal := subtotal, taxAmount := taxAmount,
         total := subtotal + taxAmount - inv.discount)
  }

  /** The recomputation establishes the totals invariant, whatever the invoice was. */
  lemma RecomputeConsistent(inv: Invoice)
    ensures TotalsConsistent(Recompute(inv))
  {
    RecomputedItems(inv.items, WithItemTotals(inv.items));
  }

  /** The recomputed items keep every id, description, quantity and price, carry
      quantity × price as their totals, and sum to the reference sum. */
  lemma RecomputedItems(items: seq<LineItem>, recomputed: seq<LineItem>)
    requires recomputed == WithItemTotals(items)
    ensures forall i :: 0 <= i < |items| ==> recomputed[i] == items[i].(total := recomputed[i].total)
    ensures forall i :: 0 <= i < |items| ==> recomputed[i].total == LineAmount(recomputed[i])
    ensures SumTotals(recomputed) == LineAmounts(recomputed)
  {
    forall i | 0 <= i < |items|
      ensures recomputed[i] == items[i].(total := recomputed[i].total)
      ensures recomputed[i].total == LineAmount(recomputed[i])
    {
      var it := items[i];
      assert recomputed[i] == it.(total := LineAmount(it));
    }
    RecomputedSum(items);
  }

  lemma RecomputedSum(items: seq<LineItem>)
    ensures SumTotals(WithItemTotals(items)) == LineAmounts(WithItemTotals(items))
  {
    var recomputed := WithItemTotals(items);
    SumOfItemTotals(items);
    assert forall i :: 0 <= i < |items| ==>
      recomputed[i].quantity == items[i].quantity && recomputed[i].price == items[i].price;
    LineAmountsIgnoresTotals(recomputed, items);
  }

  /** An invoice whose totals are already consistent is a fixed point of the recomputation,
      so running the effect again changes nothing. */
  lemma RecomputeFixpoint(inv: Invoice)
    requires TotalsConsistent(inv)
    ensures Recompute(inv) == inv
  {
    var items := inv.items;
    forall i | 0 <= i < |items| ensures WithItemTotals(items)[i] == items[i] {
      var it := items[i];
      assert it.(total := LineAmount(it)) == it;
    }
    assert WithItemTotals(items) == items;
    SumOfItemTotals(items);
  }

  lemma RecomputeIdempotent(inv: Invoice)
    ensures Recompute(Recompute(inv)) == Recompute(inv)
  {
    RecomputeConsistent(inv);
    RecomputeFixpoint(Recompute(inv));
  }

  /** Items 2 × 10 and 1 × 5 with a 10 % tax rate and a discount of 3: subtotal 25,
      tax 2.5, total 24.5. */
  lemma WorkedExample(inv: Invoice)
    requires inv.items == [LineItem(1, "a", 2.0, 10.0, 0.0), LineItem(2, "b", 1.0, 5.0, 0.0)]
    requires inv.taxRate == 10.0 && inv.discount == 3.0
    ensures Recompute(inv).subtotal == 25.0
    ensures Recompute(inv).taxAmount == 2.5
    ensures Recompute(inv).total == 24.5
  {
    var items := inv.items;
    assert items[1..][1..] == [];
    assert LineAmounts(items[1..]) == 5.0;
    assert LineAmounts(items) == 25.0;
    SumOfItemTotals(items);
  }

  /** The initial invoice already satisfies the totals invariant, so the effect's first run
      on mount changes nothing. */
  lemma InitialInvoiceConsistent(today: CalendarDate, due: CalendarDate)
    ensures TotalsConsistent(InitialInvoice(today, due))
    ensures Recompute(InitialInvoice(today, due)) == InitialInvoice(today, due)
  {
    RecomputeOneBlank(InitialInvoice(today, due));
    RecomputeConsistent(InitialInvoice(today, due));
  }

  // ---------------------------------------------------------------------------
  // Line items

  /** The key `removeItem` and `handleItemChange` select items by. */
  function ItemId(item: LineItem): int {
    item.id
  }

  ghost predicate UniqueIds(items: seq<LineItem>) {
    DistinctKeys(items, ItemId)
  }

  /** `Math.max(0, ...items.map(item => item.id))` */
  function MaxId(items: seq<LineItem>): (m: int)
    ensures m >= 0
    ensures forall i :: 0 <= i < |items| ==> items[i].id <= m
    ensures m == 0 || exists i :: 0 <= i < |items| && items[i].id == m
  {
    if items == [] then 0
    else
      var front := MaxId(items[..|items| - 1]);
      var last := items[|items| - 1].id;
      assert forall i :: 0 <= i < |items| - 1 ==> items[i] == items[..|items| - 1][i];
      if front < last then last else front
  }

  /** The item list after `addItem`: append a blank item whose id is one more than the largest id (and at least 1). */
  function WithNewItem(items: seq<LineItem>): (r: seq<LineItem>)
    ensures |r| == |items| + 1 && r[..|items|] == items
    ensures r[|items|] == BlankItem(MaxId(items) + 1)
    ensures forall i :: 0 <= i < |items| ==> r[|items|].id != items[i].id
    ensures r[|items|].id >= 1
  {
    items + [BlankItem(MaxId(items) + 1)]
  }

  lemma AddItemKeepsIdsUnique(items: seq<LineItem>)
    requires UniqueIds(items)
    ensures UniqueIds(WithNewItem(items))
  {
  }

  /** The item list after `removeItem`: nothing happens while only one item is left; otherwise every item with
      the id is filtered out. */
  function WithItemRemoved(items: seq<LineItem>, id: int): (r: seq<LineItem>)
    ensures |items| == 1 ==> r == items
    ensures |items| != 1 ==> forall x :: x in r <==> x in items && x.id != id
  {
    if |items| == 1 then items
    else
      RemoveMembers(items, ItemId, id);
      Remove(items, ItemId, id)
  }

  /** With unique ids the list never becomes empty, loses at most the one item with the id,
      and keeps its ids unique. */
  lemma RemoveItemKeepsOne(items: seq<LineItem>, id: int)
    requires UniqueIds(items) && |items| >= 1
    ensures |WithItemRemoved(items, id)| >= 1
    ensures |WithItemRemoved(items, id)| >= |items| - 1
    ensures UniqueIds(WithItemRemoved(items, id))
  {
    if |items| != 1 {
      RemoveLength(items, ItemId, id);
      CountDistinct(items, ItemId, id);
      RemoveKeepsDistinct(items, ItemId, id);
    }
  }

  /** The columns `handleItemChange` is wired to. */
  datatype ItemField = Description | Quantity | Price

  /** `parseFloat(value) || 0`: `None` stands for NaN; a NaN or a zero becomes 0. */
  function ParseOrZero(parsed: Option<real>): (v: real)
    ensures parsed.None? ==> v == 0.0
    ensures parsed.Some? ==> v == parsed.value
  {
    match parsed
    case None => 0.0
    case Some(x) => x
  }

  /** `{ ...item, [field]: field === 'price' || field === 'quantity' ? (parseFloat(value) || 0) : value }`;
      `parse` is the host's `parseFloat`. */
  function ChangeItem(item: LineItem, field: ItemField, text: string, parse: string -> Option<real>): (r: LineItem)
    ensures r.id == item.id && r.total == item.total
    ensures r.description == if field == Description then text else item.description
    ensures r.quantity == if field == Quantity then ParseOrZero(parse(text)) else item.quantity
    ensures r.price == if field == Price then ParseOrZero(parse(text)) else item.price
  {
    match field
    case Description => item.(description := text)
    case Quantity => item.(quantity := ParseOrZero(parse(text)))
    case Price => item.(price := ParseOrZero(parse(text)))
  }

  /** `prev.items.map(item => item.id === id ? changed : item)` */
  function ChangeItems(items: seq<LineItem>, id: int, field: ItemField, text: string,
                       parse: string -> Option<real>): (r: seq<LineItem>)
    ensures |r| == |items|
    ensures forall i :: 0 <= i < |items| && items[i].id != id ==> r[i] == items[i]
    ensures forall i :: 0 <= i < |items| && items[i].id == id ==> r[i] == ChangeItem(items[i], field, text, parse)
  {
    seq(|items|, i requires 0 <= i < |items| =>
      if items[i].id == id then ChangeItem(items[i], field, text, parse) else items[i])
  }

  /** The recomputation keeps every item's id, so unique ids stay unique. */
  lemma RecomputeKeepsIds(inv: Invoice)
    requires UniqueIds(inv.items)
    ensures UniqueIds(Recompute(inv).items)
  {
  }

  lemma ChangeItemsKeepsIds(items: seq<LineItem>, id: int, field: ItemField, text: string,
                            parse: string -> Option<real>)
    requires UniqueIds(items)
    ensures UniqueIds(ChangeItems(items, id, field, text, parse))
  {
  }

  // ---------------------------------------------------------------------------
  // Field updates

  /** `parent` of `const [parent, child] = name.split('.')`: the text before the first dot. */
  function BeforeDot(s: string): (r: string)
    ensures |r| <= |s| && r == s[..|r|] && '.' !in r
    ensures |r| < |s| ==> s[|r|] == '.'
  {
    if s == [] || s[0] == '.' then [] else [s[0]] + BeforeDot(s[1..])
  }

  /** `child` of `const [parent, child] = name.split('.')`: the text between the first dot and
      the next one (or the end). */
  function ChildName(name: string): string
    requires '.' in name
  {
    var p := BeforeDot(name);
    BeforeDot(name[|p| + 1..])
  }

  function SetClientField(c: Client, child: string, value: string): Client {
    if child == "name" then c.(name := value)
    else if child == "email" then c.(email := value)
    else if child == "address" then c.(address := value)
    else c
  }

  /** The top-level text inputs carry names without a dot. */
  lemma UndottedNames()
    ensures '.' !in "invoiceNumber" && '.' !in "date" && '.' !in "dueDate" && '.' !in "notes"
  {
  }

  /** The invoice change `handleChange` makes for input `name` (src/components/MainFeature.jsx,
      lines 77-91): a dotted name updates one field of the nested `client` record, any other
      name one top-level text field. Names no input carries leave the modelled fields alone. */
  function SetTextField(inv: Invoice, name: string, value: string): (r: Invoice)
    ensures r.items == inv.items && r.taxRate == inv.taxRate && r.discount == inv.discount
    ensures r.subtotal == inv.subtotal && r.taxAmount == inv.taxAmount && r.total == inv.total
    ensures name == "invoiceNumber" ==> r == inv.(invoiceNumber := value)
    ensures name == "date" ==> r == inv.(date := value)
    ensures name == "dueDate" ==> r == inv.(dueDate := value)
    ensures name == "notes" ==> r == inv.(notes := value)
    ensures '.' in name && BeforeDot(name) != "client" ==> r == inv
    ensures '.' !in name && name !in ["invoiceNumber", "date", "dueDate", "notes"] ==> r == inv
  {
    UndottedNames();
    if '.' in name then
      if BeforeDot(name) == "client" then inv.(client := SetClientField(inv.client, ChildName(name), value))
      else inv
    else if name == "invoiceNumber" then inv.(invoiceNumber := value)
    else if name == "date" then inv.(date := value)
    else if name == "dueDate" then inv.(dueDate := value)
    else if name == "notes" then inv.(notes := value)
    else inv
  }

  /** `client.<child>` updates only that child of the client and nothing else. */
  lemma SetTextFieldDotted(inv: Invoice, child: string, value: string)
    requires '.' !in child
    ensures SetTextField(inv, "client." + child, value) == inv.(client := SetClientField(inv.client, child, value))
  {
  }

  /** `handleChange` touches no input of the totals effect, so the totals stay consistent. */
  lemma SetTextFieldKeepsTotals(inv: Invoice, name: string, value: string)
    requires TotalsConsistent(inv)
    ensures TotalsConsistent(SetTextField(inv, name, value))
  {
  }

  /** `handleNumericChange`: `[name]: parseFloat(value) || 0` for the tax rate and discount inputs. */
  function SetNumberField(inv: Invoice, name: string, v: real): (r: Invoice)
    ensures r.items == inv.items && r.client == inv.client && r.notes == inv.notes
    ensures r.invoiceNumber == inv.invoiceNumber && r.date == inv.date && r.dueDate == inv.dueDate
    ensures r.taxRate == if name == "taxRate" then v else inv.taxRate
    ensures r.discount == if name == "discount" then v else inv.discount
    ensures r.subtotal == inv.subtotal && r.taxAmount == inv.taxAmount && r.total == inv.total
  {
    if name == "taxRate" then inv.(taxRate := v)
    else if name == "discount" then inv.(discount := v)
    else inv
  }

  // ---------------------------------------------------------------------------
  // Submission reset, invoice numbers and dates

  /** `INV-` followed by the four-digit, zero-padded `Math.floor(Math.random() * 10000)`. */
  function InvoiceNumber(n: nat): (r: string)
    ensures |r| >= 8 && r[..4] == "INV-"
    ensures AllDigits(r[4..]) && DigitsValue(r[4..]) == n
  {
    var digits := PadStart(NatToString(n), 4, '0');
    PadStartDigits(n, 4);
    assert ("INV-" + digits)[4..] == digits;
    "INV-" + digits
  }

  /** For every number the random draw can produce (0 to 9999) the invoice number is `INV-`
      and four digits that read back as the number. */
  lemma InvoiceNumberLayout(n: nat)
    requires n < 10000
    ensures |InvoiceNumber(n)| == 8 && InvoiceNumber(n)[..4] == "INV-"
    ensures AllDigits(InvoiceNumber(n)[4..]) && DigitsValue(InvoiceNumber(n)[4..]) == n
  {
    assert Pow10(4) == 10000;
    NatToStringLength(n, 4);
  }

  /** Different draws give different invoice numbers. */
  lemma InvoiceNumberInjective(m: nat, n: nat)
    requires InvoiceNumber(m) == InvoiceNumber(n)
    ensures m == n
  {
  }

  /** The state `handleSubmit` writes after a successful validation (src/components/MainFeature.jsx,
      lines 193-201): a new number, one blank item, zero totals and no notes; the client, the
      dates, the tax rate and the discount are kept. */
  function ResetForNext(inv: Invoice, number: string): (r: Invoice)
    ensures r.invoiceNumber == number && r.items == [BlankItem(1)] && r.notes == ""
    ensures r.subtotal == 0.0 && r.taxAmount == 0.0 && r.total == 0.0
    ensures r.client == inv.client && r.date == inv.date && r.dueDate == inv.dueDate
    ensures r.taxRate == inv.taxRate && r.discount == inv.discount
  {
    inv.(invoiceNumber := number, items := [BlankItem(1)], subtotal := 0.0, taxAmount := 0.0,
         total := 0.0, notes := "")
  }

  /** After the reset the totals effect runs again because the items changed: the blank item
      leaves subtotal and tax at 0, so the total becomes minus the kept discount. */
  lemma RecomputeOneBlank(inv: Invoice)
    requires inv.items == [BlankItem(1)]
    ensures Recompute(inv).items == [BlankItem(1)]
    ensures Recompute(inv).subtotal == 0.0 && Recompute(inv).taxAmount == 0.0
    ensures Recompute(inv).total == -inv.discount
  {
    BlankItemsRecomputed(inv);
    BlankSubtotal(inv);
    assert Percent(0.0, inv.taxRate) == 0.0;
  }

  /** What `handleSubmit` promises about the invoice that follows a successful submission,
      once the totals effect has run: one blank item, no notes, zero subtotal and tax, a
      total of minus the kept discount, and an `INV-` number of four digits. */
  lemma SubmitReset(inv: Invoice, number: string)
    ensures var r := Recompute(ResetForNext(inv, number));
      && r.items == [BlankItem(1)] && r.notes == "" && r.invoiceNumber == number
      && r.subtotal == 0.0 && r.taxAmount == 0.0 && r.total == -inv.discount
      && r.client == inv.client && r.date == inv.date && r.dueDate == inv.dueDate
      && r.taxRate == inv.taxRate && r.discount == inv.discount
  {
    RecomputeOneBlank(ResetForNext(inv, number));
  }

  lemma BlankItemsRecomputed(inv: Invoice)
    requires inv.items == [BlankItem(1)]
    ensures Recompute(inv).items == [BlankItem(1)]
  {
  }

  lemma BlankSubtotal(inv: Invoice)
    requires inv.items == [BlankItem(1)]
    ensures Recompute(inv).subtotal == 0.0
  {
    var blank := BlankItem(1);
    assert WithItemTotals(inv.items) == [blank];
    assert SumTotals([blank]) == 0.0 by {
      assert [blank][..0] == [];
    }
  }

  /** `formatDate` (src/components/MainFeature.jsx, lines 61-71): year, month and day joined
      by '-', the 1-based month and the day padded to two digits. */
  function FormatDate(d: CalendarDate): (r: string)
    ensures |r| >= |IntToString(d.year)| + 6
    ensures r[..|IntToString(d.year)|] == IntToString(d.year) && r[|IntToString(d.year)|] == '-'
  {
    IntToString(d.year) + "-" + PadTwo(NatToString(d.month + 1)) + "-" + PadTwo(NatToString(d.day))
  }

  lemma PadTwoSmall(n: nat)
    requires n < 100
    ensures |PadTwo(NatToString(n))| == 2
    ensures AllDigits(PadTwo(NatToString(n))) && DigitsValue(PadTwo(NatToString(n))) == n
  {
    assert Pow10(2) == 100;
    NatToStringLength(n, 2);
    NatToStringRoundTrip(n);
    if |NatToString(n)| < 2 {
      LeadingZeros("0", NatToString(n));
    }
  }

  /** The layout of a formatted date: the year's digits, then `-MM-DD` where MM reads back as
      the 1-based month and DD as the day; a four-digit year gives the ten characters of
      `YYYY-MM-DD`. */
  lemma FormatDateLayout(d: CalendarDate)
    requires ValidDate(d)
    ensures var s := FormatDate(d);
      && |s| == |IntToString(d.year)| + 6
      && s[..|s| - 6] == IntToString(d.year)
      && s[|s| - 6] == '-' && s[|s| - 3] == '-'
      && AllDigits(s[|s| - 5..|s| - 3]) && DigitsValue(s[|s| - 5..|s| - 3]) == d.month + 1
      && AllDigits(s[|s| - 2..]) && DigitsValue(s[|s| - 2..]) == d.day
      && (1000 <= d.year <= 9999 ==> |s| == 10)
  {
    var s := FormatDate(d);
    var y := IntToString(d.year);
    var mm := PadTwo(NatToString(d.month + 1));
    var dd := PadTwo(NatToString(d.day));
    PadTwoSmall(d.month + 1);
    PadTwoSmall(d.day);
    assert s == y + "-" + mm + "-" + dd;
    assert s[|s| - 5..|s| - 3] == mm;
    assert s[|s| - 2..] == dd;
    assert s[..|s| - 6] == y;
    if 1000 <= d.year <= 9999 {
      assert Pow10(4) == 10000;
      NatToStringLength(d.year, 4);
      assert |y| >= 4 by {
        NatToStringRoundTrip(d.year);
        DigitsBelow(NatToString(d.year));
      }
    }
  }

  /** Fewer than k digits denote a number below 10^k. */
  lemma {:induction false} DigitsBelow(s: string)
    requires AllDigits(s)
    ensures DigitsValue(s) < Pow10(|s|)
    decreases |s|
  {
    if s != [] {
      DigitsBelow(s[..|s| - 1]);
    }
  }

  /** Distinct valid dates format to distinct strings. */
  lemma FormatDateInjective(a: CalendarDate, b: CalendarDate)
    requires ValidDate(a) && ValidDate(b) && FormatDate(a) == FormatDate(b)
    ensures a == b
  {
    FormatDateLayout(a);
    FormatDateLayout(b);
    IntToStringInjective(a.year, b.year);
  }
}
