/** The state and the event handlers of the invoice editor component
    (src/components/MainFeature.jsx). The component's three pieces of state used by the
    logic, `invoice`, `errors` and `previewMode`, and the success flag become fields; each
    handler becomes a method that replaces them. The totals effect, which React runs after
    any handler that changed the items, the tax rate or the discount, is applied at the end
    of those handlers. */
module Editor {
  import opened Wrappers
  import opened Text
  import opened Invoices
  import opened Validation

  class InvoiceEditor {
    var invoice: Invoice
    var errors: ErrorMap
    var previewMode: bool
    var showSuccess: bool

    /** What every handler keeps: the derived totals agree with the items, the tax rate and
        the discount; there is at least one item; item ids are unique. */
    ghost predicate Valid()
      reads this
    {
      && TotalsConsistent(invoice)
      && |invoice.items| >= 1
      && UniqueIds(invoice.items)
    }

    /** The initial state (lines 11-35); `today` and `due` come from the host clock. */
    constructor (today: CalendarDate, due: CalendarDate)
      ensures Valid()
      ensures invoice == InitialInvoice(today, due)
      ensures errors == map[] && !previewMode && !showSuccess
    {
      invoice := InitialInvoice(today, due);
      errors := map[];
      previewMode := false;
      showSuccess := false;
      InitialInvoiceConsistent(today, due);
    }

    /** `handleChange` (lines 74-100): set one text field, then clear that input's error if
        it is shown. No input of the totals effect changes, so it does not run. */
    method HandleChange(name: string, value: string)
      requires Valid()
      modifies this
      ensures Valid()
      ensures invoice == SetTextField(old(invoice), name, value)
      ensures errors == ClearError(old(errors), name)
      ensures previewMode == old(previewMode) && showSuccess == old(showSuccess)
    {
      invoice := SetTextField(invoice, name, value);
      if Shown(errors, name) {
        errors := errors[name := None];
      }
    }

    /** `handleNumericChange` (lines 103-111) for the tax rate and the discount: the input
        that does not parse becomes 0; the totals are recomputed. */
    method HandleNumericChange(name: string, text: string, parse: string -> Option<real>)
      requires Valid()
      modifies this
      ensures Valid()
      ensures invoice == Recompute(SetNumberField(old(invoice), name, ParseOrZero(parse(text))))
      ensures errors == old(errors) && previewMode == old(previewMode) && showSuccess == old(showSuccess)
    {
      var v := ParseOrZero(parse(text));
      RecomputeKeepsIds(SetNumberField(invoice, name, v));
      RecomputeConsistent(SetNumberField(invoice, name, v));
      invoice := Recompute(SetNumberField(invoice, name, v));
    }

    /** `handleItemChange` (lines 114-128): change one column of the item with the id, then
        recompute the totals. */
    method HandleItemChange(id: int, field: ItemField, text: string, parse: string -> Option<real>)
      requires Valid()
      modifies this
      ensures Valid()
      ensures invoice == Recompute(old(invoice).(items := ChangeItems(old(invoice.items), id, field, text, parse)))
      ensures errors == old(errors) && previewMode == old(previewMode) && showSuccess == old(showSuccess)
    {
      var items := ChangeItems(invoice.items, id, field, text, parse);
      ChangeItemsKeepsIds(invoice.items, id, field, text, parse);
      RecomputeKeepsIds(invoice.(items := items));
      RecomputeConsistent(invoice.(items := items));
      invoice := Recompute(invoice.(items := items));
    }

    /** `addItem` (lines 131-141): append a blank item with a fresh id, then recompute. */
    method AddItem()
      requires Valid()
      modifies this
      ensures Valid()
      ensures invoice == Recompute(old(invoice).(items := WithNewItem(old(invoice.items))))
      ensures |invoice.items| == |old(invoice.items)| + 1
      ensures errors == old(errors) && previewMode == old(previewMode) && showSuccess == old(showSuccess)
    {
      var items := WithNewItem(invoice.items);
      AddItemKeepsIdsUnique(invoice.items);
      RecomputeKeepsIds(invoice.(items := items));
      RecomputeConsistent(invoice.(items := items));
      invoice := Recompute(invoice.(items := items));
    }

    /** `removeItem` (lines 144-153): ignored while one item is left; otherwise the items with
        the id are filtered out and the totals recomputed. */
    method RemoveItem(id: int)
      requires Valid()
      modifies this
      ensures Valid()
      ensures |old(invoice.items)| == 1 ==> invoice == old(invoice)
      ensures |old(invoice.items)| != 1 ==>
        invoice == Recompute(old(invoice).(items := WithItemRemoved(old(invoice.items), id)))
      ensures |invoice.items| >= 1
      ensures errors == old(errors) && previewMode == old(previewMode) && showSuccess == old(showSuccess)
    {
      if |invoice.items| == 1 {
        return;
      }
      var items := WithItemRemoved(invoice.items, id);
      RemoveItemKeepsOne(invoice.items, id);
      RecomputeKeepsIds(invoice.(items := items));
      RecomputeConsistent(invoice.(items := items));
      invoice := Recompute(invoice.(items := items));
    }

    /** `validateForm` (lines 156-175): collect every violation into a fresh error map, store
        it, and succeed exactly when it is empty, which is exactly when the invoice is
        complete. */
    method ValidateForm() returns (ok: bool)
      modifies this`errors
      ensures errors == Violations(invoice)
      ensures ok == (|errors| == 0)
      ensures ok == Complete(invoice)
    {
      var newErrors: ErrorMap := map[];
      if Blank(invoice.invoiceNumber) {
        newErrors := newErrors[InvoiceNumberKey := Some(InvoiceNumberRequired)];
      }
      if Blank(invoice.client.name) {
        newErrors := newErrors[ClientNameKey := Some(ClientNameRequired)];
      }
      var items := invoice.items;
      var index := 0;
      while index < |items|
        invariant 0 <= index <= |items|
        invariant newErrors == ErrorsUpTo(invoice, index)
      {
        if Blank(items[index].description) {
          newErrors := newErrors[ItemKey(index) := Some(DescriptionRequired)];
        }
        index := index + 1;
      }
      errors := newErrors;
      ok := |newErrors| == 0;
      ValidIffComplete(invoice);
    }

    /** `handleSubmit` (lines 178-203): validate; when that fails only the error map changes.
        When it succeeds, show the success message and reset the invoice for the next one:
        a new `INV-` number from the random draw `nextNumber`, one blank item, no notes; the
        totals effect then leaves subtotal and tax at 0 and the total at minus the kept
        discount. */
    method HandleSubmit(nextNumber: nat) returns (ok: bool)
      requires Valid()
      requires nextNumber < 10000
      modifies this
      ensures Valid()
      ensures ok == Complete(old(invoice))
      ensures errors == Violations(old(invoice))
      ensures previewMode == old(previewMode)
      ensures !ok ==> invoice == old(invoice) && showSuccess == old(showSuccess)
      ensures ok ==> showSuccess
      ensures ok ==> invoice == Recompute(ResetForNext(old(invoice), InvoiceNumber(nextNumber)))
      ensures ok ==> invoice.items == [BlankItem(1)] && invoice.notes == ""
      ensures ok ==> invoice.subtotal == 0.0 && invoice.taxAmount == 0.0 && invoice.total == -invoice.discount
      ensures ok ==> invoice.invoiceNumber[..4] == "INV-" && |invoice.invoiceNumber| == 8
      ensures ok ==> DigitsValue(invoice.invoiceNumber[4..]) == nextNumber
      ensures ok ==> && invoice.client == old(invoice.client) && invoice.date == old(invoice.date)
                     && invoice.dueDate == old(invoice.dueDate) && invoice.taxRate == old(invoice.taxRate)
                     && invoice.discount == old(invoice.discount)
    {
      ok := ValidateForm();
      if ok {
        showSuccess := true;
        var reset := ResetForNext(invoice, InvoiceNumber(nextNumber));
        SubmitReset(invoice, InvoiceNumber(nextNumber));
        InvoiceNumberLayout(nextNumber);
        RecomputeConsistent(reset);
        invoice := Recompute(reset);
      }
    }

    /** `togglePreview` (lines 206-212): entering the preview is refused when validation
        fails (the errors are then shown); leaving it is unconditional and does not
        validate. */
    method TogglePreview()
      requires Valid()
      modifies this
      ensures Valid()
      ensures invoice == old(invoice) && showSuccess == old(showSuccess)
      ensures old(previewMode) ==> !previewMode && errors == old(errors)
      ensures !old(previewMode) ==> errors == Violations(invoice) && previewMode == Complete(invoice)
    {
      if !previewMode {
        var ok := ValidateForm();
        if !ok {
          return;
        }
      }
      previewMode := !previewMode;
    }
  }
}
