# Invoice editor core

A model of the logic inside two React components of an invoice-writing web app.

- `MainFeature.jsx` is the invoice editor. It holds one invoice: number, dates, client, line items, tax rate, discount and notes. The derived totals are line totals, subtotal, tax amount and total. The editor also holds a map of validation errors, a preview flag and a success flag. Its handlers:
  - edit text and numeric fields and single line items;
  - add and remove line items;
  - validate the form;
  - submit the invoice, which starts the next invoice;
  - toggle the preview.

  An effect recomputes the totals whenever the items, the tax rate or the discount change.
- `SavedDrafts.jsx` lists the drafts kept in the browser's storage. It deletes one after a confirmation step, reloads the list when storage changes, and hands a chosen draft to its parent.

The modules:

- `Invoices` (`invoice.dfy`) holds the invoice record and the pure updates the handlers apply:
  - the totals recomputation and the invariant it establishes;
  - the item-list operations (add with a fresh id, remove by id, edit one column of one item);
  - text and numeric field updates;
  - the reset after a submission, with its `INV-` number;
  - `formatDate`.
- `Validation` (`validation.dfy`) gives the error map `validateForm` builds, as a function of the invoice. It is proved to hold exactly one entry per violated rule.
- `Editor` (`editor.dfy`) holds the class `InvoiceEditor`. Its fields are the component's state, and each handler is a method. `ValidateForm` keeps the source's loop. Every handler preserves `Valid()`:
  - the totals agree with the items, the tax rate and the discount;
  - at least one item is left;
  - item ids are unique.

  The totals effect is applied at the end of every handler that changes one of its inputs. That is every handler except `HandleChange`, `ValidateForm` and `TogglePreview`.
- `Lists` (`lists.dfy`) holds `Remove`, the filter by key that both `removeItem` (by item id) and `deleteDraft` (by draft id) perform, with its lemmas.
- `Drafts` (`drafts.dfy`) holds the draft record and the class `SavedDrafts` with the handlers of the drafts list.
- `Text` (`text.dfy`) models the string behaviour the code relies on:
  - JavaScript's `trim` and its whitespace set;
  - decimal rendering of integers;
  - `padStart` and the two-digit padding of `formatDate`.
- `Wrappers` (`wrappers.dfy`) is `Option`.

Money is an exact `real`. The code keeps JavaScript numbers and rounds only for display.

Three points where the code departs from what one might expect:

- After a successful submission the handler writes a total of 0. The item list has changed, though, so the totals effect runs again: the subtotal and the tax stay 0 and the total becomes minus the kept discount. `SubmitReset` and `HandleSubmit` state that final value.
- The editor has no draft saving: its "Save Draft" button has no handler (src/components/MainFeature.jsx:641-643), and submission touches no storage.
- A failed submission is not a no-op. `validateForm` has already replaced the error map. Only the invoice and the success flag stay unchanged.

## Model

| member | source | states |
|---|---|---|
| Invoices.RecomputeConsistent | src/components/MainFeature.jsx:41-58 | After the effect, every line total is quantity × price and the subtotal is the sum of quantity × price over the items. The tax amount is subtotal × rate / 100, and the total is subtotal + tax − discount. |
| Invoices.Recompute | src/components/MainFeature.jsx:41-58 | The effect writes only the derived fields. The number, dates, client, tax rate, discount and notes are kept. The number of items is kept, and so is each item's id, description, quantity and price at its position, so the order is kept too. |
| Invoices.SumOfItemTotals | src/components/MainFeature.jsx:42-47 | Summing the recomputed line totals from the left, as `reduce` does, gives the sum of quantity × price. |
| Invoices.RecomputeFixpoint | src/components/MainFeature.jsx:41-58 | An invoice whose totals are already consistent is left unchanged by the effect. |
| Invoices.RecomputeIdempotent | src/components/MainFeature.jsx:41-58 | Running the effect twice gives the same invoice as running it once. |
| Invoices.WorkedExample | src/components/MainFeature.jsx:41-58 | Items 2 × 10 and 1 × 5, a 10 % tax rate and a discount of 3 give subtotal 25, tax 2.5 and total 24.5. |
| Invoices.InitialInvoiceConsistent | src/components/MainFeature.jsx:11-29 | The initial invoice already satisfies the totals invariant, so the effect's first run changes nothing. |
| Invoices.MaxId | src/components/MainFeature.jsx:132 | `Math.max(0, ...ids)` is at least 0 and at least every id. It is 0 or one of the ids. |
| Invoices.WithNewItem | src/components/MainFeature.jsx:131-141 | Adding appends exactly one item, `{id: max(0, ids) + 1, '', 1, 0, 0}`. The earlier items are unchanged, and the new id differs from every existing id and is at least 1. |
| Invoices.AddItemKeepsIdsUnique | src/components/MainFeature.jsx:131-141 | Adding an item keeps the ids unique. |
| Invoices.WithItemRemoved | src/components/MainFeature.jsx:144-153 | With one item left the list is returned as it was. Otherwise the result holds exactly the items whose id differs from the removed one. |
| Invoices.RemoveItemKeepsOne | src/components/MainFeature.jsx:144-153 | With unique ids, removal never empties the list, drops at most one item and keeps the ids unique. |
| Invoices.ParseOrZero | src/components/MainFeature.jsx:105 | A NaN from `parseFloat` becomes 0, and a parsed number is kept. |
| Invoices.ChangeItem | src/components/MainFeature.jsx:117-125 | Editing one column of an item changes only that column. A price or quantity takes the parsed value or 0, a description takes the text. The id and the total are kept. |
| Invoices.ChangeItems | src/components/MainFeature.jsx:114-128 | Only the items whose id matches are edited. Every other item, and the length of the list, are unchanged. |
| Invoices.ChangeItemsKeepsIds | src/components/MainFeature.jsx:114-128 | Editing an item keeps the ids unique. |
| Invoices.RecomputeKeepsIds | src/components/MainFeature.jsx:41-58 | The effect keeps the ids unique. |
| Invoices.BeforeDot | src/components/MainFeature.jsx:78 | The `parent` part of `name.split('.')` is the prefix of the name before its first dot. It contains no dot. |
| Invoices.SetTextField | src/components/MainFeature.jsx:77-91 | `invoiceNumber`, `date`, `dueDate` and `notes` set exactly that field and leave the rest of the invoice as it was. A dotted name whose parent is not `client`, and an undotted name the form does not carry, leave the invoice unchanged. Every name leaves the items, the tax rate, the discount and the totals unchanged. |
| Invoices.SetTextFieldDotted | src/components/MainFeature.jsx:77-85 | `client.<child>` updates that child of the nested client record and nothing else. |
| Invoices.SetTextFieldKeepsTotals | src/components/MainFeature.jsx:74-100 | Setting a text field keeps the totals consistent, so the effect has nothing to do. |
| Invoices.SetNumberField | src/components/MainFeature.jsx:107-110 | `taxRate` and `discount` set exactly that field to the given value. The items, the client, the number, the dates, the notes and the totals are kept. |
| Invoices.InvoiceNumber | src/components/MainFeature.jsx:190 | The number starts with `INV-` and is at least eight characters long. After the prefix come only digits, and they read back as the draw. |
| Invoices.InvoiceNumberLayout | src/components/MainFeature.jsx:190 | For every draw from 0 to 9999, the next number is `INV-` followed by four digits that read back as the draw. |
| Invoices.InvoiceNumberInjective | src/components/MainFeature.jsx:190 | Different draws give different invoice numbers. |
| Invoices.RecomputeOneBlank | src/components/MainFeature.jsx:196 | Running the effect on a single blank item keeps that item, leaves subtotal and tax at 0, and gives a total of minus the discount. |
| Invoices.ResetForNext | src/components/MainFeature.jsx:193-201 | The state written on success has the new number, the single blank item `{id: 1, '', 1, 0, 0}`, zero subtotal, tax and total, and empty notes. The client, the dates, the tax rate and the discount are those of the submitted invoice. |
| Invoices.SubmitReset | src/components/MainFeature.jsx:189-201 | After the reset and the effect, the invoice has one blank item and empty notes. Subtotal and tax are 0 and the total is minus the kept discount. The number is the new one. Client, dates, tax rate and discount are those of the submitted invoice. |
| Invoices.FormatDate | src/components/MainFeature.jsx:61-71 | The formatted date starts with the year's decimal rendering followed by '-', and at least five more characters follow: the month, '-' and the day. |
| Invoices.FormatDateLayout | src/components/MainFeature.jsx:61-71 | `formatDate` gives the year, '-', the 1-based month as two digits, '-', and the day as two digits. A four-digit year gives ten characters. |
| Invoices.FormatDateInjective | src/components/MainFeature.jsx:61-71 | Distinct valid dates format to distinct strings. |
| Text.Trim | src/components/MainFeature.jsx:159 | `trim` never lengthens a string, and a non-empty result starts and ends with a character that is not whitespace. |
| Text.TrimIsSlice | src/components/MainFeature.jsx:159 | `trim` removes only leading and trailing whitespace. What remains starts and ends with a character that is not whitespace. |
| Text.BlankIff | src/components/MainFeature.jsx:159-171 | `!s.trim()` holds exactly when every character of `s` is whitespace. |
| Text.NatToString | src/components/MainFeature.jsx:63-64 | `'' + n` is a non-empty string of digits with no leading zero. |
| Text.NatToStringRoundTrip | src/components/MainFeature.jsx:63-64 | Reading back the digits of `'' + n` gives n. |
| Text.NatToStringInjective | src/components/MainFeature.jsx:63-64 | Different numbers render differently. |
| Text.IntToStringInjective | src/components/MainFeature.jsx:65-70 | Different years, including negative ones, render differently. |
| Text.PadStart | src/components/MainFeature.jsx:190 | `padStart(width, pad)` gives a string of length max(width, \|s\|) that ends with `s` and is pad characters before it. |
| Text.PadStartDigits | src/components/MainFeature.jsx:190 | Padding a number's digits with '0' gives digits that read back as the same number. |
| Validation.ItemKeyInjective | src/components/MainFeature.jsx:169 | Different item indices give different error keys. |
| Validation.ErrorsUpToKeys | src/components/MainFeature.jsx:156-171 | After the loop has visited n items, the map has each header key iff that field is blank. It has the key of item i iff i < n and that description is blank, and no other key. |
| Validation.ErrorsUpToSize | src/components/MainFeature.jsx:156-171 | The map has one entry per violation found so far. |
| Validation.Violations | src/components/MainFeature.jsx:156-171 | Every entry of the map `validateForm` builds holds a non-empty message, so each one is shown. |
| Validation.ViolationsExact | src/components/MainFeature.jsx:156-175 | The stored error map has `invoiceNumber` iff the number is blank, `client.name` iff the client name is blank, and `items[i].description` iff item i's description is blank. It has no other key, every entry is a shown message, and its size is the number of violations. |
| Validation.ValidIffComplete | src/components/MainFeature.jsx:156-175 | Validation succeeds (no keys) iff the number, the client name and every item description are all non-blank after trimming. |
| Validation.ClearError | src/components/MainFeature.jsx:93-99 | A shown error for the edited input becomes `null`. An error that is not shown, and every other entry, stay as they were, and the set of keys is unchanged. |
| Editor.InvoiceEditor.constructor | src/components/MainFeature.jsx:11-38 | The initial state is the blank invoice with consistent totals, no errors, no preview and no success message. |
| Editor.InvoiceEditor.HandleChange | src/components/MainFeature.jsx:74-100 | Sets one text field and clears that input's error if it is shown. The totals invariant is kept without recomputation. |
| Editor.InvoiceEditor.HandleNumericChange | src/components/MainFeature.jsx:103-111 | Sets the tax rate or the discount to the parsed value or 0, then recomputes the totals. The errors and flags are unchanged. |
| Editor.InvoiceEditor.HandleItemChange | src/components/MainFeature.jsx:114-128 | Edits one column of the items with the id, then recomputes. The invariant is kept. |
| Editor.InvoiceEditor.AddItem | src/components/MainFeature.jsx:131-141 | Appends the blank item with a fresh id and recomputes. The list grows by one and the invariant is kept. |
| Editor.InvoiceEditor.RemoveItem | src/components/MainFeature.jsx:144-153 | Changes nothing on a one-item list. Otherwise it filters out the id and recomputes. At least one item remains. |
| Editor.InvoiceEditor.ValidateForm | src/components/MainFeature.jsx:156-175 | The loop stores exactly the error map of the violations. It returns true iff that map is empty, which is iff the invoice is complete. |
| Editor.InvoiceEditor.HandleSubmit | src/components/MainFeature.jsx:178-203 | On failure, the invoice and the success flag are unchanged and the errors are the violations. On success, the success flag is set and the invoice is the recomputed reset: a new `INV-` number of four digits, one blank item, zero subtotal and tax, and a total of minus the kept discount. |
| Editor.InvoiceEditor.TogglePreview | src/components/MainFeature.jsx:206-212 | Entering the preview happens iff validation succeeds, and the errors are then the violations. Leaving the preview is unconditional and keeps the errors. |
| Lists.Remove | src/components/SavedDrafts.jsx:40 | The filtered list is no longer than the original, and no remaining element carries the removed key. |
| Lists.RemoveMembers | src/components/MainFeature.jsx:151 | The filter keeps exactly the elements whose key differs from the argument. |
| Lists.RemoveAppend | src/components/SavedDrafts.jsx:40 | The filter keeps the original order: filtering a concatenation is concatenating the filtered parts. |
| Lists.RemoveAbsent | src/components/SavedDrafts.jsx:40 | Removing a key no element carries leaves the list unchanged. |
| Lists.RemoveIdempotent | src/components/SavedDrafts.jsx:40 | Removing the same key twice equals removing it once. |
| Lists.RemoveLength | src/components/MainFeature.jsx:151 | The length after removal is the original length minus the number of elements with the key. |
| Lists.RemoveCommutes | src/components/SavedDrafts.jsx:40 | Removing two keys in either order gives the same list. |
| Lists.RemoveKeepsDistinct | src/components/MainFeature.jsx:151 | When no key occurs twice, it still does not after a removal, so item ids stay unique. |
| Lists.CountDistinct | src/components/MainFeature.jsx:151 | When no key occurs twice, at most one element carries any given key, so a removal drops at most one element. |
| Drafts.SavedDrafts.constructor | src/components/SavedDrafts.jsx:6-8 | The list starts empty with no deletion pending. |
| Drafts.SavedDrafts.LoadDrafts | src/components/SavedDrafts.jsx:12-21 | The list is replaced only by a stored value that exists and parses. Otherwise the previous list is kept. |
| Drafts.SavedDrafts.ConfirmDeleteDraft | src/components/SavedDrafts.jsx:34-36 | Marks the id as awaiting confirmation. The list is unchanged. |
| Drafts.SavedDrafts.CancelDelete | src/components/SavedDrafts.jsx:58-60 | Clears the pending mark. The list is unchanged. |
| Drafts.SavedDrafts.DeleteDraft | src/components/SavedDrafts.jsx:38-56 | When the storage write succeeds, the filtered list is written and becomes the state, the parent callback (if given) gets the id, and a storage event is sent. When the write throws, the list is unchanged and nothing is sent. The pending mark is cleared either way. |
| Drafts.SavedDrafts.HandleLoadDraft | src/components/SavedDrafts.jsx:63-67 | The chosen draft is passed on unchanged exactly when a callback is given. |

## Left out

- Rendering is not modelled: the JSX markup, the animations, the preview component, the empty-list early return and which row shows the confirm buttons. It is presentation.
- The timer that hides the success message after three seconds is not modelled. Timers are outside the model.
- `console.log` and `console.error` are not modelled.
- IEEE-754 floating point is not modelled. Money, quantities and rates are exact reals, so rounding and overflow are not captured.
- `parseFloat` itself is a parameter `parse: string -> Option<real>`, with `None` standing for NaN. `|| 0` is modelled exactly.
- The clock is a parameter: `new Date()` and the date thirty days later are passed to the constructor as calendar dates.
- `Math.random()` is a parameter: the drawn integer is passed to `HandleSubmit`.
- `localStorage`, `JSON.parse` and `JSON.stringify` are abstract. A read is the parameter `StoredDrafts` (missing, malformed or a parsed list). A stored value that parses to something other than a list of drafts is not modelled.
- A write is modelled by `DeleteDraft`'s `writeOk` parameter and its `written` result.
- The `storage` event is modelled only as a flag. Its listener re-reads storage, which `LoadDrafts` covers.
- Exceptions thrown by the parent's `onDeleteDraft` callback are not modelled.
- Draft ids are strings. JSON values of other types, compared with `!==`, are not modelled.
- React's batching of state updates is not modelled: handlers run as sequential updates. In the source, `removeItem` reads the length of the rendered `invoice` but filters the pending `prev`; the model uses one value for both.
- The totals effect re-runs without end in the program. Its own write puts a new `items` array (built by `map`, MainFeature.jsx:42) into the state, and `invoice.items` is one of its dependencies (line 58), so React runs it again after every render. The model runs it once per change, which gives the same state because a second run writes the same invoice (`RecomputeIdempotent`).
- Effect scheduling is simplified: the totals effect runs right after each handler that changes its inputs. `HandleNumericChange` recomputes even when the value did not change, which gives the same invoice, by `RecomputeFixpoint`.
- Editor.InvoiceEditor.HandleChange: only the input names the form carries change a field, and other names leave the invoice unchanged. No input carries such a name. In JavaScript a name that is not a key of the invoice would add an unused property, and a name that is a key (`items`, `client`, `subtotal`, `taxRate`, `taxAmount`, `discount`, `total`, or a dotted name under `items`) would overwrite or reshape that field.
- Editor.InvoiceEditor.HandleNumericChange: only `taxRate` and `discount` are modelled, and other names leave the invoice unchanged. No input carries such a name. In JavaScript a name that is not a key of the invoice would add an unused property, and a name that is a key (`items`, `client`, `subtotal`, `taxAmount`, `total`) would overwrite that field.
- Editor.InvoiceEditor.HandleSubmit: `e.preventDefault()` and the `console.log` of the submitted invoice are not modelled.
- Draft saving from the editor is not modelled, because the code has none.
- The display-only `formatDate` of the drafts list (`date-fns`), `toFixed(2)` and the fallback texts are not modelled.
