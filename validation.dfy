/** `validateForm` of src/components/MainFeature.jsx (lines 156-175) as a specification: the
    error map it builds, one entry per violated rule, keyed by the name of the offending
    input. */
module Validation {
  import opened Wrappers
  import opened Text
  import opened Invoices

  /** The editor's `errors` state: input name to message; `None` is the `null` that
      `handleChange` writes when it clears an entry. */
  type ErrorMap = map<string, Option<string>>

  const InvoiceNumberRequired: string := "Invoice number is required"
  const ClientNameRequired: string := "Client name is required"
  const DescriptionRequired: string := "Description is required"

  const InvoiceNumberKey: string := "invoiceNumber"
  const ClientNameKey: string := "client.name"

  /** `items[${index}].description` */
  function ItemKey(i: nat): string {
    "items[" + NatToString(i) + "].description"
  }

  /** `if (errors[name])`: an entry is shown when it holds a non-empty message. */
  predicate Shown(errors: ErrorMap, name: string) {
    name in errors && errors[name].Some? && errors[name].value != ""
  }

  /** The entries for the invoice number and the client name, checked first. */
  function HeaderErrors(inv: Invoice): ErrorMap {
    var m := if Blank(inv.invoiceNumber) then map[InvoiceNumberKey := Some(InvoiceNumberRequired)] else map[];
    if Blank(inv.client.name) then m[ClientNameKey := Some(ClientNameRequired)] else m
  }

  /** `newErrors` after the `forEach` has visited the first `n` items. */
  function ErrorsUpTo(inv: Invoice, n: nat): ErrorMap
    requires n <= |inv.items|
  {
    if n == 0 then HeaderErrors(inv)
    else
      var m := ErrorsUpTo(inv, n - 1);
      if Blank(inv.items[n - 1].description) then m[ItemKey(n - 1) := Some(DescriptionRequired)] else m
  }

  /** The complete error map `validateForm` stores. */
  function Violations(inv: Invoice): (r: ErrorMap)
    ensures forall k :: k in r ==> Shown(r, k)
  {
    ErrorsUpToMessages(inv, |inv.items|);
    ErrorsUpTo(inv, |inv.items|)
  }

  /** The rule a submission must meet, stated independently of the error map: an invoice
      number, a client name and a description on every item, none of them blank. */
  predicate Complete(inv: Invoice) {
    && !Blank(inv.invoiceNumber)
    && !Blank(inv.client.name)
    && forall i :: 0 <= i < |inv.items| ==> !Blank(inv.items[i].description)
  }

  /** How many of the first `n` items have a blank description. */
  function BlankDescriptions(items: seq<LineItem>, n: nat): nat
    requires n <= |items|
  {
    if n == 0 then 0 else BlankDescriptions(items, n - 1) + (if Blank(items[n - 1].description) then 1 else 0)
  }

  lemma {:induction false} ItemKeyInjective(i: nat, j: nat)
    requires ItemKey(i) == ItemKey(j)
    ensures i == j
  {
    var a, b := NatToString(i), NatToString(j);
    assert |a| == |b|;
    assert ItemKey(i)[6..6 + |a|] == a;
    assert ItemKey(j)[6..6 + |b|] == b;
    NatToStringInjective(i, j);
  }

  lemma ItemKeyNotHeader(i: nat)
    ensures ItemKey(i) != InvoiceNumberKey && ItemKey(i) != ClientNameKey
  {
  }

  /** The header keys after `n` items: each is present exactly when its field is blank. */
  lemma {:induction false} ErrorsUpToHeader(inv: Invoice, n: nat)
    requires n <= |inv.items|
    ensures InvoiceNumberKey in ErrorsUpTo(inv, n) <==> Blank(inv.invoiceNumber)
    ensures ClientNameKey in ErrorsUpTo(inv, n) <==> Blank(inv.client.name)
    decreases n
  {
    if n > 0 {
      ErrorsUpToHeader(inv, n - 1);
      ItemKeyNotHeader(n - 1);
    }
  }

  /** The item keys after `n` items: the key of item i is present exactly when the loop has
      visited it and its description is blank. */
  lemma {:induction false} ErrorsUpToItemKeys(inv: Invoice, n: nat)
    requires n <= |inv.items|
    ensures forall i :: 0 <= i < |inv.items| ==>
      (ItemKey(i) in ErrorsUpTo(inv, n) <==> i < n && Blank(inv.items[i].description))
    decreases n
  {
    if n == 0 {
      forall i | 0 <= i < |inv.items| ensures ItemKey(i) !in HeaderErrors(inv) {
        ItemKeyNotHeader(i);
      }
    } else {
      ErrorsUpToItemKeys(inv, n - 1);
      forall i | 0 <= i < |inv.items| && i != n - 1 ensures ItemKey(i) != ItemKey(n - 1) {
        if ItemKey(i) == ItemKey(n - 1) {
          ItemKeyInjective(i, n - 1);
        }
      }
    }
  }

  /** No other key: every key is a header key or the key of a visited item. */
  lemma {:induction false} ErrorsUpToDomain(inv: Invoice, n: nat)
    requires n <= |inv.items|
    ensures forall k :: k in ErrorsUpTo(inv, n) ==>
      k == InvoiceNumberKey || k == ClientNameKey || exists i :: 0 <= i < n && k == ItemKey(i)
    decreases n
  {
    if n > 0 {
      ErrorsUpToDomain(inv, n - 1);
    }
  }

  /** The keys after `n` items: the header keys for the blank header fields, and the key of
      every visited item whose description is blank. */
  lemma ErrorsUpToKeys(inv: Invoice, n: nat)
    requires n <= |inv.items|
    ensures InvoiceNumberKey in ErrorsUpTo(inv, n) <==> Blank(inv.invoiceNumber)
    ensures ClientNameKey in ErrorsUpTo(inv, n) <==> Blank(inv.client.name)
    ensures forall i :: 0 <= i < |inv.items| ==>
      (ItemKey(i) in ErrorsUpTo(inv, n) <==> i < n && Blank(inv.items[i].description))
    ensures forall k :: k in ErrorsUpTo(inv, n) ==>
      k == InvoiceNumberKey || k == ClientNameKey || exists i :: 0 <= i < n && k == ItemKey(i)
  {
    ErrorsUpToHeader(inv, n);
    ErrorsUpToItemKeys(inv, n);
    ErrorsUpToDomain(inv, n);
  }

  /** Every entry carries its rule's message, so every entry is shown. */
  lemma {:induction false} ErrorsUpToMessages(inv: Invoice, n: nat)
    requires n <= |inv.items|
    ensures forall k :: k in ErrorsUpTo(inv, n) ==> Shown(ErrorsUpTo(inv, n), k)
    decreases n
  {
    if n > 0 {
      ErrorsUpToMessages(inv, n - 1);
    }
  }

  /** One entry per violation: the map's size is the number of violated rules. */
  lemma {:induction false} ErrorsUpToSize(inv: Invoice, n: nat)
    requires n <= |inv.items|
    ensures |ErrorsUpTo(inv, n)| ==
      (if Blank(inv.invoiceNumber) then 1 else 0) + (if Blank(inv.client.name) then 1 else 0)
      + BlankDescriptions(inv.items, n)
    decreases n
  {
    if n == 0 {
      assert InvoiceNumberKey != ClientNameKey;
    } else {
      ErrorsUpToSize(inv, n - 1);
      ErrorsUpToItemKeys(inv, n - 1);
    }
  }

  /** `validateForm` reports, in one pass, exactly the violated rules: the map has the
      invoice-number key iff the number is blank, the client-name key iff the name is blank,
      the key of item i iff its description is blank, no other key, and one entry per
      violation. */
  lemma ViolationsExact(inv: Invoice)
    ensures InvoiceNumberKey in Violations(inv) <==> Blank(inv.invoiceNumber)
    ensures ClientNameKey in Violations(inv) <==> Blank(inv.client.name)
    ensures forall i :: 0 <= i < |inv.items| ==>
      (ItemKey(i) in Violations(inv) <==> Blank(inv.items[i].description))
    ensures forall k :: k in Violations(inv) ==>
      k == InvoiceNumberKey || k == ClientNameKey || exists i :: 0 <= i < |inv.items| && k == ItemKey(i)
    ensures forall k :: k in Violations(inv) ==> Shown(Violations(inv), k)
    ensures |Violations(inv)| ==
      (if Blank(inv.invoiceNumber) then 1 else 0) + (if Blank(inv.client.name) then 1 else 0)
      + BlankDescriptions(inv.items, |inv.items|)
  {
    ErrorsUpToKeys(inv, |inv.items|);
    ErrorsUpToMessages(inv, |inv.items|);
    ErrorsUpToSize(inv, |inv.items|);
  }

  /** Validation succeeds (`Object.keys(newErrors).length === 0`) exactly when the invoice
      is complete. */
  lemma ValidIffComplete(inv: Invoice)
    ensures |Violations(inv)| == 0 <==> Complete(inv)
  {
    ErrorsUpToKeys(inv, |inv.items|);
    if |Violations(inv)| == 0 {
      forall i | 0 <= i < |inv.items| ensures !Blank(inv.items[i].description) {
        assert ItemKey(i) !in Violations(inv);
      }
    } else {
      var k :| k in Violations(inv);
    }
  }

  /** The error half of `handleChange` (src/components/MainFeature.jsx, lines 94-99): a shown
      entry for the edited input is set to `null`; an entry that is not shown, and every other
      entry, stays as it was. */
  function ClearError(errors: ErrorMap, name: string): (r: ErrorMap)
    ensures !Shown(r, name)
    ensures r.Keys == errors.Keys
    ensures forall k :: k in errors && k != name ==> r[k] == errors[k]
    ensures Shown(errors, name) ==> r[name] == None
    ensures !Shown(errors, name) ==> r == errors
  {
    if Shown(errors, name) then errors[name := None] else errors
  }
}
