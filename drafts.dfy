/** The saved-drafts list of src/components/SavedDrafts.jsx: the drafts read from the
    browser's storage, the id whose deletion awaits confirmation, and the handlers that
    change them. Storage is abstract: what a read returned is a parameter, what a write
    stored is a result. */
module Drafts {
  import opened Wrappers
  import opened Invoices
  import opened Lists

  /** A saved draft: the invoice it holds, its id and when it was last edited. */
  datatype Draft = Draft(id: string, invoice: Invoice, lastEdited: string)

  /** What `localStorage.getItem('invoiceDrafts')` followed by `JSON.parse` gave: no value
      (`null`, or the empty string, which is falsy), a value that does not parse, or a
      parsed list of drafts. */
  datatype StoredDrafts = Missing | Malformed | Parsed(drafts: seq<Draft>)

  /** The key `deleteDraft` filters drafts by. */
  function DraftId(d: Draft): string {
    d.id
  }

  /** The component's state. `hasOnLoadDraft` and `hasOnDeleteDraft` say whether the
      parent passed the `onLoadDraft` and `onDeleteDraft` callbacks. */
  class SavedDrafts {
    var drafts: seq<Draft>
    var showConfirmDelete: Option<string>
    const hasOnLoadDraft: bool
    const hasOnDeleteDraft: bool

    /** The initial state (lines 6-8): no drafts, nothing awaiting confirmation. */
    constructor (hasOnLoadDraft: bool, hasOnDeleteDraft: bool)
      ensures drafts == [] && showConfirmDelete == None
      ensures this.hasOnLoadDraft == hasOnLoadDraft && this.hasOnDeleteDraft == hasOnDeleteDraft
    {
      drafts := [];
      showConfirmDelete := None;
      this.hasOnLoadDraft := hasOnLoadDraft;
      this.hasOnDeleteDraft := hasOnDeleteDraft;
    }

    /** `loadDrafts` (lines 12-21), run on mount and on every `storage` event: the list is
        replaced only by a stored value that parses; otherwise the previous list stays. */
    method LoadDrafts(stored: StoredDrafts)
      modifies this`drafts
      ensures stored.Parsed? ==> drafts == stored.drafts
      ensures !stored.Parsed? ==> drafts == old(drafts)
    {
      if stored.Parsed? {
        drafts := stored.drafts;
      }
    }

    /** `confirmDeleteDraft` (lines 34-36): mark the id as awaiting confirmation. */
    method ConfirmDeleteDraft(id: string)
      modifies this`showConfirmDelete
      ensures showConfirmDelete == Some(id)
    {
      showConfirmDelete := Some(id);
    }

    /** `cancelDelete` (lines 58-60): clear the mark; the list is untouched. */
    method CancelDelete()
      modifies this`showConfirmDelete
      ensures showConfirmDelete == None
    {
      showConfirmDelete := None;
    }

    /** `deleteDraft` (lines 38-56). `writeOk` says whether `localStorage.setItem` succeeded.
        When it did, the filtered list is what was written and the new state, the
        `onDeleteDraft` callback (if any) receives the id, and a `storage` event is sent.
        When it threw, nothing else happens. Either way the confirmation mark is cleared. */
    method DeleteDraft(id: string, writeOk: bool)
        returns (written: Option<seq<Draft>>, notified: Option<string>, storageEvent: bool)
      modifies this
      ensures written == if writeOk then Some(Remove(old(drafts), DraftId, id)) else None
      ensures drafts == if writeOk then Remove(old(drafts), DraftId, id) else old(drafts)
      ensures notified == if writeOk && hasOnDeleteDraft then Some(id) else None
      ensures storageEvent == writeOk
      ensures showConfirmDelete == None
    {
      var updatedDrafts := Remove(drafts, DraftId, id);
      written, notified, storageEvent := None, None, false;
      if writeOk {
        written := Some(updatedDrafts);
        drafts := updatedDrafts;
        if hasOnDeleteDraft {
          notified := Some(id);
        }
        storageEvent := true;
      }
      showConfirmDelete := None;
    }

    /** `handleLoadDraft` (lines 63-67): the draft goes, unchanged, to `onLoadDraft` when
        the parent gave one; nothing in the component changes. */
    method HandleLoadDraft(draft: Draft) returns (passed: Option<Draft>)
      ensures passed.Some? <==> hasOnLoadDraft
      ensures passed.Some? ==> passed.value == draft
    {
      passed := None;
      if hasOnLoadDraft {
        passed := Some(draft);
      }
    }
  }
}
