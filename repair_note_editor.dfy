/**
 * The technician's repair-note panel on a receipt's page. Notes open up once
 * work has started; only an administrator may change them. The backend
 * update is a parameter that reports whether it failed.
 */
module RepairNotes {
  import opened Optional
  import opened ReceiptTypes

  /** `canViewNote`: the status (a plain string here) is in progress or later. */
  predicate CanViewNote(status: string)
    ensures CanViewNote(status) <==> StatusFromName(status) in {Some(InProgress), Some(Completed), Some(Delivered)}
  {
    status == "completed" || status == "delivered" || status == "in_progress"
  }

  /** `canEditNote`: an administrator, on a receipt whose notes are viewable. */
  predicate CanEditNote(isAdmin: bool, status: string)
    ensures CanEditNote(isAdmin, status) ==> CanViewNote(status)
    ensures !isAdmin ==> !CanEditNote(isAdmin, status)
  {
    isAdmin && CanViewNote(status)
  }

  /** Of the five statuses, received and cancelled keep the notes locked. */
  lemma ViewableStatuses(s: Status)
    ensures CanViewNote(StatusName(s)) <==> s == InProgress || s == Completed || s == Delivered
  {
  }

  /** A text that is not a status name never opens the notes. */
  lemma OnlyStatusNamesOpen(status: string)
    requires StatusFromName(status).None?
    ensures !CanViewNote(status) && !CanEditNote(true, status)
  {
  }

  /** What the panel shows. */
  datatype Panel =
    | Locked                                  // the "once repair work begins" notice
    | ReadOnly(text: string)                  // a viewer sees the note
    | Editor(text: string, saving: bool)      // an administrator edits it

  /** The component's output: nothing without a signed-in user. */
  function Render(signedIn: bool, isAdmin: bool, status: string, note: string, isSaving: bool): (p: Option<Panel>)
    ensures p.None? <==> !signedIn
    ensures p == Some(Locked) <==> signedIn && !CanViewNote(status)
    ensures (p.Some? && p.value.Editor?) <==> signedIn && CanEditNote(isAdmin, status)
    ensures p.Some? && p.value.ReadOnly? ==> signedIn && !isAdmin && CanViewNote(status) && p.value.text == note
    ensures p.Some? && p.value.Editor? ==> p.value.text == note && p.value.saving == isSaving
  {
    if !signedIn then None
    else if !CanViewNote(status) then Some(Locked)
    else if isAdmin then Some(Editor(note, isSaving))
    else Some(ReadOnly(note))
  }

  /** The toast `handleSave` ends with. */
  datatype Toast = AccessDenied | SaveFailed | Saved

  /** `update({ repair_notes: note }).eq('id', receiptId)`. */
  datatype NoteUpdate = NoteUpdate(receiptId: string, repair_notes: string)

  class NoteEditor {
    const receiptId: string
    const isAdmin: bool
    var note: string
    var isSaving: bool

    /** The note starts as the stored one, or empty when there is none. */
    constructor(receiptId: string, currentNote: Option<string>, isAdmin: bool)
      ensures this.receiptId == receiptId && this.isAdmin == isAdmin
      ensures currentNote.Some? ==> note == currentNote.value
      ensures currentNote.None? ==> note == ""
      ensures !isSaving
    {
      this.receiptId := receiptId;
      this.isAdmin := isAdmin;
      note := currentNote.GetOr("");
      isSaving := false;
    }

    /** The text area's `onChange`. */
    method SetNote(text: string)
      modifies this
      ensures note == text && isSaving == old(isSaving)
    {
      note := text;
    }

    /**
     * `handleSave`: a non-administrator gets the access-denied toast and no
     * update is issued; an administrator's note is sent, and the panel is
     * no longer saving afterwards whatever the outcome.
     */
    method HandleSave(updateFails: NoteUpdate -> bool) returns (issued: Option<NoteUpdate>, toast: Toast)
      modifies this
      ensures note == old(note)
      ensures !isAdmin ==> issued == None && toast == AccessDenied && isSaving == old(isSaving)
      ensures isAdmin ==> issued == Some(NoteUpdate(receiptId, note)) && !isSaving
      ensures isAdmin ==> toast == (if updateFails(NoteUpdate(receiptId, note)) then SaveFailed else Saved)
    {
      if !isAdmin {
        return None, AccessDenied;
      }
      isSaving := true;
      var request := NoteUpdate(receiptId, note);
      var failed := updateFails(request);
      isSaving := false;
      issued := Some(request);
      toast := if failed then SaveFailed else Saved;
    }
  }
}
