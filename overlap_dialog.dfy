/**
 * The overlap warning dialog (src/components/EventOverlapWarningDialog.tsx:64-96):
 * "취소" (cancel) only closes it; "계속 진행" (continue) closes it and then saves
 * the record built from the draft, exactly as the submit button builds it, without
 * consulting the overlap finder again and without resetting the draft.
 * `onClose` is the application's `toggleDialog`.
 */
module OverlapDialog {
  import opened Types
  import opened EventFormStore
  import opened App
  import opened EventSubmit

  /** The cancel button: `onClose()` and nothing else. */
  method Cancel(app: AppState)
    modifies app
    ensures app.isOverlapDialogOpen == !old(app.isOverlapDialogOpen)
    ensures app.overlappingEvents == old(app.overlappingEvents)
    ensures app.effects == old(app.effects) + [DialogToggled]
  {
    app.ToggleDialog();
  }

  /** The continue button: `onClose()`, then `saveEvent` of the draft's record. The
      draft is only read. */
  method Continue(form: Store, app: AppState)
    modifies app
    ensures app.isOverlapDialogOpen == !old(app.isOverlapDialogOpen)
    ensures app.overlappingEvents == old(app.overlappingEvents)
    ensures app.effects == old(app.effects) + [DialogToggled, EventSaved(EventDataOf(form.State()))]
  {
    app.ToggleDialog();
    app.SaveEvent(EventDataOf(form.State()));
  }

  /** The whole conflicting path: a submit that reports conflicts, then continue.
      The dialog ends as it was, the draft is not reset, and the record saved is
      the one the submit built. */
  method SubmitThenContinue(form: Store, app: AppState, events: seq<Event>, findOverlaps: OverlapFinder)
    modifies form, app
    requires Submit(form.State(), events, findOverlaps).ShowOverlaps?
    ensures form.State() == old(form.State())
    ensures app.isOverlapDialogOpen == old(app.isOverlapDialogOpen)
    ensures app.overlappingEvents == findOverlaps(EventDataOf(old(form.State())), events)
    ensures app.effects == old(app.effects) +
            [ OverlapsRecorded(app.overlappingEvents), DialogToggled,
              DialogToggled, EventSaved(EventDataOf(old(form.State()))) ]
  {
    var outcome := AddOrUpdateEvent(form, app, events, findOverlaps);
    Continue(form, app);
  }

  /** Continuing saves what a submit without conflicts would have saved: the
      overlap check is the only difference between the two paths. */
  lemma ContinueSavesSubmitPayload(s: FormState, events: seq<Event>, f: OverlapFinder, g: OverlapFinder)
    requires Submit(s, events, f).ShowOverlaps?
    requires g(EventDataOf(s), events) == []
    ensures Submit(s, events, g) == Saved(EventDataOf(s))
  {
  }
}
