/**
 * The overlap-dialog state of the application shell (src/App.tsx:24-34): whether
 * the overlap warning is open and which events it lists, with the two callbacks
 * the event form receives, `toggleDialog` and `addOverlappingEvents`.
 *
 * `saveEvent` comes from the `useEventOperations` hook, an asynchronous network
 * collaborator that is not part of this model; `SaveEvent` stands for it and only
 * records its argument. Every callback appends to `effects`, so that the order in
 * which a handler calls them is visible.
 */
module App {
  import opened Types

  /** One call of a callback or of the persistence collaborator. */
  datatype Effect = DialogToggled | OverlapsRecorded(events: seq<Event>) | EventSaved(data: EventData)

  class AppState {
    var isOverlapDialogOpen: bool
    var overlappingEvents: seq<Event>
    /** The calls made so far, oldest first: specification state that makes the
        order of effects statable; nothing in the app holds it. */
    ghost var effects: seq<Effect>

    /** `useState(false)` and `useState<Event[]>([])`: closed, with nothing listed. */
    constructor ()
      ensures !isOverlapDialogOpen && overlappingEvents == [] && effects == []
    {
      isOverlapDialogOpen, overlappingEvents, effects := false, [], [];
    }

    /** `addOverlappingEvents(events)`: the list is replaced; the flag is untouched. */
    method AddOverlappingEvents(events: seq<Event>)
      modifies this
      ensures overlappingEvents == events
      ensures isOverlapDialogOpen == old(isOverlapDialogOpen)
      ensures effects == old(effects) + [OverlapsRecorded(events)]
    {
      overlappingEvents := events;
      effects := effects + [OverlapsRecorded(events)];
    }

    /** `toggleDialog`: the flag is negated; the list is untouched. */
    method ToggleDialog()
      modifies this
      ensures isOverlapDialogOpen == !old(isOverlapDialogOpen)
      ensures overlappingEvents == old(overlappingEvents)
      ensures effects == old(effects) + [DialogToggled]
    {
      isOverlapDialogOpen := !isOverlapDialogOpen;
      effects := effects + [DialogToggled];
    }

    /** `saveEvent(data)`: recorded; the dialog state is untouched. */
    method SaveEvent(data: EventData)
      modifies this
      ensures isOverlapDialogOpen == old(isOverlapDialogOpen)
      ensures overlappingEvents == old(overlappingEvents)
      ensures effects == old(effects) + [EventSaved(data)]
    {
      effects := effects + [EventSaved(data)];
    }
  }

  /** Two toggles restore the flag; the list stays as it was. */
  method ToggleTwice(app: AppState)
    modifies app
    ensures app.isOverlapDialogOpen == old(app.isOverlapDialogOpen)
    ensures app.overlappingEvents == old(app.overlappingEvents)
    ensures app.effects == old(app.effects) + [DialogToggled, DialogToggled]
  {
    app.ToggleDialog();
    app.ToggleDialog();
  }

  /** From a closed dialog, recording a list and toggling once opens the dialog on
      exactly that list. */
  method RecordThenOpen(app: AppState, l: seq<Event>)
    modifies app
    requires !app.isOverlapDialogOpen
    ensures app.isOverlapDialogOpen && app.overlappingEvents == l
    ensures app.effects == old(app.effects) + [OverlapsRecorded(l), DialogToggled]
  {
    app.AddOverlappingEvents(l);
    app.ToggleDialog();
  }
}
