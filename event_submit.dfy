/**
 * The submit protocol of the event form (src/components/EventSubmitButton.tsx:40-86):
 * a required-field check, then a time-error check, then the `eventData` record
 * built from the draft; if the overlap finder reports conflicts they are handed
 * to the overlap dialog, otherwise the record is saved and the draft reset.
 *
 * The overlap finder `findOverlappingEvents` is not part of this model: it is a
 * function parameter. Toasts are kept only as the message of the outcome.
 */
module EventSubmit {
  import opened Wrappers
  import opened Types
  import opened EventFormStore
  import opened App

  /** The toast for a missing title, date, start time or end time. */
  const RequiredFieldMessage: string := "필수 정보를 모두 입력해주세요."
  /** The toast for a pending time error. */
  const TimeErrorMessage: string := "시간 설정을 확인해주세요."

  /** `findOverlappingEvents(eventData, events)`. */
  type OverlapFinder = (EventData, seq<Event>) -> seq<Event>

  datatype SubmitOutcome =
    | RequiredFieldError(message: string)
    | TimeError(message: string)
    | ShowOverlaps(overlapping: seq<Event>)
    | Saved(data: EventData)

  /** JavaScript truthiness of a `string | null`: null and '' are false. */
  predicate Truthy(o: Option<string>)
  {
    o.Some? && o.value != ""
  }

  /** `!title || !date || !startTime || !endTime`. */
  predicate MissingRequired(s: FormState)
  {
    s.title == "" || s.date == "" || s.startTime == "" || s.endTime == ""
  }

  /** `startTimeError || endTimeError`. */
  predicate HasTimeError(s: FormState)
  {
    Truthy(s.startTimeError) || Truthy(s.endTimeError)
  }

  /** `repeatEndDate || undefined`. */
  function EndDateValue(field: string): (r: Option<string>)
    ensures r.None? <==> field == ""
    ensures r.Some? ==> r.value == field
  {
    if field == "" then None else Some(field)
  }

  /** The `eventData` record built from the draft (the overlap dialog builds the
      same record when the user continues). */
  function EventDataOf(s: FormState): (r: EventData)
    ensures r.id.Some? <==> s.editingEvent.Some?
    ensures r.form.repeat.endDate.None? <==> s.repeatEndDate == ""
  {
    EventData(
      if s.editingEvent.Some? then Some(s.editingEvent.value.id) else None,
      EventForm(s.title, s.date, s.startTime, s.endTime, s.description, s.location, s.category,
                RepeatInfo(if s.isRepeating then s.repeatType else NoRepeat, s.repeatInterval,
                           EndDateValue(s.repeatEndDate)),
                s.notificationTime))
  }

  /** The outcome of `addOrUpdateEvent` for the draft `s` and the loaded `events`. */
  function Submit(s: FormState, events: seq<Event>, findOverlaps: OverlapFinder): (r: SubmitOutcome)
    ensures r.RequiredFieldError? <==> MissingRequired(s)
    ensures r.TimeError? <==> !MissingRequired(s) && HasTimeError(s)
    ensures r.ShowOverlaps? <==>
            !MissingRequired(s) && !HasTimeError(s) && findOverlaps(EventDataOf(s), events) != []
    ensures r.ShowOverlaps? ==> r.overlapping == findOverlaps(EventDataOf(s), events)
    ensures r.Saved? ==> r.data == EventDataOf(s)
    ensures r.RequiredFieldError? ==> r.message == RequiredFieldMessage
    ensures r.TimeError? ==> r.message == TimeErrorMessage
  {
    if MissingRequired(s) then RequiredFieldError(RequiredFieldMessage)
    else if HasTimeError(s) then TimeError(TimeErrorMessage)
    else
      var data := EventDataOf(s);
      var overlapping := findOverlaps(data, events);
      if |overlapping| > 0 then ShowOverlaps(overlapping) else Saved(data)
  }

  /** `addOrUpdateEvent`: on a validation error nothing changes; on conflicts the
      list is recorded and the dialog toggled, in that order, and the draft is
      kept; otherwise the record is saved and the draft reset. */
  method AddOrUpdateEvent(form: Store, app: AppState, events: seq<Event>, findOverlaps: OverlapFinder)
    returns (outcome: SubmitOutcome)
    modifies form, app
    ensures outcome == Submit(old(form.State()), events, findOverlaps)
    ensures outcome.RequiredFieldError? || outcome.TimeError? ==>
            form.State() == old(form.State()) &&
            app.isOverlapDialogOpen == old(app.isOverlapDialogOpen) &&
            app.overlappingEvents == old(app.overlappingEvents) && app.effects == old(app.effects)
    ensures outcome.ShowOverlaps? ==>
            form.State() == old(form.State()) &&
            app.isOverlapDialogOpen == !old(app.isOverlapDialogOpen) &&
            app.overlappingEvents == outcome.overlapping &&
            app.effects == old(app.effects) + [OverlapsRecorded(outcome.overlapping), DialogToggled]
    ensures outcome.Saved? ==>
            form.State() == InitialState &&
            app.isOverlapDialogOpen == old(app.isOverlapDialogOpen) &&
            app.overlappingEvents == old(app.overlappingEvents) &&
            app.effects == old(app.effects) + [EventSaved(outcome.data)]
  {
    outcome := Submit(form.State(), events, findOverlaps);
    if outcome.ShowOverlaps? {
      app.AddOverlappingEvents(outcome.overlapping);
      app.ToggleDialog();
    } else if outcome.Saved? {
      app.SaveEvent(outcome.data);
      form.ResetForm();
    }
  }

  // ---------------------------------------------------------------------------
  // Lemmas

  /** A missing required field decides the outcome before anything else: time
      errors, the loaded events and the overlap finder make no difference. */
  lemma RequiredFieldFirst(s: FormState, events: seq<Event>, f: OverlapFinder,
                           events': seq<Event>, g: OverlapFinder)
    requires MissingRequired(s)
    ensures Submit(s, events, f) == Submit(s, events', g) == RequiredFieldError(RequiredFieldMessage)
  {
  }

  /** With the required fields present, a time error decides the outcome before the
      overlap finder is consulted. */
  lemma TimeErrorSecond(s: FormState, events: seq<Event>, f: OverlapFinder,
                        events': seq<Event>, g: OverlapFinder)
    requires !MissingRequired(s) && HasTimeError(s)
    ensures Submit(s, events, f) == Submit(s, events', g) == TimeError(TimeErrorMessage)
  {
  }

  /** The record's id is the edited event's, absent for a new event; its repeat type
      is 'none' unless the draft repeats; an empty end date is left out; every
      other field is the draft's. */
  lemma EventDataShape(s: FormState)
    ensures var d := EventDataOf(s);
            (d.id.Some? <==> s.editingEvent.Some?) &&
            (s.editingEvent.Some? ==> d.id.value == s.editingEvent.value.id) &&
            d.form.repeat.repeatType == (if s.isRepeating then s.repeatType else NoRepeat) &&
            (d.form.repeat.endDate.None? <==> s.repeatEndDate == "") &&
            d.form.repeat.interval == s.repeatInterval &&
            d.form.title == s.title && d.form.date == s.date &&
            d.form.startTime == s.startTime && d.form.endTime == s.endTime &&
            d.form.description == s.description && d.form.location == s.location &&
            d.form.category == s.category && d.form.notificationTime == s.notificationTime
  {
  }

  /** Editing an event and submitting the draft unchanged saves that same event:
      `editEvent` and the `eventData` construction are inverse to each other,
      provided the event's end date, if present, is not the empty string. */
  lemma EditThenSubmitRoundTrip(s: FormState, event: Event)
    requires event.form.repeat.endDate != Some("")
    ensures EventDataOf(Edited(s, event)) == EventData(Some(event.id), event.form)
  {
    var form := event.form;
    assert EndDateValue(EndDateField(form.repeat.endDate)) == form.repeat.endDate;
  }

  /** Hence an edited event with its required fields, no pending time error and no
      conflicts is saved as it was, under its own id. */
  lemma EditThenSubmitSaves(s: FormState, event: Event, events: seq<Event>, f: OverlapFinder)
    requires event.form.repeat.endDate != Some("")
    requires !MissingRequired(Edited(s, event)) && !HasTimeError(s)
    requires f(EventData(Some(event.id), event.form), events) == []
    ensures Submit(Edited(s, event), events, f) == Saved(EventData(Some(event.id), event.form))
  {
    EditThenSubmitRoundTrip(s, event);
  }

  /** `editEvent` does not recompute the time errors, so an error left over from the
      previous draft blocks the submission of the edited event, whatever its times. */
  lemma StaleTimeErrorBlocksEdit(s: FormState, event: Event, events: seq<Event>, f: OverlapFinder)
    requires HasTimeError(s)
    requires !MissingRequired(Edited(s, event))
    ensures Submit(Edited(s, event), events, f) == TimeError(TimeErrorMessage)
  {
  }

  /** The initial (or just reset) draft cannot be submitted: its required fields are empty. */
  lemma InitialDraftIsIncomplete(events: seq<Event>, f: OverlapFinder)
    ensures Submit(InitialState, events, f) == RequiredFieldError(RequiredFieldMessage)
  {
  }

  /** `''` and `null` are both falsy, so an empty error message does not block. */
  lemma EmptyErrorMessageIsFalsy(s: FormState)
    requires s.startTimeError == Some("") && s.endTimeError.None?
    ensures !HasTimeError(s)
  {
  }
}
