/**
 * The event-form draft store (src/store/eventFormStore.ts): fifteen fields that
 * every action overwrites in part (`set({...})` merges the given keys into the
 * state), a reset to the initial state, and `editEvent`, which fills the draft
 * from an existing event.
 *
 * The time validator `getTimeErrorMessage` is not part of this model: the time
 * handlers take it as a function parameter that returns both error keys.
 * Each action of the class is specified by `State()`, the snapshot of all fields,
 * against the pure transition functions of this module.
 */
module EventFormStore {
  import opened Wrappers
  import opened Types

  /** What `getTimeErrorMessage` returns: the start-time and end-time messages. */
  datatype TimeErrors = TimeErrors(startTimeError: Option<string>, endTimeError: Option<string>)

  /** `getTimeErrorMessage(startTime, endTime)`. */
  type TimeValidator = (string, string) -> TimeErrors

  /** `EventFormState`, field for field. */
  datatype FormState = FormState(
    title: string,
    date: string,
    startTime: string,
    endTime: string,
    description: string,
    location: string,
    category: string,
    isRepeating: bool,
    repeatType: RepeatType,
    repeatInterval: RepeatInterval,
    repeatEndDate: string,
    notificationTime: int,
    editingEvent: Option<Event>,
    startTimeError: Option<string>,
    endTimeError: Option<string>)

  /** `initialState`. */
  const InitialState: FormState :=
    FormState("", "", "", "", "", "", "", false, NoRepeat, Steps(1), "", 10, None, None, None)

  /** The draft after `handleStartTimeChange`: the new start time, and both errors
      from validating it against the current end time. */
  function StartTimeChanged(s: FormState, newStartTime: string, validate: TimeValidator): FormState
  {
    var errors := validate(newStartTime, s.endTime);
    s.(startTime := newStartTime, startTimeError := errors.startTimeError, endTimeError := errors.endTimeError)
  }

  /** The draft after `handleEndTimeChange`: the new end time, and both errors from
      validating the current start time against it. */
  function EndTimeChanged(s: FormState, newEndTime: string, validate: TimeValidator): FormState
  {
    var errors := validate(s.startTime, newEndTime);
    s.(endTime := newEndTime, startTimeError := errors.startTimeError, endTimeError := errors.endTimeError)
  }

  /** `event.repeat.endDate || ''`. */
  function EndDateField(endDate: Option<string>): string
  {
    match endDate
    case None => ""
    case Some(d) => d
  }

  /** The draft after `editEvent(event)`: every field but the two errors is taken
      from the event; `isRepeating` is whether it repeats at all. */
  function Edited(s: FormState, event: Event): FormState
  {
    var f := event.form;
    s.(editingEvent := Some(event),
       title := f.title,
       date := f.date,
       startTime := f.startTime,
       endTime := f.endTime,
       description := f.description,
       location := f.location,
       category := f.category,
       isRepeating := f.repeat.repeatType != NoRepeat,
       repeatType := f.repeat.repeatType,
       repeatInterval := f.repeat.interval,
       repeatEndDate := EndDateField(f.repeat.endDate),
       notificationTime := f.notificationTime)
  }

  /** The two error fields are those the validator gives for the current times. */
  predicate ErrorsReflectTimes(s: FormState, validate: TimeValidator)
  {
    validate(s.startTime, s.endTime) == TimeErrors(s.startTimeError, s.endTimeError)
  }

  class Store {
    var title: string
    var date: string
    var startTime: string
    var endTime: string
    var description: string
    var location: string
    var category: string
    var isRepeating: bool
    var repeatType: RepeatType
    var repeatInterval: RepeatInterval
    var repeatEndDate: string
    var notificationTime: int
    var editingEvent: Option<Event>
    var startTimeError: Option<string>
    var endTimeError: Option<string>

    /** All fifteen fields. */
    function State(): FormState
      reads this
    {
      FormState(title, date, startTime, endTime, description, location, category, isRepeating,
                repeatType, repeatInterval, repeatEndDate, notificationTime, editingEvent,
                startTimeError, endTimeError)
    }

    /** The store is created holding `initialState`. */
    constructor ()
      ensures State() == InitialState
    {
      title, date, startTime, endTime := "", "", "", "";
      description, location, category := "", "", "";
      isRepeating, repeatType, repeatInterval, repeatEndDate := false, NoRepeat, Steps(1), "";
      notificationTime, editingEvent, startTimeError, endTimeError := 10, None, None, None;
    }

    method SetTitle(value: string)
      modifies this
      ensures State() == old(State()).(title := value)
    {
      title := value;
    }

    method SetDate(value: string)
      modifies this
      ensures State() == old(State()).(date := value)
    {
      date := value;
    }

    method SetStartTime(value: string)
      modifies this
      ensures State() == old(State()).(startTime := value)
    {
      startTime := value;
    }

    method SetEndTime(value: string)
      modifies this
      ensures State() == old(State()).(endTime := value)
    {
      endTime := value;
    }

    method SetDescription(value: string)
      modifies this
      ensures State() == old(State()).(description := value)
    {
      description := value;
    }

    method SetLocation(value: string)
      modifies this
      ensures State() == old(State()).(location := value)
    {
      location := value;
    }

    method SetCategory(value: string)
      modifies this
      ensures State() == old(State()).(category := value)
    {
      category := value;
    }

    method SetIsRepeating(value: bool)
      modifies this
      ensures State() == old(State()).(isRepeating := value)
    {
      isRepeating := value;
    }

    method SetRepeatType(value: RepeatType)
      modifies this
      ensures State() == old(State()).(repeatType := value)
    {
      repeatType := value;
    }

    method SetRepeatInterval(value: RepeatInterval)
      modifies this
      ensures State() == old(State()).(repeatInterval := value)
    {
      repeatInterval := value;
    }

    method SetRepeatEndDate(value: string)
      modifies this
      ensures State() == old(State()).(repeatEndDate := value)
    {
      repeatEndDate := value;
    }

    method SetNotificationTime(value: int)
      modifies this
      ensures State() == old(State()).(notificationTime := value)
    {
      notificationTime := value;
    }

    method SetEditingEvent(value: Option<Event>)
      modifies this
      ensures State() == old(State()).(editingEvent := value)
    {
      editingEvent := value;
    }

    /** `handleStartTimeChange` for an input whose value is `value`. */
    method HandleStartTimeChange(value: string, validate: TimeValidator)
      modifies this
      ensures State() == StartTimeChanged(old(State()), value, validate)
      ensures ErrorsReflectTimes(State(), validate)
    {
      var errors := validate(value, endTime);
      startTime := value;
      startTimeError, endTimeError := errors.startTimeError, errors.endTimeError;
    }

    /** `handleEndTimeChange` for an input whose value is `value`. */
    method HandleEndTimeChange(value: string, validate: TimeValidator)
      modifies this
      ensures State() == EndTimeChanged(old(State()), value, validate)
      ensures ErrorsReflectTimes(State(), validate)
    {
      var errors := validate(startTime, value);
      endTime := value;
      startTimeError, endTimeError := errors.startTimeError, errors.endTimeError;
    }

    /** `set(s)` with every key present: the store takes the fields of `s`. */
    method Load(s: FormState)
      modifies this
      ensures State() == s
    {
      LoadTimes(s);
      LoadDetails(s);
      LoadRepeat(s);
      LoadStatus(s);
    }

    /** `set` of the title, the date and the two times of `s`. */
    method LoadTimes(s: FormState)
      modifies this
      ensures State() == old(State()).(title := s.title, date := s.date, startTime := s.startTime,
        endTime := s.endTime)
    {
      title, date, startTime, endTime := s.title, s.date, s.startTime, s.endTime;
    }

    /** `set` of the description, location and category of `s`. */
    method LoadDetails(s: FormState)
      modifies this
      ensures State() == old(State()).(description := s.description, location := s.location,
        category := s.category)
    {
      description, location, category := s.description, s.location, s.category;
    }

    /** `set` of the four repetition fields of `s`. */
    method LoadRepeat(s: FormState)
      modifies this
      ensures State() == old(State()).(isRepeating := s.isRepeating, repeatType := s.repeatType,
        repeatInterval := s.repeatInterval, repeatEndDate := s.repeatEndDate)
    {
      isRepeating, repeatType, repeatInterval, repeatEndDate :=
        s.isRepeating, s.repeatType, s.repeatInterval, s.repeatEndDate;
    }

    /** `set` of the notification time, the edited event and the two errors of `s`. */
    method LoadStatus(s: FormState)
      modifies this
      ensures State() == old(State()).(notificationTime := s.notificationTime, editingEvent := s.editingEvent,
        startTimeError := s.startTimeError, endTimeError := s.endTimeError)
    {
      notificationTime, editingEvent := s.notificationTime, s.editingEvent;
      startTimeError, endTimeError := s.startTimeError, s.endTimeError;
    }

    /** `resetForm`: every field back to `initialState`. */
    method ResetForm()
      modifies this
      ensures State() == InitialState
    {
      Load(InitialState);
    }

    /** `editEvent(event)`. */
    method EditEvent(event: Event)
      modifies this
      ensures State() == Edited(old(State()), event)
    {
      Load(Edited(State(), event));
    }
  }

  // ---------------------------------------------------------------------------
  // Lemmas about the transitions

  /** `initialState`: empty strings, no repetition ('none', interval 1, no end
      date), a ten-minute notification, no event being edited and no errors. */
  lemma InitialValues()
    ensures var s := InitialState;
            s.title == s.date == s.startTime == s.endTime == "" &&
            s.description == s.location == s.category == s.repeatEndDate == "" &&
            !s.isRepeating && s.repeatType == NoRepeat && s.repeatInterval == Steps(1) &&
            s.notificationTime == 10 && s.editingEvent.None? &&
            s.startTimeError.None? && s.endTimeError.None?
  {
  }

  /** A start-time change sets the start time and both errors from the validator
      applied to the new start and the unchanged end time; nothing else changes. */
  lemma StartTimeChangeEffect(s: FormState, v: string, validate: TimeValidator)
    ensures var r := StartTimeChanged(s, v, validate);
            r.startTime == v && r.endTime == s.endTime &&
            TimeErrors(r.startTimeError, r.endTimeError) == validate(v, s.endTime) &&
            r.(startTime := s.startTime, startTimeError := s.startTimeError, endTimeError := s.endTimeError) == s
  {
  }

  /** An end-time change sets the end time and both errors from the validator
      applied to the unchanged start and the new end time; nothing else changes. */
  lemma EndTimeChangeEffect(s: FormState, v: string, validate: TimeValidator)
    ensures var r := EndTimeChanged(s, v, validate);
            r.endTime == v && r.startTime == s.startTime &&
            TimeErrors(r.startTimeError, r.endTimeError) == validate(s.startTime, v) &&
            r.(endTime := s.endTime, startTimeError := s.startTimeError, endTimeError := s.endTimeError) == s
  {
  }

  /** The scenario of src/__tests__/store/eventFormStore.spec.ts:59-72: from the
      initial draft, start 10:00 and then end 09:00 leave the end-time message the
      validator gives for that pair. */
  lemma StartThenEndTimeScenario(validate: TimeValidator, message: string)
    requires validate("10:00", "09:00").endTimeError == Some(message)
    ensures var s := EndTimeChanged(StartTimeChanged(InitialState, "10:00", validate), "09:00", validate);
            s.startTime == "10:00" && s.endTime == "09:00" && s.endTimeError == Some(message)
  {
  }

  /** `editEvent` copies the event's fields, its repeat type and its repeat interval
      and remembers the event; whether the draft repeats is whether the event does;
      an absent end date becomes ''. */
  lemma EditedCopiesEvent(s: FormState, event: Event)
    ensures var r := Edited(s, event);
            var f := event.form;
            r.editingEvent == Some(event) &&
            r.title == f.title && r.date == f.date && r.startTime == f.startTime &&
            r.endTime == f.endTime && r.description == f.description &&
            r.location == f.location && r.category == f.category &&
            r.notificationTime == f.notificationTime &&
            (r.isRepeating <==> f.repeat.repeatType != NoRepeat) &&
            r.repeatType == f.repeat.repeatType &&
            r.repeatInterval == f.repeat.interval &&
            (f.repeat.endDate.None? ==> r.repeatEndDate == "") &&
            (f.repeat.endDate.Some? ==> r.repeatEndDate == f.repeat.endDate.value)
  {
  }

  /** `editEvent` keeps the two error fields of the previous draft. */
  lemma EditedKeepsErrors(s: FormState, event: Event)
    ensures Edited(s, event).startTimeError == s.startTimeError
    ensures Edited(s, event).endTimeError == s.endTimeError
  {
  }

  /** Editing an event throws away the whole previous draft except its errors:
      the result does not depend on any other field of the draft. */
  lemma EditedForgetsDraft(s: FormState, t: FormState, event: Event)
    requires s.startTimeError == t.startTimeError && s.endTimeError == t.endTimeError
    ensures Edited(s, event) == Edited(t, event)
  {
  }
}
