# Event form draft of a personal calendar, in Dafny

This project models the part of a calendar web app that holds the event draft. That part covers:

- the event-form store: 15 draft fields, the setters, the two time-change handlers, `resetForm` and `editEvent`;
- the repeat-interval options offered for a date and a repeat type;
- the submit protocol, in which required fields and time errors are checked, a record is built, and it is either matched against overlaps or saved and the draft reset;
- the overlap warning dialog's cancel and continue buttons;
- the dialog flag and overlap list held by the application;
- the events store, whose list is replaced whole;
- dismissal of a notification by its position.

The code is organised by source file:

| module | file | source |
|---|---|---|
| `Wrappers` | wrappers.dfy | `Option` |
| `Types` | types.dfy | `src/types.ts`; `RepeatInterval` joins the two shapes of the repeat interval (below) |
| `Calendar` | calendar.dfy | `getLastDayOfMonth`, `getNthWeekdayOfMonth`, and a proleptic Gregorian day count that supplies the weekday |
| `RepeatOptions` | repeat_options.dfy | the `repeatOptions` computation of `src/components/EventForm.tsx` |
| `EventFormStore` | event_form_store.dfy | `src/store/eventFormStore.ts`, as the class `Store` with one field per draft field |
| `EventsStore` | events_store.dfy | `src/store/eventsStore.ts` |
| `App` | app.dfy | the dialog flag and overlap list of `src/App.tsx`, and the `saveEvent` collaborator of the submit button and the overlap dialog, as a ghost log of effects |
| `EventSubmit` | event_submit.dfy | `addOrUpdateEvent` of `src/components/EventSubmitButton.tsx` |
| `OverlapDialog` | overlap_dialog.dfy | the two buttons of `src/components/EventOverlapWarningDialog.tsx` |
| `Notifications` | notifications.dfy | the close handler of `src/components/Notifications.tsx` |

Each stateful store is a class. Its methods state their whole new state. For the form store, the pure function describing the transition is stated once, and the lemmas are proved about that function. Where a method hands work to code that is not shown, that code becomes a parameter:

- The time validator `getTimeErrorMessage` is a `TimeValidator` function.
- The overlap finder `findOverlappingEvents` is an `OverlapFinder` function.

Saving is modelled by the effects it causes. `App.AppState` keeps a ghost log (specification state only) of what happened in order: dialog toggles, recorded overlap lists and saved records. This makes "close before save" and "no save on conflicts" statable.

Points of the code worth knowing:

- Only a save without conflicts resets the draft. Cancel and continue in the overlap dialog leave it as it was (`OverlapDialog.SubmitThenContinue`).
- `editEvent` leaves both time errors as they were before the edit, so a stale error blocks submitting the edited event (`EventSubmit.StaleTimeErrorBlocksEdit`).
- The store declares `repeatInterval` as a number with initial value 1. The event type declares it as one of three rule names, and `editEvent` copies one into the other. Both sides use the single type `RepeatInterval = Steps(n) | Rule(kind)`, so that copy is the identity (`EventFormStore.EditedCopiesEvent`). The initial value is `Steps(1)`.
- The monthly and yearly branches of `repeatOptions` are written out twice with identical entries. They are modelled once, in `RepeatOptions.PeriodicOptions`.

## Model

| member | source | states |
|---|---|---|
| `Calendar.LastDayOfMonth` | src/components/EventForm.tsx:21-23 | the number of days in a 1-based month lies between 28 and 31 |
| `Calendar.MonthLengths` | src/components/EventForm.tsx:21-23 | January, March, May, July, August, October and December have 31 days; April, June, September and November 30; February 337 fewer than the year's length, so 29 in a leap year and 28 otherwise |
| `Calendar.MonthsFillYear` | src/components/EventForm.tsx:21-23 | the twelve month lengths add up to the length of the year |
| `Calendar.DaysBeforeYearStep` | src/components/EventForm.tsx:80-81 | the day count of the year boundaries grows by exactly 365 or 366 (Gregorian leap rule) from one year to the next |
| `Calendar.NextMonthStart` | src/components/EventForm.tsx:22 | the day before the first of month m+1 is the last day of month m |
| `Calendar.NewYearStart` | src/components/EventForm.tsx:22 | the day before 1 January is 31 December of the previous year |
| `Calendar.JsDayZeroIsMonthEnd` | src/components/EventForm.tsx:22 | day 0 of the month after `month`, with the month index 12 overflowing into January of the next year, is the last day of `month` |
| `Calendar.JsConstructorYear` | src/components/EventForm.tsx:22 | the year the `Date(year, month, day)` constructor uses: years 0..99 are taken as 1900..1999, every other year as itself; the consequence is stated by `Calendar.AsWrittenAgreesOutsideYearZero` and `Calendar.AsWrittenYearZeroFebruary` |
| `Calendar.JsMakeDay` | src/components/EventForm.tsx:22 | the day count of `new Date(year, monthIndex, date)`: the month index overflows into the constructor year and `date` counts from the first of that month; stated by `Calendar.JsDayZeroIsMonthEnd` and the contract of `Calendar.GetLastDayOfMonthAsWritten` |
| `Calendar.GetLastDayOfMonthAsWritten` | src/components/EventForm.tsx:21-23 | `new Date(year, month, 0).getDate()`: the result is a valid day of `month` in the year the Date constructor actually uses, and that day is the constructor's day |
| `Calendar.AsWrittenAgreesOutsideYearZero` | src/components/EventForm.tsx:21-23 | the constructor's two-digit-year rule changes nothing except February of year 0 |
| `Calendar.AsWrittenYearZeroFebruary` | src/components/EventForm.tsx:21-23 | as written, February of year 0 has 28 days, although year 0 is a leap year with 29 |
| `Calendar.DayNumber` | src/components/EventForm.tsx:77-81 | the proleptic Gregorian day count behind `getDay()`, 0 for 0001-01-01; no contract of its own: its consecutiveness across months and years is stated by `Calendar.NextMonthStart`, `Calendar.NewYearStart` and `Calendar.DaysBeforeYearStep` |
| `Calendar.Weekday` | src/components/EventForm.tsx:81-85 | the weekday index (0 for Sunday) lies in 0..6 and so indexes the seven labels |
| `Calendar.SameWeekdayInMonth` | src/components/EventForm.tsx:81 | two days of one month fall on the same weekday exactly when they are congruent modulo 7 |
| `Calendar.NthWeekdayOfMonth` | src/components/EventForm.tsx:25-28 | `ceil(day / 7)`: the unique n with 7(n-1) < day <= 7n |
| `Calendar.FirstOccurrence` | src/components/EventForm.tsx:25-28 | the first day of a month on the weekday of `day`, between 1 and 7, congruent to `day` modulo 7 |
| `Calendar.CountWeekdayClosedForm` | src/components/EventForm.tsx:25-28 | counting by recursion the days 1..n of a month falling on one weekday gives the closed form |
| `Calendar.NthWeekdayCountsOccurrences` | src/components/EventForm.tsx:25-28 | `ceil(day / 7)` is the number of days 1..day of the month that share the weekday of `day`, so "n-th weekday" means what it says |
| `Calendar.NthWeekdayRange` | src/components/EventForm.tsx:25-28 | for a day of the month (1..31) the n-th-weekday number lies in 1..5 |
| `Calendar.WorkedExampleWeekdays` | src/components/EventForm.tsx:259-265 | 28 February 2025 is a Friday, the 4th of the month, and the month's last day; 20 February 2025 is a Thursday, the 3rd |
| `RepeatOptions.WeekdayLabels` | src/components/EventForm.tsx:85 | the seven weekday labels, Sunday first, indexed by `getDay()`; used by `RepeatOptions.NthWeekdayLabelShape` and `RepeatOptions.WorkedExamples` |
| `RepeatOptions.Values` | src/components/EventForm.tsx:87-123 | the option values have the options' order and number |
| `RepeatOptions.PeriodicOptions` | src/components/EventForm.tsx:87-104 | three options on the last day of the month, two otherwise |
| `RepeatOptions.OptionsFor` | src/components/EventForm.tsx:74-126 | `repeatOptions` with the Gregorian month length: at most three options, and options only for a set date with a monthly or yearly rule; the contents are stated by `RepeatOptions.OptionsEmptyIff`, `RepeatOptions.MonthlyValues`, `RepeatOptions.YearlyMatchesMonthly` and `RepeatOptions.OfferedIntervals` |
| `RepeatOptions.OptionsForAsWritten` | src/components/EventForm.tsx:74-126 | `repeatOptions` with `getLastDayOfMonth` as written: the same bounds; where it differs from `RepeatOptions.OptionsFor` is stated by `RepeatOptions.AsWrittenAgreesElsewhere` and the two year-0 lemmas |
| `RepeatOptions.OptionsEmptyIff` | src/components/EventForm.tsx:74-126 | no options exactly when the date is empty or the repeat type is 'none', 'daily' or 'weekly' |
| `RepeatOptions.MonthlyValues` | src/components/EventForm.tsx:87-103 | monthly values are last day, same date, same n-th weekday on the month's last day, and same date, same n-th weekday otherwise |
| `RepeatOptions.YearlyMatchesMonthly` | src/components/EventForm.tsx:87-122 | yearly options equal monthly ones for every date, labels included |
| `RepeatOptions.OfferedIntervals` | src/components/EventForm.tsx:87-123 | "last day of the month" is offered exactly when the next day is not a valid date of that month; same date and same n-th weekday are always offered |
| `RepeatOptions.NthWeekdayLabelShape` | src/components/EventForm.tsx:82-94 | the last option is the n-th-weekday one, with n in 1..5 and the weekday label of the date |
| `RepeatOptions.WorkedExamples` | src/components/EventForm.tsx:259-265 | monthly or yearly on 2025-02-28 gives exactly last day, 28th and 4th Friday; on 2025-02-20 exactly 20th and 3rd Thursday |
| `RepeatOptions.AsWrittenMissesYearZeroLastDay` | src/components/EventForm.tsx:83-96 | as written, 0000-02-29, the last day of its month, is offered no "last day of the month" option, which the corrected model does offer |
| `RepeatOptions.AsWrittenOffersYearZeroLastDayEarly` | src/components/EventForm.tsx:83-96 | as written, 0000-02-28, which is not the last day of its month, is offered "last day of the month"; the corrected model does not offer it |
| `RepeatOptions.AsWrittenAgreesElsewhere` | src/components/EventForm.tsx:74-126 | outside February of year 0, the options as written equal the corrected ones |
| `EventFormStore.Store.constructor` | src/store/eventFormStore.ts:45-64 | the store starts at `initialState` |
| `EventFormStore.InitialState` | src/store/eventFormStore.ts:45-61 | `initialState`; its values are stated by `EventFormStore.InitialValues` |
| `EventFormStore.StartTimeChanged` | src/store/eventFormStore.ts:80-86 | the `set` of `handleStartTimeChange` as a transition; stated by `EventFormStore.StartTimeChangeEffect` |
| `EventFormStore.EndTimeChanged` | src/store/eventFormStore.ts:88-94 | the `set` of `handleEndTimeChange` as a transition; stated by `EventFormStore.EndTimeChangeEffect` |
| `EventFormStore.Edited` | src/store/eventFormStore.ts:98-113 | the `set` of `editEvent` as a transition; stated by `EventFormStore.EditedCopiesEvent`, `EventFormStore.EditedKeepsErrors` and `EventFormStore.EditedForgetsDraft` |
| `EventFormStore.EndDateField` | src/store/eventFormStore.ts:111 | `event.repeat.endDate \|\| ''`: '' for an absent end date, the date otherwise; stated by `EventFormStore.EditedCopiesEvent`, and inverted by `EventSubmit.EndDateValue` in `EventSubmit.EditThenSubmitRoundTrip` |
| `EventFormStore.InitialValues` | src/store/eventFormStore.ts:45-61 | every string field is empty; not repeating, 'none', interval 1; notification 10; no edited event and no errors |
| `EventFormStore.Store.SetTitle` | src/store/eventFormStore.ts:66 | the title takes the value, every other field is unchanged |
| `EventFormStore.Store.SetDate` | src/store/eventFormStore.ts:67 | the date takes the value, every other field is unchanged |
| `EventFormStore.Store.SetStartTime` | src/store/eventFormStore.ts:68 | the start time takes the value, every other field is unchanged |
| `EventFormStore.Store.SetEndTime` | src/store/eventFormStore.ts:69 | the end time takes the value, every other field is unchanged |
| `EventFormStore.Store.SetDescription` | src/store/eventFormStore.ts:70 | the description takes the value, every other field is unchanged |
| `EventFormStore.Store.SetLocation` | src/store/eventFormStore.ts:71 | the location takes the value, every other field is unchanged |
| `EventFormStore.Store.SetCategory` | src/store/eventFormStore.ts:72 | the category takes the value, every other field is unchanged |
| `EventFormStore.Store.SetIsRepeating` | src/store/eventFormStore.ts:73 | the repeating flag takes the value, every other field is unchanged |
| `EventFormStore.Store.SetRepeatType` | src/store/eventFormStore.ts:74 | the repeat type takes the value, every other field is unchanged |
| `EventFormStore.Store.SetRepeatInterval` | src/store/eventFormStore.ts:75 | the repeat interval takes the value, every other field is unchanged |
| `EventFormStore.Store.SetRepeatEndDate` | src/store/eventFormStore.ts:76 | the end date takes the value, every other field is unchanged |
| `EventFormStore.Store.SetNotificationTime` | src/store/eventFormStore.ts:77 | the notification time takes the value, every other field is unchanged |
| `EventFormStore.Store.SetEditingEvent` | src/store/eventFormStore.ts:78 | the edited event takes the value, every other field is unchanged |
| `EventFormStore.Store.HandleStartTimeChange` | src/store/eventFormStore.ts:80-86 | the new state is the start-time transition of the old one, and afterwards both errors are the validator's verdict on the current times |
| `EventFormStore.StartTimeChangeEffect` | src/store/eventFormStore.ts:80-86 | the start time takes the value, both errors come from the validator on the new start and the old end, and nothing else changes |
| `EventFormStore.Store.HandleEndTimeChange` | src/store/eventFormStore.ts:88-94 | the new state is the end-time transition of the old one, and afterwards both errors are the validator's verdict on the current times |
| `EventFormStore.EndTimeChangeEffect` | src/store/eventFormStore.ts:88-94 | the end time takes the value, both errors come from the validator on the old start and the new end, and nothing else changes |
| `EventFormStore.StartThenEndTimeScenario` | src/store/eventFormStore.ts:80-94 | from the initial draft, start 10:00 then end 09:00 leaves both times set and the validator's end-time message for that pair |
| `EventFormStore.Store.Load` | src/store/eventFormStore.ts:96 | `set` with every field present: the store takes them all |
| `EventFormStore.Store.ResetForm` | src/store/eventFormStore.ts:96 | every field returns to `initialState` |
| `EventFormStore.Store.EditEvent` | src/store/eventFormStore.ts:98-113 | the new state is the edit transition of the old one |
| `EventFormStore.EditedCopiesEvent` | src/store/eventFormStore.ts:98-113 | editing copies the event's fields, sets the edited event, marks it repeating exactly when its repeat type is not 'none', copies its repeat type and repeat interval, and takes its end date or '' when it has none |
| `EventFormStore.EditedKeepsErrors` | src/store/eventFormStore.ts:98-113 | editing leaves both time errors as they were |
| `EventFormStore.EditedForgetsDraft` | src/store/eventFormStore.ts:98-113 | apart from the errors, the draft after editing depends only on the event |
| `EventsStore.Store.constructor` | src/store/eventsStore.ts:11 | the list starts empty |
| `EventsStore.Store.SetEvents` | src/store/eventsStore.ts:12 | the list becomes exactly the given one |
| `EventsStore.SetEventsOnFreshStore` | src/store/eventsStore.ts:11-12 | a fresh store holds the empty list, and after `setEvents(l)` it holds `l` |
| `EventsStore.SetEventsIdempotent` | src/store/eventsStore.ts:12 | on any store, setting the same list twice leaves what setting it once left: exactly that list |
| `EventsStore.SetEventsLastWriteWins` | src/store/eventsStore.ts:12 | on any store, after `setEvents(a)` then `setEvents(b)` the store holds `b` |
| `App.AppState.constructor` | src/App.tsx:24-25 | the dialog starts closed and the overlap list empty |
| `App.AppState.AddOverlappingEvents` | src/App.tsx:28-30 | the overlap list is replaced by the given one; the dialog flag is unchanged |
| `App.AppState.ToggleDialog` | src/App.tsx:32-34 | the dialog flag is negated; the overlap list is unchanged |
| `App.AppState.SaveEvent` | src/components/EventSubmitButton.tsx:83 | saving records the record and changes neither the flag nor the list |
| `App.ToggleTwice` | src/App.tsx:32-34 | two toggles restore the flag |
| `App.RecordThenOpen` | src/App.tsx:24-34 | from a closed dialog, recording a list and toggling leaves the dialog open on exactly that list, the two steps logged in that order |
| `EventSubmit.RequiredFieldMessage` | src/components/EventSubmitButton.tsx:43 | the toast title '필수 정보를 모두 입력해주세요.' carried by the required-field outcome of `EventSubmit.Submit` |
| `EventSubmit.TimeErrorMessage` | src/components/EventSubmitButton.tsx:53 | the toast title '시간 설정을 확인해주세요.' carried by the time-error outcome of `EventSubmit.Submit` |
| `EventSubmit.Truthy` | src/components/EventSubmitButton.tsx:51 | JavaScript truthiness of a `string \| null`: false for null and ''; used by `EventSubmit.EmptyErrorMessageIsFalsy` |
| `EventSubmit.MissingRequired` | src/components/EventSubmitButton.tsx:41 | some of title, date, start time and end time is empty; its role is stated by `EventSubmit.Submit` and `EventSubmit.RequiredFieldFirst` |
| `EventSubmit.HasTimeError` | src/components/EventSubmitButton.tsx:51 | either time error is truthy; its role is stated by `EventSubmit.Submit` and `EventSubmit.TimeErrorSecond` |
| `EventSubmit.EventDataOf` | src/components/EventSubmitButton.tsx:61-76 | the `eventData` record, also the payload of src/components/EventOverlapWarningDialog.tsx:75-90: it has an id exactly when an event is being edited, and no end date exactly when the end-date field is ''; the rest is stated by `EventSubmit.EventDataShape` |
| `EventSubmit.EndDateValue` | src/components/EventSubmitButton.tsx:73 | `repeatEndDate \|\| undefined`: absent exactly for the empty string, the string itself otherwise |
| `EventSubmit.Submit` | src/components/EventSubmitButton.tsx:40-86 | required-field error exactly when a required field is empty; time error exactly when they are present and an error is truthy; conflicts exactly when both checks pass and the finder reports some, which are passed on unchanged; otherwise the draft's record is saved; the two messages are the source's |
| `EventSubmit.AddOrUpdateEvent` | src/components/EventSubmitButton.tsx:40-86 | the outcome is `Submit` of the draft; on an error nothing changes; on conflicts the list is recorded, then the dialog toggled, and the draft kept; on success the record is saved, then the draft reset |
| `EventSubmit.RequiredFieldFirst` | src/components/EventSubmitButton.tsx:41-49 | a missing field gives the required-field error whatever the errors, the events and the overlap finder |
| `EventSubmit.TimeErrorSecond` | src/components/EventSubmitButton.tsx:51-59 | with the fields present, a time error gives the time-error outcome whatever the events and the finder |
| `EventSubmit.EventDataShape` | src/components/EventSubmitButton.tsx:61-76 | the record's id is the edited event's exactly when editing; its type is 'none' unless repeating; its end date is absent exactly for ''; the other fields are the draft's |
| `EventSubmit.EditThenSubmitRoundTrip` | src/components/EventSubmitButton.tsx:61-76 | building the record from a draft filled by `editEvent(e)` gives back `e` with its id, when e's end date is not '' |
| `EventSubmit.EditThenSubmitSaves` | src/components/EventSubmitButton.tsx:40-86 | an edited event with its fields, no pending error and no conflicts is saved unchanged under its own id |
| `EventSubmit.StaleTimeErrorBlocksEdit` | src/components/EventSubmitButton.tsx:51-59 | a time error left from the earlier draft blocks submitting an edited event |
| `EventSubmit.InitialDraftIsIncomplete` | src/components/EventSubmitButton.tsx:41-49 | the initial draft gives the required-field error |
| `EventSubmit.EmptyErrorMessageIsFalsy` | src/components/EventSubmitButton.tsx:51 | an empty error message is falsy and does not block |
| `OverlapDialog.Cancel` | src/components/EventOverlapWarningDialog.tsx:65-70 | cancel only toggles the dialog; nothing is saved |
| `OverlapDialog.Continue` | src/components/EventOverlapWarningDialog.tsx:71-91 | continue toggles the dialog and then saves the draft's record, built as on submit, with the overlap list and the draft unchanged |
| `OverlapDialog.SubmitThenContinue` | src/components/EventOverlapWarningDialog.tsx:71-91 | a submit with conflicts followed by continue ends with the dialog as before, the draft not reset, and the submitted record saved once, after both toggles |
| `OverlapDialog.ContinueSavesSubmitPayload` | src/components/EventOverlapWarningDialog.tsx:75-90 | continuing saves exactly what a conflict-free submit of the same draft saves |
| `Notifications.FilterOutPosition` | src/components/Notifications.tsx:24 | filtering out a position in range drops exactly that element; a position out of range keeps the list |
| `Notifications.NotificationList.constructor` | src/components/Notifications.tsx:14 | the list is the given one |
| `Notifications.NotificationList.Dismiss` | src/components/Notifications.tsx:23-25 | the list is replaced by the list without the closed entry |
| `Notifications.Dismissed` | src/components/Notifications.tsx:24 | the list after closing an entry; stated by `Notifications.FilterOutPosition` and the four lemmas below |
| `Notifications.DismissShortens` | src/components/Notifications.tsx:24 | closing an entry on screen shortens the list by one |
| `Notifications.DismissKeepsOrder` | src/components/Notifications.tsx:24 | entries before the closed one keep their positions, those after move down by one |
| `Notifications.DismissRemovesExactlyOne` | src/components/Notifications.tsx:24 | the remaining entries plus the closed one are the original entries, duplicates counted |
| `Notifications.DismissOutOfRange` | src/components/Notifications.tsx:24 | closing a position off screen changes nothing |

## Left out

- Parsing of the date field is not modelled. `new Date('YYYY-MM-DD')` parses as UTC midnight while `getDate`, `getMonth`, `getFullYear` and `getDay` read local time, so in time zones west of UTC the day shifts. The model takes the date as already parsed: `None` for the empty field, a valid `CalendarDate` otherwise.
- Option label text is not modelled. Labels keep the values they interpolate (month, day, n, weekday name) instead of the formatted Korean strings.
- `Calendar.GetLastDayOfMonthAsWritten`: the model does not evaluate `getDate()` separately. The contract states that the constructed day number is the day count of the returned day of the month. That this picks out a single day rests on the day count being one-to-one, which is not proved.
- `getTimeErrorMessage` (src/utils/timeValidation) is not part of this model. It is the `TimeValidator` parameter, so the message expected for 10:00/09:00 (src/__tests__/store/eventFormStore.spec.ts:59-72) is a precondition of `EventFormStore.StartThenEndTimeScenario`.
- `findOverlappingEvents` (src/utils/eventOverlap) is not part of this model. It is the `OverlapFinder` parameter.
- The notification scheduler (src/hooks/useNotifications) is not part of this model. The notification list is taken as given.
- `saveEvent` persists over the network asynchronously; any failure and the update of the event list are not modelled. Saving is the `EventSaved` entry in the effect log.
- Toasts are kept only as the message carried by the outcome. Rendering, selects, tooltips and the calendar view are left out.
- The zustand merge in `set` and React's re-rendering are modelled as plain field updates. `EventFormStore.Store.Load` and its four parts split one `set` with every key present into four groups of assignments.
- The submit handler's `async`/`await` is modelled as sequential steps: save, then reset.

## Findings

| source | as written | input that shows it | evidently intended | confidence | as-written member | corrected member |
|---|---|---|---|---|---|---|
| src/components/EventForm.tsx:21-23 | `new Date(year, month, 0)` maps years 0..99 to 1900..1999, so February of year 0 is given 28 days | date 0000-02-29 with repeat type 'monthly': no "last day of the month" option | the length of the month in the date's own year: 29, so the option is offered | low (a year-0 date is unlikely to be entered); not executed | `RepeatOptions.AsWrittenMissesYearZeroLastDay` | `RepeatOptions.OfferedIntervals` |
| src/components/EventForm.tsx:21-23 | `new Date(year, month, 0)` maps years 0..99 to 1900..1999, so February of year 0 is given 28 days | date 0000-02-28 with repeat type 'monthly': "last day of the month" is offered although the month has 29 days | no "last day of the month" option on the 28th of a 29-day February | low (a year-0 date is unlikely to be entered); not executed | `RepeatOptions.AsWrittenOffersYearZeroLastDayEarly` | `RepeatOptions.OfferedIntervals` |
