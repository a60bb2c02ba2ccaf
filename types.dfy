/**
 * The records of the calendar application (src/types.ts).
 *
 * `repeatInterval` is a `number` in the form store but a `RepeatIntervalType`
 * string in `RepeatInfo`, and the store's `editEvent` copies one into the other.
 * This model uses one sum type, `RepeatInterval`, on both sides, so that either
 * kind of value that can reach a field at run time is representable and the copy
 * is the identity.
 */
module Types {
  import opened Wrappers

  /** 'none' | 'daily' | 'weekly' | 'monthly' | 'yearly' */
  datatype RepeatType = NoRepeat | Daily | Weekly | Monthly | Yearly

  /** 'same_month_last_day' | 'same_date' | 'same_month_nth_weekday' */
  datatype RepeatIntervalType = SameMonthLastDay | SameDate | SameMonthNthWeekday

  /** A repeat interval as it occurs at run time: a number (the store's initial 1,
      the tests' 0) or one of the interval rules chosen in the form. */
  datatype RepeatInterval = Steps(n: int) | Rule(kind: RepeatIntervalType)

  /** `endDate?: string` is absent (None) or present. */
  datatype RepeatInfo = RepeatInfo(repeatType: RepeatType, interval: RepeatInterval, endDate: Option<string>)

  /** The fields of an event as the form edits them; `notificationTime` is in minutes. */
  datatype EventForm = EventForm(
    title: string,
    date: string,
    startTime: string,
    endTime: string,
    description: string,
    location: string,
    category: string,
    repeat: RepeatInfo,
    notificationTime: int)

  /** A persisted event: an `EventForm` with an id. */
  datatype Event = Event(id: string, form: EventForm)

  /** The payload handed to `saveEvent`: `Event | EventForm`, the id absent for a new event. */
  datatype EventData = EventData(id: Option<string>, form: EventForm)
}
