/** The entities both pages display. */
module Entities {

  /** A value that may be absent: an empty form field, a `{}` where an object was expected. */
  datatype Option<+T> = None | Some(value: T)

  /** Milliseconds since the epoch: the instant a date string or `Date` stands for. */
  type Timestamp = int

  /** A course as the list query returns it. Start and end are the instants of its ISO date strings. */
  datatype Course = Course(
    id: string,
    title: string,
    description: string,
    start: Timestamp,
    end: Timestamp,
    isPrivate: bool,
    creator: string)

  /** The projection of a user that the name lookups return. */
  datatype User = User(firstName: string, secondName: string)

  /** The host's locale and time zone, as far as the pages use them: the local calendar day of an
      instant (what `toLocaleDateString` compares) and the local hour and minute (`getHours`,
      `getMinutes`). They are left uninterpreted. */
  datatype Clock = Clock(day: Timestamp -> int, hours: Timestamp -> nat, minutes: Timestamp -> nat)

  /** A local calendar day and time of day, as a `datetime-local` field holds it. */
  datatype LocalDateTime = LocalDateTime(day: int, hour: nat, minute: nat)

  /** The local day, hour (0 to 23) and minute of an instant. */
  function LocalTime(clock: Clock, stamp: Timestamp): LocalDateTime
  {
    LocalDateTime(clock.day(stamp), clock.hours(stamp), clock.minutes(stamp))
  }
}
