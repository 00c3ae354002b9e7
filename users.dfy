/** The records the dashboard handles: the fetched raw record, the formatted
    User kept by the store, and the calendar fields read from a JavaScript Date. */
module Users {

  datatype Option<+T> = None | Some(value: T)

  /** What the age rule reads from a JavaScript Date: getFullYear(), getMonth()
      (0 to 11) and getDay(), which is the day of the WEEK (0 to 6), not the day
      of the month. */
  datatype Date = Date(year: int, month: int, weekday: int)

  /** A formatted record (interface User): four strings copied from the fetched
      record, the derived age and a synthetic salary string. */
  datatype User = User(
    uid: string,
    firstName: string,
    lastName: string,
    username: string,
    age: int,
    salary: string)

  /** A record as fetched from the random-user service, with date_of_birth
      already read into its Date fields. */
  datatype RawUser = RawUser(
    uid: string,
    firstName: string,
    lastName: string,
    username: string,
    dateOfBirth: Date)
}
