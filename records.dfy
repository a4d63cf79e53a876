/**
 * The records that flow through the pipeline: users as the Friendly Vendor
 * API returns them, the same users once the loader has tagged them with
 * their page and row, users as the MySQL join returns them, and the
 * dictionaries the writer stores.
 */
module Records {
  import opened Dates

  /** A user object from the API's JSON `users` list. */
  datatype ApiUser = ApiUser(
    id: int,
    firstname: string,
    lastname: string,
    lastActiveDate: string,
    practiceLocation: string,
    specialty: string,
    userTypeClassification: string)

  /** An API user after the loader has added `friendly_vendor_page` and
      `friendly_vendor_row`. */
  datatype FrivenUser = FrivenUser(
    id: int,
    firstname: string,
    lastname: string,
    lastActiveDate: string,
    practiceLocation: string,
    specialty: string,
    userTypeClassification: string,
    page: int,
    row: int)

  function Tag(u: ApiUser, page: int, row: int): FrivenUser
  {
    FrivenUser(u.id, u.firstname, u.lastname, u.lastActiveDate, u.practiceLocation,
               u.specialty, u.userTypeClassification, page, row)
  }

  /** A row of `user` joined with `user_practice`; MySQL hands
      `last_active_date` over as a date. */
  datatype MysqlUser = MysqlUser(
    id: int,
    firstname: string,
    lastname: string,
    classification: string,
    specialty: string,
    location: string,
    lastActiveDate: CalendarDate)

  /** A value in a dictionary handed to the writer. */
  datatype Value = IntValue(i: int) | StrValue(s: string)

  /** A Python dictionary from field names to values. */
  type Row = map<string, Value>
}
