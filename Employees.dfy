/**
  The employee record as the list view holds it (src/EmployeeList.jsx).
  A record travels from the server with its hire date as text; the client
  replaces that text with the value `new Date(text)` before storing it.
 */
module Employees {

  /** The backend-assigned `_id` of a record. */
  type Id = string

  /** A JavaScript Date: a time value, or the invalid date that `new Date` gives for text it cannot parse. */
  datatype Date = Instant(millis: int) | InvalidDate

  /**
    One employee record. `D` is the type of the hire date: `string` as the
    server sends it, `Date` once the client has converted it.
   */
  datatype Employee<D> = Employee(
    id: Id,
    name: string,
    extension: string,
    email: string,
    title: string,
    dateHired: D,
    currentlyEmployed: bool)

  /** A record as it arrives in a server response. */
  type WireEmployee = Employee<string>

  /** A record as the list view stores and renders it. */
  type ClientEmployee = Employee<Date>

  /** The payload of a create request: a record without the backend-assigned id. */
  datatype Draft = Draft(
    name: string,
    extension: string,
    email: string,
    title: string,
    dateHired: string,
    currentlyEmployed: bool)

  /** The record with its hire date converted by `parse` and every other field as it was. */
  function WithParsedDate(e: WireEmployee, parse: string -> Date): (r: ClientEmployee)
    ensures r.dateHired == parse(e.dateHired)
    ensures r.id == e.id && r.name == e.name && r.extension == e.extension && r.email == e.email
    ensures r.title == e.title && r.currentlyEmployed == e.currentlyEmployed
  {
    Employee(e.id, e.name, e.extension, e.email, e.title, parse(e.dateHired), e.currentlyEmployed)
  }

  /** Some record of `s` carries the id `id`. */
  predicate ContainsId<D>(s: seq<Employee<D>>, id: Id)
  {
    exists i :: 0 <= i < |s| && s[i].id == id
  }
}
