# Employee list: a Dafny model

This project models the logic in `src/EmployeeList.jsx` of a small React
employee-management front end. It covers three parts of that file:

- **The table filter** (`EmployeeTable`). The query parameter `employed`
  selects the rows. The test is textual: a record is shown when
  `String(currentlyEmployed)` equals the parameter exactly. An absent or
  empty parameter is falsy in JavaScript, so it shows every record.
  Module `EmployeeTable`, file `EmployeeTable.dfy`.
- **The list controller** (`EmployeeList`). It owns the collection of
  records. Each method takes the outcome of its network request as an
  input:
  - a successful load replaces the collection with the response list,
    with each hire date converted;
  - a successful create appends the one record the server returned;
  - a delete answered `ok` issues exactly one reload;
  - every other outcome changes nothing.

  A ghost field `requests` logs the requests the controller sends.
  Module `ListController`, class `EmployeeList`, file `ListController.dfy`.
- **The row's confirmation dialog** (`EmployeeRow`). This is a boolean
  `modalVisible`. `ToggleModal` flips it. `ConfirmDelete` hands the row's own
  id to the controller's delete handler once, then flips the flag.
  Module `RowDialog`, class `EmployeeRow`, file `RowDialog.dfy`.

`Employees.dfy` holds the record type. `Employee<D>` is generic in its hire
date: `string` as the server sends it, `Date` once converted. JavaScript's
`new Date(text)` is the controller's `parseDate` field, a function value the
model assumes nothing about. `Wrappers.dfy` holds `Option`, and `Seqs.dfy`
holds a sequence fact the proofs use.

A failed load or create covers everything the source's `.catch` absorbs:
- a rejected fetch;
- a body that is not JSON;
- a body without `employees` (load) or without `employee` (create), since
  the handler then throws before `setState`.

A delete has no `.catch`. A rejected delete fetch (`DeleteRejected`) therefore
changes nothing, the same as a non-ok response.

Read as a state machine, the dialog has three transitions: "request delete"
(hidden to shown), "cancel" and "confirm" (shown to hidden). The code has a
single toggle behind the DELETE button, the Cancel button and the dialog's
close control, and `confirmDelete` ends with that toggle. The model follows
the code: confirming flips the flag, so from the shown state it ends hidden.

`Replay` folds a run of response events over a new controller's empty
collection. `CollectionIsSnapshotPlusCreates` proves that the collection is
never partially updated: it is always the list of the last successful load,
followed by the records created since, each with its date converted.

## Model

| member | source | states |
|---|---|---|
| EmployeeTable.BoolText | src/EmployeeList.jsx:16 | `String(b)` of a boolean is "true" exactly when `b` holds and "false" exactly when it does not |
| EmployeeTable.Filtering | src/EmployeeList.jsx:16 | the query is falsy, so no filtering happens, exactly when it is absent (null) or the empty string |
| EmployeeTable.Shown | src/EmployeeList.jsx:16 | the `.filter` callback: every record passes a falsy query; "true" passes exactly the employed, "false" exactly the others; any other query passes none |
| EmployeeTable.FilterEmployees | src/EmployeeList.jsx:15-16 | the table never renders more records than the collection holds |
| EmployeeTable.FilterShowsOnlyMatches | src/EmployeeList.jsx:16 | every rendered record passes the textual `employed` test (always, when the query is absent or empty) |
| EmployeeTable.NoFilterKeepsAll | src/EmployeeList.jsx:16 | with the query absent or empty, the rows are exactly the collection in its order |
| EmployeeTable.FilterCounts | src/EmployeeList.jsx:16 | a record that passes the test keeps all its occurrences in the rows; any other record has none (so every row comes from the collection) |
| EmployeeTable.FilterIsSubsequence | src/EmployeeList.jsx:15-16 | the rows keep the collection's order (they form a subsequence of it) |
| EmployeeTable.FilterIsUnique | src/EmployeeList.jsx:15-16 | the rows are the one order-preserving selection of passing records of full length: any other such selection equals them |
| EmployeeTable.FilterAppend | src/EmployeeList.jsx:16 | filtering a concatenation is the concatenation of the filtered parts (the test looks at one record at a time) |
| EmployeeTable.FilterIdempotent | src/EmployeeList.jsx:16 | filtering the rows again with the same query changes nothing |
| EmployeeTable.ShownByFlag | src/EmployeeList.jsx:16 | under the query "true" (or "false") a record passes exactly when its flag is true (or false) |
| EmployeeTable.EmployedQuery | src/EmployeeList.jsx:16 | `?employed=true` shows a record iff it is in the collection and currently employed; likewise for "false" |
| EmployeeTable.UnknownQueryShowsNothing | src/EmployeeList.jsx:16 | any non-empty query other than "true" and "false" shows no rows |
| EmployeeTable.TrueAndFalsePartition | src/EmployeeList.jsx:16 | the "true" rows and the "false" rows together are, as a multiset, the whole collection |
| EmployeeTable.FilterScenario | src/EmployeeList.jsx:15-16 | an employed and a non-employed record filtered by "true" render only the employed one |
| Employees.WithParsedDate | src/EmployeeList.jsx:137 | converting a record (as here and again at lines 152-154) replaces its hire date by the converted one and keeps id, name, extension, email, title and employment flag |
| ListController.ParseAll | src/EmployeeList.jsx:136-138 | the converted list has the response's length |
| ListController.ParseAllAt | src/EmployeeList.jsx:136-138 | each converted record is the response record at that position, with its hire date converted and every other field kept |
| ListController.ParseDates | src/EmployeeList.jsx:136-138 | the forEach loop over the response converts every record, in order, and nothing else |
| ListController.ParseAllAppend | src/EmployeeList.jsx:136-138 | conversion of a concatenation is the concatenation of the conversions |
| ListController.ParseAllKeepsIds | src/EmployeeList.jsx:136-138 | an id occurs in the converted list iff it occurs in the response |
| ListController.FilterIgnoresDates | src/EmployeeList.jsx:15-16 | filtering converted records gives the converted filtered records: date conversion never changes which rows show |
| ListController.AfterLoad | src/EmployeeList.jsx:134-139 | the collection after a load response: a failed load keeps it, a successful one has the response's length |
| ListController.AfterCreate | src/EmployeeList.jsx:151-158 | the collection after a create response: one record longer exactly on success, with the old collection as its prefix |
| ListController.Reloads | src/EmployeeList.jsx:165-170 | a delete starts a reload exactly when a response arrived and its `ok` flag is set; a non-ok response or a rejected fetch does not |
| ListController.AfterDelete | src/EmployeeList.jsx:165-170 | the collection after a delete response: unchanged without a reload; with a successful reload it has the reloaded list's length |
| ListController.LoadReplacesWholesale | src/EmployeeList.jsx:131-141 | a successful load yields the response list field by field with converted dates, whatever the collection held before; a failed load changes nothing |
| ListController.CreateAppendsOne | src/EmployeeList.jsx:150-161 | a successful create grows the collection by exactly one, keeps the old prefix, and ends with the whole server record, its hire date converted; a failed one changes nothing |
| ListController.DeleteThenReload | src/EmployeeList.jsx:164-171 | a delete not answered ok changes nothing; one answered ok yields the reload's result, and when the reloaded list lacks the id so does the collection |
| ListController.Step | src/EmployeeList.jsx:131-171 | one response handler: a successful load or a delete's successful reload installs that list, converted; a successful create appends the converted record; any other response leaves the collection as it was |
| ListController.Replay | src/EmployeeList.jsx:131-171 | a run of responses from a new controller: empty before any response, and after a run ending in a successful load, exactly that load's converted list |
| ListController.CollectionIsSnapshotPlusCreates | src/EmployeeList.jsx:131-171 | after any run of responses, the collection is the last successful load's list followed by the records created since, all converted |
| ListController.EmployeeList.constructor | src/EmployeeList.jsx:120-125 | a new controller holds an empty collection and has sent no request |
| ListController.EmployeeList.ComponentDidMount | src/EmployeeList.jsx:127-129 | mounting sends one GET and applies the load's outcome |
| ListController.EmployeeList.LoadData | src/EmployeeList.jsx:131-142 | sends one GET; on success the collection becomes the converted response list, on failure it is unchanged |
| ListController.EmployeeList.CreateEmployee | src/EmployeeList.jsx:144-162 | sends one POST of the draft; on success the collection is the old one plus the converted server record, on failure it is unchanged |
| ListController.EmployeeList.DeleteEmployee | src/EmployeeList.jsx:164-172 | sends one DELETE for the id; an ok response is followed by exactly one GET and the reload's result; otherwise no further request and no change |
| RowDialog.EmployeeRow.constructor | src/EmployeeList.jsx:49-58 | a new row holds its record and its controller, with the dialog hidden |
| RowDialog.EmployeeRow.ToggleModal | src/EmployeeList.jsx:60-64 | the dialog's visibility is negated |
| RowDialog.EmployeeRow.ConfirmDelete | src/EmployeeList.jsx:66-69 | exactly one DELETE, for the row's own id, reaches the controller with its full effect; the visibility is then negated, so a shown dialog ends hidden whatever the outcome |
| RowDialog.OpenThenCancel | src/EmployeeList.jsx:88-103 | opening the dialog (DELETE button) and cancelling it restores the visibility and sends no request |

## Left out

- HTTP, `fetch` and JSON are not modelled. Each request's outcome is an abstract input of the method that handles its response.
- The `count` field of the load response is not modelled. The source only logs it.
- `console.log` diagnostics are not modelled. They change no state.
- Rendering is not modelled: JSX, the table markup, `react-bootstrap`'s `Modal` and `Button`, the `/edit/{id}` link, and the row `key`.
- React's keyed reconciliation after a reload is not modelled. A row whose `_id` survives the reload keeps its instance and its dialog state, and receives the reloaded record as props. The row of a removed id is unmounted. The model's `EmployeeRow` keeps the record it was built with.
- `URLSearchParams` is not modelled. The `employed` value is given as an optional string.
- JavaScript `Date` is left uninterpreted: `new Date(text)` is a function parameter and `toDateString` is not modelled.
- `setState` batching is not modelled. Each state update takes effect when its response is handled.
- ListController.ParseDates: the source rewrites `dateHired` in place on the response objects. The model builds a new sequence instead. Nothing else aliases those objects.
- ListController.EmployeeList.DeleteEmployee: the reload's outcome is handled in the same step as the delete response. Interleaving other responses between the two, and races between in-flight requests in general, are concurrency and are not modelled. `Replay` orders whole events in arrival order.
- `EmployeeFilter.jsx` and `EmployeeAdd.jsx` are not part of this model. The draft passed to `CreateEmployee` is taken as given.
