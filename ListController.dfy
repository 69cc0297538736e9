/**
  The list controller (`EmployeeList` in src/EmployeeList.jsx): it owns the
  collection of employee records and updates it when the responses to its
  load, create and delete requests arrive. Each response is an input of the
  method that handles it; `requests` records, in order, the requests the
  controller has sent to the backend.
 */
module ListController {
  import opened Wrappers
  import opened Seqs
  import opened Employees
  import opened EmployeeTable

  /** How a `GET /api/employees` ends: a JSON body holding the `employees` list, or any failure the chain catches. */
  datatype LoadOutcome = Loaded(employees: seq<WireEmployee>) | LoadFailed

  /** How a `POST /api/employees` ends: a JSON body holding the stored `employee`, or any failure the chain catches. */
  datatype CreateOutcome = Created(employee: WireEmployee) | CreateFailed

  /** How a `DELETE /api/employees/{id}` ends: a response with its `ok` flag, or a rejected fetch. */
  datatype DeleteOutcome = Responded(ok: bool) | DeleteRejected

  /** A request sent to the backend. */
  datatype Request = GetEmployees | PostEmployee(draft: Draft) | DeleteEmployeeById(id: Id)

  /** The response list with every hire date converted, in response order. */
  function ParseAll(records: seq<WireEmployee>, parse: string -> Date): (parsed: seq<ClientEmployee>)
    ensures |parsed| == |records|
  {
    if |records| == 0 then [] else [WithParsedDate(records[0], parse)] + ParseAll(records[1..], parse)
  }

  /** The converted record at each position is the response record there, with its hire date converted. */
  lemma {:induction false} ParseAllAt(records: seq<WireEmployee>, parse: string -> Date, i: nat)
    requires i < |records|
    ensures ParseAll(records, parse)[i] == WithParsedDate(records[i], parse)
  {
    if i > 0 {
      ParseAllAt(records[1..], parse, i - 1);
    }
  }

  /** The date-conversion loop of a successful load: one pass over the response records, in order. */
  method ParseDates(records: seq<WireEmployee>, parse: string -> Date) returns (parsed: seq<ClientEmployee>)
    ensures parsed == ParseAll(records, parse)
  {
    parsed := [];
    var i := 0;
    while i < |records|
      invariant 0 <= i <= |records|
      invariant |parsed| == i
      invariant forall k :: 0 <= k < i ==> parsed[k] == WithParsedDate(records[k], parse)
    {
      parsed := parsed + [WithParsedDate(records[i], parse)];
      i := i + 1;
    }
    forall k | 0 <= k < |records|
      ensures parsed[k] == ParseAll(records, parse)[k]
    {
      ParseAllAt(records, parse, k);
    }
  }

  /** Converting a concatenation converts each part. */
  lemma {:induction false} ParseAllAppend(a: seq<WireEmployee>, b: seq<WireEmployee>, parse: string -> Date)
    ensures ParseAll(a + b, parse) == ParseAll(a, parse) + ParseAll(b, parse)
  {
    if |a| == 0 {
      assert a + b == b;
    } else {
      var head := [WithParsedDate(a[0], parse)];
      ParseAllAppend(a[1..], b, parse);
      assert (a + b)[1..] == a[1..] + b;
      assert ParseAll(a + b, parse) == head + ParseAll(a[1..] + b, parse);
      ConcatAssoc(head, ParseAll(a[1..], parse), ParseAll(b, parse));
    }
  }

  /** Date conversion keeps every record's id. */
  lemma ParseAllKeepsIds(records: seq<WireEmployee>, parse: string -> Date, id: Id)
    ensures ContainsId(ParseAll(records, parse), id) <==> ContainsId(records, id)
  {
    var parsed := ParseAll(records, parse);
    if ContainsId(records, id) {
      var i :| 0 <= i < |records| && records[i].id == id;
      ParseAllAt(records, parse, i);
      assert parsed[i].id == id;
    }
    if ContainsId(parsed, id) {
      var i :| 0 <= i < |parsed| && parsed[i].id == id;
      ParseAllAt(records, parse, i);
      assert records[i].id == id;
    }
  }

  /** Converting dates does not change which records the table shows, nor their order. */
  lemma {:induction false} FilterIgnoresDates(records: seq<WireEmployee>, q: Option<string>, parse: string -> Date)
    ensures FilterEmployees(ParseAll(records, parse), q) == ParseAll(FilterEmployees(records, q), parse)
  {
    if |records| > 0 {
      var first, tail := records[0], records[1..];
      var parsed := ParseAll(records, parse);
      var kept := if Shown(q, first) then [first] else [];
      var keptParsed := if Shown(q, first) then [WithParsedDate(first, parse)] else [];
      FilterIgnoresDates(tail, q, parse);
      assert parsed[0] == WithParsedDate(first, parse) && parsed[1..] == ParseAll(tail, parse);
      assert FilterEmployees(parsed, q) == keptParsed + FilterEmployees(ParseAll(tail, parse), q);
      assert FilterEmployees(records, q) == kept + FilterEmployees(tail, q);
      ParseAllAppend(kept, FilterEmployees(tail, q), parse);
      assert ParseAll(kept, parse) == keptParsed;
    }
  }

  /** The collection after the response to a load arrives. */
  function AfterLoad(current: seq<ClientEmployee>, outcome: LoadOutcome, parse: string -> Date): (next: seq<ClientEmployee>)
    ensures outcome.LoadFailed? ==> next == current
    ensures outcome.Loaded? ==> |next| == |outcome.employees|
  {
    match outcome
    case Loaded(records) => ParseAll(records, parse)
    case LoadFailed => current
  }

  /** The collection after the response to a create arrives. */
  function AfterCreate(current: seq<ClientEmployee>, outcome: CreateOutcome, parse: string -> Date): (next: seq<ClientEmployee>)
    ensures |next| == |current| + (if outcome.Created? then 1 else 0)
    ensures next[..|current|] == current
  {
    match outcome
    case Created(e) => current + [WithParsedDate(e, parse)]
    case CreateFailed => current
  }

  /** Only an ok response to a delete starts a reload. */
  predicate Reloads(response: DeleteOutcome): (reloads: bool)
    ensures reloads <==> response.Responded? && response.ok
  {
    response == Responded(true)
  }

  /** The collection after a delete response arrives and, when it starts one, the reload ends with `reload`. */
  function AfterDelete(current: seq<ClientEmployee>, response: DeleteOutcome, reload: LoadOutcome,
                       parse: string -> Date): (next: seq<ClientEmployee>)
    ensures !Reloads(response) ==> next == current
    ensures Reloads(response) && reload.Loaded? ==> |next| == |reload.employees|
  {
    if Reloads(response) then AfterLoad(current, reload, parse) else current
  }

  /**
    A successful load replaces the collection wholesale: the new collection is
    the response list, record by record, whatever the collection held before.
    A failed load changes nothing.
   */
  lemma LoadReplacesWholesale(current: seq<ClientEmployee>, other: seq<ClientEmployee>,
                              outcome: LoadOutcome, parse: string -> Date)
    ensures outcome.LoadFailed? ==> AfterLoad(current, outcome, parse) == current
    ensures outcome.Loaded? ==>
      && AfterLoad(current, outcome, parse) == AfterLoad(other, outcome, parse)
      && |AfterLoad(current, outcome, parse)| == |outcome.employees|
      && forall i :: 0 <= i < |outcome.employees| ==>
           var e, r := outcome.employees[i], AfterLoad(current, outcome, parse)[i];
           r.id == e.id && r.name == e.name && r.extension == e.extension && r.email == e.email
           && r.title == e.title && r.dateHired == parse(e.dateHired) && r.currentlyEmployed == e.currentlyEmployed
  {
    if outcome.Loaded? {
      forall i | 0 <= i < |outcome.employees|
        ensures AfterLoad(current, outcome, parse)[i] == WithParsedDate(outcome.employees[i], parse)
      {
        ParseAllAt(outcome.employees, parse, i);
      }
    }
  }

  /**
    A successful create appends exactly the record the server returned, with
    its hire date converted, after an untouched prefix; a failed one changes nothing.
   */
  lemma CreateAppendsOne(current: seq<ClientEmployee>, outcome: CreateOutcome, parse: string -> Date)
    ensures outcome.CreateFailed? ==> AfterCreate(current, outcome, parse) == current
    ensures outcome.Created? ==>
      var next := AfterCreate(current, outcome, parse);
      && |next| == |current| + 1
      && next[..|current|] == current
      && next[|current|] == WithParsedDate(outcome.employee, parse)
  {
  }

  /**
    A delete that is not answered ok leaves the collection as it was; one
    answered ok leaves whatever the reload yields, so when the backend has
    honoured the deletion the id is gone.
   */
  lemma DeleteThenReload(current: seq<ClientEmployee>, id: Id, response: DeleteOutcome,
                         reload: LoadOutcome, parse: string -> Date)
    ensures !Reloads(response) ==> AfterDelete(current, response, reload, parse) == current
    ensures Reloads(response) && reload.Loaded? && !ContainsId(reload.employees, id) ==>
      !ContainsId(AfterDelete(current, response, reload, parse), id)
  {
    if Reloads(response) && reload.Loaded? {
      ParseAllKeepsIds(reload.employees, parse, id);
    }
  }

  /** A response event the controller handles, with the outcome of the request it answers. */
  datatype Event =
    | Load(outcome: LoadOutcome)
    | Create(draft: Draft, created: CreateOutcome)
    | Delete(id: Id, response: DeleteOutcome, reload: LoadOutcome)

  /** The collection after one event. */
  function Step(current: seq<ClientEmployee>, ev: Event, parse: string -> Date): (next: seq<ClientEmployee>)
    ensures Snapshot(ev).Some? ==> next == ParseAll(Snapshot(ev).value, parse)
    ensures ev.Create? && ev.created.Created? ==> next == current + [WithParsedDate(ev.created.employee, parse)]
    ensures Snapshot(ev).None? && !(ev.Create? && ev.created.Created?) ==> next == current
  {
    match ev
    case Load(outcome) => AfterLoad(current, outcome, parse)
    case Create(_, created) => AfterCreate(current, created, parse)
    case Delete(_, response, reload) => AfterDelete(current, response, reload, parse)
  }

  /** The collection after a run of events, starting from the empty collection of a new controller. */
  function Replay(events: seq<Event>, parse: string -> Date): (collection: seq<ClientEmployee>)
    ensures |events| == 0 ==> collection == []
    ensures |events| > 0 && Snapshot(events[|events| - 1]).Some? ==>
      collection == ParseAll(Snapshot(events[|events| - 1]).value, parse)
  {
    if events == [] then [] else Step(Replay(events[..|events| - 1], parse), events[|events| - 1], parse)
  }

  /** The response list an event installs wholesale, if it is a successful load or a delete's reload. */
  function Snapshot(ev: Event): Option<seq<WireEmployee>>
  {
    match ev
    case Load(Loaded(records)) => Some(records)
    case Delete(_, response, Loaded(records)) => if Reloads(response) then Some(records) else None
    case _ => None
  }

  /** The server list installed by the last successful load of a run ([] if none). */
  function LastSnapshot(events: seq<Event>): seq<WireEmployee>
  {
    if events == [] then []
    else match Snapshot(events[|events| - 1])
      case Some(records) => records
      case None => LastSnapshot(events[..|events| - 1])
  }

  /** The records successful creates returned since the last successful load, in order. */
  function CreatedSince(events: seq<Event>): seq<WireEmployee>
  {
    if events == [] then []
    else
      var ev, before := events[|events| - 1], events[..|events| - 1];
      if Snapshot(ev).Some? then []
      else if ev.Create? && ev.created.Created? then CreatedSince(before) + [ev.created.employee]
      else CreatedSince(before)
  }

  /**
    The collection is never partially updated: after any run of responses it
    is the list of the last successful load followed by the records created
    since, each with its hire date converted.
   */
  lemma {:induction false} CollectionIsSnapshotPlusCreates(events: seq<Event>, parse: string -> Date)
    ensures Replay(events, parse) == ParseAll(LastSnapshot(events) + CreatedSince(events), parse)
  {
    if |events| > 0 {
      var ev, before := events[|events| - 1], events[..|events| - 1];
      CollectionIsSnapshotPlusCreates(before, parse);
      if Snapshot(ev).Some? {
        var records := Snapshot(ev).value;
        assert Replay(events, parse) == ParseAll(records, parse);
        assert LastSnapshot(events) + CreatedSince(events) == records + [];
        assert records + [] == records;
      } else if ev.Create? && ev.created.Created? {
        var base, e := LastSnapshot(before) + CreatedSince(before), ev.created.employee;
        assert Replay(events, parse) == Replay(before, parse) + [WithParsedDate(e, parse)];
        ConcatAssoc(LastSnapshot(before), CreatedSince(before), [e]);
        ParseAllAppend(base, [e], parse);
        assert ParseAll([e], parse) == [WithParsedDate(e, parse)];
      }
    }
  }

  /** The controller: the collection the table renders, and the requests sent so far. */
  class EmployeeList {
    var employees: seq<ClientEmployee>
    ghost var requests: seq<Request>
    /** `new Date(text)`, the runtime's date conversion, taken as given. */
    const parseDate: string -> Date

    /** A new controller holds no records and has sent nothing. */
    constructor (parseDate: string -> Date)
      ensures employees == [] && requests == []
      ensures this.parseDate == parseDate
    {
      employees := [];
      requests := [];
      this.parseDate := parseDate;
    }

    /** Mounting the view loads the collection once. */
    method ComponentDidMount(outcome: LoadOutcome)
      modifies this
      ensures requests == old(requests) + [GetEmployees]
      ensures employees == AfterLoad(old(employees), outcome, parseDate)
    {
      LoadData(outcome);
    }

    /** Fetch the whole collection; on success replace it with the response list, dates converted. */
    method LoadData(outcome: LoadOutcome)
      modifies this
      ensures requests == old(requests) + [GetEmployees]
      ensures employees == AfterLoad(old(employees), outcome, parseDate)
      ensures outcome.LoadFailed? ==> employees == old(employees)
    {
      requests := requests + [GetEmployees];
      match outcome {
        case Loaded(records) =>
          var parsed := ParseDates(records, parseDate);
          employees := parsed;
        case LoadFailed =>
      }
    }

    /** Post a draft; on success append the record the server stored, date converted. */
    method CreateEmployee(draft: Draft, outcome: CreateOutcome)
      modifies this
      ensures requests == old(requests) + [PostEmployee(draft)]
      ensures employees == AfterCreate(old(employees), outcome, parseDate)
      ensures outcome.Created? ==> employees == old(employees) + [WithParsedDate(outcome.employee, parseDate)]
      ensures outcome.CreateFailed? ==> employees == old(employees)
    {
      requests := requests + [PostEmployee(draft)];
      match outcome {
        case Created(e) =>
          employees := employees + [WithParsedDate(e, parseDate)];
        case CreateFailed =>
      }
    }

    /**
      Delete a record by id; an ok response reloads the collection (exactly
      one more GET), any other outcome leaves everything as it was.
     */
    method DeleteEmployee(id: Id, response: DeleteOutcome, reload: LoadOutcome)
      modifies this
      ensures requests == old(requests) + [DeleteEmployeeById(id)] + (if Reloads(response) then [GetEmployees] else [])
      ensures employees == AfterDelete(old(employees), response, reload, parseDate)
      ensures !Reloads(response) ==> employees == old(employees)
    {
      requests := requests + [DeleteEmployeeById(id)];
      if response.Responded? && response.ok {
        LoadData(reload);
      }
    }
  }
}
