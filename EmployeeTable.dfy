/**
  The row filter of the table view (`EmployeeTable` in src/EmployeeList.jsx).
  The query parameter `employed` is compared, as text, with the text form of
  each record's `currentlyEmployed` flag; an absent or empty parameter shows
  every record.
 */
module EmployeeTable {
  import opened Wrappers
  import opened Seqs
  import opened Employees

  /** `String(b)` for a JavaScript boolean. */
  function BoolText(b: bool): (text: string)
    ensures text == "true" <==> b
    ensures text == "false" <==> !b
  {
    assert "true"[0] != "false"[0];
    if b then "true" else "false"
  }

  /** The query value is truthy in JavaScript: present and not the empty string. */
  predicate Filtering(q: Option<string>): (truthy: bool)
    ensures !truthy <==> q == None || q == Some("")
  {
    q.Some? && q.value != ""
  }

  /** The filter callback: keep `e` when there is no filter or its flag's text equals the query exactly. */
  predicate Shown<D>(q: Option<string>, e: Employee<D>): (shown: bool)
    ensures !Filtering(q) ==> shown
    ensures q == Some("true") ==> (shown <==> e.currentlyEmployed)
    ensures q == Some("false") ==> (shown <==> !e.currentlyEmployed)
    ensures Filtering(q) && q.value != "true" && q.value != "false" ==> !shown
  {
    Filtering(q) ==> BoolText(e.currentlyEmployed) == q.value
  }

  /** The records the table renders, in collection order. */
  function FilterEmployees<D>(employees: seq<Employee<D>>, q: Option<string>): (rows: seq<Employee<D>>)
    ensures |rows| <= |employees|
  {
    if |employees| == 0 then []
    else (if Shown(q, employees[0]) then [employees[0]] else []) + FilterEmployees(employees[1..], q)
  }

  /** Every rendered record passes the query test. */
  lemma {:induction false} FilterShowsOnlyMatches<D>(employees: seq<Employee<D>>, q: Option<string>)
    ensures forall i :: 0 <= i < |FilterEmployees(employees, q)| ==> Shown(q, FilterEmployees(employees, q)[i])
  {
    if employees != [] {
      var rest := FilterEmployees(employees[1..], q);
      FilterShowsOnlyMatches(employees[1..], q);
      if Shown(q, employees[0]) {
        var rows := [employees[0]] + rest;
        assert forall i :: 1 <= i < |rows| ==> rows[i] == rest[i - 1];
      }
    }
  }

  /** `sub` is `s` with some elements left out and the rest in their original order. */
  ghost predicate IsSubsequence<T>(sub: seq<T>, s: seq<T>)
    decreases |s|
  {
    if sub == [] then true
    else if s == [] then false
    else (sub[0] == s[0] && IsSubsequence(sub[1..], s[1..])) || IsSubsequence(sub, s[1..])
  }

  /** Without a (truthy) query the table shows the whole collection, in order. */
  lemma {:induction false} NoFilterKeepsAll<D>(employees: seq<Employee<D>>, q: Option<string>)
    requires !Filtering(q)
    ensures FilterEmployees(employees, q) == employees
  {
    if employees != [] {
      NoFilterKeepsAll(employees[1..], q);
      assert employees == [employees[0]] + employees[1..];
    }
  }

  /** Every shown record keeps all its occurrences; every other record loses all of them. */
  lemma {:induction false} FilterCounts<D>(employees: seq<Employee<D>>, q: Option<string>, e: Employee<D>)
    ensures multiset(FilterEmployees(employees, q))[e] == if Shown(q, e) then multiset(employees)[e] else 0
  {
    if employees != [] {
      var tail := employees[1..];
      var head := if Shown(q, employees[0]) then [employees[0]] else [];
      FilterCounts(tail, q, e);
      assert employees == [employees[0]] + tail;
      assert multiset(employees) == multiset{employees[0]} + multiset(tail);
      assert multiset(FilterEmployees(employees, q)) == multiset(head) + multiset(FilterEmployees(tail, q));
    }
  }

  /** The shown rows keep the collection's order. */
  lemma {:induction false} FilterIsSubsequence<D>(employees: seq<Employee<D>>, q: Option<string>)
    ensures IsSubsequence(FilterEmployees(employees, q), employees)
  {
    if employees != [] {
      var rest := FilterEmployees(employees[1..], q);
      FilterIsSubsequence(employees[1..], q);
      if Shown(q, employees[0]) {
        assert FilterEmployees(employees, q) == [employees[0]] + rest;
        assert ([employees[0]] + rest)[1..] == rest;
      } else {
        assert FilterEmployees(employees, q) == rest;
      }
    }
  }

  /** An ordered selection of shown records is never longer than the filter's result. */
  lemma {:induction false} ShownSubsequenceBounded<D>(r: seq<Employee<D>>, s: seq<Employee<D>>, q: Option<string>)
    requires IsSubsequence(r, s)
    requires forall i :: 0 <= i < |r| ==> Shown(q, r[i])
    ensures |r| <= |FilterEmployees(s, q)|
    decreases |s|
  {
    if r != [] {
      if r[0] == s[0] && IsSubsequence(r[1..], s[1..]) {
        ShownSubsequenceBounded(r[1..], s[1..], q);
      } else {
        ShownSubsequenceBounded(r, s[1..], q);
      }
    }
  }

  /**
    The filter's result is THE longest ordered selection of shown records:
    any subsequence of the collection made only of shown records, and as long
    as the result, is the result.
   */
  lemma {:induction false} FilterIsUnique<D>(r: seq<Employee<D>>, s: seq<Employee<D>>, q: Option<string>)
    requires IsSubsequence(r, s)
    requires forall i :: 0 <= i < |r| ==> Shown(q, r[i])
    requires |r| == |FilterEmployees(s, q)|
    ensures r == FilterEmployees(s, q)
    decreases |s|
  {
    if r == [] {
      assert FilterEmployees(s, q) == [];
    } else if r[0] == s[0] && IsSubsequence(r[1..], s[1..]) {
      FilterIsUnique(r[1..], s[1..], q);
      assert r == [r[0]] + r[1..];
    } else {
      if Shown(q, s[0]) {
        ShownSubsequenceBounded(r, s[1..], q);
        assert false;
      }
      FilterIsUnique(r, s[1..], q);
    }
  }

  /** Filtering a concatenation filters each part: the filter looks at one record at a time. */
  lemma {:induction false} FilterAppend<D>(a: seq<Employee<D>>, b: seq<Employee<D>>, q: Option<string>)
    ensures FilterEmployees(a + b, q) == FilterEmployees(a, q) + FilterEmployees(b, q)
  {
    if |a| == 0 {
      assert a + b == b;
    } else {
      var head := if Shown(q, a[0]) then [a[0]] else [];
      FilterAppend(a[1..], b, q);
      assert (a + b)[1..] == a[1..] + b;
      assert FilterEmployees(a + b, q) == head + FilterEmployees(a[1..] + b, q);
      assert FilterEmployees(a, q) == head + FilterEmployees(a[1..], q);
      ConcatAssoc(head, FilterEmployees(a[1..], q), FilterEmployees(b, q));
    }
  }

  /** Filtering the rows again with the same query changes nothing. */
  lemma {:induction false} FilterIdempotent<D>(employees: seq<Employee<D>>, q: Option<string>)
    ensures FilterEmployees(FilterEmployees(employees, q), q) == FilterEmployees(employees, q)
  {
    if employees != [] {
      var rest := FilterEmployees(employees[1..], q);
      FilterIdempotent(employees[1..], q);
      if Shown(q, employees[0]) {
        var rows := [employees[0]] + rest;
        assert rows[0] == employees[0] && rows[1..] == rest;
        assert FilterEmployees(employees, q) == rows;
        assert FilterEmployees(rows, q) == [rows[0]] + FilterEmployees(rows[1..], q);
      } else {
        assert FilterEmployees(employees, q) == rest;
      }
    }
  }

  /** `?employed=true` shows exactly the records of people currently employed, `?employed=false` exactly the others. */
  lemma EmployedQuery<D>(employees: seq<Employee<D>>, flag: bool, e: Employee<D>)
    ensures e in FilterEmployees(employees, Some(BoolText(flag))) <==> e in employees && e.currentlyEmployed == flag
  {
    FilterCounts(employees, Some(BoolText(flag)), e);
  }

  /** Any non-empty query other than "true" or "false" shows no row at all. */
  lemma {:induction false} UnknownQueryShowsNothing<D>(employees: seq<Employee<D>>, q: Option<string>)
    requires Filtering(q) && q.value != "true" && q.value != "false"
    ensures FilterEmployees(employees, q) == []
  {
    if employees != [] {
      UnknownQueryShowsNothing(employees[1..], q);
    }
  }

  /** A record passes the query "true" or "false" exactly when its flag has that value. */
  lemma ShownByFlag<D>(e: Employee<D>, flag: bool)
    ensures Shown(Some(BoolText(flag)), e) <==> e.currentlyEmployed == flag
  {
    assert BoolText(true)[0] != BoolText(false)[0];
  }

  /** The "true" rows and the "false" rows together are the whole collection. */
  lemma {:induction false} TrueAndFalsePartition<D>(employees: seq<Employee<D>>)
    ensures multiset(FilterEmployees(employees, Some("true"))) + multiset(FilterEmployees(employees, Some("false")))
         == multiset(employees)
  {
    if employees != [] {
      var head, tail := employees[0], employees[1..];
      var yes, no := FilterEmployees(tail, Some("true")), FilterEmployees(tail, Some("false"));
      TrueAndFalsePartition(tail);
      assert employees == [head] + tail;
      assert multiset(employees) == multiset{head} + multiset(tail);
      ShownByFlag(head, true);
      ShownByFlag(head, false);
      if head.currentlyEmployed {
        assert FilterEmployees(employees, Some("true")) == [head] + yes;
        assert FilterEmployees(employees, Some("false")) == no;
        assert multiset([head] + yes) == multiset{head} + multiset(yes);
      } else {
        assert FilterEmployees(employees, Some("true")) == yes;
        assert FilterEmployees(employees, Some("false")) == [head] + no;
        assert multiset([head] + no) == multiset{head} + multiset(no);
      }
    }
  }

  /** Two records, one employed and one not, filtered by "true": only the employed one is shown. */
  lemma FilterScenario(a: ClientEmployee, b: ClientEmployee)
    requires a.currentlyEmployed && !b.currentlyEmployed
    ensures FilterEmployees([a, b], Some("true")) == [a]
  {
    assert [a, b][1..] == [b];
  }
}
