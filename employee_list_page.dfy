/**
 * The employee list page: the loaded list, the list the table shows, the
 * sort column and direction, and the search term, with the handlers that
 * sort the shown list, search the loaded one, and choose the status a row's
 * action asks for. Locale comparison is read as lexicographic order, dates
 * as millisecond timestamps. The generated `_id` reaches the page as a
 * fixed-width hex text compared by locale comparison; as the model's ids are
 * counters, it is compared as a number, which orders them the same way.
 */
module EmployeeListPage {
  import opened Text
  import opened Sequences
  import opened Wrappers
  import opened EmployeeSchema

  /** The clickable column headers. */
  datatype SortField = IdColumn | NameColumn | EmailColumn | CreatedAtColumn

  datatype SortOrder = Asc | Desc

  /** Clicking the column already sorted ascending turns it descending; any other click sorts ascending. */
  function NextOrder(currentField: SortField, currentOrder: SortOrder, clicked: SortField): (o: SortOrder)
    ensures o == Desc <==> clicked == currentField && currentOrder == Asc
  {
    if currentField == clicked && currentOrder == Asc then Desc else Asc
  }

  /** The comparator is at most zero in ascending order: dates compare as
      numbers, texts (and the id, a hex text standing here as a counter) by
      locale comparison. */
  predicate FieldLe(field: SortField, a: Employee, b: Employee)
  {
    match field
    case IdColumn => a.id <= b.id
    case NameColumn => LexLe(a.name, b.name)
    case EmailColumn => LexLe(a.email, b.email)
    case CreatedAtColumn => a.createdAt <= b.createdAt
  }

  /** The comparator lets a stay before b in the chosen direction. */
  predicate MayPrecede(field: SortField, order: SortOrder, a: Employee, b: Employee)
  {
    if order == Asc then FieldLe(field, a, b) else FieldLe(field, b, a)
  }

  lemma MayPrecedeTotal(field: SortField, order: SortOrder, a: Employee, b: Employee)
    ensures MayPrecede(field, order, a, b) || MayPrecede(field, order, b, a)
  {
    LexLeTotal(a.name, b.name);
    LexLeTotal(a.email, b.email);
  }

  lemma MayPrecedeTransitive(field: SortField, order: SortOrder, a: Employee, b: Employee, c: Employee)
    requires MayPrecede(field, order, a, b) && MayPrecede(field, order, b, c)
    ensures MayPrecede(field, order, a, c)
  {
    match field
    case NameColumn =>
      if order == Asc { LexLeTransitive(a.name, b.name, c.name); }
      else { LexLeTransitive(c.name, b.name, a.name); }
    case EmailColumn =>
      if order == Asc { LexLeTransitive(a.email, b.email, c.email); }
      else { LexLeTransitive(c.email, b.email, a.email); }
    case _ =>
  }

  predicate SortedBy(rows: seq<Employee>, field: SortField, order: SortOrder)
  {
    forall i, j | 0 <= i < j < |rows| :: MayPrecede(field, order, rows[i], rows[j])
  }

  /** Places x before the first row it may precede. */
  function Insert(x: Employee, rows: seq<Employee>, field: SortField, order: SortOrder): seq<Employee>
  {
    if |rows| == 0 then [x]
    else if MayPrecede(field, order, x, rows[0]) then [x] + rows
    else [rows[0]] + Insert(x, rows[1..], field, order)
  }

  lemma {:induction false} InsertPermutes(x: Employee, rows: seq<Employee>, field: SortField, order: SortOrder)
    ensures multiset(Insert(x, rows, field, order)) == multiset(rows) + multiset{x}
  {
    if |rows| > 0 && !MayPrecede(field, order, x, rows[0]) {
      InsertPermutes(x, rows[1..], field, order);
      assert rows == [rows[0]] + rows[1..];
    }
  }

  /** A row that may precede every row of a sorted list may be put in front of it. */
  lemma PrependSorted(x: Employee, rows: seq<Employee>, field: SortField, order: SortOrder)
    requires SortedBy(rows, field, order)
    requires forall y | y in rows :: MayPrecede(field, order, x, y)
    ensures SortedBy([x] + rows, field, order)
  {
    var r := [x] + rows;
    forall i, j | 0 <= i < j < |r| ensures MayPrecede(field, order, r[i], r[j]) {
      assert r[j] == rows[j - 1];
      if i > 0 {
        assert r[i] == rows[i - 1];
      }
    }
  }

  lemma {:induction false} InsertSorted(x: Employee, rows: seq<Employee>, field: SortField, order: SortOrder)
    requires SortedBy(rows, field, order)
    ensures SortedBy(Insert(x, rows, field, order), field, order)
  {
    if |rows| == 0 {
    } else if MayPrecede(field, order, x, rows[0]) {
      forall y | y in rows ensures MayPrecede(field, order, x, y) {
        var k :| 0 <= k < |rows| && rows[k] == y;
        if k > 0 {
          MayPrecedeTransitive(field, order, x, rows[0], y);
        }
      }
      PrependSorted(x, rows, field, order);
    } else {
      var tail := Insert(x, rows[1..], field, order);
      InsertSorted(x, rows[1..], field, order);
      InsertPermutes(x, rows[1..], field, order);
      MayPrecedeTotal(field, order, x, rows[0]);
      forall y | y in tail ensures MayPrecede(field, order, rows[0], y) {
        assert y in multiset(tail);
        if y != x {
          assert y in multiset(rows[1..]);
          var k :| 0 <= k < |rows[1..]| && rows[1..][k] == y;
          assert rows[k + 1] == y;
        }
      }
      PrependSorted(rows[0], tail, field, order);
    }
  }

  /** Inserting the first row into the sorted rest sorts the whole list. */
  lemma InsertFirst(rows: seq<Employee>, tail: seq<Employee>, field: SortField, order: SortOrder)
    requires |rows| > 0
    requires SortedBy(tail, field, order) && multiset(tail) == multiset(rows[1..])
    ensures SortedBy(Insert(rows[0], tail, field, order), field, order)
    ensures multiset(Insert(rows[0], tail, field, order)) == multiset(rows)
  {
    InsertSorted(rows[0], tail, field, order);
    InsertPermutes(rows[0], tail, field, order);
    assert rows == [rows[0]] + rows[1..];
  }

  /** A sorted copy of the rows for one column and direction. */
  function SortRows(rows: seq<Employee>, field: SortField, order: SortOrder): (r: seq<Employee>)
    ensures SortedBy(r, field, order)
    ensures multiset(r) == multiset(rows)
  {
    if |rows| == 0 then []
    else
      var tail := SortRows(rows[1..], field, order);
      InsertFirst(rows, tail, field, order);
      Insert(rows[0], tail, field, order)
  }

  /** The search predicate: the lowercased term in the lowercased name or
      email, or the raw term in a non-empty mobile number. */
  predicate SearchHit(e: Employee, term: string)
  {
    || Contains(Lower(e.name), Lower(term))
    || Contains(Lower(e.email), Lower(term))
    || (e.mobile != "" && Contains(e.mobile, term))
  }

  /** A search hit means the (lowercased) term occurs as a substring. */
  lemma SearchHitIsOccurrence(e: Employee, term: string)
    ensures SearchHit(e, term) <==>
              (|| Occurs(Lower(e.name), Lower(term))
               || Occurs(Lower(e.email), Lower(term))
               || (e.mobile != "" && Occurs(e.mobile, term)))
  {
    ContainsOccurs(Lower(e.name), Lower(term));
    ContainsOccurs(Lower(e.email), Lower(term));
    ContainsOccurs(e.mobile, term);
  }

  /** What `handleSearch` shows for a term: everything when it is empty,
      otherwise the hits, in the order of the loaded list. */
  function SearchResults(all: seq<Employee>, term: string): (r: seq<Employee>)
    ensures term == "" ==> r == all
    ensures term != "" ==> forall e :: e in r <==> e in all && SearchHit(e, term)
    ensures term != "" ==> forall e :: multiset(r)[e] == if SearchHit(e, term) then multiset(all)[e] else 0
    ensures IsSubsequence(r, all)
    ensures multiset(r) <= multiset(all)
  {
    if term == "" then
      SubsequenceReflexive(all);
      all
    else
      FilterSpec(all, e => SearchHit(e, term));
      Filter(all, e => SearchHit(e, term))
  }

  /** The status a row's action asks for: an Active row asks for "Deactive",
      any other row for "Active". */
  function StatusRequest(current: Status): (r: string)
    ensures r in StatusEnum
    ensures r != StatusName(current)
    ensures CastStatus(Some(r)).Some? && CastStatus(Some(r)).value != current
  {
    if StatusName(current) == "Active" then "Deactive" else "Active"
  }

  class EmployeeListView {
    /** `employee`: the list as loaded. */
    var employees: seq<Employee>
    /** `filteredEmployee`: the list the table shows. */
    var filtered: seq<Employee>
    var sortField: SortField
    var sortOrder: SortOrder
    var searchTerm: string

    /** The table only ever shows employees of the loaded list. */
    ghost predicate Valid()
      reads this
    {
      multiset(filtered) <= multiset(employees)
    }

    constructor ()
      ensures Valid()
      ensures employees == [] && filtered == []
      ensures sortField == NameColumn && sortOrder == Asc && searchTerm == ""
    {
      employees := [];
      filtered := [];
      sortField := NameColumn;
      sortOrder := Asc;
      searchTerm := "";
    }

    /** The state updates of `getEmployeeList` once a list has arrived. */
    method ShowList(data: seq<Employee>)
      modifies this
      ensures Valid()
      ensures employees == data && filtered == data
      ensures sortField == old(sortField) && sortOrder == old(sortOrder) && searchTerm == old(searchTerm)
    {
      employees := data;
      filtered := data;
    }

    /** `handleSort(field)`: flip or reset the direction, then sort the shown list. */
    method HandleSort(field: SortField)
      requires Valid()
      modifies this
      ensures Valid()
      ensures sortField == field && sortOrder == NextOrder(old(sortField), old(sortOrder), field)
      ensures filtered == SortRows(old(filtered), field, sortOrder)
      ensures SortedBy(filtered, field, sortOrder) && multiset(filtered) == multiset(old(filtered))
      ensures employees == old(employees) && searchTerm == old(searchTerm)
    {
      var order := NextOrder(sortField, sortOrder, field);
      sortField := field;
      sortOrder := order;
      var sorted := SortRows(filtered, field, order);
      filtered := sorted;
    }

    /** `handleSearch(value)`: always searches the loaded list, never the shown one. */
    method HandleSearch(value: string)
      requires Valid()
      modifies this
      ensures Valid()
      ensures searchTerm == value
      ensures filtered == SearchResults(old(employees), value)
      ensures employees == old(employees) && sortField == old(sortField) && sortOrder == old(sortOrder)
    {
      searchTerm := value;
      if value != "" {
        FilterSpec(employees, e => SearchHit(e, value));
        filtered := Filter(employees, e => SearchHit(e, value));
      } else {
        filtered := employees;
      }
    }
  }
}
