/**
 The table component's view logic (`DataTable`): the search filter, the
 column sort, pagination and the state that drives them.
 */
module DataTable {
  import opened Types
  import opened StableSort
  import opened Content

  // ---------------------------------------------------------------------
  // Rows
  // ---------------------------------------------------------------------

  /** What a table cell holds, as far as filtering and sorting tell kinds
      apart: a string, a number, a `Date`, an array, or anything else
      (`undefined`, `null`, a boolean, an object). */
  datatype Value = Str(s: string) | Num(n: int) | Date(time: int) | Arr(elems: seq<Value>) | Other

  /** A row is a plain object: field name to value. */
  type Row = map<string, Value>

  /** `row[key]`, which is `undefined` for a missing field. */
  function FieldOf(row: Row, key: string): Value
  {
    if key in row then row[key] else Other
  }

  // ---------------------------------------------------------------------
  // Search
  // ---------------------------------------------------------------------

  predicate StartsWith(s: string, t: string)
  {
    |t| <= |s| && s[..|t|] == t
  }

  /** `s.includes(t)`. */
  function Includes(s: string, t: string): bool
    decreases |s|
  {
    StartsWith(s, t) || (s != [] && Includes(s[1..], t))
  }

  /** `t` occurs in `s` starting at index `i`. */
  predicate OccursAt(s: string, t: string, i: int)
  {
    0 <= i && i + |t| <= |s| && s[i..i + |t|] == t
  }

  /** `includes` holds exactly when `t` occurs in `s` at some position. */
  lemma {:induction false} IncludesIff(s: string, t: string)
    ensures Includes(s, t) <==> exists i :: OccursAt(s, t, i)
    decreases |s|
  {
    if StartsWith(s, t) {
      assert OccursAt(s, t, 0);
    } else if s != [] {
      IncludesIff(s[1..], t);
      if Includes(s[1..], t) {
        var i :| OccursAt(s[1..], t, i);
        assert s[i + 1..i + 1 + |t|] == s[1..][i..i + |t|];
        assert OccursAt(s, t, i + 1);
      }
      if exists i :: OccursAt(s, t, i) {
        var i :| OccursAt(s, t, i);
        if i > 0 {
          assert s[1..][i - 1..i - 1 + |t|] == s[i..i + |t|];
          assert OccursAt(s[1..], t, i - 1);
        }
      }
    }
  }

  /** A field matches the lower-cased search term when it is a string that
      contains it after lower-casing, or an array with such a string among
      its elements; no other kind of value ever matches. */
  predicate FieldMatches(v: Value, needle: string)
  {
    match v
    case Str(s) => Includes(LowerCase(s), needle)
    case Arr(es) => exists i :: 0 <= i < |es| && es[i].Str? && Includes(LowerCase(es[i].s), needle)
    case _ => false
  }

  /** `filterData`: every row passes an empty search term; otherwise a row
      passes when one of its fields matches the lower-cased term. */
  predicate Matches(term: string, row: Row)
  {
    term == [] || exists key :: key in row && FieldMatches(row[key], LowerCase(term))
  }

  /** `data.filter(filterData)`. */
  function FilterData(data: seq<Row>, term: string): (r: seq<Row>)
    ensures |r| <= |data|
  {
    if data == [] then []
    else
      var rest := FilterData(data[..|data| - 1], term);
      if Matches(term, data[|data| - 1]) then rest + [data[|data| - 1]] else rest
  }

  /** Where each kept row sits in `data`: the kept rows are matching rows
      of `data`, in their original order. */
  function KeptIndices(data: seq<Row>, term: string): (idx: seq<nat>)
    ensures |idx| == |FilterData(data, term)|
    ensures forall i :: 0 <= i < |idx| ==>
      idx[i] < |data| && data[idx[i]] == FilterData(data, term)[i] && Matches(term, data[idx[i]])
    ensures forall i, j :: 0 <= i < j < |idx| ==> idx[i] < idx[j]
  {
    if data == [] then []
    else
      var init := data[..|data| - 1];
      var rest := KeptIndices(init, term);
      assert forall i :: 0 <= i < |init| ==> init[i] == data[i];
      if Matches(term, data[|data| - 1]) then rest + [|data| - 1] else rest
  }

  /** The filtered list is a subsequence of `data`. */
  lemma FilterIsSubsequence(data: seq<Row>, term: string)
    ensures exists idx: seq<nat> ::
      && |idx| == |FilterData(data, term)|
      && (forall i :: 0 <= i < |idx| ==> idx[i] < |data| && data[idx[i]] == FilterData(data, term)[i])
      && (forall i, j :: 0 <= i < j < |idx| ==> idx[i] < idx[j])
  {
    var idx := KeptIndices(data, term);
    assert forall i :: 0 <= i < |idx| ==> idx[i] < |data| && data[idx[i]] == FilterData(data, term)[i];
  }

  /** A row is kept exactly when it is in `data` and matches. */
  lemma {:induction false} FilterMembership(data: seq<Row>, term: string, row: Row)
    ensures row in FilterData(data, term) <==> row in data && Matches(term, row)
  {
    if data != [] {
      var init := data[..|data| - 1];
      FilterMembership(init, term, row);
      assert data == init + [data[|data| - 1]];
    }
  }

  /** With an empty search term every row passes, in its original order. */
  lemma {:induction false} FilterEmptyTerm(data: seq<Row>)
    ensures FilterData(data, "") == data
  {
    if data != [] {
      FilterEmptyTerm(data[..|data| - 1]);
      assert data == data[..|data| - 1] + [data[|data| - 1]];
    }
  }

  /** Filtering distributes over concatenation. */
  lemma {:induction false} FilterAppend(a: seq<Row>, b: seq<Row>, term: string)
    ensures FilterData(a + b, term) == FilterData(a, term) + FilterData(b, term)
    decreases |b|
  {
    if b == [] {
      assert a + b == a;
    } else {
      var init := b[..|b| - 1];
      assert (a + b)[..|a + b| - 1] == a + init;
      assert (a + b)[|a + b| - 1] == b[|b| - 1];
      FilterAppend(a, init, term);
    }
  }

  lemma LowerCaseIdempotent(s: string)
    ensures LowerCase(LowerCase(s)) == LowerCase(s)
  {
    var l := LowerCase(s);
    assert forall i :: 0 <= i < |l| ==> LowerChar(l[i]) == l[i];
  }

  /** The search is case-insensitive: two terms that lower-case alike keep
      the same rows; in particular a term and its lower-cased form do. */
  lemma {:induction false} FilterCaseInsensitive(data: seq<Row>, t1: string, t2: string)
    requires LowerCase(t1) == LowerCase(t2)
    ensures FilterData(data, t1) == FilterData(data, t2)
    ensures FilterData(data, t1) == FilterData(data, LowerCase(t1))
  {
    LowerCaseIdempotent(t1);
    if data != [] {
      FilterCaseInsensitive(data[..|data| - 1], t1, t2);
    }
  }

  // ---------------------------------------------------------------------
  // Sorting
  // ---------------------------------------------------------------------

  datatype Direction = Asc | Desc

  function Flip(d: Direction): Direction
  {
    if d == Asc then Desc else Asc
  }

  /** `sortData(a, b)`: 0 without a sort field; otherwise two strings
      compare by `localeCompare`, two numbers and two dates by their
      difference (reversed for `desc`), and any other pair as equal. */
  function Compare(sortField: Option<string>, dir: Direction, localeCompare: (string, string) -> int,
                   a: Row, b: Row): int
  {
    if sortField.None? || sortField.value == [] then 0
    else
      var x, y := FieldOf(a, sortField.value), FieldOf(b, sortField.value);
      if x.Str? && y.Str? then
        (if dir == Asc then localeCompare(x.s, y.s) else localeCompare(y.s, x.s))
      else if x.Num? && y.Num? then
        (if dir == Asc then x.n - y.n else y.n - x.n)
      else if x.Date? && y.Date? then
        (if dir == Asc then x.time - y.time else y.time - x.time)
      else 0
  }

  function Comparator(sortField: Option<string>, dir: Direction, localeCompare: (string, string) -> int)
    : (Row, Row) -> int
  {
    (a, b) => Compare(sortField, dir, localeCompare, a, b)
  }

  /** `processedData`: filter, then sort. */
  function ProcessedData(data: seq<Row>, term: string, sortField: Option<string>, dir: Direction,
                         localeCompare: (string, string) -> int): (r: seq<Row>)
    ensures |r| == |FilterData(data, term)|
  {
    Sort(FilterData(data, term), Comparator(sortField, dir, localeCompare))
  }

  /** Sorting only reorders the filtered rows. */
  lemma ProcessedPermutes(data: seq<Row>, term: string, sortField: Option<string>, dir: Direction,
                          localeCompare: (string, string) -> int)
    ensures multiset(ProcessedData(data, term, sortField, dir, localeCompare)) == multiset(FilterData(data, term))
  {
    SortPermutes(FilterData(data, term), Comparator(sortField, dir, localeCompare));
  }

  /** Without a sort field the filtered rows keep their original order. */
  lemma UnsortedKeepsOrder(data: seq<Row>, term: string, sortField: Option<string>, dir: Direction,
                           localeCompare: (string, string) -> int)
    requires sortField.None? || sortField.value == ""
    ensures ProcessedData(data, term, sortField, dir, localeCompare) == FilterData(data, term)
  {
    var cmp := Comparator(sortField, dir, localeCompare);
    assert forall a, b :: cmp(a, b) >= 0;
    SortUnchanged(FilterData(data, term), cmp);
  }

  /** The number in column `key` (0 where there is none). */
  function NumAt(row: Row, key: string): int
  {
    if FieldOf(row, key).Num? then FieldOf(row, key).n else 0
  }

  /** The sort key that `sortData` realises on a numeric column. */
  function NumKey(key: string, dir: Direction): Row -> int
  {
    if dir == Asc then (r: Row) => NumAt(r, key) else (r: Row) => -NumAt(r, key)
  }

  /** On rows that all hold a number in column `key`, the comparator is the
      difference of their `NumKey`s. */
  lemma NumericKeyed(xs: seq<Row>, key: string, dir: Direction, localeCompare: (string, string) -> int)
    requires key != ""
    requires forall r :: r in xs ==> FieldOf(r, key).Num?
    ensures KeyedOn(Comparator(Some(key), dir, localeCompare), NumKey(key, dir), xs)
  {
  }

  /** Sorting on a column that holds a number in every row orders the rows
      by that number: non-decreasing for `asc`, non-increasing for `desc`. */
  lemma NumericSorted(data: seq<Row>, term: string, key: string, dir: Direction,
                      localeCompare: (string, string) -> int)
    requires key != ""
    requires forall i :: 0 <= i < |FilterData(data, term)| ==> FieldOf(FilterData(data, term)[i], key).Num?
    ensures var p := ProcessedData(data, term, Some(key), dir, localeCompare);
      && (forall i :: 0 <= i < |p| ==> FieldOf(p[i], key).Num?)
      && (dir == Asc ==> forall i, j :: 0 <= i < j < |p| ==> NumAt(p[i], key) <= NumAt(p[j], key))
      && (dir == Desc ==> forall i, j :: 0 <= i < j < |p| ==> NumAt(p[i], key) >= NumAt(p[j], key))
  {
    var xs := FilterData(data, term);
    var cmp := Comparator(Some(key), dir, localeCompare);
    var p := Sort(xs, cmp);
    SortPermutes(xs, cmp);
    forall i | 0 <= i < |p| ensures FieldOf(p[i], key).Num? {
      assert p[i] in multiset(xs);
    }
    var k := NumKey(key, dir);
    NumericKeyed(xs, key, dir, localeCompare);
    SortSorted(xs, cmp, k);
    forall i, j | 0 <= i < j < |p|
      ensures dir == Asc ==> NumAt(p[i], key) <= NumAt(p[j], key)
      ensures dir == Desc ==> NumAt(p[i], key) >= NumAt(p[j], key)
    {
      assert k(p[i]) <= k(p[j]);
    }
  }

  /** The sort column and direction. */
  datatype SortState = SortState(field: Option<string>, direction: Direction)

  /** `handleSort(key)`: the current column flips its direction, any other
      column becomes the sort column in ascending order. */
  function Toggled(s: SortState, key: string): SortState
  {
    if s.field == Some(key) then SortState(s.field, Flip(s.direction)) else SortState(Some(key), Asc)
  }

  /** After a click the clicked column is the sort column; clicking it
      again flips the direction, so three clicks are the same as one; and
      moving to another column always starts ascending. */
  lemma ToggleLaws(s: SortState, key: string, other: string)
    ensures Toggled(s, key).field == Some(key)
    ensures Toggled(Toggled(s, key), key).direction == Flip(Toggled(s, key).direction)
    ensures Toggled(Toggled(Toggled(s, key), key), key) == Toggled(s, key)
    ensures other != key ==> Toggled(Toggled(s, key), other) == SortState(Some(other), Asc)
  {
  }

  // ---------------------------------------------------------------------
  // Pagination
  // ---------------------------------------------------------------------

  const ItemsPerPage: nat := 10

  /** `Math.ceil(n / itemsPerPage)`: the least page count whose pages hold
      `n` rows. */
  function TotalPages(n: nat): (r: nat)
    ensures r * ItemsPerPage >= n
    ensures r == 0 || (r - 1) * ItemsPerPage < n
  {
    (n + ItemsPerPage - 1) / ItemsPerPage
  }

  /** How `slice` resolves an index: negative counts from the end, and the
      result is clamped to `[0, len]`. */
  function SliceIndex(i: int, len: nat): (r: nat)
    ensures r <= len
  {
    if i < 0 then (if len + i < 0 then 0 else len + i) else if i > len then len else i
  }

  /** `s.slice(start, end)`. */
  function JsSlice<T>(s: seq<T>, start: int, end: int): seq<T>
  {
    var b, e := SliceIndex(start, |s|), SliceIndex(end, |s|);
    if b < e then s[b..e] else []
  }

  /** `currentData`: the rows of page `page`. For a page from 1 on these are
      the rows from `(page - 1) * itemsPerPage` on, as many as remain up to
      `itemsPerPage`. */
  function PageRows<T>(processed: seq<T>, page: int): (r: seq<T>)
    ensures |r| <= ItemsPerPage
    ensures page >= 1 ==>
      |r| == if |processed| <= (page - 1) * ItemsPerPage then 0
             else if |processed| - (page - 1) * ItemsPerPage < ItemsPerPage then |processed| - (page - 1) * ItemsPerPage
             else ItemsPerPage
    ensures page >= 1 ==> forall i :: 0 <= i < |r| ==>
      (page - 1) * ItemsPerPage + i < |processed| && r[i] == processed[(page - 1) * ItemsPerPage + i]
  {
    JsSlice(processed, (page - 1) * ItemsPerPage, page * ItemsPerPage)
  }

  /** Every row is shown on exactly one page within range: row `i` is entry
      `i % itemsPerPage` of page `i / itemsPerPage + 1`. */
  lemma PageOfRow<T>(processed: seq<T>, i: nat)
    requires i < |processed|
    ensures 1 <= i / ItemsPerPage + 1 <= TotalPages(|processed|)
    ensures i % ItemsPerPage < |PageRows(processed, i / ItemsPerPage + 1)|
    ensures PageRows(processed, i / ItemsPerPage + 1)[i % ItemsPerPage] == processed[i]
  {
    var page := i / ItemsPerPage + 1;
    assert (page - 1) * ItemsPerPage + i % ItemsPerPage == i;
  }

  function Max(a: int, b: int): int { if a < b then b else a }
  function Min(a: int, b: int): int { if a < b then a else b }

  /** The Previous button's update, `Math.max(1, p - 1)`. */
  function PrevPage(p: int): int { Max(1, p - 1) }

  /** The Next button's update, `Math.min(totalPages, p + 1)`. */
  function NextPage(totalPages: nat, p: int): int { Min(totalPages, p + 1) }

  /** With at least one page, both buttons keep the page within
      `[1, totalPages]`, moving by one page unless already at that end. */
  lemma PageClamps(totalPages: nat, p: int)
    requires 1 <= p <= totalPages
    ensures 1 <= PrevPage(p) <= totalPages && 1 <= NextPage(totalPages, p) <= totalPages
    ensures PrevPage(p) == if p == 1 then 1 else p - 1
    ensures NextPage(totalPages, p) == if p == totalPages then p else p + 1
  {
  }

  /** A page past the last one shows no rows, and Next would take it back
      to the last page; but Next is disabled there, and with at most one page
      neither button is on screen. */
  lemma PastLastPage<T>(processed: seq<T>, page: int)
    requires page >= 1 && page > TotalPages(|processed|)
    ensures PageRows(processed, page) == []
    ensures TotalPages(|processed|) >= 1 ==> NextPage(TotalPages(|processed|), page) == TotalPages(|processed|)
  {
  }

  // ---------------------------------------------------------------------
  // The component's state
  // ---------------------------------------------------------------------

  /** One mounted table: the `data` prop of the latest render, the locale's
      string order, and the search, sort and page state. */
  class TableView {
    var data: seq<Row>
    const localeCompare: (string, string) -> int
    var searchTerm: string
    var sortField: Option<string>
    var sortDirection: Direction
    var currentPage: int

    function Processed(): seq<Row>
      reads this`data, this`searchTerm, this`sortField, this`sortDirection
    {
      ProcessedData(data, searchTerm, sortField, sortDirection, localeCompare)
    }

    function PageCount(): nat
      reads this`data, this`searchTerm, this`sortField, this`sortDirection
    {
      TotalPages(|Processed()|)
    }

    /** The rows on display. */
    function CurrentData(): seq<Row>
      reads this`data, this`searchTerm, this`sortField, this`sortDirection, this`currentPage
    {
      PageRows(Processed(), currentPage)
    }

    /** The page is never below 1. */
    ghost predicate Valid()
      reads this`currentPage
    {
      1 <= currentPage
    }

    /** The page is not past the last page when there is one. A new `data`
        prop can break this (`SetData`), and a page past the last shows no
        rows (`PastLastPage`). `SetSearchTerm` and `Next` re-establish it;
        `Previous` and `HandleSort` preserve it. In the source Next is
        disabled on such a page, and Previous steps back towards the last
        page. */
    ghost predicate OnAPage()
      reads this`data, this`searchTerm, this`sortField, this`sortDirection, this`currentPage
    {
      currentPage <= Max(1, PageCount())
    }

    /** The initial state: no search, no sort column, `desc`, page 1; so
        the whole of `data` is on display in its original order. */
    constructor(data: seq<Row>, localeCompare: (string, string) -> int)
      ensures this.data == data && this.localeCompare == localeCompare
      ensures searchTerm == "" && sortField == None && sortDirection == Desc && currentPage == 1
      ensures Valid() && OnAPage()
      ensures Processed() == data
    {
      this.data := data;
      this.localeCompare := localeCompare;
      searchTerm := "";
      sortField := None;
      sortDirection := Desc;
      currentPage := 1;
      new;
      FilterEmptyTerm(data);
      UnsortedKeepsOrder(data, "", None, Desc, localeCompare);
    }

    /** A render with a new `data` prop. React keeps the mounted
        component's state, so the search, the sort and the page stay as
        they were. */
    method SetData(newData: seq<Row>)
      requires Valid()
      modifies this`data
      ensures data == newData && currentPage == old(currentPage)
      ensures Valid()
    {
      data := newData;
    }

    /** `handleSort(key)`; the page stays where it is, and so does the
        number of pages. */
    method HandleSort(key: string)
      requires Valid()
      modifies this`sortField, this`sortDirection
      ensures SortState(sortField, sortDirection) == Toggled(SortState(old(sortField), old(sortDirection)), key)
      ensures PageCount() == old(PageCount())
      ensures Valid() && (old(OnAPage()) ==> OnAPage())
    {
      if sortField == Some(key) {
        sortDirection := if sortDirection == Asc then Desc else Asc;
      } else {
        sortField := Some(key);
        sortDirection := Asc;
      }
    }

    /** The search box's `onChange`: a new term, back to page 1. */
    method SetSearchTerm(term: string)
      modifies this`searchTerm, this`currentPage
      ensures searchTerm == term && currentPage == 1
      ensures Valid() && OnAPage()
    {
      searchTerm := term;
      currentPage := 1;
    }

    /** The Previous button. */
    method Previous()
      requires Valid()
      modifies this`currentPage
      ensures currentPage == PrevPage(old(currentPage))
      ensures Valid() && (old(OnAPage()) ==> OnAPage())
    {
      currentPage := Max(1, currentPage - 1);
    }

    /** The Next button, which is only on screen when there are pages. From
        any page, even one a new `data` left past the end, it lands on a
        page that exists. */
    method Next()
      requires Valid() && PageCount() >= 1
      modifies this`currentPage
      ensures currentPage == NextPage(PageCount(), old(currentPage))
      ensures Valid() && OnAPage()
    {
      currentPage := Min(PageCount(), currentPage + 1);
    }
  }
}
