/** Queries over a table kept as its rows in insertion order: a query's
    `.first()`, a filtered `.all()`, and one page of the newest matches. */
module Rows {
  import opened Wrappers
  import opened Paging

  /** The index of the first row satisfying `p`. */
  function FirstWhere<T>(rows: seq<T>, p: T -> bool): (r: Option<nat>)
    ensures r.Some? ==> r.value < |rows| && p(rows[r.value]) && forall j :: 0 <= j < r.value ==> !p(rows[j])
    ensures r.None? ==> forall j :: 0 <= j < |rows| ==> !p(rows[j])
  {
    if rows == [] then None
    else if p(rows[0]) then Some(0)
    else match FirstWhere(rows[1..], p)
      case None => None
      case Some(i) => Some(i + 1)
  }

  /** The rows satisfying `p`, in table order. */
  function Filter<T(!new)>(rows: seq<T>, p: T -> bool): (r: seq<T>)
    ensures |r| <= |rows|
    ensures forall x :: x in r <==> x in rows && p(x)
  {
    if rows == [] then []
    else (if p(rows[0]) then [rows[0]] else []) + Filter(rows[1..], p)
  }

  /** Every row on a page of the newest matches is a match, and a page of
      a positive size is never longer than that size. */
  lemma PageOfMatches<T(!new)>(rows: seq<T>, p: T -> bool, page: int, pageSize: int)
    requires page >= 1 && pageSize >= 1
    ensures var r := PageSlice(NewestFirst(Filter(rows, p)), PageOffset(page, pageSize), pageSize);
      |r| <= pageSize && forall x :: x in r ==> x in rows && p(x)
  {
    var matches := Filter(rows, p);
    var newest := NewestFirst(matches);
    var off := PageOffset(page, pageSize);
    MulMonotone(0, page - 1, pageSize);
    var r := PageSlice(newest, off, pageSize);
    forall x | x in r ensures x in matches {
      var k :| 0 <= k < |r| && r[k] == x;
      assert newest[off + k] == matches[|matches| - 1 - (off + k)];
    }
  }

  /** The first page of a size no smaller than the match count holds every
      match. */
  lemma FirstPageHoldsAll<T(!new)>(rows: seq<T>, p: T -> bool, pageSize: int)
    requires pageSize >= |Filter(rows, p)|
    ensures forall x :: x in rows && p(x) ==> x in PageSlice(NewestFirst(Filter(rows, p)), PageOffset(1, pageSize), pageSize)
  {
    var matches := Filter(rows, p);
    var newest := NewestFirst(matches);
    assert PageSlice(newest, PageOffset(1, pageSize), pageSize) == newest;
    forall x | x in matches ensures x in newest {
      var k :| 0 <= k < |matches| && matches[k] == x;
      assert newest[|matches| - 1 - k] == x;
    }
  }
}
