/** The page arithmetic the list endpoints share: `offset = (page - 1) *
    page_size`, the database's `OFFSET ... LIMIT ...`, and
    `math.ceil(total / page_size)` for the page count. */
module Paging {

  /** `OFFSET offset LIMIT limit` as SQLite applies it: a negative offset
      counts as 0 and a negative limit means no limit. */
  function PageSlice<T>(xs: seq<T>, offset: int, limit: int): (r: seq<T>)
    ensures limit >= 0 ==> |r| <= limit
    ensures offset >= 0 ==> forall i :: 0 <= i < |r| ==> offset + i < |xs| && r[i] == xs[offset + i]
    ensures offset >= 0 && limit >= 0 ==> |r| == if offset + limit <= |xs| then limit
                                                 else if offset <= |xs| then |xs| - offset else 0
  {
    var o := if offset < 0 then 0 else if offset > |xs| then |xs| else offset;
    var rest := xs[o..];
    if limit < 0 || limit >= |rest| then rest else rest[..limit]
  }

  /** `ORDER BY created_at DESC` over rows kept in insertion order: the
      newest row first. */
  function NewestFirst<T>(xs: seq<T>): (r: seq<T>)
    ensures |r| == |xs|
    ensures forall i :: 0 <= i < |xs| ==> r[i] == xs[|xs| - 1 - i]
  {
    if xs == [] then [] else [xs[|xs| - 1]] + NewestFirst(xs[..|xs| - 1])
  }

  /** The offset of a 1-based page. */
  function PageOffset(page: int, pageSize: int): int {
    (page - 1) * pageSize
  }

  /** `math.ceil(total / page_size)` for a positive page size. */
  function PageCount(total: nat, pageSize: int): (n: nat)
    requires pageSize >= 1
    ensures n * pageSize >= total
    ensures n == 0 || (n - 1) * pageSize < total
  {
    (total + pageSize - 1) / pageSize
  }

  /** Two consecutive windows read one longer window: pages tile the list. */
  lemma PagesTile<T>(xs: seq<T>, offset: nat, a: nat, b: nat)
    ensures PageSlice(xs, offset, a) + PageSlice(xs, offset + a, b) == PageSlice(xs, offset, a + b)
  {
  }

  lemma MulMonotone(a: int, b: int, c: nat)
    requires a <= b
    ensures a * c <= b * c
  {
    var d: nat := b - a;
    assert b * c == a * c + d * c;
  }

  /** Page `p` (from 1) holds items iff `p` is at most the page count. */
  lemma PageNonEmptyIffCounted<T>(xs: seq<T>, page: int, pageSize: int)
    requires page >= 1 && pageSize >= 1
    ensures PageSlice(xs, PageOffset(page, pageSize), pageSize) != [] <==> page <= PageCount(|xs|, pageSize)
  {
    var n := PageCount(|xs|, pageSize);
    var off := PageOffset(page, pageSize);
    MulMonotone(0, page - 1, pageSize);
    if page <= n {
      MulMonotone(page - 1, n - 1, pageSize);
      assert off < |xs|;
    } else {
      MulMonotone(n, page - 1, pageSize);
      assert off >= |xs|;
    }
  }

  /** The item at index `j` is on page `j / pageSize + 1`, at position
      `j % pageSize`. */
  lemma ItemOnItsPage<T>(xs: seq<T>, j: nat, pageSize: int)
    requires j < |xs| && pageSize >= 1
    ensures var page := j / pageSize + 1;
      var r := PageSlice(xs, PageOffset(page, pageSize), pageSize);
      j % pageSize < |r| && r[j % pageSize] == xs[j]
  {
    var page := j / pageSize + 1;
    assert PageOffset(page, pageSize) == (j / pageSize) * pageSize;
    assert (j / pageSize) * pageSize + j % pageSize == j;
  }
}
