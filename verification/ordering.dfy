/** What the database does for `ORDER BY key DESC` and for Flask-SQLAlchemy's
    `paginate(page, per_page, error_out=False)`. */
module Ordering {

  ghost predicate SortedDesc<T>(s: seq<T>, key: T -> int) {
    forall i, j :: 0 <= i < j < |s| ==> key(s[i]) >= key(s[j])
  }

  /** Puts `x` in front of the first element whose key is not larger. */
  function InsertDesc<T>(x: T, s: seq<T>, key: T -> int): (r: seq<T>)
    requires SortedDesc(s, key)
    ensures |r| == |s| + 1
    ensures multiset(r) == multiset(s) + multiset{x}
    ensures SortedDesc(r, key)
  {
    if s == [] || key(x) >= key(s[0]) then
      [x] + s
    else
      var rest := InsertDesc(x, s[1..], key);
      assert forall k :: 0 <= k < |rest| ==> key(rest[k]) <= key(s[0]) by {
        forall k | 0 <= k < |rest| ensures key(rest[k]) <= key(s[0]) {
          assert rest[k] in multiset(rest);
          if rest[k] != x {
            assert rest[k] in multiset(s[1..]);
            var m :| 0 <= m < |s[1..]| && s[1..][m] == rest[k];
            assert s[m + 1] == rest[k];
          }
        }
      }
      assert s == [s[0]] + s[1..];
      [s[0]] + rest
  }

  /** The rows in descending key order: a permutation of `s` that is sorted. */
  function SortDesc<T>(s: seq<T>, key: T -> int): (r: seq<T>)
    ensures |r| == |s|
    ensures multiset(r) == multiset(s)
    ensures SortedDesc(r, key)
  {
    if s == [] then []
    else
      assert s == [s[0]] + s[1..];
      InsertDesc(s[0], SortDesc(s[1..], key), key)
  }

  /** Flask-SQLAlchemy replaces a page number below 1 by 1 when `error_out` is off. */
  function EffectivePage(page: int): (p: int)
    ensures p >= 1
    ensures page >= 1 ==> p == page
  {
    if page < 1 then 1 else page
  }

  /** ... and a page size below 1 by its default of 20. */
  function EffectivePerPage(perPage: int): (n: int)
    ensures n >= 1
    ensures perPage >= 1 ==> n == perPage
  {
    if perPage < 1 then 20 else perPage
  }

  /** `Pagination.pages`: the number of pages needed for `total` rows. */
  function PageCount(total: nat, perPage: int): (n: nat)
    requires perPage >= 1
    ensures n == 0 <==> total == 0
    ensures n * perPage >= total
    ensures n > 0 ==> (n - 1) * perPage < total
  {
    var n := (total + perPage - 1) / perPage;
    assert n * perPage + (total + perPage - 1) % perPage == total + perPage - 1;
    n
  }

  /** `Pagination.items`: the rows `LIMIT per_page OFFSET (page - 1) * per_page`. */
  function PageItems<T>(s: seq<T>, page: int, perPage: int): (r: seq<T>)
    requires page >= 1 && perPage >= 1
    ensures var lo := (page - 1) * perPage;
      && |r| == (if lo >= |s| then 0 else if lo + perPage <= |s| then perPage else |s| - lo)
      && forall k :: 0 <= k < |r| ==> r[k] == s[lo + k]
  {
    var lo := (page - 1) * perPage;
    if lo >= |s| then []
    else if lo + perPage <= |s| then s[lo..lo + perPage]
    else s[lo..]
  }

  /** A page of a sorted listing holds rows of that listing, still sorted. */
  lemma PageOfSorted<T>(s: seq<T>, page: int, perPage: int, key: T -> int)
    requires page >= 1 && perPage >= 1 && SortedDesc(s, key)
    ensures forall x :: x in PageItems(s, page, perPage) ==> x in s
    ensures SortedDesc(PageItems(s, page, perPage), key)
  {
    var r := PageItems(s, page, perPage);
    var lo := (page - 1) * perPage;
    forall x | x in r ensures x in s {
      var k :| 0 <= k < |r| && r[k] == x;
      assert s[lo + k] == x;
    }
  }

  /** Every row sits on exactly one page: row `k` is item `k % per_page` of page
      `k / per_page + 1`, and the pages up to `PageCount` cover all rows. */
  lemma PageHolds<T>(s: seq<T>, perPage: int, k: nat)
    requires perPage >= 1 && k < |s|
    ensures k / perPage + 1 <= PageCount(|s|, perPage)
    ensures k % perPage < |PageItems(s, k / perPage + 1, perPage)|
    ensures PageItems(s, k / perPage + 1, perPage)[k % perPage] == s[k]
  {
    var q, m := k / perPage, k % perPage;
    assert q * perPage + m == k && 0 <= m < perPage;
    var n := PageCount(|s|, perPage);
    if n <= q {
      MulMono(n, q, perPage);
      assert false;
    }
    var lo := (q + 1 - 1) * perPage;
    assert lo == q * perPage;
    var r := PageItems(s, q + 1, perPage);
    assert lo + m == k;
    assert m < |r|;
  }

  lemma MulMono(a: int, b: int, c: int)
    requires a <= b && c >= 0
    ensures a * c <= b * c
  {
  }
}
