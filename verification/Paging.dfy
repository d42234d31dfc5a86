/** The repository list: fetched page by page, filtered, and served in pages of the caller's size. */
module Paging {
  import opened Basics

  const MAX_PAGES := 5
  const PER_PAGE := 100

  // ---- Fetching ---------------------------------------------------------------------------------------------

  /** Page `page`, counted from 1, of a list that does not change while it is read. */
  function RemotePage<T>(all: seq<T>, page: nat): seq<T>
    requires page >= 1
  {
    var start := (page - 1) * PER_PAGE;
    if start >= |all| then [] else all[start..Min(start + PER_PAGE, |all|)]
  }

  function Prefix<T>(all: seq<T>, n: nat): seq<T> {
    if n >= |all| then all else all[..n]
  }

  /** The loop's progress: after `k` full pages it holds the first `k` pages' worth. */
  lemma PrefixGrows<T>(all: seq<T>, k: nat)
    requires k * PER_PAGE <= |all|
    ensures var batch := RemotePage(all, k + 1);
            && Prefix(all, k * PER_PAGE) + batch == Prefix(all, (k + 1) * PER_PAGE)
            && (|batch| == PER_PAGE ==> (k + 1) * PER_PAGE <= |all|)
            && (|batch| < PER_PAGE ==> Prefix(all, k * PER_PAGE) + batch == all)
            && |batch| <= PER_PAGE
  {
  }

  /**
   * `fetchAllRepos` against a server that fails on the pages in `failing`. The whole list comes back up to
   * five pages of a hundred, in as few requests as tell that there is no more.
   */
  method FetchAll<T>(all: seq<T>, failing: set<nat>) returns (r: Option<seq<T>>, requests: nat)
    ensures requests == Min(5, |all| / 100 + 1) || r.None?
    ensures 1 <= requests <= 5
    ensures r.None? <==> requests in failing
    ensures forall page :: 1 <= page < requests ==> page !in failing
    ensures r.Some? ==> r.value == if |all| <= 500 then all else all[..500]
  {
    var fetched: seq<T> := [];
    requests := 0;
    for page := 1 to MAX_PAGES + 1
      invariant requests == page - 1 && requests * PER_PAGE <= |all|
      invariant fetched == Prefix(all, requests * PER_PAGE)
      invariant forall p :: 1 <= p <= requests ==> p !in failing
    {
      requests := page;
      if page in failing {
        return None, requests;
      }
      var batch := RemotePage(all, page);
      PrefixGrows(all, page - 1);
      fetched := fetched + batch;
      if |batch| < PER_PAGE {
        return Some(fetched), requests;
      }
    }
    r := Some(fetched);
  }

  // ---- Filtering --------------------------------------------------------------------------------------------

  function Filter<T>(all: seq<T>, keep: T -> bool): seq<T> {
    if all == [] then [] else Filter(all[..|all| - 1], keep) + if keep(all[|all| - 1]) then [all[|all| - 1]] else []
  }

  // ---- Serving pages ----------------------------------------------------------------------------------------

  datatype Page<T> = Page(items: seq<T>, page: int, pageSize: int, total: nat, totalPages: int, hasNext: bool,
                          hasPrev: bool)

  /** `Math.ceil(a / b)` */
  function CeilDiv(a: nat, b: nat): nat
    requires b > 0
  {
    (a + b - 1) / b
  }

  function TotalPages(total: nat, size: nat): nat
    requires size > 0
  {
    Max(1, CeilDiv(total, size))
  }

  /** JavaScript's `slice` with non-negative bounds. */
  function Slice<T>(s: seq<T>, from: nat, to: nat): seq<T>
    requires from <= to
  {
    s[Min(from, |s|)..Min(to, |s|)]
  }

  function Paginate<T>(all: seq<T>, page: int, size: nat): Page<T>
    requires size > 0
  {
    var pages := TotalPages(|all|, size);
    var current: nat := Min(Max(page, 1), pages);
    var start := (current - 1) * size;
    Page(Slice(all, start, start + size), current, size, |all|, pages, current < pages, current > 1)
  }

  /** The last page is the one that reaches the end of the list, and it is not empty unless the list is. */
  lemma LastPageReachesTheEnd(total: nat, size: nat)
    requires size > 0
    ensures (TotalPages(total, size) - 1) * size <= total <= TotalPages(total, size) * size
    ensures total > 0 ==> (TotalPages(total, size) - 1) * size < total
  {
    var q, r := (total + size - 1) / size, (total + size - 1) % size;
    assert total + size - 1 == q * size + r;
    if q == 0 {
      assert q * size == 0;
    } else {
      assert q * size == (q - 1) * size + size;
    }
  }

  lemma MulMonotone(a: nat, b: nat, c: nat)
    requires a <= b
    ensures a * c <= b * c
  {
    assert b * c == a * c + (b - a) * c;
  }

  /** A page in range holds the items of its stretch of the list, a full one unless it is the last. */
  lemma PageItems<T>(all: seq<T>, page: nat, size: nat)
    requires size > 0 && 1 <= page <= TotalPages(|all|, size)
    ensures var p, start := Paginate(all, page, size), (page - 1) * size;
            && p.page == page && p.hasNext == (page < p.totalPages)
            && start <= |all| && start + size == page * size
            && (p.hasNext ==> page * size < |all| && p.items == all[start..page * size])
            && (!p.hasNext ==> p.items == all[start..])
  {
    var pages := TotalPages(|all|, size);
    LastPageReachesTheEnd(|all|, size);
    assert page * size == (page - 1) * size + size;
    MulMonotone(page - 1, pages - 1, size);
    if page < pages {
      MulMonotone(page, pages - 1, size);
    }
  }

  lemma PageSizes<T>(all: seq<T>, page: nat, size: nat)
    requires size > 0 && 1 <= page <= TotalPages(|all|, size)
    ensures var p := Paginate(all, page, size);
            (all != [] ==> p.items != []) && |p.items| <= size && (p.hasNext ==> |p.items| == size)
  {
    PageItems(all, page, size);
    LastPageReachesTheEnd(|all|, size);
  }

  /** A page number out of range, either way, is served as the nearest real page, and the flags tell which exist. */
  lemma OutOfRangePagesAreClamped<T>(all: seq<T>, page: int, size: nat)
    requires size > 0
    ensures var p := Paginate(all, page, size);
            && 1 <= p.page <= p.totalPages && p.total == |all| && p.pageSize == size
            && p == Paginate(all, p.page, size)
            && (p.page == page <==> 1 <= page <= p.totalPages)
            && (page < 1 ==> p.page == 1) && (page > p.totalPages ==> p.page == p.totalPages)
            && (all != [] ==> p.items != []) && |p.items| <= size && (p.hasNext ==> |p.items| == size)
            && (p.hasNext <==> p.page < p.totalPages) && (p.hasPrev <==> p.page > 1)
  {
    var current: nat := Min(Max(page, 1), TotalPages(|all|, size));
    assert Paginate(all, page, size) == Paginate(all, current, size);
    PageSizes(all, current, size);
  }

  /** The items met by following `hasNext` from a page on. */
  function Walk<T>(all: seq<T>, page: nat, size: nat): seq<T>
    requires size > 0 && 1 <= page <= TotalPages(|all|, size)
    decreases TotalPages(|all|, size) - page
  {
    var p := Paginate(all, page, size);
    if p.hasNext then p.items + Walk(all, page + 1, size) else p.items
  }

  lemma {:induction false} WalkFrom<T>(all: seq<T>, page: nat, size: nat)
    requires size > 0 && 1 <= page <= TotalPages(|all|, size)
    ensures (page - 1) * size <= |all| && Walk(all, page, size) == all[(page - 1) * size..]
    decreases TotalPages(|all|, size) - page
  {
    PageItems(all, page, size);
    if page < TotalPages(|all|, size) {
      WalkFrom(all, page + 1, size);
      var from, to := (page - 1) * size, page * size;
      assert all[from..to] + all[to..] == all[from..];
    }
  }

  /** Following `hasNext` from page 1 ends and meets every item once, in order. */
  lemma WalkMeetsEverything<T>(all: seq<T>, size: nat)
    requires size > 0
    ensures Walk(all, 1, size) == all
  {
    WalkFrom(all, 1, size);
    assert all[0..] == all;
  }

  // ---- The repository list ----------------------------------------------------------------------------------

  datatype Repo = Repo(id: nat, name: string)

  /** The user's own repositories, without the profile repository; names compare in lower case. */
  function OwnRepos(remote: seq<Repo>, lower: string -> string, login: Option<string>): seq<Repo> {
    Filter(Prefix(remote, MAX_PAGES * PER_PAGE), (r: Repo) => login.None? || lower(r.name) != lower(login.value))
  }

  /** Filtering keeps order: the filter of a join is the join of the filters. */
  lemma {:induction false} FilterJoins<T>(a: seq<T>, b: seq<T>, keep: T -> bool)
    ensures Filter(a + b, keep) == Filter(a, keep) + Filter(b, keep)
    decreases |b|
  {
    if b == [] {
      assert a + b == a;
    } else {
      var init, last := b[..|b| - 1], b[|b| - 1];
      FilterJoins(a, init, keep);
      assert (a + b)[..|a + b| - 1] == a + init;
    }
  }

  lemma {:induction false} FilterKeepsExactly<T>(all: seq<T>, keep: T -> bool, x: T)
    ensures multiset(Filter(all, keep))[x] == if keep(x) then multiset(all)[x] else 0
  {
    if all != [] {
      var init, last := all[..|all| - 1], all[|all| - 1];
      FilterKeepsExactly(init, keep, x);
      assert all == init + [last];
    }
  }

  /**
   * Walking the pages of the list meets, among the first five hundred repositories the server gives, each one that is
   * not the profile repository as often as the server gave it, and the profile repository never.
   */
  lemma EveryRepoIsListedOnce(remote: seq<Repo>, lower: string -> string, login: Option<string>, size: nat, repo: Repo)
    requires size > 0
    ensures var walked := Walk(OwnRepos(remote, lower, login), 1, size);
            multiset(walked)[repo] ==
              if login.Some? && lower(repo.name) == lower(login.value) then 0
              else multiset(if |remote| <= 500 then remote else remote[..500])[repo]
  {
    WalkMeetsEverything(OwnRepos(remote, lower, login), size);
    FilterKeepsExactly(Prefix(remote, MAX_PAGES * PER_PAGE),
                       (r: Repo) => login.None? || lower(r.name) != lower(login.value), repo);
  }
}
