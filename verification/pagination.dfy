/** The skip/limit window shared by the paginated listings of both stores:
    `skip = (page - 1) * limit`, `pages = ceil(total / limit)`. */
module Pagination {
  import opened Basics
  import opened Seqs
  import opened Sorting

  /** The `page` and `limit` listing options; `limit` is at least 1. */
  datatype PageOptions = PageOptions(page: int, limit: int)

  /** Page 1 with a limit of 10: the defaults of every paginated listing. */
  const DefaultOptions := PageOptions(1, 10)

  /** One page of a listing: the window of documents, the number of documents
      matching the filter, the requested page number and the page count. */
  datatype Page<T> = Page(docs: seq<T>, total: nat, page: int, pages: nat)

  /** Documents skipped before the window starts. */
  function Skip(opts: PageOptions): int
  {
    (opts.page - 1) * opts.limit
  }

  /** The total divided by the limit, rounded up: the fewest pages of `limit` documents holding `total`. */
  function PageCount(total: nat, limit: int): (pages: nat)
    requires limit >= 1
    ensures pages * limit >= total
    ensures pages == 0 || (pages - 1) * limit < total
    ensures pages == 0 <==> total == 0
  {
    if total % limit == 0 then total / limit else total / limit + 1
  }

  /** How many documents a page shows out of `n`: none once the skip passes
      the end, the remainder on the last page, `limit` before it. */
  function WindowLength(n: nat, opts: PageOptions): nat
    requires opts.limit >= 1
  {
    if Skip(opts) >= n then 0
    else if n - Skip(opts) < opts.limit then n - Skip(opts)
    else opts.limit
  }

  /** `r` is page `opts.page` of `listing`: pages below 1 fail; otherwise the
      page counts the whole listing, echoes the page number, and shows the
      run of `WindowLength` documents that starts `Skip(opts)` entries into
      the listing. */
  ghost predicate IsPageOf<T>(r: Result<Page<T>>, listing: seq<T>, opts: PageOptions)
    requires opts.limit >= 1
  {
    && (r.Failure? <==> opts.page < 1)
    && (r.Success? ==>
          && r.value.total == |listing|
          && r.value.page == opts.page
          && r.value.pages == PageCount(|listing|, opts.limit)
          && |r.value.docs| == WindowLength(|listing|, opts)
          && (forall k :: 0 <= k < |r.value.docs| ==>
                0 <= Skip(opts) + k < |listing| && r.value.docs[k] == listing[Skip(opts) + k]))
  }

  /** The skip and limit applied to the sorted matching documents, with the
      count of all matches. A page below 1 makes the skip negative, which the
      database rejects. */
  function Paginate<T>(matching: seq<T>, opts: PageOptions): (r: Result<Page<T>>)
    requires opts.limit >= 1
    ensures IsPageOf(r, matching, opts)
    ensures r.Failure? ==> r.error == NegativeSkip
    ensures r.Success? ==> |r.value.docs| <= opts.limit
    ensures r.Success? && opts.page > r.value.pages ==> r.value.docs == []
  {
    if opts.page < 1 then
      MulMonotone(opts.page - 1, -1, opts.limit);
      Failure(NegativeSkip)
    else
      var skip := Skip(opts);
      MulMonotone(0, opts.page - 1, opts.limit);
      var pages := PageCount(|matching|, opts.limit);
      var lo := if skip < |matching| then skip else |matching|;
      var hi := if skip + opts.limit < |matching| then skip + opts.limit else |matching|;
      assert opts.page > pages ==> lo == hi by {
        if opts.page > pages {
          MulMonotone(pages, opts.page - 1, opts.limit);
        }
      }
      Success(Page(matching[lo..hi], |matching|, opts.page, pages))
  }

  /** Multiplying by a positive factor keeps order. */
  lemma MulMonotone(a: int, b: int, c: int)
    requires a <= b && c >= 1
    ensures a * c <= b * c
  {
    assert b * c - a * c == (b - a) * c;
  }

  /** Every matching document lies on some page no later than the last:
      the document at position `i` is entry `i % limit` of page `i / limit + 1`. */
  lemma PageOfIndex<T>(matching: seq<T>, limit: int, i: nat)
    requires limit >= 1 && i < |matching|
    ensures var r := Paginate(matching, PageOptions(i / limit + 1, limit));
      && r.Success?
      && r.value.page <= r.value.pages
      && i % limit < |r.value.docs|
      && r.value.docs[i % limit] == matching[i]
  {
    var opts := PageOptions(i / limit + 1, limit);
    assert Skip(opts) == (i / limit) * limit;
    assert Skip(opts) + i % limit == i;
    var pages := PageCount(|matching|, limit);
    if i / limit + 1 > pages {
      MulMonotone(pages, i / limit, limit);
      assert false;
    }
  }

  /** A page of a sorted listing is sorted. */
  lemma PageSorted<T>(sorted: seq<T>, key: T -> int, opts: PageOptions)
    requires opts.limit >= 1 && SortedDesc(sorted, key)
    ensures var r := Paginate(sorted, opts);
      r.Success? ==> SortedDesc(r.value.docs, key)
  {
    var r := Paginate(sorted, opts);
    if r.Success? {
      var docs := r.value.docs;
      var skip := Skip(opts);
      forall i, j | 0 <= i < j < |docs| ensures key(docs[i]) >= key(docs[j]) {
        assert docs[i] == sorted[skip + i] && docs[j] == sorted[skip + j];
      }
    }
  }

  /** A page holds only entries of the listing. */
  lemma PageMembers<T>(matching: seq<T>, opts: PageOptions)
    requires opts.limit >= 1
    ensures var r := Paginate(matching, opts);
      r.Success? ==> forall k :: 0 <= k < |r.value.docs| ==> r.value.docs[k] in multiset(matching)
  {
    var r := Paginate(matching, opts);
    if r.Success? {
      forall k | 0 <= k < |r.value.docs| ensures r.value.docs[k] in multiset(matching) {
        assert r.value.docs[k] == matching[Skip(opts) + k];
      }
    }
  }

  /** A page of a filtered, sorted listing is sorted and holds only stored
      documents that pass the filter. */
  lemma SortedListing<T(!new)>(all: seq<T>, p: T -> bool, key: T -> int, opts: PageOptions)
    requires opts.limit >= 1
    ensures var r := Paginate(SortDesc(Filter(all, p), key), opts);
      r.Success? ==>
        && SortedDesc(r.value.docs, key)
        && forall k :: 0 <= k < |r.value.docs| ==> r.value.docs[k] in all && p(r.value.docs[k])
  {
    var m := Filter(all, p);
    var sorted := SortDesc(m, key);
    PageSorted(sorted, key, opts);
    PageMembers(sorted, opts);
    var r := Paginate(sorted, opts);
    if r.Success? {
      forall k | 0 <= k < |r.value.docs| ensures r.value.docs[k] in all && p(r.value.docs[k]) {
        assert r.value.docs[k] in multiset(m);
        assert r.value.docs[k] in m;
      }
    }
  }
}
