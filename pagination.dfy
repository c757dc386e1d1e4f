/** `PaginationFixMixin.get`: a read that asks for a page past the end is redirected to the last
    page of the (possibly filtered) records, with every other query parameter kept. */
module Pagination {
  import opened Wrappers
  import opened Text
  import opened Http

  /** What `super().get` can raise: the two exceptions the mixin catches, and any other. */
  datatype ReadError = EmptyPage | NotFound | OtherError

  /** `get_filterset(filterset_class)` when the view has both attributes: absent, raising, or a
      filterset that is valid or not, with the number of records it selects. */
  datatype FiltersetState = NoFilterset | FiltersetRaises | Filterset(valid: bool, count: nat)

  /** What the mixin recounts after a failed read: the number of records of `get_queryset()`
      (`None` when it raises), the filterset, and `paginate_by` (`None` when unset). */
  datatype Recount = Recount(queryset: Option<nat>, filterset: FiltersetState, paginateBy: Option<int>)

  /** Python's `math.ceil(n / d)`. */
  function CeilDiv(n: nat, d: int): (q: int)
    requires d != 0
    ensures d > 0 ==> q >= 0 && (q - 1) * d < n <= q * d
    ensures d < 0 ==> q <= 0
  {
    if d > 0 then (n + d - 1) / d else -(n / -d)
  }

  /** The number of records handed to `Paginator`: the filterset's when it is valid, else the
      whole queryset's; `None` when a step raises. */
  function RecountedTotal(rc: Recount): Option<nat> {
    match rc.queryset
    case None => None
    case Some(all) =>
      match rc.filterset
      case NoFilterset => Some(all)
      case FiltersetRaises => None
      case Filterset(valid, filtered) => Some(if valid then filtered else all)
  }

  /** `Paginator(queryset, paginate_by).num_pages` as `ceil(count / per_page)`; `None` when
      `int(per_page)` or the division raises. */
  function NumPages(count: nat, perPage: Option<int>): Option<int> {
    if perPage.None? || perPage.value == 0 then None else Some(CeilDiv(count, perPage.value))
  }

  function Max(a: int, b: int): int { if a < b then b else a }

  /** Lines 128-145: the page the mixin redirects to. The number of pages when it is positive,
      else 1; 1 as well when anything in the recount raises. */
  function TargetPage(rc: Recount): (page: nat)
    ensures 1 <= page
    ensures RecountedTotal(rc).Some? && rc.paginateBy.Some? && rc.paginateBy.value > 0 ==>
      page <= Max(1, CeilDiv(RecountedTotal(rc).value, rc.paginateBy.value))
    ensures RecountedTotal(rc).None? || NumPages(RecountedTotal(rc).value, rc.paginateBy).None? ==> page == 1
    ensures RecountedTotal(rc).Some? && rc.paginateBy.Some? && rc.paginateBy.value < 0 ==> page == 1
  {
    match RecountedTotal(rc)
    case None => 1
    case Some(total) =>
      match NumPages(total, rc.paginateBy)
      case None => 1
      case Some(totalPages) => if totalPages > 0 then totalPages else 1
  }

  /** The number of pages Django's `Paginator` reports with its defaults (no orphans, an empty
      first page allowed): the records counted as at least one. */
  function DjangoNumPages(count: nat, perPage: int): int
    requires perPage > 0
  {
    CeilDiv(Max(1, count), perPage)
  }

  /** When the recount succeeds, the target is the last page that exists, and it holds at least
      one record whenever there are records. */
  lemma TargetIsLastPage(rc: Recount)
    requires RecountedTotal(rc).Some? && rc.paginateBy.Some? && rc.paginateBy.value > 0
    ensures var total, perPage := RecountedTotal(rc).value, rc.paginateBy.value;
      TargetPage(rc) == DjangoNumPages(total, perPage) &&
      (total > 0 ==> (TargetPage(rc) - 1) * perPage < total <= TargetPage(rc) * perPage)
  {
    var total, perPage := RecountedTotal(rc).value, rc.paginateBy.value;
    if total == 0 {
      assert CeilDiv(0, perPage) == 0;
      assert CeilDiv(1, perPage) == 1;
    }
  }

  /** 25 records at 10 a page send the reader to page 3; no records, to page 1. */
  lemma ScenarioPages()
    ensures TargetPage(Recount(Some(25), NoFilterset, Some(10))) == 3
    ensures TargetPage(Recount(Some(0), NoFilterset, Some(10))) == 1
    ensures TargetPage(Recount(Some(100), Filterset(true, 25), Some(10))) == 3
    ensures TargetPage(Recount(Some(25), NoFilterset, None)) == 1
  {
  }

  /** The redirect's query: the original one with `page` set to the single value `str(page)`. */
  predicate HealedQuery(before: QueryDict, after: QueryDict, page: nat) {
    after.Keys == before.Keys + {"page"} &&
    after["page"] == [Decimal(page)] &&
    forall k :: k in before && k != "page" ==> after[k] == before[k]
  }

  /** Overwriting `page` in a copy of the query, as `get_params["page"] = str(page)` does. */
  lemma SetPageHeals(q: QueryDict, page: nat)
    ensures HealedQuery(q, q["page" := [Decimal(page)]], page)
  {
    var after := q["page" := [Decimal(page)]];
    assert after.Keys == q.Keys + {"page"};
  }

  /** The mixin's `get`: `read` is how `super().get` ended. A response passes through, an
      exception other than `EmptyPage` and `Http404` propagates, and those two become a redirect
      to the same path with the page replaced. */
  method Get(req: Request, read: Result<Response, ReadError>, rc: Recount) returns (r: Result<Response, ReadError>)
    ensures read.Success? || read.error == OtherError ==> r == read
    ensures read.Failure? && read.error != OtherError ==>
      r.Success? && r.value.Redirect? && r.value.path == req.path &&
      HealedQuery(req.query, r.value.query, TargetPage(rc))
  {
    if read.Success? || read.error == OtherError {
      r := read;
    } else {
      var targetPage := TargetPage(rc);
      var getParams := req.query;
      getParams := getParams["page" := [Decimal(targetPage)]];
      SetPageHeals(req.query, targetPage);
      r := Success(Redirect(req.path, getParams));
    }
  }

  /** The page number written into the redirect reads back as the target page, and re-applying
      the same correction to the corrected query changes nothing. */
  lemma HealedQueryReadsBack(before: QueryDict, after: QueryDict, page: nat)
    requires HealedQuery(before, after, page)
    ensures ParseDecimal(after["page"][0]) == page
    ensures HealedQuery(after, after, page)
  {
    DecimalRoundTrip(page);
  }
}
