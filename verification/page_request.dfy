/**
 * The paging request: five fields fixed at construction, and the conversion
 * of its 1-based page number into the 0-based page index of a page request.
 */
module PageRequest {
  import opened JavaLang

  /**
   * Requested page (1-based), rows per page, number of page links shown at
   * once, search type and search keyword.
   */
  datatype PageRequestDto = PageRequestDto(page: Int32, perPage: Int32, perPagination: Int32, searchType: JString, keyword: JString)

  /** What is handed to the data layer: a 0-based page index, a page size and a sort order. */
  datatype Pageable<S> = Pageable(pageIndex: Int32, pageSize: Int32, sort: S)

  /** `getPageable(sort)`: the index is `page - 1` in Java `int` arithmetic; size and sort pass through. */
  function GetPageable<S>(dto: PageRequestDto, sort: S): (p: Pageable<S>)
    ensures dto.page > MIN_INT ==> p.pageIndex == dto.page - 1
    ensures dto.page == MIN_INT ==> p.pageIndex == MAX_INT
    ensures p.pageSize == dto.perPage
    ensures p.sort == sort
  {
    Pageable(Sub(dto.page, 1), dto.perPage, sort)
  }

  /** Distinct page numbers never share a page index, including at the wrap-around. */
  lemma PageIndexInjective<S>(a: PageRequestDto, b: PageRequestDto, sort: S)
    ensures GetPageable(a, sort).pageIndex == GetPageable(b, sort).pageIndex <==> a.page == b.page
  {
  }

  /** Above the smallest `int`, a later page has a larger index. */
  lemma PageIndexMonotone<S>(a: PageRequestDto, b: PageRequestDto, sort: S)
    requires MIN_INT < a.page < b.page
    ensures GetPageable(a, sort).pageIndex < GetPageable(b, sort).pageIndex
  {
  }

  /** The first page, number 1, is index 0. */
  lemma FirstPageIsIndexZero<S>(dto: PageRequestDto, sort: S)
    ensures GetPageable(dto, sort).pageIndex == 0 <==> dto.page == 1
  {
  }
}
