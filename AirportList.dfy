/** The airport list screen: the fetched airports, one page of them at a time. */
module AirportList {
  import Pagination

  /** One row of `allAirports`. */
  datatype Airport = Airport(name: string)

  class AirportListScreen {
    /** `data.allAirports`: the list the query returned. */
    const airports: seq<Airport>
    var currentPage: Pagination.PageNumber

    /** The screen once the query has returned: it starts on page 1. */
    constructor (fetched: seq<Airport>)
      ensures airports == fetched && currentPage == 1
    {
      airports := fetched;
      currentPage := 1;
    }

    /** `totalPages`: one page per started block of ten airports, none for no airports. */
    function PageCount(): (r: nat)
      reads this
      ensures |airports| <= r * Pagination.ItemsPerPage
      ensures r == 0 || (r - 1) * Pagination.ItemsPerPage < |airports|
      ensures r == 0 <==> airports == []
    {
      Pagination.TotalPages(|airports|)
    }

    /** `currentAirports`: the rows shown, the slice between `startIndex` and
        `endIndex`, both within the list, and empty past the last page. */
    function CurrentAirports(): (r: seq<Airport>)
      reads this
      ensures |r| <= Pagination.ItemsPerPage
      ensures currentPage <= PageCount() ==>
                Pagination.StartIndex(currentPage) < Pagination.EndIndex(currentPage, |airports|) <= |airports| &&
                r == airports[Pagination.StartIndex(currentPage)..Pagination.EndIndex(currentPage, |airports|)]
      ensures currentPage > PageCount() ==> r == []
    {
      Pagination.Paginate(airports, currentPage)
    }

    /** The pagination control: buttons 1..totalPages, exactly the current page's one active. */
    function Buttons(): (r: seq<Pagination.PageItem>)
      reads this
      ensures |r| == PageCount()
      ensures forall i :: 0 <= i < |r| ==> r[i].number == i + 1
      ensures forall i :: 0 <= i < |r| ==> (r[i].active <==> i + 1 == currentPage)
      ensures forall i, j :: 0 <= i < |r| && 0 <= j < |r| && r[i].active && r[j].active ==> i == j
      ensures (exists i :: 0 <= i < |r| && r[i].active) <==> currentPage <= PageCount()
    {
      Pagination.PageButtons(PageCount(), currentPage)
    }

    /** `handlePageChange`: moves to the clicked page and changes nothing else. */
    method HandlePageChange(pageNumber: Pagination.PageNumber)
      modifies this`currentPage
      ensures currentPage == pageNumber
    {
      currentPage := pageNumber;
    }
  }
}
