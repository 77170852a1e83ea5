/** The flight list screen: the fetched flights, one page of them at a time. */
module FlightList {
  import Pagination

  /** One row of `allFlights`, with the fields the list query asks for. */
  datatype Flight = Flight(date: string, duration: int, distance: int, airline: string)

  class FlightListScreen {
    /** `data.allFlights`: the list the query returned. */
    const flights: seq<Flight>
    var currentPage: Pagination.PageNumber

    /** The screen once the query has returned: it starts on page 1. */
    constructor (fetched: seq<Flight>)
      ensures flights == fetched && currentPage == 1
    {
      flights := fetched;
      currentPage := 1;
    }

    /** `totalPages`: one page per started block of ten flights, none for no flights. */
    function PageCount(): (r: nat)
      reads this
      ensures |flights| <= r * Pagination.ItemsPerPage
      ensures r == 0 || (r - 1) * Pagination.ItemsPerPage < |flights|
      ensures r == 0 <==> flights == []
    {
      Pagination.TotalPages(|flights|)
    }

    /** `currentFlights`: the rows shown, at most ten consecutive flights
        from `startIndex` on, and none when the page is past the last one. */
    function CurrentFlights(): (r: seq<Flight>)
      reads this
      ensures |r| <= Pagination.ItemsPerPage
      ensures forall i :: 0 <= i < |r| ==>
                Pagination.StartIndex(currentPage) + i < |flights| &&
                r[i] == flights[Pagination.StartIndex(currentPage) + i]
      ensures currentPage <= PageCount() ==>
                r != [] &&
                r == flights[Pagination.StartIndex(currentPage)..Pagination.EndIndex(currentPage, |flights|)]
      ensures currentPage > PageCount() ==> r == []
    {
      Pagination.Paginate(flights, currentPage)
    }

    /** The pagination control: buttons 1..totalPages, exactly the current page's one active. */
    function Buttons(): (r: seq<Pagination.PageItem>)
      reads this
      ensures |r| == PageCount()
      ensures forall i :: 0 <= i < |r| ==> r[i].number == i + 1
      ensures forall i :: 0 <= i < |r| ==> (r[i].active <==> i + 1 == currentPage)
      ensures forall i, j :: 0 <= i < |r| && 0 <= j < |r| && r[i].active && r[j].active ==> i == j
      ensures (exists i :: 0 <= i < |r| && r[i].active) <==> currentPage <= PageCount()
    {
      Pagination.PageButtons(PageCount(), currentPage)
    }

    /** `handlePageChange`: moves to the clicked page and changes nothing else. */
    method HandlePageChange(pageNumber: Pagination.PageNumber)
      modifies this`currentPage
      ensures currentPage == pageNumber
    {
      currentPage := pageNumber;
    }
  }
}
