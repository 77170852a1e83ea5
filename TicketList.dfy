/** The ticket list screen: one page of the fetched tickets, plus the add and
    update dialogs and the delete action. Each handler is one atomic
    transition of the screen's view state; the outcome of the remote
    mutation (and of the refetch that follows it) is a parameter, and each
    mutating handler returns the request it sends. */
module TicketList {
  import Pagination

  /** A GraphQL `Float`; its representation is not modelled. */
  type Price(==)

  /** One row of `allTickets`. Tickets have no identifier: update and
      delete address a ticket by its class and its price together. */
  datatype Ticket = Ticket(ticketClass: string, price: Price)

  datatype Option<T> = None | Some(value: T)

  /** The price field of the edit buffer. It holds either the text the
      operator typed (`''` when cleared), or the Float copied from the
      ticket by `handleUpdateClick`. */
  datatype PriceInput = Typed(text: string) | Copied(price: Price)

  /** `parseFloat(newPrice)`. Typed text goes through the parser, which is a
      parameter of the model; a copied Float turns into its decimal text and
      parses back to the same Float. */
  function ParsePrice(input: PriceInput, parseFloat: string -> Price): (r: Price)
    ensures input.Copied? ==> r == input.price
    ensures input.Typed? ==> r == parseFloat(input.text)
  {
    match input
    case Typed(text) => parseFloat(text)
    case Copied(price) => price
  }

  /** `newTicketClass || null`: the empty string is the only falsy string. */
  function NullIfEmpty(s: string): (r: Option<string>)
    ensures r == None <==> s == ""
    ensures r.Some? ==> r.value == s
  {
    if s == "" then None else Some(s)
  }

  /** `newPrice !== '' ? parseFloat(newPrice) : null`: only the empty text
      means "no new price"; a copied Float is never `''`. */
  function PriceOrNull(input: PriceInput, parseFloat: string -> Price): (r: Option<Price>)
    ensures r == None <==> input == Typed("")
    ensures r.Some? && input.Copied? ==> r.value == input.price
    ensures r.Some? && input.Typed? ==> r.value == parseFloat(input.text)
  {
    if input == Typed("") then None else Some(ParsePrice(input, parseFloat))
  }

  /** The variables of the `addTicket` mutation. */
  datatype AddRequest = AddRequest(ticketClass: string, price: Price, flightDate: string)

  /** The variables of the `updateTicket` mutation: the ticket's current
      class and price address it; a `null` new field is sent as `None`. */
  datatype UpdateRequest = UpdateRequest(ticketClass: string, ticketPrice: Price,
                                         newTicketClass: Option<string>, newPrice: Option<Price>)

  /** The variables of the `deleteTicket` mutation. */
  datatype DeleteRequest = DeleteRequest(ticketClass: string, ticketPrice: Price)

  /** How the awaited mutation and the `refetch` after it ended: either one
      threw (the catch path), or both succeeded and the list query returned
      a new list. */
  datatype Outcome = Failed | Succeeded(refetched: seq<Ticket>)

  const AddedMessage: string := "Billet ajouté avec succès"
  const UpdatedMessage: string := "Billet mis à jour avec succès"
  const DeletedMessage: string := "Billet supprimé avec succès"

  class TicketListScreen {
    /** `data.allTickets`: the list of the most recent query. */
    var tickets: seq<Ticket>
    var currentPage: Pagination.PageNumber
    /** Whether the update dialog is open. */
    var showModal: bool
    var selectedTicket: Option<Ticket>
    /** The edit buffer shared by both dialogs. */
    var newTicketClass: string
    var newPrice: PriceInput
    var newFlightDate: string
    var successMessage: string
    /** Whether the add dialog is open. */
    var showAddModal: bool

    /** The edit buffer lives only while a dialog is open: the update dialog
        is open exactly when a ticket is selected, a flight date is held only
        while the add dialog is open, and a class or price only while one of
        the two dialogs is. */
    ghost predicate Consistent()
      reads this
    {
      && (showModal <==> selectedTicket.Some?)
      && (newFlightDate != "" ==> showAddModal)
      && (newTicketClass != "" || newPrice != Typed("") ==> showModal || showAddModal)
    }

    /** Both dialogs closed, nothing selected and the edit buffer empty. */
    ghost predicate Idle()
      reads this
    {
      !showModal && !showAddModal && selectedTicket == None &&
      newTicketClass == "" && newPrice == Typed("") && newFlightDate == ""
    }

    /** The screen once the list query has returned: the initial values of
        the component's state. */
    constructor (fetched: seq<Ticket>)
      ensures tickets == fetched && currentPage == 1
      ensures Idle() && successMessage == ""
      ensures Consistent()
    {
      tickets := fetched;
      currentPage := 1;
      showModal := false;
      selectedTicket := None;
      newTicketClass := "";
      newPrice := Typed("");
      successMessage := "";
      showAddModal := false;
      newFlightDate := "";
    }

    /** `totalPages`: one page per started block of ten tickets, none when
        there are no tickets. */
    function PageCount(): (r: nat)
      reads this
      ensures |tickets| <= r * Pagination.ItemsPerPage
      ensures r == 0 || (r - 1) * Pagination.ItemsPerPage < |tickets|
      ensures r == 0 <==> tickets == []
    {
      Pagination.TotalPages(|tickets|)
    }

    /** `currentTickets`: the rows shown, `tickets[(p-1)*10 .. min(p*10, n)]`,
        at most ten of them, and none past the last page. */
    function CurrentTickets(): (r: seq<Ticket>)
      reads this
      ensures |r| <= Pagination.ItemsPerPage
      ensures currentPage <= PageCount() ==>
                r == tickets[Pagination.StartIndex(currentPage)..Pagination.Min(currentPage * Pagination.ItemsPerPage, |tickets|)]
      ensures currentPage > PageCount() ==> r == []
    {
      Pagination.Paginate(tickets, currentPage)
    }

    /** The pagination control: buttons 1..totalPages; one is active exactly
        when the current page is one of them. */
    function Buttons(): (r: seq<Pagination.PageItem>)
      reads this
      ensures |r| == PageCount()
      ensures forall i :: 0 <= i < |r| ==> r[i].number == i + 1
      ensures forall i :: 0 <= i < |r| ==> (r[i].active <==> i + 1 == currentPage)
      ensures forall i, j :: 0 <= i < |r| && 0 <= j < |r| && r[i].active && r[j].active ==> i == j
      ensures (exists i :: 0 <= i < |r| && r[i].active) <==> currentPage <= PageCount()
    {
      Pagination.PageButtons(PageCount(), currentPage)
    }

    /** `handlePageChange`: moves to the clicked page and changes nothing else. */
    method HandlePageChange(pageNumber: Pagination.PageNumber)
      modifies this`currentPage
      ensures currentPage == pageNumber
    {
      currentPage := pageNumber;
    }

    /** `handleUpdateClick`: selects the clicked ticket, copies its class and
        price into the edit buffer and opens the update dialog. The add
        dialog, the flight date and the message are left as they were. */
    method HandleUpdateClick(ticket: Ticket)
      requires Consistent()
      modifies this`selectedTicket, this`newTicketClass, this`newPrice, this`showModal
      ensures selectedTicket == Some(ticket) && showModal
      ensures newTicketClass == ticket.ticketClass && newPrice == Copied(ticket.price)
      ensures Consistent()
    {
      selectedTicket := Some(ticket);
      newTicketClass := ticket.ticketClass;
      newPrice := Copied(ticket.price);
      showModal := true;
    }

    /** The "add a ticket" button: opens the add dialog over the buffer as it is. */
    method OpenAddModal()
      requires Consistent()
      modifies this`showAddModal
      ensures showAddModal
      ensures Consistent()
    {
      showAddModal := true;
    }

    /** The class input of either dialog. Its form is shown only while a
        dialog is open. */
    method EditTicketClass(value: string)
      requires Consistent() && (showModal || showAddModal)
      modifies this`newTicketClass
      ensures newTicketClass == value
      ensures Consistent()
    {
      newTicketClass := value;
    }

    /** The price input of either dialog: from now on the buffer holds text. */
    method EditPrice(value: string)
      requires Consistent() && (showModal || showAddModal)
      modifies this`newPrice
      ensures newPrice == Typed(value)
      ensures Consistent()
    {
      newPrice := Typed(value);
    }

    /** The flight date input, which only the add dialog has. */
    method EditFlightDate(value: string)
      requires Consistent() && showAddModal
      modifies this`newFlightDate
      ensures newFlightDate == value
      ensures Consistent()
    {
      newFlightDate := value;
    }

    /** `handleCloseModal`: closes the update dialog, forgets the selected
        ticket and clears the class and price; the flight date, the add
        dialog and the message are left as they were. */
    method HandleCloseModal()
      requires Consistent()
      modifies this`showModal, this`selectedTicket, this`newTicketClass, this`newPrice
      ensures !showModal && selectedTicket == None
      ensures newTicketClass == "" && newPrice == Typed("")
      ensures Consistent()
    {
      showModal := false;
      selectedTicket := None;
      newTicketClass := "";
      newPrice := Typed("");
    }

    /** `handleCloseAddModal`: closes the add dialog, clears class, price and
        flight date, and clears the message too. The update dialog and the
        selected ticket are left as they were. */
    method HandleCloseAddModal()
      requires Consistent()
      modifies this`showAddModal, this`newTicketClass, this`newPrice, this`newFlightDate, this`successMessage
      ensures !showAddModal
      ensures newTicketClass == "" && newPrice == Typed("") && newFlightDate == ""
      ensures successMessage == ""
      ensures Consistent()
    {
      showAddModal := false;
      newTicketClass := "";
      newPrice := Typed("");
      newFlightDate := "";
      successMessage := "";
    }

    /** `handleAddTicket`: sends the buffer (class, parsed price, flight
        date). On success the list is the refetched one, and the add dialog
        is closed through `handleCloseAddModal`, which also clears the
        message that was just set. On failure nothing changes: the dialog
        stays open with the buffer as typed. */
    method HandleAddTicket(parseFloat: string -> Price, outcome: Outcome) returns (request: AddRequest)
      requires Consistent()
      modifies this`tickets, this`successMessage, this`showAddModal, this`newTicketClass, this`newPrice, this`newFlightDate
      ensures request == AddRequest(old(newTicketClass), ParsePrice(old(newPrice), parseFloat), old(newFlightDate))
      ensures outcome.Succeeded? ==>
                && tickets == outcome.refetched
                && !showAddModal
                && newTicketClass == "" && newPrice == Typed("") && newFlightDate == ""
                && successMessage == ""
      ensures outcome.Succeeded? && !old(showModal) ==> Idle()
      ensures outcome.Failed? ==>
                && tickets == old(tickets) && successMessage == old(successMessage)
                && showAddModal == old(showAddModal)
                && newTicketClass == old(newTicketClass) && newPrice == old(newPrice)
                && newFlightDate == old(newFlightDate)
      ensures Consistent()
    {
      request := AddRequest(newTicketClass, ParsePrice(newPrice, parseFloat), newFlightDate);
      if outcome.Succeeded? {
        tickets := outcome.refetched;
        successMessage := AddedMessage;
        HandleCloseAddModal();
      }
    }

    /** `handleAddTicket` as its message evidently means it to behave: the
        same request and the same closing of the add dialog, but the added
        message is set after the dialog is closed, so it stays visible. */
    method HandleAddTicketShowingMessage(parseFloat: string -> Price, outcome: Outcome) returns (request: AddRequest)
      requires Consistent()
      modifies this`tickets, this`successMessage, this`showAddModal, this`newTicketClass, this`newPrice, this`newFlightDate
      ensures request == AddRequest(old(newTicketClass), ParsePrice(old(newPrice), parseFloat), old(newFlightDate))
      ensures outcome.Succeeded? ==>
                && tickets == outcome.refetched
                && !showAddModal
                && newTicketClass == "" && newPrice == Typed("") && newFlightDate == ""
                && successMessage == AddedMessage
      ensures outcome.Succeeded? && !old(showModal) ==> Idle()
      ensures outcome.Failed? ==>
                && tickets == old(tickets) && successMessage == old(successMessage)
                && showAddModal == old(showAddModal)
                && newTicketClass == old(newTicketClass) && newPrice == old(newPrice)
                && newFlightDate == old(newFlightDate)
      ensures Consistent()
    {
      request := AddRequest(newTicketClass, ParsePrice(newPrice, parseFloat), newFlightDate);
      if outcome.Succeeded? {
        tickets := outcome.refetched;
        HandleCloseAddModal();
        successMessage := AddedMessage;
      }
    }

    /** `handleUpdateSubmit`: addresses the ticket by the selected ticket's
        original class and price and sends the buffer, an empty class or
        price as `null`. On success the list is the refetched one, the
        update message is set and the update dialog is closed. With no
        selected ticket, reading its class throws before anything is sent,
        and the catch path leaves everything as it was; so does a failed
        mutation. */
    method HandleUpdateSubmit(parseFloat: string -> Price, outcome: Outcome) returns (request: Option<UpdateRequest>)
      requires Consistent()
      modifies this`tickets, this`successMessage, this`showModal, this`selectedTicket, this`newTicketClass, this`newPrice
      ensures old(selectedTicket).None? ==> request == None
      ensures old(selectedTicket).Some? ==>
                request == Some(UpdateRequest(old(selectedTicket).value.ticketClass, old(selectedTicket).value.price,
                                              NullIfEmpty(old(newTicketClass)), PriceOrNull(old(newPrice), parseFloat)))
      ensures request.Some? && outcome.Succeeded? ==>
                && tickets == outcome.refetched
                && successMessage == UpdatedMessage
                && !showModal && selectedTicket == None
                && newTicketClass == "" && newPrice == Typed("")
      ensures request.Some? && outcome.Succeeded? && !old(showAddModal) ==> Idle()
      ensures request == None || outcome.Failed? ==>
                && tickets == old(tickets) && successMessage == old(successMessage)
                && showModal == old(showModal) && selectedTicket == old(selectedTicket)
                && newTicketClass == old(newTicketClass) && newPrice == old(newPrice)
      ensures Consistent()
    {
      match selectedTicket
      case None =>
        request := None;
      case Some(selected) =>
        request := Some(UpdateRequest(selected.ticketClass, selected.price,
                                      NullIfEmpty(newTicketClass), PriceOrNull(newPrice, parseFloat)));
        if outcome.Succeeded? {
          tickets := outcome.refetched;
          successMessage := UpdatedMessage;
          HandleCloseModal();
        }
    }

    /** `handleDeleteClick`: addresses the clicked row by its class and
        price. On success the list is the refetched one and the delete
        message is set; no dialog or buffer state is touched. On failure
        nothing changes. */
    method HandleDeleteClick(ticket: Ticket, outcome: Outcome) returns (request: DeleteRequest)
      requires Consistent()
      modifies this`tickets, this`successMessage
      ensures request == DeleteRequest(ticket.ticketClass, ticket.price)
      ensures outcome.Succeeded? ==> tickets == outcome.refetched && successMessage == DeletedMessage
      ensures outcome.Failed? ==> tickets == old(tickets) && successMessage == old(successMessage)
      ensures Consistent()
    {
      request := DeleteRequest(ticket.ticketClass, ticket.price);
      if outcome.Succeeded? {
        tickets := outcome.refetched;
        successMessage := DeletedMessage;
      }
    }
  }
  /** An operator opens the add dialog, fills it in and submits, and the
      mutation and the refetch succeed: the request carries what was typed,
      yet the screen ends with no message, so "Billet ajouté avec succès"
      is never shown. The corrected handler does show it. */
  method AddedMessageScenario(parseFloat: string -> Price, refetched: seq<Ticket>)
    returns (shown: string, shownIfCorrected: string)
    ensures shown == "" && shown != AddedMessage
    ensures shownIfCorrected == AddedMessage
  {
    var screen := new TicketListScreen([]);
    screen.OpenAddModal();
    screen.EditTicketClass("Economy");
    screen.EditPrice("120");
    screen.EditFlightDate("2024-01-01");
    var request := screen.HandleAddTicket(parseFloat, Succeeded(refetched));
    assert request == AddRequest("Economy", parseFloat("120"), "2024-01-01");
    shown := screen.successMessage;

    var corrected := new TicketListScreen([]);
    corrected.OpenAddModal();
    corrected.EditTicketClass("Economy");
    corrected.EditPrice("120");
    corrected.EditFlightDate("2024-01-01");
    request := corrected.HandleAddTicketShowingMessage(parseFloat, Succeeded(refetched));
    shownIfCorrected := corrected.successMessage;
  }
}
