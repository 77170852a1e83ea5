# Ticket, flight and airport list screens: pagination and ticket view state

This project models the client-side logic of a browser front end that lists
airports, flights and tickets fetched from a remote GraphQL API. Two things
in it carry logic:

- **Pagination**, used by all three list screens. Each screen fetches its
  whole list and shows a page of 10. It computes `totalPages = ceil(n / 10)`,
  the slice `list.slice((page - 1) * 10, min((page - 1) * 10 + 10, n))`, and
  the page buttons `1..totalPages`, with the current one marked active.
  The three screens repeat the same code. `Pagination.dfy` states it once,
  generically over the row type. `FlightList.dfy`, `AirportList.dfy` and
  `TicketList.dfy` each use it from a class holding that screen's state.
- **The ticket screen's view state**. It holds the current page, the update
  and add dialogs, the selected ticket, an edit buffer (class, price, flight
  date) and a success message. `TicketList.TicketListScreen` has one method
  per handler. Each mutating handler takes the outcome of the remote call
  as a parameter: `Failed` when the mutation or the refetch after it threw,
  or `Succeeded(refetched)` with the list the query returned afterwards. It
  returns the request it sends: the fields that address the ticket and the
  new field values, with a blank new class or price sent as `null`.

Modelling choices:

- Page numbers are integers of at least 1. The first page is 1, and every
  page button passes `index + 1`. JavaScript's `slice` is modelled for
  non-negative bounds. Both bounds are clamped to the length, and an end at
  or before the start gives an empty slice. So a page past the last one is
  empty, not an error.
- A price is an abstract type standing for a GraphQL `Float`. `parseFloat`
  is a function-valued parameter of the handlers that parse. The price in
  the edit buffer is either text the operator typed, or the Float that
  `handleUpdateClick` copied from the ticket. A copied Float parses back to
  itself.
- `TicketListScreen.Consistent()` is the screen's invariant. The update
  dialog is open exactly when a ticket is selected. A flight date is held
  only while the add dialog is open. A class or price is held only while
  one of the two dialogs is open. The constructor sets it up and every
  handler keeps it. The edit methods require their dialog to be open,
  because the inputs are only rendered inside an open dialog.
- `handleUpdateSubmit` with no selected ticket throws while it builds its
  variables. This happens inside the `try`, so the catch path runs. The
  model returns no request and changes nothing.
- The screens have no search filter. A failed mutation is only written
  to the console, and nothing is shown to the operator.

## Model

| member | source | states |
|---|---|---|
| Pagination.TotalPages | src/components/TicketList.js:61-62 | `ceil(n / 10)`: the least page count whose pages hold all n items; 0 exactly when the list is empty |
| Pagination.Min | src/components/TicketList.js:65 | `Math.min`: the result is at most each argument and is one of them |
| Pagination.StartIndex | src/components/FlightList.js:31 | `startIndex = (currentPage - 1) * 10`: a multiple of 10 with page - 1 whole pages before it, 0 exactly on page 1 |
| Pagination.EndIndex | src/components/FlightList.js:31-32 | the end index never passes the list's end, nor the page's ten items |
| Pagination.JsSlice | src/components/TicketList.js:67 | `slice` clamps both bounds to the length: it gives `s[start..min(end, n)]` when the start is inside the list and before the end, and an empty sequence when the end is at or before the start or the start is at or past the end |
| Pagination.Paginate | src/components/TicketList.js:59-67 | the visible page holds at most 10 items, each equal to the list item at `startIndex` plus its position; for a page in `1..totalPages` it is the non-empty `list[(p-1)*10 .. min(p*10, n)]`, past the last page it is empty |
| Pagination.PagesUpToIsPrefix | src/components/AirportList.js:28-31 | pages 1..k in order are exactly the first `min(10k, n)` items |
| Pagination.PagesReassembleList | src/components/FlightList.js:31-34 | concatenating pages 1..totalPages in order gives back exactly the fetched list |
| Pagination.ItemOnItsPage | src/components/TicketList.js:64-67 | item i of the list is shown on page `i / 10 + 1`, which is at most totalPages, at position `i % 10` |
| Pagination.PagesDisjoint | src/components/FlightList.js:31-34 | two page positions that show the same list index are the same page and the same position, so the pages are disjoint |
| Pagination.PageButtons | src/components/AirportList.js:64-74 | one button per page, numbered 1..totalPages in order; button i is active exactly when `i === currentPage`; at most one is active, one is active exactly when `1 <= currentPage <= totalPages`, and it is the current page's |
| FlightList.FlightListScreen.constructor | src/components/FlightList.js:18 | the screen starts on page 1 over the fetched flights |
| FlightList.FlightListScreen.PageCount | src/components/FlightList.js:28-29 | `totalPages = ceil(n / 10)`, 0 exactly when there are no flights |
| FlightList.FlightListScreen.CurrentFlights | src/components/FlightList.js:31-34 | at most 10 consecutive flights from `startIndex`, never read past the list's end; on a page up to totalPages, exactly the non-empty `flights[startIndex..endIndex]`; past it, none |
| FlightList.FlightListScreen.Buttons | src/components/FlightList.js:70-80 | buttons 1..totalPages; button i is active exactly when `i === currentPage`, so at most one is, and one is exactly when the current page is at most totalPages |
| FlightList.FlightListScreen.HandlePageChange | src/components/FlightList.js:36-38 | sets the current page to the clicked number and nothing else |
| AirportList.AirportListScreen.constructor | src/components/AirportList.js:15 | the screen starts on page 1 over the fetched airports |
| AirportList.AirportListScreen.PageCount | src/components/AirportList.js:25-26 | `totalPages = ceil(n / 10)`, 0 exactly when there are no airports |
| AirportList.AirportListScreen.CurrentAirports | src/components/AirportList.js:28-31 | at most 10 airports; on a page up to totalPages the start and end indices lie within `[0, n]` and the rows are the slice between them; past the last page, none |
| AirportList.AirportListScreen.Buttons | src/components/AirportList.js:64-74 | buttons numbered 1..totalPages; button i is active exactly when `i === currentPage`, so at most one is, and one is exactly when the current page is at most totalPages |
| AirportList.AirportListScreen.HandlePageChange | src/components/AirportList.js:33-35 | sets the current page to the clicked number and nothing else |
| TicketList.NullIfEmpty | src/components/TicketList.js:105 | `newTicketClass \|\| null` is null exactly for the empty class, otherwise the class itself |
| TicketList.ParsePrice | src/components/TicketList.js:85 | `parseFloat(newPrice)`: typed text goes through the parser; a Float copied from a ticket parses back to that same Float |
| TicketList.PriceOrNull | src/components/TicketList.js:106 | the new price is null exactly when the price field holds `''`; otherwise it is the copied Float or the parse of the typed text |
| TicketList.TicketListScreen.constructor | src/components/TicketList.js:39-46 | page 1, both dialogs closed, nothing selected, empty buffer and message; the invariant holds |
| TicketList.TicketListScreen.PageCount | src/components/TicketList.js:61-62 | `totalPages = ceil(n / 10)`, 0 exactly for an empty ticket list |
| TicketList.TicketListScreen.CurrentTickets | src/components/TicketList.js:64-67 | at most 10 tickets: `tickets[(p-1)*10 .. min(p*10, n)]` on a page up to totalPages, none past it |
| TicketList.TicketListScreen.Buttons | src/components/TicketList.js:241-251 | buttons 1..totalPages; button i is active exactly when `i === currentPage`, so at most one is, and one is exactly when the current page is at most totalPages |
| TicketList.TicketListScreen.HandlePageChange | src/components/TicketList.js:69-71 | sets the current page to the clicked number and nothing else |
| TicketList.TicketListScreen.HandleUpdateClick | src/components/TicketList.js:73-78 | selects the ticket, copies its class and price into the buffer and opens the update dialog; the add dialog, flight date and message are untouched; keeps the invariant |
| TicketList.TicketListScreen.OpenAddModal | src/components/TicketList.js:163 | opens the add dialog and changes nothing else |
| TicketList.TicketListScreen.EditTicketClass | src/components/TicketList.js:175-180 | the class field takes the typed value; nothing else changes |
| TicketList.TicketListScreen.EditPrice | src/components/TicketList.js:184-189 | the price field takes the typed text; nothing else changes |
| TicketList.TicketListScreen.EditFlightDate | src/components/TicketList.js:193-198 | the flight date field takes the typed value; nothing else changes |
| TicketList.TicketListScreen.HandleCloseModal | src/components/TicketList.js:137-142 | closes the update dialog and clears the selection, class and price; the flight date, add dialog and message are untouched |
| TicketList.TicketListScreen.HandleCloseAddModal | src/components/TicketList.js:144-150 | closes the add dialog and clears class, price, flight date and the message; the update dialog and selection are untouched |
| TicketList.TicketListScreen.HandleAddTicket | src/components/TicketList.js:80-97 | sends the buffer's class, parsed price and flight date; on success the list is the refetched one, the add dialog is closed, the buffer is empty and the message ends as `''` (with the update dialog closed, the screen is idle); on failure nothing changes |
| TicketList.TicketListScreen.HandleUpdateSubmit | src/components/TicketList.js:99-117 | addresses the ticket by the selected ticket's original class and price, sends `null` for a blank class or price; on success the list is the refetched one, the update message is set and the update dialog closed with its buffer cleared; with no selection or on failure nothing changes and, with no selection, nothing is sent |
| TicketList.TicketListScreen.HandleDeleteClick | src/components/TicketList.js:120-135 | addresses the clicked row by its class and price; on success the list is the refetched one and the delete message is set, no dialog or buffer field changes; on failure nothing changes; keeps the invariant |
| TicketList.TicketListScreen.HandleAddTicketShowingMessage | src/components/TicketList.js:89-92 | the corrected add handler: as `handleAddTicket`, but on success the message ends as "Billet ajouté avec succès" |
| TicketList.AddedMessageScenario | src/components/TicketList.js:91-92 | after a successful add the message shown is `''`, not the added message; with the corrected handler it is the added message |

## Left out

- Rendering: the JSX, the react-bootstrap table, dialogs, form and pagination markup. The model keeps only what they compute: the rows shown and the page buttons.
- The Apollo client: the `gql` documents, `useQuery`, `useMutation` and `refetch`. These are network I/O in a foreign library. The outcome of each mutation and refetch is a parameter, and a refetched list is any new sequence.
- The `loading` and `error` early returns of each screen. They are fetch states of the list query, not client logic. A refetch that fails is modelled as a failed handler, and the error screen it may bring up is not modelled.
- Floating point: `parseFloat` is a parameter, and the price is an abstract type.
- `async`/`await` interleaving: each handler is one atomic transition. Two submissions in flight at once are not modelled.
- `console.error` on the catch paths, and the React row `key` choice.
- The routing shell and page chrome: `App.js`, `AppLayout.js`, `AppNavbar.js`. They hold no logic.
- The flight and airport screens' "Détails", "Modifier" and "Supprimer" buttons. They have no handlers, so these screens have no mutations to model.

## Findings

| source | as written | input that shows it | evidently intended | confidence | as-written member | corrected member |
|---|---|---|---|---|---|---|
| src/components/TicketList.js:91-92 | `handleAddTicket` sets the added message and then calls `handleCloseAddModal`, which sets the message back to `''` | open the add dialog, type "Economy", "120", "2024-01-01", submit; the mutation and the refetch succeed; the final message is `''` | the success message "Billet ajouté avec succès" stays visible after the dialog closes, as the update and delete messages do | high, not executed | TicketList.TicketListScreen.HandleAddTicket (shown by TicketList.AddedMessageScenario) | TicketList.TicketListScreen.HandleAddTicketShowingMessage |
