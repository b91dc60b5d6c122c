# EventPass ticketing core, modelled in Dafny

This project models the parts of the EventPass event-ticketing application (a NestJS back end over
PostgreSQL and a Next.js front end) whose behaviour can be stated exactly, and proves properties of them:

- **Ticket reservation** (`booking.dfy`). `BookingService` is a class over the ticket-type table and the
  booking table. `Reserve` is the purchase transaction: it checks the buyer and the ticket type, applies
  `quantity || 1`, rejects short stock, takes stock and appends a PAID booking with one line, or rolls
  everything back. `CreateBooking` adds the e-invoice request that follows a committed purchase. The class
  invariant is stock conservation: for every ticket type, remaining stock plus booked tickets equals the
  initial stock, and remaining stock is never negative. The read side is a set of pure folds over the
  booking table: a user's history, the owner check before a ticket email, and the dashboard sums and
  recent list.
- **E-invoice requests** (`invoice.dfy`). `InvoiceService` is a class over the invoices table. A request
  stores a PENDING invoice copied from the buyer's tax profile. The provider's answer later moves it to
  SUCCESS or FAILED, exactly once.
- **Sign-up, credential check and login** (`auth.dfy`), and the **role guard** (`roles_guard.dfy`).
- **Event queries** (`events_service.dfy`): the listing, the search, the related events and the lookup by
  slug. Each is a WHERE predicate over event rows followed by an ascending sort on start time, with
  PostgreSQL `ILIKE '%q%'` modelled by a LIKE matcher (`text_match.dfy`). The related-events query puts its LIMIT on
  the rows joined with each event's ticket types, so an event counts once per ticket type against it. The **query-string parsing** of
  the events endpoints (`events_controller.dfy`) includes JavaScript's `parseInt`.
- **Front-end helpers**: the slug generator of the event form (`create_event.dfy`), the search page's
  request parameters, navigation payload and card gradient (`search_page.dfy`), and the sign-up form's
  validators and error message (`register_page.dfy`).

Shared pieces live in `common.dfy` (Option, Result, the error kinds, decimal digits), `seqs.dfy` (filter,
stable sort, take) and `booking_entities.dfy` (ticket types, bookings and their lines).

Modelling conventions:
- Money is an integer number of minor units, matching the `numeric(12,2)` columns.
- Ids that the database generates (users, bookings, invoices) are issued as sequence numbers. Ticket-type
  and event ids are text.
- Things outside the program are parameters:
  - the clock reading `now`;
  - whether the database rejects the booking insert (`persistFails`);
  - the password hash and compare functions;
  - the provider's answer;
  - PostgreSQL's reading of a date text as an instant (`cast`).
- A JWT is the symbolic `Signed(payload)`.

One would expect `0 <= remaining_quantity <= initial_quantity` and a positive quantity on every booking
line. The code, however, only applies `quantity || 1`, so a negative quantity is accepted and stock grows.
The model follows the code. `RequestedQuantity` exposes the negative case. The invariant kept by
`Reserve` is therefore conservation with a non-negative remainder, not the upper bound.

## Model

| member | source | states |
|---|---|---|
| BookingService.RequestedQuantity | backend/src/booking/booking.service.ts:39 | an absent or zero quantity buys one ticket, any other value (negatives included) is used as given, and the result is never 0 |
| BookingService.BookingService.Reserve | backend/src/booking/booking.service.ts:22-69 | unknown user gives NotFound("User not found"); unknown ticket type gives NotFound("Vé không tồn tại"); stock below the quantity gives BadRequest("Vé này đã hết!"); a failed insert gives a transaction failure; on every error the state is unchanged (rollback); on success only that type's remaining stock drops by the quantity, and a PAID, MOMO booking with one line (quantity, unit price) and total price × quantity is appended; stock conservation is kept |
| BookingService.BookingService.CreateBooking | backend/src/booking/booking.service.ts:22-88 | the same outcomes as the transaction, with the reply {success, booking id, my-tickets URL}; the invoice store changes only after a successful commit with request_vat exactly true, and then by the invoice request for the new booking; an error leaves both stores unchanged |
| BookingService.ReservationConservesStock | backend/src/booking/booking.service.ts:45-64 | decrementing one type by q and recording one line of q tickets of that type keeps remaining + booked == initial for every ticket type, whatever the sign of q |
| BookingService.ReserveOneEach | backend/src/booking/booking.service.ts:32-46 | with purchases serialised by the row lock, n one-ticket purchases against a type with stock R succeed exactly min(n, R) times, stock drops by exactly that, and it never goes below zero |
| BookingService.MyBookings | backend/src/booking/booking.service.ts:91-96 | the result holds exactly the user's bookings, each no more often than in the table, newest first |
| BookingService.TicketEmailBooking | backend/src/booking/booking.service.ts:99-109 | NotFound exactly when no booking has the id; BadRequest exactly when the booking belongs to someone else; otherwise the caller's own booking with that id |
| BookingService.TicketEmailOnlyForOwner | backend/src/booking/booking.service.ts:99-109 | in the booking table, the email check passes exactly for an existing booking owned by the caller |
| BookingService.SqlSum | backend/src/booking/booking.service.ts:155 | SQL SUM is NULL exactly over no rows |
| BookingService.TotalRevenue | backend/src/booking/booking.service.ts:153-157 | defines revenue as SUM(total_amount) over PAID bookings, read as 0 when the SUM is NULL |
| BookingService.TotalTickets | backend/src/booking/booking.service.ts:160-166 | defines tickets sold as SUM(quantity) over the lines of PAID bookings, read as 0 when the SUM is NULL |
| BookingService.RecentBookings | backend/src/booking/booking.service.ts:169-173 | defines the recent list as the bookings ordered by creation time, newest first, cut to five |
| BookingService.GetDashboardStats | backend/src/booking/booking.service.ts:151-179 | defines the dashboard as revenue, tickets sold and the recent list |
| BookingService.RevenueIsPaidSum | backend/src/booking/booking.service.ts:153-157 | total revenue is the sum of total_amount over PAID bookings, and 0 when no booking is PAID |
| BookingService.StatsAfterBooking | backend/src/booking/booking.service.ts:151-179 | a new booking adds its total to revenue and its line quantities to tickets sold exactly when it is PAID |
| BookingService.RecentAreNewest | backend/src/booking/booking.service.ts:169-173 | the recent list has min(5, table size) bookings drawn from the table, newest first, and no booking left out is newer than the last one shown |
| BookingEntities.FindBooking | backend/src/booking/booking.service.ts:101-104 | a found booking is in the table with that id; nothing is found exactly when no booking has the id |
| InvoiceService.TempCode | backend/src/invoice/invoice.service.ts:43 | the temporary code is "TEMP-" followed by digits |
| InvoiceService.PendingInvoice | backend/src/invoice/invoice.service.ts:37-45 | a new invoice is PENDING with a temporary code and no PDF link, and copies the booking total, the tax code, the company name and the address |
| InvoiceService.InvoiceService.CreateInvoiceRequest | backend/src/invoice/invoice.service.ts:19-62 | an unknown booking gives NotFound("Booking not found"); a missing profile or tax code stores nothing; otherwise exactly one PENDING invoice is appended and awaits the provider; the lifecycle invariant is kept |
| InvoiceService.InvoiceService.OnProviderResult | backend/src/invoice/invoice.service.ts:50-58 | only a PENDING invoice awaiting the provider is updated, once: success sets SUCCESS with the issued code and PDF link; failure sets FAILED and keeps the temporary code and no link; no other invoice changes |
| AuthService.StoredRole | backend/src/auth/auth.service.ts:29-33 | the stored role is organizer exactly when user_type is organizer, otherwise user; never admin |
| AuthService.WithoutHash | backend/src/auth/auth.service.ts:58 | every field but the password hash is copied |
| AuthService.ValidateUser | backend/src/auth/auth.service.ts:55-62 | a user is returned exactly when one exists for the email with a non-empty hash that the password matches, and it is that user without the hash |
| AuthService.Login | backend/src/auth/auth.service.ts:64-69 | the token payload carries the user's email, id as sub, and role |
| AuthService.LoginCarriesStoredIdentity | backend/src/auth/auth.service.ts:55-69 | logging in after a successful credential check signs the stored email, id and role of that email |
| AuthService.RegisteredUserValidates | backend/src/auth/auth.service.ts:14-62 | a freshly registered user passes the credential check with its password and yields the stored identity |
| AuthService.AuthService.Register | backend/src/auth/auth.service.ts:14-53 | a taken email gives BadRequest("Email đã tồn tại!") with the store unchanged; otherwise exactly one local user with the hashed password, no interests and the mapped role is added under the email with a fresh id, and the reply's token carries that user's email, id and role; emails stay unique keys and ids distinct |
| RolesGuard.CanActivate | backend/src/auth/guards/roles.guard.ts:8-17 | the request passes exactly for admin and organizer, the verdict is never false, and every other role is Forbidden with the guard's message |
| RolesGuard.SignUpPassesGuardIffOrganizer | backend/src/auth/guards/roles.guard.ts:13-15 | a self-registered account passes the guard exactly when it signed up as an organizer |
| TextMatch.LowerAscii | frontend/pages/admin/create-event.tsx:32 | lower-casing keeps the length and maps each character on its own |
| TextMatch.LikeContaining | backend/src/events/events.service.ts:62 | LIKE '%w%' holds exactly when w occurs in the text, for w without wildcards |
| TextMatch.ILikeContaining | backend/src/events/events.service.ts:22 | ILIKE '%q%' holds exactly when lower-cased q occurs in the lower-cased text |
| Seqs.SortBy | backend/src/events/events.service.ts:43 | the result is ascending by the key and a permutation of the input |
| Seqs.Take | backend/src/booking/booking.service.ts:171 | LIMIT n keeps the first min(n, size) rows |
| EventsService.ListMatches | backend/src/events/events.service.ts:18-33 | defines the listing's WHERE: title ILIKE '%q%' for a non-empty q, location ILIKE '%location%' unless absent, empty or "Tất cả", and is_online = (text is "true") unless absent or "Tất cả" |
| EventsService.FindAll | backend/src/events/events.service.ts:15-46 | the listing holds exactly the matching events, no more often than stored, in ascending start time |
| EventsService.ListKeywordInTitle | backend/src/events/events.service.ts:21-23 | a keyword without wildcards keeps exactly the events whose title contains it, ignoring ASCII case |
| EventsService.ListLocationAllIsNoFilter | backend/src/events/events.service.ts:26-28 | an absent, empty or "Tất cả" location is the same as no location filter |
| EventsService.ListOnlineFilter | backend/src/events/events.service.ts:31-33 | a present is_online other than "Tất cả" keeps online events for "true" and offline events for any other text |
| EventsService.ListIgnoresStartDate | backend/src/events/events.service.ts:36-39 | start_date has no effect on the listing |
| EventsService.SearchMatches | backend/src/events/events.service.ts:58-82 | defines the search's WHERE: keyword in the title or description, location, online flag and the inclusive start and end dates, each only when given |
| EventsService.Search | backend/src/events/events.service.ts:49-88 | the search holds exactly the events meeting the keyword, location, online flag and inclusive date bounds, in ascending start time |
| EventsService.SearchKeywordInTitleOrDescription | backend/src/events/events.service.ts:59-64 | a matched keyword occurs in the title or in the description |
| EventsService.FindById | backend/src/events/events.service.ts:92-93 | a found event has the id; nothing is found exactly when no event has it |
| EventsService.RelatedTo | backend/src/events/events.service.ts:95-102 | defines a related event: another id, starting after now, and at a location containing the current event's location when it has one |
| EventsService.FindRelated | backend/src/events/events.service.ts:91-109 | an unknown id gives no events; otherwise at most limit events (fewer when the events shown own several ticket types), or every qualifying event when the limit is 0 and no LIMIT is sent, other than the event itself, starting after now, at its location when it has one, in ascending start time |
| EventsService.Earliest | backend/src/events/events.service.ts:104-108 | ORDER BY start time with LIMIT n on the rows joined with ticket types gives at most n distinct events of the input, ascending; with n = 0 no LIMIT is written and all of them come back |
| EventsService.JoinRows | backend/src/events/events.service.ts:105 | a LEFT JOIN with ticket types yields one row per ticket type of an event, and one when it has none |
| EventsService.RowLimitedPrefix | backend/src/events/events.service.ts:104-108 | the events kept by a LIMIT on joined rows are a prefix of the input, at most limit of them, and all of them when their rows fit the limit |
| EventsService.PrefixStopsAtLimit | backend/src/events/events.service.ts:104-108 | an event is dropped only after the rows of the events kept have reached the limit |
| EventsService.PrefixRowsBelowLimit | backend/src/events/events.service.ts:104-108 | every event kept had at least one of its rows read before the limit was reached |
| EventsService.RowLimitCountsTicketTypes | backend/src/events/events.service.ts:104-108 | with LIMIT 4, an event with three ticket types followed by events with one each yields only the first two events |
| EventsService.RelatedAreEarliest | backend/src/events/events.service.ts:91-109 | a qualifying event left out means the joined rows of the events shown reached the limit and the event starts no earlier than the last one shown |
| EventsService.FindOneBySlug | backend/src/events/events.service.ts:112-123 | the event with the slug, or NotFound quoting the slug exactly when none has it |
| EventsController.ParseIsOnline | backend/src/events/events.controller.ts:24 | "true" gives true, "false" gives false, and anything else, absence included, gives no value |
| EventsController.ToSearchParams | backend/src/events/events.controller.ts:14-26 | every parameter but is_online is passed through unchanged |
| EventsController.UnknownOnlineTextIsNoFilter | backend/src/events/events.controller.ts:24 | an is_online text other than "true" or "false" puts no online condition on the search |
| EventsController.RelatedLimit | backend/src/events/events.controller.ts:28-31 | an absent or empty limit gives 4; otherwise the limit is read with parseInt |
| EventsController.ParseIntDecimal | backend/src/events/events.controller.ts:30 | parseInt reads an optionally negative decimal numeral, followed by text that cannot continue it, as its value |
| EventsController.ParseIntSkipsWhiteSpace | backend/src/events/events.controller.ts:30 | leading white space does not change what parseInt reads |
| EventsController.RelatedLimitOfDecimal | backend/src/events/events.controller.ts:30 | a limit written in decimal is used as that number |
| CreateEventForm.EventFormData.FillSlug | frontend/pages/admin/create-event.tsx:31-33 | a typed slug is kept; an empty one becomes the generated slug; the slug is never empty afterwards |
| CreateEventForm.ReplaceSpaces | frontend/pages/admin/create-event.tsx:32 | each space becomes one hyphen; every other character is kept in place |
| CreateEventForm.StripNonWord | frontend/pages/admin/create-event.tsx:32 | what is left is only word characters and hyphens |
| CreateEventForm.SlugBase | frontend/pages/admin/create-event.tsx:32 | defines the title part of a slug: lower-cased, spaces turned into hyphens, then everything but word characters and hyphens dropped |
| CreateEventForm.SlugBaseConcat | frontend/pages/admin/create-event.tsx:32 | the title part of a concatenation is the concatenation of the title parts |
| CreateEventForm.SlugBaseOfChar | frontend/pages/admin/create-event.tsx:32 | a space becomes a hyphen, a word character or hyphen stays (lower-cased), and anything else is dropped |
| CreateEventForm.SlugBaseCharset | frontend/pages/admin/create-event.tsx:32 | the title part holds only a-z, 0-9, '_' and '-', so no space |
| CreateEventForm.SpacesBecomeHyphens | frontend/pages/admin/create-event.tsx:32 | a run of n spaces becomes n hyphens and is not collapsed |
| CreateEventForm.SlugBaseKeepsSlugText | frontend/pages/admin/create-event.tsx:32 | text of lower-case letters, digits, '_' and '-' passes through unchanged, in order |
| CreateEventForm.GeneratedSlugShape | frontend/pages/admin/create-event.tsx:32 | a generated slug holds only slug characters and ends with '-' and the digits of the timestamp, which read back as the timestamp |
| SearchPage.Effective | frontend/pages/search.tsx:35-38 | the form's value wins; the address's value is used only when the form's is empty and the address holds a single text |
| SearchPage.NonEmptyEntries | frontend/pages/search.tsx:40-43 | a parameter is present exactly when its value is non-empty, and then holds that value; no other key appears |
| SearchPage.FetchParams | frontend/pages/search.tsx:34-43 | the assembled parameters are the non-empty effective values |
| SearchPage.EmptyFormFollowsAddress | frontend/pages/search.tsx:35-38 | with an empty form, a field is sent exactly when the address holds a single non-empty text for it |
| SearchPage.SearchPayload | frontend/pages/search.tsx:59-68 | a submitted search always carries q and the three filters, empty ones included |
| SearchPage.SubmittedSearchRequestsForm | frontend/pages/search.tsx:59-68 | the request made for the address a search navigates to carries exactly the form's non-empty fields |
| SearchPage.FirstCodeUnit | frontend/pages/search.tsx:80 | charCodeAt(0) is the character itself below U+10000 and a high surrogate above |
| SearchPage.GetGradient | frontend/pages/search.tsx:74-81 | a non-empty id gets one of the five gradients; the empty id gets none |
| SearchPage.GradientByFirstChar | frontend/pages/search.tsx:80 | ids with the same first character get the same gradient |
| SearchPage.GradientOfBasicChar | frontend/pages/search.tsx:80 | the gradient is the first character's code modulo 5 |
| RegisterPage.EmailMatches | frontend/pages/register.tsx:97 | defines the email test: the text splits at its first '@' and its last '.' into a non-empty local part, a non-empty domain and a top-level part of two or more letters, each from the pattern's character classes |
| RegisterPage.EmailMatchesPattern | frontend/pages/register.tsx:97 | the computed email test accepts exactly the texts the case-insensitive pattern matches |
| RegisterPage.AcceptedEmailShape | frontend/pages/register.tsx:97 | an accepted email has exactly one '@', after a non-empty run of local characters, and ends with '.' and at least two letters |
| RegisterPage.EmailIgnoresCase | frontend/pages/register.tsx:97 | whether an email is accepted does not depend on letter case |
| RegisterPage.ValidateEmail | frontend/pages/register.tsx:94-100 | empty gives the required message; otherwise a text failing the pattern gives the invalid message; otherwise no error |
| RegisterPage.Utf16Length | frontend/pages/register.tsx:132-135 | the JavaScript length lies between the number of characters and twice it |
| RegisterPage.ValidatePassword | frontend/pages/register.tsx:130-136 | empty gives the required message; fewer than 6 UTF-16 units gives the too-short message; otherwise no error |
| RegisterPage.PasswordLengthBounds | frontend/pages/register.tsx:132-135 | six characters or more always pass; fewer than three always fail |
| RegisterPage.ValidateUserType | frontend/pages/register.tsx:171-173 | an unchosen account type gives the required message, and any chosen one passes |
| RegisterPage.OfferedUserTypesRoles | frontend/pages/register.tsx:15-31 | of the offered types, organizer is stored as organizer and student and professional as user |
| RegisterPage.SubmitErrorMessage | frontend/pages/register.tsx:60-62 | the server's non-empty message is shown, otherwise the fixed fallback; never an empty text |
| RegisterPage.TakenEmailMessage | frontend/pages/register.tsx:58-62 | a sign-up with a taken email shows the server's reason |

## Left out

- Concurrency. The row lock and the transaction machinery are not modelled: each purchase is one atomic step, and `ReserveOneEach` runs purchases one after another, as the lock serialises them.
- BookingService.BookingService.CreateBooking: the invoice request is started without being awaited. In the code the pending invoice lands after the reply, and a failure there is an unhandled rejection that leaves the booking in place; the model applies the request in the same step as the reply.
- Persistence failures: a failure of either save after the stock check (the ticket-type update at booking.service.ts:46 or the booking insert at :67) is the single `persistFails` outcome, a parameter; both roll back alike.
- bcrypt and JWT. Hashing, comparing and signing are parameters or the symbolic `Signed` token; salt generation is an input.
- Sending the ticket email, its HTML and its QR link (I/O). Only the owner check before it is modelled.
- The mock invoice provider's two-second delay, random outcome and random code. The provider's answer is an input, and `Date.now()` is the `now` parameter.
- Floating point: `Number(...)` over `numeric(12,2)` and `toLocaleString`. Amounts are exact integers in minor units.
- ORM relations (`ticket_types`, booking users and items) that queries load alongside rows. In the queries without a limit they do not change which rows are returned or their order; in `findRelated` the join with `ticket_types` decides how many events the LIMIT lets through, which `RowLimitedPrefix` models by counting each event's ticket types.
- EventsService.FindRelated: the last event shown may come back with only some of its ticket types when the LIMIT falls inside its rows; the model does not carry ticket-type lists.
- BookingService.BookingService.Reserve: the ticket type id is always present. The request body is not validated, and the ORM leaves out a where-condition whose value is undefined, so a body without `ticketTypeId` locks and sells the first ticket-type row; this is not modelled.
- AuthService.AuthService.Register: the email is always present. A body without `email` looks up the first user instead, and so is refused with "Email đã tồn tại!" once any user exists; this is not modelled.
- AuthService.ValidateUser: the email is always present. A login without `email` checks the password against the first user's hash; this is not modelled.
- AuthService.WithoutHash: the `created_at` and `updated_at` timestamps that the user lookup selects and `validateUser` hands on are not part of the model's user record.
- BookingService.RequestedQuantity: takes the quantity as an integer or absent; a JSON body with a text quantity (the text "0" is truthy and books zero tickets) or a fractional one (which fails when saved into the integer column) is not modelled.
- Ties in ORDER BY are unspecified in PostgreSQL; the model sorts stably.
- EventsService.FindRelated: takes the limit as a natural number. A NaN limit from `parseInt` (which the query builder rejects) and a negative one (which PostgreSQL rejects) are not modelled; a limit of 0 is, as a query without LIMIT.
- EventsService.Search: a date text PostgreSQL cannot cast makes the query fail; the model assumes every date text casts.
- A malformed uuid in an id lookup makes PostgreSQL fail; the model treats it as an id nobody has.
- Case folding beyond ASCII: ILIKE's and JavaScript's `toLowerCase` mappings of non-ASCII letters are not modelled (the model lower-cases A-Z only).
- React state, effects and rendering. The search page's start-up copy of the address into the form is not modelled, and array-valued address parameters count as absent.
- The browser's own trimming and checking of an `type="email"` input before the pattern runs.
- RegisterPage.SubmitErrorMessage: a server message that is an array of texts (framework validation errors) is not modelled; the message is a single text or absent.
- EventsController.ParseInt: a magnitude too large for a double is read exactly rather than rounded.
- The `events.controller.ts` `findAll` and `findOne` handlers only delegate to the service and have no rows of their own.
