/**
 * Ticket reservation and the booking read side. A reservation checks the
 * buyer and the ticket type, takes stock and records a PAID booking with one
 * line, all or nothing; the read side filters and sums the booking table.
 */
module BookingService {
  import opened Common
  import opened Seqs
  import opened BookingEntities
  import InvoiceService

  /** The request body of a purchase; a non-boolean request_vat counts as absent. */
  datatype CreateBookingDto = CreateBookingDto(ticketTypeId: TicketTypeId, quantity: Option<int>, requestVat: Option<bool>)

  datatype BookingReply = BookingReply(status: string, bookingId: BookingId, paymentUrl: string)

  const USER_NOT_FOUND := "User not found"
  const TICKET_TYPE_NOT_FOUND := "Vé không tồn tại"
  const SOLD_OUT := "Vé này đã hết!"
  const PAYMENT_GATEWAY := "MOMO"
  const MY_TICKETS_URL := "https://bt-lon-tmdt.vercel.app/user/my-tickets"
  const BOOKING_NOT_FOUND := "Đơn hàng không tồn tại"
  const NOT_OWNER := "Bạn không có quyền thao tác trên vé này"
  const RECENT_COUNT := 5

  /** `quantity || 1`: an absent or zero quantity buys one ticket; nothing rejects a negative one. */
  function RequestedQuantity(q: Option<int>): (n: int)
    ensures n != 0
    ensures n == 1 <==> q.None? || q == Some(0) || q == Some(1)
    ensures q.Some? && q.value != 0 ==> n == q.value
  {
    match q
    case None => 1
    case Some(v) => if v == 0 then 1 else v
  }

  /** How many tickets of type t a list of items holds. */
  function ItemQuantity(items: seq<BookingItem>, t: TicketTypeId): int
  {
    if items == [] then 0
    else
      var last := items[|items| - 1];
      ItemQuantity(items[..|items| - 1], t) + (if last.ticketTypeId == t then last.quantity else 0)
  }

  /** How many tickets of type t all bookings hold together. */
  function Booked(bookings: seq<Booking>, t: TicketTypeId): int
  {
    if bookings == [] then 0
    else Booked(bookings[..|bookings| - 1], t) + ItemQuantity(bookings[|bookings| - 1].items, t)
  }

  /** Stock is conserved: what remains plus what was booked is what the type started with. */
  predicate StockConserved(tt: TicketType, bookings: seq<Booking>)
  {
    0 <= tt.remainingQuantity && tt.remainingQuantity + Booked(bookings, tt.id) == tt.initialQuantity
  }

  /** Every ticket type is stored under its own id and conserves its stock. */
  predicate TableConserved(ticketTypes: map<TicketTypeId, TicketType>, bookings: seq<Booking>)
  {
    forall t :: t in ticketTypes ==> ticketTypes[t].id == t && StockConserved(ticketTypes[t], bookings)
  }

  /**
   * Taking q tickets of type t and recording one booking line of q tickets of t
   * keeps every ticket type's stock conserved, whatever the sign of q.
   */
  lemma ReservationConservesStock(ticketTypes: map<TicketTypeId, TicketType>, bookings: seq<Booking>,
                                  t: TicketTypeId, q: int, b: Booking)
    requires TableConserved(ticketTypes, bookings)
    requires t in ticketTypes && q <= ticketTypes[t].remainingQuantity
    requires b.items == [BookingItem(t, q, ticketTypes[t].price)]
    ensures var tt := ticketTypes[t];
            TableConserved(ticketTypes[t := tt.(remainingQuantity := tt.remainingQuantity - q)], bookings + [b])
  {
    var all := bookings + [b];
    assert all[..|all| - 1] == bookings;
    assert b.items[..0] == [];
    assert all[|all| - 1] == b;
    forall k | k in ticketTypes ensures Booked(all, k) == Booked(bookings, k) + (if k == t then q else 0) {
      assert ItemQuantity(b.items, k) == ItemQuantity([], k) + (if k == t then q else 0);
    }
  }

  predicate IdsArePositions(bookings: seq<Booking>)
  {
    forall i :: 0 <= i < |bookings| ==> bookings[i].id == i
  }

  /** With ids as positions, looking up a stored id finds the row at that position. */
  lemma FindIndexedBooking(bookings: seq<Booking>, id: BookingId)
    requires IdsArePositions(bookings) && id < |bookings|
    ensures FindBooking(bookings, id) == Some(bookings[id])
  {
    var found := FindBooking(bookings, id);
    assert bookings[id] in bookings;
    if found.Some? {
      var i :| 0 <= i < |bookings| && bookings[i] == found.value;
    }
  }

  class BookingService {
    /** ids of the stored users */
    var users: set<UserId>
    /** the ticket_types table */
    var ticketTypes: map<TicketTypeId, TicketType>
    /** the bookings table, in insertion order */
    var bookings: seq<Booking>
    const invoiceService: InvoiceService.InvoiceService

    ghost predicate Valid()
      reads this, invoiceService
    {
      && invoiceService.Valid()
      && IdsArePositions(bookings)
      && (forall i :: 0 <= i < |bookings| ==> bookings[i].status == Paid)
      && TableConserved(ticketTypes, bookings)
    }

    /** A store whose ticket types are fresh from event creation: nothing sold yet. */
    constructor (users: set<UserId>, ticketTypes: map<TicketTypeId, TicketType>,
                 invoiceService: InvoiceService.InvoiceService)
      requires invoiceService.Valid()
      requires forall t :: t in ticketTypes ==>
                 ticketTypes[t].id == t && 0 <= ticketTypes[t].remainingQuantity == ticketTypes[t].initialQuantity
      ensures Valid()
      ensures this.users == users && this.ticketTypes == ticketTypes && bookings == []
      ensures this.invoiceService == invoiceService
    {
      this.users := users;
      this.ticketTypes := ticketTypes;
      this.bookings := [];
      this.invoiceService := invoiceService;
    }

    /**
     * The transaction of a purchase: reserves `quantity || 1` tickets of one
     * type for a user and records a PAID booking with a single line, or rolls
     * back. `now` is the clock reading; `persistFails` says whether the
     * database rejects the booking insert after the stock was decremented.
     */
    method Reserve(userId: UserId, dto: CreateBookingDto, now: nat, persistFails: bool)
      returns (r: Result<BookingId>)
      requires Valid()
      modifies this
      ensures Valid()
      ensures users == old(users)
      ensures r.Err? ==> unchanged(this)
      ensures userId !in old(users) ==> r == Err(NotFound(USER_NOT_FOUND))
      ensures userId in old(users) && dto.ticketTypeId !in old(ticketTypes) ==>
                r == Err(NotFound(TICKET_TYPE_NOT_FOUND))
      ensures userId in old(users) && dto.ticketTypeId in old(ticketTypes) &&
              old(ticketTypes[dto.ticketTypeId].remainingQuantity) < RequestedQuantity(dto.quantity) ==>
                r == Err(BadRequest(SOLD_OUT))
      ensures userId in old(users) && dto.ticketTypeId in old(ticketTypes) &&
              RequestedQuantity(dto.quantity) <= old(ticketTypes[dto.ticketTypeId].remainingQuantity) ==>
                if persistFails then r == Err(TransactionFailed)
                else
                  var q := RequestedQuantity(dto.quantity);
                  var tt := old(ticketTypes[dto.ticketTypeId]);
                  var id := |old(bookings)|;
                  && r == Ok(id)
                  && ticketTypes == old(ticketTypes)[dto.ticketTypeId := tt.(remainingQuantity := tt.remainingQuantity - q)]
                  && bookings == old(bookings) + [Booking(id, userId, tt.price * q, Paid, Some(PAYMENT_GATEWAY),
                                                          [BookingItem(tt.id, q, tt.price)], now)]
    {
      // startTransaction: the state a rollback returns to
      var before := ticketTypes;
      // the three checks throw before anything is written, so their rollback restores nothing
      if userId !in users {
        return Err(NotFound(USER_NOT_FOUND));
      }
      if dto.ticketTypeId !in ticketTypes {
        return Err(NotFound(TICKET_TYPE_NOT_FOUND));
      }
      var ticketType := ticketTypes[dto.ticketTypeId];
      var quantity := RequestedQuantity(dto.quantity);
      if ticketType.remainingQuantity < quantity {
        return Err(BadRequest(SOLD_OUT));
      }
      ticketType := ticketType.(remainingQuantity := ticketType.remainingQuantity - quantity);
      ticketTypes := ticketTypes[ticketType.id := ticketType];
      var totalPrice := ticketType.price * quantity;
      var item := BookingItem(ticketType.id, quantity, ticketType.price);
      var booking := Booking(|bookings|, userId, totalPrice, Paid, Some(PAYMENT_GATEWAY), [item], now);
      if persistFails {
        // rollbackTransaction: the decrement is undone
        ticketTypes := before;
        return Err(TransactionFailed);
      }
      ReservationConservesStock(before, bookings, dto.ticketTypeId, quantity, booking);
      bookings := bookings + [booking];
      // commitTransaction
      r := Ok(booking.id);
    }

    /**
     * A purchase: the reservation transaction, then, once it has committed
     * and the body asks for request_vat, the e-invoice request, whose outcome
     * (not awaited) does not affect the reply.
     */
    method CreateBooking(userId: UserId, dto: CreateBookingDto, now: nat, persistFails: bool)
      returns (r: Result<BookingReply>)
      requires Valid()
      modifies this, invoiceService
      ensures Valid()
      ensures users == old(users)
      ensures invoiceService.profiles == old(invoiceService.profiles)
      ensures r.Err? ==> unchanged(this) && unchanged(invoiceService)
      ensures userId !in old(users) ==> r == Err(NotFound(USER_NOT_FOUND))
      ensures userId in old(users) && dto.ticketTypeId !in old(ticketTypes) ==>
                r == Err(NotFound(TICKET_TYPE_NOT_FOUND))
      ensures userId in old(users) && dto.ticketTypeId in old(ticketTypes) &&
              old(ticketTypes[dto.ticketTypeId].remainingQuantity) < RequestedQuantity(dto.quantity) ==>
                r == Err(BadRequest(SOLD_OUT))
      ensures userId in old(users) && dto.ticketTypeId in old(ticketTypes) &&
              RequestedQuantity(dto.quantity) <= old(ticketTypes[dto.ticketTypeId].remainingQuantity) ==>
                if persistFails then r == Err(TransactionFailed)
                else
                  var q := RequestedQuantity(dto.quantity);
                  var tt := old(ticketTypes[dto.ticketTypeId]);
                  var id := |old(bookings)|;
                  && r == Ok(BookingReply("success", id, MY_TICKETS_URL))
                  && ticketTypes == old(ticketTypes)[dto.ticketTypeId := tt.(remainingQuantity := tt.remainingQuantity - q)]
                  && bookings == old(bookings) + [Booking(id, userId, tt.price * q, Paid, Some(PAYMENT_GATEWAY),
                                                          [BookingItem(tt.id, q, tt.price)], now)]
      ensures r.Ok? && dto.requestVat != Some(true) ==> unchanged(invoiceService)
      ensures r.Ok? && dto.requestVat == Some(true) ==>
                var profile := old(invoiceService.ProfileOf(userId));
                var n := |old(invoiceService.invoices)|;
                invoiceService.invoices ==
                  old(invoiceService.invoices) +
                  (if InvoiceService.HasTaxCode(profile)
                   then [InvoiceService.PendingInvoice(n, bookings[|bookings| - 1], profile.value, now)]
                   else [])
    {
      var outcome := Reserve(userId, dto, now, persistFails);
      if outcome.Err? {
        return Err(outcome.error);
      }
      if dto.requestVat == Some(true) {
        assert FindBooking(bookings, outcome.value) == Some(bookings[outcome.value]) by {
          FindIndexedBooking(bookings, outcome.value);
        }
        var _ := invoiceService.CreateInvoiceRequest(bookings, outcome.value, userId, now);
      }
      r := Ok(BookingReply("success", outcome.value, MY_TICKETS_URL));
    }
  }

  /**
   * Purchases serialised by the row lock: n requests of one ticket each
   * against one type succeed exactly min(n, stock) times and never take
   * the stock below zero.
   */
  method ReserveOneEach(svc: BookingService, userId: UserId, t: TicketTypeId, n: nat, now: nat)
    returns (successes: nat)
    requires svc.Valid() && userId in svc.users && t in svc.ticketTypes
    modifies svc, svc.invoiceService
    ensures svc.Valid() && t in svc.ticketTypes
    ensures var stock := old(svc.ticketTypes[t].remainingQuantity);
            successes == (if n < stock then n else stock)
    ensures svc.ticketTypes[t].remainingQuantity == old(svc.ticketTypes[t].remainingQuantity) - successes
    ensures 0 <= svc.ticketTypes[t].remainingQuantity
  {
    ghost var stock := svc.ticketTypes[t].remainingQuantity;
    successes := 0;
    for i := 0 to n
      invariant svc.Valid() && userId in svc.users && t in svc.ticketTypes
      invariant successes == (if i < stock then i else stock)
      invariant svc.ticketTypes[t].remainingQuantity == stock - successes
    {
      var r := svc.CreateBooking(userId, CreateBookingDto(t, Some(1), None), now, false);
      if r.Ok? {
        successes := successes + 1;
      }
    }
  }

  // ---------------------------------------------------------------------------
  // Read side

  function NewestFirstKey(b: Booking): int
  {
    -b.createdAt
  }

  ghost predicate NewestFirst(bookings: seq<Booking>)
  {
    forall i, j :: 0 <= i < j < |bookings| ==> bookings[i].createdAt >= bookings[j].createdAt
  }

  lemma SortedNewestFirst(bookings: seq<Booking>)
    requires SortedBy(bookings, NewestFirstKey)
    ensures NewestFirst(bookings)
  {
    forall i, j | 0 <= i < j < |bookings| ensures bookings[i].createdAt >= bookings[j].createdAt {
      assert NewestFirstKey(bookings[i]) <= NewestFirstKey(bookings[j]);
    }
  }

  function OwnedBy(userId: UserId): Booking -> bool
  {
    (b: Booking) => b.userId == userId
  }

  /** A user's booking history: `WHERE user_id = :userId ORDER BY created_at DESC`. */
  function MyBookings(bookings: seq<Booking>, userId: UserId): (r: seq<Booking>)
    ensures forall b :: b in r <==> b in bookings && b.userId == userId
    ensures multiset(r) <= multiset(bookings)
    ensures NewestFirst(r)
  {
    var mine := Filter(bookings, OwnedBy(userId));
    var r := SortBy(mine, NewestFirstKey);
    SortedNewestFirst(r);
    assert forall b :: b in r <==> b in mine by {
      forall b ensures b in r <==> b in mine {
        assert b in r <==> b in multiset(r);
        assert b in mine <==> b in multiset(mine);
      }
    }
    r
  }

  /** The owner check before a ticket email is sent. */
  function TicketEmailBooking(bookings: seq<Booking>, bookingId: BookingId, userId: UserId): (r: Result<Booking>)
    ensures r == Err(NotFound(BOOKING_NOT_FOUND)) <==> FindBooking(bookings, bookingId).None?
    ensures r == Err(BadRequest(NOT_OWNER)) <==>
              FindBooking(bookings, bookingId).Some? && FindBooking(bookings, bookingId).value.userId != userId
    ensures r.Ok? ==> r.value in bookings && r.value.id == bookingId && r.value.userId == userId
  {
    match FindBooking(bookings, bookingId)
    case None => Err(NotFound(BOOKING_NOT_FOUND))
    case Some(b) => if b.userId != userId then Err(BadRequest(NOT_OWNER)) else Ok(b)
  }

  /** In the booking table, whose ids are positions, the email goes out exactly for the owner's booking. */
  lemma TicketEmailOnlyForOwner(bookings: seq<Booking>, bookingId: BookingId, userId: UserId)
    requires IdsArePositions(bookings)
    ensures TicketEmailBooking(bookings, bookingId, userId).Ok? <==>
              bookingId < |bookings| && bookings[bookingId].userId == userId
  {
    var found := FindBooking(bookings, bookingId);
    if bookingId < |bookings| {
      assert bookings[bookingId] in bookings;
      assert found.Some?;
      var k :| 0 <= k < |bookings| && bookings[k] == found.value;
      assert k == bookingId;
    }
  }

  function Sum(xs: seq<int>): int
  {
    if xs == [] then 0 else Sum(xs[..|xs| - 1]) + xs[|xs| - 1]
  }

  /** SQL SUM: NULL over no rows. */
  function SqlSum(xs: seq<int>): (r: Option<int>)
    ensures r.None? <==> xs == []
  {
    if xs == [] then None else Some(Sum(xs))
  }

  /** total_amount of every PAID booking, in table order. */
  function PaidTotals(bookings: seq<Booking>): seq<int>
  {
    if bookings == [] then []
    else
      var last := bookings[|bookings| - 1];
      PaidTotals(bookings[..|bookings| - 1]) + (if last.status == Paid then [last.totalAmount] else [])
  }

  function ItemQuantities(items: seq<BookingItem>): seq<int>
  {
    if items == [] then [] else ItemQuantities(items[..|items| - 1]) + [items[|items| - 1].quantity]
  }

  /** quantity of every item whose booking is PAID. */
  function PaidQuantities(bookings: seq<Booking>): seq<int>
  {
    if bookings == [] then []
    else
      var last := bookings[|bookings| - 1];
      PaidQuantities(bookings[..|bookings| - 1]) + (if last.status == Paid then ItemQuantities(last.items) else [])
  }

  /** `total ? Number(total) : 0` over the SUM of PAID totals. */
  function TotalRevenue(bookings: seq<Booking>): int
  {
    match SqlSum(PaidTotals(bookings))
    case None => 0
    case Some(total) => total
  }

  /** `total ? Number(total) : 0` over the SUM of quantities of PAID bookings' items. */
  function TotalTickets(bookings: seq<Booking>): int
  {
    match SqlSum(PaidQuantities(bookings))
    case None => 0
    case Some(total) => total
  }

  /** The five newest bookings: `ORDER BY created_at DESC LIMIT 5`. */
  function RecentBookings(bookings: seq<Booking>): seq<Booking>
  {
    Take(SortBy(bookings, NewestFirstKey), RECENT_COUNT)
  }

  datatype DashboardStats = DashboardStats(totalRevenue: int, totalTickets: int, recentBookings: seq<Booking>)

  function GetDashboardStats(bookings: seq<Booking>): DashboardStats
  {
    DashboardStats(TotalRevenue(bookings), TotalTickets(bookings), RecentBookings(bookings))
  }

  lemma {:induction false} SumAppend(xs: seq<int>, ys: seq<int>)
    ensures Sum(xs + ys) == Sum(xs) + Sum(ys)
    decreases |ys|
  {
    if ys != [] {
      var zs := xs + ys;
      assert zs[..|zs| - 1] == xs + ys[..|ys| - 1];
      SumAppend(xs, ys[..|ys| - 1]);
    } else {
      assert xs + ys == xs;
    }
  }

  /** Revenue is the sum of PAID totals, and 0 when there are none. */
  lemma {:induction false} RevenueIsPaidSum(bookings: seq<Booking>)
    ensures TotalRevenue(bookings) == Sum(PaidTotals(bookings))
    ensures (forall b :: b in bookings ==> b.status != Paid) ==> TotalRevenue(bookings) == 0
  {
    if forall b :: b in bookings ==> b.status != Paid {
      NoPaidBookings(bookings);
    }
  }

  lemma {:induction false} NoPaidBookings(bookings: seq<Booking>)
    requires forall b :: b in bookings ==> b.status != Paid
    ensures PaidTotals(bookings) == [] && PaidQuantities(bookings) == []
  {
    if bookings != [] {
      var init := bookings[..|bookings| - 1];
      assert forall b :: b in init ==> b in bookings;
      NoPaidBookings(init);
      assert bookings[|bookings| - 1] in bookings;
    }
  }

  /** A booking adds its total to revenue and its quantities to tickets sold exactly when it is PAID. */
  lemma StatsAfterBooking(bookings: seq<Booking>, b: Booking)
    ensures TotalRevenue(bookings + [b]) == TotalRevenue(bookings) + (if b.status == Paid then b.totalAmount else 0)
    ensures TotalTickets(bookings + [b]) ==
              TotalTickets(bookings) + (if b.status == Paid then Sum(ItemQuantities(b.items)) else 0)
  {
    var all := bookings + [b];
    assert all[..|all| - 1] == bookings;
    SumAppend(PaidTotals(bookings), if b.status == Paid then [b.totalAmount] else []);
    assert Sum([b.totalAmount]) == Sum([]) + b.totalAmount;
    SumAppend(PaidQuantities(bookings), if b.status == Paid then ItemQuantities(b.items) else []);
  }

  lemma PrefixNewestFirst(sorted: seq<Booking>, n: nat)
    requires NewestFirst(sorted) && n <= |sorted|
    ensures NewestFirst(sorted[..n])
  {
  }

  /** In a newest-first list, whatever lies beyond the first n rows is no newer than row n - 1. */
  lemma {:induction false} BeyondPrefixIsOlder(sorted: seq<Booking>, n: nat, b: Booking)
    requires NewestFirst(sorted) && 0 < n <= |sorted|
    requires b in multiset(sorted) && b !in sorted[..n]
    ensures b.createdAt <= sorted[n - 1].createdAt
  {
    var j :| 0 <= j < |sorted| && sorted[j] == b;
  }

  /** The recent list holds at most five bookings, newest first, and no booking left out is newer. */
  lemma RecentAreNewest(bookings: seq<Booking>)
    ensures var r := RecentBookings(bookings);
            && |r| == (if |bookings| < RECENT_COUNT then |bookings| else RECENT_COUNT)
            && NewestFirst(r)
            && multiset(r) <= multiset(bookings)
            && forall b :: b in bookings && b !in r ==> b.createdAt <= r[|r| - 1].createdAt
  {
    var sorted := SortBy(bookings, NewestFirstKey);
    var r := RecentBookings(bookings);
    var n := |r|;
    SortedNewestFirst(sorted);
    assert r == sorted[..n];
    PrefixNewestFirst(sorted, n);
    assert sorted == r + sorted[n..];
    assert multiset(sorted) == multiset(r) + multiset(sorted[n..]);
    forall b | b in bookings && b !in r ensures b.createdAt <= r[n - 1].createdAt {
      assert b in multiset(bookings);
      BeyondPrefixIsOlder(sorted, n, b);
    }
  }
}
