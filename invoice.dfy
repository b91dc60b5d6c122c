/**
 * The e-invoice request: after a booking asks for a VAT invoice, a PENDING
 * invoice row is stored from the buyer's tax profile, and the provider's
 * answer later moves it to SUCCESS or FAILED.
 */
module InvoiceService {
  import opened Common
  import BookingEntities

  /** The VAT part of a user profile; every column may be empty. */
  datatype UserProfile = UserProfile(taxCode: Option<string>, companyName: Option<string>, address: Option<string>)

  datatype InvoiceStatus = Pending | Success | Failed

  datatype Invoice = Invoice(
    id: nat,
    bookingId: BookingEntities.BookingId,
    invoiceCode: string,
    amount: int,
    taxCode: string,
    companyName: Option<string>,
    companyAddress: Option<string>,
    status: InvoiceStatus,
    pdfUrl: Option<string>)

  /** What the e-invoice provider reports back for one request. */
  datatype ProviderResult = Issued(eInvoiceCode: string, pdfUrl: string) | Rejected

  /** The reply of a request: nothing when the profile has no tax code. */
  datatype InvoiceRequestReply = NoTaxCode | Received(message: string, invoiceId: nat)

  const RECEIVED_MESSAGE := "Invoice request received"

  /** The temporary code an invoice carries until the provider issues one. */
  function TempCode(now: nat): (code: string)
    ensures IsTempCode(code)
  {
    "TEMP-" + Decimal(now)
  }

  predicate IsTempCode(code: string)
  {
    |code| > 5 && code[..5] == "TEMP-" && AllDigits(code[5..])
  }

  /** A profile lets an invoice be created only when it has a non-empty tax code. */
  predicate HasTaxCode(profile: Option<UserProfile>)
  {
    profile.Some? && Truthy(profile.value.taxCode)
  }

  /** The row stored for a request: a snapshot of the booking total and the profile's VAT data. */
  function PendingInvoice(id: nat, booking: BookingEntities.Booking, profile: UserProfile, now: nat): (inv: Invoice)
    requires Truthy(profile.taxCode)
    ensures inv.status == Pending && inv.pdfUrl.None? && IsTempCode(inv.invoiceCode)
    ensures inv.amount == booking.totalAmount && inv.bookingId == booking.id
    ensures Some(inv.taxCode) == profile.taxCode && inv.companyName == profile.companyName
    ensures inv.companyAddress == profile.address
  {
    Invoice(id, booking.id, TempCode(now), booking.totalAmount, profile.taxCode.value,
            profile.companyName, profile.address, Pending, None)
  }

  class InvoiceService {
    /** user_profiles, keyed by the owning user */
    var profiles: map<BookingEntities.UserId, UserProfile>
    /** the invoices table; an invoice's id is its position */
    var invoices: seq<Invoice>
    /** invoices whose provider call has been made and has not yet answered */
    var awaitingProvider: set<nat>

    /**
     * The invoice lifecycle: an invoice is PENDING exactly while its provider
     * call is outstanding; only SUCCESS carries an issued code and a PDF link.
     */
    ghost predicate Valid()
      reads this
    {
      && (forall i :: 0 <= i < |invoices| ==> invoices[i].id == i)
      && (forall i :: i in awaitingProvider ==> i < |invoices|)
      && (forall i :: 0 <= i < |invoices| ==> (invoices[i].status == Pending <==> i in awaitingProvider))
      && (forall i :: 0 <= i < |invoices| && invoices[i].status != Success ==>
            IsTempCode(invoices[i].invoiceCode) && invoices[i].pdfUrl.None?)
      && (forall i :: 0 <= i < |invoices| && invoices[i].status == Success ==> invoices[i].pdfUrl.Some?)
    }

    constructor (profiles: map<BookingEntities.UserId, UserProfile>)
      ensures Valid()
      ensures this.profiles == profiles && invoices == [] && awaitingProvider == {}
    {
      this.profiles := profiles;
      invoices := [];
      awaitingProvider := {};
    }

    function ProfileOf(userId: BookingEntities.UserId): Option<UserProfile>
      reads this
    {
      if userId in profiles then Some(profiles[userId]) else None
    }

    /**
     * Stores a PENDING invoice for a booking and starts the provider call.
     * `now` is the clock reading that names the temporary invoice code.
     */
    method CreateInvoiceRequest(bookings: seq<BookingEntities.Booking>, bookingId: BookingEntities.BookingId,
                                userId: BookingEntities.UserId, now: nat)
      returns (r: Result<InvoiceRequestReply>)
      requires Valid()
      modifies this
      ensures Valid() && profiles == old(profiles)
      ensures BookingEntities.FindBooking(bookings, bookingId).None? ==>
                r == Err(NotFound("Booking not found")) &&
                invoices == old(invoices) && awaitingProvider == old(awaitingProvider)
      ensures BookingEntities.FindBooking(bookings, bookingId).Some? && !HasTaxCode(old(ProfileOf(userId))) ==>
                r == Ok(NoTaxCode) && invoices == old(invoices) && awaitingProvider == old(awaitingProvider)
      ensures BookingEntities.FindBooking(bookings, bookingId).Some? && HasTaxCode(old(ProfileOf(userId))) ==>
                var id := |old(invoices)|;
                && r == Ok(Received(RECEIVED_MESSAGE, id))
                && invoices == old(invoices) + [PendingInvoice(id, BookingEntities.FindBooking(bookings, bookingId).value,
                                                               old(ProfileOf(userId)).value, now)]
                && awaitingProvider == old(awaitingProvider) + {id}
    {
      var booking := BookingEntities.FindBooking(bookings, bookingId);
      if booking.None? {
        return Err(NotFound("Booking not found"));
      }
      var profile := ProfileOf(userId);
      if !HasTaxCode(profile) {
        return Ok(NoTaxCode);
      }
      var id := |invoices|;
      var newInvoice := PendingInvoice(id, booking.value, profile.value, now);
      invoices := invoices + [newInvoice];
      awaitingProvider := awaitingProvider + {id};
      r := Ok(Received(RECEIVED_MESSAGE, id));
    }

    /**
     * The provider's answer for invoice `id`: SUCCESS with the issued code and
     * PDF link, or FAILED keeping the temporary code. It runs once per request.
     */
    method OnProviderResult(id: nat, result: ProviderResult)
      requires Valid()
      requires id in awaitingProvider
      modifies this
      ensures Valid() && profiles == old(profiles)
      ensures |invoices| == |old(invoices)|
      ensures awaitingProvider == old(awaitingProvider) - {id}
      ensures forall i :: 0 <= i < |invoices| && i != id ==> invoices[i] == old(invoices[i])
      ensures old(invoices[id].status) == Pending
      ensures result.Issued? ==>
                invoices[id] == old(invoices[id]).(status := Success, invoiceCode := result.eInvoiceCode,
                                                   pdfUrl := Some(result.pdfUrl))
      ensures result.Rejected? ==> invoices[id] == old(invoices[id]).(status := Failed)
    {
      var invoice := invoices[id];
      if result.Issued? {
        invoice := invoice.(status := Success);
        invoice := invoice.(invoiceCode := result.eInvoiceCode);
        invoice := invoice.(pdfUrl := Some(result.pdfUrl));
      } else {
        invoice := invoice.(status := Failed);
      }
      invoices := invoices[id := invoice];
      awaitingProvider := awaitingProvider - {id};
    }
  }
}
