/** The notification service as the mock that records every e-mail it
    would send: a list in send order plus an index by recipient. Message
    bodies are formatting only and are not kept. */
module Notifications {
  import opened Wrappers
  import opened Domain
  import opened Seqs
  import opened OrderEntities

  datatype EmailType =
    | OrderConfirmation
    | PhysicalFulfillment
    | VirtualFulfillment
    | FulfillmentFailureCustomer
    | FulfillmentFailureOps
    | ShippingNotification
    | DeliveryNotification
    | OrderCompletion

  /** The type tag stored with each record. */
  function TypeName(t: EmailType): string {
    match t
    case OrderConfirmation => "ORDER_CONFIRMATION"
    case PhysicalFulfillment => "PHYSICAL_FULFILLMENT"
    case VirtualFulfillment => "VIRTUAL_FULFILLMENT"
    case FulfillmentFailureCustomer => "FULFILLMENT_FAILURE_CUSTOMER"
    case FulfillmentFailureOps => "FULFILLMENT_FAILURE_OPS"
    case ShippingNotification => "SHIPPING_NOTIFICATION"
    case DeliveryNotification => "DELIVERY_NOTIFICATION"
    case OrderCompletion => "ORDER_COMPLETION"
  }

  /** The fixed internal addresses. */
  const FulfillmentTeam: string := "fulfillment-team@loyalty-portal.com"
  const Operations: string := "operations@loyalty-portal.com"

  datatype EmailRecord = EmailRecord(recipient: string, subject: string, emailType: EmailType, sentAt: Time)

  /** The list of sent e-mails and the per-recipient lists. */
  datatype MailLog = MailLog(sent: seq<EmailRecord>, byRecipient: map<string, seq<EmailRecord>>)

  const EmptyLog: MailLog := MailLog([], map[])

  /** `getEmailsByRecipient`: the recipient's list, or an empty one. */
  function EmailsByRecipient(log: MailLog, recipient: string): seq<EmailRecord> {
    if recipient in log.byRecipient then log.byRecipient[recipient] else []
  }

  /** The recipient index agrees with the list: each recipient's entry is
      exactly that recipient's e-mails, in send order. */
  ghost predicate IndexConsistent(log: MailLog) {
    forall recipient :: EmailsByRecipient(log, recipient)
      == Filter(log.sent, (e: EmailRecord) => e.recipient == recipient)
  }

  lemma EmptyLogConsistent()
    ensures IndexConsistent(EmptyLog)
  {
  }

  /** `recordSentEmail`: the same record goes at the end of the list and at
      the end of its recipient's list; the index stays consistent. */
  function RecordSentEmail(log: MailLog, recipient: string, subject: string, t: EmailType, now: Time): (r: MailLog)
    ensures r.sent == log.sent + [EmailRecord(recipient, subject, t, now)]
    ensures EmailsByRecipient(r, recipient) == EmailsByRecipient(log, recipient) + [EmailRecord(recipient, subject, t, now)]
    ensures forall other :: other != recipient ==> EmailsByRecipient(r, other) == EmailsByRecipient(log, other)
    ensures IndexConsistent(log) ==> IndexConsistent(r)
  {
    var e := EmailRecord(recipient, subject, t, now);
    var r := MailLog(log.sent + [e], log.byRecipient[recipient := EmailsByRecipient(log, recipient) + [e]]);
    RecordKeepsIndex(log, e, r);
    r
  }

  lemma RecordKeepsIndex(log: MailLog, e: EmailRecord, r: MailLog)
    requires r.sent == log.sent + [e]
    requires r.byRecipient == log.byRecipient[e.recipient := EmailsByRecipient(log, e.recipient) + [e]]
    ensures IndexConsistent(log) ==> IndexConsistent(r)
  {
    if IndexConsistent(log) {
      forall other
        ensures EmailsByRecipient(r, other) == Filter(r.sent, (x: EmailRecord) => x.recipient == other)
      {
        FilterAppend(log.sent, [e], (x: EmailRecord) => x.recipient == other);
        assert EmailsByRecipient(log, other) == Filter(log.sent, (x: EmailRecord) => x.recipient == other);
      }
    }
  }

  function SendOrderConfirmation(log: MailLog, o: RedemptionOrder, now: Time): (r: MailLog)
    ensures r.sent == log.sent + [EmailRecord(o.accountManager.email, "Order Confirmation - " + o.orderNumber, OrderConfirmation, now)]
    ensures IndexConsistent(log) ==> IndexConsistent(r)
  {
    RecordSentEmail(log, o.accountManager.email, "Order Confirmation - " + o.orderNumber, OrderConfirmation, now)
  }

  /** Physical lines are announced to the fulfilment team, not the customer. */
  function SendPhysicalFulfillmentNotification(log: MailLog, o: RedemptionOrder, now: Time): (r: MailLog)
    ensures r.sent == log.sent + [EmailRecord(FulfillmentTeam, "Physical Fulfillment Required - " + o.orderNumber, PhysicalFulfillment, now)]
    ensures IndexConsistent(log) ==> IndexConsistent(r)
  {
    RecordSentEmail(log, FulfillmentTeam, "Physical Fulfillment Required - " + o.orderNumber, PhysicalFulfillment, now)
  }

  function SendVirtualFulfillmentNotification(log: MailLog, o: RedemptionOrder, now: Time): (r: MailLog)
    ensures r.sent == log.sent + [EmailRecord(o.accountManager.email, "Virtual Item Delivered - " + o.orderNumber, VirtualFulfillment, now)]
    ensures IndexConsistent(log) ==> IndexConsistent(r)
  {
    RecordSentEmail(log, o.accountManager.email, "Virtual Item Delivered - " + o.orderNumber, VirtualFulfillment, now)
  }

  /** A fulfilment failure is reported twice: to the customer, then to
      operations, under the same subject. */
  function SendFulfillmentFailureNotification(log: MailLog, o: RedemptionOrder, now: Time): (r: MailLog)
    ensures r.sent == log.sent + [
      EmailRecord(o.accountManager.email, "Fulfillment Issue - " + o.orderNumber, FulfillmentFailureCustomer, now),
      EmailRecord(Operations, "Fulfillment Issue - " + o.orderNumber, FulfillmentFailureOps, now)]
    ensures IndexConsistent(log) ==> IndexConsistent(r)
  {
    var subject := "Fulfillment Issue - " + o.orderNumber;
    var once := RecordSentEmail(log, o.accountManager.email, subject, FulfillmentFailureCustomer, now);
    RecordSentEmail(once, Operations, subject, FulfillmentFailureOps, now)
  }

  function SendShippingNotification(log: MailLog, o: RedemptionOrder, now: Time): (r: MailLog)
    ensures r.sent == log.sent + [EmailRecord(o.accountManager.email, "Item Shipped - " + o.orderNumber, ShippingNotification, now)]
    ensures IndexConsistent(log) ==> IndexConsistent(r)
  {
    RecordSentEmail(log, o.accountManager.email, "Item Shipped - " + o.orderNumber, ShippingNotification, now)
  }

  function SendDeliveryNotification(log: MailLog, o: RedemptionOrder, now: Time): (r: MailLog)
    ensures r.sent == log.sent + [EmailRecord(o.accountManager.email, "Item Delivered - " + o.orderNumber, DeliveryNotification, now)]
    ensures IndexConsistent(log) ==> IndexConsistent(r)
  {
    RecordSentEmail(log, o.accountManager.email, "Item Delivered - " + o.orderNumber, DeliveryNotification, now)
  }

  function SendOrderCompletionNotification(log: MailLog, o: RedemptionOrder, now: Time): (r: MailLog)
    ensures r.sent == log.sent + [EmailRecord(o.accountManager.email, "Order Complete - " + o.orderNumber, OrderCompletion, now)]
    ensures IndexConsistent(log) ==> IndexConsistent(r)
  {
    RecordSentEmail(log, o.accountManager.email, "Order Complete - " + o.orderNumber, OrderCompletion, now)
  }

  /** `getEmailsByType`: the e-mails of one type, in send order. */
  function GetEmailsByType(log: MailLog, t: EmailType): (r: seq<EmailRecord>)
    ensures forall i :: 0 <= i < |r| ==> r[i] in log.sent && r[i].emailType == t
    ensures forall i :: 0 <= i < |log.sent| && log.sent[i].emailType == t ==> log.sent[i] in r
  {
    Filter(log.sent, (e: EmailRecord) => e.emailType == t)
  }

  /** The number of e-mails of one type in a list. */
  function TypeCount(sent: seq<EmailRecord>, t: EmailType): nat {
    Count(sent, (e: EmailRecord) => e.emailType == t)
  }

  /** `getEmailCountByType`: how many e-mails of one type were sent; the
      length of `getEmailsByType`. */
  function GetEmailCountByType(log: MailLog, t: EmailType): (n: nat)
    ensures n == |GetEmailsByType(log, t)|
    ensures n <= |log.sent|
  {
    CountIsFilterLength(log.sent, (e: EmailRecord) => e.emailType == t);
    TypeCount(log.sent, t)
  }

  /** Sending adds one e-mail of its type, and leaves the other counts. */
  lemma CountAfterRecord(log: MailLog, recipient: string, subject: string, t: EmailType, now: Time, u: EmailType)
    ensures GetEmailCountByType(RecordSentEmail(log, recipient, subject, t, now), u)
      == GetEmailCountByType(log, u) + (if t == u then 1 else 0)
  {
    CountAppend(log.sent, [EmailRecord(recipient, subject, t, now)], (e: EmailRecord) => e.emailType == u);
  }

  /** The sum of the eight per-type counts. */
  function AllTypeCounts(sent: seq<EmailRecord>): nat {
    TypeCount(sent, OrderConfirmation) + TypeCount(sent, PhysicalFulfillment)
    + TypeCount(sent, VirtualFulfillment) + TypeCount(sent, FulfillmentFailureCustomer)
    + TypeCount(sent, FulfillmentFailureOps) + TypeCount(sent, ShippingNotification)
    + TypeCount(sent, DeliveryNotification) + TypeCount(sent, OrderCompletion)
  }

  lemma TypeCountCons(sent: seq<EmailRecord>, t: EmailType)
    requires sent != []
    ensures TypeCount(sent, t) == (if sent[0].emailType == t then 1 else 0) + TypeCount(sent[1..], t)
  {
  }

  /** The eight per-type counts add up to the number of e-mails sent. */
  lemma {:induction false} TypeCountsSumToTotal(sent: seq<EmailRecord>)
    ensures AllTypeCounts(sent) == |sent|
  {
    if sent != [] {
      TypeCountsSumToTotal(sent[1..]);
      TypeCountCons(sent, OrderConfirmation);
      TypeCountCons(sent, PhysicalFulfillment);
      TypeCountCons(sent, VirtualFulfillment);
      TypeCountCons(sent, FulfillmentFailureCustomer);
      TypeCountCons(sent, FulfillmentFailureOps);
      TypeCountCons(sent, ShippingNotification);
      TypeCountCons(sent, DeliveryNotification);
      TypeCountCons(sent, OrderCompletion);
    }
  }

  datatype NotificationStatistics = NotificationStatistics(totalEmails: nat, emailsByType: map<EmailType, nat>)

  /** A type's count in the statistics, absent types reading as zero. */
  function StatCount(s: NotificationStatistics, t: EmailType): nat {
    if t in s.emailsByType then s.emailsByType[t] else 0
  }

  /** `getStatistics`: the total, and a count for each type that occurs
      (grouping never produces an empty group). */
  function GetStatistics(log: MailLog): (r: NotificationStatistics)
    ensures r.totalEmails == |log.sent|
    ensures forall t :: t in r.emailsByType <==> GetEmailCountByType(log, t) > 0
    ensures forall t :: StatCount(r, t) == GetEmailCountByType(log, t)
  {
    NotificationStatistics(|log.sent|,
      map t: EmailType | GetEmailCountByType(log, t) > 0 :: GetEmailCountByType(log, t))
  }

  /** The statistics' counts add up to the total. */
  lemma StatisticsSumToTotal(log: MailLog)
    ensures var s := GetStatistics(log);
      StatCount(s, OrderConfirmation) + StatCount(s, PhysicalFulfillment)
      + StatCount(s, VirtualFulfillment) + StatCount(s, FulfillmentFailureCustomer)
      + StatCount(s, FulfillmentFailureOps) + StatCount(s, ShippingNotification)
      + StatCount(s, DeliveryNotification) + StatCount(s, OrderCompletion) == s.totalEmails
  {
    TypeCountsSumToTotal(log.sent);
  }

  /** `clearEmailHistory`: both the list and the index are emptied. */
  function ClearEmailHistory(log: MailLog): (r: MailLog)
    ensures r.sent == [] && r.byRecipient == map[]
    ensures IndexConsistent(r)
    ensures forall t :: GetEmailCountByType(r, t) == 0
  {
    EmptyLog
  }
}
