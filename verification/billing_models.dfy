/** Billing domain records. The Python models are frozen pydantic models:
    here they are immutable datatypes, and every validated constructor is
    a function answering ValueError (pydantic's ValidationError is one)
    where validation fails.
 */
module BillingModels {
  import opened Common
  import opened Text
  import opened EntitlementModels
  import opened Payload

  datatype CustomerType = User | Organization {
    function Value(): string {
      match this
      case User => "user"
      case Organization => "organization"
    }
  }

  function ParseCustomerType(text: string): (r: Option<CustomerType>)
    ensures r.Some? ==> r.value.Value() == text
  {
    if text == "user" then Some(User)
    else if text == "organization" then Some(Organization)
    else None
  }

  lemma {:induction false} CustomerTypeRoundTrip(c: CustomerType)
    ensures ParseCustomerType(c.Value()) == Some(c)
  {
  }

  /** The four lifecycle states of a purchase intent. */
  datatype PurchaseIntentStatus = Pending | Completed | Expired | IntentCanceled

  datatype WebhookEventType =
    | SubscriptionCreated
    | SubscriptionUpdated
    | SubscriptionCanceledEvent
    | InvoicePaymentFailed
    | InvoicePaymentSucceeded
  {
    predicate IsSubscriptionEvent() {
      this == SubscriptionCreated || this == SubscriptionUpdated || this == SubscriptionCanceledEvent
    }
  }

  datatype InvoiceStatus = Open | Paid | Void | Uncollectible | InvoicePastDue {
    function Value(): string {
      match this
      case Open => "open"
      case Paid => "paid"
      case Void => "void"
      case Uncollectible => "uncollectible"
      case InvoicePastDue => "past_due"
    }
  }

  function ParseInvoiceStatus(text: string): (r: Option<InvoiceStatus>)
    ensures r.Some? ==> r.value.Value() == text
  {
    if text == "open" then Some(Open)
    else if text == "paid" then Some(Paid)
    else if text == "void" then Some(Void)
    else if text == "uncollectible" then Some(Uncollectible)
    else if text == "past_due" then Some(InvoicePastDue)
    else None
  }

  lemma {:induction false} InvoiceStatusRoundTrip(s: InvoiceStatus)
    ensures ParseInvoiceStatus(s.Value()) == Some(s)
  {
  }

  /** The four results of a seat reconciliation. */
  datatype SeatOutcome = InSync | Updated | OverageRequiresAction | UnderUtilized

  datatype AuditEventType =
    | SubscriptionActivated
    | SubscriptionUpdatedAudit
    | SubscriptionCanceledAudit
    | PaymentFailed
    | PaymentRecovered
    | GracePeriodExpired

  datatype PurchaseIntent = PurchaseIntent(
    intentId: string,
    customerType: CustomerType,
    customerId: string,
    planKey: PlanKey,
    billingInterval: BillingInterval,
    seatQuantity: int,
    status: PurchaseIntentStatus,
    providerSessionId: Option<string>,
    providerSessionUrl: Option<string>,
    returnUrl: Option<string>,
    cancelUrl: Option<string>,
    metadata: map<string, string>,
    expiresAt: Option<int>,
    createdAt: int,
    updatedAt: int)

  /** A purchase intent built from its required fields, everything else at
      its declared default: pending, no provider session, no metadata.
      Fewer than one seat fails validation. */
  function NewPurchaseIntent(intentId: string, customerType: CustomerType, customerId: string,
                             planKey: PlanKey, billingInterval: BillingInterval,
                             seatQuantity: int, now: int): (r: Result<PurchaseIntent>)
    ensures r.Err? <==> seatQuantity < 1
    ensures r.Err? ==> r.error == ValueError
    ensures r.Ok? ==> r.value.status == Pending && r.value.metadata == map[]
                      && r.value.seatQuantity == seatQuantity && r.value.intentId == intentId
                      && r.value.providerSessionId == None && r.value.expiresAt == None
  {
    if seatQuantity < 1 then Err(ValueError)
    else Ok(PurchaseIntent(intentId, customerType, customerId, planKey, billingInterval, seatQuantity,
                           Pending, None, None, None, None, map[], None, now, now))
  }

  datatype Subscription = Subscription(
    subscriptionId: string,
    providerId: string,
    customerType: CustomerType,
    customerId: string,
    planKey: PlanKey,
    billingInterval: BillingInterval,
    status: SubscriptionStatus,
    seatQuantity: int,
    currentPeriodStart: Option<int>,
    currentPeriodEnd: Option<int>,
    trialEnd: Option<int>,
    cancelAt: Option<int>,
    canceledAt: Option<int>,
    graceExpiresAt: Option<int>,
    metadata: map<string, string>,
    createdAt: int,
    updatedAt: int)
  {
    predicate IsPastDue() {
      status == PastDue
    }

    /** The only constraint the model declares: at least one seat. */
    predicate Valid() {
      seatQuantity >= 1
    }
  }

  /** Validates a subscription record: fewer than one seat is rejected. */
  function ValidateSubscription(s: Subscription): (r: Result<Subscription>)
    ensures r.Ok? <==> s.seatQuantity >= 1
    ensures r.Ok? ==> r.value == s && r.value.Valid()
    ensures r.Err? ==> r.error == ValueError
  {
    if s.seatQuantity < 1 then Err(ValueError) else Ok(s)
  }

  datatype InvoiceRecord = InvoiceRecord(
    invoiceId: string,
    subscriptionId: string,
    amountDue: int,
    currency: string,
    status: InvoiceStatus,
    periodStart: Option<int>,
    periodEnd: Option<int>,
    providerInvoiceId: Option<string>,
    pdfUrl: Option<string>,
    metadata: map<string, string>,
    createdAt: int,
    updatedAt: int)
  {
    predicate Valid() {
      amountDue >= 0 && |currency| == 3 && Upper(currency) == currency
    }
  }

  /** Validates an invoice: the amount must not be negative and the
      currency must be three characters long; the currency is stored
      upper-cased. */
  function ValidateInvoice(inv: InvoiceRecord): (r: Result<InvoiceRecord>)
    ensures r.Ok? <==> inv.amountDue >= 0 && |inv.currency| == 3
    ensures r.Err? ==> r.error == ValueError
    ensures r.Ok? ==> r.value == inv.(currency := Upper(inv.currency)) && r.value.Valid()
  {
    if inv.amountDue < 0 || |inv.currency| != 3 then Err(ValueError)
    else
      UpperIdempotent(inv.currency);
      Ok(inv.(currency := Upper(inv.currency)))
  }

  lemma {:induction false} UpperIdempotent(s: string)
    ensures Upper(Upper(s)) == Upper(s)
  {
  }

  /** A normalized webhook, kept for idempotency. */
  datatype WebhookEvent = WebhookEvent(eventId: string, eventType: WebhookEventType,
                                       payload: map<string, Json>, receivedAt: int)

  datatype AuditEvent = AuditEvent(
    eventType: AuditEventType,
    subscriptionId: Option<string>,
    actorId: Option<string>,
    metadata: map<string, string>,
    occurredAt: int)

  datatype PaymentFailure = PaymentFailure(
    subscriptionId: string,
    invoiceId: Option<string>,
    amountDue: int,
    currency: string,
    occurredAt: int,
    graceExpiresAt: Option<int>)

  datatype CheckoutSession = CheckoutSession(intent: PurchaseIntent, checkoutUrl: string, expiresAt: Option<int>)

  datatype SeatReconciliationResult = SeatReconciliationResult(
    subscriptionId: string,
    memberCount: int,
    seatQuantity: int,
    outcome: SeatOutcome,
    updatedSubscription: Option<Subscription>)
}
