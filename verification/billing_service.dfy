/** The billing service as a state machine.

    The repository is the record of maps the in-memory test repository
    keeps; the notifier, the audit logger, the entitlement invalidator and
    the payment provider's checkout and seat-update calls are append-only
    traces in the same record. Every operation returns its result together
    with the state after it, so the effects that happen before an
    exception is raised stay visible.

    The wall clock (`_now`) is the explicit instant `now`, one per call;
    `uuid4().hex` is the explicit string `uuidHex`. The provider is a
    function from the checkout request to its reply (or to the error it
    raises), and the outcome of a seat update is an explicit argument.
 */
module Billing {
  import opened Common
  import opened EntitlementModels
  import opened Payload
  import opened BillingModels
  import EntitlementCache
  import Entitlements

  const DefaultGracePeriodDays: int := 7
  const SecondsPerDay: int := 86400

  datatype BillingConfig = BillingConfig(gracePeriodDays: int, isoParse: string -> Option<int>)

  /** Calls made on the notifier. */
  datatype Notice =
    | PaymentFailureNotice(failure: PaymentFailure)
    | GraceExpiredNotice(subscription: Subscription)
    | SeatOverageNotice(subscription: Subscription, memberCount: int)

  /** The arguments of a provider checkout-session call. */
  datatype CheckoutRequest = CheckoutRequest(
    customerType: CustomerType,
    customerId: string,
    planKey: PlanKey,
    billingInterval: BillingInterval,
    seatQuantity: int,
    metadata: map<string, string>,
    returnUrl: string,
    cancelUrl: string)

  /** The fields the service reads from the provider's checkout reply. */
  datatype ProviderSession = ProviderSession(
    id: Option<string>,
    url: Option<string>,
    expiresAt: Option<int>,
    metadata: Option<map<string, string>>)

  /** A provider seat-update call: provider subscription id and seats. */
  datatype SeatRequest = SeatRequest(providerId: string, seatQuantity: int)

  /** How the guarded block of an overage reconciliation ends: the
      provider call raises; or it returns `updated` and then the upsert
      raises, or the first invalidation call raises, or all succeed. */
  datatype SeatAttempt =
    | ProviderRaises
    | UpsertRaises(updated: Subscription)
    | InvalidatorRaises(updated: Subscription)
    | Succeeds(updated: Subscription)

  datatype BillingState = BillingState(
    intents: map<string, PurchaseIntent>,
    sessionIndex: map<string, string>,
    subscriptions: map<string, Subscription>,
    invoices: map<string, InvoiceRecord>,
    webhookEvents: set<string>,
    reconciliations: seq<SeatReconciliationResult>,
    audit: seq<AuditEvent>,
    notices: seq<Notice>,
    invalidations: seq<Entitlements.Invalidation>,
    checkoutRequests: seq<CheckoutRequest>,
    seatRequests: seq<SeatRequest>)

  /** An operation's result with the state after it. */
  datatype Step<T> = Step(result: Result<T>, state: BillingState)

  /** What every stored record satisfies: each map is keyed by the record's
      own id, the session index points at stored intents, and stored
      subscriptions and invoices passed validation. */
  predicate Wellformed(st: BillingState) {
    (forall k :: k in st.intents ==> st.intents[k].intentId == k)
    && (forall s :: s in st.sessionIndex ==> st.sessionIndex[s] in st.intents)
    && (forall k :: k in st.subscriptions ==> st.subscriptions[k].subscriptionId == k && st.subscriptions[k].Valid())
    && (forall k :: k in st.invoices ==> st.invoices[k].invoiceId == k && st.invoices[k].Valid())
  }

  /** A subscription carries a grace deadline exactly while it is past due. */
  predicate GraceConsistent(s: Subscription) {
    s.graceExpiresAt.Some? <==> s.status == PastDue
  }

  // ---------------------------------------------------------------------
  // Repository and collaborator effects

  /** `save_purchase_intent`: files the intent under its id and, when it
      has a provider session id, indexes the session. */
  function SaveIntent(st: BillingState, intent: PurchaseIntent): (r: BillingState)
    ensures r.intents == st.intents[intent.intentId := intent]
    ensures r.subscriptions == st.subscriptions && r.invoices == st.invoices
    ensures Wellformed(st) ==> Wellformed(r)
  {
    var index := if Truthy(intent.providerSessionId)
                 then st.sessionIndex[intent.providerSessionId.value := intent.intentId]
                 else st.sessionIndex;
    st.(intents := st.intents[intent.intentId := intent], sessionIndex := index)
  }

  /** The records a webhook handler reads and writes besides its own log. */
  predicate SameRecords(st: BillingState, r: BillingState) {
    r.intents == st.intents && r.sessionIndex == st.sessionIndex && r.webhookEvents == st.webhookEvents
  }

  function UpsertSubscription(st: BillingState, s: Subscription): (r: BillingState)
    ensures r.subscriptions == st.subscriptions[s.subscriptionId := s]
    ensures SameRecords(st, r) && r.invoices == st.invoices && r.audit == st.audit
    ensures r.notices == st.notices && r.invalidations == st.invalidations
    ensures Wellformed(st) && s.Valid() ==> Wellformed(r)
  {
    st.(subscriptions := st.subscriptions[s.subscriptionId := s])
  }

  /** `save_invoice` of the in-memory repository. */
  function SaveInvoice(st: BillingState, inv: InvoiceRecord): (r: BillingState)
    ensures r.invoices == st.invoices[inv.invoiceId := inv]
    ensures SameRecords(st, r) && r.subscriptions == st.subscriptions && r.audit == st.audit
    ensures r.notices == st.notices && r.invalidations == st.invalidations
    ensures Wellformed(st) && inv.Valid() ==> Wellformed(r)
  {
    st.(invoices := st.invoices[inv.invoiceId := inv])
  }

  function Log(st: BillingState, e: AuditEvent): (r: BillingState)
    ensures r.audit == st.audit + [e]
    ensures SameRecords(st, r) && r.subscriptions == st.subscriptions && r.invoices == st.invoices
    ensures r.notices == st.notices && r.invalidations == st.invalidations
    ensures Wellformed(st) ==> Wellformed(r)
  {
    st.(audit := st.audit + [e])
  }

  function Notify(st: BillingState, n: Notice): (r: BillingState)
    ensures r.notices == st.notices + [n]
    ensures SameRecords(st, r) && r.subscriptions == st.subscriptions && r.invoices == st.invoices
    ensures r.audit == st.audit && r.invalidations == st.invalidations
    ensures Wellformed(st) ==> Wellformed(r)
  {
    st.(notices := st.notices + [n])
  }

  /** The invalidator calls `_invalidate_entitlements` makes: the
      subscription, then the customer as a user or as an organization. */
  function InvalidationsFor(s: Subscription): (calls: seq<Entitlements.Invalidation>)
    ensures |calls| == 2 && calls[0] == Entitlements.InvalidateSubscription(s.subscriptionId)
    ensures s.customerType == User ==> calls[1] == Entitlements.InvalidateUser(s.customerId)
    ensures s.customerType == Organization ==> calls[1] == Entitlements.InvalidateOrganization(s.customerId)
  {
    [Entitlements.InvalidateSubscription(s.subscriptionId),
     if s.customerType == User then Entitlements.InvalidateUser(s.customerId)
     else Entitlements.InvalidateOrganization(s.customerId)]
  }

  function InvalidateEntitlements(st: BillingState, s: Subscription): (r: BillingState)
    ensures r.invalidations == st.invalidations + InvalidationsFor(s)
    ensures SameRecords(st, r) && r.subscriptions == st.subscriptions && r.invoices == st.invoices
    ensures r.audit == st.audit && r.notices == st.notices
    ensures Wellformed(st) ==> Wellformed(r)
  {
    st.(invalidations := st.invalidations + InvalidationsFor(s))
  }

  /** `update_subscription_status` of the in-memory repository: nothing
      for an unknown id, otherwise the stored record with the new status,
      grace deadline and update time. */
  function UpdateSubscriptionStatus(st: BillingState, subscriptionId: string, status: SubscriptionStatus,
                                    grace: Option<int>, now: int): (r: Option<(Subscription, BillingState)>)
    ensures r.None? <==> subscriptionId !in st.subscriptions
    ensures r.Some? ==> var (s, st2) := r.value;
                        s == st.subscriptions[subscriptionId].(status := status, graceExpiresAt := grace, updatedAt := now)
                        && st2 == st.(subscriptions := st.subscriptions[subscriptionId := s])
  {
    if subscriptionId !in st.subscriptions then None
    else
      var s := st.subscriptions[subscriptionId].(status := status, graceExpiresAt := grace, updatedAt := now);
      Some((s, st.(subscriptions := st.subscriptions[subscriptionId := s])))
  }

  // ---------------------------------------------------------------------
  // Checkout

  /** The id given to a new purchase intent. */
  function IntentId(uuidHex: string): string {
    "pi_" + uuidHex
  }

  /** `create_checkout_session`. Fewer than one seat is refused before
      anything is stored or the provider is called. Otherwise a pending
      intent is stored, the provider is asked for a session with the
      intent id under `purchase_intent_id` (caller metadata wins on a
      clash), and the intent is stored again with the session's id, url,
      expiry and metadata. A provider failure leaves the pending intent
      stored. */
  function CreateCheckoutSession(st: BillingState, now: int, uuidHex: string,
                                 provider: CheckoutRequest -> Result<ProviderSession>,
                                 customerType: CustomerType, customerId: string, planKey: PlanKey,
                                 billingInterval: BillingInterval, seatQuantity: int,
                                 returnUrl: string, cancelUrl: string,
                                 metadata: Option<map<string, string>>): (r: Step<CheckoutSession>)
    ensures seatQuantity < 1 ==> r == Step(Err(ValueError), st)
    ensures seatQuantity >= 1 ==>
      && |r.state.checkoutRequests| == |st.checkoutRequests| + 1
      && r.state.checkoutRequests[..|st.checkoutRequests|] == st.checkoutRequests
      && var request := r.state.checkoutRequests[|st.checkoutRequests|];
         && request.seatQuantity == seatQuantity
         && (forall k :: k in request.metadata <==> k == "purchase_intent_id" || k in metadata.GetOr(map[]))
         && (forall k :: k in metadata.GetOr(map[]) ==> request.metadata[k] == metadata.GetOr(map[])[k])
         && ("purchase_intent_id" !in metadata.GetOr(map[]) ==> request.metadata["purchase_intent_id"] == IntentId(uuidHex))
         && IntentId(uuidHex) in r.state.intents
         && r.state.intents[IntentId(uuidHex)].status == Pending
         && r.state.intents[IntentId(uuidHex)].seatQuantity == seatQuantity
         && (r.result.Err? ==> provider(request).Err? && r.result.error == provider(request).error
                               && r.state.intents[IntentId(uuidHex)].providerSessionId == None)
         && (r.result.Ok? ==>
               && provider(request).Ok?
               && var reply := provider(request).value;
               && r.result.value.intent == r.state.intents[IntentId(uuidHex)]
               && r.result.value.intent.providerSessionId == reply.id
               && r.result.value.expiresAt == reply.expiresAt
               && (Truthy(reply.url) ==> r.result.value.checkoutUrl == reply.url.value)
               && (!Truthy(reply.url) ==> r.result.value.checkoutUrl == "")
               && (Truthy(reply.id) ==> reply.id.value in r.state.sessionIndex
                                        && r.state.sessionIndex[reply.id.value] == IntentId(uuidHex)))
    ensures forall k :: k != IntentId(uuidHex) ==> (k in r.state.intents <==> k in st.intents)
    ensures r.state.subscriptions == st.subscriptions && r.state.audit == st.audit
    ensures Wellformed(st) ==> Wellformed(r.state)
  {
    if seatQuantity < 1 then Step(Err(ValueError), st)
    else
      var intentId := IntentId(uuidHex);
      var pending := NewPurchaseIntent(intentId, customerType, customerId, planKey, billingInterval, seatQuantity, now);
      var intent := pending.value.(returnUrl := Some(returnUrl), cancelUrl := Some(cancelUrl),
                                 metadata := metadata.GetOr(map[]));
      var st1 := SaveIntent(st, intent);
      var request := CheckoutRequest(customerType, customerId, planKey, billingInterval, seatQuantity,
                                     map["purchase_intent_id" := intentId] + intent.metadata,
                                     returnUrl, cancelUrl);
      var st2 := st1.(checkoutRequests := st1.checkoutRequests + [request]);
      match provider(request)
      case Err(e) => Step(Err(e), st2)
      case Ok(reply) =>
        var updated := intent.(providerSessionId := reply.id, providerSessionUrl := reply.url,
                               expiresAt := reply.expiresAt,
                               metadata := reply.metadata.GetOr(intent.metadata), updatedAt := now);
        var st3 := SaveIntent(st2, updated);
        var url := if Truthy(updated.providerSessionUrl) then updated.providerSessionUrl.value else "";
        Step(Ok(CheckoutSession(updated, url, updated.expiresAt)), st3)
  }

  /** `get_purchase_intent_by_session`. */
  function IntentBySession(st: BillingState, sessionId: string): (r: Option<PurchaseIntent>)
    ensures r.Some? ==> sessionId in st.sessionIndex && st.sessionIndex[sessionId] in st.intents
                        && r.value == st.intents[st.sessionIndex[sessionId]]
    ensures r.None? ==> sessionId !in st.sessionIndex || st.sessionIndex[sessionId] == ""
                        || st.sessionIndex[sessionId] !in st.intents
  {
    if sessionId in st.sessionIndex && st.sessionIndex[sessionId] != "" && st.sessionIndex[sessionId] in st.intents
    then Some(st.intents[st.sessionIndex[sessionId]])
    else None
  }

  /** `mark_intent_completed`. An unknown session raises LookupError and
      changes nothing. Otherwise the intent is marked completed first, so
      it stays completed even when a later check fails: metadata without a
      `subscription_id` raises KeyError and an unknown subscription raises
      LookupError. On success the subscription is returned, its
      entitlements are invalidated and one activation is audited. */
  function MarkIntentCompleted(st: BillingState, now: int, sessionId: string): (r: Step<Subscription>)
    ensures IntentBySession(st, sessionId).None? ==> r == Step(Err(LookupError), st)
    ensures IntentBySession(st, sessionId).Some? && IntentBySession(st, sessionId).value.intentId !in st.intents
            ==> r == Step(Err(RuntimeError), st)
    ensures IntentBySession(st, sessionId).Some? && IntentBySession(st, sessionId).value.intentId in st.intents ==>
      var id := IntentBySession(st, sessionId).value.intentId;
      var metadata := st.intents[id].metadata;
      && r.state.intents == st.intents[st.intents[id].intentId := st.intents[id].(status := Completed)]
      && (r.result == Err(KeyError) <==> "subscription_id" !in metadata || metadata["subscription_id"] == "")
      && (r.result == Err(LookupError) <==> "subscription_id" in metadata && metadata["subscription_id"] != ""
                                            && metadata["subscription_id"] !in st.subscriptions)
    ensures r.result.Err? ==> r.result.error in {LookupError, KeyError, RuntimeError}
    ensures r.result.Err? ==> r.state.audit == st.audit && r.state.invalidations == st.invalidations
    ensures r.result.Ok? ==>
      && IntentBySession(st, sessionId).Some?
      && var found := IntentBySession(st, sessionId).value;
      && found.intentId in st.intents
      && var stored := st.intents[found.intentId];
      && r.state.intents == st.intents[stored.intentId := stored.(status := Completed)]
      && "subscription_id" in stored.metadata
      && stored.metadata["subscription_id"] != ""
      && stored.metadata["subscription_id"] in st.subscriptions
      && r.result.value == st.subscriptions[stored.metadata["subscription_id"]]
      && r.state.audit == st.audit + [AuditEvent(SubscriptionActivated, Some(r.result.value.subscriptionId),
                                                 Some(r.result.value.customerId), map[], now)]
      && r.state.invalidations == st.invalidations + InvalidationsFor(r.result.value)
    ensures r.state.subscriptions == st.subscriptions
    ensures Wellformed(st) ==> Wellformed(r.state)
  {
    match IntentBySession(st, sessionId)
    case None => Step(Err(LookupError), st)
    case Some(intent) =>
      if intent.intentId !in st.intents then Step(Err(RuntimeError), st)
      else
        var updated := st.intents[intent.intentId].(status := Completed);
        var st1 := SaveIntent(st, updated);
        var subscriptionId := if "subscription_id" in updated.metadata
                              then Some(updated.metadata["subscription_id"]) else None;
        if !Truthy(subscriptionId) then Step(Err(KeyError), st1)
        else if subscriptionId.value !in st1.subscriptions then Step(Err(LookupError), st1)
        else
          var s := st1.subscriptions[subscriptionId.value];
          var st2 := InvalidateEntitlements(st1, s);
          Step(Ok(s), Log(st2, AuditEvent(SubscriptionActivated, Some(s.subscriptionId), Some(s.customerId), map[], now)))
  }

  // ---------------------------------------------------------------------
  // Webhook payloads

  /** `str(...)` of a field, or the enum default when the field is absent. */
  function FieldText(fields: map<string, Json>, key: string, default: string): string {
    PyStr(Get(fields, key, JStr(default)))
  }

  /** Parses the optional datetimes under `keys`, left to right; the first
      failure is the result. */
  function ParseTimes(fields: map<string, Json>, keys: seq<string>, isoParse: string -> Option<int>): (r: Result<seq<Option<int>>>)
    ensures r.Ok? ==> |r.value| == |keys|
    ensures r.Err? ==> r.error == ValueError || r.error == TypeError
  {
    if |keys| == 0 then Ok([])
    else
      var first :- ParseOptionalDatetime(Get(fields, keys[0], JNull), isoParse);
      var rest :- ParseTimes(fields, keys[1..], isoParse);
      Ok([first] + rest)
  }

  /** The value parsed for the `i`-th key is that field's datetime. */
  lemma {:induction false} ParseTimesAt(fields: map<string, Json>, keys: seq<string>, isoParse: string -> Option<int>, i: nat)
    requires ParseTimes(fields, keys, isoParse).Ok? && i < |keys|
    ensures Ok(ParseTimes(fields, keys, isoParse).value[i]) == ParseOptionalDatetime(Get(fields, keys[i], JNull), isoParse)
    decreases i
  {
    if i > 0 {
      ParseTimesAt(fields, keys[1..], isoParse, i - 1);
      assert keys[1..][i - 1] == keys[i];
    }
  }

  /** Parsing succeeds exactly when every listed field parses, and then
      yields each field's datetime in order. */
  lemma {:induction false} ParseTimesSound(fields: map<string, Json>, keys: seq<string>, isoParse: string -> Option<int>)
    ensures (ParseTimes(fields, keys, isoParse).Ok?
             <==> forall i :: 0 <= i < |keys| ==> ParseOptionalDatetime(Get(fields, keys[i], JNull), isoParse).Ok?)
    ensures ParseTimes(fields, keys, isoParse).Ok? ==>
              forall i :: 0 <= i < |keys| ==>
                Ok(ParseTimes(fields, keys, isoParse).value[i]) == ParseOptionalDatetime(Get(fields, keys[i], JNull), isoParse)
    decreases |keys|
  {
    var r := ParseTimes(fields, keys, isoParse);
    if r.Ok? {
      forall i | 0 <= i < |keys|
        ensures Ok(r.value[i]) == ParseOptionalDatetime(Get(fields, keys[i], JNull), isoParse)
      {
        ParseTimesAt(fields, keys, isoParse, i);
      }
    } else if |keys| > 0 && ParseOptionalDatetime(Get(fields, keys[0], JNull), isoParse).Ok? {
      ParseTimesSound(fields, keys[1..], isoParse);
      var j :| 0 <= j < |keys[1..]| && !ParseOptionalDatetime(Get(fields, keys[1..][j], JNull), isoParse).Ok?;
      assert keys[1..][j] == keys[j + 1];
    }
  }

  /** The datetime fields of a subscription payload, in the order they are
      read. */
  const SubscriptionTimeKeys: seq<string> := ["current_period_start", "current_period_end", "trial_end",
    "cancel_at", "canceled_at", "grace_period_expires_at", "created_at", "updated_at"]

  /** The enum-valued fields of a subscription payload. */
  datatype SubscriptionKind = SubscriptionKind(planKey: PlanKey, billingInterval: BillingInterval,
                                               status: SubscriptionStatus, customerType: CustomerType)

  /** The plan key is required (missing or unknown: ValueError); interval,
      status and customer type default to monthly, active and user (an
      unknown value: ValueError). */
  function ParseSubscriptionKind(fields: map<string, Json>): (r: Result<SubscriptionKind>)
    ensures "plan_key" !in fields ==> r == Err(ValueError)
    ensures r.Err? ==> r.error == ValueError
    ensures r.Ok? ==> && "plan_key" in fields
                      && r.value.planKey.Value() == PyStr(fields["plan_key"])
                      && r.value.billingInterval.Value() == FieldText(fields, "billing_interval", "monthly")
                      && r.value.status.Value() == FieldText(fields, "status", "active")
                      && r.value.customerType.Value() == FieldText(fields, "customer_type", "user")
  {
    var plan := if "plan_key" in fields then ParsePlanKey(PyStr(fields["plan_key"])) else None;
    var interval := ParseBillingInterval(FieldText(fields, "billing_interval", "monthly"));
    var status := ParseSubscriptionStatus(FieldText(fields, "status", "active"));
    var customerType := ParseCustomerType(FieldText(fields, "customer_type", "user"));
    if plan.None? || interval.None? || status.None? || customerType.None? then Err(ValueError)
    else Ok(SubscriptionKind(plan.value, interval.value, status.value, customerType.value))
  }

  /** `_subscription_from_payload`: the enum fields first, then a missing
      `subscription_id` raises KeyError; the seat count goes through
      `int()`; the datetimes go through `_parse_optional_datetime`, with
      the grace deadline copied as given and created/updated defaulting to
      now; the record is then validated. */
  function SubscriptionFromPayload(config: BillingConfig, fields: map<string, Json>, now: int): (r: Result<Subscription>)
    ensures "plan_key" !in fields ==> r == Err(ValueError)
    ensures r.Err? ==> r.error in {ValueError, KeyError, TypeError}
    ensures r.Ok? ==> && r.value.Valid()
                      && ParseSubscriptionKind(fields).Ok?
                      && var kind := ParseSubscriptionKind(fields).value;
                      && r.value.planKey == kind.planKey && r.value.status == kind.status
                      && r.value.billingInterval == kind.billingInterval
                      && r.value.customerType == kind.customerType
                      && "subscription_id" in fields
                      && r.value.subscriptionId == PyStr(fields["subscription_id"])
                      && Ok(r.value.seatQuantity) == PyInt(Get(fields, "seat_quantity", JInt(1)))
                      && Ok(r.value.graceExpiresAt)
                           == ParseOptionalDatetime(Get(fields, "grace_period_expires_at", JNull), config.isoParse)
  {
    var kind :- ParseSubscriptionKind(fields);
    if "subscription_id" !in fields then Err(KeyError)
    else SubscriptionOfKind(config, fields, now, kind)
  }

  /** The rest of `_subscription_from_payload` once the kind is parsed and
      the id is known to be present. */
  function SubscriptionOfKind(config: BillingConfig, fields: map<string, Json>, now: int, kind: SubscriptionKind): (r: Result<Subscription>)
    requires "subscription_id" in fields
    ensures r.Err? ==> r.error in {ValueError, TypeError}
    ensures r.Ok? ==> && r.value.Valid()
                      && r.value.planKey == kind.planKey && r.value.status == kind.status
                      && r.value.billingInterval == kind.billingInterval
                      && r.value.customerType == kind.customerType
                      && r.value.subscriptionId == PyStr(fields["subscription_id"])
                      && Ok(r.value.seatQuantity) == PyInt(Get(fields, "seat_quantity", JInt(1)))
                      && Ok(r.value.graceExpiresAt)
                           == ParseOptionalDatetime(Get(fields, "grace_period_expires_at", JNull), config.isoParse)
  {
    var seats :- PyInt(Get(fields, "seat_quantity", JInt(1)));
    var t :- ParseTimes(fields, SubscriptionTimeKeys, config.isoParse);
    ParseTimesAt(fields, SubscriptionTimeKeys, config.isoParse, 5);
    ValidateSubscription(Subscription(PyStr(fields["subscription_id"]),
                                      PyStr(Get(fields, "provider_id", fields["subscription_id"])),
                                      kind.customerType, PyStr(Get(fields, "customer_id", JStr(""))),
                                      kind.planKey, kind.billingInterval, kind.status, seats,
                                      t[0], t[1], t[2], t[3], t[4], t[5],
                                      SafeMetadata(Get(fields, "metadata", JNull)), t[6].GetOr(now), t[7].GetOr(now)))
  }

  /** The payload field of an optional instant. */
  function TimeField(t: Option<int>): Json {
    match t
    case None => JNull
    case Some(v) => JTime(v, "")
  }

  lemma {:induction false} TimeFieldParses(t: Option<int>, isoParse: string -> Option<int>)
    ensures ParseOptionalDatetime(TimeField(t), isoParse) == Ok(t)
  {
  }

  /** A string-valued metadata map as a payload dict. */
  function MetadataField(m: map<string, string>): Json {
    JDict(map k | k in m :: JStr(m[k]), "")
  }

  /** The datetimes of a subscription in payload order. */
  function SubscriptionTimes(s: Subscription): seq<Option<int>> {
    [s.currentPeriodStart, s.currentPeriodEnd, s.trialEnd, s.cancelAt, s.canceledAt, s.graceExpiresAt,
     Some(s.createdAt), Some(s.updatedAt)]
  }

  /** The payload a provider would send for a subscription: every field
      present, datetimes as datetimes, metadata as a string dict. */
  function SubscriptionPayload(s: Subscription): map<string, Json> {
    var t := SubscriptionTimes(s);
    map["current_period_start" := TimeField(t[0]),
        "current_period_end" := TimeField(t[1]),
        "trial_end" := TimeField(t[2]),
        "cancel_at" := TimeField(t[3]),
        "canceled_at" := TimeField(t[4]),
        "grace_period_expires_at" := TimeField(t[5]),
        "created_at" := TimeField(t[6]),
        "updated_at" := TimeField(t[7]),
        "plan_key" := JStr(s.planKey.Value()),
        "billing_interval" := JStr(s.billingInterval.Value()),
        "status" := JStr(s.status.Value()),
        "customer_type" := JStr(s.customerType.Value()),
        "seat_quantity" := JInt(s.seatQuantity),
        "metadata" := MetadataField(s.metadata),
        "subscription_id" := JStr(s.subscriptionId),
        "provider_id" := JStr(s.providerId),
        "customer_id" := JStr(s.customerId)]
  }

  /** Datetimes laid out under their keys parse back to themselves. */
  lemma {:induction false} ParseTimesOfFields(fields: map<string, Json>, keys: seq<string>, times: seq<Option<int>>,
                                              isoParse: string -> Option<int>)
    requires |keys| == |times|
    requires forall i :: 0 <= i < |keys| ==> keys[i] in fields && fields[keys[i]] == TimeField(times[i])
    ensures ParseTimes(fields, keys, isoParse) == Ok(times)
    decreases |keys|
  {
    if |keys| > 0 {
      TimeFieldParses(times[0], isoParse);
      ParseTimesOfFields(fields, keys[1..], times[1..], isoParse);
      assert times == [times[0]] + times[1..];
    }
  }

  lemma {:induction false} SubscriptionKindRoundTrip(s: Subscription)
    ensures ParseSubscriptionKind(SubscriptionPayload(s))
              == Ok(SubscriptionKind(s.planKey, s.billingInterval, s.status, s.customerType))
  {
    var f := SubscriptionPayload(s);
    PlanKeyRoundTrip(s.planKey);
    BillingIntervalRoundTrip(s.billingInterval);
    SubscriptionStatusRoundTrip(s.status);
    CustomerTypeRoundTrip(s.customerType);
    assert f["plan_key"] == JStr(s.planKey.Value());
    assert f["billing_interval"] == JStr(s.billingInterval.Value());
    assert f["status"] == JStr(s.status.Value());
    assert f["customer_type"] == JStr(s.customerType.Value());
  }

  /** What a payload whose every part parses yields. */
  lemma {:induction false} SubscriptionFromPayloadOk(config: BillingConfig, fields: map<string, Json>, now: int,
                                  kind: SubscriptionKind, seats: int, t: seq<Option<int>>)
    requires ParseSubscriptionKind(fields) == Ok(kind)
    requires "subscription_id" in fields
    requires PyInt(Get(fields, "seat_quantity", JInt(1))) == Ok(seats) && seats >= 1
    requires ParseTimes(fields, SubscriptionTimeKeys, config.isoParse) == Ok(t)
    ensures |t| == 8
    ensures SubscriptionFromPayload(config, fields, now)
              == Ok(Subscription(PyStr(fields["subscription_id"]),
                                 PyStr(Get(fields, "provider_id", fields["subscription_id"])),
                                 kind.customerType, PyStr(Get(fields, "customer_id", JStr(""))),
                                 kind.planKey, kind.billingInterval, kind.status, seats,
                                 t[0], t[1], t[2], t[3], t[4], t[5],
                                 SafeMetadata(Get(fields, "metadata", JNull)), t[6].GetOr(now), t[7].GetOr(now)))
  {
  }

  lemma {:induction false} SubscriptionTimesParse(config: BillingConfig, s: Subscription)
    ensures ParseTimes(SubscriptionPayload(s), SubscriptionTimeKeys, config.isoParse) == Ok(SubscriptionTimes(s))
  {
    var f := SubscriptionPayload(s);
    var t := SubscriptionTimes(s);
    forall i | 0 <= i < |SubscriptionTimeKeys|
      ensures SubscriptionTimeKeys[i] in f && f[SubscriptionTimeKeys[i]] == TimeField(t[i])
    {
    }
    ParseTimesOfFields(f, SubscriptionTimeKeys, t, config.isoParse);
  }

  lemma {:induction false} SubscriptionPayloadFields(s: Subscription)
    ensures var f := SubscriptionPayload(s);
            && "subscription_id" in f && f["subscription_id"] == JStr(s.subscriptionId)
            && "provider_id" in f && f["provider_id"] == JStr(s.providerId)
            && "customer_id" in f && f["customer_id"] == JStr(s.customerId)
            && "seat_quantity" in f && f["seat_quantity"] == JInt(s.seatQuantity)
            && "metadata" in f && f["metadata"] == MetadataField(s.metadata)
  {
    SubscriptionPayloadIds(s);
    SubscriptionPayloadExtras(s);
  }

  lemma {:induction false} SubscriptionPayloadIds(s: Subscription)
    ensures var f := SubscriptionPayload(s);
            && "subscription_id" in f && f["subscription_id"] == JStr(s.subscriptionId)
            && "provider_id" in f && f["provider_id"] == JStr(s.providerId)
            && "customer_id" in f && f["customer_id"] == JStr(s.customerId)
  {
  }

  lemma {:induction false} SubscriptionPayloadExtras(s: Subscription)
    ensures var f := SubscriptionPayload(s);
            && "seat_quantity" in f && f["seat_quantity"] == JInt(s.seatQuantity)
            && "metadata" in f && f["metadata"] == MetadataField(s.metadata)
  {
  }

  /** A valid subscription survives the trip through its webhook payload. */
  lemma {:induction false} SubscriptionPayloadRoundTrip(config: BillingConfig, s: Subscription, now: int)
    requires s.Valid()
    ensures SubscriptionFromPayload(config, SubscriptionPayload(s), now) == Ok(s)
  {
    var f := SubscriptionPayload(s);
    var t := SubscriptionTimes(s);
    SubscriptionKindRoundTrip(s);
    SubscriptionTimesParse(config, s);
    SubscriptionPayloadFields(s);
    SafeMetadataOfStrings(s.metadata, "");
    SubscriptionFromPayloadOk(config, f, now, SubscriptionKind(s.planKey, s.billingInterval, s.status, s.customerType),
                              s.seatQuantity, t);
  }

  /** A payload's grace deadline is copied whatever the status, so a
      subscription webhook whose other fields parse stores an active
      subscription that still carries a grace deadline. */
  lemma {:induction false} SubscriptionWebhookKeepsGrace(config: BillingConfig, fields: map<string, Json>, now: int,
                                                         deadline: int, seats: int)
    requires ParseSubscriptionKind(fields).Ok? && ParseSubscriptionKind(fields).value.status == Active
    requires "subscription_id" in fields
    requires PyInt(Get(fields, "seat_quantity", JInt(1))) == Ok(seats) && seats >= 1
    requires ParseTimes(fields, SubscriptionTimeKeys, config.isoParse).Ok?
    requires "grace_period_expires_at" in fields && fields["grace_period_expires_at"] == JTime(deadline, "")
    ensures var r := SubscriptionFromPayload(config, fields, now);
            r.Ok? && r.value.status == Active && r.value.graceExpiresAt == Some(deadline)
            && !GraceConsistent(r.value)
  {
    var t := ParseTimes(fields, SubscriptionTimeKeys, config.isoParse).value;
    ParseTimesAt(fields, SubscriptionTimeKeys, config.isoParse, 5);
    SubscriptionFromPayloadOk(config, fields, now, ParseSubscriptionKind(fields).value, seats, t);
  }

  /** `payload.get(k) and str(payload.get(k))` for an optional string
      field: a falsy value is kept as is, so None and "" are accepted and
      any other falsy value fails validation; a truthy value is `str()`ed. */
  function OptionalText(v: Json): (r: Result<Option<string>>)
    ensures JsonTruthy(v) ==> r == Ok(Some(PyStr(v)))
    ensures v == JNull ==> r == Ok(None)
    ensures r.Err? <==> !JsonTruthy(v) && !v.JNull? && !v.JStr?
  {
    if JsonTruthy(v) then Ok(Some(PyStr(v)))
    else match v
      case JNull => Ok(None)
      case JStr(s) => Ok(Some(s))
      case _ => Err(ValueError)
  }

  /** The datetime fields of an invoice payload, in the order they are read. */
  const InvoiceTimeKeys: seq<string> := ["period_start", "period_end", "created_at", "updated_at"]

  /** `_invoice_from_payload`. The subscription id is `str()` of the field,
      so a missing one reads "None" and only an empty one is refused; the
      status defaults to open, the invoice id to `in_` plus a fresh hex id,
      the amount to 0 and the currency to USD; the record is then
      validated (and its currency upper-cased). */
  function InvoiceFromPayload(config: BillingConfig, fields: map<string, Json>, now: int, uuidHex: string): (r: Result<InvoiceRecord>)
    ensures PyStr(Get(fields, "subscription_id", JNull)) == "" ==> r == Err(ValueError)
    ensures "subscription_id" !in fields ==> r.Err? || r.value.subscriptionId == "None"
    ensures r.Err? ==> r.error in {ValueError, TypeError}
    ensures r.Ok? ==> && r.value.Valid()
                      && r.value.subscriptionId == PyStr(Get(fields, "subscription_id", JNull))
                      && r.value.invoiceId == FieldText(fields, "invoice_id", "in_" + uuidHex)
                      && r.value.status.Value() == FieldText(fields, "status", "open")
                      && Ok(r.value.amountDue) == PyInt(Get(fields, "amount_due", JInt(0)))
  {
    var subscriptionId := PyStr(Get(fields, "subscription_id", JNull));
    if subscriptionId == "" then Err(ValueError)
    else
      var status := ParseInvoiceStatus(FieldText(fields, "status", "open"));
      if status.None? then Err(ValueError)
      else InvoiceOfStatus(config, fields, now, uuidHex, subscriptionId, status.value)
  }

  /** The rest of `_invoice_from_payload` once the subscription id and the
      status are known. */
  function InvoiceOfStatus(config: BillingConfig, fields: map<string, Json>, now: int, uuidHex: string,
                           subscriptionId: string, status: InvoiceStatus): (r: Result<InvoiceRecord>)
    requires subscriptionId != ""
    ensures r.Err? ==> r.error in {ValueError, TypeError}
    ensures r.Ok? ==> && r.value.Valid()
                      && r.value.subscriptionId == subscriptionId
                      && r.value.invoiceId == FieldText(fields, "invoice_id", "in_" + uuidHex)
                      && r.value.status == status
                      && Ok(r.value.amountDue) == PyInt(Get(fields, "amount_due", JInt(0)))
  {
    var amount :- PyInt(Get(fields, "amount_due", JInt(0)));
    var t :- ParseTimes(fields, InvoiceTimeKeys, config.isoParse);
    var providerInvoiceId :- OptionalText(Get(fields, "provider_invoice_id", JNull));
    var pdfUrl :- OptionalText(Get(fields, "pdf_url", JNull));
    ValidateInvoice(InvoiceRecord(FieldText(fields, "invoice_id", "in_" + uuidHex), subscriptionId, amount,
                                  FieldText(fields, "currency", "USD"), status,
                                  t[0], t[1], providerInvoiceId, pdfUrl, SafeMetadata(Get(fields, "metadata", JNull)),
                                  t[2].GetOr(now), t[3].GetOr(now)))
  }

  function TextField(t: Option<string>): Json {
    match t
    case None => JNull
    case Some(s) => JStr(s)
  }

  /** An optional text laid out as a payload field reads back unchanged. */
  lemma {:induction false} OptionalTextRoundTrip(t: Option<string>)
    ensures OptionalText(TextField(t)) == Ok(t)
  {
  }

  function InvoiceTimes(inv: InvoiceRecord): seq<Option<int>> {
    [inv.periodStart, inv.periodEnd, Some(inv.createdAt), Some(inv.updatedAt)]
  }

  function InvoicePayload(inv: InvoiceRecord): map<string, Json> {
    var t := InvoiceTimes(inv);
    map["period_start" := TimeField(t[0]),
        "period_end" := TimeField(t[1]),
        "created_at" := TimeField(t[2]),
        "updated_at" := TimeField(t[3]),
        "provider_invoice_id" := TextField(inv.providerInvoiceId),
        "pdf_url" := TextField(inv.pdfUrl),
        "metadata" := MetadataField(inv.metadata),
        "status" := JStr(inv.status.Value()),
        "invoice_id" := JStr(inv.invoiceId),
        "amount_due" := JInt(inv.amountDue),
        "currency" := JStr(inv.currency),
        "subscription_id" := JStr(inv.subscriptionId)]
  }

  lemma {:induction false} InvoiceTimesParse(config: BillingConfig, inv: InvoiceRecord)
    ensures ParseTimes(InvoicePayload(inv), InvoiceTimeKeys, config.isoParse) == Ok(InvoiceTimes(inv))
  {
    var f := InvoicePayload(inv);
    var t := InvoiceTimes(inv);
    forall i | 0 <= i < |InvoiceTimeKeys|
      ensures InvoiceTimeKeys[i] in f && f[InvoiceTimeKeys[i]] == TimeField(t[i])
    {
    }
    ParseTimesOfFields(f, InvoiceTimeKeys, t, config.isoParse);
  }

  lemma {:induction false} InvoicePayloadFields(inv: InvoiceRecord)
    ensures var f := InvoicePayload(inv);
            && "subscription_id" in f && f["subscription_id"] == JStr(inv.subscriptionId)
            && "status" in f && f["status"] == JStr(inv.status.Value())
            && "invoice_id" in f && f["invoice_id"] == JStr(inv.invoiceId)
            && "amount_due" in f && f["amount_due"] == JInt(inv.amountDue)
            && "currency" in f && f["currency"] == JStr(inv.currency)
            && "provider_invoice_id" in f && f["provider_invoice_id"] == TextField(inv.providerInvoiceId)
            && "pdf_url" in f && f["pdf_url"] == TextField(inv.pdfUrl)
            && "metadata" in f && f["metadata"] == MetadataField(inv.metadata)
  {
  }

  /** What an invoice payload whose every part parses yields. */
  lemma {:induction false} InvoiceFromPayloadOk(config: BillingConfig, fields: map<string, Json>, now: int, uuidHex: string,
                             status: InvoiceStatus, amount: int, t: seq<Option<int>>,
                             providerInvoiceId: Option<string>, pdfUrl: Option<string>)
    requires PyStr(Get(fields, "subscription_id", JNull)) != ""
    requires ParseInvoiceStatus(FieldText(fields, "status", "open")) == Some(status)
    requires PyInt(Get(fields, "amount_due", JInt(0))) == Ok(amount)
    requires ParseTimes(fields, InvoiceTimeKeys, config.isoParse) == Ok(t)
    requires OptionalText(Get(fields, "provider_invoice_id", JNull)) == Ok(providerInvoiceId)
    requires OptionalText(Get(fields, "pdf_url", JNull)) == Ok(pdfUrl)
    ensures |t| == 4
    ensures InvoiceFromPayload(config, fields, now, uuidHex)
              == ValidateInvoice(InvoiceRecord(FieldText(fields, "invoice_id", "in_" + uuidHex),
                                               PyStr(Get(fields, "subscription_id", JNull)), amount,
                                               FieldText(fields, "currency", "USD"), status,
                                               t[0], t[1], providerInvoiceId, pdfUrl,
                                               SafeMetadata(Get(fields, "metadata", JNull)),
                                               t[2].GetOr(now), t[3].GetOr(now)))
  {
  }

  /** A valid invoice with a non-empty subscription id survives the trip
      through its webhook payload. */
  lemma {:induction false} InvoicePayloadRoundTrip(config: BillingConfig, inv: InvoiceRecord, now: int, uuidHex: string)
    requires inv.Valid() && inv.subscriptionId != ""
    ensures InvoiceFromPayload(config, InvoicePayload(inv), now, uuidHex) == Ok(inv)
  {
    var f := InvoicePayload(inv);
    InvoiceTimesParse(config, inv);
    InvoicePayloadFields(inv);
    InvoiceStatusRoundTrip(inv.status);
    SafeMetadataOfStrings(inv.metadata, "");
    OptionalTextRoundTrip(inv.providerInvoiceId);
    OptionalTextRoundTrip(inv.pdfUrl);
    UpperIdempotent(inv.currency);
    InvoiceFromPayloadOk(config, f, now, uuidHex, inv.status, inv.amountDue, InvoiceTimes(inv),
                         inv.providerInvoiceId, inv.pdfUrl);
  }

  // ---------------------------------------------------------------------
  // Webhooks

  /** `_handle_subscription_event`: upserts the parsed subscription, audits
      it once (canceled for the cancel event, else activated when the
      stored status is active, else updated) and invalidates its
      entitlements. A payload without a `subscription` dict raises
      ValueError. */
  function HandleSubscriptionEvent(config: BillingConfig, st: BillingState, event: WebhookEvent, now: int): (r: Step<()>)
    ensures !Get(event.payload, "subscription", JNull).JDict? ==> r == Step(Err(ValueError), st)
    ensures r.result.Err? ==> r.state == st
    ensures r.result.Ok? ==>
      && "subscription" in event.payload && event.payload["subscription"].JDict?
      && SubscriptionFromPayload(config, event.payload["subscription"].fields, now).Ok?
      && var s := SubscriptionFromPayload(config, event.payload["subscription"].fields, now).value;
      && r.state.subscriptions == st.subscriptions[s.subscriptionId := s]
      && |r.state.audit| == |st.audit| + 1 && r.state.audit[..|st.audit|] == st.audit
      && r.state.audit[|st.audit|].eventType
           == (if event.eventType == SubscriptionCanceledEvent then SubscriptionCanceledAudit
               else if s.status == Active then SubscriptionActivated
               else SubscriptionUpdatedAudit)
      && r.state.invalidations == st.invalidations + InvalidationsFor(s)
      && r.state.notices == st.notices
    ensures r.state.webhookEvents == st.webhookEvents
    ensures st.audit <= r.state.audit && |r.state.audit| <= |st.audit| + 1
    ensures Wellformed(st) ==> Wellformed(r.state)
  {
    var payload := Get(event.payload, "subscription", JNull);
    if !payload.JDict? then Step(Err(ValueError), st)
    else
      match SubscriptionFromPayload(config, payload.fields, now)
      case Err(e) => Step(Err(e), st)
      case Ok(s) =>
        var st1 := UpsertSubscription(st, s);
        var auditType := if event.eventType == SubscriptionCanceledEvent then SubscriptionCanceledAudit
                         else if s.status == Active then SubscriptionActivated
                         else SubscriptionUpdatedAudit;
        var st2 := Log(st1, AuditEvent(auditType, Some(s.subscriptionId), Some(s.customerId), map[], now));
        Step(Ok(()), InvalidateEntitlements(st2, s))
  }

  /** The grace deadline set by a payment failure. */
  function GraceDeadline(config: BillingConfig, now: int): int {
    now + config.gracePeriodDays * SecondsPerDay
  }

  /** `_handle_payment_failed`: records the invoice, marks its subscription
      past due with a grace deadline `grace_period_days` ahead, notifies
      once, audits the failure with the invoice id and invalidates the
      subscription's entitlements. An unknown subscription raises
      LookupError after the invoice is recorded. */
  function HandlePaymentFailed(config: BillingConfig, st: BillingState, event: WebhookEvent, now: int, uuidHex: string): (r: Step<()>)
    ensures !Get(event.payload, "invoice", JNull).JDict? ==> r == Step(Err(ValueError), st)
    ensures r.result.Err? ==> r.state.audit == st.audit && r.state.notices == st.notices
                              && r.state.subscriptions == st.subscriptions
                              && r.state.invalidations == st.invalidations
    ensures r.result.Ok? ==>
      && "invoice" in event.payload && event.payload["invoice"].JDict?
      && InvoiceFromPayload(config, event.payload["invoice"].fields, now, uuidHex).Ok?
      && var inv := InvoiceFromPayload(config, event.payload["invoice"].fields, now, uuidHex).value;
      && inv.subscriptionId in st.subscriptions
      && r.state.invoices == st.invoices[inv.invoiceId := inv]
      && inv.subscriptionId in r.state.subscriptions
      && var s := r.state.subscriptions[inv.subscriptionId];
      && r.state.subscriptions == st.subscriptions[inv.subscriptionId := s]
      && s == st.subscriptions[inv.subscriptionId].(status := PastDue,
                                                    graceExpiresAt := Some(GraceDeadline(config, now)),
                                                    updatedAt := now)
      && r.state.notices == st.notices + [PaymentFailureNotice(PaymentFailure(inv.subscriptionId, Some(inv.invoiceId),
                                                  inv.amountDue, inv.currency, now, Some(GraceDeadline(config, now))))]
      && r.state.audit == st.audit + [AuditEvent(PaymentFailed, Some(inv.subscriptionId), Some(s.customerId),
                                                 map["invoice_id" := inv.invoiceId], now)]
      && r.state.invalidations == st.invalidations + InvalidationsFor(s)
    ensures r.state.webhookEvents == st.webhookEvents
    ensures st.audit <= r.state.audit && |r.state.audit| <= |st.audit| + 1
    ensures Wellformed(st) ==> Wellformed(r.state)
  {
    var payload := Get(event.payload, "invoice", JNull);
    if !payload.JDict? then Step(Err(ValueError), st)
    else
      match InvoiceFromPayload(config, payload.fields, now, uuidHex)
      case Err(e) => Step(Err(e), st)
      case Ok(inv) =>
        var st1 := SaveInvoice(st, inv);
        var grace := GraceDeadline(config, now);
        match UpdateSubscriptionStatus(st1, inv.subscriptionId, PastDue, Some(grace), now)
        case None => Step(Err(LookupError), st1)
        case Some((s, st2)) =>
          var failure := PaymentFailure(inv.subscriptionId, Some(inv.invoiceId), inv.amountDue, inv.currency, now, Some(grace));
          var st3 := Notify(st2, PaymentFailureNotice(failure));
          var st4 := Log(st3, AuditEvent(PaymentFailed, Some(inv.subscriptionId), Some(s.customerId),
                                         map["invoice_id" := inv.invoiceId], now));
          Step(Ok(()), InvalidateEntitlements(st4, s))
  }

  /** `_handle_payment_succeeded`: records the invoice, makes its
      subscription active with no grace deadline, audits the recovery with
      the invoice id and invalidates the subscription's entitlements;
      nobody is notified. An unknown subscription raises LookupError after
      the invoice is recorded. */
  function HandlePaymentSucceeded(config: BillingConfig, st: BillingState, event: WebhookEvent, now: int, uuidHex: string): (r: Step<()>)
    ensures !Get(event.payload, "invoice", JNull).JDict? ==> r == Step(Err(ValueError), st)
    ensures r.result.Err? ==> r.state.audit == st.audit && r.state.subscriptions == st.subscriptions
                              && r.state.invalidations == st.invalidations
    ensures r.state.notices == st.notices
    ensures r.result.Ok? ==>
      && "invoice" in event.payload && event.payload["invoice"].JDict?
      && InvoiceFromPayload(config, event.payload["invoice"].fields, now, uuidHex).Ok?
      && var inv := InvoiceFromPayload(config, event.payload["invoice"].fields, now, uuidHex).value;
      && inv.subscriptionId in st.subscriptions
      && r.state.invoices == st.invoices[inv.invoiceId := inv]
      && inv.subscriptionId in r.state.subscriptions
      && var s := r.state.subscriptions[inv.subscriptionId];
      && r.state.subscriptions == st.subscriptions[inv.subscriptionId := s]
      && s == st.subscriptions[inv.subscriptionId].(status := Active, graceExpiresAt := None, updatedAt := now)
      && r.state.audit == st.audit + [AuditEvent(PaymentRecovered, Some(inv.subscriptionId), Some(s.customerId),
                                                 map["invoice_id" := inv.invoiceId], now)]
      && r.state.invalidations == st.invalidations + InvalidationsFor(s)
    ensures r.state.webhookEvents == st.webhookEvents
    ensures st.audit <= r.state.audit && |r.state.audit| <= |st.audit| + 1
    ensures Wellformed(st) ==> Wellformed(r.state)
  {
    var payload := Get(event.payload, "invoice", JNull);
    if !payload.JDict? then Step(Err(ValueError), st)
    else
      match InvoiceFromPayload(config, payload.fields, now, uuidHex)
      case Err(e) => Step(Err(e), st)
      case Ok(inv) =>
        var st1 := SaveInvoice(st, inv);
        match UpdateSubscriptionStatus(st1, inv.subscriptionId, Active, None, now)
        case None => Step(Err(LookupError), st1)
        case Some((s, st2)) =>
          var st3 := Log(st2, AuditEvent(PaymentRecovered, Some(inv.subscriptionId), Some(s.customerId),
                                         map["invoice_id" := inv.invoiceId], now));
          Step(Ok(()), InvalidateEntitlements(st3, s))
  }

  /** Routes a recorded webhook to its handler by event type. */
  function Dispatch(config: BillingConfig, st: BillingState, event: WebhookEvent, now: int, uuidHex: string): (r: Step<()>)
    ensures r.state.webhookEvents == st.webhookEvents
    ensures st.audit <= r.state.audit && |r.state.audit| <= |st.audit| + 1
    ensures Wellformed(st) ==> Wellformed(r.state)
  {
    if event.eventType.IsSubscriptionEvent() then HandleSubscriptionEvent(config, st, event, now)
    else if event.eventType == InvoicePaymentFailed then HandlePaymentFailed(config, st, event, now, uuidHex)
    else HandlePaymentSucceeded(config, st, event, now, uuidHex)
  }

  /** `handle_webhook`: an event id seen before changes nothing. A new one
      is recorded before it is dispatched, so it counts as seen even when
      its handler raises. */
  function HandleWebhook(config: BillingConfig, st: BillingState, event: WebhookEvent, now: int, uuidHex: string): (r: Step<()>)
    ensures event.eventId in st.webhookEvents ==> r == Step(Ok(()), st)
    ensures r.state.webhookEvents == st.webhookEvents + {event.eventId}
    ensures st.audit <= r.state.audit && |r.state.audit| <= |st.audit| + 1
    ensures Wellformed(st) ==> Wellformed(r.state)
  {
    if event.eventId in st.webhookEvents then Step(Ok(()), st)
    else
      Dispatch(config, MarkSeen(st, event.eventId), event, now, uuidHex)
  }

  /** Records a webhook event id as seen. */
  function MarkSeen(st: BillingState, eventId: string): (r: BillingState)
    ensures r.webhookEvents == st.webhookEvents + {eventId}
    ensures r.audit == st.audit
    ensures Wellformed(st) ==> Wellformed(r)
  {
    st.(webhookEvents := st.webhookEvents + {eventId})
  }

  /** Replaying a webhook is a no-op, whatever the first delivery did and
      whenever the replay arrives. */
  lemma {:induction false} WebhookReplayIsNoop(config: BillingConfig, st: BillingState, event: WebhookEvent,
                            now: int, uuidHex: string, later: int, uuidHex2: string)
    ensures var first := HandleWebhook(config, st, event, now, uuidHex);
            HandleWebhook(config, first.state, event, later, uuidHex2) == Step(Ok(()), first.state)
  {
  }

  // ---------------------------------------------------------------------
  // Seats and grace periods

  function RecordReconciliation(st: BillingState, result: SeatReconciliationResult): Step<SeatReconciliationResult> {
    Step(Ok(result), st.(reconciliations := st.reconciliations + [result]))
  }

  /** `reconcile_seats`. An unknown subscription raises LookupError before
      a negative member count raises ValueError. Equal counts are in sync
      and more seats than members is under-utilised, neither touching the
      provider. More members than seats asks the provider for the member
      count; when the guarded block completes the stored subscription is
      replaced and the outcome is updated, and when any step of it raises
      the customer is notified once and the outcome reports the old seat
      count. Every outcome is recorded. */
  function ReconcileSeats(st: BillingState, subscriptionId: string, memberCount: int, attempt: SeatAttempt): (r: Step<SeatReconciliationResult>)
    ensures subscriptionId !in st.subscriptions ==> r == Step(Err(LookupError), st)
    ensures subscriptionId in st.subscriptions && memberCount < 0 ==> r == Step(Err(ValueError), st)
    ensures r.result.Ok? <==> subscriptionId in st.subscriptions && memberCount >= 0
    ensures r.result.Ok? ==>
      && var prior := st.subscriptions[subscriptionId];
      && var res := r.result.value;
      && r.state.reconciliations == st.reconciliations + [res]
      && res.memberCount == memberCount
      && (res.outcome == InSync <==> memberCount == prior.seatQuantity)
      && (res.outcome == UnderUtilized <==> memberCount < prior.seatQuantity)
      && (res.outcome == Updated || res.outcome == OverageRequiresAction <==> memberCount > prior.seatQuantity)
      && (res.outcome == Updated <==> memberCount > prior.seatQuantity && attempt.Succeeds?)
      && (memberCount > prior.seatQuantity <==>
            r.state.seatRequests == st.seatRequests + [SeatRequest(prior.providerId, memberCount)])
      && (memberCount <= prior.seatQuantity ==> r.state.seatRequests == st.seatRequests)
      && (res.outcome != Updated ==> res.seatQuantity == prior.seatQuantity && res.subscriptionId == prior.subscriptionId
                                     && res.updatedSubscription == None)
      && (res.outcome == Updated ==> res.updatedSubscription == Some(attempt.updated)
                                     && res.seatQuantity == attempt.updated.seatQuantity
                                     && r.state.subscriptions == st.subscriptions[attempt.updated.subscriptionId := attempt.updated]
                                     && r.state.invalidations == st.invalidations + InvalidationsFor(attempt.updated))
      && (res.outcome == OverageRequiresAction ==> r.state.notices == st.notices + [SeatOverageNotice(prior, memberCount)])
      && (res.outcome != OverageRequiresAction ==> r.state.notices == st.notices)
    ensures r.state.audit == st.audit
    ensures Wellformed(st) && (!attempt.ProviderRaises? ==> attempt.updated.Valid()) ==> Wellformed(r.state)
  {
    if subscriptionId !in st.subscriptions then Step(Err(LookupError), st)
    else if memberCount < 0 then Step(Err(ValueError), st)
    else
      var s := st.subscriptions[subscriptionId];
      if memberCount == s.seatQuantity then
        RecordReconciliation(st, SeatReconciliationResult(s.subscriptionId, memberCount, s.seatQuantity, InSync, None))
      else if memberCount > s.seatQuantity then
        var st1 := st.(seatRequests := st.seatRequests + [SeatRequest(s.providerId, memberCount)]);
        var overage := SeatReconciliationResult(s.subscriptionId, memberCount, s.seatQuantity, OverageRequiresAction, None);
        match attempt
        case Succeeds(updated) =>
          var st2 := InvalidateEntitlements(UpsertSubscription(st1, updated), updated);
          RecordReconciliation(st2, SeatReconciliationResult(updated.subscriptionId, memberCount, updated.seatQuantity,
                                                             Updated, Some(updated)))
        case ProviderRaises =>
          RecordReconciliation(Notify(st1, SeatOverageNotice(s, memberCount)), overage)
        case UpsertRaises(_) =>
          RecordReconciliation(Notify(st1, SeatOverageNotice(s, memberCount)), overage)
        case InvalidatorRaises(updated) =>
          RecordReconciliation(Notify(UpsertSubscription(st1, updated), SeatOverageNotice(s, memberCount)), overage)
      else
        RecordReconciliation(st, SeatReconciliationResult(s.subscriptionId, memberCount, s.seatQuantity, UnderUtilized, None))
  }

  /** When the invalidator raises after the upsert, the outcome says
      action is required although the provider already holds the new seat
      count and the repository stores it. */
  lemma {:induction false} OverageAfterSuccessfulUpsert(st: BillingState, subscriptionId: string, memberCount: int, updated: Subscription)
    requires subscriptionId in st.subscriptions && memberCount > st.subscriptions[subscriptionId].seatQuantity
    requires memberCount >= 0
    ensures var r := ReconcileSeats(st, subscriptionId, memberCount, InvalidatorRaises(updated));
            r.result.Ok? && r.result.value.outcome == OverageRequiresAction
            && r.state.subscriptions[updated.subscriptionId] == updated
  {
  }

  /** `process_grace_period_expiration`: cancels the subscription and
      clears its grace deadline, whatever its status was (an active one
      included), then notifies once, audits once and invalidates its
      entitlements. An unknown subscription raises LookupError. */
  function ProcessGracePeriodExpiration(st: BillingState, subscriptionId: string, now: int): (r: Step<Subscription>)
    ensures subscriptionId !in st.subscriptions ==> r == Step(Err(LookupError), st)
    ensures subscriptionId in st.subscriptions ==>
      && r.result.Ok?
      && var s := r.result.value;
      && s == st.subscriptions[subscriptionId].(status := Canceled, graceExpiresAt := None, updatedAt := now)
      && r.state.subscriptions == st.subscriptions[subscriptionId := s]
      && r.state.notices == st.notices + [GraceExpiredNotice(s)]
      && r.state.audit == st.audit + [AuditEvent(GracePeriodExpired, Some(s.subscriptionId), Some(s.customerId), map[], now)]
      && r.state.invalidations == st.invalidations + InvalidationsFor(s)
    ensures Wellformed(st) ==> Wellformed(r.state)
  {
    match UpdateSubscriptionStatus(st, subscriptionId, Canceled, None, now)
    case None => Step(Err(LookupError), st)
    case Some((s, st1)) =>
      var st2 := Notify(st1, GraceExpiredNotice(s));
      var st3 := Log(st2, AuditEvent(GracePeriodExpired, Some(s.subscriptionId), Some(s.customerId), map[], now));
      Step(Ok(s), InvalidateEntitlements(st3, s))
  }

  /** The three status transitions driven by payments and by grace expiry
      leave the subscription they touch with a grace deadline exactly when
      it is past due. */
  lemma {:induction false} StatusTransitionsKeepGraceConsistent(config: BillingConfig, st: BillingState, event: WebhookEvent,
                                             subscriptionId: string, now: int, uuidHex: string)
    ensures var r := HandlePaymentFailed(config, st, event, now, uuidHex);
            r.result.Ok? ==> var inv := InvoiceFromPayload(config, event.payload["invoice"].fields, now, uuidHex).value;
                             GraceConsistent(r.state.subscriptions[inv.subscriptionId])
                             && r.state.subscriptions[inv.subscriptionId].IsPastDue()
    ensures var r := HandlePaymentSucceeded(config, st, event, now, uuidHex);
            r.result.Ok? ==> var inv := InvoiceFromPayload(config, event.payload["invoice"].fields, now, uuidHex).value;
                             GraceConsistent(r.state.subscriptions[inv.subscriptionId])
                             && !r.state.subscriptions[inv.subscriptionId].IsPastDue()
    ensures var r := ProcessGracePeriodExpiration(st, subscriptionId, now);
            r.result.Ok? ==> GraceConsistent(r.result.value) && r.result.value.status == Canceled
  {
  }

  /** The entitlement tag of a subscription's customer. */
  function CustomerTag(s: Subscription): string {
    if s.customerType == User then UserTag(s.customerId) else OrganizationTag(s.customerId)
  }

  /** The invalidation bridge: carrying out the calls a billing change
      makes removes from the entitlement cache exactly the entries tagged
      with the subscription or with its customer, and keeps every other
      entry as it was. */
  lemma {:induction false} InvalidationBridge(cache: EntitlementCache.Cache<EntitlementResult>, s: Subscription)
    ensures var c := Entitlements.ApplyInvalidations(cache, InvalidationsFor(s));
            && (forall k :: k in c.entries <==>
                  k in cache.entries && SubscriptionTag(s.subscriptionId) !in cache.entries[k].tags
                  && CustomerTag(s) !in cache.entries[k].tags)
            && (forall k :: k in c.entries ==> c.entries[k] == cache.entries[k])
  {
    var calls := InvalidationsFor(s);
    assert calls[0].Tag() == SubscriptionTag(s.subscriptionId);
    assert calls[1].Tag() == CustomerTag(s);
    var c := Entitlements.ApplyInvalidations(cache, calls);
    forall k | k in cache.entries
      ensures (forall i :: 0 <= i < |calls| ==> calls[i].Tag() !in cache.entries[k].tags)
              <==> SubscriptionTag(s.subscriptionId) !in cache.entries[k].tags && CustomerTag(s) !in cache.entries[k].tags
    {
    }
  }
}
