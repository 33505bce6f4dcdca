/** Plan bookkeeping from Stripe webhooks (app/api/stripe/webhook/route.ts).
    The two tables the handler writes are maps: `subscriptions` keyed by
    user id and `users` from user id to plan. Signature checking is the
    `constructEvent` oracle, which gives the verified event or fails. */
module StripeWebhook {
  import opened Wrappers

  /** A row of `subscriptions` (the columns the handler writes). */
  datatype SubscriptionRow = SubscriptionRow(customerId: string, subscriptionId: Option<string>,
                                             status: string, plan: string)

  datatype Tables = Tables(subscriptions: map<string, SubscriptionRow>, users: map<string, string>)

  /** The verified events the handler distinguishes. String fields that
      Stripe leaves null are `None`; `customer.subscription.updated` and
      `.deleted` are handled alike, so both are `SubscriptionChanged`. */
  datatype Event =
    | CheckoutCompleted(clientReferenceId: Option<string>, metadataUserId: Option<string>,
                        customer: Option<string>, subscription: Option<string>)
    | SubscriptionChanged(id: string, status: string)
    | Unhandled(eventType: string)

  datatype Reply = Received | ErrorReply(error: string)

  /** `a || b` on optional strings: the empty string is falsy. */
  function Or(a: Option<string>, b: Option<string>): (r: Option<string>)
    ensures a.Some? && a.value != "" ==> r == a
    ensures (a.None? || a.value == "") ==> r == b
  {
    if a.Some? && a.value != "" then a else b
  }

  /** Truthiness of an optional string. */
  predicate Present(s: Option<string>)
  {
    s.Some? && s.value != ""
  }

  /** The plan a subscription status grants. */
  function PlanFor(status: string): (plan: string)
    ensures plan == "pro" <==> status == "active" || status == "trialing"
    ensures plan == "free" <==> !(status == "active" || status == "trialing")
  {
    if status == "active" || status == "trialing" then "pro" else "free"
  }

  /** `client_reference_id || metadata.user_id`. */
  function CheckoutUser(e: Event): Option<string>
    requires e.CheckoutCompleted?
  {
    Or(e.clientReferenceId, e.metadataUserId)
  }

  /** Checkout completion: the user's row becomes an active pro
      subscription (updated or inserted) and the user's plan becomes pro;
      nothing changes without a user id and a customer id. */
  function ApplyCheckout(t: Tables, e: Event): (r: Tables)
    requires e.CheckoutCompleted?
    ensures !(Present(CheckoutUser(e)) && Present(e.customer)) ==> r == t
    ensures Present(CheckoutUser(e)) && Present(e.customer) ==>
              var u := CheckoutUser(e).value;
              u in r.subscriptions
              && r.subscriptions[u] == SubscriptionRow(e.customer.value, e.subscription, "active", "pro")
              && r.subscriptions.Keys == t.subscriptions.Keys + {u}
              && (forall v | v in t.subscriptions && v != u :: r.subscriptions[v] == t.subscriptions[v])
              && r.users.Keys == t.users.Keys
              && (forall v | v in t.users :: r.users[v] == if v == u then "pro" else t.users[v])
  {
    var userId := CheckoutUser(e);
    if !Present(userId) || !Present(e.customer) then t
    else
      var u := userId.value;
      Tables(t.subscriptions[u := SubscriptionRow(e.customer.value, e.subscription, "active", "pro")],
             if u in t.users then t.users[u := "pro"] else t.users)
  }

  /** The user ids whose row carries the subscription id. */
  function Owners(subscriptions: map<string, SubscriptionRow>, subId: string): (owners: set<string>)
    ensures forall u | u in owners :: u in subscriptions && subscriptions[u].subscriptionId == Some(subId)
    ensures forall u | u in subscriptions && subscriptions[u].subscriptionId == Some(subId) :: u in owners
  {
    set u | u in subscriptions && subscriptions[u].subscriptionId == Some(subId)
  }

  /** Subscription update or deletion: when exactly one row carries the
      subscription id (`.single()`), that row gets the new status and plan
      and its user the plan; otherwise nothing changes. */
  function ApplySubscriptionChange(t: Tables, subId: string, status: string): (r: Tables)
    ensures r.subscriptions.Keys == t.subscriptions.Keys && r.users.Keys == t.users.Keys
    ensures !(|Owners(t.subscriptions, subId)| == 1 && "" !in Owners(t.subscriptions, subId)) ==> r == t
  {
    var owners := Owners(t.subscriptions, subId);
    if |owners| == 1 && "" !in owners then
      var plan := PlanFor(status);
      Tables(map u | u in t.subscriptions ::
               if u in owners then t.subscriptions[u].(status := status, plan := plan) else t.subscriptions[u],
             map u | u in t.users :: if u in owners then plan else t.users[u])
    else t
  }

  /** The table changes of one verified event; unhandled types change nothing. */
  function ApplyEvent(t: Tables, e: Event): Tables
  {
    match e
    case CheckoutCompleted(_, _, _, _) => ApplyCheckout(t, e)
    case SubscriptionChanged(id, status) => ApplySubscriptionChange(t, id, status)
    case Unhandled(_) => t
  }

  /** The sole owner of a changed subscription ends with the plan its
      status grants, in both tables; every other row and user is untouched. */
  lemma SubscriptionChangeSetsPlan(t: Tables, subId: string, status: string, owner: string)
    requires Owners(t.subscriptions, subId) == {owner} && owner != ""
    ensures var r := ApplySubscriptionChange(t, subId, status);
            r.subscriptions[owner] == t.subscriptions[owner].(status := status, plan := PlanFor(status))
            && (owner in t.users ==> r.users[owner] == PlanFor(status))
            && (forall v | v in t.subscriptions && v != owner :: r.subscriptions[v] == t.subscriptions[v])
            && (forall v | v in t.users && v != owner :: r.users[v] == t.users[v])
  {
    assert |Owners(t.subscriptions, subId)| == 1;
  }

  /** A subscription id that no row carries leaves both tables unchanged. */
  lemma UnknownSubscriptionUnchanged(t: Tables, subId: string, status: string)
    requires forall u | u in t.subscriptions :: t.subscriptions[u].subscriptionId != Some(subId)
    ensures ApplySubscriptionChange(t, subId, status) == t
  {
    assert Owners(t.subscriptions, subId) == {};
  }

  /** Stripe may deliver an event more than once; a second delivery of a
      checkout changes nothing further. */
  lemma CheckoutIdempotent(t: Tables, e: Event)
    requires e.CheckoutCompleted?
    ensures ApplyCheckout(ApplyCheckout(t, e), e) == ApplyCheckout(t, e)
  {
    var once := ApplyCheckout(t, e);
    var twice := ApplyCheckout(once, e);
    if Present(CheckoutUser(e)) && Present(e.customer) {
      assert twice.subscriptions == once.subscriptions;
      assert twice.users == once.users;
    }
  }

  /** A second delivery of a subscription change changes nothing further. */
  lemma SubscriptionChangeIdempotent(t: Tables, subId: string, status: string)
    ensures ApplySubscriptionChange(ApplySubscriptionChange(t, subId, status), subId, status)
            == ApplySubscriptionChange(t, subId, status)
  {
    var once := ApplySubscriptionChange(t, subId, status);
    assert Owners(once.subscriptions, subId) == Owners(t.subscriptions, subId);
    var twice := ApplySubscriptionChange(once, subId, status);
    assert twice.subscriptions == once.subscriptions;
    assert twice.users == once.users;
  }

  /** The database the handler writes to. */
  class BillingStore {
    var subscriptions: map<string, SubscriptionRow>
    var users: map<string, string>

    function Snapshot(): Tables
      reads this
    {
      Tables(subscriptions, users)
    }

    constructor (t: Tables)
      ensures Snapshot() == t
    {
      subscriptions := t.subscriptions;
      users := t.users;
    }

    /** The `checkout.session.completed` case. */
    method CompleteCheckout(e: Event)
      requires e.CheckoutCompleted?
      modifies this
      ensures Snapshot() == ApplyCheckout(old(Snapshot()), e)
    {
      var userId := Or(e.clientReferenceId, e.metadataUserId);
      if !Present(userId) || !Present(e.customer) {
        return;
      }
      var u := userId.value;
      var row := SubscriptionRow(e.customer.value, e.subscription, "active", "pro");
      // The update of an existing row and the insert of a new one coincide
      // in a table keyed by user id.
      subscriptions := subscriptions[u := row];
      if u in users {
        users := users[u := "pro"];
      }
    }

    /** The `customer.subscription.updated` / `.deleted` case. */
    method ChangeSubscription(subId: string, status: string)
      modifies this
      ensures Snapshot() == ApplySubscriptionChange(old(Snapshot()), subId, status)
    {
      var owners := Owners(subscriptions, subId);
      if |owners| != 1 || "" in owners {
        return;
      }
      var plan := PlanFor(status);
      subscriptions := map u | u in subscriptions ::
        if u in owners then subscriptions[u].(status := status, plan := plan) else subscriptions[u];
      users := map u | u in users :: if u in owners then plan else users[u];
    }

    /** POST: rejects a missing secret (500), a missing signature (400) and
        a failed verification (400) without touching the tables; otherwise
        applies the event and acknowledges it. */
    method Post(secret: Option<string>, body: string, signature: Option<string>,
                constructEvent: (string, string, string) -> Option<Event>)
      returns (status: nat, reply: Reply)
      modifies this
      ensures !Present(secret) ==> status == 500 && Snapshot() == old(Snapshot())
      ensures Present(secret) && !Present(signature) ==> status == 400 && Snapshot() == old(Snapshot())
      ensures Present(secret) && Present(signature) && constructEvent(body, signature.value, secret.value).None? ==>
                status == 400 && Snapshot() == old(Snapshot())
      ensures Present(secret) && Present(signature) && constructEvent(body, signature.value, secret.value).Some? ==>
                status == 200 && reply == Received
                && Snapshot() == ApplyEvent(old(Snapshot()), constructEvent(body, signature.value, secret.value).value)
    {
      if !Present(secret) {
        return 500, ErrorReply("Webhook secret not configured");
      }
      if !Present(signature) {
        return 400, ErrorReply("Missing signature");
      }
      var event := constructEvent(body, signature.value, secret.value);
      if event.None? {
        return 400, ErrorReply("Webhook Error");
      }
      match event.value {
        case CheckoutCompleted(_, _, _, _) => CompleteCheckout(event.value);
        case SubscriptionChanged(id, st) => ChangeSubscription(id, st);
        case Unhandled(_) =>
      }
      status, reply := 200, Received;
    }
  }
}
