/** Hosted checkout: leased creation, settlement, orders, refunds and reconciliation
    (lib/commerce/paymongo.ts, lib/orders/service.ts). Rows of a table are numbered in the
    order they were inserted, and times are milliseconds. */
module Payments {

  import opened Wrappers

  type Id = nat

  datatype Status = Awaiting | PaidFor | Ordered | Refunded | Cancelled

  /** Purchases and attempts are always in PHP. */
  datatype Purchase = Purchase(price: nat, accepted: bool, status: Status, order: Option<nat>)

  datatype State = Creating | Open | Settled | Failed | Expired

  /** The provider's session id and the checkout URL are always written together. */
  datatype Attempt = Attempt(
    purchase: nat, amount: nat, state: State, session: Option<Id>, payment: Option<Id>, createdAt: int, updatedAt: int)

  datatype Method = Paymongo | Manual

  datatype Entry = Entry(order: nat, amount: int, via: Method, reference: Option<Id>, reversalOf: Option<nat>)

  datatype Invitation = Invitation(live: bool, epoch: nat)

  datatype Db = Db(
    purchases: seq<Purchase>,
    attempts: seq<Attempt>,
    orders: nat,
    ledger: seq<Entry>,
    invitations: map<nat, Invitation>)

  datatype Error =
    | NotAwaiting | TermsMissing | StaffReview | ConstraintViolation | WrongShape | Incomplete | NoMatch
    | AmountMismatch | DifferentPayment | NotSettleable | NotReady | PaymentMissing | NotConfirmed
    | NothingToRefund | ReceiptMissing | OrderReference

  const LEASE := 60_000
  const STALE := 23 * 60 * 60_000

  // ----- Creating a checkout -----

  predicate InProgress(a: Attempt, purchase: nat) {
    a.purchase == purchase && (a.state == Creating || a.state == Open)
  }

  /** The newest attempt in progress. */
  function Latest(attempts: seq<Attempt>, purchase: nat): Option<nat> {
    if attempts == [] then None
    else if InProgress(attempts[|attempts| - 1], purchase) then Some(|attempts| - 1)
    else Latest(attempts[..|attempts| - 1], purchase)
  }

  lemma {:induction false} LatestInProgress(attempts: seq<Attempt>, purchase: nat)
    ensures match Latest(attempts, purchase)
            case Some(i) => i < |attempts| && InProgress(attempts[i], purchase)
                            && forall j :: i < j < |attempts| ==> !InProgress(attempts[j], purchase)
            case None => forall j :: 0 <= j < |attempts| ==> !InProgress(attempts[j], purchase)
  {
    if attempts != [] {
      LatestInProgress(attempts[..|attempts| - 1], purchase);
    }
  }

  predicate Attempted(attempts: seq<Attempt>, purchase: nat) {
    exists i :: 0 <= i < |attempts| && attempts[i].purchase == purchase
  }

  datatype Lease = Lease(attempt: nat, mayCreate: bool, first: bool)

  /** The transaction that creates, reuses or takes over an attempt. */
  function Claim(db: Db, purchase: nat, now: int): (Db, Result<Lease, Error>) {
    if purchase >= |db.purchases| || db.purchases[purchase].status != Awaiting then (db, Err(NotAwaiting))
    else if !db.purchases[purchase].accepted then (db, Err(TermsMissing))
    else
      match Latest(db.attempts, purchase)
      case Some(i) =>
        LatestInProgress(db.attempts, purchase);
        var a := db.attempts[i];
        if a.state == Creating && now - a.updatedAt > LEASE then
          if now - a.createdAt > STALE then (db, Err(StaffReview))
          else (db.(attempts := db.attempts[i := a.(updatedAt := now)]), Ok(Lease(i, true, false)))
        else (db, Ok(Lease(i, false, false)))
      case None =>
        (db.(attempts := db.attempts + [Attempt(purchase, db.purchases[purchase].price, Creating, None, None, now, now)]),
         Ok(Lease(|db.attempts|, true, !Attempted(db.attempts, purchase))))
  }

  predicate SessionTaken(attempts: seq<Attempt>, i: nat, session: Id) {
    exists j :: 0 <= j < |attempts| && j != i && attempts[j].session == Some(session)
  }

  predicate PaymentTaken(attempts: seq<Attempt>, i: nat, payment: Id) {
    exists j :: 0 <= j < |attempts| && j != i && attempts[j].payment == Some(payment)
  }

  /** The provider returned a session. The update asks nothing of the attempt's state. */
  function OpenAttempt(db: Db, i: nat, session: Id, now: int): Db
    requires i < |db.attempts|
  {
    if SessionTaken(db.attempts, i, session) then db
    else db.(attempts := db.attempts[i := db.attempts[i].(session := Some(session), state := Open, updatedAt := now)])
  }

  /** A guarded update: from one state to another, or nothing. */
  function Move(db: Db, i: nat, from: State, to: State, now: int): Db
    requires i < |db.attempts|
  {
    if db.attempts[i].state == from then
      db.(attempts := db.attempts[i := db.attempts[i].(state := to, updatedAt := now)])
    else db
  }

  // ----- Settlement -----

  datatype ProviderPayment = ProviderPayment(id: Option<Id>, paid: bool, amount: Option<int>, php: bool)

  datatype Event = Event(paidKind: bool, modeMatches: bool, session: Option<Id>, reference: Option<nat>,
                         payments: seq<ProviderPayment>)

  /** An event of the expected mode and shape. The reference names the attempt. */
  datatype Payment = Payment(session: Id, reference: nat, id: Id, amount: int, php: bool)

  function PaidOnes(payments: seq<ProviderPayment>): seq<ProviderPayment> {
    if payments == [] then []
    else (if payments[0].paid then [payments[0]] else []) + PaidOnes(payments[1..])
  }

  /** Nothing for an event of another kind. */
  function Shape(e: Event): Result<Option<Payment>, Error> {
    var paid := PaidOnes(e.payments);
    if !e.paidKind then Ok(None)
    else if !e.modeMatches || e.session.None? || e.reference.None? || |paid| != 1 then Err(WrongShape)
    else if paid[0].id.None? || paid[0].amount.None? then Err(Incomplete)
    else Ok(Some(Payment(e.session.value, e.reference.value, paid[0].id.value, paid[0].amount.value, paid[0].php)))
  }

  /** The attempt row, read before the purchase is locked. */
  function ReadAttempt(db: Db, p: Payment): Result<Attempt, Error> {
    if p.reference >= |db.attempts| || db.attempts[p.reference].session != Some(p.session) then Err(NoMatch)
    else Ok(db.attempts[p.reference])
  }

  predicate IsSettled(s: Status) { s == PaidFor || s == Ordered || s == Refunded }

  /** What happens under the lock, with the row as it was read before it. */
  function Settle(db: Db, p: Payment, seen: Attempt, now: int): (Db, Result<bool, Error>)
    requires p.reference < |db.attempts|
  {
    if seen.purchase >= |db.purchases| || seen.amount != p.amount || db.purchases[seen.purchase].price != p.amount || !p.php then
      (db, Err(AmountMismatch))
    else if IsSettled(db.purchases[seen.purchase].status) then
      (db, if seen.payment == Some(p.id) then Ok(false) else Err(DifferentPayment))
    else if db.purchases[seen.purchase].status != Awaiting then (db, Err(NotSettleable))
    else if PaymentTaken(db.attempts, p.reference, p.id) then (db, Err(ConstraintViolation))
    else
      (db.(attempts := db.attempts[p.reference := db.attempts[p.reference].(state := Settled, payment := Some(p.id), updatedAt := now)],
           purchases := db.purchases[seen.purchase := db.purchases[seen.purchase].(status := PaidFor)]), Ok(true))
  }

  // ----- Orders and refunds -----

  /** The purchase's attempt in the settled state. */
  function SettledAttempt(attempts: seq<Attempt>, purchase: nat): Option<nat> {
    if attempts == [] then None
    else if attempts[|attempts| - 1].purchase == purchase && attempts[|attempts| - 1].state == Settled then Some(|attempts| - 1)
    else SettledAttempt(attempts[..|attempts| - 1], purchase)
  }

  lemma {:induction false} SettledAttemptFound(attempts: seq<Attempt>, purchase: nat)
    ensures match SettledAttempt(attempts, purchase)
            case Some(i) => i < |attempts| && attempts[i].purchase == purchase && attempts[i].state == Settled
            case None => forall j :: 0 <= j < |attempts| ==> !(attempts[j].purchase == purchase && attempts[j].state == Settled)
  {
    if attempts != [] {
      SettledAttemptFound(attempts[..|attempts| - 1], purchase);
    }
  }

  function ConfirmedPayment(attempts: seq<Attempt>, purchase: nat): Option<Id> {
    match SettledAttempt(attempts, purchase)
    case Some(i) => SettledAttemptFound(attempts, purchase); attempts[i].payment
    case None => None
  }

  /** The order's own checks: that customer, amounts, date and product match the purchase, and that
      customer, package and designer are active and fitting. */
  datatype OrderChecks = OrderChecks(matches: bool, available: bool)

  const PASSING := OrderChecks(true, true)

  function CreateOrder(db: Db, purchase: nat, checks: OrderChecks): (Db, Result<nat, Error>) {
    if purchase >= |db.purchases| || db.purchases[purchase].status != PaidFor || db.purchases[purchase].order.Some?
       || !checks.matches then
      (db, Err(NotReady))
    else
      match ConfirmedPayment(db.attempts, purchase)
      case None => (db, Err(PaymentMissing))
      case Some(payment) =>
        if !checks.available then (db, Err(OrderReference)) else
        var price := db.purchases[purchase].price;
        (db.(orders := db.orders + 1,
             ledger := db.ledger + [Entry(db.orders, price, Paymongo, Some(payment), None)],
             purchases := db.purchases[purchase := db.purchases[purchase].(status := Ordered, order := Some(db.orders))]),
         Ok(db.orders))
  }

  /** `succeeded` also stands for the refund's type and mode. */
  datatype ProviderRefund = ProviderRefund(id: Id, succeeded: bool, payment: Id, amount: int, php: bool)

  predicate IsConfirmedFullRefund(r: ProviderRefund, refundId: Id, payment: Id, price: nat) {
    r.id == refundId && r.succeeded && r.payment == payment && r.amount == price && r.php
  }

  predicate IsReceipt(e: Entry, order: nat, reference: Id) {
    e.order == order && e.via == Paymongo && e.reference == Some(reference)
  }

  function FindReceipt(ledger: seq<Entry>, order: nat, reference: Id): Option<nat> {
    if ledger == [] then None
    else if IsReceipt(ledger[|ledger| - 1], order, reference) then Some(|ledger| - 1)
    else FindReceipt(ledger[..|ledger| - 1], order, reference)
  }

  lemma {:induction false} ReceiptFound(ledger: seq<Entry>, order: nat, reference: Id)
    ensures match FindReceipt(ledger, order, reference)
            case Some(i) => i < |ledger| && IsReceipt(ledger[i], order, reference)
            case None => forall j :: 0 <= j < |ledger| ==> !IsReceipt(ledger[j], order, reference)
  {
    if ledger != [] {
      ReceiptFound(ledger[..|ledger| - 1], order, reference);
    }
  }

  /** The unique indexes on a receipt's reference and on what it reverses. */
  predicate Clashes(ledger: seq<Entry>, order: nat, reference: Id, original: nat) {
    exists i :: 0 <= i < |ledger| && (IsReceipt(ledger[i], order, reference) || ledger[i].reversalOf == Some(original))
  }

  /** A live invitation is suspended and its access epoch raised. */
  function Suspend(invitations: map<nat, Invitation>, order: nat): map<nat, Invitation> {
    if order in invitations && invitations[order].live then
      invitations[order := Invitation(false, invitations[order].epoch + 1)]
    else invitations
  }

  function MarkRefunded(db: Db, purchase: nat): Db
    requires purchase < |db.purchases|
  {
    db.(purchases := db.purchases[purchase := db.purchases[purchase].(status := Refunded)])
  }

  function Refund(db: Db, purchase: nat, refundId: Id, r: ProviderRefund): (Db, Result<bool, Error>) {
    if purchase >= |db.purchases| then (db, Err(NotConfirmed))
    else
      var p := db.purchases[purchase];
      match ConfirmedPayment(db.attempts, purchase)
      case None => (db, Err(NotConfirmed))
      case Some(payment) =>
        if !IsConfirmedFullRefund(r, refundId, payment, p.price) then (db, Err(NotConfirmed))
        else if p.status == Refunded then (db, Ok(false))
        else if p.status != PaidFor && p.status != Ordered then (db, Err(NothingToRefund))
        else if p.order.None? then (MarkRefunded(db, purchase), Ok(true))
        else
          match FindReceipt(db.ledger, p.order.value, payment)
          case None => (db, Err(ReceiptMissing))
          case Some(original) =>
            ReceiptFound(db.ledger, p.order.value, payment);
            if db.ledger[original].amount != p.price || db.ledger[original].reversalOf.Some? then (db, Err(ReceiptMissing))
            else if Clashes(db.ledger, p.order.value, refundId, original) then (db, Err(ConstraintViolation))
            else
              (MarkRefunded(db, purchase).(
                 ledger := db.ledger + [Entry(p.order.value, 0 - p.price, Paymongo, Some(refundId), Some(original))],
                 invitations := Suspend(db.invitations, p.order.value)), Ok(true))
  }

  // ----- Reconciliation -----

  /** What the provider says of an inspected session. A lookup may fail or name another session. */
  datatype Answer = LookupFailed | Session(payments: seq<ProviderPayment>, modeMatches: bool, expired: bool)

  datatype Tally = Tally(inspected: nat, settled: nat, expired: nat, errors: nat)

  function PaidEvent(session: Id, reference: nat, answer: Answer): Event
    requires answer.Session?
  {
    Event(true, answer.modeMatches, Some(session), Some(reference), answer.payments)
  }

  /** A webhook or a reconciled session, applied with nothing in between. */
  function ApplyPaidEvent(db: Db, e: Event, now: int): (Db, Result<bool, Error>) {
    match Shape(e)
    case Err(error) => (db, Err(error))
    case Ok(None) => (db, Ok(false))
    case Ok(Some(p)) =>
      match ReadAttempt(db, p)
      case Err(error) => (db, Err(error))
      case Ok(seen) =>
        var (db', settlement) := Settle(db, p, seen, now);
        (db', match settlement case Ok(_) => Ok(true) case Err(error) => Err(error))
  }

  /** One inspected attempt, as it was when the batch was read. */
  function Inspect(db: Db, reference: nat, session: Option<Id>, answer: Answer, now: int, tally: Tally): (Db, Tally)
    requires reference < |db.attempts|
  {
    if session.None? || answer.LookupFailed? then (db, tally.(errors := tally.errors + 1))
    else if PaidOnes(answer.payments) != [] then
      var (db', applied) := ApplyPaidEvent(db, PaidEvent(session.value, reference, answer), now);
      (db', if applied.Ok? then tally.(settled := tally.settled + 1) else tally.(errors := tally.errors + 1))
    else if answer.expired then (Move(db, reference, Open, Expired, now), tally.(expired := tally.expired + 1))
    else (db, tally)
  }

  datatype Pending = Pending(reference: nat, session: Option<Id>)

  lemma InspectKeepsLength(db: Db, reference: nat, session: Option<Id>, answer: Answer, now: int, tally: Tally)
    requires reference < |db.attempts|
    ensures |Inspect(db, reference, session, answer, now, tally).0.attempts| == |db.attempts|
  {
  }

  function InspectAll(db: Db, pending: seq<Pending>, answers: seq<Answer>, now: int, tally: Tally): (Db, Tally)
    requires |pending| == |answers| && forall i :: 0 <= i < |pending| ==> pending[i].reference < |db.attempts|
    decreases |pending|
  {
    if pending == [] then (db, tally)
    else
      InspectKeepsLength(db, pending[0].reference, pending[0].session, answers[0], now, tally);
      var (db', tally') := Inspect(db, pending[0].reference, pending[0].session, answers[0], now, tally);
      InspectAll(db', pending[1..], answers[1..], now, tally')
  }

  // ----- The store -----

  class PaymentStore {
    var purchases: seq<Purchase>
    var attempts: seq<Attempt>
    var orders: nat
    var ledger: seq<Entry>
    var invitations: map<nat, Invitation>

    ghost function State(): Db
      reads this
    {
      Db(purchases, attempts, orders, ledger, invitations)
    }

    method ClaimCheckout(purchase: nat, now: int) returns (lease: Result<Lease, Error>)
      modifies `attempts
      ensures (State(), lease) == Claim(old(State()), purchase, now)
    {
      if purchase >= |purchases| || purchases[purchase].status != Awaiting {
        return Err(NotAwaiting);
      }
      if !purchases[purchase].accepted {
        return Err(TermsMissing);
      }
      LatestInProgress(attempts, purchase);
      var existing := Latest(attempts, purchase);
      if existing.Some? {
        var attempt := attempts[existing.value];
        if attempt.state == Creating && now - attempt.updatedAt > LEASE {
          if now - attempt.createdAt > STALE {
            return Err(StaffReview);
          }
          attempts := attempts[existing.value := attempt.(updatedAt := now)];
          return Ok(Lease(existing.value, true, false));
        }
        return Ok(Lease(existing.value, false, false));
      }
      var priorAttempt := exists i :: 0 <= i < |attempts| && attempts[i].purchase == purchase;
      attempts := attempts + [Attempt(purchase, purchases[purchase].price, Creating, None, None, now, now)];
      return Ok(Lease(|attempts| - 1, true, !priorAttempt));
    }

    method OpenCheckout(i: nat, session: Id, now: int)
      requires i < |attempts|
      modifies `attempts
      ensures State() == OpenAttempt(old(State()), i, session, now)
    {
      var taken := exists j :: 0 <= j < |attempts| && j != i && attempts[j].session == Some(session);
      if !taken {
        attempts := attempts[i := attempts[i].(session := Some(session), state := Open, updatedAt := now)];
      }
    }

    method FailCheckout(i: nat, now: int)
      requires i < |attempts|
      modifies `attempts
      ensures State() == Move(old(State()), i, Creating, Failed, now)
    {
      if attempts[i].state == Creating {
        attempts := attempts[i := attempts[i].(state := Failed, updatedAt := now)];
      }
    }

    method SettlePurchase(p: Payment, seen: Attempt, now: int) returns (newly: Result<bool, Error>)
      requires p.reference < |attempts|
      modifies `attempts, `purchases
      ensures (State(), newly) == Settle(old(State()), p, seen, now)
    {
      if seen.purchase >= |purchases| || seen.amount != p.amount || purchases[seen.purchase].price != p.amount || !p.php {
        return Err(AmountMismatch);
      }
      var purchase := purchases[seen.purchase];
      if purchase.status == PaidFor || purchase.status == Ordered || purchase.status == Refunded {
        if seen.payment == Some(p.id) {
          return Ok(false);
        }
        return Err(DifferentPayment);
      }
      if purchase.status != Awaiting {
        return Err(NotSettleable);
      }
      var taken := exists j :: 0 <= j < |attempts| && j != p.reference && attempts[j].payment == Some(p.id);
      if taken {
        return Err(ConstraintViolation);
      }
      attempts := attempts[p.reference := attempts[p.reference].(state := Settled, payment := Some(p.id), updatedAt := now)];
      purchases := purchases[seen.purchase := purchase.(status := PaidFor)];
      return Ok(true);
    }

    method ApplyEvent(e: Event, now: int) returns (applied: Result<bool, Error>)
      modifies `attempts, `purchases
      ensures (State(), applied) == ApplyPaidEvent(old(State()), e, now)
    {
      var shaped := Shape(e);
      if shaped.Err? {
        return Err(shaped.error);
      }
      if shaped.value.None? {
        return Ok(false);
      }
      var p := shaped.value.value;
      if p.reference >= |attempts| || attempts[p.reference].session != Some(p.session) {
        return Err(NoMatch);
      }
      var settlement := SettlePurchase(p, attempts[p.reference], now);
      match settlement
      case Ok(_) => return Ok(true);
      case Err(error) => return Err(error);
    }

    method PlaceOrder(purchase: nat, checks: OrderChecks) returns (order: Result<nat, Error>)
      modifies `orders, `ledger, `purchases
      ensures (State(), order) == CreateOrder(old(State()), purchase, checks)
    {
      if purchase >= |purchases| || purchases[purchase].status != PaidFor || purchases[purchase].order.Some? || !checks.matches {
        return Err(NotReady);
      }
      var payment := ConfirmedPayment(attempts, purchase);
      if payment.None? {
        return Err(PaymentMissing);
      }
      if !checks.available {
        return Err(OrderReference);
      }
      var id := orders;
      orders := orders + 1;
      ledger := ledger + [Entry(id, purchases[purchase].price, Paymongo, payment, None)];
      purchases := purchases[purchase := purchases[purchase].(status := Ordered, order := Some(id))];
      return Ok(id);
    }

    method ConfirmRefund(purchase: nat, refundId: Id, r: ProviderRefund) returns (newly: Result<bool, Error>)
      modifies `ledger, `invitations, `purchases
      ensures (State(), newly) == Refund(old(State()), purchase, refundId, r)
    {
      if purchase >= |purchases| {
        return Err(NotConfirmed);
      }
      var row := purchases[purchase];
      var payment := ConfirmedPayment(attempts, purchase);
      if payment.None? || !IsConfirmedFullRefund(r, refundId, payment.value, row.price) {
        return Err(NotConfirmed);
      }
      if row.status == Refunded {
        return Ok(false);
      }
      if row.status != PaidFor && row.status != Ordered {
        return Err(NothingToRefund);
      }
      if row.order.Some? {
        ReceiptFound(ledger, row.order.value, payment.value);
        var original := FindReceipt(ledger, row.order.value, payment.value);
        if original.None? || ledger[original.value].amount != row.price || ledger[original.value].reversalOf.Some? {
          return Err(ReceiptMissing);
        }
        if Clashes(ledger, row.order.value, refundId, original.value) {
          return Err(ConstraintViolation);
        }
        ledger := ledger + [Entry(row.order.value, 0 - row.price, Paymongo, Some(refundId), original)];
        if row.order.value in invitations && invitations[row.order.value].live {
          invitations := invitations[row.order.value := Invitation(false, invitations[row.order.value].epoch + 1)];
        }
      }
      purchases := purchases[purchase := row.(status := Refunded)];
      return Ok(true);
    }

    /** The loop over the attempts that were open when the batch was read. */
    method Reconcile(pending: seq<Pending>, answers: seq<Answer>, now: int) returns (result: Tally)
      requires |pending| == |answers| && forall i :: 0 <= i < |pending| ==> pending[i].reference < |attempts|
      modifies `attempts, `purchases
      ensures (State(), result) == InspectAll(old(State()), pending, answers, now, Tally(|pending|, 0, 0, 0))
    {
      result := Tally(|pending|, 0, 0, 0);
      var i := 0;
      while i < |pending|
        invariant 0 <= i <= |pending| && |attempts| == |old(attempts)|
        invariant unchanged(`orders) && unchanged(`ledger) && unchanged(`invitations)
        invariant InspectAll(old(State()), pending, answers, now, Tally(|pending|, 0, 0, 0))
               == InspectAll(State(), pending[i..], answers[i..], now, result)
      {
        assert pending[i..][1..] == pending[i + 1..] && answers[i..][1..] == answers[i + 1..];
        result := InspectOne(pending[i], answers[i], now, result);
        i := i + 1;
      }
    }

    method InspectOne(attempt: Pending, answer: Answer, now: int, tally: Tally) returns (result: Tally)
      requires attempt.reference < |attempts|
      modifies `attempts, `purchases
      ensures (State(), result) == Inspect(old(State()), attempt.reference, attempt.session, answer, now, tally)
      ensures |attempts| == |old(attempts)|
    {
      result := tally;
      if attempt.session.None? || answer.LookupFailed? {
        result := result.(errors := result.errors + 1);
      } else if PaidOnes(answer.payments) != [] {
        var applied := ApplyEvent(PaidEvent(attempt.session.value, attempt.reference, answer), now);
        if applied.Ok? {
          result := result.(settled := result.settled + 1);
        } else {
          result := result.(errors := result.errors + 1);
        }
      } else if answer.expired {
        if attempts[attempt.reference].state == Open {
          attempts := attempts[attempt.reference := attempts[attempt.reference].(state := Expired, updatedAt := now)];
        }
        result := result.(expired := result.expired + 1);
      }
    }
  }
}
