/** What each payment transaction comes to, row by row: exactly when it takes effect, and that what
    settles a purchase is a payment of its price (lib/commerce/paymongo.ts, lib/orders/service.ts). */
module PaymentOutcomes {

  import opened Wrappers
  import opened Payments
  import opened PaymentsSafety
  import opened CheckoutLeases

  /** Only this attempt and this purchase may differ. */
  ghost predicate OnlyRows(db: Db, db': Db, attempt: nat, purchase: nat) {
    && |db'.attempts| == |db.attempts| && |db'.purchases| == |db.purchases|
    && (forall i :: 0 <= i < |db.attempts| && i != attempt ==> db'.attempts[i] == db.attempts[i])
    && (forall p :: 0 <= p < |db.purchases| && p != purchase ==> db'.purchases[p] == db.purchases[p])
  }

  // ----- Claims -----

  /** A checkout of this purchase that is being created or is open. */
  predicate Unfinished(a: Attempt, purchase: nat) { a.purchase == purchase && a.state in {Creating, State.Open} }

  /** A claim hands out the newest attempt in progress, or a new one for the purchase's price. It may be created
      by the caller exactly when it is new or has been waiting for a provider longer than a minute,
      unless it was started more than 23 hours ago. */
  lemma ClaimIs(db: Db, purchase: nat, now: int)
    ensures match Latest(db.attempts, purchase)
            case None => forall i :: 0 <= i < |db.attempts| ==> !Unfinished(db.attempts[i], purchase)
            case Some(i) => i < |db.attempts| && Unfinished(db.attempts[i], purchase)
                            && forall j :: i < j < |db.attempts| ==> !Unfinished(db.attempts[j], purchase)
    ensures var (db', lease), latest := Claim(db, purchase, now), Latest(db.attempts, purchase);
            var lapsed := latest.Some? && latest.value < |db.attempts| && db.attempts[latest.value].state == Creating
                          && now - db.attempts[latest.value].updatedAt > 60 * 1000;
            && (lease.Ok? <==> purchase < |db.purchases| && db.purchases[purchase].status == Awaiting && db.purchases[purchase].accepted
                               && !(lapsed && now - db.attempts[latest.value].createdAt > 23 * 3600 * 1000))
            && (lease.Ok? ==>
                  && lease.value.attempt == (if latest.Some? then latest.value else |db.attempts|)
                  && (lease.value.mayCreate <==> latest.None? || lapsed)
                  && (lease.value.first <==> forall i :: 0 <= i < |db.attempts| ==> db.attempts[i].purchase != purchase))
            && (lease.Ok? && latest.None? ==>
                  && db'.attempts[..|db'.attempts| - 1] == db.attempts && |db'.attempts| == |db.attempts| + 1
                  && var a := db'.attempts[|db.attempts|];
                  && a.purchase == purchase && a.amount == db.purchases[purchase].price && a.state == Creating
                  && a.session == None && a.payment == None && a.createdAt == now && a.updatedAt == now)
            && (lease.Ok? && latest.Some? && lapsed ==>
                  OnlyRows(db, db', latest.value, purchase)
                  && db'.attempts[latest.value] == db.attempts[latest.value].(updatedAt := now))
            && (lease.Err? || (latest.Some? && !lapsed) ==> db' == db)
            && db' == db.(attempts := db'.attempts)
  {
    LatestInProgress(db.attempts, purchase);
    var db' := Claim(db, purchase, now).0;
    if Claim(db, purchase, now).1.Ok? && Latest(db.attempts, purchase).None? {
      assert db'.attempts[..|db'.attempts| - 1] == db.attempts;
    }
  }

  /** A holder's answer, or the end of its session, writes its attempt and nothing else: a session opens it, a refusal
      fails it while it is being created, and the end of an open one expires it. */
  lemma AnswersAre(s: System, c: Creator, session: Id, i: nat)
    requires c in s.creators && c.attempt < |s.db.attempts| && i < |s.db.attempts|
    ensures var after, a := Next(s, ProviderOpens(c, session)), s.db.attempts[c.attempt];
            && OnlyRows(s.db, after.db, c.attempt, |s.db.purchases|) && after.creators == s.creators - {c}
            && after.db.attempts[c.attempt] == if SessionTaken(s.db.attempts, c.attempt, session) then a
                                                else a.(session := Some(session), state := State.Open, updatedAt := s.now)
    ensures var after, a := Next(s, ProviderRefuses(c)), s.db.attempts[c.attempt];
            && OnlyRows(s.db, after.db, c.attempt, |s.db.purchases|) && after.creators == s.creators - {c}
            && after.db.attempts[c.attempt] == if a.state == Creating then a.(state := Failed, updatedAt := s.now) else a
    ensures var after, a := Next(s, Expire(i)), s.db.attempts[i];
            && OnlyRows(s.db, after.db, i, |s.db.purchases|)
            && after.db.attempts[i] == if a.state == State.Open then a.(state := Expired, updatedAt := s.now) else a
  {
  }

  // ----- The shape of an event -----

  /** Entry `i` is the one that is paid. */
  predicate PaidAlone(payments: seq<ProviderPayment>, i: nat) {
    i < |payments| && payments[i].paid && forall j :: 0 <= j < |payments| && j != i ==> !payments[j].paid
  }

  lemma {:induction false} NonePaid(payments: seq<ProviderPayment>)
    ensures PaidOnes(payments) == [] <==> forall j :: 0 <= j < |payments| ==> !payments[j].paid
  {
    if payments != [] {
      NonePaid(payments[1..]);
      assert forall j :: 1 <= j < |payments| ==> payments[j] == payments[1..][j - 1];
    }
  }

  lemma {:induction false} OnePaid(payments: seq<ProviderPayment>)
    ensures |PaidOnes(payments)| == 1 <==> exists i: nat :: PaidAlone(payments, i)
    ensures forall i: nat :: PaidAlone(payments, i) ==> PaidOnes(payments) == [payments[i]]
  {
    if payments != [] {
      var rest := payments[1..];
      OnePaid(rest);
      NonePaid(rest);
      assert forall j :: 1 <= j < |payments| ==> payments[j] == rest[j - 1];
      if payments[0].paid {
        assert PaidAlone(payments, 0) <==> PaidOnes(rest) == [];
      } else {
        forall i: nat | PaidAlone(payments, i) ensures PaidAlone(rest, i - 1) && payments[i] == rest[i - 1] {
        }
        forall i: nat | PaidAlone(rest, i) ensures PaidAlone(payments, i + 1) {
        }
      }
    }
  }

  /** An event is taken for a payment exactly when it is of the paid kind and the expected mode, names its
      session and attempt, and holds one paid payment with an id and an amount: that payment. */
  lemma EventNamesItsPayment(e: Event, p: Payment)
    ensures Shape(e) == Ok(Some(p)) <==>
              && e.paidKind && e.modeMatches && e.session == Some(p.session) && e.reference == Some(p.reference)
              && exists i: nat :: PaidAlone(e.payments, i) && e.payments[i].id == Some(p.id) && e.payments[i].amount == Some(p.amount)
                             && e.payments[i].php == p.php
    ensures Shape(e) == Ok(None) <==> !e.paidKind
  {
    OnePaid(e.payments);
  }

  // ----- Settlement -----

  /** The amount, the attempt and the purchase agree. */
  predicate Matches(db: Db, p: Payment, seen: Attempt) {
    && seen.purchase < |db.purchases| && p.php
    && p.amount == seen.amount && p.amount == db.purchases[seen.purchase].price
  }

  /** A payment settles exactly a purchase that awaits one, for its full price in PHP, with an unused
      payment id. Then its attempt carries it and the purchase is paid; in every other case nothing changes. */
  lemma SettlesExactlyWhen(db: Db, p: Payment, seen: Attempt, now: int)
    requires p.reference < |db.attempts|
    ensures var (db', newly) := Settle(db, p, seen, now);
            && (newly == Ok(true) <==>
                  && Matches(db, p, seen) && db.purchases[seen.purchase].status == Awaiting
                  && forall i :: 0 <= i < |db.attempts| && i != p.reference ==> db.attempts[i].payment != Some(p.id))
            && (newly == Ok(true) ==>
                  && OnlyRows(db, db', p.reference, seen.purchase)
                  && db'.attempts[p.reference] == db.attempts[p.reference].(state := Settled, payment := Some(p.id), updatedAt := now)
                  && db'.purchases[seen.purchase] == db.purchases[seen.purchase].(status := PaidFor)
                  && db' == db.(attempts := db'.attempts, purchases := db'.purchases))
            && (newly != Ok(true) ==> db' == db)
            && (newly == Ok(false) <==>
                  Matches(db, p, seen) && seen.payment == Some(p.id)
                  && db.purchases[seen.purchase].status in {PaidFor, Ordered, Refunded})
            && (newly == Err(DifferentPayment) <==>
                  Matches(db, p, seen) && seen.payment != Some(p.id)
                  && db.purchases[seen.purchase].status in {PaidFor, Ordered, Refunded})
            && (newly == Err(AmountMismatch) <==> !Matches(db, p, seen))
  {
  }

  /** An applied event reads the attempt it names, whose session must be the event's, and settles it. */
  lemma AppliedEventIs(db: Db, e: Event, now: int)
    ensures var (db', applied) := ApplyPaidEvent(db, e, now);
            && (applied.Ok? <==> !e.paidKind || exists p :: Names(db, e, p) && Settle(db, p, db.attempts[p.reference], now).1.Ok?)
            && (applied.Ok? ==> (applied.value <==> e.paidKind))
            && (forall p :: Names(db, e, p) ==> db' == Settle(db, p, db.attempts[p.reference], now).0)
            && (db' != db ==> exists p :: Names(db, e, p))
  {
    if e.paidKind && Shape(e).Ok? {
      var p := Shape(e).value.value;
      EventNamesItsPayment(e, p);
      if p.reference < |db.attempts| && db.attempts[p.reference].session == Some(p.session) { assert Names(db, e, p); }
    }
  }

  /** The event is of this payment, and of the session of the attempt it names. */
  ghost predicate Names(db: Db, e: Event, p: Payment) {
    Shape(e) == Ok(Some(p)) && p.reference < |db.attempts| && db.attempts[p.reference].session == Some(p.session)
  }

  // ----- What settled each purchase, over every run -----

  /** The step settles this purchase: a payment in PHP of its price, carried by an attempt of it. */
  ghost predicate PaysInFull(s: System, e: Step, p: nat) {
    && e.PaidCommit? && e.reader.seen.purchase == p < |s.db.purchases|
    && e.reader.payment.php && e.reader.payment.amount == s.db.purchases[p].price
    && e.reader.payment.reference < |s.db.attempts| && s.db.attempts[e.reader.payment.reference].purchase == p
  }

  /** No purchase becomes settled but by a payment of its price. */
  lemma SettledByItsPrice(s: System, e: Step, p: nat)
    requires GoodReaders(s.db.attempts, s.readers)
    requires !SettledPurchase(s.db.purchases, p) && SettledPurchase(Next(s, e).db.purchases, p)
    ensures PaysInFull(s, e, p) && e.reader in s.readers
    ensures Next(s, e).db.attempts[e.reader.payment.reference].payment == Some(e.reader.payment.id)
    ensures Next(s, e).db.attempts[e.reader.payment.reference].purchase == p
    ensures Next(s, e).db.purchases[p].price == s.db.purchases[p].price
  {
    if e.PaidCommit? {
      if e.reader in s.readers && e.reader.payment.reference < |s.db.attempts| {
        SettlesExactlyWhen(s.db, e.reader.payment, e.reader.seen, s.now);
      }
    } else {
      OnlyCommitsPay(s, e, p);
    }
  }

  /** Only an applied payment touches what an attempt carries. */
  lemma OnlyCommitsCarry(s: System, e: Step, i: nat)
    requires i < |s.db.attempts| && !e.PaidCommit?
    ensures i < |Next(s, e).db.attempts|
    ensures Next(s, e).db.attempts[i].payment == s.db.attempts[i].payment && Next(s, e).db.attempts[i].purchase == s.db.attempts[i].purchase
  {
    match e
    case ClaimStep(purchase) => LatestInProgress(s.db.attempts, purchase);
    case OrderStep(purchase, checks) => assert CreateOrder(s.db, purchase, checks).0.attempts == s.db.attempts;
    case RefundStep(purchase, refundId, refund) => assert Refund(s.db, purchase, refundId, refund).0.attempts == s.db.attempts;
    case _ =>
  }

  lemma CommitCarries(s: System, r: Reader, i: nat)
    requires OnePayment(s.db.purchases, s.db.attempts) && GoodReaders(s.db.attempts, s.readers) && r in s.readers
    requires i < |s.db.attempts| && s.db.attempts[i].payment.Some?
    ensures i < |Committed(s, r).db.attempts|
    ensures Committed(s, r).db.attempts[i].payment == s.db.attempts[i].payment
    ensures Committed(s, r).db.attempts[i].purchase == s.db.attempts[i].purchase
  {
    SettlesExactlyWhen(s.db, r.payment, r.seen, s.now);
    if r.payment.reference == i && !SettledPurchase(s.db.purchases, r.seen.purchase) {
      assert Payers(s.db.attempts, r.seen.purchase) == 0;
      NotPaying(s.db.attempts, i, r.seen.purchase);
    }
  }

  /** A payment once carried is never replaced. */
  lemma CarriedStays(s: System, e: Step, i: nat)
    requires OnePayment(s.db.purchases, s.db.attempts) && GoodReaders(s.db.attempts, s.readers)
    requires i < |s.db.attempts| && s.db.attempts[i].payment.Some?
    ensures i < |Next(s, e).db.attempts|
    ensures Next(s, e).db.attempts[i].payment == s.db.attempts[i].payment && Next(s, e).db.attempts[i].purchase == s.db.attempts[i].purchase
  {
    if !e.PaidCommit? {
      OnlyCommitsCarry(s, e, i);
    } else if e.reader in s.readers {
      CommitCarries(s, e.reader, i);
    }
  }

  lemma {:induction false} CarriedForGood(s: System, steps: seq<Step>, i: nat)
    requires Inv(s) && i < |s.db.attempts| && s.db.attempts[i].payment.Some?
    ensures i < |Run(s, steps).db.attempts| && Run(s, steps).db.attempts[i].payment == s.db.attempts[i].payment
    ensures Run(s, steps).db.attempts[i].purchase == s.db.attempts[i].purchase
    decreases |steps|
  {
    if steps != [] {
      StepKeeps(s, steps[0]);
      CarriedStays(s, steps[0], i);
      CarriedForGood(Next(s, steps[0]), steps[1..], i);
    }
  }

  /** The payment that settled a purchase. */
  ghost predicate SettledBy(end: System, e: Step, p: nat) {
    && e.PaidCommit? && p < |end.db.purchases| && e.reader.payment.reference < |end.db.attempts|
    && e.reader.payment.php && e.reader.payment.amount == end.db.purchases[p].price
    && end.db.attempts[e.reader.payment.reference].purchase == p
    && end.db.attempts[e.reader.payment.reference].payment == Some(e.reader.payment.id)
  }

  /** The settling step, seen from the end of the run. */
  lemma SettledBySeenLater(s: System, e: Step, steps: seq<Step>, p: nat)
    requires Inv(s) && Inv(Next(s, e))
    requires !SettledPurchase(s.db.purchases, p) && SettledPurchase(Next(s, e).db.purchases, p)
    ensures SettledBy(Run(Next(s, e), steps), e, p)
  {
    SettledByItsPrice(s, e, p);
    SettledForGood(Next(s, e), steps, p);
    CarriedForGood(Next(s, e), steps, e.reader.payment.reference);
  }

  lemma {:induction false} SettledByAPayment(s: System, steps: seq<Step>, p: nat) returns (k: nat)
    requires Inv(s) && !SettledPurchase(s.db.purchases, p) && SettledPurchase(Run(s, steps).db.purchases, p)
    ensures k < |steps| && SettledBy(Run(s, steps), steps[k], p)
    decreases |steps|
  {
    StepKeeps(s, steps[0]);
    assert Run(s, steps) == Run(Next(s, steps[0]), steps[1..]);
    if SettledPurchase(Next(s, steps[0]).db.purchases, p) {
      SettledBySeenLater(s, steps[0], steps[1..], p);
      k := 0;
    } else {
      k := SettledByAPayment(Next(s, steps[0]), steps[1..], p);
      k := k + 1;
    }
  }

  /** Over every run: whatever is settled was settled by one step of it, a payment in PHP of exactly
      its price, and the attempt that carries a payment carries that one. */
  lemma EverySettlementIsPaidInFull(steps: seq<Step>, p: nat) returns (k: nat)
    requires SettledPurchase(Run(EMPTY, steps).db.purchases, p)
    ensures k < |steps| && SettledBy(Run(EMPTY, steps), steps[k], p)
    ensures Payers(Run(EMPTY, steps).db.attempts, p) == 1
  {
    RunKeeps(EMPTY, steps);
    k := SettledByAPayment(EMPTY, steps, p);
  }

  /** A payment of the price of an awaiting purchase, for the session of an attempt of it, under an unused id. */
  ghost predicate PaysAwaiting(db: Db, p: Payment) {
    && p.reference < |db.attempts| && db.attempts[p.reference].session == Some(p.session)
    && var i := db.attempts[p.reference].purchase;
    && i < |db.purchases| && db.purchases[i].status == Awaiting && p.php && p.amount == db.purchases[i].price
    && forall j :: 0 <= j < |db.attempts| ==> db.attempts[j].payment != Some(p.id)
  }

  lemma FullPaymentCommits(s: System, p: Payment)
    requires GoodAttempts(s.db.purchases, s.db.attempts) && PaysAwaiting(s.db, p)
    ensures var row := s.db.attempts[p.reference]; SettledPurchase(Committed(s, Reader(p, row)).db.purchases, row.purchase)
  {
    SettlesExactlyWhen(s.db, p, s.db.attempts[p.reference], s.now);
  }

  lemma ReadThenCommitted(s: System, p: Payment)
    requires ReadAttempt(s.db, p).Ok?
    ensures var r := Reader(p, s.db.attempts[p.reference]);
            Run(s, [PaidRead(p), PaidCommit(r)]) == Committed(s.(readers := s.readers + {r}), r)
  {
    TwoSteps(s, PaidRead(p), PaidCommit(Reader(p, s.db.attempts[p.reference])));
  }

  /** And the other way round: such a payment settles its purchase when it is read and applied, wherever
      attempts are for their purchases' prices, as they always are. */
  lemma FullPaymentSettles(s: System, p: Payment)
    requires GoodAttempts(s.db.purchases, s.db.attempts) && PaysAwaiting(s.db, p)
    ensures var row := s.db.attempts[p.reference];
            SettledPurchase(Run(s, [PaidRead(p), PaidCommit(Reader(p, row))]).db.purchases, row.purchase)
  {
    ReadThenCommitted(s, p);
    FullPaymentCommits(s.(readers := s.readers + {Reader(p, s.db.attempts[p.reference])}), p);
  }

  lemma TwoSteps(s: System, e: Step, e': Step)
    ensures Run(s, [e, e']) == Next(Next(s, e), e')
  {
    assert [e, e'][1..] == [e'] && [e'][1..] == [];
    assert Run(Next(s, e), [e']) == Run(Next(Next(s, e), e'), []);
  }

  /** No two attempts have one session, and no two carry one payment. */
  ghost predicate OwnIds(attempts: seq<Attempt>) {
    forall i, j :: 0 <= i < j < |attempts| ==>
      && (attempts[i].session.Some? ==> attempts[i].session != attempts[j].session)
      && (attempts[i].payment.Some? ==> attempts[i].payment != attempts[j].payment)
  }

  /** One attempt rewritten with ids that no other attempt has. */
  lemma RewriteKeepsOwnIds(attempts: seq<Attempt>, i: nat, a: Attempt)
    requires OwnIds(attempts) && i < |attempts|
    requires a.session.Some? ==> a.session == attempts[i].session || !SessionTaken(attempts, i, a.session.value)
    requires a.payment.Some? ==> a.payment == attempts[i].payment || !PaymentTaken(attempts, i, a.payment.value)
    ensures OwnIds(attempts[i := a])
  {
  }

  lemma StepKeepsOwnIds(s: System, e: Step)
    requires OwnIds(s.db.attempts)
    ensures OwnIds(Next(s, e).db.attempts)
  {
    match e
    case ClaimStep(purchase) => ClaimKeepsOwnIds(s, purchase);
    case OrderStep(purchase, checks) => assert CreateOrder(s.db, purchase, checks).0.attempts == s.db.attempts;
    case RefundStep(purchase, refundId, refund) => assert Refund(s.db, purchase, refundId, refund).0.attempts == s.db.attempts;
    case ProviderOpens(c, session) =>
      if c.attempt < |s.db.attempts| {
        RewriteKeepsOwnIds(s.db.attempts, c.attempt, OpenAttempt(s.db, c.attempt, session, s.now).attempts[c.attempt]);
      }
    case PaidCommit(r) =>
      if r in s.readers && r.payment.reference < |s.db.attempts| {
        RewriteKeepsOwnIds(s.db.attempts, r.payment.reference, Committed(s, r).db.attempts[r.payment.reference]);
      }
    case _ =>
  }

  lemma ClaimKeepsOwnIds(s: System, purchase: nat)
    requires OwnIds(s.db.attempts)
    ensures OwnIds(Claimed(s, purchase).db.attempts)
  {
    LatestInProgress(s.db.attempts, purchase);
  }

  /** Over every run: however late and often callers write, a session and a payment name one attempt. */
  lemma {:induction false} IdsNameOneAttempt(s: System, steps: seq<Step>)
    requires OwnIds(s.db.attempts)
    ensures OwnIds(Run(s, steps).db.attempts)
    decreases |steps|
  {
    if steps != [] {
      StepKeepsOwnIds(s, steps[0]);
      IdsNameOneAttempt(Next(s, steps[0]), steps[1..]);
    }
  }

  // ----- Orders and refunds -----

  /** An order is placed exactly for a paid purchase without one whose checks pass and whose payment is
      found: one new order, one receipt of the price that names the payment. */
  lemma OrderPlacedExactlyWhen(db: Db, purchase: nat, checks: OrderChecks)
    ensures var (db', order) := CreateOrder(db, purchase, checks);
            && (order.Ok? <==>
                  && purchase < |db.purchases| && db.purchases[purchase].status == PaidFor && db.purchases[purchase].order == None
                  && checks.matches && checks.available && ConfirmedPayment(db.attempts, purchase).Some?)
            && (order.Ok? ==>
                  && order.value == db.orders && db'.orders == db.orders + 1
                  && |db'.ledger| == |db.ledger| + 1 && db.ledger <= db'.ledger
                  && var e := db'.ledger[|db.ledger|];
                  && e.order == order.value && e.amount == db.purchases[purchase].price && e.via == Paymongo
                  && e.reference == ConfirmedPayment(db.attempts, purchase) && e.reversalOf == None
                  && OnlyRows(db, db', |db.attempts|, purchase) && db'.attempts == db.attempts && db'.invitations == db.invitations
                  && db'.purchases[purchase] == db.purchases[purchase].(status := Ordered, order := Some(order.value)))
            && (order.Err? ==> db' == db)
  {
  }

  /** The provider's answer is a full refund in PHP of what this purchase paid, under this id. */
  predicate FullRefund(db: Db, purchase: nat, refundId: Id, r: ProviderRefund) {
    && purchase < |db.purchases| && ConfirmedPayment(db.attempts, purchase) == Some(r.payment)
    && r.id == refundId && r.succeeded && r.php && r.amount == db.purchases[purchase].price
  }

  /** The receipt to reverse: of the price, not itself a reversal, and neither it nor the refund used yet. */
  predicate Reversible(db: Db, order: nat, price: nat, payment: Id, refundId: Id) {
    var original := FindReceipt(db.ledger, order, payment);
    && original.Some? && original.value < |db.ledger|
    && db.ledger[original.value].amount == price && db.ledger[original.value].reversalOf == None
    && forall i :: 0 <= i < |db.ledger| ==>
         db.ledger[i].reversalOf != original
         && !(db.ledger[i].order == order && db.ledger[i].via == Paymongo && db.ledger[i].reference == Some(refundId))
  }

  /** A refund is recorded exactly when the provider confirms a full one of this purchase, it is paid for or
      ordered, and its order's receipt can be reversed. Anything else is refused or recognised
      and changes nothing. */
  lemma RefundRecordedExactlyWhen(db: Db, purchase: nat, refundId: Id, r: ProviderRefund)
    ensures var (db', newly) := Refund(db, purchase, refundId, r);
            && (newly == Ok(true) <==>
                  && FullRefund(db, purchase, refundId, r) && db.purchases[purchase].status in {PaidFor, Ordered}
                  && (db.purchases[purchase].order.Some? ==>
                        Reversible(db, db.purchases[purchase].order.value, db.purchases[purchase].price, r.payment, refundId)))
            && (newly == Ok(false) <==> FullRefund(db, purchase, refundId, r) && db.purchases[purchase].status == Refunded)
            && (newly == Err(NotConfirmed) <==> !FullRefund(db, purchase, refundId, r))
            && (newly != Ok(true) ==> db' == db)
  {
    if purchase < |db.purchases| && ConfirmedPayment(db.attempts, purchase).Some? && db.purchases[purchase].order.Some? {
      ReceiptFound(db.ledger, db.purchases[purchase].order.value, ConfirmedPayment(db.attempts, purchase).value);
    }
  }

  /** What a recorded refund writes: the status, and for an order a reversing receipt that names the refund
      and what it reverses. Other purchases, orders and invitations are left alone. */
  lemma RecordedRefundIs(db: Db, purchase: nat, refundId: Id, r: ProviderRefund)
    requires Refund(db, purchase, refundId, r).1 == Ok(true)
    ensures var db', order := Refund(db, purchase, refundId, r).0, db.purchases[purchase].order;
            && OnlyRows(db, db', |db.attempts|, purchase) && db'.attempts == db.attempts && db'.orders == db.orders
            && db'.purchases[purchase] == db.purchases[purchase].(status := Refunded)
            && (order.None? ==> db'.ledger == db.ledger && db'.invitations == db.invitations)
            && (order.Some? ==>
                  && |db'.ledger| == |db.ledger| + 1 && db.ledger <= db'.ledger
                  && var e := db'.ledger[|db.ledger|];
                  && e.order == order.value && e.amount == 0 - db.purchases[purchase].price && e.via == Paymongo
                  && e.reference == Some(refundId) && e.reversalOf.Some? && e.reversalOf.value < |db.ledger|
                  && db.ledger[e.reversalOf.value].order == order.value
                  && db.ledger[e.reversalOf.value].reference == Some(r.payment)
                  && (forall o :: o in db.invitations && o != order.value ==>
                        o in db'.invitations && db'.invitations[o] == db.invitations[o])
                  && db'.invitations.Keys == db.invitations.Keys)
  {
    if db.purchases[purchase].order.Some? {
      ReceiptFound(db.ledger, db.purchases[purchase].order.value, ConfirmedPayment(db.attempts, purchase).value);
    }
  }

  // ----- Reconciliation -----

  /** An inspected session that is paid settles its purchase, one that expired expires its open attempt, and a
      lookup that fails changes nothing; each is counted under its own name. */
  lemma InspectionIs(db: Db, reference: nat, session: Option<Id>, answer: Answer, now: int, tally: Tally)
    requires reference < |db.attempts|
    ensures var (db', tally') := Inspect(db, reference, session, answer, now, tally);
            var known := session.Some? && answer.Session?;
            var paid := known && exists i :: 0 <= i < |answer.payments| && answer.payments[i].paid;
            && (!known ==> db' == db && tally' == tally.(errors := tally.errors + 1))
            && (paid ==>
                  var e := Event(true, answer.modeMatches, session, Some(reference), answer.payments);
                  && db' == ApplyPaidEvent(db, e, now).0
                  && (if ApplyPaidEvent(db, e, now).1.Ok? then tally' == tally.(settled := tally.settled + 1)
                      else tally' == tally.(errors := tally.errors + 1)))
            && (known && !paid && answer.expired ==>
                  && tally' == tally.(expired := tally.expired + 1) && OnlyRows(db, db', reference, |db.purchases|)
                  && db' == db.(attempts := db'.attempts)
                  && db'.attempts[reference] == if db.attempts[reference].state == Open
                                                then db.attempts[reference].(state := Expired, updatedAt := now)
                                                else db.attempts[reference])
            && (known && !paid && !answer.expired ==> db' == db && tally' == tally)
  {
    if answer.Session? { NonePaid(answer.payments); }
  }

  /** So a reconciled session with one paid payment of the price settles an awaiting purchase. */
  lemma PaidSessionIsSettled(db: Db, reference: nat, session: Id, answer: Answer, i: nat, now: int, tally: Tally)
    requires reference < |db.attempts| && db.attempts[reference].session == Some(session)
    requires answer.Session? && answer.modeMatches && PaidAlone(answer.payments, i)
    requires answer.payments[i].id.Some? && answer.payments[i].php
    requires var a := db.attempts[reference];
             && a.purchase < |db.purchases| && db.purchases[a.purchase].status == Awaiting
             && answer.payments[i].amount == Some(a.amount) && a.amount == db.purchases[a.purchase].price
    requires forall j :: 0 <= j < |db.attempts| ==> db.attempts[j].payment != answer.payments[i].id
    ensures var (db', tally') := Inspect(db, reference, Some(session), answer, now, tally);
            && db'.purchases[db.attempts[reference].purchase].status == PaidFor
            && db'.attempts[reference].payment == answer.payments[i].id && tally'.settled == tally.settled + 1
  {
    var e := Event(true, answer.modeMatches, Some(session), Some(reference), answer.payments);
    var paid := answer.payments[i];
    var p := Payment(session, reference, paid.id.value, paid.amount.value, paid.php);
    EventNamesItsPayment(e, p);
    assert Names(db, e, p);
    AppliedEventIs(db, e, now);
    SettlesExactlyWhen(db, p, db.attempts[reference], now);
    InspectionIs(db, reference, Some(session), answer, now, tally);
  }
}
