/** Checkout leases: what they guarantee while their holders are on time, and exactly what a late
    holder undoes (lib/commerce/paymongo.ts). */
module CheckoutLeases {

  import opened Wrappers
  import opened Payments
  import opened PaymentsSafety

  // ----- Leases -----

  /** No lease holder has outlived its lease. */
  ghost predicate Timely(s: System) {
    forall c :: c in s.creators ==> s.now <= c.since + LEASE
  }

  ghost predicate TimelyRun(s: System, steps: seq<Step>)
    decreases |steps|
  {
    Timely(s) && (steps != [] ==> TimelyRun(Next(s, steps[0]), steps[1..]))
  }

  /** A purchase has one attempt in progress at most. */
  ghost predicate OneInProgress(attempts: seq<Attempt>) {
    forall i, j, p: nat :: 0 <= i < j < |attempts| && InProgress(attempts[i], p) ==> !InProgress(attempts[j], p)
  }

  /** Each holder owns the latest lease of an attempt still being created. */
  ghost predicate HoldersOwn(attempts: seq<Attempt>, creators: set<Creator>) {
    forall c :: c in creators ==>
      c.attempt < |attempts| && attempts[c.attempt].state == Creating && attempts[c.attempt].updatedAt == c.since
  }

  ghost predicate OneCreator(creators: set<Creator>) {
    forall c, d :: c in creators && d in creators && c.attempt == d.attempt ==> c == d
  }

  /** An attempt being created has no session, so no event can have read it. */
  ghost predicate SessionsFollow(attempts: seq<Attempt>, readers: set<Reader>) {
    && (forall i :: 0 <= i < |attempts| && attempts[i].state == Creating ==> attempts[i].session.None?)
    && (forall r :: r in readers && r.payment.reference < |attempts| ==> attempts[r.payment.reference].session.Some?)
  }

  /** While holders are on time an attempt with a payment stays settled. */
  ghost predicate PaidStaysSettled(attempts: seq<Attempt>) {
    forall i :: 0 <= i < |attempts| ==> (attempts[i].state == Settled <==> attempts[i].payment.Some?)
  }

  ghost predicate LeaseInv(s: System) {
    && PaidStaysSettled(s.db.attempts) && OneInProgress(s.db.attempts)
    && HoldersOwn(s.db.attempts, s.creators) && SessionsFollow(s.db.attempts, s.readers)
    && forall r :: r in s.readers ==> r.payment.reference < |s.db.attempts|
  }

  lemma ClaimKeepsLeases(s: System, purchase: nat)
    requires LeaseInv(s) && Timely(s)
    ensures LeaseInv(Claimed(s, purchase))
  {
    LatestInProgress(s.db.attempts, purchase);
    var (db', lease) := Claim(s.db, purchase, s.now);
    if lease.Ok? && lease.value.mayCreate && Latest(s.db.attempts, purchase).None? {
      var a := Attempt(purchase, s.db.purchases[purchase].price, Creating, None, None, s.now, s.now);
      assert db'.attempts == s.db.attempts + [a];
    }
  }

  /** The holder that answers leaves its attempt open or failed, and no one else held it. */
  lemma AnswerKeepsLeases(s: System, c: Creator, a: Attempt)
    requires LeaseInv(s) && c in s.creators && a.purchase == s.db.attempts[c.attempt].purchase
    requires a.payment == s.db.attempts[c.attempt].payment
    requires a.state == Failed || (a.state == Open && a.session.Some?)
    ensures LeaseInv(s.(db := s.db.(attempts := s.db.attempts[c.attempt := a]), creators := s.creators - {c}))
  {
  }

  /** An attempt that has left creation is settled or expired. */
  lemma EndKeepsLeases(s: System, i: nat, a: Attempt)
    requires LeaseInv(s) && i < |s.db.attempts| && a.purchase == s.db.attempts[i].purchase
    requires s.db.attempts[i].state != Creating && a.session == s.db.attempts[i].session
    requires (a.state == Settled && a.payment.Some?) || (a.state == Expired && a.payment.None?)
    ensures LeaseInv(s.(db := s.db.(attempts := s.db.attempts[i := a])))
  {
  }

  lemma HoldersKeepLeases(s: System, e: Step)
    requires LeaseInv(s) && (e.ProviderOpens? || e.ProviderRefuses?)
    ensures LeaseInv(Next(s, e))
  {
    match e
    case ProviderOpens(c, session) =>
      if c in s.creators && !SessionTaken(s.db.attempts, c.attempt, session) {
        AnswerKeepsLeases(s, c, s.db.attempts[c.attempt].(session := Some(session), state := Open, updatedAt := s.now));
      }
    case ProviderRefuses(c) =>
      if c in s.creators { AnswerKeepsLeases(s, c, s.db.attempts[c.attempt].(state := Failed, updatedAt := s.now)); }
  }

  lemma CommitKeepsLeases(s: System, r: Reader)
    requires LeaseInv(s) && r in s.readers
    ensures LeaseInv(Committed(s, r))
  {
    var i := r.payment.reference;
    if Settle(s.db, r.payment, r.seen, s.now).1 == Ok(true) {
      var a := s.db.attempts[i].(state := Settled, payment := Some(r.payment.id), updatedAt := s.now);
      EndKeepsLeases(s, i, a);
      assert Committed(s, r).db.attempts == s.db.attempts[i := a];
    }
  }

  lemma StepKeepsLeases(s: System, e: Step)
    requires LeaseInv(s) && Timely(s)
    ensures LeaseInv(Next(s, e))
  {
    match e
    case ClaimStep(purchase) => ClaimKeepsLeases(s, purchase);
    case ProviderOpens(_, _) => HoldersKeepLeases(s, e);
    case ProviderRefuses(_) => HoldersKeepLeases(s, e);
    case PaidCommit(r) => if r in s.readers { CommitKeepsLeases(s, r); }
    case Expire(i) =>
      if i < |s.db.attempts| && s.db.attempts[i].state == Open {
        EndKeepsLeases(s, i, s.db.attempts[i].(state := Expired, updatedAt := s.now));
      }
    case OrderStep(purchase, checks) => assert CreateOrder(s.db, purchase, checks).0.attempts == s.db.attempts;
    case RefundStep(purchase, refundId, refund) =>
      assert Refund(s.db, purchase, refundId, refund).0.attempts == s.db.attempts;
    case _ =>
  }

  lemma {:induction false} RunKeepsLeases(s: System, steps: seq<Step>)
    requires LeaseInv(s) && TimelyRun(s, steps)
    ensures LeaseInv(Run(s, steps))
    decreases |steps|
  {
    if steps != [] {
      StepKeepsLeases(s, steps[0]);
      RunKeepsLeases(Next(s, steps[0]), steps[1..]);
    }
  }

  /** If every holder finishes within its lease, no two callers create the same attempt and no
      purchase has two attempts in progress. */
  lemma LeaseSafety(steps: seq<Step>)
    requires TimelyRun(EMPTY, steps)
    ensures OneCreator(Run(EMPTY, steps).creators) && OneInProgress(Run(EMPTY, steps).db.attempts)
  {
    RunKeepsLeases(EMPTY, steps);
  }

  /** Then every paid purchase can be ordered: its payment is found, in the settled state. */
  lemma TimelyPaymentIsFound(steps: seq<Step>, p: nat)
    requires TimelyRun(EMPTY, steps)
    requires p < |Run(EMPTY, steps).db.purchases| && Run(EMPTY, steps).db.purchases[p].status == PaidFor
    ensures CreateOrder(Run(EMPTY, steps).db, p, PASSING).1 == Ok(Run(EMPTY, steps).db.orders)
  {
    var s := Run(EMPTY, steps);
    RunKeepsLeases(EMPTY, steps);
    RunKeeps(EMPTY, steps);
    assert Payers(s.db.attempts, p) == 1;
    assert s.db.purchases[p].order == None;
    PaidIsOrderable(s.db, p);
  }

  lemma PaidIsOrderable(db: Db, p: nat)
    requires p < |db.purchases| && db.purchases[p].status == PaidFor && db.purchases[p].order == None
    requires Payers(db.attempts, p) == 1 && PaidStaysSettled(db.attempts)
    ensures CreateOrder(db, p, PASSING).1 == Ok(db.orders)
  {
    var i := FindPayer(db.attempts, p);
    SettledAttemptFound(db.attempts, p);
  }

  // ----- Exactly when a payment is hidden -----

  ghost predicate SettledCarries(attempts: seq<Attempt>) {
    forall i :: 0 <= i < |attempts| && attempts[i].state == Settled ==> attempts[i].payment.Some?
  }

  lemma StepKeepsCarries(s: System, e: Step)
    requires SettledCarries(s.db.attempts)
    ensures SettledCarries(Next(s, e).db.attempts)
  {
    match e
    case ClaimStep(purchase) => LatestInProgress(s.db.attempts, purchase);
    case OrderStep(purchase, checks) => assert CreateOrder(s.db, purchase, checks).0.attempts == s.db.attempts;
    case RefundStep(purchase, refundId, refund) =>
      assert Refund(s.db, purchase, refundId, refund).0.attempts == s.db.attempts;
    case _ =>
  }

  /** An attempt that carries a purchase's payment is settled, or none is: the purchase's other
      attempts carry no payment. */
  predicate Found(attempts: seq<Attempt>, p: nat) {
    exists i :: 0 <= i < |attempts| && attempts[i].purchase == p && attempts[i].state == Settled
  }

  lemma {:induction false} OnePayer(attempts: seq<Attempt>, p: nat, i: nat, j: nat)
    requires i < |attempts| && j < |attempts| && Pays(attempts[i], p) == 1 && Pays(attempts[j], p) == 1
    requires Payers(attempts, p) <= 1
    ensures i == j
  {
    if i != j {
      var without := attempts[i := attempts[i].(payment := None)];
      PayersAfter(attempts, i, attempts[i].(payment := None), p);
      PayersAfter(without, j, without[j].(payment := None), p);
    }
  }

  /** In every state that can be reached, the payment of a settled purchase is found by orders and
      refunds exactly when the attempt that carries it is in the settled state. */
  lemma FoundExactlyWhenSettled(db: Db, p: nat, i: nat)
    requires SettledCarries(db.attempts) && Payers(db.attempts, p) == 1 && i < |db.attempts| && Pays(db.attempts[i], p) == 1
    ensures ConfirmedPayment(db.attempts, p) == if db.attempts[i].state == Settled then db.attempts[i].payment else None
    ensures Found(db.attempts, p) <==> db.attempts[i].state == Settled
  {
    SettledAttemptFound(db.attempts, p);
    if Found(db.attempts, p) {
      var j: nat :| j < |db.attempts| && db.attempts[j].purchase == p && db.attempts[j].state == Settled;
      OnePayer(db.attempts, p, i, j);
    }
    if SettledAttempt(db.attempts, p).Some? {
      OnePayer(db.attempts, p, i, SettledAttempt(db.attempts, p).value);
    }
  }

  lemma {:induction false} RunKeepsCarries(s: System, steps: seq<Step>)
    requires SettledCarries(s.db.attempts)
    ensures SettledCarries(Run(s, steps).db.attempts)
    decreases |steps|
  {
    if steps != [] {
      StepKeepsCarries(s, steps[0]);
      RunKeepsCarries(Next(s, steps[0]), steps[1..]);
    }
  }

  /** In every interleaving: a paid purchase can be ordered exactly when its paying attempt is still
      settled, and the provider's full refund of a settled purchase is confirmed exactly then. */
  lemma OrderedAndRefundedExactlyWhenSettled(steps: seq<Step>, p: nat, i: nat, refundId: Id)
    requires i < |Run(EMPTY, steps).db.attempts| && Pays(Run(EMPTY, steps).db.attempts[i], p) == 1
    ensures var db := Run(EMPTY, steps).db;
            && p < |db.purchases|
            && (db.purchases[p].status == PaidFor ==>
                  (CreateOrder(db, p, PASSING).1.Ok? <==> db.attempts[i].state == Settled))
            && (RefundConfirmed(db, p, i, refundId) <==> db.attempts[i].state == Settled)
  {
    RunKeeps(EMPTY, steps);
    RunKeepsCarries(EMPTY, steps);
    PayerDecides(Run(EMPTY, steps).db, p, i, refundId);
  }

  lemma PayerDecides(db: Db, p: nat, i: nat, refundId: Id)
    requires OnePayment(db.purchases, db.attempts) && SettledCarries(db.attempts) && GoodOrders(db.purchases, db.orders)
    requires i < |db.attempts| && Pays(db.attempts[i], p) == 1
    ensures p < |db.purchases|
    ensures db.purchases[p].status == PaidFor ==> (CreateOrder(db, p, PASSING).1.Ok? <==> db.attempts[i].state == Settled)
    ensures RefundConfirmed(db, p, i, refundId) <==> db.attempts[i].state == Settled
  {
    NotPayingUnlessSettled(db, p, i);
    FoundExactlyWhenSettled(db, p, i);
    OrderFinds(db, p, i);
  }

  /** The provider's full refund of what the attempt paid is accepted as one of this purchase. */
  predicate RefundConfirmed(db: Db, p: nat, i: nat, refundId: Id)
    requires p < |db.purchases| && i < |db.attempts| && db.attempts[i].payment.Some?
  {
    var refund := ProviderRefund(refundId, true, db.attempts[i].payment.value, db.purchases[p].price, true);
    Refund(db, p, refundId, refund).1 != Err(NotConfirmed)
  }

  lemma OrderFinds(db: Db, p: nat, i: nat)
    requires p < |db.purchases| && i < |db.attempts| && db.attempts[i].payment.Some? && GoodOrders(db.purchases, db.orders)
    requires ConfirmedPayment(db.attempts, p) == if db.attempts[i].state == Settled then db.attempts[i].payment else None
    ensures db.purchases[p].status == PaidFor ==> (CreateOrder(db, p, PASSING).1.Ok? <==> db.attempts[i].state == Settled)
  {
  }

  lemma NotPayingUnlessSettled(db: Db, p: nat, i: nat)
    requires OnePayment(db.purchases, db.attempts) && i < |db.attempts| && Pays(db.attempts[i], p) == 1
    ensures SettledPurchase(db.purchases, p) && Payers(db.attempts, p) == 1
  {
    if Payers(db.attempts, p) == 0 { NotPaying(db.attempts, i, p); }
  }

  /** The write that takes a settled attempt out of its state: a holder's answer for that attempt,
      with a session that no other attempt has. No other step does. */
  predicate Reopens(s: System, e: Step, i: nat) {
    e.ProviderOpens? && e.creator in s.creators && e.creator.attempt == i && !SessionTaken(s.db.attempts, i, e.session)
  }

  lemma ReopenedExactlyBy(s: System, e: Step, i: nat)
    requires i < |s.db.attempts| && s.db.attempts[i].state == Settled
    ensures i < |Next(s, e).db.attempts|
    ensures Next(s, e).db.attempts[i].state != Settled <==> Reopens(s, e, i)
  {
    match e
    case ClaimStep(purchase) => LatestInProgress(s.db.attempts, purchase);
    case OrderStep(purchase, checks) => assert CreateOrder(s.db, purchase, checks).0.attempts == s.db.attempts;
    case RefundStep(purchase, refundId, refund) =>
      assert Refund(s.db, purchase, refundId, refund).0.attempts == s.db.attempts;
    case _ =>
  }

  /** A settled purchase none of whose attempts is settled. */
  predicate Hidden(db: Db, p: nat) { SettledPurchase(db.purchases, p) && !Found(db.attempts, p) }

  lemma StaysHidden(s: System, e: Step, p: nat)
    requires GoodReaders(s.db.attempts, s.readers) && Hidden(s.db, p)
    ensures Hidden(Next(s, e).db, p)
  {
    SettledStays(s, e, p);
    if !e.PaidCommit? {
      OnlyCommitsSettle(s, e, p);
    } else if e.reader in s.readers {
      CommitStaysHidden(s, e.reader, p);
      assert Next(s, e) == Committed(s, e.reader);
    } else {
      assert Next(s, e) == s;
    }
  }

  /** No other step puts an attempt into the settled state. */
  lemma OnlyCommitsSettle(s: System, e: Step, p: nat)
    requires !Found(s.db.attempts, p) && !e.PaidCommit?
    ensures !Found(Next(s, e).db.attempts, p)
  {
    match e
    case ClaimStep(purchase) => ClaimStaysHidden(s, purchase, p);
    case OrderStep(purchase, checks) => assert CreateOrder(s.db, purchase, checks).0.attempts == s.db.attempts;
    case RefundStep(purchase, refundId, refund) =>
      assert Refund(s.db, purchase, refundId, refund).0.attempts == s.db.attempts;
    case _ =>
  }

  lemma ClaimStaysHidden(s: System, purchase: nat, p: nat)
    requires !Found(s.db.attempts, p)
    ensures !Found(Claimed(s, purchase).db.attempts, p)
  {
    LatestInProgress(s.db.attempts, purchase);
  }

  lemma CommitStaysHidden(s: System, r: Reader, p: nat)
    requires GoodReaders(s.db.attempts, s.readers) && r in s.readers && Hidden(s.db, p)
    ensures !Found(Committed(s, r).db.attempts, p)
  {
    assert r.seen.purchase == s.db.attempts[r.payment.reference].purchase;
  }

  lemma {:induction false} HiddenStays(s: System, steps: seq<Step>, p: nat)
    requires Inv(s) && Hidden(s.db, p)
    ensures Hidden(Run(s, steps).db, p)
    decreases |steps|
  {
    if steps != [] {
      StepKeeps(s, steps[0]);
      StaysHidden(s, steps[0], p);
      HiddenStays(Next(s, steps[0]), steps[1..], p);
    }
  }

  /** Once hidden, a payment is hidden for good: no later order and no refund finds it. */
  lemma HiddenForever(s: System, steps: seq<Step>, p: nat, checks: OrderChecks, refundId: Id, refund: ProviderRefund)
    requires Inv(s) && Hidden(s.db, p)
    ensures var db := Run(s, steps).db;
            && Hidden(db, p) && CreateOrder(db, p, checks).1.Err? && CreateOrder(db, p, checks).0 == db
            && Refund(db, p, refundId, refund) == (db, Err(NotConfirmed))
  {
    HiddenStays(s, steps, p);
    HiddenIsRefused(Run(s, steps).db, p, checks, refundId, refund);
  }

  lemma HiddenIsRefused(db: Db, p: nat, checks: OrderChecks, refundId: Id, refund: ProviderRefund)
    requires Hidden(db, p)
    ensures CreateOrder(db, p, checks).1.Err? && CreateOrder(db, p, checks).0 == db
    ensures Refund(db, p, refundId, refund) == (db, Err(NotConfirmed))
  {
    SettledAttemptFound(db.attempts, p);
    assert ConfirmedPayment(db.attempts, p) == None;
  }

  /** Some step of the run reopened a settled attempt of this purchase. */
  predicate Reopened(s: System, steps: seq<Step>, p: nat)
    decreases |steps|
  {
    steps != [] && (ReopensFor(s, steps[0], p) || Reopened(Next(s, steps[0]), steps[1..], p))
  }

  predicate ReopensFor(s: System, e: Step, p: nat) {
    e.ProviderOpens? && e.creator.attempt < |s.db.attempts| && Reopens(s, e, e.creator.attempt)
    && s.db.attempts[e.creator.attempt].purchase == p && s.db.attempts[e.creator.attempt].state == Settled
  }

  /** One step hides a payment that was not hidden exactly when it reopens the settled attempt. */
  lemma HidesExactlyWhenItReopens(s: System, e: Step, p: nat)
    requires Inv(s) && SettledCarries(s.db.attempts) && !Hidden(s.db, p)
    ensures Hidden(Next(s, e).db, p) <==> ReopensFor(s, e, p)
  {
    if SettledPurchase(s.db.purchases, p) {
      var i: nat :| i < |s.db.attempts| && s.db.attempts[i].purchase == p && s.db.attempts[i].state == Settled;
      FoundStep(s, e, p, i);
    } else {
      NewlySettledIsFound(s, e, p);
      if ReopensFor(s, e, p) { NotPayingUnlessSettled(s.db, p, e.creator.attempt); }
    }
  }

  lemma FoundStep(s: System, e: Step, p: nat, i: nat)
    requires Inv(s) && SettledCarries(s.db.attempts) && SettledPurchase(s.db.purchases, p)
    requires i < |s.db.attempts| && s.db.attempts[i].purchase == p && s.db.attempts[i].state == Settled
    ensures Hidden(Next(s, e).db, p) <==> ReopensFor(s, e, p)
  {
    assert Payers(s.db.attempts, p) == 1;
    ReopenedExactlyBy(s, e, i);
    SettledStays(s, e, p);
    if Reopens(s, e, i) {
      var attempts := Next(s, e).db.attempts;
      forall j: nat | j < |attempts| && attempts[j].purchase == p ensures attempts[j].state != Settled {
        if j != i && attempts[j].state == Settled { OnePayer(s.db.attempts, p, i, j); }
      }
    } else {
      SamePurchase(s, e, i);
      if ReopensFor(s, e, p) { OnePayer(s.db.attempts, p, i, e.creator.attempt); }
    }
  }

  lemma SamePurchase(s: System, e: Step, i: nat)
    requires i < |s.db.attempts|
    ensures i < |Next(s, e).db.attempts| && Next(s, e).db.attempts[i].purchase == s.db.attempts[i].purchase
  {
    match e
    case ClaimStep(purchase) => LatestInProgress(s.db.attempts, purchase);
    case OrderStep(purchase, checks) => assert CreateOrder(s.db, purchase, checks).0.attempts == s.db.attempts;
    case RefundStep(purchase, refundId, refund) =>
      assert Refund(s.db, purchase, refundId, refund).0.attempts == s.db.attempts;
    case _ =>
  }

  lemma OnlyCommitsPay(s: System, e: Step, p: nat)
    requires !SettledPurchase(s.db.purchases, p) && !e.PaidCommit?
    ensures !SettledPurchase(Next(s, e).db.purchases, p)
  {
    match e
    case ClaimStep(purchase) => assert Claim(s.db, purchase, s.now).0.purchases == s.db.purchases;
    case RefundStep(purchase, refundId, refund) =>
      if Refund(s.db, purchase, refundId, refund).1 == Ok(true) { var _, _ := RefundWrites(s.db, purchase, refundId, refund); }
    case _ =>
  }

  lemma CommitIsFound(s: System, r: Reader, p: nat)
    requires GoodReaders(s.db.attempts, s.readers) && r in s.readers && !SettledPurchase(s.db.purchases, p)
    ensures !Hidden(Committed(s, r).db, p)
  {
    if Settle(s.db, r.payment, r.seen, s.now).1 == Ok(true) && r.seen.purchase == p {
      var attempts := Committed(s, r).db.attempts;
      assert attempts[r.payment.reference].state == Settled && attempts[r.payment.reference].purchase == p;
    }
  }

  /** A purchase that was not settled is found at once when it becomes so. */
  lemma NewlySettledIsFound(s: System, e: Step, p: nat)
    requires Inv(s) && !SettledPurchase(s.db.purchases, p)
    ensures !Hidden(Next(s, e).db, p)
  {
    if e.PaidCommit? {
      if e.reader in s.readers { CommitIsFound(s, e.reader, p); }
    } else {
      OnlyCommitsPay(s, e, p);
    }
  }

  lemma {:induction false} HiddenExactlyWhenReopenedFrom(s: System, steps: seq<Step>, p: nat)
    requires Inv(s) && SettledCarries(s.db.attempts) && !Hidden(s.db, p)
    ensures Hidden(Run(s, steps).db, p) <==> Reopened(s, steps, p)
    decreases |steps|
  {
    if steps != [] {
      var next := Next(s, steps[0]);
      StepKeeps(s, steps[0]);
      StepKeepsCarries(s, steps[0]);
      HidesExactlyWhenItReopens(s, steps[0], p);
      if Hidden(next.db, p) {
        HiddenStays(next, steps[1..], p);
      } else {
        HiddenExactlyWhenReopenedFrom(next, steps[1..], p);
      }
    }
  }

  /** Over every run: a settled purchase's payment is hidden from orders and refunds exactly when a
      lease holder opened its settled attempt again. */
  lemma HiddenExactlyWhenReopened(steps: seq<Step>, p: nat)
    ensures Hidden(Run(EMPTY, steps).db, p) <==> Reopened(EMPTY, steps, p)
  {
    HiddenExactlyWhenReopenedFrom(EMPTY, steps, p);
  }

  lemma RunOneMore(s: System, steps: seq<Step>, e: Step)
    ensures Run(s, steps + [e]) == Next(Run(s, steps), e)
  {
    RunAppend(s, steps, [e]);
    assert Run(Run(s, steps), [e]) == Run(Next(Run(s, steps), e), []);
  }

  /** Without an attempt in the settled state neither an order nor a refund finds the payment. */
  lemma HiddenPayment(db: Db, a: Attempt)
    requires |db.purchases| == 1 && db.purchases[0].status == PaidFor && db.purchases[0].order == None
    requires db.attempts == [a] && a.state != Settled
    ensures CreateOrder(db, 0, PASSING).1 == Err(PaymentMissing)
    ensures forall id, refund :: Refund(db, 0, id, refund).1 == Err(NotConfirmed)
  {
    SettledAttemptFound(db.attempts, 0);
  }

  /** A holder that answers after its lease can undo the state of a settled attempt: the purchase
      stays paid, and neither an order nor a refund can find its payment any more. */
  lemma LateHolderHidesAPayment() returns (steps: seq<Step>)
    ensures var s := Run(EMPTY, steps);
            && |s.db.purchases| == 1 && s.db.purchases[0].status == PaidFor
            && |s.db.attempts| == 1 && s.db.attempts[0].payment == Some(9) && s.db.attempts[0].state == Open
            && CreateOrder(s.db, 0, PASSING).1 == Err(PaymentMissing)
            && forall id, refund :: Refund(s.db, 0, id, refund).1 == Err(NotConfirmed)
  {
    var s5: System;
    steps, s5 := TwoHolders();
    var late, open, paid := Creator(0, 0), s5.db.attempts[0], Payment(7, 0, 9, 100, true);
    RunOneMore(EMPTY, steps, PaidRead(paid));
    steps := steps + [PaidRead(paid)];
    var reader := Reader(paid, open);
    assert Run(EMPTY, steps) == s5.(readers := {reader});
    RunOneMore(EMPTY, steps, PaidCommit(reader));
    steps := steps + [PaidCommit(reader)];
    var s7 := Run(EMPTY, steps);
    assert s7.db.attempts == [open.(state := Settled, payment := Some(9))] && s7.creators == {late};
    assert s7.db.purchases == [Purchase(100, true, PaidFor, None)];
    RunOneMore(EMPTY, steps, ProviderOpens(late, 7));
    steps := steps + [ProviderOpens(late, 7)];
    assert Run(EMPTY, steps).db.attempts == [open.(payment := Some(9))];
    HiddenPayment(Run(EMPTY, steps).db, open.(payment := Some(9)));
  }

  /** The first holder is still waiting when the one that took over has opened the checkout. */
  lemma TwoHolders() returns (steps: seq<Step>, s: System)
    ensures s == Run(EMPTY, steps)
    ensures s == System(Db([Purchase(100, true, Awaiting, None)], [Attempt(0, 100, Open, Some(7), None, 0, LEASE + 1)], 0, [], map[]),
                        LEASE + 1, {Creator(0, 0)}, {}, [Record(0, Started)])
  {
    var now, late, timely := LEASE + 1, Creator(0, 0), Creator(0, LEASE + 1);
    var unpaid := [Purchase(100, true, Awaiting, None)];
    RunOneMore(EMPTY, [], AddPurchase(100, true));
    steps := [AddPurchase(100, true)];
    assert [] + steps == steps;
    assert Run(EMPTY, steps) == System(Db(unpaid, [], 0, [], map[]), 0, {}, {}, []);
    RunOneMore(EMPTY, steps, ClaimStep(0));
    steps := steps + [ClaimStep(0)];
    var s2 := System(Db(unpaid, [Attempt(0, 100, Creating, None, None, 0, 0)], 0, [], map[]), 0, {late}, {}, [Record(0, Started)]);
    assert Run(EMPTY, steps) == s2;
    RunOneMore(EMPTY, steps, Wait(now));
    steps := steps + [Wait(now)];
    RunOneMore(EMPTY, steps, ClaimStep(0));
    steps := steps + [ClaimStep(0)];
    var s4 := System(Db(unpaid, [Attempt(0, 100, Creating, None, None, 0, now)], 0, [], map[]), now, {late, timely}, {}, [Record(0, Started)]);
    assert Run(EMPTY, steps) == s4;
    RunOneMore(EMPTY, steps, ProviderOpens(timely, 7));
    steps := steps + [ProviderOpens(timely, 7)];
    s := Run(EMPTY, steps);
    assert s.creators == {late};
  }
}
