/** Payments over whole runs: every interleaving of checkout callers, webhooks, reconciliation,
    orders and refunds. */
module PaymentsSafety {

  import opened Wrappers
  import opened Payments

  /** A caller that holds a lease and is talking to the provider. */
  datatype Creator = Creator(attempt: nat, since: int)

  /** A settlement that has read its attempt and not yet the lock. */
  datatype Reader = Reader(payment: Payment, seen: Attempt)

  datatype Stage = Started | NewlyPaid | NewlyRefunded

  datatype Record = Record(purchase: nat, stage: Stage)

  datatype System = System(db: Db, now: int, creators: set<Creator>, readers: set<Reader>, log: seq<Record>)

  datatype Step =
    | AddPurchase(price: nat, accepted: bool)
    | ClaimStep(purchase: nat)
    | ProviderOpens(creator: Creator, session: Id)
    | ProviderRefuses(creator: Creator)
    | GiveUp(creator: Creator)
    | PaidRead(payment: Payment)
    | PaidCommit(reader: Reader)
    | Expire(attempt: nat)
    | OrderStep(purchase: nat, checks: OrderChecks)
    | RefundStep(purchase: nat, refundId: Id, refund: ProviderRefund)
    | ManualEntry(order: nat, amount: int)
    | SetInvitation(order: nat, invitation: Invitation)
    | Wait(duration: nat)

  function Claimed(s: System, purchase: nat): System {
    var (db', lease) := Claim(s.db, purchase, s.now);
    s.(db := db',
       creators := if lease.Ok? && lease.value.mayCreate then s.creators + {Creator(lease.value.attempt, s.now)} else s.creators,
       log := if lease.Ok? && lease.value.first then s.log + [Record(purchase, Started)] else s.log)
  }

  function Committed(s: System, r: Reader): System
    requires r.payment.reference < |s.db.attempts|
  {
    var (db', newly) := Settle(s.db, r.payment, r.seen, s.now);
    s.(db := db', log := if newly == Ok(true) then s.log + [Record(r.seen.purchase, NewlyPaid)] else s.log)
  }

  function RefundedBy(s: System, purchase: nat, refundId: Id, refund: ProviderRefund): System {
    var (db', newly) := Refund(s.db, purchase, refundId, refund);
    s.(db := db', log := if newly == Ok(true) then s.log + [Record(purchase, NewlyRefunded)] else s.log)
  }

  function Next(s: System, e: Step): System {
    match e
    case AddPurchase(price, accepted) =>
      s.(db := s.db.(purchases := s.db.purchases + [Purchase(price, accepted, Awaiting, None)]))
    case ClaimStep(purchase) => Claimed(s, purchase)
    case ProviderOpens(c, session) =>
      if c in s.creators && c.attempt < |s.db.attempts| then
        s.(db := OpenAttempt(s.db, c.attempt, session, s.now), creators := s.creators - {c})
      else s
    case ProviderRefuses(c) =>
      if c in s.creators && c.attempt < |s.db.attempts| then
        s.(db := Move(s.db, c.attempt, Creating, Failed, s.now), creators := s.creators - {c})
      else s
    case GiveUp(c) => s.(creators := s.creators - {c})
    case PaidRead(p) =>
      var row := ReadAttempt(s.db, p);
      if row.Ok? then s.(readers := s.readers + {Reader(p, row.value)}) else s
    case PaidCommit(r) => if r in s.readers && r.payment.reference < |s.db.attempts| then Committed(s, r) else s
    case Expire(i) => if i < |s.db.attempts| then s.(db := Move(s.db, i, Open, Expired, s.now)) else s
    case OrderStep(purchase, checks) => s.(db := CreateOrder(s.db, purchase, checks).0)
    case RefundStep(purchase, refundId, refund) => RefundedBy(s, purchase, refundId, refund)
    case ManualEntry(order, amount) => s.(db := s.db.(ledger := s.db.ledger + [Entry(order, amount, Manual, None, None)]))
    case SetInvitation(order, invitation) => s.(db := s.db.(invitations := s.db.invitations[order := invitation]))
    case Wait(duration) => s.(now := s.now + duration)
  }

  function Run(s: System, steps: seq<Step>): System
    decreases |steps|
  {
    if steps == [] then s else Run(Next(s, steps[0]), steps[1..])
  }

  const EMPTY := System(Db([], [], 0, [], map[]), 0, {}, {}, [])

  // ----- What is counted -----

  /** The results of one purchase, in the order they were returned. */
  function History(log: seq<Record>, purchase: nat): seq<Stage> {
    if log == [] then []
    else
      var rest := History(log[..|log| - 1], purchase);
      if log[|log| - 1].purchase == purchase then rest + [log[|log| - 1].stage] else rest
  }

  /** Provider money on one order. */
  function ProviderTotal(ledger: seq<Entry>, order: nat): int {
    if ledger == [] then 0
    else
      var e := ledger[|ledger| - 1];
      ProviderTotal(ledger[..|ledger| - 1], order) + if e.order == order && e.via == Paymongo then e.amount else 0
  }

  /** Provider money on all orders. */
  function LedgerTotal(ledger: seq<Entry>): int {
    if ledger == [] then 0
    else
      var e := ledger[|ledger| - 1];
      LedgerTotal(ledger[..|ledger| - 1]) + if e.via == Paymongo then e.amount else 0
  }

  /** The revenue the administration page reports, over all purchases. */
  function Revenue(purchases: seq<Purchase>): int {
    if purchases == [] then 0
    else
      var p := purchases[|purchases| - 1];
      Revenue(purchases[..|purchases| - 1])
      + if p.status != PaidFor && p.status != Ordered && p.status != Refunded then 0
        else if p.status == Refunded then 0 else p.price
  }

  /** The prices of paid purchases that have no order yet. */
  function AwaitingOrder(purchases: seq<Purchase>): int {
    if purchases == [] then 0
    else
      var p := purchases[|purchases| - 1];
      AwaitingOrder(purchases[..|purchases| - 1]) + if p.status == PaidFor && p.order.None? then p.price else 0
  }

  /** How many of a purchase's attempts carry a provider payment. */
  function Payers(attempts: seq<Attempt>, purchase: nat): nat {
    if attempts == [] then 0
    else Payers(attempts[..|attempts| - 1], purchase) + Pays(attempts[|attempts| - 1], purchase)
  }

  function Pays(a: Attempt, purchase: nat): nat {
    if a.purchase == purchase && a.payment.Some? then 1 else 0
  }

  // ----- The invariant -----

  /** An attempt belongs to a purchase, at that purchase's price. */
  ghost predicate GoodAttempts(purchases: seq<Purchase>, attempts: seq<Attempt>) {
    forall i :: 0 <= i < |attempts| ==>
      attempts[i].purchase < |purchases| && attempts[i].amount == purchases[attempts[i].purchase].price
  }

  predicate SettledPurchase(purchases: seq<Purchase>, p: nat) {
    p < |purchases| && IsSettled(purchases[p].status)
  }

  /** Exactly one attempt of a settled purchase carries a payment, and none of any other. */
  ghost predicate OnePayment(purchases: seq<Purchase>, attempts: seq<Attempt>) {
    forall p: nat :: Payers(attempts, p) == if SettledPurchase(purchases, p) then 1 else 0
  }

  ghost predicate GoodReaders(attempts: seq<Attempt>, readers: set<Reader>) {
    forall r :: r in readers ==>
      && r.payment.reference < |attempts|
      && r.seen.purchase == attempts[r.payment.reference].purchase
      && r.seen.amount == attempts[r.payment.reference].amount
  }

  ghost predicate GoodCreators(attempts: seq<Attempt>, creators: set<Creator>) {
    forall c :: c in creators ==> c.attempt < |attempts|
  }

  /** What a purchase's results must have been, given where it stands. */
  function Expected(status: Status): seq<Stage> {
    match status
    case Awaiting => [Started]
    case Cancelled => [Started]
    case PaidFor => [Started, NewlyPaid]
    case Ordered => [Started, NewlyPaid]
    case Refunded => [Started, NewlyPaid, NewlyRefunded]
  }

  ghost predicate GoodLog(purchases: seq<Purchase>, attempts: seq<Attempt>, log: seq<Record>) {
    forall p: nat :: History(log, p) == if p < |purchases| && Attempted(attempts, p) then Expected(purchases[p].status) else []
  }

  /** A purchase has an order exactly from when it was ordered, and no two share one. */
  ghost predicate GoodOrders(purchases: seq<Purchase>, orders: nat) {
    && (forall p :: 0 <= p < |purchases| && purchases[p].status == Ordered ==> purchases[p].order.Some?)
    && (forall p :: 0 <= p < |purchases| && purchases[p].order.Some? ==>
          purchases[p].order.value < orders && (purchases[p].status == Ordered || purchases[p].status == Refunded))
    && OwnOrders(purchases)
  }

  ghost predicate OwnOrders(purchases: seq<Purchase>) {
    forall p, q :: 0 <= p < q < |purchases| && purchases[p].order.Some? ==> purchases[p].order != purchases[q].order
  }

  /** The provider money on each order, and none on orders not placed. */
  ghost predicate GoodLedger(purchases: seq<Purchase>, orders: nat, ledger: seq<Entry>) {
    && (forall p :: 0 <= p < |purchases| && purchases[p].order.Some? ==>
          ProviderTotal(ledger, purchases[p].order.value) == if purchases[p].status == Ordered then purchases[p].price else 0)
    && (forall o: nat :: o >= orders ==> ProviderTotal(ledger, o) == 0)
  }

  /** Reported revenue is the ledger and what has not reached it yet. */
  ghost predicate GoodRevenue(purchases: seq<Purchase>, ledger: seq<Entry>) {
    Revenue(purchases) == LedgerTotal(ledger) + AwaitingOrder(purchases)
  }

  ghost predicate Inv(s: System) {
    && GoodAttempts(s.db.purchases, s.db.attempts) && OnePayment(s.db.purchases, s.db.attempts)
    && GoodReaders(s.db.attempts, s.readers) && GoodCreators(s.db.attempts, s.creators)
    && GoodLog(s.db.purchases, s.db.attempts, s.log)
    && GoodOrders(s.db.purchases, s.db.orders)
    && GoodLedger(s.db.purchases, s.db.orders, s.db.ledger) && GoodRevenue(s.db.purchases, s.db.ledger)
  }

  // ----- Sums -----

  lemma {:induction false} RevenueAfter(purchases: seq<Purchase>, i: nat, p: Purchase)
    requires i < |purchases|
    ensures Revenue(purchases[i := p]) == Revenue(purchases) - Revenue([purchases[i]]) + Revenue([p])
    ensures AwaitingOrder(purchases[i := p]) == AwaitingOrder(purchases) - AwaitingOrder([purchases[i]]) + AwaitingOrder([p])
    decreases |purchases|
  {
    var n := |purchases| - 1;
    if i < n {
      RevenueAfter(purchases[..n], i, p);
      assert purchases[i := p][..n] == purchases[..n][i := p];
    } else {
      assert purchases[i := p][..n] == purchases[..n];
    }
  }

  lemma {:induction false} PayersAfter(attempts: seq<Attempt>, i: nat, a: Attempt, p: nat)
    requires i < |attempts|
    ensures Payers(attempts[i := a], p) == Payers(attempts, p) - Pays(attempts[i], p) + Pays(a, p)
    decreases |attempts|
  {
    var n := |attempts| - 1;
    if i < n {
      PayersAfter(attempts[..n], i, a, p);
      assert attempts[i := a][..n] == attempts[..n][i := a];
    } else {
      assert attempts[i := a][..n] == attempts[..n];
    }
  }

  lemma {:induction false} FindPayer(attempts: seq<Attempt>, p: nat) returns (i: nat)
    requires Payers(attempts, p) > 0
    ensures i < |attempts| && attempts[i].purchase == p && attempts[i].payment.Some?
    decreases |attempts|
  {
    i := |attempts| - 1;
    if Pays(attempts[i], p) == 0 {
      i := FindPayer(attempts[..i], p);
    }
  }

  lemma PayersNeedAttempts(attempts: seq<Attempt>, p: nat)
    requires Payers(attempts, p) > 0
    ensures Attempted(attempts, p)
  {
    var i := FindPayer(attempts, p);
  }

  lemma EntryAdded(ledger: seq<Entry>, e: Entry)
    ensures forall o: nat :: ProviderTotal(ledger + [e], o) == ProviderTotal(ledger, o) + if e.order == o && e.via == Paymongo then e.amount else 0
    ensures LedgerTotal(ledger + [e]) == LedgerTotal(ledger) + if e.via == Paymongo then e.amount else 0
  {
    assert (ledger + [e])[..|ledger|] == ledger;
  }

  lemma RecordAdded(log: seq<Record>, r: Record)
    ensures forall p: nat :: History(log + [r], p) == History(log, p) + if r.purchase == p then [r.stage] else []
  {
    assert (log + [r])[..|log|] == log;
  }

  // ----- New purchases -----

  lemma PurchaseKeeps(purchases: seq<Purchase>, db: Db, log: seq<Record>, p: Purchase)
    requires db.purchases == purchases && p.status == Awaiting && p.order == None
    requires GoodAttempts(purchases, db.attempts) && OnePayment(purchases, db.attempts) && GoodLog(purchases, db.attempts, log)
    ensures GoodAttempts(purchases + [p], db.attempts) && OnePayment(purchases + [p], db.attempts)
    ensures GoodLog(purchases + [p], db.attempts, log)
  {
    assert !Attempted(db.attempts, |purchases|);
    forall q: nat ensures SettledPurchase(purchases + [p], q) == SettledPurchase(purchases, q) {
    }
  }

  lemma PurchaseKeepsOrders(purchases: seq<Purchase>, orders: nat, p: Purchase)
    requires p.status == Awaiting && p.order == None && GoodOrders(purchases, orders)
    ensures GoodOrders(purchases + [p], orders)
  {
    var all := purchases + [p];
    assert forall i :: 0 <= i < |purchases| ==> all[i] == purchases[i];
    forall i, j | 0 <= i < j < |all| && all[i].order.Some? ensures all[i].order != all[j].order {
      if j == |purchases| { assert all[j] == p; } else { assert OwnOrders(purchases); }
    }
  }

  lemma PurchaseKeepsLedger(purchases: seq<Purchase>, orders: nat, ledger: seq<Entry>, p: Purchase)
    requires p.status == Awaiting && p.order == None && GoodLedger(purchases, orders, ledger) && GoodRevenue(purchases, ledger)
    ensures GoodLedger(purchases + [p], orders, ledger) && GoodRevenue(purchases + [p], ledger)
  {
    var all := purchases + [p];
    assert all[..|purchases|] == purchases && all[|purchases|] == p;
    forall i | 0 <= i < |all| && all[i].order.Some?
      ensures ProviderTotal(ledger, all[i].order.value) == if all[i].status == Ordered then all[i].price else 0
    {
      assert i < |purchases| && all[i] == purchases[i];
    }
  }

  // ----- Attempts that change without a payment -----

  /** The same purchases, amounts and payments. */
  ghost predicate SameMoney(attempts: seq<Attempt>, attempts': seq<Attempt>) {
    && |attempts| == |attempts'|
    && forall i :: 0 <= i < |attempts| ==> attempts'[i].purchase == attempts[i].purchase && attempts'[i].amount == attempts[i].amount
  }

  lemma SameMoneyAttempted(attempts: seq<Attempt>, attempts': seq<Attempt>)
    requires SameMoney(attempts, attempts')
    ensures forall p: nat :: Attempted(attempts, p) == Attempted(attempts', p)
  {
    forall p: nat ensures Attempted(attempts, p) == Attempted(attempts', p) {
      if Attempted(attempts, p) { var i :| 0 <= i < |attempts| && attempts[i].purchase == p; assert attempts'[i].purchase == p; }
      if Attempted(attempts', p) { var i :| 0 <= i < |attempts| && attempts'[i].purchase == p; assert attempts[i].purchase == p; }
    }
  }

  lemma SameMoneyKeeps(s: System, attempts': seq<Attempt>)
    requires Inv(s) && SameMoney(s.db.attempts, attempts')
    ensures GoodAttempts(s.db.purchases, attempts') && GoodReaders(attempts', s.readers) && GoodCreators(attempts', s.creators)
    ensures GoodLog(s.db.purchases, attempts', s.log)
  {
    SameMoneyAttempted(s.db.attempts, attempts');
  }

  lemma RewriteKeeps(s: System, i: nat, a: Attempt)
    requires Inv(s) && i < |s.db.attempts|
    requires a.purchase == s.db.attempts[i].purchase && a.amount == s.db.attempts[i].amount && a.payment == s.db.attempts[i].payment
    ensures Inv(s.(db := s.db.(attempts := s.db.attempts[i := a])))
  {
    SameMoneyKeeps(s, s.db.attempts[i := a]);
    forall p: nat ensures Payers(s.db.attempts[i := a], p) == Payers(s.db.attempts, p) {
      PayersAfter(s.db.attempts, i, a, p);
    }
  }

  lemma AppendKeeps(purchases: seq<Purchase>, attempts: seq<Attempt>, a: Attempt, log: seq<Record>)
    requires GoodAttempts(purchases, attempts) && OnePayment(purchases, attempts) && GoodLog(purchases, attempts, log)
    requires a.purchase < |purchases| && a.amount == purchases[a.purchase].price && a.payment == None
    requires purchases[a.purchase].status == Awaiting
    ensures GoodAttempts(purchases, attempts + [a]) && OnePayment(purchases, attempts + [a])
    ensures GoodLog(purchases, attempts + [a], if !Attempted(attempts, a.purchase) then log + [Record(a.purchase, Started)] else log)
  {
    RecordAdded(log, Record(a.purchase, Started));
    assert (attempts + [a])[..|attempts|] == attempts;
    forall p: nat ensures Attempted(attempts + [a], p) == (Attempted(attempts, p) || p == a.purchase) {
      assert (attempts + [a])[|attempts|] == a;
      if Attempted(attempts, p) {
        var i :| 0 <= i < |attempts| && attempts[i].purchase == p;
        assert (attempts + [a])[i].purchase == p;
      }
    }
  }

  /** A claim that finds an attempt in progress takes it over, or changes nothing. */
  lemma TakeoverIs(s: System, purchase: nat, i: nat)
    requires Latest(s.db.attempts, purchase) == Some(i)
    ensures i < |s.db.attempts|
    ensures Claimed(s, purchase) == s ||
            Claimed(s, purchase) == s.(db := s.db.(attempts := s.db.attempts[i := s.db.attempts[i].(updatedAt := s.now)]),
                                       creators := s.creators + {Creator(i, s.now)})
  {
    LatestInProgress(s.db.attempts, purchase);
  }

  /** A claim that finds none starts one. */
  lemma NewAttemptIs(s: System, purchase: nat) returns (a: Attempt)
    requires Latest(s.db.attempts, purchase) == None && Claim(s.db, purchase, s.now).1.Ok?
    ensures purchase < |s.db.purchases| && s.db.purchases[purchase].status == Awaiting
    ensures a == Attempt(purchase, s.db.purchases[purchase].price, Creating, None, None, s.now, s.now)
    ensures Claimed(s, purchase)
         == s.(db := s.db.(attempts := s.db.attempts + [a]), creators := s.creators + {Creator(|s.db.attempts|, s.now)},
               log := if !Attempted(s.db.attempts, purchase) then s.log + [Record(purchase, Started)] else s.log)
  {
    a := Attempt(purchase, s.db.purchases[purchase].price, Creating, None, None, s.now, s.now);
  }

  lemma ClaimKeeps(s: System, purchase: nat)
    requires Inv(s)
    ensures Inv(Claimed(s, purchase))
  {
    if Claim(s.db, purchase, s.now).1.Ok? {
      match Latest(s.db.attempts, purchase)
      case Some(i) =>
        TakeoverIs(s, purchase, i);
        RewriteKeeps(s, i, s.db.attempts[i].(updatedAt := s.now));
      case None =>
        var a := NewAttemptIs(s, purchase);
        AppendKeeps(s.db.purchases, s.db.attempts, a, s.log);
    } else {
      assert Claimed(s, purchase) == s;
    }
  }

  // ----- Settlement -----

  /** A settlement takes effect only on a purchase that no attempt has paid. */
  lemma CommitKeeps(s: System, r: Reader)
    requires Inv(s) && r in s.readers
    ensures Inv(Committed(s, r))
  {
    var (db', newly) := Settle(s.db, r.payment, r.seen, s.now);
    if newly == Ok(true) {
      var p, i := r.seen.purchase, r.payment.reference;
      var a := s.db.attempts[i].(state := Settled, payment := Some(r.payment.id), updatedAt := s.now);
      var q := s.db.purchases[p].(status := PaidFor);
      assert db' == s.db.(attempts := s.db.attempts[i := a], purchases := s.db.purchases[p := q]);
      SettlePays(s.db.purchases, s.db.attempts, i, a, q);
      SameMoneyKeeps(s, s.db.attempts[i := a]);
      AdvanceLogs(s.db.purchases, s.db.attempts[i := a], s.log, p, q, NewlyPaid);
      StatusKeepsOrders(s.db.purchases, s.db.orders, s.db.ledger, p, q);
      RevenueAfter(s.db.purchases, p, q);
    }
  }

  lemma SettlePays(purchases: seq<Purchase>, attempts: seq<Attempt>, i: nat, a: Attempt, q: Purchase)
    requires OnePayment(purchases, attempts) && i < |attempts| && a.purchase == attempts[i].purchase < |purchases| && a.payment.Some?
    requires purchases[a.purchase].status == Awaiting && q.status == PaidFor
    ensures OnePayment(purchases[a.purchase := q], attempts[i := a])
  {
    var purchases', attempts' := purchases[a.purchase := q], attempts[i := a];
    NotPaying(attempts, i, a.purchase);
    forall p: nat ensures SettledPurchase(purchases', p) == (SettledPurchase(purchases, p) || p == a.purchase) {
    }
    forall p: nat ensures Payers(attempts', p) == Payers(attempts, p) + if p == a.purchase then 1 else 0 {
      PayersAfter(attempts, i, a, p);
    }
    assert Payers(attempts, a.purchase) == 0;
    assert forall p: nat :: Payers(attempts', p) == if SettledPurchase(purchases', p) then 1 else 0;
  }

  lemma NotPaying(attempts: seq<Attempt>, i: nat, p: nat)
    requires i < |attempts| && Payers(attempts, p) == 0
    ensures Pays(attempts[i], p) == 0
  {
    PayersAfter(attempts, i, attempts[i].(payment := None), p);
  }

  /** A result recorded together with the status that expects it. */
  lemma AdvanceLogs(purchases: seq<Purchase>, attempts: seq<Attempt>, log: seq<Record>, p: nat, q: Purchase, stage: Stage)
    requires GoodLog(purchases, attempts, log) && p < |purchases| && Attempted(attempts, p)
    requires Expected(q.status) == Expected(purchases[p].status) + [stage]
    ensures GoodLog(purchases[p := q], attempts, log + [Record(p, stage)])
  {
    RecordAdded(log, Record(p, stage));
  }

  lemma StatusKeepsOrders(purchases: seq<Purchase>, orders: nat, ledger: seq<Entry>, p: nat, q: Purchase)
    requires GoodOrders(purchases, orders) && GoodLedger(purchases, orders, ledger) && p < |purchases|
    requires q.order == purchases[p].order == None && q.status != Ordered
    ensures GoodOrders(purchases[p := q], orders) && GoodLedger(purchases[p := q], orders, ledger)
  {
  }

  // ----- Orders and refunds -----

  /** What an order that is placed does to the tables. */
  lemma OrderWrites(db: Db, purchase: nat, checks: OrderChecks) returns (q: Purchase, e: Entry)
    requires CreateOrder(db, purchase, checks).1.Ok?
    ensures purchase < |db.purchases| && db.purchases[purchase].status == PaidFor && db.purchases[purchase].order == None
    ensures q == db.purchases[purchase].(status := Ordered, order := Some(db.orders))
    ensures e.order == db.orders && e.amount == q.price && e.via == Paymongo
    ensures CreateOrder(db, purchase, checks).0
         == db.(orders := db.orders + 1, ledger := db.ledger + [e], purchases := db.purchases[purchase := q])
  {
    q := db.purchases[purchase].(status := Ordered, order := Some(db.orders));
    e := Entry(db.orders, q.price, Paymongo, ConfirmedPayment(db.attempts, purchase), None);
  }

  lemma OrderKeeps(s: System, purchase: nat, checks: OrderChecks)
    requires Inv(s)
    ensures Inv(s.(db := CreateOrder(s.db, purchase, checks).0))
  {
    if CreateOrder(s.db, purchase, checks).1.Ok? {
      var q, e := OrderWrites(s.db, purchase, checks);
      OrderKeepsMoney(s.db.purchases, s.db.orders, s.db.ledger, purchase, q, e);
      SameStanding(s.db.purchases, s.db.attempts, s.log, purchase, q);
    } else {
      assert CreateOrder(s.db, purchase, checks).0 == s.db;
    }
  }

  /** Nothing but the purchase's standing in the ledger changes. */
  lemma SameStanding(purchases: seq<Purchase>, attempts: seq<Attempt>, log: seq<Record>, p: nat, q: Purchase)
    requires GoodAttempts(purchases, attempts) && OnePayment(purchases, attempts) && GoodLog(purchases, attempts, log)
    requires p < |purchases| && purchases[p].status == PaidFor && q.status == Ordered && q.price == purchases[p].price
    ensures GoodAttempts(purchases[p := q], attempts) && OnePayment(purchases[p := q], attempts) && GoodLog(purchases[p := q], attempts, log)
  {
    forall r: nat ensures SettledPurchase(purchases[p := q], r) == SettledPurchase(purchases, r) {
    }
  }

  lemma OrderKeepsMoney(purchases: seq<Purchase>, orders: nat, ledger: seq<Entry>, p: nat, q: Purchase, e: Entry)
    requires GoodOrders(purchases, orders) && GoodLedger(purchases, orders, ledger) && GoodRevenue(purchases, ledger)
    requires p < |purchases| && purchases[p].status == PaidFor && purchases[p].order == None
    requires q == purchases[p].(status := Ordered, order := Some(orders))
    requires e.order == orders && e.amount == q.price && e.via == Paymongo
    ensures GoodOrders(purchases[p := q], orders + 1) && GoodLedger(purchases[p := q], orders + 1, ledger + [e])
    ensures GoodRevenue(purchases[p := q], ledger + [e])
  {
    EntryAdded(ledger, e);
    RevenueAfter(purchases, p, q);
    OrderKeepsLedger(purchases, orders, ledger, p, q, e);
  }

  lemma OrderKeepsLedger(purchases: seq<Purchase>, orders: nat, ledger: seq<Entry>, p: nat, q: Purchase, e: Entry)
    requires GoodOrders(purchases, orders) && GoodLedger(purchases, orders, ledger)
    requires p < |purchases| && purchases[p].status == PaidFor && purchases[p].order == None
    requires q == purchases[p].(status := Ordered, order := Some(orders))
    requires e.order == orders && e.amount == q.price && e.via == Paymongo
    ensures GoodOrders(purchases[p := q], orders + 1) && GoodLedger(purchases[p := q], orders + 1, ledger + [e])
  {
    EntryAdded(ledger, e);
  }

  /** What a refund that is recorded does to the tables. */
  lemma RefundWrites(db: Db, purchase: nat, refundId: Id, refund: ProviderRefund) returns (q: Purchase, e: Option<Entry>)
    requires Refund(db, purchase, refundId, refund).1 == Ok(true)
    ensures var db' := Refund(db, purchase, refundId, refund).0;
            && purchase < |db.purchases| && q == db.purchases[purchase].(status := Refunded)
            && db'.purchases == db.purchases[purchase := q] && db'.attempts == db.attempts && db'.orders == db.orders
            && SettledPurchase(db.purchases, purchase) && db.purchases[purchase].status != Refunded
            && (match e
                case None => db'.ledger == db.ledger && q.order == None
                case Some(e) => db'.ledger == db.ledger + [e] && q.order == Some(e.order) && e.amount == 0 - q.price && e.via == Paymongo)
  {
    var db' := Refund(db, purchase, refundId, refund).0;
    var p := db.purchases[purchase];
    q := p.(status := Refunded);
    e := if p.order.Some? then Some(db'.ledger[|db.ledger|]) else None;
  }

  lemma RefundKeeps(s: System, purchase: nat, refundId: Id, refund: ProviderRefund)
    requires Inv(s)
    ensures Inv(RefundedBy(s, purchase, refundId, refund))
  {
    var s' := RefundedBy(s, purchase, refundId, refund);
    if Refund(s.db, purchase, refundId, refund).1 == Ok(true) {
      var q, e := RefundWrites(s.db, purchase, refundId, refund);
      PayersNeedAttempts(s.db.attempts, purchase);
      AdvanceLogs(s.db.purchases, s.db.attempts, s.log, purchase, q, NewlyRefunded);
      RefundKeepsAttempts(s.db.purchases, s.db.attempts, purchase, q);
      RefundKeepsMoney(s.db.purchases, s.db.orders, s.db.ledger, purchase, q, e);
      assert s'.readers == s.readers && s'.creators == s.creators && s'.log == s.log + [Record(purchase, NewlyRefunded)];
    } else {
      assert s' == s;
    }
  }

  lemma RefundKeepsMoney(purchases: seq<Purchase>, orders: nat, ledger: seq<Entry>, p: nat, q: Purchase, e: Option<Entry>)
    requires GoodOrders(purchases, orders) && GoodLedger(purchases, orders, ledger) && GoodRevenue(purchases, ledger)
    requires SettledPurchase(purchases, p) && purchases[p].status != Refunded && q == purchases[p].(status := Refunded)
    requires match e
             case None => q.order == None
             case Some(e) => q.order == Some(e.order) && e.amount == 0 - q.price && e.via == Paymongo
    ensures GoodOrders(purchases[p := q], orders)
    ensures var ledger' := if e.Some? then ledger + [e.value] else ledger;
            GoodLedger(purchases[p := q], orders, ledger') && GoodRevenue(purchases[p := q], ledger')
  {
    RevenueAfter(purchases, p, q);
    if e.Some? {
      EntryAdded(ledger, e.value);
      assert OwnOrders(purchases);
      assert forall r :: 0 <= r < |purchases| && r != p && purchases[r].order.Some? ==> purchases[r].order.value != e.value.order;
    } else {
      StatusKeepsOrders(purchases, orders, ledger, p, q);
    }
  }

  lemma RefundKeepsAttempts(purchases: seq<Purchase>, attempts: seq<Attempt>, p: nat, q: Purchase)
    requires GoodAttempts(purchases, attempts) && OnePayment(purchases, attempts)
    requires SettledPurchase(purchases, p) && q == purchases[p].(status := Refunded)
    ensures GoodAttempts(purchases[p := q], attempts) && OnePayment(purchases[p := q], attempts)
  {
    forall r: nat ensures SettledPurchase(purchases[p := q], r) == SettledPurchase(purchases, r) {
    }
  }

  lemma ManualKeeps(s: System, e: Entry)
    requires Inv(s) && e.via == Manual
    ensures Inv(s.(db := s.db.(ledger := s.db.ledger + [e])))
  {
    EntryAdded(s.db.ledger, e);
  }

  lemma AddPurchaseKeeps(s: System, price: nat, accepted: bool)
    requires Inv(s)
    ensures Inv(Next(s, AddPurchase(price, accepted)))
  {
    var p := Purchase(price, accepted, Awaiting, None);
    PurchaseKeeps(s.db.purchases, s.db, s.log, p);
    PurchaseKeepsOrders(s.db.purchases, s.db.orders, p);
    PurchaseKeepsLedger(s.db.purchases, s.db.orders, s.db.ledger, p);
  }

  /** What the provider's answer or an expiry writes: at most one attempt, and no payment. */
  lemma ProviderWrites(s: System, e: Step) returns (i: nat, a: Attempt)
    requires e.ProviderOpens? || e.ProviderRefuses? || e.Expire?
    ensures Next(s, e) == s ||
            (i < |s.db.attempts| && a.purchase == s.db.attempts[i].purchase && a.amount == s.db.attempts[i].amount
             && a.payment == s.db.attempts[i].payment && Next(s, e).creators <= s.creators
             && Next(s, e) == s.(db := s.db.(attempts := s.db.attempts[i := a]), creators := Next(s, e).creators))
  {
    i := if e.Expire? then e.attempt else e.creator.attempt;
    if i < |s.db.attempts| {
      a := Next(s, e).db.attempts[i];
      assert s.db.attempts[i := s.db.attempts[i]] == s.db.attempts;
    } else {
      a := Attempt(0, 0, Open, None, None, 0, 0);
    }
  }

  lemma ProviderKeeps(s: System, e: Step)
    requires Inv(s) && (e.ProviderOpens? || e.ProviderRefuses? || e.Expire?)
    ensures Inv(Next(s, e))
  {
    var i, a := ProviderWrites(s, e);
    if Next(s, e) != s {
      RewriteKeeps(s, i, a);
    }
  }

  lemma StepKeeps(s: System, e: Step)
    requires Inv(s)
    ensures Inv(Next(s, e))
  {
    match e
    case AddPurchase(price, accepted) => AddPurchaseKeeps(s, price, accepted);
    case ClaimStep(purchase) => ClaimKeeps(s, purchase);
    case ProviderOpens(_, _) => ProviderKeeps(s, e);
    case ProviderRefuses(_) => ProviderKeeps(s, e);
    case Expire(_) => ProviderKeeps(s, e);
    case PaidCommit(r) => if r in s.readers { CommitKeeps(s, r); }
    case OrderStep(purchase, checks) => OrderKeeps(s, purchase, checks);
    case RefundStep(purchase, refundId, refund) => RefundKeeps(s, purchase, refundId, refund);
    case ManualEntry(order, amount) => ManualKeeps(s, Entry(order, amount, Manual, None, None));
    case _ =>
  }

  lemma {:induction false} RunKeeps(s: System, steps: seq<Step>)
    requires Inv(s)
    ensures Inv(Run(s, steps))
    decreases |steps|
  {
    if steps != [] {
      StepKeeps(s, steps[0]);
      RunKeeps(Next(s, steps[0]), steps[1..]);
    }
  }

  // ----- Over every run -----

  /** In every interleaving a settled purchase has exactly one attempt that carries a payment, any
      other purchase none, and every attempt is for its purchase's price. */
  lemma SettledExactlyOnce(steps: seq<Step>, p: nat)
    ensures var db := Run(EMPTY, steps).db;
            && Payers(db.attempts, p) == (if p < |db.purchases| && IsSettled(db.purchases[p].status) then 1 else 0)
            && (forall i :: 0 <= i < |db.attempts| ==>
                  db.attempts[i].purchase < |db.purchases| && db.attempts[i].amount == db.purchases[db.attempts[i].purchase].price)
  {
    RunKeeps(EMPTY, steps);
    assert Payers(Run(EMPTY, steps).db.attempts, p) == if SettledPurchase(Run(EMPTY, steps).db.purchases, p) then 1 else 0;
  }

  /** The newly-started, newly-paid and newly-refunded results of a purchase come once at most each
      and in that order, and tell where the purchase stands. */
  lemma ResultsComeOnceInOrder(steps: seq<Step>, p: nat)
    ensures var s := Run(EMPTY, steps);
            && History(s.log, p) <= [Started, NewlyPaid, NewlyRefunded]
            && (NewlyPaid in History(s.log, p) <==> p < |s.db.purchases| && IsSettled(s.db.purchases[p].status))
            && (NewlyRefunded in History(s.log, p) <==> p < |s.db.purchases| && s.db.purchases[p].status == Refunded)
  {
    RunKeeps(EMPTY, steps);
    ResultsSoFar(Run(EMPTY, steps), p);
  }

  lemma ResultsSoFar(s: System, p: nat)
    requires OnePayment(s.db.purchases, s.db.attempts) && GoodLog(s.db.purchases, s.db.attempts, s.log)
    ensures History(s.log, p) <= [Started, NewlyPaid, NewlyRefunded]
    ensures NewlyPaid in History(s.log, p) <==> p < |s.db.purchases| && IsSettled(s.db.purchases[p].status)
    ensures NewlyRefunded in History(s.log, p) <==> p < |s.db.purchases| && s.db.purchases[p].status == Refunded
  {
    if SettledPurchase(s.db.purchases, p) {
      assert Payers(s.db.attempts, p) == 1;
      PayersNeedAttempts(s.db.attempts, p);
    }
    assert History(s.log, p) == [] || History(s.log, p) == Expected(s.db.purchases[p].status);
  }

  /** The provider receipts of a purchase's order sum to its price while it is ordered and to zero
      once it is refunded; no two purchases share an order. */
  lemma LedgerFollowsThePurchase(steps: seq<Step>, p: nat)
    requires p < |Run(EMPTY, steps).db.purchases|
    ensures var db := Run(EMPTY, steps).db; var row := db.purchases[p];
            && (row.status == Ordered ==> row.order.Some? && ProviderTotal(db.ledger, row.order.value) == row.price)
            && (row.status == Refunded && row.order.Some? ==> ProviderTotal(db.ledger, row.order.value) == 0)
            && (row.order.Some? ==> forall q :: 0 <= q < |db.purchases| && q != p ==> db.purchases[q].order != row.order)
  {
    RunKeeps(EMPTY, steps);
    assert OwnOrders(Run(EMPTY, steps).db.purchases);
  }

  /** Reported revenue is the ledger's provider money plus the prices of paid purchases that have no
      order yet. */
  lemma RevenueIsTheLedger(steps: seq<Step>)
    ensures var db := Run(EMPTY, steps).db;
            Revenue(db.purchases) == LedgerTotal(db.ledger) + AwaitingOrder(db.purchases)
  {
    RunKeeps(EMPTY, steps);
  }

  /** The purchases of one line of the report, such as those of a tier created in the last 30 days. */
  type Group = nat -> bool

  function Reported(p: Purchase): int {
    if p.status != PaidFor && p.status != Ordered && p.status != Refunded then 0
    else if p.status == Refunded then 0 else p.price
  }

  /** The revenue of one line of the report. */
  function RevenueOf(purchases: seq<Purchase>, line: Group): int {
    if purchases == [] then 0
    else
      var n := |purchases| - 1;
      RevenueOf(purchases[..n], line) + if line(n) then Reported(purchases[n]) else 0
  }

  /** The provider money on the orders of its purchases. */
  function LedgerOf(purchases: seq<Purchase>, ledger: seq<Entry>, line: Group): int {
    if purchases == [] then 0
    else
      var n := |purchases| - 1;
      LedgerOf(purchases[..n], ledger, line)
      + if line(n) && purchases[n].order.Some? then ProviderTotal(ledger, purchases[n].order.value) else 0
  }

  /** The prices of its purchases that are paid and have no order yet. */
  function AwaitingOf(purchases: seq<Purchase>, line: Group): int {
    if purchases == [] then 0
    else
      var n := |purchases| - 1;
      AwaitingOf(purchases[..n], line) + if line(n) && purchases[n].status == PaidFor then purchases[n].price else 0
  }

  /** A purchase is reported at what its order's ledger holds, or at its price while it awaits one. */
  predicate Accounted(p: Purchase, ledger: seq<Entry>) {
    Reported(p) == (if p.order.Some? then ProviderTotal(ledger, p.order.value) else 0) + if p.status == PaidFor then p.price else 0
  }

  lemma {:induction false} AccountedLine(purchases: seq<Purchase>, ledger: seq<Entry>, line: Group)
    requires forall p :: 0 <= p < |purchases| ==> Accounted(purchases[p], ledger)
    ensures RevenueOf(purchases, line) == LedgerOf(purchases, ledger, line) + AwaitingOf(purchases, line)
    decreases |purchases|
  {
    if purchases != [] {
      AccountedLine(purchases[..|purchases| - 1], ledger, line);
    }
  }

  /** Whatever purchases a line of the report covers, its revenue is the provider ledger of their
      orders plus the prices of those paid and not ordered yet. */
  lemma RevenueOfAnyLine(steps: seq<Step>, line: Group)
    ensures var db := Run(EMPTY, steps).db;
            RevenueOf(db.purchases, line) == LedgerOf(db.purchases, db.ledger, line) + AwaitingOf(db.purchases, line)
  {
    var db := Run(EMPTY, steps).db;
    RunKeeps(EMPTY, steps);
    forall p | 0 <= p < |db.purchases| ensures Accounted(db.purchases[p], db.ledger) {
      LedgerFollowsThePurchase(steps, p);
      assert GoodOrders(db.purchases, db.orders);
    }
    AccountedLine(db.purchases, db.ledger, line);
  }

  // ----- Settlement is final, repeated events are harmless -----

  /** Once settled a purchase stays settled, at the same price, whatever follows. */
  lemma {:induction false} SettledForGood(s: System, steps: seq<Step>, p: nat)
    requires SettledPurchase(s.db.purchases, p)
    ensures SettledPurchase(Run(s, steps).db.purchases, p) && Run(s, steps).db.purchases[p].price == s.db.purchases[p].price
    decreases |steps|
  {
    if steps != [] {
      SettledStays(s, steps[0], p);
      SettledForGood(Next(s, steps[0]), steps[1..], p);
    }
  }

  lemma SettledStays(s: System, e: Step, p: nat)
    requires SettledPurchase(s.db.purchases, p)
    ensures SettledPurchase(Next(s, e).db.purchases, p) && Next(s, e).db.purchases[p].price == s.db.purchases[p].price
  {
    match e
    case ClaimStep(purchase) => assert Claim(s.db, purchase, s.now).0.purchases == s.db.purchases;
    case RefundStep(purchase, refundId, refund) =>
      if Refund(s.db, purchase, refundId, refund).1 == Ok(true) { var _, _ := RefundWrites(s.db, purchase, refundId, refund); }
    case _ =>
  }

  /** The event that settled a purchase changes nothing when it comes again. A fresh read
      recognises it; one that had read the row before the settlement is told of a conflict. */
  lemma RepeatedEvent(db: Db, p: Payment, seen: Attempt, now: int, now': int)
    requires ReadAttempt(db, p) == Ok(seen) && Settle(db, p, seen, now).1 == Ok(true)
    ensures var after := Settle(db, p, seen, now).0;
            && Settle(after, p, seen, now') == (after, if seen.payment == Some(p.id) then Ok(false) else Err(DifferentPayment))
            && ReadAttempt(after, p).Ok?
            && Settle(after, p, ReadAttempt(after, p).value, now') == (after, Ok(false))
  {
  }

  /** A recorded refund is final: whatever follows, the purchase stays refunded, and confirming that
      or any other refund of it changes nothing. */
  lemma RefundedForGood(s: System, purchase: nat, refundId: Id, refund: ProviderRefund, steps: seq<Step>,
                        refundId': Id, refund': ProviderRefund)
    requires Refund(s.db, purchase, refundId, refund).1 == Ok(true)
    ensures var later := Run(RefundedBy(s, purchase, refundId, refund), steps).db;
            && purchase < |later.purchases| && later.purchases[purchase].status == Refunded
            && Refund(later, purchase, refundId', refund').0 == later && Refund(later, purchase, refundId', refund').1 != Ok(true)
  {
    var q, e := RefundWrites(s.db, purchase, refundId, refund);
    StaysRefunded(RefundedBy(s, purchase, refundId, refund), steps, purchase);
  }

  predicate IsRefunded(purchases: seq<Purchase>, p: nat) { p < |purchases| && purchases[p].status == Refunded }

  lemma {:induction false} StaysRefunded(s: System, steps: seq<Step>, p: nat)
    requires IsRefunded(s.db.purchases, p)
    ensures IsRefunded(Run(s, steps).db.purchases, p)
    decreases |steps|
  {
    if steps != [] {
      StepStaysRefunded(s, steps[0], p);
      StaysRefunded(Next(s, steps[0]), steps[1..], p);
    }
  }

  lemma StepStaysRefunded(s: System, e: Step, p: nat)
    requires IsRefunded(s.db.purchases, p)
    ensures IsRefunded(Next(s, e).db.purchases, p)
  {
    match e
    case ClaimStep(purchase) => assert Claim(s.db, purchase, s.now).0.purchases == s.db.purchases;
    case RefundStep(purchase, refundId, refund) =>
      if Refund(s.db, purchase, refundId, refund).1 == Ok(true) { var _, _ := RefundWrites(s.db, purchase, refundId, refund); }
    case _ =>
  }

  /** Confirming a recorded refund again is recognised. */
  lemma RepeatedRefund(db: Db, purchase: nat, refundId: Id, refund: ProviderRefund)
    requires Refund(db, purchase, refundId, refund).1 == Ok(true)
    ensures var after := Refund(db, purchase, refundId, refund).0;
            Refund(after, purchase, refundId, refund) == (after, Ok(false))
  {
    var q, e := RefundWrites(db, purchase, refundId, refund);
  }

  /** A recorded refund leaves no live invitation behind, and old sessions below its epoch. */
  lemma RefundClosesAccess(db: Db, purchase: nat, refundId: Id, refund: ProviderRefund)
    requires Refund(db, purchase, refundId, refund).1 == Ok(true)
    ensures var db' := Refund(db, purchase, refundId, refund).0;
            match db.purchases[purchase].order
            case None => db'.invitations == db.invitations
            case Some(o) =>
              && db'.invitations.Keys == db.invitations.Keys
              && (forall i :: i in db.invitations && i != o ==> db'.invitations[i] == db.invitations[i])
              && (o in db.invitations ==>
                    && !db'.invitations[o].live
                    && db'.invitations[o].epoch == db.invitations[o].epoch + if db.invitations[o].live then 1 else 0)
  {
    var p := db.purchases[purchase];
    if p.order.Some? {
      assert Refund(db, purchase, refundId, refund).0.invitations == Suspend(db.invitations, p.order.value);
    }
  }

  // ----- Reconciliation is one more interleaving -----

  lemma {:induction false} RunAppend(s: System, first: seq<Step>, second: seq<Step>)
    ensures Run(s, first + second) == Run(Run(s, first), second)
    decreases |first|
  {
    if first == [] {
      assert first + second == second;
    } else {
      assert (first + second)[1..] == first[1..] + second;
      RunAppend(Next(s, first[0]), first[1..], second);
    }
  }

  lemma InspectIsARun(s: System, reference: nat, session: Option<Id>, answer: Answer, tally: Tally) returns (steps: seq<Step>)
    requires reference < |s.db.attempts|
    ensures Run(s, steps).db == Inspect(s.db, reference, session, answer, s.now, tally).0 && Run(s, steps).now == s.now
    ensures var t := Inspect(s.db, reference, session, answer, s.now, tally).1;
            && t.inspected == tally.inspected
            && t.settled + t.expired + t.errors <= tally.settled + tally.expired + tally.errors + 1
  {
    steps := [];
    if session.Some? && answer.Session? {
      if PaidOnes(answer.payments) != [] {
        var shaped := Shape(PaidEvent(session.value, reference, answer));
        if shaped.Ok? && ReadAttempt(s.db, shaped.value.value).Ok? {
          steps := ApplyIsARun(s, shaped.value.value);
        }
      } else if answer.expired {
        steps := [Expire(reference)];
        assert Run(s, steps) == Run(Next(s, steps[0]), []);
      }
    }
  }

  lemma ApplyIsARun(s: System, p: Payment) returns (steps: seq<Step>)
    requires ReadAttempt(s.db, p).Ok?
    ensures Run(s, steps).db == Settle(s.db, p, ReadAttempt(s.db, p).value, s.now).0 && Run(s, steps).now == s.now
  {
    var r := Reader(p, ReadAttempt(s.db, p).value);
    steps := [PaidRead(p), PaidCommit(r)];
    var s' := Next(s, PaidRead(p));
    assert s' == s.(readers := s.readers + {r});
    assert steps[1..] == [PaidCommit(r)];
    assert Run(s', [PaidCommit(r)]) == Run(Next(s', PaidCommit(r)), []);
    assert Next(s', PaidCommit(r)) == Committed(s', r);
  }

  /** A whole reconciliation does what some steps of the protocol do, and counts each attempt once at most. */
  lemma {:induction false} ReconcileIsARun(s: System, pending: seq<Pending>, answers: seq<Answer>, tally: Tally) returns (steps: seq<Step>)
    requires |pending| == |answers| && forall i :: 0 <= i < |pending| ==> pending[i].reference < |s.db.attempts|
    ensures Run(s, steps).db == InspectAll(s.db, pending, answers, s.now, tally).0
    ensures var t := InspectAll(s.db, pending, answers, s.now, tally).1;
            && t.inspected == tally.inspected
            && t.settled + t.expired + t.errors <= tally.settled + tally.expired + tally.errors + |pending|
    decreases |pending|
  {
    steps := [];
    if pending != [] {
      var first := InspectIsARun(s, pending[0].reference, pending[0].session, answers[0], tally);
      InspectKeepsLength(s.db, pending[0].reference, pending[0].session, answers[0], s.now, tally);
      var tally' := Inspect(s.db, pending[0].reference, pending[0].session, answers[0], s.now, tally).1;
      var rest := ReconcileIsARun(Run(s, first), pending[1..], answers[1..], tally');
      RunAppend(s, first, rest);
      steps := first + rest;
    }
  }
}
