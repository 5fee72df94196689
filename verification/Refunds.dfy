/** The refund ledger of one business: what was asked back, what is under way, what was paid back. */
module Refunds {
  import opened Basics
  import opened Lifecycles

  /** Money in cents. */
  datatype Payment = Payment(amount: nat, refunded: nat, status: PaymentStatus)

  datatype Refund = Refund(payment: int, amount: nat, status: RefundStatus, providerId: Option<int>)

  /** Refunds by their idempotency key, which is unique in the business. */
  type RefundRows = map<int, Refund>

  datatype Ledger = Ledger(payments: map<int, Payment>, refunds: RefundRows)

  datatype RefundError =
    | PaymentNotFound | RefundNotFound | DifferentRefund | PaymentStateForbids | AmountNotPositive | ReservedAmountWrong
    | ExceedsRemainder | PartialNotSupported | MoneyMismatch | ProviderIdMismatch | RefundStateForbids | ExceedsPayment

  // ---------------------------------------------------------------------------
  // Sums

  predicate Counts(x: Refund, payment: int, status: RefundStatus) { x.payment == payment && x.status == status }

  function Share(x: Refund, payment: int, status: RefundStatus): nat {
    if Counts(x, payment, status) then x.amount else 0
  }

  /** The amounts of one payment's refunds in one status. */
  ghost function Total(refunds: RefundRows, payment: int, status: RefundStatus): nat
    decreases |refunds|
  {
    if refunds == map[] then 0
    else
      var k := Pick(refunds);
      Share(refunds[k], payment, status) + Total(refunds - {k}, payment, status)
  }

  ghost function Pick(refunds: RefundRows): (k: int)
    requires refunds != map[]
    ensures k in refunds
  {
    SomeKey(refunds);
    var k :| k in refunds;
    k
  }

  lemma SomeKey(refunds: RefundRows)
    requires refunds != map[]
    ensures exists k :: k in refunds
  {
    assert refunds.Keys != {};
    var k := Member(refunds.Keys);
  }

  /** The sum does not depend on the order in which rows are added up. */
  lemma {:induction false} TotalWithout(refunds: RefundRows, payment: int, status: RefundStatus, k: int)
    requires k in refunds
    ensures Total(refunds, payment, status) ==
              Share(refunds[k], payment, status) + Total(refunds - {k}, payment, status)
    decreases |refunds|
  {
    var q := Pick(refunds);
    if q != k {
      TotalWithout(refunds - {q}, payment, status, k);
      TotalWithout(refunds - {k}, payment, status, q);
      assert refunds - {q} - {k} == refunds - {k} - {q};
    }
  }

  lemma TotalWith(refunds: RefundRows, payment: int, status: RefundStatus, k: int, x: Refund)
    ensures Total(refunds[k := x], payment, status) ==
              Share(x, payment, status)
              + (if k in refunds then Total(refunds, payment, status) - Share(refunds[k], payment, status)
                 else Total(refunds, payment, status))
  {
    TotalWithout(refunds[k := x], payment, status, k);
    assert refunds[k := x] - {k} == refunds - {k};
    if k in refunds {
      TotalWithout(refunds, payment, status, k);
    } else {
      assert refunds - {k} == refunds;
    }
  }

  // ---------------------------------------------------------------------------
  // The operations

  /** A payment whose refund failed goes back to where it was. */
  function RestoredStatus(x: Payment): PaymentStatus {
    if x.refunded > 0 then PartlyRefunded else Paid
  }

  function RefundedStatus(x: Payment): PaymentStatus {
    if x.refunded == x.amount then FullyRefunded else PartlyRefunded
  }

  /** A new refund of `amount`, or the refund that the key already names. */
  ghost function Request(l: Ledger, payment: int, key: int, amount: int, partial: bool): Result<Ledger, RefundError> {
    if payment !in l.payments then Err(PaymentNotFound)
    else if key in l.refunds then
      if l.refunds[key].payment == payment && l.refunds[key].amount == amount then Ok(l) else Err(DifferentRefund)
    else
      var x := l.payments[payment];
      var reserved := x.refunded + Total(l.refunds, payment, Pending);
      if x.status != Paid && x.status != PartlyRefunded then Err(PaymentStateForbids)
      else if amount <= 0 then Err(AmountNotPositive)
      else if reserved > x.amount then Err(ReservedAmountWrong)
      else if amount > x.amount - reserved then Err(ExceedsRemainder)
      else if amount < x.amount - reserved && !partial then Err(PartialNotSupported)
      else Ok(Ledger(l.payments[payment := x.(status := RefundRequested)],
                     l.refunds[key := Refund(payment, amount, Pending, None)]))
  }

  /** The provider's word on a refund. */
  function Apply(l: Ledger, key: int, amount: int, status: RefundStatus, providerId: int): Result<Ledger, RefundError> {
    if key !in l.refunds || l.refunds[key].payment !in l.payments then Err(RefundNotFound)
    else
      var r := l.refunds[key];
      var x := l.payments[r.payment];
      if amount != r.amount then Err(MoneyMismatch)
      else if r.providerId.Some? && r.providerId.value != providerId then Err(ProviderIdMismatch)
      else if !RefundMove(r.status, status) then Err(RefundStateForbids)
      else
        var rows := l.refunds[key := r.(status := status, providerId := Some(providerId))];
        if status == Succeeded then
          var refunded := if r.status == Succeeded then x.refunded else x.refunded + r.amount;
          if refunded > x.amount then Err(ExceedsPayment)
          else
            var target := RefundedStatus(x.(refunded := refunded));
            if !PaymentMove(x.status, target) then Err(PaymentStateForbids)
            else Ok(Ledger(l.payments[r.payment := x.(refunded := refunded, status := target)], rows))
        else if status == Pending then Ok(l.(refunds := rows))
        else if !PaymentMove(x.status, RestoredStatus(x)) then Err(PaymentStateForbids)
        else Ok(Ledger(l.payments[r.payment := x.(status := RestoredStatus(x))], rows))
  }

  /** What the same statements have written when they end or raise: the refund is written before
      the payment's status is tested. */
  function Written(l: Ledger, key: int, amount: int, status: RefundStatus, providerId: int): Ledger {
    if key !in l.refunds || l.refunds[key].payment !in l.payments then l
    else
      var r := l.refunds[key];
      var x := l.payments[r.payment];
      if amount != r.amount || (r.providerId.Some? && r.providerId.value != providerId) || !RefundMove(r.status, status)
      then l
      else
        var rows := l.refunds[key := r.(status := status, providerId := Some(providerId))];
        if status == Pending then l.(refunds := rows)
        else if status != Succeeded then Ledger(l.payments[r.payment := Moved(x, RestoredStatus(x))], rows)
        else
          var refunded := if r.status == Succeeded then x.refunded else x.refunded + r.amount;
          if refunded > x.amount then l.(refunds := rows)
          else
            var y := x.(refunded := refunded);
            Ledger(l.payments[r.payment := Moved(y, RefundedStatus(y))], rows)
  }

  /** The payment with its new status, or as it is if it may not move there. */
  function Moved(x: Payment, target: PaymentStatus): Payment {
    if PaymentMove(x.status, target) then x.(status := target) else x
  }

  lemma WrittenIfAccepted(l: Ledger, key: int, amount: int, status: RefundStatus, providerId: int)
    requires Apply(l, key, amount, status, providerId).Ok?
    ensures Written(l, key, amount, status, providerId) == Apply(l, key, amount, status, providerId).value
  {
  }

  /** The provider could not be asked. */
  function Fail(l: Ledger, key: int, retryable: bool): Result<Ledger, RefundError> {
    if key !in l.refunds || l.refunds[key].payment !in l.payments then Err(RefundNotFound)
    else if l.refunds[key].status != Pending || retryable then Ok(l)
    else
      var r := l.refunds[key];
      var x := l.payments[r.payment];
      if !PaymentMove(x.status, RestoredStatus(x)) then Err(PaymentStateForbids)
      else Ok(Ledger(l.payments[r.payment := x.(status := RestoredStatus(x))], l.refunds[key := r.(status := Failed)]))
  }

  /** A request is accepted exactly if it repeats the one its key names, or the payment is paid and
      has that much left that is neither paid back nor under way, all of it unless parts may be;
      then it adds the refund under way, and says so on the payment. */
  lemma RequestAcceptedIff(l: Ledger, payment: int, key: int, amount: int, partial: bool)
    ensures var r := Request(l, payment, key, amount, partial);
            && (r.Ok? <==> payment in l.payments && Acceptable(l, payment, key, amount, partial))
            && (r.Ok? && key in l.refunds ==> r.value == l)
            && (r.Ok? && key !in l.refunds ==>
                  && r.value.refunds == l.refunds[key := Refund(payment, amount, Pending, None)]
                  && r.value.payments ==
                       l.payments[payment := Payment(l.payments[payment].amount, l.payments[payment].refunded,
                                                     RefundRequested)])
  {
  }

  ghost predicate Acceptable(l: Ledger, payment: int, key: int, amount: int, partial: bool)
    requires payment in l.payments
  {
    if key in l.refunds then l.refunds[key].payment == payment && l.refunds[key].amount == amount
    else
      var left := l.payments[payment].amount - l.payments[payment].refunded - Total(l.refunds, payment, Pending);
      && (l.payments[payment].status == Paid || l.payments[payment].status == PartlyRefunded)
      && 0 < amount <= left && (partial || amount == left)
  }

  /** The provider's word fits the refund: its amount, its provider id, and nothing else was said
      about how it ended. */
  predicate FitsRefund(x: Refund, amount: int, status: RefundStatus, providerId: int) {
    && x.amount == amount && (x.providerId == None || x.providerId == Some(providerId))
    && (x.status == Pending || x.status == status)
  }

  /** The amount paid back once the answer is taken into account. */
  function PaidBack(x: Payment, r: Refund, status: RefundStatus): nat {
    if status == Succeeded && r.status != Succeeded then x.refunded + r.amount else x.refunded
  }

  /** The payment's status once the answer is taken into account. */
  function ToldStatus(x: Payment, r: Refund, status: RefundStatus): PaymentStatus {
    if status == Pending then x.status
    else if status == Succeeded && PaidBack(x, r, status) == x.amount then FullyRefunded
    else if status == Succeeded || x.refunded > 0 then PartlyRefunded
    else Paid
  }

  /** An answer is accepted exactly if it fits the refund, does not overdraw the payment and moves
      its status as allowed; it settles the refund, adds its amount once, and nothing else. */
  lemma AnswerAcceptedIff(l: Ledger, key: int, amount: int, status: RefundStatus, providerId: int)
    requires key in l.refunds && l.refunds[key].payment in l.payments
    ensures var r, answer := l.refunds[key], Apply(l, key, amount, status, providerId);
            var x := l.payments[r.payment];
            && (answer.Ok? <==>
                  && FitsRefund(r, amount, status, providerId)
                  && (status == Succeeded ==> PaidBack(x, r, status) <= x.amount)
                  && PaymentMove(x.status, ToldStatus(x, r, status)))
            && (answer.Ok? ==>
                  && answer.value.refunds == l.refunds[key := Refund(r.payment, r.amount, status, Some(providerId))]
                  && answer.value.payments ==
                       l.payments[r.payment := Payment(x.amount, PaidBack(x, r, status), ToldStatus(x, r, status))])
  {
    var r := l.refunds[key];
    var x := l.payments[r.payment];
    assert l.payments[r.payment := Payment(x.amount, x.refunded, x.status)] == l.payments;
  }

  /** A refund that could not be submitted fails for good, and its payment goes back, only if it is
      under way and there is no use in trying again. */
  lemma FailureIs(l: Ledger, key: int, retryable: bool)
    requires key in l.refunds && l.refunds[key].payment in l.payments
    ensures var r, answer := l.refunds[key], Fail(l, key, retryable);
            var x := l.payments[r.payment];
            var back := if x.refunded > 0 then PartlyRefunded else Paid;
            && (r.status != Pending || retryable ==> answer == Ok(l))
            && (r.status == Pending && !retryable ==>
                  && (answer.Ok? <==> PaymentMove(x.status, back))
                  && (answer.Ok? ==>
                        && answer.value.refunds == l.refunds[key := Refund(r.payment, r.amount, Failed, r.providerId)]
                        && answer.value.payments == l.payments[r.payment := Payment(x.amount, x.refunded, back)]))
  {
  }

  // ---------------------------------------------------------------------------
  // Money is conserved

  ghost predicate Sound(l: Ledger, payment: int)
    requires payment in l.payments
  {
    && l.payments[payment].refunded == Total(l.refunds, payment, Succeeded)
    && l.payments[payment].refunded + Total(l.refunds, payment, Pending) <= l.payments[payment].amount
  }

  /** What was paid back is the sum of the refunds that succeeded, and together with what is
      under way it never exceeds the payment. */
  ghost predicate Valid(l: Ledger) {
    && (forall k :: k in l.refunds ==> l.refunds[k].payment in l.payments && l.refunds[k].amount > 0)
    && (forall p :: p in l.payments ==> Sound(l, p))
  }

  lemma RequestKeepsValid(l: Ledger, payment: int, key: int, amount: int, partial: bool)
    requires Valid(l) && Request(l, payment, key, amount, partial).Ok?
    ensures Valid(Request(l, payment, key, amount, partial).value)
  {
    var l' := Request(l, payment, key, amount, partial).value;
    if key !in l.refunds {
      forall p | p in l'.payments ensures Sound(l', p) {
        assert Sound(l, p);
        TotalWith(l.refunds, p, Succeeded, key, l'.refunds[key]);
        TotalWith(l.refunds, p, Pending, key, l'.refunds[key]);
      }
    }
  }

  /** Whatever has been written, accepted or not, money is conserved. */
  lemma WrittenKeepsValid(l: Ledger, key: int, amount: int, status: RefundStatus, providerId: int)
    requires Valid(l)
    ensures Valid(Written(l, key, amount, status, providerId))
  {
    NeverExceeds(l, key, amount, status, providerId, 0, true);
    var l' := Written(l, key, amount, status, providerId);
    if l' != l {
      forall p | p in l'.payments ensures Sound(l', p) {
        assert Sound(l, p);
        TotalWith(l.refunds, p, Succeeded, key, l'.refunds[key]);
        TotalWith(l.refunds, p, Pending, key, l'.refunds[key]);
      }
    }
  }

  lemma ApplyKeepsValid(l: Ledger, key: int, amount: int, status: RefundStatus, providerId: int)
    requires Valid(l) && Apply(l, key, amount, status, providerId).Ok?
    ensures Valid(Apply(l, key, amount, status, providerId).value)
  {
    WrittenKeepsValid(l, key, amount, status, providerId);
    WrittenIfAccepted(l, key, amount, status, providerId);
  }

  lemma FailKeepsValid(l: Ledger, key: int, retryable: bool)
    requires Valid(l) && Fail(l, key, retryable).Ok?
    ensures Valid(Fail(l, key, retryable).value)
  {
    var l' := Fail(l, key, retryable).value;
    forall p | p in l'.payments ensures Sound(l', p) {
      assert Sound(l, p);
      TotalWith(l.refunds, p, Succeeded, key, l'.refunds[key]);
      TotalWith(l.refunds, p, Pending, key, l'.refunds[key]);
    }
  }

  /** The program's last check, that successful refunds do not exceed the payment, never fires,
      and neither does the check of the reserved amount. */
  lemma NeverExceeds(l: Ledger, key: int, amount: int, status: RefundStatus, providerId: int, payment: int,
                     partial: bool)
    requires Valid(l)
    ensures Apply(l, key, amount, status, providerId) != Err(ExceedsPayment)
    ensures Request(l, payment, key, amount, partial) != Err(ReservedAmountWrong)
  {
    if key in l.refunds {
      var p := l.refunds[key].payment;
      assert Sound(l, p);
      TotalWithout(l.refunds, p, Pending, key);
    }
    assert payment in l.payments ==> Sound(l, payment);
  }

  // ---------------------------------------------------------------------------
  // Runs

  datatype Event =
    | Requested(payment: int, key: int, amount: int, partial: bool)
    | Answered(key: int, amount: int, status: RefundStatus, providerId: int)
    | Heard(key: int, amount: int, status: RefundStatus, providerId: int)
    | NotSubmitted(key: int, retryable: bool)

  ghost function Outcome(l: Ledger, e: Event): Result<Ledger, RefundError> {
    match e
    case Requested(payment, key, amount, partial) => Request(l, payment, key, amount, partial)
    case Answered(key, amount, status, providerId) => Apply(l, key, amount, status, providerId)
    case Heard(key, amount, status, providerId) => Apply(l, key, amount, status, providerId)
    case NotSubmitted(key, retryable) => Fail(l, key, retryable)
  }

  /** An operation that fails rolls its transaction back, except that the handler of a webhook
      notes the failure and commits. */
  ghost function Step(l: Ledger, e: Event): Ledger {
    if e.Heard? then Written(l, e.key, e.amount, e.status, e.providerId)
    else
      var r := Outcome(l, e);
      if r.Ok? then r.value else l
  }

  ghost function After(l: Ledger, events: seq<Event>): Ledger {
    if events == [] then l else Step(After(l, events[..|events| - 1]), events[|events| - 1])
  }

  lemma StepKeepsValid(l: Ledger, e: Event)
    requires Valid(l)
    ensures Valid(Step(l, e))
  {
    if e.Heard? {
      WrittenKeepsValid(l, e.key, e.amount, e.status, e.providerId);
    } else if Outcome(l, e).Ok? {
      match e
      case Requested(payment, key, amount, partial) => RequestKeepsValid(l, payment, key, amount, partial);
      case Answered(key, amount, status, providerId) => ApplyKeepsValid(l, key, amount, status, providerId);
      case NotSubmitted(key, retryable) => FailKeepsValid(l, key, retryable);
    }
  }

  lemma {:induction false} EveryRunConservesMoney(l: Ledger, events: seq<Event>)
    requires Valid(l)
    ensures Valid(After(l, events))
  {
    if events != [] {
      EveryRunConservesMoney(l, events[..|events| - 1]);
      StepKeepsValid(After(l, events[..|events| - 1]), events[|events| - 1]);
    }
  }

  /** All amounts of one payment's refunds, whatever their status. */
  ghost function Asked(refunds: RefundRows, payment: int): nat {
    Total(refunds, payment, Pending) + Total(refunds, payment, Succeeded) + Total(refunds, payment, Failed)
    + Total(refunds, payment, CancelledRefund)
  }

  /** A step writes one refund row at most; an existing row keeps its payment and amount and
      moves as the guard allows. */
  lemma StepWritesOneRow(l: Ledger, e: Event)
    ensures var l' := Step(l, e);
            || l'.refunds == l.refunds
            || (e.key in l.refunds && e.key in l'.refunds && l'.refunds == l.refunds[e.key := l'.refunds[e.key]]
                && Follows(l.refunds[e.key], l'.refunds[e.key]))
            || (e.Requested? && e.key !in l.refunds && 0 < e.amount
                && l'.refunds == l.refunds[e.key := Refund(e.payment, e.amount, Pending, None)])
  {
  }

  predicate Follows(x: Refund, y: Refund) {
    y.payment == x.payment && y.amount == x.amount && RefundMove(x.status, y.status)
  }

  lemma AskedWith(refunds: RefundRows, payment: int, k: int, x: Refund)
    ensures k in refunds && refunds[k].payment == x.payment && refunds[k].amount == x.amount ==>
              Asked(refunds[k := x], payment) == Asked(refunds, payment)
    ensures k !in refunds ==>
              Asked(refunds[k := x], payment) == Asked(refunds, payment) + if x.payment == payment then x.amount else 0
  {
    TotalWith(refunds, payment, Pending, k, x);
    TotalWith(refunds, payment, Succeeded, k, x);
    TotalWith(refunds, payment, Failed, k, x);
    TotalWith(refunds, payment, CancelledRefund, k, x);
  }

  /** Only a key that is not yet in the ledger adds to what was asked back; every other step,
      a replay included, moves amounts between statuses at most. */
  lemma OnlyNewKeysAdd(l: Ledger, e: Event, payment: int)
    ensures var l' := Step(l, e);
            if e.Requested? && e.key !in l.refunds && e.key in l'.refunds
            then Asked(l'.refunds, payment) == Asked(l.refunds, payment) + if e.payment == payment then e.amount else 0
            else Asked(l'.refunds, payment) == Asked(l.refunds, payment)
  {
    StepWritesOneRow(l, e);
    var l' := Step(l, e);
    if e.key in l'.refunds {
      AskedWith(l.refunds, payment, e.key, l'.refunds[e.key]);
    }
  }

  /** The refunds as they were asked for. */
  function Asks(refunds: RefundRows): RefundRows {
    map k | k in refunds :: refunds[k].(status := Pending, providerId := None)
  }

  /** The requests of a run, each key with its first accepted request only. */
  ghost function Requests(l: Ledger, events: seq<Event>): RefundRows {
    if events == [] then Asks(l.refunds)
    else
      var front, e := events[..|events| - 1], events[|events| - 1];
      var before := Requests(l, front);
      if e.Requested? && Outcome(After(l, front), e).Ok? && e.key !in before
      then before[e.key := Refund(e.payment, e.amount, Pending, None)] else before
  }

  lemma {:induction false} AskedIsTotal(refunds: RefundRows, payment: int)
    ensures Asked(refunds, payment) == Total(Asks(refunds), payment, Pending)
    decreases |refunds|
  {
    if refunds != map[] {
      var k := Pick(refunds);
      var rest := refunds - {k};
      AskedIsTotal(rest, payment);
      assert Asks(rest)[k := Asks(refunds)[k]] == Asks(refunds);
      TotalWith(Asks(rest), payment, Pending, k, Asks(refunds)[k]);
      assert rest[k := refunds[k]] == refunds;
      AskedWith(rest, payment, k, refunds[k]);
    } else {
      assert Asks(refunds) == map[];
    }
  }

  lemma {:induction false} RunKeepsAsks(l: Ledger, events: seq<Event>)
    ensures Asks(After(l, events).refunds) == Requests(l, events)
  {
    if events != [] {
      var front, e := events[..|events| - 1], events[|events| - 1];
      RunKeepsAsks(l, front);
      StepWritesOneRow(After(l, front), e);
      AsksOfStep(After(l, front), e);
    }
  }

  lemma AsksOfStep(l: Ledger, e: Event)
    ensures Asks(Step(l, e).refunds) ==
              if e.Requested? && Outcome(l, e).Ok? && e.key !in l.refunds
              then Asks(l.refunds)[e.key := Refund(e.payment, e.amount, Pending, None)] else Asks(l.refunds)
  {
    StepWritesOneRow(l, e);
  }

  /** Over any run the amounts by status sum to the amounts of the distinct accepted keys: every
      key counts once, with what it first asked for, however often it is asked or answered. */
  lemma RunCountsEveryKeyOnce(l: Ledger, events: seq<Event>, payment: int)
    ensures Asked(After(l, events).refunds, payment) == Total(Requests(l, events), payment, Pending)
    ensures After(l, events).refunds.Keys == Requests(l, events).Keys
  {
    RunKeepsAsks(l, events);
    AskedIsTotal(After(l, events).refunds, payment);
    assert Asks(After(l, events).refunds).Keys == After(l, events).refunds.Keys;
  }

  /** A settled refund is settled for good: its amount leaves the pending sum at most once. */
  lemma {:induction false} SettledForGood(l: Ledger, first: seq<Event>, more: seq<Event>, key: int)
    requires key in After(l, first).refunds && After(l, first).refunds[key].status != Pending
    ensures key in After(l, first + more).refunds
    ensures After(l, first + more).refunds[key].status == After(l, first).refunds[key].status
    ensures After(l, first + more).refunds[key].amount == After(l, first).refunds[key].amount
  {
    if more == [] {
      assert first + more == first;
    } else {
      var shorter := more[..|more| - 1];
      SettledForGood(l, first, shorter, key);
      assert (first + more)[..|first + more| - 1] == first + shorter;
      StepWritesOneRow(After(l, first + shorter), more[|more| - 1]);
    }
  }

  /** Asking again under a known key changes nothing; nor does hearing again how a refund ended,
      as far as money is concerned. */
  lemma ReplaysMoveNoMoney(l: Ledger, payment: int, key: int, amount: int, partial: bool, status: RefundStatus,
                           providerId: int)
    requires key in l.refunds
    ensures Step(l, Requested(payment, key, amount, partial)) == l
    ensures forall l' | l' == Step(l, Answered(key, amount, status, providerId))
                     || l' == Step(l, Heard(key, amount, status, providerId)) ::
            l.refunds[key].status != Pending ==>
              && (forall k :: k in l.refunds ==> k in l'.refunds && l'.refunds[k].status == l.refunds[k].status)
              && l'.payments.Keys == l.payments.Keys
              && forall p :: p in l.payments ==> l'.payments[p].refunded == l.payments[p].refunded
  {
  }

  // ---------------------------------------------------------------------------
  // What the payment's status tells

  predicate Unsettled(l: Ledger, payment: int, k: int) { k in l.refunds && Counts(l.refunds[k], payment, Pending) }

  /** A payment says that a refund is under way exactly when one is, and otherwise how much of
      it was paid back. */
  ghost predicate StatusTells(l: Ledger, payment: int)
    requires payment in l.payments
  {
    var x := l.payments[payment];
    && (forall k, q :: Unsettled(l, payment, k) && Unsettled(l, payment, q) ==> k == q)
    && ((exists k :: Unsettled(l, payment, k)) <==> x.status == RefundRequested)
    && (x.status == Paid ==> x.refunded == 0)
    && (x.status == PartlyRefunded ==> 0 < x.refunded < x.amount)
    && (x.status == FullyRefunded ==> x.refunded == x.amount)
    && (x.status in {Created, AwaitingPayment, PaymentCancelled, PaymentFailed} ==> x.refunded == 0)
  }

  /** A provider's answer to a refund that was under way leaves a status that tells. */
  lemma AnswerKeepsStatus(l: Ledger, key: int, amount: int, status: RefundStatus, providerId: int)
    requires Valid(l) && Apply(l, key, amount, status, providerId).Ok?
    requires l.refunds[key].status == Pending && StatusTells(l, l.refunds[key].payment)
    ensures StatusTells(Apply(l, key, amount, status, providerId).value, l.refunds[key].payment)
  {
    var p := l.refunds[key].payment;
    var l' := Apply(l, key, amount, status, providerId).value;
    assert Unsettled(l, p, key) && Sound(l, p);
    TotalWithout(l.refunds, p, Pending, key);
    forall k | Unsettled(l', p, k) ensures k == key && status == Pending {
      assert k == key || Unsettled(l, p, k);
    }
    if status == Pending {
      assert Unsettled(l', p, key);
    }
  }

  /** Repeating the answer to a settled refund is accepted even while another refund of the
      payment is under way, and then the payment's status no longer says so: after an accepted
      repetition the status tells exactly when nothing else was pending. */
  lemma RepeatedAnswerTellsIff(l: Ledger, key: int, amount: int, status: RefundStatus, providerId: int)
    requires Valid(l) && Apply(l, key, amount, status, providerId).Ok?
    requires l.refunds[key].status != Pending && StatusTells(l, l.refunds[key].payment)
    ensures StatusTells(Apply(l, key, amount, status, providerId).value, l.refunds[key].payment) <==>
              Total(l.refunds, l.refunds[key].payment, Pending) == 0
  {
    var p := l.refunds[key].payment;
    var l' := Apply(l, key, amount, status, providerId).value;
    PendingIsPositive(l, p);
    assert Sound(l, p);
    forall k ensures Unsettled(l', p, k) <==> Unsettled(l, p, k) {
    }
    TotalWithout(l.refunds, p, Succeeded, key);
  }

  function HalfRepaid(): Ledger {
    Ledger(map[5 := Payment(100, 30, RefundRequested)],
           map[1 := Refund(5, 30, Succeeded, Some(7)), 2 := Refund(5, 20, Pending, None)])
  }

  /** A second refund is under way when the provider repeats that the first succeeded: the payment
      then says "partly refunded", as if nothing were under way. */
  lemma RepeatedAnswerForgets()
    ensures Valid(HalfRepaid()) && StatusTells(HalfRepaid(), 5)
    ensures var r := Apply(HalfRepaid(), 1, 30, Succeeded, 7);
            r.Ok? && r.value.payments[5].status == PartlyRefunded && !StatusTells(r.value, 5)
  {
    var l := HalfRepaid();
    HalfRepaidTotals(Succeeded);
    HalfRepaidTotals(Pending);
    hide Total;
    assert Unsettled(l, 5, 2);
    RepeatedAnswerTellsIff(l, 1, 30, Succeeded, 7);
  }

  lemma HalfRepaidTotals(status: RefundStatus)
    ensures Total(HalfRepaid().refunds, 5, status) ==
              (if status == Succeeded then 30 else 0) + if status == Pending then 20 else 0
  {
    var rows := HalfRepaid().refunds;
    var none, one: RefundRows := map[], map[1 := rows[1]];
    assert none[1 := rows[1]] == one && one[2 := rows[2]] == rows;
    TotalWith(none, 5, status, 1, rows[1]);
    TotalWith(one, 5, status, 2, rows[2]);
  }

  ghost predicate AllTell(l: Ledger) { forall p :: p in l.payments ==> StatusTells(l, p) }

  /** The step accepts a repeated answer to a settled refund while another is under way. */
  ghost predicate Misleads(l: Ledger, e: Event) {
    && (e.Answered? || e.Heard?) && Outcome(l, e).Ok? && l.refunds[e.key].status != Pending
    && Total(l.refunds, l.refunds[e.key].payment, Pending) > 0
  }

  lemma RequestTells(l: Ledger, payment: int, key: int, amount: int, partial: bool)
    requires Valid(l) && AllTell(l) && Request(l, payment, key, amount, partial).Ok?
    ensures AllTell(Request(l, payment, key, amount, partial).value)
  {
    var l' := Request(l, payment, key, amount, partial).value;
    if key !in l.refunds {
      forall p | p in l'.payments ensures StatusTells(l', p) {
        assert StatusTells(l, p) && Sound(l, p);
        forall k ensures Unsettled(l', p, k) <==> Unsettled(l, p, k) || (p == payment && k == key) {
        }
        assert p == payment ==> Unsettled(l', p, key);
      }
    }
  }

  lemma FailTells(l: Ledger, key: int, retryable: bool)
    requires Valid(l) && AllTell(l) && Fail(l, key, retryable).Ok?
    ensures AllTell(Fail(l, key, retryable).value)
  {
    var l' := Fail(l, key, retryable).value;
    var r := l.refunds[key];
    if r.status == Pending && !retryable {
      TotalWithout(l.refunds, r.payment, Pending, key);
      assert Unsettled(l, r.payment, key);
      forall p | p in l'.payments ensures StatusTells(l', p) {
        assert StatusTells(l, p) && Sound(l, p);
        forall k ensures Unsettled(l', p, k) <==> Unsettled(l, p, k) && k != key {
        }
      }
    }
  }

  lemma AnswerTellsIff(l: Ledger, key: int, amount: int, status: RefundStatus, providerId: int)
    requires Valid(l) && AllTell(l) && Apply(l, key, amount, status, providerId).Ok?
    ensures AllTell(Apply(l, key, amount, status, providerId).value) <==>
              l.refunds[key].status == Pending || Total(l.refunds, l.refunds[key].payment, Pending) == 0
  {
    var l' := Apply(l, key, amount, status, providerId).value;
    var payment := l.refunds[key].payment;
    assert StatusTells(l, payment);
    if l.refunds[key].status == Pending {
      AnswerKeepsStatus(l, key, amount, status, providerId);
    } else {
      RepeatedAnswerTellsIff(l, key, amount, status, providerId);
    }
    forall p | p in l'.payments && p != payment ensures StatusTells(l', p) {
      assert StatusTells(l, p);
      forall k ensures Unsettled(l', p, k) <==> Unsettled(l, p, k) {
      }
    }
  }

  /** An answer that the payment's status forbids has been written by then, refund and amount, if it
      differs from what the refund says already, and only then. */
  lemma RefusedIsHalfWrittenIff(l: Ledger, key: int, amount: int, status: RefundStatus, providerId: int)
    requires Valid(l) && Apply(l, key, amount, status, providerId) == Err(PaymentStateForbids)
    ensures var noted := l.refunds[key].(providerId := Some(providerId));
            Written(l, key, amount, status, providerId) == l.(refunds := l.refunds[key := noted]) <==>
              l.refunds[key].status == status
  {
    var l' := Written(l, key, amount, status, providerId);
    assert l'.refunds[key].status == status;
    if l.refunds[key].status == status {
      assert l.payments[l.refunds[key].payment := l.payments[l.refunds[key].payment]] == l.payments;
    }
  }

  /** Where statuses tell, no answer that differs is refused, so nothing is half-written. */
  lemma RefusedWritesNothing(l: Ledger, key: int, amount: int, status: RefundStatus, providerId: int)
    requires Valid(l) && AllTell(l) && Apply(l, key, amount, status, providerId) == Err(PaymentStateForbids)
    ensures l.refunds[key].status == status
  {
    var p := l.refunds[key].payment;
    assert StatusTells(l, p);
    assert l.refunds[key].status == Pending ==> Unsettled(l, p, key);
  }

  lemma RefusedTells(l: Ledger, key: int, amount: int, status: RefundStatus, providerId: int)
    requires Valid(l) && AllTell(l) && Apply(l, key, amount, status, providerId).Err?
    ensures AllTell(Written(l, key, amount, status, providerId))
  {
    NeverExceeds(l, key, amount, status, providerId, 0, true);
    var l' := Written(l, key, amount, status, providerId);
    if Apply(l, key, amount, status, providerId) == Err(PaymentStateForbids) {
      RefusedWritesNothing(l, key, amount, status, providerId);
      RefusedIsHalfWrittenIff(l, key, amount, status, providerId);
      forall p | p in l'.payments ensures StatusTells(l', p) {
        assert StatusTells(l, p);
        forall k ensures Unsettled(l', p, k) <==> Unsettled(l, p, k) {
        }
      }
    }
  }

  function RefundOfCancelled(): Ledger {
    Ledger(map[5 := Payment(100, 0, PaymentCancelled)], map[1 := Refund(5, 30, Pending, Some(7))])
  }

  /** A payment that was cancelled although a refund was under way: the webhook that reports the
      refund's success fails, and yet leaves the refund succeeded and the amount paid back. */
  lemma RefusedIsHalfWritten()
    ensures Valid(RefundOfCancelled()) && !AllTell(RefundOfCancelled())
    ensures Apply(RefundOfCancelled(), 1, 30, Succeeded, 7) == Err(PaymentStateForbids)
    ensures var l' := Step(RefundOfCancelled(), Heard(1, 30, Succeeded, 7));
            l'.refunds[1].status == Succeeded && l'.payments[5] == Payment(100, 30, PaymentCancelled)
  {
    var l := RefundOfCancelled();
    var none: RefundRows := map[];
    assert none[1 := l.refunds[1]] == l.refunds;
    TotalWith(none, 5, Succeeded, 1, l.refunds[1]);
    TotalWith(none, 5, Pending, 1, l.refunds[1]);
    assert Unsettled(l, 5, 1);
  }

  lemma StepTellsIff(l: Ledger, e: Event)
    requires Valid(l) && AllTell(l)
    ensures AllTell(Step(l, e)) <==> !Misleads(l, e)
  {
    hide AllTell, Valid, Request, Apply, Fail, Written;
    if e.Heard? && Outcome(l, e).Err? {
      RefusedTells(l, e.key, e.amount, e.status, e.providerId);
    } else if Outcome(l, e).Ok? {
      match e
      case Requested(payment, key, amount, partial) => RequestTells(l, payment, key, amount, partial);
      case Answered(key, amount, status, providerId) => AnswerTellsIff(l, key, amount, status, providerId);
      case Heard(key, amount, status, providerId) =>
        AnswerTellsIff(l, key, amount, status, providerId);
        WrittenIfAccepted(l, key, amount, status, providerId);
      case NotSubmitted(key, retryable) => FailTells(l, key, retryable);
    }
  }

  /** Every payment's status tells in every state of the run. */
  ghost predicate AlwaysTells(l: Ledger, events: seq<Event>) {
    forall n :: 0 <= n <= |events| ==> AllTell(After(l, events[..n]))
  }

  ghost predicate NeverMisleads(l: Ledger, events: seq<Event>) {
    forall n :: 0 <= n < |events| ==> !Misleads(After(l, events[..n]), events[n])
  }

  lemma AlwaysTellsSnoc(l: Ledger, front: seq<Event>, e: Event)
    ensures AlwaysTells(l, front + [e]) <==> AlwaysTells(l, front) && AllTell(After(l, front + [e]))
  {
    hide AllTell, After;
    var all := front + [e];
    assert forall n :: 0 <= n <= |front| ==> all[..n] == front[..n];
    assert all[..|all|] == all;
  }

  lemma NeverMisleadsSnoc(l: Ledger, front: seq<Event>, e: Event)
    ensures NeverMisleads(l, front + [e]) <==> NeverMisleads(l, front) && !Misleads(After(l, front), e)
  {
    hide Misleads, After;
    var all := front + [e];
    assert forall n :: 0 <= n < |front| ==> all[..n] == front[..n] && all[n] == front[n];
    assert all[..|front|] == front && all[|front|] == e;
  }

  /** Throughout a run every payment's status tells exactly if no answer to a settled refund is
      repeated while another refund of the payment is under way. */
  lemma {:induction false} RunTellsIff(l: Ledger, events: seq<Event>)
    requires Valid(l) && AllTell(l)
    ensures AlwaysTells(l, events) <==> NeverMisleads(l, events)
  {
    hide AllTell, Valid, Misleads, Step;
    if events == [] {
      assert events[..0] == [];
    } else {
      var front, e := events[..|events| - 1], events[|events| - 1];
      assert events == front + [e];
      hide AlwaysTells, NeverMisleads;
      RunTellsIff(l, front);
      EveryRunConservesMoney(l, front);
      AlwaysTellsSnoc(l, front, e);
      NeverMisleadsSnoc(l, front, e);
      if AlwaysTells(l, front) {
        LastTells(l, front);
        StepTellsIff(After(l, front), e);
      }
    }
  }

  lemma LastTells(l: Ledger, events: seq<Event>)
    requires AlwaysTells(l, events)
    ensures AllTell(After(l, events))
  {
    assert events[..|events|] == events;
  }

  /** The pending sum is positive exactly when some refund is under way. */
  lemma PendingIsPositive(l: Ledger, payment: int)
    requires forall k :: k in l.refunds ==> l.refunds[k].amount > 0
    ensures Total(l.refunds, payment, Pending) > 0 <==> exists k :: Unsettled(l, payment, k)
  {
    if k :| Unsettled(l, payment, k) {
      TotalWithout(l.refunds, payment, Pending, k);
    } else {
      forall k | k in l.refunds ensures !Counts(l.refunds[k], payment, Pending) {
        assert !Unsettled(l, payment, k);
      }
      NothingPending(l.refunds, payment);
    }
  }

  lemma {:induction false} NothingPending(refunds: RefundRows, payment: int)
    requires forall k :: k in refunds ==> !Counts(refunds[k], payment, Pending)
    ensures Total(refunds, payment, Pending) == 0
    decreases |refunds|
  {
    if refunds != map[] {
      NothingPending(refunds - {Pick(refunds)}, payment);
    }
  }

  // ---------------------------------------------------------------------------
  // The program

  class Store {
    var payments: map<int, Payment>
    var refunds: RefundRows

    ghost function Content(): Ledger
      reads this
    {
      Ledger(payments, refunds)
    }

    constructor ()
      ensures Valid(Content())
    {
      payments, refunds := map[], map[];
    }

    /** The amount that refunds under way reserve. */
    method SumPendingRefunds(payment: int) returns (total: nat)
      ensures total == Total(refunds, payment, Pending)
    {
      total := 0;
      var rest := refunds;
      while rest != map[]
        invariant total + Total(rest, payment, Pending) == Total(refunds, payment, Pending)
        decreases |rest|
      {
        SomeKey(rest);
        var k :| k in rest;
        TotalWithout(rest, payment, Pending, k);
        if rest[k].payment == payment && rest[k].status == Pending {
          total := total + rest[k].amount;
        }
        rest := rest - {k};
      }
    }

    /** INSERT … ON CONFLICT DO NOTHING by idempotency key. */
    method AddRefundIfAbsent(key: int, refund: Refund) returns (row: Refund, inserted: bool)
      modifies this`refunds
      ensures inserted <==> key !in old(refunds)
      ensures refunds == if inserted then old(refunds)[key := refund] else old(refunds)
      ensures key in refunds && row == refunds[key]
    {
      inserted := key !in refunds;
      if inserted {
        refunds := refunds[key := refund];
      }
      row := refunds[key];
    }

    /** Finds the refund of the key or creates it, with the payment row locked throughout. */
    method EnsureRefund(payment: int, key: int, amount: int, partial: bool)
        returns (r: Basics.Result<bool, RefundError>)
      requires Valid(Content())
      modifies this
      ensures Valid(Content())
      ensures r.Ok? <==> Request(old(Content()), payment, key, amount, partial).Ok?
      ensures r.Ok? ==> Content() == Request(old(Content()), payment, key, amount, partial).value
                        && (r.value <==> key !in old(refunds))
      ensures r.Err? ==> Content() == old(Content())
                         && Request(old(Content()), payment, key, amount, partial) == Err(r.error)
    {
      ghost var before := Content();
      if payment !in payments { return Err(PaymentNotFound); }
      if key in refunds {
        if refunds[key].payment != payment || refunds[key].amount != amount { return Err(DifferentRefund); }
        return Ok(false);
      }
      var pending := SumPendingRefunds(payment);
      var x := payments[payment];
      var reserved := x.refunded + pending;
      if x.status != Paid && x.status != PartlyRefunded { return Err(PaymentStateForbids); }
      if amount <= 0 { return Err(AmountNotPositive); }
      if reserved > x.amount { return Err(ReservedAmountWrong); }
      var remaining := x.amount - reserved;
      if amount > remaining { return Err(ExceedsRemainder); }
      if amount < remaining && !partial { return Err(PartialNotSupported); }
      RequestKeepsValid(before, payment, key, amount, partial);
      payments := payments[payment := x.(status := RefundRequested)];
      var row, inserted := AddRefundIfAbsent(key, Refund(payment, amount, Pending, None));
      return Ok(true);
    }

    /** Applies a provider's verified answer in place; an error may come after some of it has been
        written. */
    method ApplyAuthoritativeRefund(key: int, amount: int, status: RefundStatus, providerId: int)
        returns (r: Basics.Result<bool, RefundError>)
      requires Valid(Content())
      modifies this
      ensures Valid(Content()) && Content() == Written(old(Content()), key, amount, status, providerId)
      ensures r.Ok? ==> Apply(old(Content()), key, amount, status, providerId) == Ok(Content())
      ensures r.Err? ==> Apply(old(Content()), key, amount, status, providerId) == Err(r.error)
      ensures r != Err(ExceedsPayment)
    {
      ghost var before := Content();
      WrittenKeepsValid(before, key, amount, status, providerId);
      NeverExceeds(before, key, amount, status, providerId, 0, true);
      hide Valid;
      if key !in refunds || refunds[key].payment !in payments { return Err(RefundNotFound); }
      var row := refunds[key];
      var x := payments[row.payment];
      if amount != row.amount { return Err(MoneyMismatch); }
      if row.providerId.Some? && row.providerId.value != providerId { return Err(ProviderIdMismatch); }
      var wasSucceeded := row.status == Succeeded;
      if !RefundMove(row.status, status) { return Err(RefundStateForbids); }
      refunds := refunds[key := row.(status := status, providerId := Some(providerId))];
      if status == Succeeded {
        if !wasSucceeded {
          if x.refunded + row.amount > x.amount { return Err(ExceedsPayment); }
          x := x.(refunded := x.refunded + row.amount);
        }
        payments := payments[row.payment := x];
        if !PaymentMove(x.status, RefundedStatus(x)) { return Err(PaymentStateForbids); }
        payments := payments[row.payment := x.(status := RefundedStatus(x))];
      } else if status == Failed || status == CancelledRefund {
        payments := payments[row.payment := x];
        if !PaymentMove(x.status, RestoredStatus(x)) { return Err(PaymentStateForbids); }
        payments := payments[row.payment := x.(status := RestoredStatus(x))];
      }
      assert payments == before.payments[row.payment := payments[row.payment]];
      assert Content() == Written(before, key, amount, status, providerId);
      return Ok(true);
    }

    /** The answer to a question of the program's own: an error rolls the transaction back. */
    method ApplyRefundResult(key: int, amount: int, status: RefundStatus, providerId: int)
        returns (r: Basics.Result<bool, RefundError>)
      requires Valid(Content())
      modifies this
      ensures Valid(Content()) && Content() == Step(old(Content()), Answered(key, amount, status, providerId))
      ensures r.Ok? <==> Apply(old(Content()), key, amount, status, providerId).Ok?
      ensures r.Err? ==> Content() == old(Content())
    {
      var beforePayments, beforeRefunds := payments, refunds;
      r := ApplyAuthoritativeRefund(key, amount, status, providerId);
      if r.Err? {
        payments, refunds := beforePayments, beforeRefunds;
      }
    }

    /** The answer that a webhook brings: an error is noted and what has been written is committed. */
    method ApplyRefundWebhookResult(key: int, amount: int, status: RefundStatus, providerId: int)
        returns (r: Basics.Result<bool, RefundError>)
      requires Valid(Content())
      modifies this
      ensures Valid(Content()) && Content() == Step(old(Content()), Heard(key, amount, status, providerId))
      ensures r.Ok? <==> Apply(old(Content()), key, amount, status, providerId).Ok?
      ensures old(AllTell(Content())) && r.Err? ==> AllTell(Content()) && payments == old(payments)
    {
      ghost var before := Content();
      r := ApplyAuthoritativeRefund(key, amount, status, providerId);
      if AllTell(before) && r.Err? {
        RefusedTells(before, key, amount, status, providerId);
        if r.error == PaymentStateForbids {
          RefusedWritesNothing(before, key, amount, status, providerId);
          RefusedIsHalfWrittenIff(before, key, amount, status, providerId);
        }
      }
    }
  }
}
