/** The pay-later controller: settling a deferred transaction, partly or in
    full, against the transaction's due amount and its owner's due balance. */
module PayLater {
  import opened Wrappers
  import opened Transactions

  /** The `transactionId` route parameter: empty, not a whole number (the
      store rejects the lookup), or a transaction identifier. */
  datatype IdParam = Missing | NotAnInteger | Numeric(id: TxId)

  datatype Settlement = PartialRecorded(remainingDue: Money) | FullRecorded

  datatype PayError =
    | IdRequired              // 400, no transaction id
    | InvalidPaymentType      // 400, payment type is neither FULL nor PARTIAL
    | LookupFailed            // 500, the id cannot be looked up
    | NotFoundOrUnauthorized  // 404, no such transaction, or another user's
    | AmountsRequired         // 400, a partial payment without both amounts
    | ExceedsDue              // 400, a partial payment larger than the due amount
    | UserNotFound            // 404, the owner's user row is missing

  /** The two tables a settlement reads and writes: transactions by id, and
      each user's aggregate `due`. */
  datatype Books = Books(txs: map<TxId, Transaction>, userDue: map<UserId, Money>)

  datatype Outcome = Outcome(reply: Reply<Settlement, PayError>, after: Books)

  predicate ValidPaymentType(paymentType: string) {
    paymentType == "FULL" || paymentType == "PARTIAL"
  }

  /** The transaction after a settlement leaves `remaining` due. */
  function Paid(t: Transaction, remaining: Money, kind: PaymentKind): Transaction {
    t.(dueAmount := Some(remaining), paymentType := Some(kind))
  }

  /** What `payLater` answers and what the two tables hold afterwards.
      `caller` is `Number(req.user.id)`, `None` when that is not a number. */
  function SettleOutcome(b: Books, caller: Option<UserId>, txParam: IdParam, paymentType: string,
                         operatorAmount: Option<Money>, agentAmount: Option<Money>): (o: Outcome)
    // only the named transaction and its owner's balance can change
    ensures o.after.txs.Keys == b.txs.Keys && o.after.userDue.Keys == b.userDue.Keys
    ensures forall k :: k in b.txs && !(txParam.Numeric? && k == txParam.id) ==> o.after.txs[k] == b.txs[k]
    ensures o.after != b ==> txParam.Numeric? && txParam.id in b.txs
    ensures o.after != b ==> forall v :: v in b.userDue && v != b.txs[txParam.id].userId ==>
      o.after.userDue[v] == b.userDue[v]
    // every rejection leaves both tables alone, except a partial payment
    // whose owner row is missing: its transaction write has already happened
    ensures o.reply.Fail? && !(paymentType == "PARTIAL" && o.reply == Fail(404, UserNotFound)) ==> o.after == b
    // a success moves the same amount off the transaction and off its owner
    ensures o.reply.Ok? ==>
      && txParam.Numeric? && txParam.id in b.txs
      && var t := b.txs[txParam.id];
      && caller == Some(t.userId) && t.userId in b.userDue
      && DueOrZero(t) - DueOrZero(o.after.txs[txParam.id])
         == b.userDue[t.userId] - o.after.userDue[t.userId]
      && 0.0 <= DueOrZero(o.after.txs[txParam.id])
    // whenever the transaction is written, its due amount stays at 0 or above
    ensures o.after != b ==> 0.0 <= DueOrZero(o.after.txs[txParam.id])
  {
    if txParam.Missing? then Outcome(Fail(400, IdRequired), b)
    else if !ValidPaymentType(paymentType) then Outcome(Fail(400, InvalidPaymentType), b)
    else if txParam.NotAnInteger? then Outcome(Fail(500, LookupFailed), b)
    else
      var id := txParam.id;
      if id !in b.txs || caller != Some(b.txs[id].userId) then Outcome(Fail(404, NotFoundOrUnauthorized), b)
      else
        var t := b.txs[id];
        var u := t.userId;
        if paymentType == "PARTIAL" then
          if operatorAmount.None? || agentAmount.None? then Outcome(Fail(400, AmountsRequired), b)
          else
            var total := operatorAmount.value + agentAmount.value;
            if total > DueOrZero(t) then Outcome(Fail(400, ExceedsDue), b)
            else
              var remaining := DueOrZero(t) - total;
              var txs' := b.txs[id := Paid(t, remaining, Partial)];
              if u !in b.userDue then Outcome(Fail(404, UserNotFound), Books(txs', b.userDue))
              else Outcome(Ok(200, PartialRecorded(remaining)), Books(txs', b.userDue[u := b.userDue[u] - total]))
        else if u !in b.userDue then Outcome(Fail(404, UserNotFound), b)
        else
          Outcome(Ok(200, FullRecorded),
                  Books(b.txs[id := Paid(t, 0.0, Full)], b.userDue[u := b.userDue[u] - DueOrZero(t)]))
  }

  // ---------------------------------------------------------------------------
  // What each branch does

  /** The id and the payment type are checked before anything is looked up,
      so neither the tables nor the caller affect these answers. */
  lemma InputChecksComeFirst(b: Books, caller: Option<UserId>, txParam: IdParam, paymentType: string,
                             operatorAmount: Option<Money>, agentAmount: Option<Money>)
    ensures txParam.Missing? ==>
      SettleOutcome(b, caller, txParam, paymentType, operatorAmount, agentAmount) == Outcome(Fail(400, IdRequired), b)
    ensures !txParam.Missing? && !ValidPaymentType(paymentType) ==>
      SettleOutcome(b, caller, txParam, paymentType, operatorAmount, agentAmount) == Outcome(Fail(400, InvalidPaymentType), b)
  {
  }

  /** A missing transaction and another user's transaction get the same answer. */
  lemma NotFoundLooksLikeUnauthorized(b: Books, caller: Option<UserId>, id: TxId, paymentType: string,
                                      operatorAmount: Option<Money>, agentAmount: Option<Money>)
    requires ValidPaymentType(paymentType)
    requires id !in b.txs || caller != Some(b.txs[id].userId)
    ensures SettleOutcome(b, caller, Numeric(id), paymentType, operatorAmount, agentAmount)
         == Outcome(Fail(404, NotFoundOrUnauthorized), b)
  {
  }

  /** A partial payment on a transaction the caller owns: both amounts are
      required, their sum may not exceed the due amount (a missing due counts
      as 0), and a payment within it is taken off the transaction (which is
      marked PARTIAL) and then off the owner's balance, if the owner row exists. */
  lemma PartialPayment(b: Books, id: TxId, operatorAmount: Option<Money>, agentAmount: Option<Money>)
    requires id in b.txs
    ensures var t := b.txs[id];
      var o := SettleOutcome(b, Some(t.userId), Numeric(id), "PARTIAL", operatorAmount, agentAmount);
      && (operatorAmount.None? || agentAmount.None? ==> o == Outcome(Fail(400, AmountsRequired), b))
      && (operatorAmount.Some? && agentAmount.Some? ==>
            var total := operatorAmount.value + agentAmount.value;
            && (total > DueOrZero(t) ==> o == Outcome(Fail(400, ExceedsDue), b))
            && (total <= DueOrZero(t) ==>
                  && o.after.txs == b.txs[id := Paid(t, DueOrZero(t) - total, Partial)]
                  && (t.userId !in b.userDue ==>
                        o.reply == Fail(404, UserNotFound) && o.after.userDue == b.userDue)
                  && (t.userId in b.userDue ==>
                        && o.reply == Ok(200, PartialRecorded(DueOrZero(t) - total))
                        && o.after.userDue == b.userDue[t.userId := b.userDue[t.userId] - total])))
  {
  }

  /** A full payment looks the owner up first; it then zeroes the transaction,
      marks it FULL and takes the old due amount off the owner's balance. The
      two amounts play no part. */
  lemma FullPayment(b: Books, id: TxId, operatorAmount: Option<Money>, agentAmount: Option<Money>)
    requires id in b.txs
    ensures var t := b.txs[id];
      var o := SettleOutcome(b, Some(t.userId), Numeric(id), "FULL", operatorAmount, agentAmount);
      && (t.userId !in b.userDue ==> o == Outcome(Fail(404, UserNotFound), b))
      && (t.userId in b.userDue ==>
            o == Outcome(Ok(200, FullRecorded),
                         Books(b.txs[id := Paid(t, 0.0, Full)],
                               b.userDue[t.userId := b.userDue[t.userId] - DueOrZero(t)])))
      && o == SettleOutcome(b, Some(t.userId), Numeric(id), "FULL", None, None)
  {
  }

  /** Paying in full a second time changes nothing and gives the same answer. */
  lemma FullTwiceIsOnce(b: Books, caller: Option<UserId>, id: TxId,
                        a1: Option<Money>, g1: Option<Money>, a2: Option<Money>, g2: Option<Money>)
    requires SettleOutcome(b, caller, Numeric(id), "FULL", a1, g1).reply.Ok?
    ensures var once := SettleOutcome(b, caller, Numeric(id), "FULL", a1, g1);
      SettleOutcome(once.after, caller, Numeric(id), "FULL", a2, g2) == once
  {
    var once := SettleOutcome(b, caller, Numeric(id), "FULL", a1, g1);
    var t := once.after.txs[id];
    var u := t.userId;
    assert DueOrZero(t) == 0.0;
    assert once.after.txs[id := Paid(t, 0.0, Full)] == once.after.txs;
    assert once.after.userDue[u := once.after.userDue[u] - 0.0] == once.after.userDue;
  }

  // ---------------------------------------------------------------------------
  // The owner's balance as a sum over their transactions

  /** What transaction `t` adds to user `u`'s balance. */
  function OwedBy(t: Transaction, u: UserId): Money {
    if t.userId == u then DueOrZero(t) else 0.0
  }

  /** A non-empty set has a member. */
  lemma HasMember(keys: set<TxId>)
    requires keys != {}
    ensures exists k :: k in keys
  {
    if forall k :: k !in keys {
      assert false;
    }
  }

  /** Some member of a non-empty set of ids; the sum takes its terms in this order. */
  ghost function Pick(keys: set<TxId>): (k: TxId)
    requires keys != {}
    ensures k in keys
  {
    HasMember(keys);
    var k :| k in keys;
    k
  }

  /** The due amounts `u` owes on the transactions whose ids are in `keys`. */
  ghost function OwedOver(txs: map<TxId, Transaction>, keys: set<TxId>, u: UserId): Money
    requires keys <= txs.Keys
    decreases keys
  {
    if keys == {} then 0.0
    else
      var k := Pick(keys);
      OwedBy(txs[k], u) + OwedOver(txs, keys - {k}, u)
  }

  /** The sum of the due amounts of `u`'s transactions. */
  ghost function Owed(txs: map<TxId, Transaction>, u: UserId): Money {
    OwedOver(txs, txs.Keys, u)
  }

  /** The sum does not depend on the order its terms are taken in. */
  lemma {:induction false} OwedOverRemove(txs: map<TxId, Transaction>, keys: set<TxId>, k: TxId, u: UserId)
    requires keys <= txs.Keys && k in keys
    ensures OwedOver(txs, keys, u) == OwedBy(txs[k], u) + OwedOver(txs, keys - {k}, u)
    decreases keys
  {
    var j := Pick(keys);
    if j != k {
      OwedOverRemove(txs, keys - {j}, k, u);
      OwedOverRemove(txs, keys - {k}, j, u);
      assert keys - {j} - {k} == keys - {k} - {j};
    }
  }

  /** The sum reads only the transactions whose ids it ranges over. */
  lemma {:induction false} OwedOverFrame(txs: map<TxId, Transaction>, txs': map<TxId, Transaction>,
                                         keys: set<TxId>, u: UserId)
    requires keys <= txs.Keys && keys <= txs'.Keys
    requires forall k :: k in keys ==> txs[k] == txs'[k]
    ensures OwedOver(txs, keys, u) == OwedOver(txs', keys, u)
    decreases keys
  {
    if keys != {} {
      var j := Pick(keys);
      OwedOverRemove(txs, keys, j, u);
      OwedOverFrame(txs, txs', keys - {j}, u);
    }
  }

  /** Replacing one transaction changes each balance by the difference it makes. */
  lemma OwedUpdate(txs: map<TxId, Transaction>, id: TxId, t: Transaction, u: UserId)
    requires id in txs
    ensures Owed(txs[id := t], u) == Owed(txs, u) - OwedBy(txs[id], u) + OwedBy(t, u)
  {
    var txs' := txs[id := t];
    assert txs'.Keys == txs.Keys;
    OwedOverRemove(txs, txs.Keys, id, u);
    OwedOverRemove(txs', txs'.Keys, id, u);
    OwedOverFrame(txs, txs', txs.Keys - {id}, u);
  }

  /** Due amounts that are never negative add up to a balance that is not. */
  lemma {:induction false} OwedOverNonNegative(txs: map<TxId, Transaction>, keys: set<TxId>, u: UserId)
    requires keys <= txs.Keys
    requires forall k :: k in txs ==> DueOrZero(txs[k]) >= 0.0
    ensures OwedOver(txs, keys, u) >= 0.0
    decreases keys
  {
    if keys != {} {
      var j := Pick(keys);
      OwedOverNonNegative(txs, keys - {j}, u);
    }
  }

  // ---------------------------------------------------------------------------
  // The ledger invariant

  /** Every user's `due` is the sum of the due amounts of their transactions. */
  ghost predicate Balanced(b: Books) {
    forall u :: u in b.userDue ==> b.userDue[u] == Owed(b.txs, u)
  }

  /** No transaction has a negative due amount. */
  predicate DuesNonNegative(b: Books) {
    forall k :: k in b.txs ==> DueOrZero(b.txs[k]) >= 0.0
  }

  /** Settling keeps every balance equal to the sum of its transactions' dues,
      the partial payment whose owner row is missing included. */
  lemma SettleKeepsBalance(b: Books, caller: Option<UserId>, txParam: IdParam, paymentType: string,
                           operatorAmount: Option<Money>, agentAmount: Option<Money>)
    requires Balanced(b)
    ensures Balanced(SettleOutcome(b, caller, txParam, paymentType, operatorAmount, agentAmount).after)
  {
    var o := SettleOutcome(b, caller, txParam, paymentType, operatorAmount, agentAmount);
    if o.after != b {
      var id := txParam.id;
      var t := b.txs[id];
      var t' := o.after.txs[id];
      assert o.after.txs == b.txs[id := t'];
      forall v | v in o.after.userDue ensures o.after.userDue[v] == Owed(o.after.txs, v) {
        OwedUpdate(b.txs, id, t', v);
      }
    }
  }

  /** Settling never makes a due amount negative. */
  lemma SettleKeepsDuesNonNegative(b: Books, caller: Option<UserId>, txParam: IdParam, paymentType: string,
                                   operatorAmount: Option<Money>, agentAmount: Option<Money>)
    requires DuesNonNegative(b)
    ensures DuesNonNegative(SettleOutcome(b, caller, txParam, paymentType, operatorAmount, agentAmount).after)
  {
  }

  /** In a balanced ledger without negative dues, a transaction's due amount is
      at least 0 and at most its owner's balance (which is therefore not
      negative either; `SettleKeepsUserDuesNonNegative` covers every user). */
  lemma BalancesNonNegative(b: Books, id: TxId)
    requires Balanced(b) && DuesNonNegative(b)
    requires id in b.txs && b.txs[id].userId in b.userDue
    ensures 0.0 <= DueOrZero(b.txs[id]) <= b.userDue[b.txs[id].userId]
  {
    var u := b.txs[id].userId;
    OwedOverRemove(b.txs, b.txs.Keys, id, u);
    OwedOverNonNegative(b.txs, b.txs.Keys - {id}, u);
  }

  /** No user's `due` is negative. */
  predicate UserDuesNonNegative(b: Books) {
    forall u :: u in b.userDue ==> b.userDue[u] >= 0.0
  }

  /** In a balanced ledger without negative dues, no settlement leaves any
      user's `due` below 0, whatever it takes off. */
  lemma SettleKeepsUserDuesNonNegative(b: Books, caller: Option<UserId>, txParam: IdParam, paymentType: string,
                                       operatorAmount: Option<Money>, agentAmount: Option<Money>)
    requires Balanced(b) && DuesNonNegative(b)
    ensures UserDuesNonNegative(SettleOutcome(b, caller, txParam, paymentType, operatorAmount, agentAmount).after)
  {
    var o := SettleOutcome(b, caller, txParam, paymentType, operatorAmount, agentAmount);
    SettleKeepsBalance(b, caller, txParam, paymentType, operatorAmount, agentAmount);
    SettleKeepsDuesNonNegative(b, caller, txParam, paymentType, operatorAmount, agentAmount);
    forall v | v in o.after.userDue ensures o.after.userDue[v] >= 0.0 {
      OwedOverNonNegative(o.after.txs, o.after.txs.Keys, v);
    }
  }

  // ---------------------------------------------------------------------------
  // The store

  class PayLaterLedger {
    var txs: map<TxId, Transaction>
    var userDue: map<UserId, Money>

    function State(): Books
      reads this
    {
      Books(txs, userDue)
    }

    constructor (txs0: map<TxId, Transaction>, userDue0: map<UserId, Money>)
      ensures txs == txs0 && userDue == userDue0
    {
      txs, userDue := txs0, userDue0;
    }

    /** `payLater`: the checks in the order the controller makes them, then
        the writes in the order it issues them. */
    method Settle(caller: Option<UserId>, txParam: IdParam, paymentType: string,
                  operatorAmount: Option<Money>, agentAmount: Option<Money>)
      returns (r: Reply<Settlement, PayError>)
      modifies this
      ensures Outcome(r, State()) == SettleOutcome(old(State()), caller, txParam, paymentType, operatorAmount, agentAmount)
      ensures old(Balanced(State())) ==> Balanced(State())
      ensures old(DuesNonNegative(State())) ==> DuesNonNegative(State())
      ensures old(Balanced(State()) && DuesNonNegative(State())) ==> UserDuesNonNegative(State())
    {
      if Balanced(State()) {
        SettleKeepsBalance(State(), caller, txParam, paymentType, operatorAmount, agentAmount);
      }
      if DuesNonNegative(State()) {
        SettleKeepsDuesNonNegative(State(), caller, txParam, paymentType, operatorAmount, agentAmount);
      }
      if Balanced(State()) && DuesNonNegative(State()) {
        SettleKeepsUserDuesNonNegative(State(), caller, txParam, paymentType, operatorAmount, agentAmount);
      }
      if txParam.Missing? {
        return Fail(400, IdRequired);
      }
      if !ValidPaymentType(paymentType) {
        return Fail(400, InvalidPaymentType);
      }
      if txParam.NotAnInteger? {
        return Fail(500, LookupFailed);
      }
      var id := txParam.id;
      if id !in txs || caller != Some(txs[id].userId) {
        return Fail(404, NotFoundOrUnauthorized);
      }
      var t := txs[id];
      var u := t.userId;
      if paymentType == "PARTIAL" {
        if operatorAmount.None? || agentAmount.None? {
          return Fail(400, AmountsRequired);
        }
        var total := operatorAmount.value + agentAmount.value;
        if total > DueOrZero(t) {
          return Fail(400, ExceedsDue);
        }
        var remaining := DueOrZero(t) - total;
        txs := txs[id := Paid(t, remaining, Partial)];
        if u !in userDue {
          return Fail(404, UserNotFound);
        }
        userDue := userDue[u := userDue[u] - total];
        return Ok(200, PartialRecorded(remaining));
      }
      if u !in userDue {
        return Fail(404, UserNotFound);
      }
      var newDue := userDue[u] - DueOrZero(t);
      txs := txs[id := Paid(t, 0.0, Full)];
      userDue := userDue[u := newDue];
      return Ok(200, FullRecorded);
    }
  }
}
