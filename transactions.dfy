/** The transaction record that the profit aggregator reads and the pay-later
    reconciler updates. */
module Transactions {
  import opened Wrappers

  type UserId = int
  type TxId = int
  /** Exact decimal amounts (Prisma `Decimal` columns). */
  type Money = real
  /** A point in time; only its order matters here. */
  type Instant = int

  datatype LogType = Credit | Debit

  /** The values the reconciler writes into `paymentType`. */
  datatype PaymentKind = Partial | Full

  /** One row of the transaction table with its optional commission (agent
      side) and collection (operator side) amounts attached. */
  datatype Transaction = Transaction(
    id: TxId,
    userId: UserId,
    amount: Money,
    logType: LogType,
    createdAt: Instant,
    payLater: bool,
    dueAmount: Option<Money>,
    paymentType: Option<PaymentKind>,
    commission: Option<Money>,
    collection: Option<Money>)

  /** `transaction.dueAmount || 0`: a NULL due amount reads as zero. */
  function DueOrZero(t: Transaction): Money {
    t.dueAmount.GetOr(0.0)
  }
}
