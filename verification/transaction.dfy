/** One points operation against the loyalty ledger, with its small status
    machine and its retry counter. */
module TransactionEntity {
  import opened Wrappers
  import opened Domain

  /** The number of attempts after which a transaction is no longer retried. */
  const MaxRetries: nat := 3

  /** The order and company the transaction belongs to are kept as the
      values the services read from them: the order's id and number, and the
      company's id and loyalty account. */
  datatype LoyaltyTransaction = LoyaltyTransaction(
    orderId: OrderId,
    orderNumber: string,
    companyId: CompanyId,
    accountId: Option<string>,
    pointsAmount: int,
    transactionType: TransactionType,
    externalTransactionId: Option<string>,
    status: TransactionStatus,
    errorMessage: Option<string>,
    retryCount: nat,
    processedAt: Option<Time>,
    createdAt: Time)
  {
    predicate IsPending() { status == TransactionStatus.Pending }
    predicate IsProcessing() { status == TransactionStatus.Processing }
    predicate IsCompleted() { status == TransactionStatus.Completed }
    predicate IsFailed() { status == TransactionStatus.Failed }
    predicate IsRefunded() { status == TransactionStatus.Refunded }
  }

  /** The four-argument constructor: a PENDING transaction with no attempts. */
  function NewTransaction(
    orderId: OrderId, orderNumber: string, companyId: CompanyId, accountId: Option<string>,
    pointsAmount: int, transactionType: TransactionType, createdAt: Time): (r: LoyaltyTransaction)
    ensures r.IsPending() && r.retryCount == 0
    ensures r.pointsAmount == pointsAmount && r.transactionType == transactionType
    ensures r.orderId == orderId && r.companyId == companyId && r.accountId == accountId
    ensures r.externalTransactionId.None? && r.errorMessage.None? && r.processedAt.None?
  {
    LoyaltyTransaction(orderId, orderNumber, companyId, accountId, pointsAmount, transactionType,
      None, TransactionStatus.Pending, None, 0, None, createdAt)
  }

  /** The transitions the entity's guards admit, as a relation on statuses.
      Failure is reachable from everywhere because `markAsFailed` has no
      guard. */
  predicate GuardAdmits(from: TransactionStatus, to: TransactionStatus) {
    || (from == TransactionStatus.Pending && to == TransactionStatus.Processing)
    || (from == TransactionStatus.Processing && to == TransactionStatus.Completed)
    || (from == TransactionStatus.Completed && to == TransactionStatus.Refunded)
    || to == TransactionStatus.Failed
  }

  function MarkAsProcessing(tx: LoyaltyTransaction): (r: Result<LoyaltyTransaction, Error>)
    ensures r.Success? <==> tx.IsPending()
    ensures r.Success? ==> r.value == tx.(status := TransactionStatus.Processing)
    ensures r.Failure? ==>
      r.error == "Transaction can only be marked as processing from pending status"
  {
    if !tx.IsPending() then
      Failure("Transaction can only be marked as processing from pending status")
    else
      Success(tx.(status := TransactionStatus.Processing))
  }

  /** Completion records the ledger's transaction id and clears any earlier
      error message. */
  function MarkAsCompleted(tx: LoyaltyTransaction, externalId: Option<string>, now: Time): (r: Result<LoyaltyTransaction, Error>)
    ensures r.Success? <==> tx.IsProcessing()
    ensures r.Success? ==>
      && r.value.IsCompleted()
      && r.value.externalTransactionId == externalId
      && r.value.errorMessage.None?
      && r.value.processedAt == Some(now)
      && r.value.retryCount == tx.retryCount
      && r.value.pointsAmount == tx.pointsAmount
    ensures r.Success? ==>
      r.value == tx.(status := r.value.status, externalTransactionId := r.value.externalTransactionId,
        processedAt := r.value.processedAt, errorMessage := r.value.errorMessage)
    ensures r.Failure? ==> r.error == "Transaction can only be completed from processing status"
  {
    if !tx.IsProcessing() then
      Failure("Transaction can only be completed from processing status")
    else
      Success(tx.(status := TransactionStatus.Completed, externalTransactionId := externalId,
        processedAt := Some(now), errorMessage := None))
  }

  /** Unguarded: from any status the transaction becomes FAILED with the
      message, which may be null, recorded. */
  function MarkAsFailed(tx: LoyaltyTransaction, message: Option<string>, now: Time): (r: LoyaltyTransaction)
    ensures r.IsFailed() && r.errorMessage == message && r.processedAt == Some(now)
    ensures r == tx.(status := r.status, errorMessage := r.errorMessage, processedAt := r.processedAt)
  {
    tx.(status := TransactionStatus.Failed, errorMessage := message, processedAt := Some(now))
  }

  function MarkAsRefunded(tx: LoyaltyTransaction, externalId: Option<string>, now: Time): (r: Result<LoyaltyTransaction, Error>)
    ensures r.Success? <==> tx.IsCompleted()
    ensures r.Success? ==>
      && r.value.IsRefunded()
      && r.value.externalTransactionId == externalId
      && r.value.processedAt == Some(now)
      && r.value.errorMessage == tx.errorMessage
    ensures r.Success? ==>
      r.value == tx.(status := r.value.status, externalTransactionId := r.value.externalTransactionId,
        processedAt := r.value.processedAt)
    ensures r.Failure? ==> r.error == "Only completed transactions can be refunded"
  {
    if !tx.IsCompleted() then Failure("Only completed transactions can be refunded")
    else
      Success(tx.(status := TransactionStatus.Refunded, externalTransactionId := externalId,
        processedAt := Some(now)))
  }

  function IncrementRetryCount(tx: LoyaltyTransaction): (r: LoyaltyTransaction)
    ensures r.retryCount == tx.retryCount + 1
    ensures r == tx.(retryCount := r.retryCount)
  {
    tx.(retryCount := tx.retryCount + 1)
  }

  predicate CanRetry(tx: LoyaltyTransaction) {
    tx.IsFailed() && tx.retryCount < MaxRetries
  }

  /** Each guarded transition goes through exactly when the status relation
      admits it, and the unguarded failure always does. */
  lemma TransitionsFollowGuard(tx: LoyaltyTransaction, externalId: Option<string>, message: Option<string>, now: Time)
    ensures MarkAsProcessing(tx).Success? <==> GuardAdmits(tx.status, TransactionStatus.Processing)
    ensures MarkAsCompleted(tx, externalId, now).Success? <==> GuardAdmits(tx.status, TransactionStatus.Completed)
    ensures GuardAdmits(tx.status, MarkAsFailed(tx, message, now).status)
  {
  }

  /** A refund is accepted exactly when the guard admits REFUNDED. */
  lemma RefundFollowsGuard(tx: LoyaltyTransaction, externalId: Option<string>, now: Time)
    ensures MarkAsRefunded(tx, externalId, now).Success? <==> GuardAdmits(tx.status, TransactionStatus.Refunded)
  {
  }

  /** A transaction can be retried only while it is FAILED and under the cap,
      so every retry that increments the counter eventually exhausts it. */
  lemma RetriesAreBounded(tx: LoyaltyTransaction, n: nat)
    requires n >= MaxRetries
    ensures !CanRetry(IncrementTimes(tx, n))
  {
    IncrementTimesCount(tx, n);
  }

  function IncrementTimes(tx: LoyaltyTransaction, n: nat): LoyaltyTransaction
    decreases n
  {
    if n == 0 then tx else IncrementRetryCount(IncrementTimes(tx, n - 1))
  }

  lemma {:induction false} IncrementTimesCount(tx: LoyaltyTransaction, n: nat)
    ensures IncrementTimes(tx, n).retryCount == tx.retryCount + n
    ensures IncrementTimes(tx, n).status == tx.status
    decreases n
  {
    if n > 0 {
      IncrementTimesCount(tx, n - 1);
    }
  }

  /** The completion and failure outcomes of one attempt never disturb the
      attempt count; only `incrementRetryCount` moves it. */
  lemma TransitionsKeepRetryCount(tx: LoyaltyTransaction, externalId: Option<string>, message: Option<string>, now: Time)
    ensures MarkAsProcessing(tx).Success? ==> MarkAsProcessing(tx).value.retryCount == tx.retryCount
    ensures MarkAsCompleted(tx, externalId, now).Success? ==>
      MarkAsCompleted(tx, externalId, now).value.retryCount == tx.retryCount
    ensures MarkAsFailed(tx, message, now).retryCount == tx.retryCount
  {
  }
}
