/** The transaction service: recording debit, credit and refund
    transactions, retrying a failed one, the scheduled job that processes
    pending ones, and the statistics over the journal. */
module TransactionService {
  import opened Wrappers
  import opened Text
  import opened Domain
  import opened Seqs
  import opened TransactionResponses
  import opened TransactionEntity
  import opened TransactionRepository

  /** What a new transaction takes from its order and the order's company. */
  datatype TxOrigin = TxOrigin(
    orderId: OrderId, orderNumber: string, companyId: CompanyId, accountId: Option<string>)

  function Create(origin: TxOrigin, t: TransactionType, points: int, now: Time): LoyaltyTransaction {
    NewTransaction(origin.orderId, origin.orderNumber, origin.companyId, origin.accountId, points, t, now)
  }

  /** `recordTransaction`: appends a transaction with the given type, amount,
      ledger id and status; only a COMPLETED one gets a processing time. */
  function RecordTransaction(
    j: Journal, origin: TxOrigin, t: TransactionType, points: int,
    externalId: Option<string>, status: TransactionStatus, now: Time): (r: Journal)
    ensures |r| == |j| + 1 && r[..|j|] == j
    ensures r[|j|].transactionType == t && r[|j|].pointsAmount == points
    ensures r[|j|].orderId == origin.orderId && r[|j|].companyId == origin.companyId
    ensures r[|j|].externalTransactionId == externalId && r[|j|].status == status
    ensures r[|j|].retryCount == 0 && r[|j|].errorMessage.None?
    ensures r[|j|].processedAt.Some? <==> status == TransactionStatus.Completed
  {
    var tx := Create(origin, t, points, now).(externalTransactionId := externalId, status := status);
    j + [if status == TransactionStatus.Completed then tx.(processedAt := Some(now)) else tx]
  }

  /** `recordFailedTransaction`: appends a FAILED transaction carrying the
      error, which may be null, and no ledger id. */
  function RecordFailedTransaction(
    j: Journal, origin: TxOrigin, t: TransactionType, points: int, message: Option<string>, now: Time): (r: Journal)
    ensures |r| == |j| + 1 && r[..|j|] == j
    ensures r[|j|].transactionType == t && r[|j|].pointsAmount == points
    ensures r[|j|].orderId == origin.orderId && r[|j|].companyId == origin.companyId
    ensures r[|j|].IsFailed() && r[|j|].errorMessage == message
    ensures r[|j|].externalTransactionId.None? && r[|j|].retryCount == 0
  {
    j + [MarkAsFailed(Create(origin, t, points, now), message, now)]
  }

  /** `TYPE-orderNumber`, followed by `-RETRY-n` once the transaction has
      been retried `n > 0` times. */
  function GenerateTransactionReference(tx: LoyaltyTransaction): string {
    var suffix := if tx.retryCount > 0 then "-RETRY-" + NatToString(tx.retryCount) else "";
    TransactionTypeName(tx.transactionType) + "-" + tx.orderNumber + suffix
  }

  /** The reference is the bare `TYPE-orderNumber` exactly on the first
      attempt, and two attempts of the same transaction never share one. */
  lemma ReferenceDistinguishesAttempts(tx: LoyaltyTransaction, other: nat)
    ensures (GenerateTransactionReference(tx) == TransactionTypeName(tx.transactionType) + "-" + tx.orderNumber)
      <==> tx.retryCount == 0
    ensures GenerateTransactionReference(tx) == GenerateTransactionReference(tx.(retryCount := other))
      ==> tx.retryCount == other
  {
    var base := TransactionTypeName(tx.transactionType) + "-" + tx.orderNumber;
    if tx.retryCount > 0 {
      assert |GenerateTransactionReference(tx)| > |base|;
    }
    var a := GenerateTransactionReference(tx);
    var b := GenerateTransactionReference(tx.(retryCount := other));
    if a == b && tx.retryCount != other {
      if tx.retryCount > 0 && other > 0 {
        var p := base + "-RETRY-";
        assert a == p + NatToString(tx.retryCount) by {
          assert base + ("-RETRY-" + NatToString(tx.retryCount)) == p + NatToString(tx.retryCount);
        }
        assert b == p + NatToString(other) by {
          assert base + ("-RETRY-" + NatToString(other)) == p + NatToString(other);
        }
        AppendCancelLeft(p, NatToString(tx.retryCount), NatToString(other));
        NatToStringInjective(tx.retryCount, other);
      }
    }
  }

  /** The ledger call a retry makes: a debit for a DEBIT transaction, a
      credit for a CREDIT or REFUND one, always for the transaction's own
      amount and account. */
  function RetryCall(tx: LoyaltyTransaction): (c: LedgerCall)
    ensures c.op == DebitPoints <==> tx.transactionType == Debit
    ensures c.points == tx.pointsAmount && c.accountId == tx.accountId
    ensures c.reference == GenerateTransactionReference(tx)
  {
    var op := if tx.transactionType == Debit then DebitPoints else CreditPoints;
    LedgerCall(op, tx.accountId, tx.pointsAmount, GenerateTransactionReference(tx))
  }

  /** The subscribe callbacks of a retry: any response, whatever its status,
      completes the transaction with the response's id; an error signal
      fails it. */
  function ApplyRetryReply(tx: LoyaltyTransaction, reply: LedgerReply, now: Time): (r: LoyaltyTransaction)
    requires tx.IsProcessing() && !reply.Threw?
    ensures reply.Replied? ==> r.IsCompleted() && r.externalTransactionId == reply.response.transactionId
    ensures reply.Errored? ==> r.IsFailed() && r.errorMessage == Some("Retry failed: " + reply.message)
    ensures r.retryCount == tx.retryCount
  {
    match reply
    case Replied(resp) => MarkAsCompleted(tx, resp.transactionId, now).value
    case Errored(msg) => MarkAsFailed(tx, Some("Retry failed: " + msg), now)
  }

  /** The state a use case leaves behind, the ledger calls it made, and the
      error it raised, if any, after saving that state. */
  datatype TxOutcome = TxOutcome(journal: Journal, calls: seq<LedgerCall>, error: Option<Error>)

  /** `retryTransaction`. */
  function RetryTransaction(j: Journal, id: nat, reply: LedgerReply, now: Time): (r: TxOutcome)
    ensures id >= |j| ==> r == TxOutcome(j, [], Some("Transaction not found: " + NatToString(id)))
    ensures id < |j| && !CanRetry(j[id]) ==> r == TxOutcome(j, [], Some("Transaction cannot be retried"))
    ensures id < |j| && CanRetry(j[id]) ==>
      && |r.journal| == |j|
      && (forall k :: 0 <= k < |j| && k != id ==> r.journal[k] == j[k])
      && r.journal[id].retryCount == j[id].retryCount + 1
      && r.journal[id].pointsAmount == j[id].pointsAmount
      && |r.calls| == 1
      && r.calls[0].points == j[id].pointsAmount
      && (r.calls[0].op == DebitPoints <==> j[id].transactionType == Debit)
      && r.calls[0].reference == GenerateTransactionReference(j[id].(retryCount := j[id].retryCount + 1))
      && (reply.Replied? ==>
            && r.journal[id].IsCompleted() && r.error.None?
            && r.journal[id].externalTransactionId == reply.response.transactionId)
      && (reply.Errored? ==>
            && r.journal[id].IsFailed() && r.error.None?
            && r.journal[id].errorMessage == Some("Retry failed: " + reply.message))
      && (reply.Threw? ==>
            && r.journal[id].IsFailed()
            && r.journal[id].errorMessage == Some("Retry failed: " + reply.message)
            && r.error == Some("Retry failed: " + reply.message))
  {
    if id >= |j| then TxOutcome(j, [], Some("Transaction not found: " + NatToString(id)))
    else if !CanRetry(j[id]) then TxOutcome(j, [], Some("Transaction cannot be retried"))
    else
      var tx := IncrementRetryCount(j[id]).(status := TransactionStatus.Processing);
      var call := RetryCall(tx);
      match reply
      case Threw(msg) =>
        TxOutcome(j[id := MarkAsFailed(tx, Some("Retry failed: " + msg), now)], [call], Some("Retry failed: " + msg))
      case _ => TxOutcome(j[id := ApplyRetryReply(tx, reply, now)], [call], None)
  }

  /** A ledger reply reporting failure still completes the retried
      transaction: the success callback never looks at the status. */
  lemma FailedReplyStillCompletesRetry(j: Journal, id: nat, resp: TransactionResponse, now: Time)
    requires id < |j| && CanRetry(j[id]) && IsFailed(resp)
    ensures RetryTransaction(j, id, Replied(resp), now).journal[id].IsCompleted()
    ensures RetryTransaction(j, id, Replied(resp), now).error.None?
  {
  }

  /** A transaction retried three times can never be retried again. */
  lemma RetriesRunOut(j: Journal, id: nat, reply: LedgerReply, now: Time)
    requires id < |j| && CanRetry(j[id]) && j[id].retryCount == MaxRetries - 1
    ensures !CanRetry(RetryTransaction(j, id, reply, now).journal[id])
  {
  }

  /** The result of one attempt of the scheduled job on one transaction. */
  datatype Attempt = Attempt(tx: LoyaltyTransaction, calls: seq<LedgerCall>)

  /** The job's `catch`: count the attempt, and give up once the cap is
      reached. */
  function OnProcessingException(tx: LoyaltyTransaction, message: string, now: Time): (r: LoyaltyTransaction)
    ensures r.retryCount == tx.retryCount + 1
    ensures r.retryCount >= MaxRetries ==>
      r.IsFailed() && r.errorMessage == Some("Max retries exceeded: " + message)
    ensures r.retryCount < MaxRetries ==> r == tx.(retryCount := r.retryCount)
  {
    var counted := IncrementRetryCount(tx);
    if counted.retryCount >= 3 then MarkAsFailed(counted, Some("Max retries exceeded: " + message), now)
    else counted
  }

  /** `processTransaction` for one row, with the job's exception handler
      around it. */
  function ProcessOne(tx: LoyaltyTransaction, reply: LedgerReply, now: Time): (r: Attempt)
    ensures tx.IsFailed() ==> r.calls == [] && r.tx.IsFailed() && r.tx.retryCount == tx.retryCount + 1
    ensures !tx.IsPending() ==> r.calls == []
    ensures tx.IsPending() ==> |r.calls| == 1 && r.calls[0] == RetryCall(tx)
    ensures tx.IsPending() && reply.Replied? ==>
      r.tx.IsCompleted() && r.tx.retryCount == tx.retryCount
    ensures tx.IsPending() && reply.Errored? ==>
      r.tx.IsFailed() && r.tx.retryCount == tx.retryCount
    ensures tx.IsPending() && reply.Threw? ==>
      && r.tx.retryCount == tx.retryCount + 1
      && (r.tx.retryCount < MaxRetries ==> r.tx.IsProcessing())
      && (r.tx.retryCount >= MaxRetries ==> r.tx.IsFailed())
  {
    match MarkAsProcessing(tx)
    case Failure(e) => Attempt(OnProcessingException(tx, e, now), [])
    case Success(processing) =>
      var call := RetryCall(processing);
      match reply
      case Threw(msg) => Attempt(OnProcessingException(processing, msg, now), [call])
      case _ => Attempt(ApplyRetryReply(processing, reply, now), [call])
  }

  predicate Distinct(ids: seq<nat>) {
    forall a, b :: 0 <= a < b < |ids| ==> ids[a] != ids[b]
  }

  /** The loop of the job over the selected ids, each row updated in place;
      the ledger's behaviour for each transaction is the `replies`
      parameter. */
  function ProcessIds(j: Journal, ids: seq<nat>, replies: nat -> LedgerReply, now: Time): (r: TxOutcome)
    requires forall k :: 0 <= k < |ids| ==> ids[k] < |j|
    ensures |r.journal| == |j| && r.error.None?
    ensures |r.calls| <= |ids|
    decreases |ids|
  {
    if ids == [] then TxOutcome(j, [], None)
    else
      var id := ids[0];
      var attempt := ProcessOne(j[id], replies(id), now);
      var rest := ProcessIds(j[id := attempt.tx], ids[1..], replies, now);
      TxOutcome(rest.journal, attempt.calls + rest.calls, None)
  }

  /** The loop leaves every row it was not given alone. */
  lemma {:induction false} ProcessIdsLeavesOthers(j: Journal, ids: seq<nat>, replies: nat -> LedgerReply, now: Time)
    requires forall k :: 0 <= k < |ids| ==> ids[k] < |j|
    ensures forall i :: 0 <= i < |j| && i !in ids ==> ProcessIds(j, ids, replies, now).journal[i] == j[i]
    decreases |ids|
  {
    if ids != [] {
      var id := ids[0];
      var tail := ids[1..];
      var j1 := j[id := ProcessOne(j[id], replies(id), now).tx];
      ProcessIdsLeavesOthers(j1, tail, replies, now);
      forall i | 0 <= i < |j| && i !in ids
        ensures ProcessIds(j, ids, replies, now).journal[i] == j[i]
      {
        assert ids == [id] + tail;
        assert i !in tail && i != id;
      }
    }
  }

  /** With distinct ids, the loop gives each selected row exactly one
      attempt, on the row as it was. */
  lemma {:induction false} ProcessIdsAppliesOnce(j: Journal, ids: seq<nat>, replies: nat -> LedgerReply, now: Time)
    requires forall k :: 0 <= k < |ids| ==> ids[k] < |j|
    requires Distinct(ids)
    ensures forall k :: 0 <= k < |ids| ==>
      ProcessIds(j, ids, replies, now).journal[ids[k]] == ProcessOne(j[ids[k]], replies(ids[k]), now).tx
    decreases |ids|
  {
    if ids != [] {
      var id := ids[0];
      var tail := ids[1..];
      var j1 := j[id := ProcessOne(j[id], replies(id), now).tx];
      assert forall k :: 0 <= k < |tail| ==> tail[k] == ids[k + 1] && tail[k] != id;
      ProcessIdsAppliesOnce(j1, tail, replies, now);
      ProcessIdsLeavesOthers(j1, tail, replies, now);
      var r := ProcessIds(j1, tail, replies, now);
      forall k | 0 <= k < |ids|
        ensures r.journal[ids[k]] == ProcessOne(j[ids[k]], replies(ids[k]), now).tx
      {
        if k == 0 {
          assert id !in tail;
          assert r.journal[id] == j1[id];
        } else {
          assert ids[k] == tail[k - 1] && j1[ids[k]] == j[ids[k]];
        }
      }
    }
  }

  /** `processPendingTransactions`: every PENDING or FAILED transaction under
      the retry cap gets one attempt; every other row is left alone. */
  function ProcessPendingTransactions(j: Journal, replies: nat -> LedgerReply, now: Time): (r: TxOutcome)
    ensures |r.journal| == |j| && r.error.None?
    ensures forall i :: 0 <= i < |j| && !ToProcess(j[i]) ==> r.journal[i] == j[i]
    ensures forall i :: 0 <= i < |j| && ToProcess(j[i]) ==>
      r.journal[i] == ProcessOne(j[i], replies(i), now).tx
  {
    var ids := FindTransactionsToProcess(j);
    var r := ProcessIds(j, ids, replies, now);
    ProcessIdsLeavesOthers(j, ids, replies, now);
    ProcessIdsAppliesOnce(j, ids, replies, now);
    assert forall i :: 0 <= i < |j| && ToProcess(j[i]) ==> exists k :: 0 <= k < |ids| && ids[k] == i;
    r
  }

  /** FAILED rows are never reprocessed: `markAsProcessing` refuses them, so
      the job only counts the attempt, and after the third it rewrites the
      error message. */
  lemma FailedRowsOnlyCountUp(j: Journal, replies: nat -> LedgerReply, now: Time, i: nat)
    requires i < |j| && j[i].IsFailed()
    ensures var after := ProcessPendingTransactions(j, replies, now).journal[i];
      && after.IsFailed()
      && after.retryCount == (if j[i].retryCount < MaxRetries then j[i].retryCount + 1 else j[i].retryCount)
  {
  }

  /** A PENDING row whose ledger call throws, with attempts left, is parked
      in PROCESSING, where the job's query no longer sees it. */
  lemma ThrowingCallStrandsRow(j: Journal, replies: nat -> LedgerReply, now: Time, i: nat)
    requires i < |j| && j[i].IsPending() && j[i].retryCount + 1 < MaxRetries
    requires replies(i).Threw?
    ensures ProcessPendingTransactions(j, replies, now).journal[i].IsProcessing()
    ensures !ToProcess(ProcessPendingTransactions(j, replies, now).journal[i])
  {
  }

  /** Any number of runs of the job: the ledger behaves as `replies[n]` in
      run `n`. */
  function RunJob(j: Journal, replies: seq<nat -> LedgerReply>, now: Time): (r: Journal)
    ensures |r| == |j|
    decreases |replies|
  {
    if replies == [] then j
    else RunJob(ProcessPendingTransactions(j, replies[0], now).journal, replies[1..], now)
  }

  /** However many times the job runs and whatever the ledger answers, a
      FAILED transaction stays FAILED: it can only be recovered through an
      explicit retry. */
  lemma {:induction false} FailedStaysFailed(j: Journal, replies: seq<nat -> LedgerReply>, now: Time, i: nat)
    requires i < |j| && j[i].IsFailed()
    ensures RunJob(j, replies, now)[i].IsFailed()
    decreases |replies|
  {
    if replies != [] {
      FailedRowsOnlyCountUp(j, replies[0], now, i);
      FailedStaysFailed(ProcessPendingTransactions(j, replies[0], now).journal, replies[1..], now, i);
    }
  }

  /** Points used and refunded: the sums over a company's COMPLETED DEBIT and
      REFUND transactions, absent when there are none. */
  function GetTotalPointsUsed(j: Journal, companyId: CompanyId): (r: Option<int>)
    ensures r.None? <==> forall i :: 0 <= i < |j| ==>
      !(j[i].companyId == companyId && j[i].transactionType == Debit && j[i].IsCompleted())
    ensures r.Some? ==> r.value == Sum(
      Filter(j, (x: LoyaltyTransaction) => x.companyId == companyId && x.transactionType == Debit && x.IsCompleted()),
      (x: LoyaltyTransaction) => x.pointsAmount)
  {
    SumPointsByCompanyAndType(j, companyId, Debit)
  }

  function GetTotalPointsRefunded(j: Journal, companyId: CompanyId): (r: Option<int>)
    ensures r.None? <==> forall i :: 0 <= i < |j| ==>
      !(j[i].companyId == companyId && j[i].transactionType == Refund && j[i].IsCompleted())
    ensures r.Some? ==> r.value == Sum(
      Filter(j, (x: LoyaltyTransaction) => x.companyId == companyId && x.transactionType == Refund && x.IsCompleted()),
      (x: LoyaltyTransaction) => x.pointsAmount)
  {
    SumPointsByCompanyAndType(j, companyId, Refund)
  }

  datatype TransactionStatistics = TransactionStatistics(
    total: nat, pending: nat, processing: nat, completed: nat, failed: nat, refunded: nat)

  /** The statistics: the total and the count per status, which add up to
      the total. */
  function GetTransactionStatistics(j: Journal): (r: TransactionStatistics)
    ensures r.total == |j|
    ensures r.pending + r.processing + r.completed + r.failed + r.refunded == r.total
    ensures r.pending == CountByStatus(j, TransactionStatus.Pending)
    ensures r.processing == CountByStatus(j, TransactionStatus.Processing)
    ensures r.completed == CountByStatus(j, TransactionStatus.Completed)
    ensures r.failed == CountByStatus(j, TransactionStatus.Failed)
    ensures r.refunded == CountByStatus(j, TransactionStatus.Refunded)
  {
    StatusCountsSumToTotal(j);
    TransactionStatistics(|j|,
      CountByStatus(j, TransactionStatus.Pending), CountByStatus(j, TransactionStatus.Processing),
      CountByStatus(j, TransactionStatus.Completed), CountByStatus(j, TransactionStatus.Failed),
      CountByStatus(j, TransactionStatus.Refunded))
  }
}
