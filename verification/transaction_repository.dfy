/** The transaction journal and the queries declared on it. A transaction's
    id is its position in the journal. */
module TransactionRepository {
  import opened Wrappers
  import opened Domain
  import opened Seqs
  import opened TransactionEntity

  type Journal = seq<LoyaltyTransaction>

  /** `status = :status AND retryCount < 3`. */
  function FindRetryableTransactions(j: Journal, status: TransactionStatus): (r: seq<LoyaltyTransaction>)
    ensures forall i :: 0 <= i < |r| ==> r[i] in j && r[i].status == status && r[i].retryCount < MaxRetries
    ensures forall i :: 0 <= i < |j| && j[i].status == status && j[i].retryCount < MaxRetries ==> j[i] in r
  {
    Filter(j, (x: LoyaltyTransaction) => x.status == status && x.retryCount < 3)
  }

  /** `status = 'FAILED' AND retryCount < 3`: exactly the transactions the
      entity says can be retried. */
  function FindFailedTransactionsForRetry(j: Journal): (r: seq<LoyaltyTransaction>)
    ensures forall i :: 0 <= i < |r| ==> r[i] in j && CanRetry(r[i])
    ensures forall i :: 0 <= i < |j| && CanRetry(j[i]) ==> j[i] in r
  {
    Filter(j, (x: LoyaltyTransaction) => x.status == TransactionStatus.Failed && x.retryCount < 3)
  }

  /** The row filter of `findTransactionsToProcess`. */
  predicate ToProcess(tx: LoyaltyTransaction) {
    (tx.status == TransactionStatus.Pending || tx.status == TransactionStatus.Failed) && tx.retryCount < 3
  }

  /** Ids `from .. |j|-1` of the rows satisfying `ToProcess`, in journal order. */
  function SelectToProcess(j: Journal, from: nat): (r: seq<nat>)
    requires from <= |j|
    ensures forall k :: 0 <= k < |r| ==> from <= r[k] < |j| && ToProcess(j[r[k]])
    ensures forall i :: from <= i < |j| && ToProcess(j[i]) ==> i in r
    ensures forall a, b :: 0 <= a < b < |r| ==> r[a] < r[b]
    decreases |j| - from
  {
    if from == |j| then []
    else if ToProcess(j[from]) then [from] + SelectToProcess(j, from + 1)
    else SelectToProcess(j, from + 1)
  }

  /** `findTransactionsToProcess`: the ids of the PENDING or FAILED
      transactions still under the retry cap, oldest first. */
  function FindTransactionsToProcess(j: Journal): (r: seq<nat>)
    ensures forall k :: 0 <= k < |r| ==> r[k] < |j| && ToProcess(j[r[k]])
    ensures forall i :: 0 <= i < |j| && ToProcess(j[i]) ==> i in r
    ensures forall a, b :: 0 <= a < b < |r| ==> r[a] != r[b]
    ensures forall a, b :: 0 <= a < b < |r| ==> j[r[a]].createdAt <= j[r[b]].createdAt
  {
    var ids := SelectToProcess(j, 0);
    var r := SortBy(ids, (i: nat) => if i < |j| then j[i].createdAt else 0);
    SortedIdsKeepSelection(j, ids, r);
    r
  }

  /** A permutation of strictly increasing in-range ids keeps them in range,
      selected and pairwise distinct. */
  lemma SortedIdsKeepSelection(j: Journal, ids: seq<nat>, r: seq<nat>)
    requires forall k :: 0 <= k < |ids| ==> ids[k] < |j| && ToProcess(j[ids[k]])
    requires forall a, b :: 0 <= a < b < |ids| ==> ids[a] < ids[b]
    requires multiset(r) == multiset(ids)
    ensures forall k :: 0 <= k < |r| ==> r[k] < |j| && ToProcess(j[r[k]])
    ensures forall k :: 0 <= k < |ids| ==> ids[k] in r
    ensures forall a, b :: 0 <= a < b < |r| ==> r[a] != r[b]
  {
    forall k | 0 <= k < |r|
      ensures r[k] < |j| && ToProcess(j[r[k]])
    {
      assert r[k] in multiset(ids);
    }
    forall k | 0 <= k < |ids|
      ensures ids[k] in r
    {
      assert ids[k] in multiset(r);
    }
    forall a, b | 0 <= a < b < |r|
      ensures r[a] != r[b]
    {
      if r[a] == r[b] {
        DistinctCountsOne(ids, r[a]);
        RepeatedElementCountsTwice(r, a, b);
        assert false;
      }
    }
  }

  lemma RepeatedElementCountsTwice(r: seq<nat>, a: nat, b: nat)
    requires a < b < |r| && r[a] == r[b]
    ensures multiset(r)[r[a]] >= 2
  {
    assert r == r[..a] + [r[a]] + r[a + 1..b] + [r[b]] + r[b + 1..];
  }

  lemma {:induction false} DistinctCountsOne(ids: seq<nat>, x: nat)
    requires forall a, b :: 0 <= a < b < |ids| ==> ids[a] < ids[b]
    ensures multiset(ids)[x] <= 1
  {
    if ids != [] {
      assert ids == [ids[0]] + ids[1..];
      DistinctCountsOne(ids[1..], x);
      if x == ids[0] {
        assert x !in ids[1..];
      }
    }
  }

  /** `SUM(pointsAmount)` over the COMPLETED transactions of one company and
      type; SQL yields NULL when no row matches. */
  function SumPointsByCompanyAndType(j: Journal, companyId: CompanyId, t: TransactionType): (r: Option<int>)
    ensures r.None? <==> forall i :: 0 <= i < |j| ==>
      !(j[i].companyId == companyId && j[i].transactionType == t && j[i].IsCompleted())
    ensures r.Some? ==> r.value == Sum(
      Filter(j, (x: LoyaltyTransaction) => x.companyId == companyId && x.transactionType == t && x.IsCompleted()),
      (x: LoyaltyTransaction) => x.pointsAmount)
  {
    var rows := Filter(j, (x: LoyaltyTransaction) =>
      x.companyId == companyId && x.transactionType == t && x.IsCompleted());
    CountIsFilterLength(j, (x: LoyaltyTransaction) =>
      x.companyId == companyId && x.transactionType == t && x.IsCompleted());
    if rows == [] then None else Some(Sum(rows, (x: LoyaltyTransaction) => x.pointsAmount))
  }

  /** `COUNT(*)` of one company's transactions in one status. */
  function CountByCompanyAndStatus(j: Journal, companyId: CompanyId, status: TransactionStatus): (n: nat)
    ensures n <= |j|
    ensures n == 0 <==> forall i :: 0 <= i < |j| ==> !(j[i].companyId == companyId && j[i].status == status)
    ensures n == |Filter(j, (x: LoyaltyTransaction) => x.companyId == companyId && x.status == status)|
  {
    CountIsFilterLength(j, (x: LoyaltyTransaction) => x.companyId == companyId && x.status == status);
    Count(j, (x: LoyaltyTransaction) => x.companyId == companyId && x.status == status)
  }

  /** Appending a transaction raises the count of its own company and
      status by one and leaves every other count. */
  lemma CountByCompanyAndStatusAppend(j: Journal, tx: LoyaltyTransaction, companyId: CompanyId, status: TransactionStatus)
    ensures CountByCompanyAndStatus(j + [tx], companyId, status)
      == CountByCompanyAndStatus(j, companyId, status) + (if tx.companyId == companyId && tx.status == status then 1 else 0)
  {
    CountAppend(j, [tx], (x: LoyaltyTransaction) => x.companyId == companyId && x.status == status);
  }

  function CountByStatus(j: Journal, status: TransactionStatus): (n: nat)
    ensures n <= |j|
    ensures n == 0 <==> forall i :: 0 <= i < |j| ==> j[i].status != status
    ensures n == |j| <==> forall i :: 0 <= i < |j| ==> j[i].status == status
  {
    Count(j, (x: LoyaltyTransaction) => x.status == status)
  }

  /** The per-status counts of the statistics add up to the total. */
  lemma {:induction false} StatusCountsSumToTotal(j: Journal)
    ensures CountByStatus(j, TransactionStatus.Pending) + CountByStatus(j, TransactionStatus.Processing)
      + CountByStatus(j, TransactionStatus.Completed) + CountByStatus(j, TransactionStatus.Failed)
      + CountByStatus(j, TransactionStatus.Refunded) == |j|
  {
    if j != [] {
      StatusCountsSumToTotal(j[1..]);
    }
  }

  /** Appending a transaction raises its status's count by one and leaves
      the others. */
  lemma CountByStatusAppend(j: Journal, tx: LoyaltyTransaction, status: TransactionStatus)
    ensures CountByStatus(j + [tx], status) == CountByStatus(j, status) + (if tx.status == status then 1 else 0)
  {
    CountAppend(j, [tx], (x: LoyaltyTransaction) => x.status == status);
  }
}
