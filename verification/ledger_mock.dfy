/** The mock points ledger that stands in for the external loyalty API: a
    balance per account with a default for accounts it has never seen, a
    tier per account, and debit and credit calls that answer with a
    transaction response. The random failure draw and the random
    transaction token are parameters. Account ids are nullable, as the
    keys of the Java map are. */
module LedgerMock {
  import opened Wrappers
  import opened Text
  import opened TransactionResponses

  type Account = Option<string>

  datatype Ledger = Ledger(balances: map<Account, int>, tiers: map<Account, string>)

  /** The balance of an account the ledger has never stored. */
  const DefaultBalance: int := 50000

  /** The points the balance query reports as pending. */
  const PendingPoints: int := 1000

  const SeedAccounts: set<Account> := {Some("ACME001"), Some("GLOBAL002"), Some("TECH003"), Some("STARTUP004")}

  /** `initializeMockData`: the four seed accounts, their balances and
      tiers, put over whatever the maps already hold. */
  function Seed(l: Ledger): (r: Ledger)
    ensures r.balances.Keys == l.balances.Keys + SeedAccounts
    ensures r.tiers.Keys == l.tiers.Keys + SeedAccounts
    ensures forall a :: a in l.balances && a !in SeedAccounts ==> r.balances[a] == l.balances[a]
    ensures forall a :: a in l.tiers && a !in SeedAccounts ==> r.tiers[a] == l.tiers[a]
    ensures r.balances[Some("ACME001")] == 150000 && r.tiers[Some("ACME001")] == "GOLD"
    ensures r.balances[Some("GLOBAL002")] == 75000 && r.tiers[Some("GLOBAL002")] == "SILVER"
    ensures r.balances[Some("TECH003")] == 200000 && r.tiers[Some("TECH003")] == "PLATINUM"
    ensures r.balances[Some("STARTUP004")] == 25000 && r.tiers[Some("STARTUP004")] == "BRONZE"
  {
    Ledger(
      l.balances[Some("ACME001") := 150000][Some("GLOBAL002") := 75000]
                [Some("TECH003") := 200000][Some("STARTUP004") := 25000],
      l.tiers[Some("ACME001") := "GOLD"][Some("GLOBAL002") := "SILVER"]
             [Some("TECH003") := "PLATINUM"][Some("STARTUP004") := "BRONZE"])
  }

  /** The ledger as constructed. */
  function InitialLedger(): (r: Ledger)
    ensures r.balances.Keys == SeedAccounts && r.tiers.Keys == SeedAccounts
    ensures r.balances[Some("ACME001")] == 150000 && r.tiers[Some("ACME001")] == "GOLD"
    ensures r.balances[Some("GLOBAL002")] == 75000 && r.tiers[Some("GLOBAL002")] == "SILVER"
    ensures r.balances[Some("TECH003")] == 200000 && r.tiers[Some("TECH003")] == "PLATINUM"
    ensures r.balances[Some("STARTUP004")] == 25000 && r.tiers[Some("STARTUP004")] == "BRONZE"
  {
    Seed(Ledger(map[], map[]))
  }

  /** The balance the debit, credit and balance calls work with. */
  function BalanceOf(l: Ledger, a: Account): int {
    if a in l.balances then l.balances[a] else DefaultBalance
  }

  datatype BalanceResponse = BalanceResponse(
    accountId: Account, balance: int, availableBalance: int, pendingBalance: int, tier: string)

  /** `getBalance`: the balance with a fixed pending part held back from
      the available part, and the tier, SILVER by default. */
  function GetBalance(l: Ledger, a: Account): (r: BalanceResponse)
    ensures r.balance == BalanceOf(l, a) && r.accountId == a
    ensures r.pendingBalance == PendingPoints && r.availableBalance + r.pendingBalance == r.balance
    ensures a !in l.tiers ==> r.tier == "SILVER"
    ensures a in l.tiers ==> r.tier == l.tiers[a]
  {
    var balance := BalanceOf(l, a);
    BalanceResponse(a, balance, balance - PendingPoints, PendingPoints,
      if a in l.tiers then l.tiers[a] else "SILVER")
  }

  datatype Posted = Posted(ledger: Ledger, response: TransactionResponse)

  /** A refusal: no transaction id, the FAILED status, and the code and
      message given. */
  function Refusal(a: Account, points: int, reference: string, code: string, message: string): (r: TransactionResponse)
    ensures r.transactionId.None? && r.status == Some("FAILED")
    ensures r.errorCode == Some(code) && r.errorMessage == Some(message)
  {
    TransactionResponse(None, a, Some(points), Some(reference), Some("FAILED"), None, None, Some(code), Some(message))
  }

  /** An acceptance moving the balance from `before` to `after`. */
  function Acceptance(a: Account, points: int, reference: string, token: string, before: int, after: int): (r: TransactionResponse)
    ensures r.transactionId == Some("TXN-" + token) && r.status == Some("SUCCESS")
    ensures r.balanceBefore == Some(before) && r.balanceAfter == Some(after) && r.errorCode.None?
  {
    TransactionResponse(Some("TXN-" + token), a, Some(points), Some(reference), Some("SUCCESS"),
      Some(before), Some(after), None, None)
  }

  /** `debitPoints`. More points than the balance are refused as
      INSUFFICIENT_BALANCE; otherwise `systemError` (the 5% draw) refuses
      the call as SYSTEM_ERROR; otherwise the balance drops by exactly the
      points and is stored, also for an account seen for the first time. */
  function DebitPoints(l: Ledger, a: Account, points: int, reference: string, systemError: bool, token: string): (r: Posted)
    ensures points > BalanceOf(l, a) ==>
      r == Posted(l, Refusal(a, points, reference, "INSUFFICIENT_BALANCE", "Insufficient points balance"))
    ensures points <= BalanceOf(l, a) && systemError ==>
      r == Posted(l, Refusal(a, points, reference, "SYSTEM_ERROR", "Temporary system error - please retry"))
    ensures points <= BalanceOf(l, a) && !systemError ==>
      && r.ledger == l.(balances := l.balances[a := BalanceOf(l, a) - points])
      && r.response == Acceptance(a, points, reference, token, BalanceOf(l, a), BalanceOf(l, a) - points)
  {
    var balance := BalanceOf(l, a);
    if points > balance then
      Posted(l, Refusal(a, points, reference, "INSUFFICIENT_BALANCE", "Insufficient points balance"))
    else if systemError then
      Posted(l, Refusal(a, points, reference, "SYSTEM_ERROR", "Temporary system error - please retry"))
    else
      Posted(l.(balances := l.balances[a := balance - points]),
        Acceptance(a, points, reference, token, balance, balance - points))
  }

  /** `creditPoints`: `systemError` (the 2% draw) refuses the call;
      otherwise the balance rises by exactly the points. There is no
      upper bound and no check of the sign of the points. */
  function CreditPoints(l: Ledger, a: Account, points: int, reference: string, systemError: bool, token: string): (r: Posted)
    ensures systemError ==>
      r == Posted(l, Refusal(a, points, reference, "SYSTEM_ERROR", "Credit processing temporarily unavailable"))
    ensures !systemError ==>
      && r.ledger == l.(balances := l.balances[a := BalanceOf(l, a) + points])
      && r.response == Acceptance(a, points, reference, token, BalanceOf(l, a), BalanceOf(l, a) + points)
  {
    var balance := BalanceOf(l, a);
    if systemError then
      Posted(l, Refusal(a, points, reference, "SYSTEM_ERROR", "Credit processing temporarily unavailable"))
    else
      Posted(l.(balances := l.balances[a := balance + points]),
        Acceptance(a, points, reference, token, balance, balance + points))
  }

  /** The mock's answer to one of the services' ledger calls. */
  function Answer(l: Ledger, c: LedgerCall, systemError: bool, token: string): (r: Posted)
    ensures c.op.DebitPoints? ==> r == DebitPoints(l, c.accountId, c.points, c.reference, systemError, token)
    ensures c.op.CreditPoints? ==> r == CreditPoints(l, c.accountId, c.points, c.reference, systemError, token)
  {
    if c.op.DebitPoints? then DebitPoints(l, c.accountId, c.points, c.reference, systemError, token)
    else CreditPoints(l, c.accountId, c.points, c.reference, systemError, token)
  }

  /** The two spellings the mock answers with are read by the services'
      status predicates as intended. */
  lemma MockStatusesAreRecognised(r: TransactionResponse)
    requires r.status == Some("SUCCESS") || r.status == Some("FAILED")
    ensures IsSuccessful(r) <==> r.status == Some("SUCCESS")
    ensures IsFailed(r) <==> r.status == Some("FAILED")
  {
    StatusPredicatesByUpperCase(r);
    var s := r.status.value;
    assert ToUpper(s) == s by {
      assert forall i :: 0 <= i < |s| ==> Upper(s[i]) == s[i];
    }
  }

  /** A debit is answered as successful exactly when it fits the balance
      and no system error is drawn, and the balance moves only then. */
  lemma DebitSucceedsIffCovered(l: Ledger, a: Account, points: int, reference: string, systemError: bool, token: string)
    ensures var r := DebitPoints(l, a, points, reference, systemError, token);
      && (IsSuccessful(r.response) <==> points <= BalanceOf(l, a) && !systemError)
      && (IsFailed(r.response) <==> !(points <= BalanceOf(l, a) && !systemError))
      && (!IsSuccessful(r.response) ==> r.ledger == l)
  {
    MockStatusesAreRecognised(DebitPoints(l, a, points, reference, systemError, token).response);
  }

  /** A successful debit followed by a successful credit of the same
      points brings the balance back; the account is stored from then on. */
  lemma DebitThenCreditRestoresBalance(l: Ledger, a: Account, points: int, r1: string, r2: string, t1: string, t2: string)
    requires points <= BalanceOf(l, a)
    ensures var debited := DebitPoints(l, a, points, r1, false, t1).ledger;
      var credited := CreditPoints(debited, a, points, r2, false, t2).ledger;
      && BalanceOf(credited, a) == BalanceOf(l, a)
      && credited == l.(balances := l.balances[a := BalanceOf(l, a)])
  {
  }

  /** `getCurrentBalance`: only a stored balance, with no default. */
  function GetCurrentBalance(l: Ledger, a: Account): (r: Option<int>)
    ensures r.Some? <==> a in l.balances
    ensures r.Some? ==> r.value == BalanceOf(l, a)
  {
    if a in l.balances then Some(l.balances[a]) else None
  }

  /** An account never stored is reported with the default balance by the
      balance query but with none by `getCurrentBalance`. */
  lemma UnstoredAccountReadsDiffer(l: Ledger, a: Account)
    requires a !in l.balances
    ensures GetBalance(l, a).balance == DefaultBalance && GetCurrentBalance(l, a).None?
  {
  }

  /** `setAccountBalance`. */
  function SetAccountBalance(l: Ledger, a: Account, balance: int): (r: Ledger)
    ensures GetCurrentBalance(r, a) == Some(balance)
    ensures forall b :: b != a ==> GetCurrentBalance(r, b) == GetCurrentBalance(l, b)
    ensures r.tiers == l.tiers
  {
    l.(balances := l.balances[a := balance])
  }

  /** `setAccountTier`. */
  function SetAccountTier(l: Ledger, a: Account, tier: string): (r: Ledger)
    ensures GetBalance(r, a).tier == tier
    ensures forall b :: b != a ==> GetBalance(r, b) == GetBalance(l, b)
    ensures r.balances == l.balances
  {
    l.(tiers := l.tiers[a := tier])
  }

  /** `resetMockData`: the seed accounts get their seed values back; every
      other stored account keeps what it had. */
  function ResetMockData(l: Ledger): (r: Ledger)
    ensures forall a :: a in SeedAccounts ==> GetCurrentBalance(r, a) == GetCurrentBalance(InitialLedger(), a)
    ensures forall a :: a !in SeedAccounts ==> GetCurrentBalance(r, a) == GetCurrentBalance(l, a)
    ensures forall a :: a !in SeedAccounts ==> GetBalance(r, a) == GetBalance(l, a)
  {
    Seed(l)
  }

  /** After a reset, an account outside the seeds that had been debited
      keeps its lowered balance. */
  lemma ResetKeepsDebitedAccount(l: Ledger, a: Account, points: int, reference: string, token: string)
    requires a !in SeedAccounts && 0 < points <= BalanceOf(l, a)
    ensures var debited := DebitPoints(l, a, points, reference, false, token).ledger;
      GetCurrentBalance(ResetMockData(debited), a) == Some(BalanceOf(l, a) - points)
  {
  }

  /** The ledger walk-through: an unseen account starts at 50000, a debit
      of 5000 leaves 45000, a credit of 2000 then leaves 47000. */
  lemma DebitThenCreditScenario(t1: string, t2: string)
    ensures var l := InitialLedger();
      var a := Some("TEST001");
      var debit := DebitPoints(l, a, 5000, "TEST-DEBIT", false, t1);
      var credit := CreditPoints(debit.ledger, a, 2000, "TEST-REFUND", false, t2);
      && GetBalance(l, a).balance == 50000
      && IsSuccessful(debit.response) && debit.response.balanceAfter == Some(45000)
      && IsSuccessful(credit.response) && credit.response.balanceAfter == Some(47000)
      && GetCurrentBalance(credit.ledger, a) == Some(47000)
  {
    var l := InitialLedger();
    var a := Some("TEST001");
    assert a !in SeedAccounts;
    var debit := DebitPoints(l, a, 5000, "TEST-DEBIT", false, t1);
    MockStatusesAreRecognised(debit.response);
    MockStatusesAreRecognised(CreditPoints(debit.ledger, a, 2000, "TEST-REFUND", false, t2).response);
  }
}
