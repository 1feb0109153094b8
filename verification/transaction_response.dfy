/** The points ledger's reply and the two status predicates the services
    branch on, together with the shape of the ledger calls the services
    make. The ledger itself is an external system: what it answers is a
    parameter of every operation that calls it. */
module TransactionResponses {
  import opened Wrappers
  import opened Text

  /** The reply of a debit or credit; absent JSON fields are `None`. */
  datatype TransactionResponse = TransactionResponse(
    transactionId: Option<string>,
    accountId: Option<string>,
    points: Option<int>,
    reference: Option<string>,
    status: Option<string>,
    balanceBefore: Option<int>,
    balanceAfter: Option<int>,
    errorCode: Option<string>,
    errorMessage: Option<string>)

  /** `"X".equalsIgnoreCase(status)`: false for a null status. */
  predicate StatusIs(status: Option<string>, canonical: string) {
    status.Some? && EqualsIgnoreCase(canonical, status.value)
  }

  predicate IsSuccessful(r: TransactionResponse) {
    StatusIs(r.status, "SUCCESS") || StatusIs(r.status, "COMPLETED")
  }

  predicate IsFailed(r: TransactionResponse) {
    StatusIs(r.status, "FAILED") || StatusIs(r.status, "ERROR")
  }

  /** Against a canonical spelling with no lower-case letters, a
      case-insensitive comparison is plain equality after upper-casing. */
  lemma {:induction false} EqualsIgnoreCaseCanonical(canonical: string, s: string)
    requires forall i :: 0 <= i < |canonical| ==> Upper(canonical[i]) == canonical[i]
    ensures EqualsIgnoreCase(canonical, s) <==> ToUpper(s) == canonical
  {
    if EqualsIgnoreCase(canonical, s) {
      assert forall i :: 0 <= i < |s| ==> ToUpper(s)[i] == canonical[i];
    }
    if ToUpper(s) == canonical {
      forall i | 0 <= i < |canonical|
        ensures Upper(canonical[i]) == Upper(s[i])
      {
        assert ToUpper(s)[i] == Upper(s[i]);
      }
    }
  }

  /** A status predicate holds exactly when the upper-cased status is one of
      its two spellings. */
  lemma StatusPredicatesByUpperCase(r: TransactionResponse)
    ensures IsSuccessful(r) <==>
      r.status.Some? && (ToUpper(r.status.value) == "SUCCESS" || ToUpper(r.status.value) == "COMPLETED")
    ensures IsFailed(r) <==>
      r.status.Some? && (ToUpper(r.status.value) == "FAILED" || ToUpper(r.status.value) == "ERROR")
  {
    if r.status.Some? {
      var s := r.status.value;
      EqualsIgnoreCaseCanonical("SUCCESS", s);
      EqualsIgnoreCaseCanonical("COMPLETED", s);
      EqualsIgnoreCaseCanonical("FAILED", s);
      EqualsIgnoreCaseCanonical("ERROR", s);
    }
  }

  /** No reply is both successful and failed. */
  lemma SuccessfulAndFailedAreExclusive(r: TransactionResponse)
    ensures !(IsSuccessful(r) && IsFailed(r))
  {
    StatusPredicatesByUpperCase(r);
  }

  /** A missing status, and an in-between one such as "pending", is neither
      successful nor failed. */
  lemma PendingIsNeither(r: TransactionResponse)
    requires r.status.None? || r.status == Some("pending") || r.status == Some("PENDING")
    ensures !IsSuccessful(r) && !IsFailed(r)
  {
    StatusPredicatesByUpperCase(r);
    if r.status.Some? {
      var u := ToUpper(r.status.value);
      assert u[0] == 'P';
    }
  }

  /** Case does not matter: a lower-case "success" counts as successful. */
  lemma LowerCaseSuccessCounts(r: TransactionResponse)
    requires r.status == Some("success")
    ensures IsSuccessful(r) && !IsFailed(r)
  {
    var s := "success";
    assert Upper(s[0]) == 'S' && Upper(s[1]) == 'U' && Upper(s[2]) == 'C' && Upper(s[3]) == 'C';
    assert Upper(s[4]) == 'E' && Upper(s[5]) == 'S' && Upper(s[6]) == 'S';
    assert EqualsIgnoreCase("SUCCESS", s);
  }

  /** Which ledger endpoint a call goes to. */
  datatype LedgerOp = DebitPoints | CreditPoints

  /** A call to the points ledger: the account, the amount and the
      reference the services pass. */
  datatype LedgerCall = LedgerCall(op: LedgerOp, accountId: Option<string>, points: int, reference: string)

  /** What the ledger does with a call: it answers with a response, signals
      an error on the reactive stream, or the call itself throws before any
      stream exists. */
  datatype LedgerReply =
    | Replied(response: TransactionResponse)
    | Errored(message: string)
    | Threw(message: string)
}
