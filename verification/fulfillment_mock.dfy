/** The virtual-fulfilment service as the mock that stands in for the
    external provider: it classifies the SKU, stores one record per
    successful fulfilment, and answers queries over the records. Failure
    injection, ids and clocks are parameters. */
module FulfillmentMock {
  import opened Wrappers
  import opened Text
  import opened Domain

  /** What the workflow posts for one virtual line. */
  datatype VirtualFulfillmentRequest = VirtualFulfillmentRequest(
    referenceId: string,
    productSku: string,
    quantity: int,
    customerEmail: string,
    customerName: string,
    companyName: string)

  datatype VirtualFulfillmentResponse = VirtualFulfillmentResponse(
    fulfillmentId: Option<string>, status: string, message: string)

  datatype VirtualFulfillmentRecord = VirtualFulfillmentRecord(
    fulfillmentId: string,
    referenceId: string,
    productSku: string,
    quantity: int,
    customerEmail: string,
    customerName: string,
    companyName: string,
    fulfilledAt: Time,
    status: string)

  /** The records by fulfilment id. */
  type Records = map<string, VirtualFulfillmentRecord>

  datatype SkuCategory = Software | Course | Subscription | Digital | Generic

  /** `detectProductType`: four keyword pairs tried in a fixed order; the
      first pair with a keyword in the SKU wins. */
  function DetectProductType(sku: string): (r: SkuCategory)
    ensures r == Software <==> Contains(sku, "SOFTWARE") || Contains(sku, "LICENSE")
    ensures r == Course <==>
      !(Contains(sku, "SOFTWARE") || Contains(sku, "LICENSE"))
      && (Contains(sku, "COURSE") || Contains(sku, "TRAINING"))
    ensures r == Subscription <==>
      !(Contains(sku, "SOFTWARE") || Contains(sku, "LICENSE"))
      && !(Contains(sku, "COURSE") || Contains(sku, "TRAINING"))
      && (Contains(sku, "SUBSCRIPTION") || Contains(sku, "SERVICE"))
    ensures r == Generic <==>
      !Contains(sku, "SOFTWARE") && !Contains(sku, "LICENSE") && !Contains(sku, "COURSE")
      && !Contains(sku, "TRAINING") && !Contains(sku, "SUBSCRIPTION") && !Contains(sku, "SERVICE")
      && !Contains(sku, "DIGITAL") && !Contains(sku, "EBOOK")
  {
    if Search(sku, "SOFTWARE") || Search(sku, "LICENSE") then Software
    else if Search(sku, "COURSE") || Search(sku, "TRAINING") then Course
    else if Search(sku, "SUBSCRIPTION") || Search(sku, "SERVICE") then Subscription
    else if Search(sku, "DIGITAL") || Search(sku, "EBOOK") then Digital
    else Generic
  }

  /** A keyword anywhere in the SKU classifies it, whatever surrounds it. */
  lemma KeywordAnywhereClassifies(prefix: string, suffix: string)
    ensures DetectProductType(prefix + "LICENSE" + suffix) == Software
  {
    var s := prefix + "LICENSE" + suffix;
    assert s[|prefix|..][..|"LICENSE"|] == "LICENSE";
    assert IsPrefix("LICENSE", s[|prefix|..]);
  }

  /** The confirmation text the mock returns for each category. */
  function FulfillmentMessage(request: VirtualFulfillmentRequest): string {
    match DetectProductType(request.productSku)
    case Software => "License key and download instructions sent to " + request.customerEmail
    case Digital => "Digital content delivered to customer portal for " + request.customerName
    case Course => "Course access granted, welcome email sent to " + request.customerEmail
    case Subscription => "Subscription activated for " + IntToString(request.quantity) + " months"
    case Generic => "Virtual product delivered successfully to " + request.customerEmail
  }

  /** The id a successful fulfilment gets from the random token it draws. */
  function FulfillmentIdFor(token: string): (r: string)
    ensures IsPrefix("VF-", r) && |r| == |token| + 3
  {
    "VF-" + ToUpper(token)
  }

  datatype FulfillmentResult = FulfillmentResult(records: Records, response: VirtualFulfillmentResponse)

  /** `fulfillVirtualProduct`. `simulateFailure` stands for the random
      failure draw; a failure stores nothing and returns no id, a success
      stores one SUCCESS record under its new id carrying the request's
      fields. */
  function FulfillVirtualProduct(
    records: Records, request: VirtualFulfillmentRequest, simulateFailure: bool, token: string, now: Time): (r: FulfillmentResult)
    ensures simulateFailure ==>
      r == FulfillmentResult(records, VirtualFulfillmentResponse(None, "FAILED", "Mock fulfillment system temporarily unavailable"))
    ensures !simulateFailure ==>
      && r.response.fulfillmentId == Some(FulfillmentIdFor(token))
      && r.response.status == "SUCCESS"
      && r.records.Keys == records.Keys + {FulfillmentIdFor(token)}
      && (forall k :: k in records && k != FulfillmentIdFor(token) ==> r.records[k] == records[k])
      && var rec := r.records[FulfillmentIdFor(token)];
         && rec.fulfillmentId == FulfillmentIdFor(token) && rec.status == "SUCCESS"
         && rec.referenceId == request.referenceId && rec.productSku == request.productSku
         && rec.quantity == request.quantity && rec.customerEmail == request.customerEmail
         && rec.customerName == request.customerName && rec.companyName == request.companyName
  {
    if simulateFailure then
      FulfillmentResult(records, VirtualFulfillmentResponse(None, "FAILED", "Mock fulfillment system temporarily unavailable"))
    else
      var id := FulfillmentIdFor(token);
      var rec := VirtualFulfillmentRecord(id, request.referenceId, request.productSku, request.quantity,
        request.customerEmail, request.customerName, request.companyName, now, "SUCCESS");
      FulfillmentResult(records[id := rec], VirtualFulfillmentResponse(Some(id), "SUCCESS", FulfillmentMessage(request)))
  }

  /** `getFulfillmentStatus`: the record under the id, if any. */
  function GetFulfillmentStatus(records: Records, fulfillmentId: string): (r: Option<VirtualFulfillmentRecord>)
    ensures r.Some? <==> fulfillmentId in records
    ensures r.Some? ==> r.value == records[fulfillmentId]
  {
    if fulfillmentId in records then Some(records[fulfillmentId]) else None
  }

  /** `getFulfillmentsByCustomer`: exactly the records of that customer,
      under their ids. */
  function GetFulfillmentsByCustomer(records: Records, customerEmail: string): (r: Records)
    ensures forall k :: k in r <==> k in records && records[k].customerEmail == customerEmail
    ensures forall k :: k in r ==> r[k] == records[k]
  {
    map k | k in records && records[k].customerEmail == customerEmail :: records[k]
  }

  /** `resetMockData`. */
  function ResetMockData(records: Records): (r: Records)
    ensures |r| == 0 && forall k :: GetFulfillmentStatus(r, k).None?
  {
    map[]
  }

  /** Only successes are ever stored. */
  predicate AllSuccessful(records: Records) {
    forall k :: k in records ==> records[k].status == "SUCCESS"
  }

  lemma FulfillKeepsAllSuccessful(
    records: Records, request: VirtualFulfillmentRequest, simulateFailure: bool, token: string, now: Time)
    requires AllSuccessful(records)
    ensures AllSuccessful(FulfillVirtualProduct(records, request, simulateFailure, token, now).records)
  {
  }

  datatype FulfillmentStatistics = FulfillmentStatistics(total: nat, successful: nat, failed: int)

  /** `getStatistics`: failed is whatever is not SUCCESS. */
  function GetStatistics(records: Records): (r: FulfillmentStatistics)
    ensures r.total == |records|
    ensures r.successful == |set k | k in records && records[k].status == "SUCCESS"|
    ensures r.failed == r.total - r.successful && r.failed >= 0
  {
    var successful := set k | k in records && records[k].status == "SUCCESS";
    assert successful <= records.Keys;
    SubsetCardinality(successful, records.Keys);
    FulfillmentStatistics(|records|, |successful|, |records| - |successful|)
  }

  lemma SubsetCardinality(a: set<string>, b: set<string>)
    requires a <= b
    ensures |a| <= |b|
  {
    assert b == a + (b - a);
  }

  /** Since only successes are stored, the failed count is always zero. */
  lemma FailedIsAlwaysZero(records: Records)
    requires AllSuccessful(records)
    ensures GetStatistics(records).failed == 0
    ensures GetStatistics(records).successful == GetStatistics(records).total
  {
    var successful := set k | k in records && records[k].status == "SUCCESS";
    assert successful == records.Keys;
  }
}
