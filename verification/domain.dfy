/** Identifiers, status enumerations and the catalogue records of the
    redemption portal. Only the fields the business logic reads are kept. */
module Domain {
  import opened Wrappers

  type ProductId = nat
  type CompanyId = nat
  type ManagerId = nat
  type OrderId = nat
  type ItemId = nat

  /** Timestamps are opaque values supplied by the caller. */
  type Time = int

  /** Every failure the services raise carries the exception's message. */
  type Error = string

  datatype ProductType = Physical | Virtual

  datatype OrderStatus = Pending | Processing | Completed | Cancelled | Failed

  datatype FulfillmentStatus =
    | Pending | Processing | Fulfilled | Shipped | Delivered | Failed | Cancelled

  datatype TransactionStatus = Pending | Processing | Completed | Failed | Refunded

  datatype TransactionType = Debit | Credit | Refund

  /** `type.name()` of a transaction type. */
  function TransactionTypeName(t: TransactionType): string {
    match t
    case Debit => "DEBIT"
    case Credit => "CREDIT"
    case Refund => "REFUND"
  }

  datatype Product = Product(
    id: ProductId,
    sku: string,
    name: string,
    pointsCost: nat,
    productType: ProductType,
    isActive: bool)

  datatype Company = Company(
    id: CompanyId,
    name: string,
    isActive: bool,
    loyaltyAccountId: Option<string>)

  datatype AccountManager = AccountManager(
    id: ManagerId,
    email: string,
    fullName: string,
    isActive: bool,
    companyId: CompanyId)

  /** The read-only catalogue the order services look records up in. */
  datatype Catalog = Catalog(
    companies: map<CompanyId, Company>,
    managers: map<ManagerId, AccountManager>,
    products: map<ProductId, Product>)
}
