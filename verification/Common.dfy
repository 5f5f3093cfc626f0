/** Types shared by every module. */
module Common {

  /** Database identifiers (the repository uses random UUIDs). */
  type Id = int

  /** Amounts of money, as whole multiples of the smallest unit (10^-9). */
  type Money = int

  datatype Option<+T> = None | Some(value: T)

  datatype Result<+T, +E> = Success(value: T) | Failure(error: E)

  /** Go's `error` results. */
  datatype Outcome = Ok | Err(error: Error)

  datatype Error =
    | InvalidQuotaType
    | UserQuotaNotFound
    | MemberQuotaNotFound
    | TenantNotFound
    | UserSuspended
    | MemberSuspended
    | TenantSuspended
    | MemberTokenQuotaExceeded
    | MemberCostLimitExceeded
    | InsufficientBalance
    | CreditLimitExceeded
    | NoPaymentSource
    | CreditNotApproved
    | NothingToSettle
    | BillNotFound
    | NotASettlementBill
    | OrderNotFound
    | OrderAlreadyProcessed
    | PaidAmountTooSmall
    | TargetMissing
    | UnsupportedOrder
    | ApplicationPending
    | ApplicationNotFound
    | ApplicationAlreadyProcessed

  function Min(a: int, b: int): int { if a < b then a else b }

  function Max(a: int, b: int): int { if a < b then b else a }

  /** Some element of a set that is not empty. */
  ghost function Pick<T>(s: set<T>): (x: T)
    requires s != {}
    ensures x in s
  {
    var x :| x in s; x
  }
}
