/** The database rows the money services read and write. */
module Entities {
  import opened Common

  datatype Status = Active | Suspended | PendingPayment | OtherStatus(name: string)

  datatype CreditStatus = NoCredit | CreditPending | CreditApproved | CreditRejected

  datatype SettlementCycle = Monthly | Weekly | Threshold | Custom | OtherCycle

  /** Individual quota of a user of the public tenant. */
  datatype UserQuota = UserQuota(
    status: Status,
    tokenQuota: int,
    tokensUsed: int,
    balance: Money,
    monthlyCost: Money)

  /** A member's share of an organization tenant. */
  datatype MemberQuota = MemberQuota(
    tenantId: Id,
    status: Status,
    tokenQuotaLimit: Option<int>,
    tokensUsed: int,
    costLimit: Option<Money>,
    costUsed: Money)

  datatype Tenant = Tenant(
    isOrganization: bool,
    status: Status,
    balance: Money,
    tokenLimit: Option<int>,
    tokensUsedMonth: int,
    budgetUsedMonth: Money,
    creditStatus: CreditStatus,
    creditLimit: Option<Money>,
    creditUsed: Money,
    cycle: SettlementCycle,
    thresholdAmount: Option<Money>,
    settlementDay: Option<int>)
  {
    /** The guard of every branch that spends credit. */
    predicate HasCredit() { creditStatus == CreditApproved && creditLimit.Some? }
  }

  datatype BillType = UsageBill | CreditSettlement

  datatype BillStatus = BillPending | PartialPaid | Paid

  /** A bill's id is its creation index in the bill table. */
  datatype Bill = Bill(
    tenantId: Id,
    billType: BillType,
    totalCost: Money,
    status: BillStatus,
    dueAt: Option<int>)
}
