/** Rows of the payment, attempt and payout tables, and the statuses they move through.
    A table is a sequence of rows and a row's identifier is its index: inserting always
    yields a fresh identifier, which is what the source gets from random UUIDs. */
module Domain {

  datatype Option<+T> = None | Some(value: T)

  datatype PIStatus =
    | Created
    | RequiresAction
    | Processing
    | Succeeded
    | Failed
    | Expired
    | PartiallyRefunded
    | Refunded

  datatype AttemptStatus = APending | ARequiresAction | AProcessing | ASucceeded | AFailed

  datatype PayoutStatus = PayoutPending | PayoutSucceeded | PayoutFailed

  datatype Intent = Intent(merchant: string, key: string, amount: int, currency: string, status: PIStatus)

  datatype Attempt = Attempt(pi: nat, psp: string, ref: string, status: AttemptStatus)

  datatype Payout = Payout(merchant: string, amount: int, currency: string, rail: string, status: PayoutStatus)

  /** What a caller asks for. */
  datatype Request = Request(
    merchant: string,
    key: string,
    amount: int,
    currency: string,
    method_: string,
    phone: string,
    email: string)

  /** What a webhook reports. */
  datatype Event = Event(psp: string, ref: string, transaction: string, status: string)

  /** The outcome a provider's status stands for. */
  function Outcome(status: string): Option<PIStatus> {
    if status == "succeeded" then Some(Succeeded) else if status == "failed" then Some(Failed) else None
  }

  function OutcomeAttempt(to: PIStatus): AttemptStatus {
    if to == Succeeded then ASucceeded else AFailed
  }

  /** The columns of an intent no statement ever updates. */
  predicate SameIdentity(x: Intent, y: Intent) {
    x.merchant == y.merchant && x.key == y.key && x.amount == y.amount && x.currency == y.currency
  }
}
