/**
 The data model of the debt tracker backend: the enumerations, the stored
 debt record, the create and update request bodies, and the dashboard
 statistics returned to the client.

 Amounts are exact reals (the service stores binary floats). Timestamps are
 integers counting microseconds, the resolution of the service's naive UTC
 datetimes.
 */
module Types {

  /** An optional value; `None` plays the role of a missing field or a null. */
  datatype Option<+T> = None | Some(value: T) {

    /** The wrapped value, or `default` when there is none. */
    function GetOr(default: T): T {
      match this
      case Some(v) => v
      case None => default
    }
  }

  /** The outcome of a lookup by id: the record, or the service's 404. */
  datatype Result<+T> = Ok(value: T) | NotFound

  /** Direction of the obligation. */
  datatype DebtType = IOwe | TheyOwe

  /** The currencies a debt may be recorded in; TRY is the base currency. */
  datatype Currency = TRY | USD | EUR {

    /** The ISO code the service uses on the wire and as the feed's key. */
    function Code(): string {
      match this
      case TRY => "TRY"
      case USD => "USD"
      case EUR => "EUR"
    }
  }

  datatype DebtCategory =
    | PersonalLoan
    | Rent
    | SharedExpense
    | BusinessLoan
    | Education
    | Other

  /** Payment status. `PartiallyPaid` is a declared value that no operation
      of the service ever assigns. */
  datatype DebtStatus = Active | Paid | PartiallyPaid

  /** Microseconds since the epoch, UTC. */
  type Timestamp = int

  /** A stored debt record. */
  datatype Debt = Debt(
    id: string,
    userId: string,
    debtType: DebtType,
    personName: string,
    amount: real,
    currency: Currency,
    amountInTry: real,
    description: string,
    category: DebtCategory,
    status: DebtStatus,
    dueDate: Option<Timestamp>,
    createdAt: Timestamp,
    updatedAt: Timestamp,
    paidAt: Option<Timestamp>
  )

  /** The body of a create request. */
  datatype DebtCreate = DebtCreate(
    debtType: DebtType,
    personName: string,
    amount: real,
    currency: Currency,
    description: string,
    category: DebtCategory,
    dueDate: Option<Timestamp>
  )

  /** The body of a partial update. `None` means the field was not sent.
      The due date is itself optional, so sending it as null (`Some(None)`)
      clears it. */
  datatype DebtUpdate = DebtUpdate(
    personName: Option<string>,
    amount: Option<real>,
    currency: Option<Currency>,
    description: Option<string>,
    category: Option<DebtCategory>,
    dueDate: Option<Option<Timestamp>>
  )

  /** The summary returned by the dashboard endpoint. */
  datatype DashboardStats = DashboardStats(
    totalOwed: real,
    totalToCollect: real,
    netBalance: real,
    personOweMost: Option<string>,
    personOweMostAmount: real,
    mostOverdueDebt: Option<string>,
    mostOverdueDays: int,
    activeDebtsCount: nat,
    overdueDebtsCount: nat
  )
}
