/** The loan record: its schema bounds, its status rule and its pre-save hook. */
module LoanModel {
  import opened Wrappers
  import opened Ids

  /** The `status` enum of the loan schema. */
  datatype Status = Pending | Paid | Overdue

  /** The value the schema gives `status` when none is supplied. */
  const DefaultStatus: Status := Pending

  function StatusName(st: Status): string {
    match st
    case Pending => "pending"
    case Paid => "paid"
    case Overdue => "overdue"
  }

  /** Reads a status given as text (a query parameter); text outside the enum is no status. */
  function ParseStatus(s: string): (r: Option<Status>)
    ensures r.Some? ==> StatusName(r.value) == s
    ensures r.None? ==> forall st: Status :: StatusName(st) != s
  {
    if s == "pending" then Some(Pending)
    else if s == "paid" then Some(Paid)
    else if s == "overdue" then Some(Overdue)
    else None
  }

  /** One entry of a loan's repayment history. */
  datatype Repayment = Repayment(amount: int, date: Millis, notes: string)

  /** A loan as the store holds it. */
  datatype LoanDoc = LoanDoc(
    id: LoanId,
    amount: int,
    description: Option<string>,
    dueDate: Millis,
    status: Status,
    remainingAmount: int,
    customer: CustomerId,
    user: UserId,
    repayments: seq<Repayment>,
    createdAt: Millis)

  /** The schema bounds: `amount` at least 1, `remainingAmount` at least 0, every repayment
      amount at least 1 (the enum bound on `status` is carried by the type). */
  predicate SchemaValid(d: LoanDoc) {
    && d.amount >= 1
    && d.remainingAmount >= 0
    && forall i :: 0 <= i < |d.repayments| ==> d.repayments[i].amount >= 1
  }

  /** The sum of the repayment amounts, accumulated from the first entry to the last. */
  function Collected(rs: seq<Repayment>): int {
    if rs == [] then 0 else Collected(rs[..|rs| - 1]) + rs[|rs| - 1].amount
  }

  function Max0(x: int): int {
    if x < 0 then 0 else x
  }

  /** The status rule of `updateStatus`, with the wall clock read given as `now`. */
  function DeriveStatus(remaining: int, dueDate: Millis, now: Millis): (st: Status)
    ensures st == Paid <==> remaining <= 0
    ensures st == Overdue <==> remaining > 0 && now > dueDate
    ensures st == Pending <==> remaining > 0 && now <= dueDate
  {
    if remaining <= 0 then Paid
    else if now > dueDate then Overdue
    else Pending
  }

  /** The balance is the amount minus what was repaid, floored at zero. */
  predicate BalanceConsistent(d: LoanDoc) {
    d.remainingAmount == Max0(d.amount - Collected(d.repayments))
  }

  /** The stored status may lag behind the clock, but never behind the balance:
      it says `paid` exactly when nothing is left to repay. */
  predicate StatusCoherent(d: LoanDoc) {
    (d.status == Paid) == (d.remainingAmount <= 0)
  }

  /** What every stored loan satisfies. */
  predicate Invariant(d: LoanDoc) {
    SchemaValid(d) && BalanceConsistent(d) && StatusCoherent(d)
  }

  /** The loan after its status has been recomputed at `now`. */
  function Refreshed(d: LoanDoc, now: Millis): LoanDoc {
    d.(status := DeriveStatus(d.remainingAmount, d.dueDate, now))
  }

  /** A status derived from a balance says `paid` exactly when nothing is left to repay. */
  lemma DerivedStatusCoherent(d: LoanDoc, now: Millis)
    ensures StatusCoherent(Refreshed(d, now))
    ensures Refreshed(Refreshed(d, now), now) == Refreshed(d, now)
  {
  }

  /** Refreshing changes the status only, so it keeps a loan's invariant. */
  lemma RefreshKeepsInvariant(d: LoanDoc, now: Millis)
    requires Invariant(d)
    ensures Invariant(Refreshed(d, now))
  {
  }

  /** Once overdue, a loan stays overdue as time passes while its balance does not move. */
  lemma OverdueStaysOverdue(remaining: int, dueDate: Millis, now: Millis, later: Millis)
    requires now <= later
    requires DeriveStatus(remaining, dueDate, now) == Overdue
    ensures DeriveStatus(remaining, dueDate, later) == Overdue
  {
  }

  /** When every entry is at least 1 (the schema bound), what was collected is at least the
      number of entries. */
  lemma {:induction false} CollectedAtLeastCount(rs: seq<Repayment>)
    requires forall i :: 0 <= i < |rs| ==> rs[i].amount >= 1
    ensures Collected(rs) >= |rs|
  {
    if rs != [] {
      CollectedAtLeastCount(rs[..|rs| - 1]);
    }
  }

  /** The repayment history after appending one entry. */
  lemma {:induction false} CollectedAppend(rs: seq<Repayment>, r: Repayment)
    ensures Collected(rs + [r]) == Collected(rs) + r.amount
  {
    assert (rs + [r])[..|rs|] == rs;
  }

  /** The in-memory document of a loan, whose fields the controller updates in place. */
  class Loan {
    const id: LoanId
    const amount: int
    const description: Option<string>
    const dueDate: Millis
    const customer: CustomerId
    const user: UserId
    const createdAt: Millis
    var status: Status
    var remainingAmount: int
    var repayments: seq<Repayment>
    /** True until the document has been saved once. */
    var isNew: bool

    /** The record this document would be saved as. */
    function Snapshot(): LoanDoc
      reads this
    {
      LoanDoc(id, amount, description, dueDate, status, remainingAmount,
              customer, user, repayments, createdAt)
    }

    /** A document loaded from the store. */
    constructor Load(d: LoanDoc)
      ensures Snapshot() == d && !isNew
    {
      id, amount, description, dueDate := d.id, d.amount, d.description, d.dueDate;
      customer, user, createdAt := d.customer, d.user, d.createdAt;
      status, remainingAmount, repayments := d.status, d.remainingAmount, d.repayments;
      isNew := false;
    }

    /** A document not yet saved, built from the values it is created with. */
    constructor New(d: LoanDoc)
      ensures Snapshot() == d && isNew
    {
      id, amount, description, dueDate := d.id, d.amount, d.description, d.dueDate;
      customer, user, createdAt := d.customer, d.user, d.createdAt;
      status, remainingAmount, repayments := d.status, d.remainingAmount, d.repayments;
      isNew := true;
    }

    /** `updateStatus`: stores and returns `paid` when nothing is left to repay, else `overdue`
        when `now` is past the due date, else `pending`; nothing but `status` changes, and a
        second call at the same `now` changes nothing. */
    method UpdateStatus(now: Millis) returns (st: Status)
      modifies this`status
      ensures st == status == DeriveStatus(remainingAmount, dueDate, now)
      ensures remainingAmount <= 0 ==> st == Paid
      ensures remainingAmount > 0 && now > dueDate ==> st == Overdue
      ensures remainingAmount > 0 && now <= dueDate ==> st == Pending
      ensures old(status) == DeriveStatus(remainingAmount, dueDate, now) ==> status == old(status)
    {
      if remainingAmount <= 0 {
        status := Paid;
      } else if now > dueDate {
        status := Overdue;
      } else {
        status := Pending;
      }
      st := status;
    }

    /** The `pre('save')` hook: a new document's balance is set to its amount, whatever was
        supplied; a document saved before keeps its balance. */
    method PreSave()
      modifies this`remainingAmount
      ensures remainingAmount == if isNew then amount else old(remainingAmount)
    {
      if isNew {
        remainingAmount := amount;
      }
    }
  }
}
