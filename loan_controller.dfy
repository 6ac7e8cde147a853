/** The loan operations a shopkeeper calls: create a loan, record a repayment, read loans
    (refreshing their stored status), the portfolio summary and the overdue list. */
module LoanController {
  import opened Wrappers
  import opened Ids
  import opened Text
  import opened LoanModel
  import opened CustomerModel
  import opened Portfolio
  import opened Ledger

  /** Why an operation is refused. `NotFound` covers both an absent record and one that
      belongs to another user. `CustomerMissing` is the failure after a repayment was saved on
      a loan whose customer record no longer exists. */
  datatype Error = InvalidAmount | NotFound | ValidationFailed | CustomerMissing

  /** The fields of a create-loan request body that reach the stored loan. */
  datatype LoanBody = LoanBody(
    customer: CustomerId,
    amount: Option<int>,
    description: Option<string>,
    dueDate: Option<Millis>,
    status: Option<Status>,
    repayments: seq<Repayment>)

  /** The loan schema accepts the body: an amount of at least 1 and a due date. */
  predicate CreatableBody(b: LoanBody) {
    b.amount.Some? && b.amount.value >= 1 && b.dueDate.Some?
  }

  /** The loan schema accepts the body as the code passes it: besides an amount and a due
      date, every repayment the body carries has an amount of at least 1. */
  predicate CreatableBodyAsWritten(b: LoanBody) {
    && CreatableBody(b)
    && forall i :: 0 <= i < |b.repayments| ==> b.repayments[i].amount >= 1
  }

  function StoredDescription(b: LoanBody): Option<string> {
    if b.description.Some? then Some(Trim(b.description.value)) else None
  }

  /** The loan `createLoan` is evidently meant to store: it owes its whole amount, has nothing
      repaid, holds the default status and satisfies the loan invariant, whatever else the body
      holds. */
  function CreatedLoan(id: LoanId, user: UserId, b: LoanBody, now: Millis): (d: LoanDoc)
    requires CreatableBody(b)
    ensures d.remainingAmount == d.amount == b.amount.value
    ensures d.repayments == [] && Collected(d.repayments) == 0 && d.status == Pending
    ensures Invariant(d)
    ensures d.id == id && d.user == user && d.customer == b.customer && d.createdAt == now
  {
    LoanDoc(id, b.amount.value, StoredDescription(b), b.dueDate.value, DefaultStatus,
            b.amount.value, b.customer, user, [], now)
  }

  /** The loan `createLoan` stores as written: the whole body is copied into the new loan, so
      a `status` or `repayments` supplied by the client is stored as given. The balance is
      still the whole amount, so it agrees with the repayments only when there are none, and
      the status agrees with it only when it is not `paid`; the schema bounds still hold. */
  function CreatedLoanAsWritten(id: LoanId, user: UserId, b: LoanBody, now: Millis): (d: LoanDoc)
    requires CreatableBodyAsWritten(b)
    ensures d.repayments == b.repayments && d.remainingAmount == d.amount
    ensures SchemaValid(d)
    ensures BalanceConsistent(d) <==> b.repayments == []
    ensures StatusCoherent(d) <==> d.status != Paid
  {
    CollectedAtLeastCount(b.repayments);
    LoanDoc(id, b.amount.value, StoredDescription(b), b.dueDate.value, b.status.GetOr(DefaultStatus),
            b.amount.value, b.customer, user, b.repayments, now)
  }

  /** As written, a body carrying a repayment of the full amount and the status `paid` yields
      a stored loan whose balance ignores that repayment and whose status says `paid` while the
      whole amount is owed. */
  lemma CreatedLoanAsWrittenBreaksBalance()
    ensures var b := LoanBody(4, Some(100), None, Some(0), Some(Paid), [Repayment(100, 0, "")]);
      var d := CreatedLoanAsWritten(1, 2, b, 0);
      && CreatableBodyAsWritten(b)
      && d.remainingAmount == 100 && Collected(d.repayments) == 100
      && !BalanceConsistent(d) && !StatusCoherent(d)
  {
    assert [Repayment(100, 0, "")][..0] == [];
  }

  /** The `notes || ''` of a repayment. */
  function NotesOrEmpty(notes: Option<string>): string {
    notes.GetOr("")
  }

  /** The repayment check: a missing, zero or negative amount is refused. */
  predicate ValidRepaymentAmount(amount: Option<int>) {
    amount.Some? && amount.value > 0
  }

  /** The loan after a repayment of `amount` recorded at `now`. */
  function Repaid(d: LoanDoc, amount: int, notes: string, now: Millis): LoanDoc {
    var remaining := Max0(d.remainingAmount - amount);
    d.(repayments := d.repayments + [Repayment(amount, now, notes)],
       remainingAmount := remaining,
       status := DeriveStatus(remaining, d.dueDate, now))
  }

  /** A repayment appends exactly one entry after the earlier ones, lowers the balance by the
      amount but never below 0 (an overpayment settles the loan), and changes nothing else. */
  lemma RepaymentEffect(d: LoanDoc, amount: int, notes: string, now: Millis)
    requires amount >= 1 && d.remainingAmount >= 0
    ensures var r := Repaid(d, amount, notes, now);
      && |r.repayments| == |d.repayments| + 1
      && r.repayments[..|d.repayments|] == d.repayments
      && r.repayments[|d.repayments|] == Repayment(amount, now, notes)
      && 0 <= r.remainingAmount < d.remainingAmount + amount
      && (amount >= d.remainingAmount ==> r.remainingAmount == 0 && r.status == Paid)
      && (amount < d.remainingAmount ==> r.remainingAmount == d.remainingAmount - amount && r.status != Paid)
      && r.(repayments := d.repayments, remainingAmount := d.remainingAmount, status := d.status) == d
  {
  }

  /** A repayment keeps the loan invariant: the balance is still the amount minus everything
      repaid, floored at 0, and the status agrees with it. */
  lemma RepaymentKeepsInvariant(d: LoanDoc, amount: int, notes: string, now: Millis)
    requires Invariant(d) && amount >= 1
    ensures Invariant(Repaid(d, amount, notes, now))
    ensures Collected(Repaid(d, amount, notes, now).repayments) == Collected(d.repayments) + amount
  {
    CollectedAppend(d.repayments, Repayment(amount, now, notes));
  }

  /** `findOne({ _id: id, user: user })`: where the user's loan with that id is held. */
  function FindLoan(ls: seq<LoanDoc>, id: LoanId, user: UserId): (r: Option<nat>)
    ensures r.Some? ==> r.value < |ls| && ls[r.value].id == id && ls[r.value].user == user
    ensures r.None? ==> forall i :: 0 <= i < |ls| ==> !(ls[i].id == id && ls[i].user == user)
  {
    if ls == [] then None
    else if ls[|ls| - 1].id == id && ls[|ls| - 1].user == user then Some(|ls| - 1)
    else
      var r := FindLoan(ls[..|ls| - 1], id, user);
      assert forall i :: 0 <= i < |ls| - 1 ==> ls[..|ls| - 1][i] == ls[i];
      r
  }

  /** `find({ user: user })`: the user's loans in store order. */
  function Owned(ls: seq<LoanDoc>, user: UserId): (r: seq<LoanDoc>)
    ensures forall x :: x in r ==> x in ls && x.user == user
    ensures forall i :: 0 <= i < |ls| && ls[i].user == user ==> ls[i] in r
  {
    if ls == [] then []
    else
      var r0 := Owned(ls[..|ls| - 1], user);
      assert forall i :: 0 <= i < |ls| - 1 ==> ls[..|ls| - 1][i] == ls[i];
      r0 + (if ls[|ls| - 1].user == user then [ls[|ls| - 1]] else [])
  }

  /** The query of `getAllLoans`: the user, plus a stored status and a customer when asked. */
  datatype LoanQuery = LoanQuery(user: UserId, status: Option<Status>, customer: Option<CustomerId>)

  /** A status filter outside the enum, or an empty one, is ignored. */
  function QueryOf(user: UserId, status: Option<string>, customer: Option<CustomerId>): (q: LoanQuery)
    ensures q.user == user && q.customer == customer
    ensures q.status.Some? <==> status.Some? && status.value in ["pending", "paid", "overdue"]
    ensures q.status.Some? ==> StatusName(q.status.value) == status.value
  {
    LoanQuery(user, if status.Some? then ParseStatus(status.value) else None, customer)
  }

  predicate Matches(d: LoanDoc, q: LoanQuery) {
    && d.user == q.user
    && (q.status.None? || d.status == q.status.value)
    && (q.customer.None? || d.customer == q.customer.value)
  }

  function Select(ls: seq<LoanDoc>, q: LoanQuery): seq<LoanDoc> {
    if ls == [] then []
    else Select(ls[..|ls| - 1], q) + (if Matches(ls[|ls| - 1], q) then [ls[|ls| - 1]] else [])
  }

  function RefreshAll(ls: seq<LoanDoc>, now: Millis): seq<LoanDoc> {
    if ls == [] then [] else RefreshAll(ls[..|ls| - 1], now) + [Refreshed(ls[|ls| - 1], now)]
  }

  /** How many of the loans hold a status that differs from the one derived at `now`. */
  function StaleCount(ls: seq<LoanDoc>, now: Millis): nat {
    if ls == [] then 0
    else StaleCount(ls[..|ls| - 1], now) + (if Refreshed(ls[|ls| - 1], now) == ls[|ls| - 1] then 0 else 1)
  }

  /** The query of `getOverdueLoans`: the user's loans with a positive balance. */
  predicate OverdueCandidate(d: LoanDoc, user: UserId) {
    d.user == user && d.remainingAmount > 0
  }

  function Candidates(ls: seq<LoanDoc>, user: UserId): seq<LoanDoc> {
    if ls == [] then []
    else Candidates(ls[..|ls| - 1], user) + (if OverdueCandidate(ls[|ls| - 1], user) then [ls[|ls| - 1]] else [])
  }

  /** A candidate that is overdue at `now`: the loans `getOverdueLoans` returns. */
  predicate OverdueHit(d: LoanDoc, user: UserId, now: Millis) {
    OverdueCandidate(d, user) && DeriveStatus(d.remainingAmount, d.dueDate, now) == Overdue
  }

  /** A candidate that is overdue at `now` but not stored as overdue: the loans that
      `getOverdueLoans` saves. */
  predicate NewlyOverdue(d: LoanDoc, user: UserId, now: Millis) {
    OverdueHit(d, user, now) && d.status != Overdue
  }

  function NewlyOverdueCount(ls: seq<LoanDoc>, user: UserId, now: Millis): nat {
    if ls == [] then 0
    else NewlyOverdueCount(ls[..|ls| - 1], user, now) + (if NewlyOverdue(ls[|ls| - 1], user, now) then 1 else 0)
  }

  /** One more loan of the store taken into the `getAllLoans` query. */
  lemma SelectStep(ls: seq<LoanDoc>, j: nat, q: LoanQuery, now: Millis)
    requires j < |ls|
    ensures var sel := if Matches(ls[j], q) then [ls[j]] else [];
      && Select(ls[..j + 1], q) == Select(ls[..j], q) + sel
      && RefreshAll(Select(ls[..j + 1], q), now) == RefreshAll(Select(ls[..j], q), now) + RefreshAll(sel, now)
      && StaleCount(Select(ls[..j + 1], q), now) == StaleCount(Select(ls[..j], q), now) + StaleCount(sel, now)
  {
    assert ls[..j + 1][..j] == ls[..j];
    var x := Select(ls[..j], q);
    if Matches(ls[j], q) {
      assert (x + [ls[j]])[..|x|] == x;
      assert [ls[j]][..0] == [];
    } else {
      assert x + [] == x;
    }
  }

  /** One more loan of the store taken into the `getOverdueLoans` query. */
  lemma CandidatesStep(ls: seq<LoanDoc>, j: nat, user: UserId, now: Millis)
    requires j < |ls|
    ensures var c := if OverdueCandidate(ls[j], user) then [ls[j]] else [];
      && OverdueLoans(Candidates(ls[..j + 1], user), now) == OverdueLoans(Candidates(ls[..j], user), now) + OverdueLoans(c, now)
      && NewlyOverdueCount(ls[..j + 1], user, now) == NewlyOverdueCount(ls[..j], user, now) + (if NewlyOverdue(ls[j], user, now) then 1 else 0)
      && (OverdueCandidate(ls[j], user) ==>
            OverdueLoans(c, now) == if DeriveStatus(ls[j].remainingAmount, ls[j].dueDate, now) == Overdue then [Refreshed(ls[j], now)] else [])
  {
    assert ls[..j + 1][..j] == ls[..j];
    var c := if OverdueCandidate(ls[j], user) then [ls[j]] else [];
    OverdueLoansOfConcat(Candidates(ls[..j], user), c, now);
    assert [ls[j]][..0] == [];
  }

  /** The positive-balance pre-filter of `getOverdueLoans` never drops an overdue loan: the
      result is the overdue list of all the user's loans. */
  lemma {:induction false} CandidatesKeepOverdue(ls: seq<LoanDoc>, user: UserId, now: Millis)
    ensures OverdueLoans(Candidates(ls, user), now) == OverdueLoans(Owned(ls, user), now)
  {
    if ls != [] {
      var init, d := ls[..|ls| - 1], ls[|ls| - 1];
      CandidatesKeepOverdue(init, user, now);
      var c := if OverdueCandidate(d, user) then [d] else [];
      var o := if d.user == user then [d] else [];
      OverdueLoansOfConcat(Candidates(init, user), c, now);
      OverdueLoansOfConcat(Owned(init, user), o, now);
      assert [d][..0] == [];
    }
  }

  /** The shared store of customers and loans. Loans are held in insertion order, which is
      the order the queries return them in. */
  class Store {
    var customers: map<CustomerId, Customer>
    var loans: seq<LoanDoc>
    var nextLoanId: LoanId
    /** How many loan documents have been written. */
    ghost var writes: nat

    /** Loan ids are unique and below the next one handed out, and every loan keeps the loan
        invariant. */
    ghost predicate Valid()
      reads this
    {
      && (forall i, j :: 0 <= i < j < |loans| ==> loans[i].id != loans[j].id)
      && (forall i :: 0 <= i < |loans| ==> loans[i].id < nextLoanId && Invariant(loans[i]))
    }

    constructor (customers: map<CustomerId, Customer>)
      ensures Valid() && this.customers == customers && loans == [] && writes == 0
    {
      this.customers := customers;
      loans := [];
      nextLoanId := 0;
      writes := 0;
    }

    /** `save()` of a new loan document: the pre-save hook sets the balance to the amount and
        the record is added after the others. */
    method Insert(loan: Loan)
      requires loan.isNew
      modifies this, loan
      ensures loan.remainingAmount == loan.amount && !loan.isNew
      ensures loan.status == old(loan.status) && loan.repayments == old(loan.repayments)
      ensures loans == old(loans) + [loan.Snapshot()]
      ensures writes == old(writes) + 1
      ensures customers == old(customers) && nextLoanId == old(nextLoanId)
    {
      loan.PreSave();
      loans := loans + [loan.Snapshot()];
      writes := writes + 1;
      loan.isNew := false;
    }

    /** `save()` of a loan document loaded from position `k`: the pre-save hook leaves it
        as it is and the record at `k` is overwritten. */
    method SaveExisting(loan: Loan, k: nat)
      requires !loan.isNew && k < |loans|
      modifies this, loan
      ensures loan.Snapshot() == old(loan.Snapshot()) && !loan.isNew
      ensures loans == old(loans)[k := loan.Snapshot()]
      ensures writes == old(writes) + 1
      ensures customers == old(customers) && nextLoanId == old(nextLoanId)
    {
      loan.PreSave();
      loans := loans[k := loan.Snapshot()];
      writes := writes + 1;
    }

    /** `createLoan`. Refused with `NotFound`, changing nothing, unless the customer exists and
        belongs to the user; refused with `ValidationFailed`, changing nothing, when the body
        has no amount of at least 1 or no due date. Otherwise the new loan owes its whole
        amount and the customer's credit total grows by exactly that amount. */
    method CreateLoan(user: UserId, body: LoanBody, now: Millis) returns (r: Result<LoanDoc, Error>)
      requires Valid()
      modifies this
      ensures Valid()
      ensures !(body.customer in old(customers) && old(customers)[body.customer].user == user)
              ==> r == Failure(NotFound) && unchanged(this)
      ensures body.customer in old(customers) && old(customers)[body.customer].user == user
              && !CreatableBody(body)
              ==> r == Failure(ValidationFailed) && unchanged(this)
      ensures body.customer in old(customers) && old(customers)[body.customer].user == user
              && CreatableBody(body) ==>
                var c, amount := body.customer, body.amount.value;
                && r == Success(CreatedLoan(old(nextLoanId), user, body, now))
                && r.value.remainingAmount == amount
                && loans == old(loans) + [r.value]
                && customers == old(customers)[c := old(customers)[c].(totalCredit := old(customers)[c].totalCredit + amount)]
                && writes == old(writes) + 1
      ensures old(LedgerConsistent(customers, loans)) ==> LedgerConsistent(customers, loans)
    {
      if !(body.customer in customers && customers[body.customer].user == user) {
        return Failure(NotFound);
      }
      if !CreatableBody(body) {
        return Failure(ValidationFailed);
      }
      var amount := body.amount.value;
      var loan := new Loan.New(CreatedLoan(nextLoanId, user, body, now));
      nextLoanId := nextLoanId + 1;
      Insert(loan);
      var customer := customers[body.customer];
      customers := customers[body.customer := customer.(totalCredit := customer.totalCredit + amount)];
      r := Success(loan.Snapshot());
      if old(LedgerConsistent(customers, loans)) {
        LedgerAfterCreate(old(customers), old(loans), r.value);
      }
    }

    /** The loan half of a repayment: the entry is appended, the balance lowered and floored
        at 0, the status derived at `now`, and the loan saved. */
    method RepayAt(k: nat, amount: int, notes: string, now: Millis) returns (d: LoanDoc)
      requires Valid() && k < |loans| && amount >= 1
      modifies this
      ensures Valid()
      ensures d == Repaid(old(loans)[k], amount, notes, now)
      ensures Collected(d.repayments) == Collected(old(loans)[k].repayments) + amount
      ensures loans == old(loans)[k := d]
      ensures writes == old(writes) + 1
      ensures customers == old(customers) && nextLoanId == old(nextLoanId)
    {
      var loan := new Loan.Load(loans[k]);
      loan.repayments := loan.repayments + [Repayment(amount, now, notes)];
      loan.remainingAmount := Max0(loan.remainingAmount - amount);
      var _ := loan.UpdateStatus(now);
      SaveExisting(loan, k);
      d := loan.Snapshot();
      RepaymentKeepsInvariant(old(loans)[k], amount, notes, now);
    }

    /** `recordRepayment`. A missing or non-positive amount is refused before anything is
        read; a loan not held for the user is `NotFound`; both change nothing. Otherwise the
        loan is saved repaid, and the repayment is added to its customer's repaid total, or,
        when that customer record is gone, `CustomerMissing` is reported with the loan
        already saved. */
    method RecordRepayment(user: UserId, id: LoanId, amount: Option<int>, notes: Option<string>, now: Millis)
      returns (r: Result<LoanDoc, Error>)
      requires Valid()
      modifies this
      ensures Valid()
      ensures !ValidRepaymentAmount(amount) ==> r == Failure(InvalidAmount) && unchanged(this)
      ensures ValidRepaymentAmount(amount) && FindLoan(old(loans), id, user).None?
              ==> r == Failure(NotFound) && unchanged(this)
      ensures ValidRepaymentAmount(amount) && FindLoan(old(loans), id, user).Some? ==>
                var k := FindLoan(old(loans), id, user).value;
                var d := Repaid(old(loans)[k], amount.value, NotesOrEmpty(notes), now);
                var c := d.customer;
                && loans == old(loans)[k := d]
                && writes == old(writes) + 1 && nextLoanId == old(nextLoanId)
                && (c in old(customers) ==>
                      r == Success(d)
                      && customers == old(customers)[c := old(customers)[c].(totalRepaid := old(customers)[c].totalRepaid + amount.value)])
                && (c !in old(customers) ==> r == Failure(CustomerMissing) && customers == old(customers))
      ensures old(LedgerConsistent(customers, loans)) ==> LedgerConsistent(customers, loans)
    {
      if amount.None? || amount.value <= 0 {
        return Failure(InvalidAmount);
      }
      var a := amount.value;
      var found := FindLoan(loans, id, user);
      if found.None? {
        return Failure(NotFound);
      }
      var k := found.value;
      var d := RepayAt(k, a, NotesOrEmpty(notes), now);
      if old(LedgerConsistent(customers, loans)) {
        LedgerAfterRepayment(old(customers), old(loans), k, d, a);
      }
      if d.customer !in customers {
        return Failure(CustomerMissing);
      }
      var customer := customers[d.customer];
      customers := customers[d.customer := customer.(totalRepaid := customer.totalRepaid + a)];
      r := Success(d);
    }

    /** The read-time refresh: the loan at `k` gets the status derived at `now`, and is saved
        only when that status differs from the stored one. */
    method Reconcile(k: nat, now: Millis) returns (d: LoanDoc)
      requires Valid() && k < |loans|
      modifies this
      ensures Valid()
      ensures d == Refreshed(old(loans)[k], now)
      ensures loans == old(loans)[k := d]
      ensures writes == old(writes) + (if d == old(loans)[k] then 0 else 1)
      ensures customers == old(customers) && nextLoanId == old(nextLoanId)
      ensures old(LedgerConsistent(customers, loans)) ==> LedgerConsistent(customers, loans)
    {
      var loan := new Loan.Load(loans[k]);
      var original := loan.status;
      var _ := loan.UpdateStatus(now);
      if original != loan.status {
        SaveExisting(loan, k);
      }
      d := loan.Snapshot();
      RefreshKeepsInvariant(old(loans)[k], now);
      if old(LedgerConsistent(customers, loans)) {
        LedgerAfterRefresh(old(customers), old(loans), k, d);
      }
    }

    /** One loan of the overdue list: its status is derived at `now`, and it is saved only
        when it is now overdue and was not stored as overdue. */
    method ReconcileOverdue(k: nat, now: Millis) returns (overdue: bool, d: LoanDoc)
      requires Valid() && k < |loans|
      modifies this
      ensures Valid()
      ensures d == Refreshed(old(loans)[k], now)
      ensures overdue == (d.status == Overdue)
      ensures loans == if overdue then old(loans)[k := d] else old(loans)
      ensures writes == old(writes) + (if overdue && old(loans)[k].status != Overdue then 1 else 0)
      ensures customers == old(customers) && nextLoanId == old(nextLoanId)
      ensures old(LedgerConsistent(customers, loans)) ==> LedgerConsistent(customers, loans)
    {
      var loan := new Loan.Load(loans[k]);
      var original := loan.status;
      var st := loan.UpdateStatus(now);
      overdue := st == Overdue;
      if overdue && original != st {
        SaveExisting(loan, k);
      }
      d := loan.Snapshot();
      RefreshKeepsInvariant(old(loans)[k], now);
      if old(LedgerConsistent(customers, loans)) {
        LedgerAfterRefresh(old(customers), old(loans), k, d);
      }
    }

    /** A `getAllLoans` pass over `orig` has visited its first `j` loans: those the query
        matches hold their refreshed status, all others are as in `orig`. */
    ghost predicate Queried(orig: seq<LoanDoc>, j: nat, q: LoanQuery, now: Millis)
      reads this
    {
      && j <= |loans| == |orig|
      && (forall i :: 0 <= i < j ==>
            loans[i] == if Matches(orig[i], q) then Refreshed(orig[i], now) else orig[i])
      && (forall i :: j <= i < |loans| ==> loans[i] == orig[i])
    }

    /** One loan of a `getAllLoans` pass: returned refreshed, and saved if stale, when the
        query matches it. */
    method QueryAt(ghost orig: seq<LoanDoc>, j: nat, q: LoanQuery, now: Millis) returns (visited: seq<LoanDoc>)
      requires Valid() && j < |loans| && Queried(orig, j, q, now)
      modifies this
      ensures Valid() && Queried(orig, j + 1, q, now)
      ensures var sel := if Matches(orig[j], q) then [orig[j]] else [];
        visited == RefreshAll(sel, now) && writes == old(writes) + StaleCount(sel, now)
      ensures customers == old(customers) && nextLoanId == old(nextLoanId)
      ensures old(LedgerConsistent(customers, loans)) ==> LedgerConsistent(customers, loans)
    {
      assert [orig[j]][..0] == [];
      if Matches(loans[j], q) {
        var d := Reconcile(j, now);
        visited := [d];
      } else {
        visited := [];
      }
    }

    /** A `getOverdueLoans` pass over `orig` has visited its first `j` loans: the user's loans
        overdue at `now` are marked overdue, all others are as in `orig`. */
    ghost predicate Swept(orig: seq<LoanDoc>, j: nat, user: UserId, now: Millis)
      reads this
    {
      && j <= |loans| == |orig|
      && (forall i :: 0 <= i < j ==>
            loans[i] == if OverdueHit(orig[i], user, now) then Refreshed(orig[i], now) else orig[i])
      && (forall i :: j <= i < |loans| ==> loans[i] == orig[i])
    }

    /** One loan of a `getOverdueLoans` pass: returned and, unless already stored as overdue,
        saved when it is the user's, has a balance and is overdue at `now`. */
    method SweepAt(ghost orig: seq<LoanDoc>, j: nat, user: UserId, now: Millis) returns (hit: seq<LoanDoc>)
      requires Valid() && j < |loans| && Swept(orig, j, user, now)
      modifies this
      ensures Valid() && Swept(orig, j + 1, user, now)
      ensures hit == OverdueLoans(if OverdueCandidate(orig[j], user) then [orig[j]] else [], now)
      ensures writes == old(writes) + (if NewlyOverdue(orig[j], user, now) then 1 else 0)
      ensures customers == old(customers) && nextLoanId == old(nextLoanId)
      ensures old(LedgerConsistent(customers, loans)) ==> LedgerConsistent(customers, loans)
    {
      assert [orig[j]][..0] == [];
      hit := [];
      if OverdueCandidate(loans[j], user) {
        var overdue, d := ReconcileOverdue(j, now);
        if overdue {
          hit := [d];
        }
      }
    }

    /** `getLoan`: `NotFound`, changing nothing, unless the user holds a loan with that id;
        otherwise that loan with its status refreshed, saved only if the status changed. */
    method GetLoan(user: UserId, id: LoanId, now: Millis) returns (r: Result<LoanDoc, Error>)
      requires Valid()
      modifies this
      ensures Valid()
      ensures FindLoan(old(loans), id, user).None? ==> r == Failure(NotFound) && unchanged(this)
      ensures FindLoan(old(loans), id, user).Some? ==>
                var k := FindLoan(old(loans), id, user).value;
                var d := Refreshed(old(loans)[k], now);
                && r == Success(d)
                && loans == old(loans)[k := d]
                && writes == old(writes) + (if d == old(loans)[k] then 0 else 1)
                && customers == old(customers) && nextLoanId == old(nextLoanId)
      ensures old(LedgerConsistent(customers, loans)) ==> LedgerConsistent(customers, loans)
    {
      var found := FindLoan(loans, id, user);
      if found.None? {
        return Failure(NotFound);
      }
      var d := Reconcile(found.value, now);
      r := Success(d);
    }

    /** `getAllLoans`: the loans matching the query, in store order, each with its status
        refreshed; exactly the matching loans whose stored status was stale are saved. The
        status filter applies to the status stored before the refresh. */
    method GetAllLoans(user: UserId, status: Option<string>, customer: Option<CustomerId>, now: Millis)
      returns (result: seq<LoanDoc>)
      requires Valid()
      modifies this
      ensures Valid()
      ensures var q := QueryOf(user, status, customer);
        && result == RefreshAll(Select(old(loans), q), now)
        && |loans| == |old(loans)|
        && (forall i :: 0 <= i < |loans| ==>
              loans[i] == if Matches(old(loans)[i], q) then Refreshed(old(loans)[i], now) else old(loans)[i])
        && writes == old(writes) + StaleCount(Select(old(loans), q), now)
      ensures customers == old(customers) && nextLoanId == old(nextLoanId)
      ensures old(LedgerConsistent(customers, loans)) ==> LedgerConsistent(customers, loans)
    {
      var q := QueryOf(user, status, customer);
      ghost var ledger := LedgerConsistent(customers, loans);
      result := [];
      var j := 0;
      while j < |loans|
        invariant Valid() && 0 <= j <= |loans| && Queried(old(loans), j, q, now)
        invariant result == RefreshAll(Select(old(loans)[..j], q), now)
        invariant writes == old(writes) + StaleCount(Select(old(loans)[..j], q), now)
        invariant customers == old(customers) && nextLoanId == old(nextLoanId)
        invariant ledger ==> LedgerConsistent(customers, loans)
      {
        SelectStep(old(loans), j, q, now);
        var visited := QueryAt(old(loans), j, q, now);
        result := result + visited;
        j := j + 1;
      }
      assert old(loans)[..j] == old(loans);
    }

    /** `getOverdueLoans`: the user's loans with a positive balance that are overdue at `now`,
        in store order, each with status `overdue`; of these, the ones not stored as overdue
        are saved, and nothing else changes. */
    method GetOverdueLoans(user: UserId, now: Millis) returns (result: seq<LoanDoc>)
      requires Valid()
      modifies this
      ensures Valid()
      ensures result == OverdueLoans(Candidates(old(loans), user), now)
      ensures |loans| == |old(loans)|
      ensures forall i :: 0 <= i < |loans| ==>
        loans[i] == if OverdueHit(old(loans)[i], user, now) then Refreshed(old(loans)[i], now) else old(loans)[i]
      ensures writes == old(writes) + NewlyOverdueCount(old(loans), user, now)
      ensures customers == old(customers) && nextLoanId == old(nextLoanId)
      ensures old(LedgerConsistent(customers, loans)) ==> LedgerConsistent(customers, loans)
    {
      ghost var ledger := LedgerConsistent(customers, loans);
      result := [];
      var j := 0;
      while j < |loans|
        invariant Valid() && 0 <= j <= |loans| && Swept(old(loans), j, user, now)
        invariant result == OverdueLoans(Candidates(old(loans)[..j], user), now)
        invariant writes == old(writes) + NewlyOverdueCount(old(loans)[..j], user, now)
        invariant customers == old(customers) && nextLoanId == old(nextLoanId)
        invariant ledger ==> LedgerConsistent(customers, loans)
      {
        CandidatesStep(old(loans), j, user, now);
        var hit := SweepAt(old(loans), j, user, now);
        result := result + hit;
        j := j + 1;
      }
      assert old(loans)[..j] == old(loans);
    }

    /** `getSummary`: the summary of the user's loans at `now`; the statuses it derives are
        not saved, so nothing changes. */
    method GetSummary(user: UserId, now: Millis) returns (s: Summary)
      ensures s == Summarize(Owned(loans, user), now)
    {
      var docs := Owned(loans, user);
      var totalLoaned, totalCollected, overdueAmount := 0, 0, 0;
      var repaymentTimes: seq<int> := [];
      var i := 0;
      while i < |docs|
        invariant 0 <= i <= |docs|
        invariant totalLoaned == TotalLoaned(docs[..i])
        invariant totalCollected == TotalCollected(docs[..i])
        invariant overdueAmount == OverdueAmount(docs[..i], now)
        invariant repaymentTimes == RepaymentTimes(docs[..i], now)
      {
        assert docs[..i + 1][..i] == docs[..i];
        var loan := new Loan.Load(docs[i]);
        totalLoaned := totalLoaned + loan.amount;
        var collected := Collected(loan.repayments);
        totalCollected := totalCollected + collected;
        var st := loan.UpdateStatus(now);
        if st == Overdue {
          overdueAmount := overdueAmount + loan.remainingAmount;
        }
        if st == Paid && |loan.repayments| > 0 {
          var last := loan.repayments[|loan.repayments| - 1];
          repaymentTimes := repaymentTimes + [WholeDays(loan.createdAt, last.date)];
        }
        i := i + 1;
      }
      assert docs[..i] == docs;
      s := Summary(totalLoaned, totalCollected, overdueAmount, RoundedMean(repaymentTimes),
                   totalLoaned - totalCollected);
    }
  }
}
