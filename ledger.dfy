/** The customer ledger: each customer's credit and repaid totals against the loans the
    store holds for that customer. */
module Ledger {
  import opened Ids
  import opened LoanModel
  import opened CustomerModel

  /** What one loan adds to customer `c`'s credit total. */
  function CreditShare(c: CustomerId, d: LoanDoc): int {
    if d.customer == c then d.amount else 0
  }

  /** What one loan adds to customer `c`'s repaid total. */
  function RepaidShare(c: CustomerId, d: LoanDoc): int {
    if d.customer == c then Collected(d.repayments) else 0
  }

  /** The sum of the amounts of customer `c`'s loans. */
  function CreditOf(c: CustomerId, ls: seq<LoanDoc>): int {
    if ls == [] then 0 else CreditOf(c, ls[..|ls| - 1]) + CreditShare(c, ls[|ls| - 1])
  }

  /** The sum of what was repaid on customer `c`'s loans. */
  function RepaidOf(c: CustomerId, ls: seq<LoanDoc>): int {
    if ls == [] then 0 else RepaidOf(c, ls[..|ls| - 1]) + RepaidShare(c, ls[|ls| - 1])
  }

  /** Every customer's totals agree with the loans held for that customer. */
  ghost predicate LedgerConsistent(customers: map<CustomerId, Customer>, ls: seq<LoanDoc>) {
    forall c :: c in customers ==>
      customers[c].totalCredit == CreditOf(c, ls) && customers[c].totalRepaid == RepaidOf(c, ls)
  }

  /** Adding a loan adds its share to each total. */
  lemma SharesOfAppend(c: CustomerId, ls: seq<LoanDoc>, d: LoanDoc)
    ensures CreditOf(c, ls + [d]) == CreditOf(c, ls) + CreditShare(c, d)
    ensures RepaidOf(c, ls + [d]) == RepaidOf(c, ls) + RepaidShare(c, d)
  {
    assert (ls + [d])[..|ls|] == ls;
  }

  /** Replacing one loan changes each total by the difference of the two shares. */
  lemma {:induction false} SharesOfReplace(c: CustomerId, ls: seq<LoanDoc>, k: nat, d: LoanDoc)
    requires k < |ls|
    ensures CreditOf(c, ls[k := d]) == CreditOf(c, ls) - CreditShare(c, ls[k]) + CreditShare(c, d)
    ensures RepaidOf(c, ls[k := d]) == RepaidOf(c, ls) - RepaidShare(c, ls[k]) + RepaidShare(c, d)
  {
    var n := |ls|;
    if k == n - 1 {
      assert ls[k := d][..n - 1] == ls[..n - 1];
    } else {
      assert ls[k := d][..n - 1] == ls[..n - 1][k := d];
      SharesOfReplace(c, ls[..n - 1], k, d);
    }
  }

  /** A customer with no loans has nothing credited and nothing repaid. */
  lemma {:induction false} NoLoansNoShares(c: CustomerId, ls: seq<LoanDoc>)
    requires forall i :: 0 <= i < |ls| ==> ls[i].customer != c
    ensures CreditOf(c, ls) == 0 && RepaidOf(c, ls) == 0
  {
    if ls != [] {
      NoLoansNoShares(c, ls[..|ls| - 1]);
    }
  }

  /** A customer created without totals (so with the schema defaults 0) and holding no loans
      keeps the ledger consistent. */
  lemma NewCustomerKeepsLedger(customers: map<CustomerId, Customer>, ls: seq<LoanDoc>,
                               c: CustomerId, input: CustomerInput, isMobilePhone: string -> bool,
                               now: Millis)
    requires LedgerConsistent(customers, ls)
    requires forall i :: 0 <= i < |ls| ==> ls[i].customer != c
    requires NewCustomer(input, isMobilePhone, now).Success?
    requires input.totalCredit.None? && input.totalRepaid.None?
    ensures LedgerConsistent(customers[c := NewCustomer(input, isMobilePhone, now).value], ls)
  {
    NewCustomerDefaults(input, isMobilePhone, now);
    NoLoansNoShares(c, ls);
  }

  /** Creating a loan with no repayments while crediting its amount to its customer keeps the
      ledger consistent. */
  lemma LedgerAfterCreate(customers: map<CustomerId, Customer>, ls: seq<LoanDoc>, d: LoanDoc)
    requires LedgerConsistent(customers, ls)
    requires d.customer in customers && d.repayments == []
    ensures var cust := customers[d.customer];
      LedgerConsistent(customers[d.customer := cust.(totalCredit := cust.totalCredit + d.amount)], ls + [d])
  {
    forall c | true
      ensures CreditOf(c, ls + [d]) == CreditOf(c, ls) + CreditShare(c, d)
      ensures RepaidOf(c, ls + [d]) == RepaidOf(c, ls)
    {
      SharesOfAppend(c, ls, d);
    }
  }

  /** Replacing a loan by one with the same customer, amount and repayments (a status
      refresh) leaves every total as it was. */
  lemma LedgerAfterRefresh(customers: map<CustomerId, Customer>, ls: seq<LoanDoc>, k: nat, d: LoanDoc)
    requires LedgerConsistent(customers, ls)
    requires k < |ls|
    requires d.customer == ls[k].customer && d.amount == ls[k].amount && d.repayments == ls[k].repayments
    ensures LedgerConsistent(customers, ls[k := d])
  {
    forall c | true
      ensures CreditOf(c, ls[k := d]) == CreditOf(c, ls) && RepaidOf(c, ls[k := d]) == RepaidOf(c, ls)
    {
      SharesOfReplace(c, ls, k, d);
    }
  }

  /** Recording a repayment of `a` on a loan while adding `a` to its customer's repaid total
      keeps the ledger consistent; when the customer record is gone, the loan alone changes and
      the ledger of the remaining customers stays consistent. */
  lemma LedgerAfterRepayment(customers: map<CustomerId, Customer>, ls: seq<LoanDoc>, k: nat,
                             d: LoanDoc, a: int)
    requires LedgerConsistent(customers, ls)
    requires k < |ls|
    requires d.customer == ls[k].customer && d.amount == ls[k].amount
    requires Collected(d.repayments) == Collected(ls[k].repayments) + a
    ensures var c := d.customer;
      c in customers ==>
        LedgerConsistent(customers[c := customers[c].(totalRepaid := customers[c].totalRepaid + a)], ls[k := d])
    ensures d.customer !in customers ==> LedgerConsistent(customers, ls[k := d])
  {
    forall c | true
      ensures CreditOf(c, ls[k := d]) == CreditOf(c, ls)
      ensures RepaidOf(c, ls[k := d]) == RepaidOf(c, ls) + (if c == d.customer then a else 0)
    {
      SharesOfReplace(c, ls, k, d);
    }
  }
}
