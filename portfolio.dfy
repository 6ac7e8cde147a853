/** The folds over a user's loans behind the summary and the overdue list. */
module Portfolio {
  import opened Wrappers
  import opened Ids
  import opened LoanModel

  /** The sum of the loan amounts. */
  function TotalLoaned(ls: seq<LoanDoc>): int {
    if ls == [] then 0 else TotalLoaned(ls[..|ls| - 1]) + ls[|ls| - 1].amount
  }

  /** The sum, over the loans, of what was repaid on each. */
  function TotalCollected(ls: seq<LoanDoc>): int {
    if ls == [] then 0 else TotalCollected(ls[..|ls| - 1]) + Collected(ls[|ls| - 1].repayments)
  }

  /** The sum of the balances of the loans whose status at `now` is overdue. */
  function OverdueAmount(ls: seq<LoanDoc>, now: Millis): int {
    if ls == [] then 0
    else
      var d := ls[|ls| - 1];
      OverdueAmount(ls[..|ls| - 1], now)
      + (if DeriveStatus(d.remainingAmount, d.dueDate, now) == Overdue then d.remainingAmount else 0)
  }

  /** The sum of the balances. */
  function Outstanding(ls: seq<LoanDoc>): int {
    if ls == [] then 0 else Outstanding(ls[..|ls| - 1]) + ls[|ls| - 1].remainingAmount
  }

  function Sum(xs: seq<int>): int {
    if xs == [] then 0 else Sum(xs[..|xs| - 1]) + xs[|xs| - 1]
  }

  /** moment's `diff(from, 'days')`: whole days from `from` to `to`, truncated toward zero. */
  function WholeDays(from: Millis, to: Millis): int {
    if to >= from then (to - from) / MillisPerDay else -((from - to) / MillisPerDay)
  }

  /** A loan takes part in the repayment-time average when it is paid at `now` and has at
      least one repayment. */
  predicate HasRepaymentTime(d: LoanDoc, now: Millis) {
    DeriveStatus(d.remainingAmount, d.dueDate, now) == Paid && |d.repayments| > 0
  }

  /** Whole days from the loan's creation to its last repayment. */
  function RepaymentTime(d: LoanDoc): int
    requires |d.repayments| > 0
  {
    WholeDays(d.createdAt, d.repayments[|d.repayments| - 1].date)
  }

  /** The repayment times of the loans that take part in the average, in loan order. */
  function RepaymentTimes(ls: seq<LoanDoc>, now: Millis): seq<int> {
    if ls == [] then []
    else
      var d := ls[|ls| - 1];
      RepaymentTimes(ls[..|ls| - 1], now) + (if HasRepaymentTime(d, now) then [RepaymentTime(d)] else [])
  }

  /** `Math.round(sum / n)`: the mean rounded to the nearest integer, halves upward; 0 for
      no values. */
  function RoundedMean(xs: seq<int>): int {
    if xs == [] then 0 else (2 * Sum(xs) + |xs|) / (2 * |xs|)
  }

  /** The figures `getSummary` reports. */
  datatype Summary = Summary(
    totalLoaned: int,
    totalCollected: int,
    overdueAmount: int,
    avgRepaymentTime: int,
    totalPending: int)

  /** The summary of a portfolio. What is pending is what was loaned minus what was
      collected, and the overdue amount is what the overdue list of the same portfolio still
      owes. */
  function Summarize(ls: seq<LoanDoc>, now: Millis): (s: Summary)
    ensures s.totalPending == s.totalLoaned - s.totalCollected
    ensures s.overdueAmount == Outstanding(OverdueLoans(ls, now))
  {
    OverdueAmountIsOverdueList(ls, now);
    Summary(
      TotalLoaned(ls),
      TotalCollected(ls),
      OverdueAmount(ls, now),
      RoundedMean(RepaymentTimes(ls, now)),
      TotalLoaned(ls) - TotalCollected(ls))
  }

  /** The `filter` of `getOverdueLoans`: the loans whose status at `now` is overdue, each with
      that status recorded. */
  function OverdueLoans(ls: seq<LoanDoc>, now: Millis): seq<LoanDoc> {
    if ls == [] then []
    else
      var d := ls[|ls| - 1];
      OverdueLoans(ls[..|ls| - 1], now)
      + (if DeriveStatus(d.remainingAmount, d.dueDate, now) == Overdue then [Refreshed(d, now)] else [])
  }

  /** Every entry of the overdue list is one of the loans, marked overdue, with a positive
      balance past its due date; the list is no longer than the portfolio. */
  lemma {:induction false} OverdueLoansSound(ls: seq<LoanDoc>, now: Millis)
    ensures var r := OverdueLoans(ls, now);
      && |r| <= |ls|
      && (forall x :: x in r ==> x.status == Overdue && x.remainingAmount > 0 && now > x.dueDate)
      && (forall x :: x in r ==> exists i :: 0 <= i < |ls| && x == Refreshed(ls[i], now))
  {
    if ls != [] {
      var init := ls[..|ls| - 1];
      OverdueLoansSound(init, now);
      forall x | x in OverdueLoans(init, now) ensures exists i :: 0 <= i < |ls| && x == Refreshed(ls[i], now) {
        var i :| 0 <= i < |init| && x == Refreshed(init[i], now);
        assert init[i] == ls[i];
      }
    }
  }

  /** Every loan with a positive balance past its due date is on the overdue list. */
  lemma {:induction false} OverdueLoansComplete(ls: seq<LoanDoc>, now: Millis)
    ensures forall i :: 0 <= i < |ls| && ls[i].remainingAmount > 0 && now > ls[i].dueDate ==>
              Refreshed(ls[i], now) in OverdueLoans(ls, now)
  {
    if ls != [] {
      var init := ls[..|ls| - 1];
      OverdueLoansComplete(init, now);
      assert forall i :: 0 <= i < |init| ==> init[i] == ls[i];
    }
  }

  // ---- identities of the folds ----

  /** Splitting a portfolio's last loan off a concatenation. */
  lemma ConcatInit(a: seq<LoanDoc>, b: seq<LoanDoc>)
    requires b != []
    ensures (a + b)[..|a + b| - 1] == a + b[..|b| - 1]
    ensures (a + b)[|a + b| - 1] == b[|b| - 1]
  {
  }

  lemma {:induction false} TotalsOfConcat(a: seq<LoanDoc>, b: seq<LoanDoc>)
    ensures TotalLoaned(a + b) == TotalLoaned(a) + TotalLoaned(b)
    ensures TotalCollected(a + b) == TotalCollected(a) + TotalCollected(b)
    ensures Outstanding(a + b) == Outstanding(a) + Outstanding(b)
  {
    if b == [] {
      assert a + b == a;
    } else {
      ConcatInit(a, b);
      TotalsOfConcat(a, b[..|b| - 1]);
    }
  }

  lemma {:induction false} OverdueAmountOfConcat(a: seq<LoanDoc>, b: seq<LoanDoc>, now: Millis)
    ensures OverdueAmount(a + b, now) == OverdueAmount(a, now) + OverdueAmount(b, now)
  {
    if b == [] {
      assert a + b == a;
    } else {
      ConcatInit(a, b);
      OverdueAmountOfConcat(a, b[..|b| - 1], now);
    }
  }

  lemma {:induction false} RepaymentTimesOfConcat(a: seq<LoanDoc>, b: seq<LoanDoc>, now: Millis)
    ensures RepaymentTimes(a + b, now) == RepaymentTimes(a, now) + RepaymentTimes(b, now)
  {
    if b == [] {
      assert a + b == a;
    } else {
      ConcatInit(a, b);
      RepaymentTimesOfConcat(a, b[..|b| - 1], now);
    }
  }

  lemma {:induction false} OverdueLoansOfConcat(a: seq<LoanDoc>, b: seq<LoanDoc>, now: Millis)
    ensures OverdueLoans(a + b, now) == OverdueLoans(a, now) + OverdueLoans(b, now)
  {
    if b == [] {
      assert a + b == a;
    } else {
      ConcatInit(a, b);
      OverdueLoansOfConcat(a, b[..|b| - 1], now);
    }
  }

  /** The summary of two portfolios put together: every total is the sum of the two, the
      repayment times and the overdue list are the two concatenated, so each keeps the
      loans' order. */
  lemma SummaryOfConcat(a: seq<LoanDoc>, b: seq<LoanDoc>, now: Millis)
    ensures var s, sa, sb := Summarize(a + b, now), Summarize(a, now), Summarize(b, now);
      && s.totalLoaned == sa.totalLoaned + sb.totalLoaned
      && s.totalCollected == sa.totalCollected + sb.totalCollected
      && s.overdueAmount == sa.overdueAmount + sb.overdueAmount
      && s.totalPending == sa.totalPending + sb.totalPending
    ensures RepaymentTimes(a + b, now) == RepaymentTimes(a, now) + RepaymentTimes(b, now)
    ensures OverdueLoans(a + b, now) == OverdueLoans(a, now) + OverdueLoans(b, now)
  {
    TotalsOfConcat(a, b);
    OverdueAmountOfConcat(a, b, now);
    RepaymentTimesOfConcat(a, b, now);
    OverdueLoansOfConcat(a, b, now);
  }

  /** An empty portfolio sums to zero everywhere. */
  lemma SummaryOfNothing(now: Millis)
    ensures Summarize([], now) == Summary(0, 0, 0, 0, 0)
    ensures OverdueLoans([], now) == []
  {
  }

  /** What is still to be collected (loaned minus collected) never exceeds the sum of the
      balances, and equals it when no loan was overpaid. */
  lemma {:induction false} PendingAgainstBalances(ls: seq<LoanDoc>)
    requires forall i :: 0 <= i < |ls| ==> BalanceConsistent(ls[i])
    ensures TotalLoaned(ls) - TotalCollected(ls) <= Outstanding(ls)
    ensures (forall i :: 0 <= i < |ls| ==> Collected(ls[i].repayments) <= ls[i].amount)
            ==> TotalLoaned(ls) - TotalCollected(ls) == Outstanding(ls)
  {
    if ls != [] {
      PendingAgainstBalances(ls[..|ls| - 1]);
    }
  }

  /** The overdue amount of the summary is the sum of the balances of the loans that the
      overdue list returns. */
  lemma {:induction false} OverdueAmountIsOverdueList(ls: seq<LoanDoc>, now: Millis)
    ensures OverdueAmount(ls, now) == Outstanding(OverdueLoans(ls, now))
  {
    if ls != [] {
      var init := ls[..|ls| - 1];
      var d := ls[|ls| - 1];
      OverdueAmountIsOverdueList(init, now);
      var tail := if DeriveStatus(d.remainingAmount, d.dueDate, now) == Overdue then [Refreshed(d, now)] else [];
      TotalsOfConcat(OverdueLoans(init, now), tail);
      assert Outstanding(tail) == OverdueAmount(ls, now) - OverdueAmount(init, now);
    }
  }

  /** With no negative balance, the overdue amount lies between 0 and the sum of the balances. */
  lemma {:induction false} OverdueAmountBounds(ls: seq<LoanDoc>, now: Millis)
    requires forall i :: 0 <= i < |ls| ==> ls[i].remainingAmount >= 0
    ensures 0 <= OverdueAmount(ls, now) <= Outstanding(ls)
  {
    if ls != [] {
      OverdueAmountBounds(ls[..|ls| - 1], now);
    }
  }

  // ---- the average repayment time ----

  /** A repayment made `k` whole days (and less than one more) after creation counts as `k`
      days; one made before creation counts as minus the whole days back. */
  lemma WholeDaysBounds(from: Millis, to: Millis)
    ensures to >= from ==> var k := WholeDays(from, to);
              k >= 0 && k * MillisPerDay <= to - from < (k + 1) * MillisPerDay
    ensures to < from ==> WholeDays(from, to) == -WholeDays(to, from)
  {
  }

  /** The rounded mean is the integer nearest the exact mean, halves rounding up:
      r - 1/2 <= sum / n < r + 1/2. */
  lemma RoundedMeanIsNearest(xs: seq<int>)
    requires xs != []
    ensures var n, r := |xs|, RoundedMean(xs);
              2 * (n * r) - n <= 2 * Sum(xs) < 2 * (n * r) + n
  {
    var n, s := |xs|, Sum(xs);
    var q := (2 * s + n) / (2 * n);
    var m := (2 * s + n) % (2 * n);
    assert 2 * s + n == q * (2 * n) + m && 0 <= m < 2 * n;
    assert 2 * (n * q) == q * (2 * n);
  }

  lemma {:induction false} SumBounds(xs: seq<int>, lo: int, hi: int)
    requires forall i :: 0 <= i < |xs| ==> lo <= xs[i] <= hi
    ensures |xs| * lo <= Sum(xs) <= |xs| * hi
  {
    if xs != [] {
      SumBounds(xs[..|xs| - 1], lo, hi);
      assert |xs| * lo == (|xs| - 1) * lo + lo;
      assert |xs| * hi == (|xs| - 1) * hi + hi;
    }
  }

  /** The average repayment time lies between the smallest and the largest repayment time. */
  lemma RoundedMeanBetween(xs: seq<int>, lo: int, hi: int)
    requires xs != []
    requires forall i :: 0 <= i < |xs| ==> lo <= xs[i] <= hi
    ensures lo <= RoundedMean(xs) <= hi
  {
    RoundedMeanIsNearest(xs);
    SumBounds(xs, lo, hi);
    NearestBetween(|xs|, Sum(xs), RoundedMean(xs), lo, hi);
  }

  /** A nearest whole mean `r` of a total `s` over `n` values, each in `lo..hi`, is in `lo..hi`. */
  lemma NearestBetween(n: int, s: int, r: int, lo: int, hi: int)
    requires n > 0
    requires 2 * (n * r) - n <= 2 * s < 2 * (n * r) + n
    requires n * lo <= s <= n * hi
    ensures lo <= r <= hi
  {
    assert n * (r + 1) == n * r + n && n * (hi + 1) == n * hi + n;
    if r < lo {
      assert n * (r + 1) <= n * lo by { MulLeft(n, r + 1, lo); }
    }
    if r > hi {
      assert n * (hi + 1) <= n * r by { MulLeft(n, hi + 1, r); }
    }
  }

  lemma MulLeft(c: int, a: int, b: int)
    requires c >= 0 && a <= b
    ensures c * a <= c * b
  {
  }

  // ---- worked cases ----

  /** Two loans of 100 and 200, one half repaid and one repaid in full. */
  lemma SummaryExample(now: Millis)
    ensures var ls := [
        LoanDoc(1, 100, None, 0, Pending, 50, 7, 3, [Repayment(50, 0, "")], 0),
        LoanDoc(2, 200, None, 0, Paid, 0, 7, 3, [Repayment(200, 0, "")], 0)];
      var s := Summarize(ls, now);
      s.totalLoaned == 300 && s.totalCollected == 250 && s.totalPending == 50
  {
    var ls := [
        LoanDoc(1, 100, None, 0, Pending, 50, 7, 3, [Repayment(50, 0, "")], 0),
        LoanDoc(2, 200, None, 0, Paid, 0, 7, 3, [Repayment(200, 0, "")], 0)];
    assert ls[..1] == [ls[0]] && ls[..1][..0] == [];
    assert Collected([Repayment(50, 0, "")]) == 50 by {
      assert [Repayment(50, 0, "")][..0] == [];
    }
    assert Collected([Repayment(200, 0, "")]) == 200 by {
      assert [Repayment(200, 0, "")][..0] == [];
    }
    assert TotalLoaned(ls[..1]) == 100;
    assert TotalCollected(ls[..1]) == 50;
  }

  /** Two paid loans created at 0 and last repaid 5 days and an hour, and 7 days, later: the
      summary's average repayment time is 6 days. */
  lemma AverageExample(now: Millis)
    ensures var ls := [
        LoanDoc(1, 100, None, 0, Paid, 0, 7, 3, [Repayment(100, 5 * MillisPerDay + 3_600_000, "")], 0),
        LoanDoc(2, 100, None, 0, Paid, 0, 7, 3, [Repayment(100, 7 * MillisPerDay, "")], 0)];
      Summarize(ls, now).avgRepaymentTime == 6
  {
    var ls := [
        LoanDoc(1, 100, None, 0, Paid, 0, 7, 3, [Repayment(100, 5 * MillisPerDay + 3_600_000, "")], 0),
        LoanDoc(2, 100, None, 0, Paid, 0, 7, 3, [Repayment(100, 7 * MillisPerDay, "")], 0)];
    assert WholeDays(0, 5 * MillisPerDay + 3_600_000) == 5;
    assert WholeDays(0, 7 * MillisPerDay) == 7;
    assert ls[..1] == [ls[0]] && ls[..1][..0] == [];
    assert RepaymentTimes(ls[..1], now) == [5];
    assert RepaymentTimes(ls, now) == [5, 7];
    assert [5, 7][..1] == [5] && [5][..0] == [];
  }

  /** A loan owing 30 and due a day ago is overdue; a settled loan due a day ago is not. */
  lemma OverdueExample(now: Millis)
    ensures var due := now - MillisPerDay;
      var owing := LoanDoc(1, 100, None, due, Pending, 30, 7, 3, [Repayment(70, due, "")], 0);
      var settled := LoanDoc(2, 100, None, due, Paid, 0, 7, 3, [Repayment(100, due, "")], 0);
      OverdueLoans([owing, settled], now) == [owing.(status := Overdue)]
  {
    var due := now - MillisPerDay;
    var owing := LoanDoc(1, 100, None, due, Pending, 30, 7, 3, [Repayment(70, due, "")], 0);
    var settled := LoanDoc(2, 100, None, due, Paid, 0, 7, 3, [Repayment(100, due, "")], 0);
    assert [owing][..0] == [];
    assert OverdueLoans([owing], now) == [Refreshed(owing, now)];
    assert [owing, settled][..1] == [owing];
    assert OverdueLoans([owing, settled], now) == OverdueLoans([owing], now);
  }
}
