/**
 Concrete dashboards for small stores, worked through the model.
 */
module Scenarios {
  import opened Types
  import opened Rates
  import opened Store
  import opened Dashboard

  const Day: int := MicrosPerDay

  function Input(t: DebtType, person: string, amount: real, c: Currency, due: Option<Timestamp>): DebtCreate {
    DebtCreate(t, person, amount, c, "loan", Other, due)
  }

  /** The pass over two records is two steps from the empty state. */
  lemma TallyOfTwo(a: Debt, b: Debt, now: Timestamp)
    ensures TallyOf([a, b], now) == Step(Step(EmptyTally, a, now), b, now)
  {
    assert [a, b][..1] == [a];
    assert [a][..0] == [];
    assert TallyOf([], now) == EmptyTally;
    assert TallyOf([a], now) == Step(EmptyTally, a, now);
  }

  /** An active, undated debt. */
  predicate Undated(d: Debt, t: DebtType, person: string, lira: real) {
    d.status == Active && d.debtType == t && d.personName == person
    && d.amountInTry == lira && d.dueDate == None
  }

  /** The statistics of one debt owed and one to collect, neither dated. */
  lemma OwedAndToCollect(d1: Debt, d2: Debt, now: Timestamp)
    requires Undated(d1, IOwe, "Ali", 1000.0) && Undated(d2, TheyOwe, "Can", 3400.0)
    ensures var st := ComputeStats([d1, d2], now);
            && st.totalOwed == 1000.0 && st.totalToCollect == 3400.0 && st.netBalance == 2400.0
            && st.activeDebtsCount == 2 && st.overdueDebtsCount == 0
            && st.personOweMost == Some("Ali") && st.personOweMostAmount == 1000.0
  {
    TallyOfTwo(d1, d2, now);
    var t1 := Step(EmptyTally, d1, now);
    assert t1 == Tally(1000.0, 0.0, [PersonSum("Ali", 1000.0)], [], 1, 0);
    var t2 := Step(t1, d2, now);
    assert t2 == Tally(1000.0, 3400.0, [PersonSum("Ali", 1000.0)], [], 2, 0);
    assert MaxByAmount(t2.personAmounts) == 0;
  }

  /** A lira debt the user owes and a dollar debt owed to the user, with
      the fallback rates: the dollar debt is worth 34 lira apiece. */
  lemma MixedCurrencyTotals(now: Timestamp)
    ensures var s1 := CreateDebt([], "u", "a", now, FallbackRates, Input(IOwe, "Ali", 1000.0, TRY, None)).store;
            var s2 := CreateDebt(s1, "u", "b", now, FallbackRates, Input(TheyOwe, "Can", 100.0, USD, None)).store;
            var st := GetDashboardStats(s2, "u", now);
            && st.totalOwed == 1000.0 && st.totalToCollect == 3400.0 && st.netBalance == 2400.0
            && st.activeDebtsCount == 2 && st.overdueDebtsCount == 0
            && st.personOweMost == Some("Ali") && st.personOweMostAmount == 1000.0
  {
    var s1 := CreateDebt([], "u", "a", now, FallbackRates, Input(IOwe, "Ali", 1000.0, TRY, None)).store;
    var s2 := CreateDebt(s1, "u", "b", now, FallbackRates, Input(TheyOwe, "Can", 100.0, USD, None)).store;
    var d1 := NewDebt("u", "a", now, FallbackRates, Input(IOwe, "Ali", 1000.0, TRY, None));
    var d2 := NewDebt("u", "b", now, FallbackRates, Input(TheyOwe, "Can", 100.0, USD, None));
    assert ConvertToTry(100.0, USD, FallbackRates) == 3400.0;
    assert s2 == [d1, d2];
    assert [d1, d2][1..] == [d2] && [d2][1..] == [];
    assert UserDebts(s2, "u") == s2;
    assert ListDebts(s2, "u") == s2;
    OwedAndToCollect(d1, d2, now);
  }

  /** Two counterparties owed the same amount: the one recorded first wins,
      whatever the alphabetical order of the names. */
  lemma TieGoesToFirstRecorded(a: Debt, b: Debt, now: Timestamp)
    requires Undated(a, IOwe, "Ayşe", 500.0) && Undated(b, IOwe, "Ali", 500.0)
    ensures ComputeStats([a, b], now).personOweMost == Some("Ayşe")
  {
    assert "Ayşe" != "Ali" by { assert "Ayşe"[1] != "Ali"[1]; }
    TallyOfTwo(a, b, now);
    var t1 := Step(EmptyTally, a, now);
    assert t1.personAmounts == [PersonSum("Ayşe", 500.0)];
    var t2 := Step(t1, b, now);
    assert NameIndex(t1.personAmounts, "Ali") == 1;
    assert t2.personAmounts == [PersonSum("Ayşe", 500.0), PersonSum("Ali", 500.0)];
    assert MaxByAmount(t2.personAmounts) == 0;
  }

  /** Ten and three days overdue: the ten-day one is reported. A paid debt
      twenty days overdue is not counted at all. */
  lemma TenDaysBeatsThree(now: Timestamp)
    ensures var paid := NewDebt("u", "p", now, FallbackRates, Input(IOwe, "Ece", 50.0, TRY, Some(now - 20 * Day))).(status := Paid, paidAt := Some(now));
            var ten := NewDebt("u", "a", now, FallbackRates, Input(IOwe, "Ali", 10.0, TRY, Some(now - 10 * Day)));
            var three := NewDebt("u", "b", now, FallbackRates, Input(TheyOwe, "Can", 30.0, TRY, Some(now - 3 * Day)));
            var st := ComputeStats([paid, three, ten], now);
            && st.mostOverdueDebt == Some("loan - Ali") && st.mostOverdueDays == 10
            && st.overdueDebtsCount == 2 && st.activeDebtsCount == 2
  {
    var paid := NewDebt("u", "p", now, FallbackRates, Input(IOwe, "Ece", 50.0, TRY, Some(now - 20 * Day))).(status := Paid, paidAt := Some(now));
    var ten := NewDebt("u", "a", now, FallbackRates, Input(IOwe, "Ali", 10.0, TRY, Some(now - 10 * Day)));
    var three := NewDebt("u", "b", now, FallbackRates, Input(TheyOwe, "Can", 30.0, TRY, Some(now - 3 * Day)));
    var ds := [paid, three, ten];
    assert OverdueDays(ten, now) == 10;
    assert OverdueDays(three, now) == 3;
    assert ds[..2] == [paid, three] && [paid, three][..1] == [paid] && [paid][..0] == [];
    assert TallyOf([], now) == EmptyTally;
    assert paid.status == Paid;
    var t1 := TallyOf([paid], now);
    assert t1 == Step(TallyOf([], now), paid, now);
    assert t1 == EmptyTally;
    var t2 := TallyOf([paid, three], now);
    assert t2 == Step(t1, three, now);
    assert t2.overdue == [ItemOf(three, now)] && t2.activeCount == 1 && t2.overdueCount == 1;
    var t3 := TallyOf(ds, now);
    assert t3 == Step(t2, ten, now);
    assert t3.overdue == [ItemOf(three, now), ItemOf(ten, now)] && t3.activeCount == 2 && t3.overdueCount == 2;
    assert MaxByDays(t3.overdue) == 1;
    assert Label(ItemOf(ten, now)) == "loan - Ali";
  }
}
