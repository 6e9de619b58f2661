/**
 What the dashboard statistics mean, stated against the reference
 quantities: the totals are filtered sums, the counts are filtered counts,
 the person owed most is the first counterparty with the largest total, and
 the most overdue record is the first one with the most overdue days.
 */
module DashboardProperties {
  import opened Types
  import opened Store
  import opened Dashboard
  import Rates
  import StoreProperties

  // ---------------------------------------------------------------------
  // Filtered sums and counts, taken one record at a time from the back.

  lemma {:induction false} SumOfSnoc(ds: seq<Debt>, d: Debt, s: Selector)
    decreases |ds|
    ensures SumOf(ds + [d], s) == SumOf(ds, s) + (if Selects(s, d) then d.amountInTry else 0.0)
  {
    if |ds| == 0 {
      assert ds + [d] == [d];
    } else {
      assert (ds + [d])[0] == ds[0];
      assert (ds + [d])[1..] == ds[1..] + [d];
      SumOfSnoc(ds[1..], d, s);
    }
  }

  lemma {:induction false} CountOfSnoc(ds: seq<Debt>, d: Debt, s: Selector)
    decreases |ds|
    ensures CountOf(ds + [d], s) == CountOf(ds, s) + (if Selects(s, d) then 1 else 0)
  {
    if |ds| == 0 {
      assert ds + [d] == [d];
    } else {
      assert (ds + [d])[0] == ds[0];
      assert (ds + [d])[1..] == ds[1..] + [d];
      CountOfSnoc(ds[1..], d, s);
    }
  }

  /** A sum over no selected record is zero. */
  lemma {:induction false} SumOfNothing(ds: seq<Debt>, s: Selector)
    requires forall i :: 0 <= i < |ds| ==> !Selects(s, ds[i])
    ensures SumOf(ds, s) == 0.0
  {
    if |ds| > 0 {
      assert forall i :: 0 <= i < |ds[1..]| ==> ds[1..][i] == ds[i + 1];
      SumOfNothing(ds[1..], s);
    }
  }

  // ---------------------------------------------------------------------
  // The counterparties, in order of first appearance.

  /** A name is listed exactly when some active debt is owed to it. */
  lemma {:induction false} OwedNamesMembership(ds: seq<Debt>)
    ensures forall n :: n in OwedNames(ds) <==> OwedBefore(ds, n, |ds|)
  {
    if |ds| > 0 {
      var init := ds[..|ds| - 1];
      OwedNamesMembership(init);
      forall n
        ensures n in OwedNames(ds) <==> OwedBefore(ds, n, |ds|)
      {
        if OwedBefore(init, n, |init|) {
          var i :| 0 <= i < |init| && IsOwed(init[i]) && init[i].personName == n;
          assert ds[i] == init[i];
        }
        if OwedBefore(ds, n, |ds|) {
          var i :| 0 <= i < |ds| && IsOwed(ds[i]) && ds[i].personName == n;
          if i < |init| {
            assert ds[i] == init[i];
            assert OwedBefore(init, n, |init|);
          }
        }
      }
    }
  }

  /** No name is listed twice. */
  lemma {:induction false} OwedNamesDistinct(ds: seq<Debt>)
    ensures forall a, b :: 0 <= a < b < |OwedNames(ds)| ==> OwedNames(ds)[a] != OwedNames(ds)[b]
  {
    if |ds| > 0 {
      OwedNamesDistinct(ds[..|ds| - 1]);
    }
  }

  /** Names are listed in order of first appearance: if the debt at `i` is
      owed to the `k`-th name, every earlier name is owed something before `i`. */
  lemma {:induction false} OwedNamesOrder(ds: seq<Debt>)
    ensures forall k', k, i :: 0 <= k' < k < |OwedNames(ds)| && 0 <= i < |ds| && IsOwed(ds[i]) && ds[i].personName == OwedNames(ds)[k]
              ==> OwedBefore(ds, OwedNames(ds)[k'], i)
  {
    if |ds| > 0 {
      var init := ds[..|ds| - 1];
      var names := OwedNames(init);
      OwedNamesOrder(init);
      OwedNamesMembership(init);
      forall k', k, i | 0 <= k' < k < |OwedNames(ds)| && 0 <= i < |ds| && IsOwed(ds[i]) && ds[i].personName == OwedNames(ds)[k]
        ensures OwedBefore(ds, OwedNames(ds)[k'], i)
      {
        assert OwedNames(ds)[k'] == names[k'];
        assert OwedBefore(init, names[k'], |init|);
        var j :| 0 <= j < |init| && IsOwed(init[j]) && init[j].personName == names[k'];
        assert ds[j] == init[j];
        if i < |init| {
          assert ds[i] == init[i];
          if k < |names| {
            assert OwedBefore(init, names[k'], i);
            var j' :| 0 <= j' < i && IsOwed(init[j']) && init[j'].personName == names[k'];
            assert ds[j'] == init[j'];
          } else {
            assert OwedBefore(init, ds[i].personName, |init|);
            assert false;
          }
        }
      }
    }
  }

  // ---------------------------------------------------------------------
  // The loop invariant of the pass.

  /** The dictionary holds, for each listed name in order, what is owed to it. */
  predicate GroupsMatch(ps: seq<PersonSum>, ds: seq<Debt>) {
    && |ps| == |OwedNames(ds)|
    && forall k :: 0 <= k < |ps| ==>
         ps[k].name == OwedNames(ds)[k] && ps[k].amount == SumOf(ds, OwedTo(ps[k].name))
  }

  /** The running totals and counts equal the filtered sums and counts. */
  lemma {:induction false} TallyTotals(ds: seq<Debt>, now: Timestamp)
    ensures var t := TallyOf(ds, now);
            && t.totalOwed == SumOf(ds, Owed)
            && t.totalToCollect == SumOf(ds, ToCollect)
            && t.activeCount == CountOf(ds, ActiveRecords)
            && t.overdueCount == CountOf(ds, OverdueAt(now))
  {
    if |ds| > 0 {
      var init := ds[..|ds| - 1];
      var d := ds[|ds| - 1];
      assert ds == init + [d];
      TallyTotals(init, now);
      SumOfSnoc(init, d, Owed);
      SumOfSnoc(init, d, ToCollect);
      CountOfSnoc(init, d, ActiveRecords);
      CountOfSnoc(init, d, OverdueAt(now));
    }
  }

  /** The overdue list the loop builds is the overdue records' items, in order. */
  lemma {:induction false} TallyOverdue(ds: seq<Debt>, now: Timestamp)
    ensures TallyOf(ds, now).overdue == OverdueItems(ds, now)
  {
    if |ds| > 0 {
      TallyOverdue(ds[..|ds| - 1], now);
    }
  }

  /** The dictionary the loop builds lists each counterparty once, in order
      of first appearance, with the sum owed to it. */
  lemma {:induction false} TallyGroups(ds: seq<Debt>, now: Timestamp)
    ensures GroupsMatch(TallyOf(ds, now).personAmounts, ds)
  {
    if |ds| > 0 {
      var init := ds[..|ds| - 1];
      var d := ds[|ds| - 1];
      assert ds == init + [d];
      TallyGroups(init, now);
      GroupsStep(init, d, now);
    }
  }

  /** The dictionary update of one iteration keeps `GroupsMatch`. */
  lemma GroupsStep(init: seq<Debt>, d: Debt, now: Timestamp)
    requires GroupsMatch(TallyOf(init, now).personAmounts, init)
    ensures GroupsMatch(TallyOf(init + [d], now).personAmounts, init + [d])
  {
    var ds := init + [d];
    assert ds[..|ds| - 1] == init;
    var ps := TallyOf(init, now).personAmounts;
    assert TallyOf(ds, now).personAmounts == if IsOwed(d) then AddToPerson(ps, d.personName, d.amountInTry) else ps;
    GroupsAdd(ps, init, d);
  }

  /** Adding a record to the dictionary the way the loop does keeps `GroupsMatch`. */
  lemma GroupsAdd(ps: seq<PersonSum>, init: seq<Debt>, d: Debt)
    requires GroupsMatch(ps, init)
    ensures GroupsMatch(if IsOwed(d) then AddToPerson(ps, d.personName, d.amountInTry) else ps, init + [d])
  {
    SumsAfter(ps, init, d);
    if !IsOwed(d) {
      GroupsSkip(ps, init, d);
    } else if NameIndex(ps, d.personName) < |ps| {
      GroupsExisting(ps, init, d);
    } else {
      GroupsNew(ps, init, d);
    }
  }

  /** What is owed to each listed name after one more record. */
  lemma SumsAfter(ps: seq<PersonSum>, init: seq<Debt>, d: Debt)
    ensures forall k :: 0 <= k < |ps| ==>
              SumOf(init + [d], OwedTo(ps[k].name))
                == SumOf(init, OwedTo(ps[k].name)) + (if IsOwed(d) && d.personName == ps[k].name then d.amountInTry else 0.0)
  {
    forall k | 0 <= k < |ps|
      ensures SumOf(init + [d], OwedTo(ps[k].name))
                == SumOf(init, OwedTo(ps[k].name)) + (if IsOwed(d) && d.personName == ps[k].name then d.amountInTry else 0.0)
    {
      SumOfSnoc(init, d, OwedTo(ps[k].name));
    }
  }

  lemma GroupsSkip(ps: seq<PersonSum>, init: seq<Debt>, d: Debt)
    requires GroupsMatch(ps, init) && !IsOwed(d)
    requires forall k :: 0 <= k < |ps| ==> SumOf(init + [d], OwedTo(ps[k].name)) == SumOf(init, OwedTo(ps[k].name))
    ensures GroupsMatch(ps, init + [d])
  {
    var ds := init + [d];
    assert ds[..|ds| - 1] == init;
    assert OwedNames(ds) == OwedNames(init);
  }

  lemma GroupsExisting(ps: seq<PersonSum>, init: seq<Debt>, d: Debt)
    requires GroupsMatch(ps, init) && IsOwed(d) && NameIndex(ps, d.personName) < |ps|
    requires forall k :: 0 <= k < |ps| ==>
               SumOf(init + [d], OwedTo(ps[k].name))
                 == SumOf(init, OwedTo(ps[k].name)) + (if d.personName == ps[k].name then d.amountInTry else 0.0)
    ensures GroupsMatch(AddToPerson(ps, d.personName, d.amountInTry), init + [d])
  {
    var ds := init + [d];
    assert ds[..|ds| - 1] == init;
    var names := OwedNames(init);
    OwedNamesDistinct(init);
    var k := NameIndex(ps, d.personName);
    assert names[k] == d.personName;
    assert OwedNames(ds) == names;
  }

  lemma GroupsNew(ps: seq<PersonSum>, init: seq<Debt>, d: Debt)
    requires GroupsMatch(ps, init) && IsOwed(d) && NameIndex(ps, d.personName) == |ps|
    requires forall k :: 0 <= k < |ps| ==>
               SumOf(init + [d], OwedTo(ps[k].name))
                 == SumOf(init, OwedTo(ps[k].name)) + (if d.personName == ps[k].name then d.amountInTry else 0.0)
    ensures GroupsMatch(AddToPerson(ps, d.personName, d.amountInTry), init + [d])
  {
    var ds := init + [d];
    assert ds[..|ds| - 1] == init;
    var names := OwedNames(init);
    var n := d.personName;
    OwedNamesMembership(init);
    assert n !in names;
    assert OwedNames(ds) == names + [n];
    assert !OwedBefore(init, n, |init|);
    SumOfNothing(init, OwedTo(n));
    SumOfSnoc(init, d, OwedTo(n));
  }

  // ---------------------------------------------------------------------
  // The statistics.

  /** The totals are the filtered sums, the net balance is their difference,
      and the counts are the filtered counts, the overdue ones among the active. */
  lemma StatsTotals(ds: seq<Debt>, now: Timestamp)
    ensures var st := ComputeStats(ds, now);
            && st.totalOwed == SumOf(ds, Owed)
            && st.totalToCollect == SumOf(ds, ToCollect)
            && st.netBalance == st.totalToCollect - st.totalOwed
            && st.activeDebtsCount == CountOf(ds, ActiveRecords)
            && st.overdueDebtsCount == CountOf(ds, OverdueAt(now))
            && 0 <= st.overdueDebtsCount <= st.activeDebtsCount <= |ds|
  {
    TallyTotals(ds, now);
    OverdueAmongActive(ds, now);
  }

  lemma {:induction false} OverdueAmongActive(ds: seq<Debt>, now: Timestamp)
    ensures CountOf(ds, OverdueAt(now)) <= CountOf(ds, ActiveRecords) <= |ds|
  {
    if |ds| > 0 {
      OverdueAmongActive(ds[1..], now);
    }
  }

  /** Nobody is reported, with amount 0, exactly when the user owes nothing active. */
  lemma StatsNobodyOwed(ds: seq<Debt>, now: Timestamp)
    ensures var st := ComputeStats(ds, now);
            && (st.personOweMost.None? <==> forall i :: 0 <= i < |ds| ==> !IsOwed(ds[i]))
            && (st.personOweMost.None? ==> st.personOweMostAmount == 0.0)
  {
    StatsPersonOweMost(ds, now);
  }

  /** When the user owes someone, the reported name is owed something, its
      amount is what is owed to it, no counterparty is owed more, and every
      counterparty owed as much appears no earlier than the reported one. */
  lemma StatsPersonOweMost(ds: seq<Debt>, now: Timestamp)
    ensures var st := ComputeStats(ds, now);
            && (st.personOweMost.None? ==> forall i :: 0 <= i < |ds| ==> !IsOwed(ds[i]))
            && (st.personOweMost.Some? ==>
                  && OwedBefore(ds, st.personOweMost.value, |ds|)
                  && st.personOweMostAmount == SumOf(ds, OwedTo(st.personOweMost.value))
                  && (forall i :: 0 <= i < |ds| && IsOwed(ds[i]) ==>
                        SumOf(ds, OwedTo(ds[i].personName)) <= st.personOweMostAmount)
                  && (forall i ::
                        0 <= i < |ds| && IsOwed(ds[i]) && SumOf(ds, OwedTo(ds[i].personName)) == st.personOweMostAmount
                        ==> OwedBefore(ds, st.personOweMost.value, i + 1)))
  {
    var st := ComputeStats(ds, now);
    var ps := TallyOf(ds, now).personAmounts;
    var names := OwedNames(ds);
    TallyGroups(ds, now);
    OwedNamesMembership(ds);
    OwedNamesOrder(ds);
    if |ps| == 0 {
      forall i | 0 <= i < |ds|
        ensures !IsOwed(ds[i])
      {
        if IsOwed(ds[i]) {
          assert OwedBefore(ds, ds[i].personName, |ds|);
          assert false;
        }
      }
    } else {
      var w := MaxByAmount(ps);
      var n := ps[w].name;
      assert n == names[w];
      assert n in names;
      forall i | 0 <= i < |ds| && IsOwed(ds[i])
        ensures SumOf(ds, OwedTo(ds[i].personName)) <= st.personOweMostAmount
        ensures SumOf(ds, OwedTo(ds[i].personName)) == st.personOweMostAmount ==> OwedBefore(ds, n, i + 1)
      {
        var m := ds[i].personName;
        assert OwedBefore(ds, m, |ds|);
        var k :| 0 <= k < |names| && names[k] == m;
        assert ps[k].amount <= ps[w].amount;
        if SumOf(ds, OwedTo(m)) == st.personOweMostAmount {
          assert k >= w;
          if k == w {
            assert ds[i].personName == n;
          } else {
            assert OwedBefore(ds, names[w], i);
            var j :| 0 <= j < i && IsOwed(ds[j]) && ds[j].personName == names[w];
          }
        }
      }
    }
  }

  /** The person sums partition the total owed. */
  lemma PersonSumsAddUp(ds: seq<Debt>, now: Timestamp)
    ensures AmountOf(TallyOf(ds, now).personAmounts) == ComputeStats(ds, now).totalOwed
  {
    DictionaryTotal(ds, now);
  }

  /** The sum of a dictionary's amounts. */
  function AmountOf(ps: seq<PersonSum>): real {
    if |ps| == 0 then 0.0 else ps[0].amount + AmountOf(ps[1..])
  }

  lemma {:induction false} AmountOfAdd(ps: seq<PersonSum>, name: string, x: real)
    decreases |ps|
    ensures AmountOf(AddToPerson(ps, name, x)) == AmountOf(ps) + x
  {
    if |ps| == 0 {
    } else if ps[0].name == name {
      assert AddToPerson(ps, name, x)[1..] == ps[1..];
    } else {
      AmountOfAdd(ps[1..], name, x);
      assert AddToPerson(ps, name, x) == [ps[0]] + AddToPerson(ps[1..], name, x);
    }
  }

  lemma {:induction false} DictionaryTotal(ds: seq<Debt>, now: Timestamp)
    ensures AmountOf(TallyOf(ds, now).personAmounts) == TallyOf(ds, now).totalOwed
  {
    if |ds| > 0 {
      var init := ds[..|ds| - 1];
      var d := ds[|ds| - 1];
      DictionaryTotal(init, now);
      if IsOwed(d) {
        AmountOfAdd(TallyOf(init, now).personAmounts, d.personName, d.amountInTry);
      }
    }
  }

  /** The overdue list is empty exactly when no record is overdue. */
  lemma {:induction false} OverdueItemsEmpty(ds: seq<Debt>, now: Timestamp)
    ensures |OverdueItems(ds, now)| == 0 <==> forall i :: 0 <= i < |ds| ==> !IsOverdue(ds[i], now)
  {
    if |ds| > 0 {
      var init := ds[..|ds| - 1];
      OverdueItemsEmpty(init, now);
      assert forall i :: 0 <= i < |init| ==> ds[i] == init[i];
    }
  }

  /** Record `k` is overdue, no overdue record has more days, and no
      earlier overdue record has as many. */
  predicate IsMostOverdue(ds: seq<Debt>, now: Timestamp, k: nat) {
    && k < |ds| && IsOverdue(ds[k], now)
    && (forall j :: 0 <= j < |ds| && IsOverdue(ds[j], now) ==> OverdueDays(ds[j], now) <= OverdueDays(ds[k], now))
    && (forall j :: 0 <= j < k && IsOverdue(ds[j], now) ==> OverdueDays(ds[j], now) < OverdueDays(ds[k], now))
  }

  /** A record that has no more overdue days keeps the winner in place. */
  lemma MostOverdueKeeps(init: seq<Debt>, d: Debt, now: Timestamp, k: nat)
    requires IsMostOverdue(init, now, k)
    requires IsOverdue(d, now) ==> OverdueDays(d, now) <= OverdueDays(init[k], now)
    ensures IsMostOverdue(init + [d], now, k)
  {
  }

  /** A record with strictly more days than every earlier one takes over. */
  lemma MostOverdueTakesOver(init: seq<Debt>, d: Debt, now: Timestamp)
    requires IsOverdue(d, now)
    requires forall j :: 0 <= j < |init| && IsOverdue(init[j], now) ==> OverdueDays(init[j], now) < OverdueDays(d, now)
    ensures IsMostOverdue(init + [d], now, |init|)
  {
  }

  /** The item the service picks is that of the first record with the most
      overdue days. */
  lemma {:induction false} MostOverdueWitness(ds: seq<Debt>, now: Timestamp) returns (k: nat)
    requires |OverdueItems(ds, now)| > 0
    ensures IsMostOverdue(ds, now, k)
    ensures OverdueItems(ds, now)[MaxByDays(OverdueItems(ds, now))] == ItemOf(ds[k], now)
  {
    var init := ds[..|ds| - 1];
    var d := ds[|ds| - 1];
    assert ds == init + [d];
    var prev := OverdueItems(init, now);
    var items := OverdueItems(ds, now);
    OverdueItemsEmpty(init, now);
    if !IsOverdue(d, now) {
      assert items == prev;
      k := MostOverdueWitness(init, now);
      MostOverdueKeeps(init, d, now, k);
    } else if |prev| == 0 {
      assert items == [ItemOf(d, now)];
      MostOverdueTakesOver(init, d, now);
      k := |init|;
    } else {
      assert items == prev + [ItemOf(d, now)];
      assert items[..|items| - 1] == prev;
      var k0 := MostOverdueWitness(init, now);
      var b := MaxByDays(prev);
      if OverdueDays(d, now) > prev[b].days {
        assert MaxByDays(items) == |items| - 1;
        MostOverdueTakesOver(init, d, now);
        k := |init|;
      } else {
        assert MaxByDays(items) == b;
        MostOverdueKeeps(init, d, now, k0);
        k := k0;
      }
    }
  }

  /** Nothing is reported, with zero days, exactly when no record is overdue.
      Otherwise the report is the label "description - person" and the days
      of record `k`, the first record with the most overdue days. */
  lemma StatsMostOverdue(ds: seq<Debt>, now: Timestamp) returns (k: nat)
    ensures var st := ComputeStats(ds, now);
            && (st.mostOverdueDebt.None? <==> forall i :: 0 <= i < |ds| ==> !IsOverdue(ds[i], now))
            && (st.mostOverdueDebt.None? ==> st.mostOverdueDays == 0)
            && (st.mostOverdueDebt.Some? ==>
                  && IsMostOverdue(ds, now, k)
                  && st.mostOverdueDebt.value == ds[k].description + " - " + ds[k].personName
                  && st.mostOverdueDays == OverdueDays(ds[k], now))
  {
    TallyOverdue(ds, now);
    OverdueItemsEmpty(ds, now);
    if |OverdueItems(ds, now)| > 0 {
      k := MostOverdueWitness(ds, now);
    } else {
      k := 0;
    }
    SummaryOverdue(TallyOf(ds, now), ds, now, k);
  }

  /** How the summary reports the overdue list of a loop state `t` whose
      list is the items of `ds`, given the record `k` whose item is picked. */
  lemma SummaryOverdue(t: Tally, ds: seq<Debt>, now: Timestamp, k: nat)
    requires t.overdue == OverdueItems(ds, now)
    requires |t.overdue| == 0 <==> forall i :: 0 <= i < |ds| ==> !IsOverdue(ds[i], now)
    requires |t.overdue| > 0 ==> IsMostOverdue(ds, now, k) && t.overdue[MaxByDays(t.overdue)] == ItemOf(ds[k], now)
    ensures var st := Summarize(t);
            && (st.mostOverdueDebt.None? <==> forall i :: 0 <= i < |ds| ==> !IsOverdue(ds[i], now))
            && (st.mostOverdueDebt.None? ==> st.mostOverdueDays == 0)
            && (st.mostOverdueDebt.Some? ==>
                  && IsMostOverdue(ds, now, k)
                  && st.mostOverdueDebt.value == ds[k].description + " - " + ds[k].personName
                  && st.mostOverdueDays == OverdueDays(ds[k], now))
  {
  }

  /** Records that are not active change nothing: the statistics of a
      sequence are those of its active records. */
  lemma {:induction false} OnlyActiveRecordsCount(ds: seq<Debt>, now: Timestamp)
    ensures ComputeStats(ds, now) == ComputeStats(ActiveOnly(ds), now)
  {
    ActiveOnlyTally(ds, now);
  }

  /** The active records, in order. */
  function ActiveOnly(ds: seq<Debt>): (r: seq<Debt>)
    ensures forall i :: 0 <= i < |r| ==> r[i].status == Active
    ensures forall d :: d in r <==> d in ds && d.status == Active
  {
    if |ds| == 0 then []
    else
      var d := ds[|ds| - 1];
      ActiveOnly(ds[..|ds| - 1]) + (if d.status == Active then [d] else [])
  }

  lemma {:induction false} ActiveOnlyTally(ds: seq<Debt>, now: Timestamp)
    ensures TallyOf(ds, now) == TallyOf(ActiveOnly(ds), now)
  {
    if |ds| > 0 {
      var init := ds[..|ds| - 1];
      var d := ds[|ds| - 1];
      ActiveOnlyTally(init, now);
      var a := ActiveOnly(ds);
      if d.status == Active {
        assert a == ActiveOnly(init) + [d];
        assert a[..|a| - 1] == ActiveOnly(init);
        assert TallyOf(a, now) == Step(TallyOf(ActiveOnly(init), now), d, now);
      } else {
        assert a == ActiveOnly(init);
        assert TallyOf(ds, now) == TallyOf(init, now);
      }
    }
  }

  /** Empty input yields zero totals and counts and no insights. */
  lemma EmptyStats(now: Timestamp)
    ensures ComputeStats([], now) == DashboardStats(0.0, 0.0, 0.0, None, 0.0, None, 0, 0, 0)
  {
  }

  /** The dashboard route reports on the user's own records only: the ones a
      listing returns (all of them when there are at most `ListLimit`). Its
      totals and counts are the filtered sums and counts over them, nobody
      is reported as owed most exactly when none of them is owed, and no
      debt is reported as most overdue exactly when none of them is overdue. */
  lemma DashboardRoute(store: seq<Debt>, userId: string, now: Timestamp)
    ensures var st := GetDashboardStats(store, userId, now);
            var ds := ListDebts(store, userId);
            && (forall i :: 0 <= i < |ds| ==> ds[i].userId == userId)
            && (|UserDebts(store, userId)| <= ListLimit ==> ds == UserDebts(store, userId))
            && st.totalOwed == SumOf(ds, Owed)
            && st.totalToCollect == SumOf(ds, ToCollect)
            && st.activeDebtsCount == CountOf(ds, ActiveRecords)
            && st.overdueDebtsCount == CountOf(ds, OverdueAt(now))
            && (st.personOweMost.None? <==> forall i :: 0 <= i < |ds| ==> !IsOwed(ds[i]))
            && (st.mostOverdueDebt.None? <==> forall i :: 0 <= i < |ds| ==> !IsOverdue(ds[i], now))
  {
    var ds := ListDebts(store, userId);
    assert forall i :: 0 <= i < |ds| ==> ds[i] == UserDebts(store, userId)[i];
    StatsTotals(ds, now);
    StatsNobodyOwed(ds, now);
    var _ := StatsMostOverdue(ds, now);
  }

  /** Nothing one user does changes another user's dashboard. */
  lemma DashboardIsolated(store: seq<Debt>, userId: string, other: string, id: string, newId: string,
                          now: Timestamp, rates: Rates.RateTable, input: DebtCreate, u: DebtUpdate, at: Timestamp)
    requires userId != other
    ensures GetDashboardStats(CreateDebt(store, userId, newId, now, rates, input).store, other, at) == GetDashboardStats(store, other, at)
    ensures GetDashboardStats(UpdateDebt(store, userId, id, u, now, rates).store, other, at) == GetDashboardStats(store, other, at)
    ensures GetDashboardStats(DeleteDebt(store, userId, id).store, other, at) == GetDashboardStats(store, other, at)
    ensures GetDashboardStats(MarkPaid(store, userId, id, now).store, other, at) == GetDashboardStats(store, other, at)
    ensures GetDashboardStats(MarkUnpaid(store, userId, id, now).store, other, at) == GetDashboardStats(store, other, at)
  {
    StoreProperties.OtherUsersUnaffected(store, userId, other, id, newId, now, rates, input, u);
    SameRecordsSameDashboard(CreateDebt(store, userId, newId, now, rates, input).store, store, other, at);
    SameRecordsSameDashboard(UpdateDebt(store, userId, id, u, now, rates).store, store, other, at);
    SameRecordsSameDashboard(DeleteDebt(store, userId, id).store, store, other, at);
    SameRecordsSameDashboard(MarkPaid(store, userId, id, now).store, store, other, at);
    SameRecordsSameDashboard(MarkUnpaid(store, userId, id, now).store, store, other, at);
  }

  /** The dashboard depends on the user's records only. */
  lemma SameRecordsSameDashboard(a: seq<Debt>, b: seq<Debt>, userId: string, at: Timestamp)
    requires UserDebts(a, userId) == UserDebts(b, userId)
    ensures GetDashboardStats(a, userId, at) == GetDashboardStats(b, userId, at)
  {
  }
}
