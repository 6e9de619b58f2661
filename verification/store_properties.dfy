/**
 Properties of the debt routes that relate several calls: the lira amount
 stays consistent with the amount and currency, status changes round-trip,
 no route moves a record into `PartiallyPaid`, a user's routes never touch
 another user's records, and ids stay unique.
 */
module StoreProperties {
  import opened Types
  import opened Rates
  import opened Store

  /** The stored lira amount is the conversion of the stored amount. */
  predicate Consistent(d: Debt, rates: RateTable) {
    d.amountInTry == ConvertToTry(d.amount, d.currency, rates)
  }

  predicate AllConsistent(store: seq<Debt>, rates: RateTable) {
    forall j :: 0 <= j < |store| ==> Consistent(store[j], rates)
  }

  /** No two records share an id (ids are fresh UUIDs in the service). */
  predicate UniqueIds(store: seq<Debt>) {
    forall a, b :: 0 <= a < b < |store| ==> store[a].id != store[b].id
  }

  /** The number of records with status `st`. Unlike the dashboard's
      filtered counts, which only distinguish what the statistics need,
      this counts any status, `PartiallyPaid` included, and keeps the route
      properties independent of the dashboard module. */
  function CountStatus(store: seq<Debt>, st: DebtStatus): nat {
    if |store| == 0 then 0
    else (if store[0].status == st then 1 else 0) + CountStatus(store[1..], st)
  }

  // ---------------------------------------------------------------------
  // The lira amount stays consistent as long as the rate table does not change.

  lemma CreateKeepsConsistent(store: seq<Debt>, userId: string, newId: string, now: Timestamp,
                              rates: RateTable, input: DebtCreate)
    requires AllConsistent(store, rates)
    ensures AllConsistent(CreateDebt(store, userId, newId, now, rates, input).store, rates)
  {
  }

  /** An update that leaves the amount and currency alone keeps the stored
      lira amount; one that supplies either recomputes it. Either way the
      record stays consistent. */
  lemma UpdateKeepsConsistent(store: seq<Debt>, userId: string, id: string, u: DebtUpdate,
                              now: Timestamp, rates: RateTable)
    requires AllConsistent(store, rates)
    ensures AllConsistent(UpdateDebt(store, userId, id, u, now, rates).store, rates)
  {
  }

  lemma DeleteKeepsConsistent(store: seq<Debt>, userId: string, id: string, rates: RateTable)
    requires AllConsistent(store, rates)
    ensures AllConsistent(DeleteDebt(store, userId, id).store, rates)
  {
  }

  lemma StatusChangeKeepsConsistent(store: seq<Debt>, userId: string, id: string, now: Timestamp,
                                    rates: RateTable)
    requires AllConsistent(store, rates)
    ensures AllConsistent(MarkPaid(store, userId, id, now).store, rates)
    ensures AllConsistent(MarkUnpaid(store, userId, id, now).store, rates)
  {
  }

  // ---------------------------------------------------------------------
  // Status lifecycle.

  /** Marking paid twice at the same instant is marking paid once. */
  lemma MarkPaidIdempotent(store: seq<Debt>, userId: string, id: string, now: Timestamp)
    ensures MarkPaid(MarkPaid(store, userId, id, now).store, userId, id, now) == MarkPaid(store, userId, id, now)
  {
  }

  /** Marking unpaid twice at the same instant is marking unpaid once. */
  lemma MarkUnpaidIdempotent(store: seq<Debt>, userId: string, id: string, now: Timestamp)
    ensures MarkUnpaid(MarkUnpaid(store, userId, id, now).store, userId, id, now) == MarkUnpaid(store, userId, id, now)
  {
  }

  /** Paid then unpaid returns the record to `Active` with `paidAt` cleared
      and every other field but `updatedAt` as it was; a record that was
      active and never paid comes back identical up to `updatedAt`. */
  lemma PaidThenUnpaidRoundTrip(store: seq<Debt>, userId: string, id: string, t1: Timestamp, t2: Timestamp)
    requires FindOwned(store, userId, id).Some?
    ensures var i := FindOwned(store, userId, id).value;
            var after := MarkUnpaid(MarkPaid(store, userId, id, t1).store, userId, id, t2);
            && after.result.Ok?
            && after.store == store[i := store[i].(status := Active, paidAt := None, updatedAt := t2)]
            && (store[i].status == Active && store[i].paidAt == None ==>
                  after.store == store[i := store[i].(updatedAt := t2)])
  {
  }

  lemma {:induction false} CountStatusAppend(a: seq<Debt>, b: seq<Debt>, st: DebtStatus)
    decreases |a|
    ensures CountStatus(a + b, st) == CountStatus(a, st) + CountStatus(b, st)
  {
    if |a| > 0 {
      assert (a + b)[0] == a[0];
      assert (a + b)[1..] == a[1..] + b;
      CountStatusAppend(a[1..], b, st);
    } else {
      assert a + b == b;
    }
  }

  /** Splitting a store around position `i`. */
  lemma CountStatusSplit(s: seq<Debt>, i: nat, st: DebtStatus)
    requires i < |s|
    ensures CountStatus(s, st) == CountStatus(s[..i], st) + (if s[i].status == st then 1 else 0) + CountStatus(s[i + 1..], st)
  {
    assert s == s[..i] + ([s[i]] + s[i + 1..]);
    CountStatusAppend(s[..i], [s[i]] + s[i + 1..], st);
    CountStatusAppend([s[i]], s[i + 1..], st);
  }

  /** Replacing record `i` changes the count by what the two records contribute. */
  lemma CountStatusReplace(s: seq<Debt>, i: nat, x: Debt, st: DebtStatus)
    requires i < |s|
    ensures CountStatus(s[i := x], st)
              == CountStatus(s, st) - (if s[i].status == st then 1 else 0) + (if x.status == st then 1 else 0)
  {
    CountStatusSplit(s, i, st);
    CountStatusSplit(s[i := x], i, st);
    assert s[i := x][..i] == s[..i];
    assert s[i := x][i + 1..] == s[i + 1..];
  }

  /** Removing record `i` takes away what it contributes. */
  lemma CountStatusRemove(s: seq<Debt>, i: nat, st: DebtStatus)
    requires i < |s|
    ensures CountStatus(s[..i] + s[i + 1..], st) == CountStatus(s, st) - (if s[i].status == st then 1 else 0)
  {
    CountStatusSplit(s, i, st);
    CountStatusAppend(s[..i], s[i + 1..], st);
  }

  /** No route moves a record into `PartiallyPaid`: the number of such
      records never grows. */
  lemma NoRouteEntersPartiallyPaid(store: seq<Debt>, userId: string, id: string, newId: string,
                                   now: Timestamp, rates: RateTable, input: DebtCreate, u: DebtUpdate)
    ensures CountStatus(CreateDebt(store, userId, newId, now, rates, input).store, PartiallyPaid) == CountStatus(store, PartiallyPaid)
    ensures CountStatus(UpdateDebt(store, userId, id, u, now, rates).store, PartiallyPaid) == CountStatus(store, PartiallyPaid)
    ensures CountStatus(DeleteDebt(store, userId, id).store, PartiallyPaid) <= CountStatus(store, PartiallyPaid)
    ensures CountStatus(MarkPaid(store, userId, id, now).store, PartiallyPaid) <= CountStatus(store, PartiallyPaid)
    ensures CountStatus(MarkUnpaid(store, userId, id, now).store, PartiallyPaid) <= CountStatus(store, PartiallyPaid)
  {
    var st := PartiallyPaid;
    var d := NewDebt(userId, newId, now, rates, input);
    CountStatusAppend(store, [d], st);
    assert CountStatus([d], st) == 0;
    match FindOwned(store, userId, id)
    case None =>
    case Some(i) =>
      var up := UpdateDebt(store, userId, id, u, now, rates).store;
      assert up == store[i := up[i]];
      CountStatusReplace(store, i, up[i], st);
      CountStatusRemove(store, i, st);
      var paid := MarkPaid(store, userId, id, now).store;
      assert paid == store[i := paid[i]];
      CountStatusReplace(store, i, paid[i], st);
      var unpaid := MarkUnpaid(store, userId, id, now).store;
      assert unpaid == store[i := unpaid[i]];
      CountStatusReplace(store, i, unpaid[i], st);
  }

  // ---------------------------------------------------------------------
  // Ownership isolation.

  lemma {:induction false} UserDebtsAppend(a: seq<Debt>, b: seq<Debt>, userId: string)
    decreases |a|
    ensures UserDebts(a + b, userId) == UserDebts(a, userId) + UserDebts(b, userId)
  {
    if |a| > 0 {
      assert (a + b)[0] == a[0];
      assert (a + b)[1..] == a[1..] + b;
      UserDebtsAppend(a[1..], b, userId);
    } else {
      assert a + b == b;
    }
  }

  /** Replacing, removing or adding records of other users does not change
      what `userId` sees. */
  lemma UserDebtsIgnoreOthers(s: seq<Debt>, i: nat, d: Debt, userId: string)
    requires i < |s| && s[i].userId != userId && d.userId != userId
    ensures UserDebts(s[i := d], userId) == UserDebts(s, userId)
    ensures UserDebts(s[..i] + s[i + 1..], userId) == UserDebts(s, userId)
    ensures UserDebts(s + [d], userId) == UserDebts(s, userId)
  {
    assert s == s[..i] + ([s[i]] + s[i + 1..]);
    assert s[i := d] == s[..i] + ([d] + s[i + 1..]);
    UserDebtsAppend(s[..i], [s[i]] + s[i + 1..], userId);
    UserDebtsAppend([s[i]], s[i + 1..], userId);
    UserDebtsAppend(s[..i], [d] + s[i + 1..], userId);
    UserDebtsAppend([d], s[i + 1..], userId);
    UserDebtsAppend(s[..i], s[i + 1..], userId);
    UserDebtsAppend(s, [d], userId);
    assert UserDebts([d], userId) == [];
    assert UserDebts([s[i]], userId) == [];
  }

  /** Nothing one user does changes the records another user can list. */
  lemma OtherUsersUnaffected(store: seq<Debt>, userId: string, other: string, id: string, newId: string,
                             now: Timestamp, rates: RateTable, input: DebtCreate, u: DebtUpdate)
    requires userId != other
    ensures UserDebts(CreateDebt(store, userId, newId, now, rates, input).store, other) == UserDebts(store, other)
    ensures UserDebts(UpdateDebt(store, userId, id, u, now, rates).store, other) == UserDebts(store, other)
    ensures UserDebts(DeleteDebt(store, userId, id).store, other) == UserDebts(store, other)
    ensures UserDebts(MarkPaid(store, userId, id, now).store, other) == UserDebts(store, other)
    ensures UserDebts(MarkUnpaid(store, userId, id, now).store, other) == UserDebts(store, other)
  {
    CreateIgnoresOthers(store, userId, other, newId, now, rates, input);
    UpdateIgnoresOthers(store, userId, other, id, now, rates, u);
    DeleteIgnoresOthers(store, userId, other, id);
    StatusIgnoresOthers(store, userId, other, id, now);
  }

  lemma CreateIgnoresOthers(store: seq<Debt>, userId: string, other: string, newId: string,
                            now: Timestamp, rates: RateTable, input: DebtCreate)
    requires userId != other
    ensures UserDebts(CreateDebt(store, userId, newId, now, rates, input).store, other) == UserDebts(store, other)
  {
    var d := NewDebt(userId, newId, now, rates, input);
    UserDebtsAppend(store, [d], other);
    assert UserDebts([d], other) == [];
  }

  lemma UpdateIgnoresOthers(store: seq<Debt>, userId: string, other: string, id: string,
                            now: Timestamp, rates: RateTable, u: DebtUpdate)
    requires userId != other
    ensures UserDebts(UpdateDebt(store, userId, id, u, now, rates).store, other) == UserDebts(store, other)
  {
    if FindOwned(store, userId, id).Some? {
      var i := FindOwned(store, userId, id).value;
      var after := UpdateDebt(store, userId, id, u, now, rates).store;
      assert after == store[i := after[i]];
      UserDebtsIgnoreOthers(store, i, after[i], other);
    }
  }

  lemma DeleteIgnoresOthers(store: seq<Debt>, userId: string, other: string, id: string)
    requires userId != other
    ensures UserDebts(DeleteDebt(store, userId, id).store, other) == UserDebts(store, other)
  {
    if FindOwned(store, userId, id).Some? {
      var i := FindOwned(store, userId, id).value;
      UserDebtsIgnoreOthers(store, i, store[i], other);
    }
  }

  lemma StatusIgnoresOthers(store: seq<Debt>, userId: string, other: string, id: string, now: Timestamp)
    requires userId != other
    ensures UserDebts(MarkPaid(store, userId, id, now).store, other) == UserDebts(store, other)
    ensures UserDebts(MarkUnpaid(store, userId, id, now).store, other) == UserDebts(store, other)
  {
    if FindOwned(store, userId, id).Some? {
      var i := FindOwned(store, userId, id).value;
      var paid := MarkPaid(store, userId, id, now).store;
      assert paid == store[i := paid[i]];
      UserDebtsIgnoreOthers(store, i, paid[i], other);
      var unpaid := MarkUnpaid(store, userId, id, now).store;
      assert unpaid == store[i := unpaid[i]];
      UserDebtsIgnoreOthers(store, i, unpaid[i], other);
    }
  }

  // ---------------------------------------------------------------------
  // Identity.

  /** A create with a fresh id keeps ids unique, and the new record can be
      fetched by its owner straight away. */
  lemma CreateThenGet(store: seq<Debt>, userId: string, newId: string, now: Timestamp,
                      rates: RateTable, input: DebtCreate)
    requires UniqueIds(store)
    requires forall j :: 0 <= j < |store| ==> store[j].id != newId
    ensures var r := CreateDebt(store, userId, newId, now, rates, input);
            UniqueIds(r.store) && GetDebt(r.store, userId, newId) == r.result
  {
    var r := CreateDebt(store, userId, newId, now, rates, input);
    assert forall j :: 0 <= j < |store| ==> r.store[j] == store[j];
    var f := FindOwned(r.store, userId, newId);
    assert Owns(r.store[|store|], userId, newId);
    assert f.Some?;
  }

  /** With unique ids, a deleted record is gone: fetching it again is not found. */
  lemma DeleteThenGet(store: seq<Debt>, userId: string, id: string)
    requires UniqueIds(store)
    ensures var r := DeleteDebt(store, userId, id);
            UniqueIds(r.store) && GetDebt(r.store, userId, id).NotFound?
  {
  }
}
