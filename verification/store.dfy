/**
 The debt routes of the service as pure functions over an in-memory store.

 The store is the debts collection as a sequence in natural order. A
 single-document lookup, update or delete acts on the FIRST record whose id
 and owner both match, as the database's find_one/update_one/delete_one do.
 The caller's user id, the fresh record id and the clock reading are
 parameters; so is the rate table used for conversion.
 */
module Store {
  import opened Types
  import opened Rates

  /** The number of records a listing reads at most. */
  const ListLimit: nat := 1000

  /** The store after an operation together with what the route answers. */
  datatype Reply<+T> = Reply(store: seq<Debt>, result: Result<T>)

  /** `d` is the record `id` and belongs to `userId`. */
  predicate Owns(d: Debt, userId: string, id: string) {
    d.id == id && d.userId == userId
  }

  /** The index of the first record `id` owned by `userId`, if any. */
  function FindOwned(store: seq<Debt>, userId: string, id: string): (r: Option<nat>)
    ensures r.None? <==> forall j :: 0 <= j < |store| ==> !Owns(store[j], userId, id)
    ensures r.Some? ==> r.value < |store| && Owns(store[r.value], userId, id)
    ensures r.Some? ==> forall j :: 0 <= j < r.value ==> !Owns(store[j], userId, id)
  {
    if |store| == 0 then None
    else if Owns(store[0], userId, id) then Some(0)
    else
      match FindOwned(store[1..], userId, id)
      case None => None
      case Some(k) => Some(k + 1)
  }

  /** Every record of `userId`, in store order. */
  function UserDebts(store: seq<Debt>, userId: string): (r: seq<Debt>)
    ensures |r| <= |store|
    ensures forall i :: 0 <= i < |r| ==> r[i].userId == userId
    ensures forall d :: d in r <==> d in store && d.userId == userId
  {
    if |store| == 0 then []
    else if store[0].userId == userId then [store[0]] + UserDebts(store[1..], userId)
    else UserDebts(store[1..], userId)
  }

  /** `store[j]` belongs to `userId`. */
  predicate OwnedAt(store: seq<Debt>, userId: string, j: nat)
    requires j < |store|
  {
    store[j].userId == userId
  }

  /** The positions from `from` on that hold one of the user's records, in order. */
  function PositionsFrom(store: seq<Debt>, userId: string, from: nat): (idx: seq<nat>)
    requires from <= |store|
    ensures forall k :: 0 <= k < |idx| ==> from <= idx[k] < |store|
    decreases |store| - from
  {
    if from == |store| then []
    else (if store[from].userId == userId then [from] else []) + PositionsFrom(store, userId, from + 1)
  }

  /** Position by position, the user's records from `from` on are the records at those positions. */
  lemma {:induction false} PositionsSelect(store: seq<Debt>, userId: string, from: nat)
    requires from <= |store|
    ensures var idx := PositionsFrom(store, userId, from);
            && |idx| == |UserDebts(store[from..], userId)|
            && forall k :: 0 <= k < |idx| ==> UserDebts(store[from..], userId)[k] == store[idx[k]]
    decreases |store| - from
  {
    if from < |store| {
      PositionsSelect(store, userId, from + 1);
      var here := store[from..];
      assert here[1..] == store[from + 1..];
      UserDebtsStep(here, userId);
      var idx := PositionsFrom(store, userId, from);
      var rest := PositionsFrom(store, userId, from + 1);
      var mine := UserDebts(here, userId);
      var later := UserDebts(store[from + 1..], userId);
      if store[from].userId == userId {
        assert idx == [from] + rest && mine == [store[from]] + later;
        forall k | 0 <= k < |idx|
          ensures mine[k] == store[idx[k]]
        {
          if k > 0 {
            assert mine[k] == later[k - 1] && idx[k] == rest[k - 1];
          }
        }
      } else {
        assert idx == rest && mine == later;
      }
    }
  }

  /** One step of `UserDebts`. */
  lemma UserDebtsStep(s: seq<Debt>, userId: string)
    requires |s| > 0
    ensures UserDebts(s, userId) == (if s[0].userId == userId then [s[0]] else []) + UserDebts(s[1..], userId)
  {
  }

  /** Each position is smaller than every later one. */
  predicate Rising(idx: seq<nat>) {
    forall k, l :: 0 <= k < l < |idx| ==> idx[k] < idx[l]
  }

  /** The positions rise strictly. */
  lemma {:induction false} PositionsRise(store: seq<Debt>, userId: string, from: nat)
    requires from <= |store|
    ensures Rising(PositionsFrom(store, userId, from))
    decreases |store| - from
  {
    if from < |store| {
      PositionsRise(store, userId, from + 1);
      var rest := PositionsFrom(store, userId, from + 1);
      assert Rising(rest);
      var idx := PositionsFrom(store, userId, from);
      if store[from].userId == userId {
        assert idx == [from] + rest;
        forall k, l | 0 <= k < l < |idx|
          ensures idx[k] < idx[l]
        {
          assert idx[l] == rest[l - 1] && rest[l - 1] > from;
          if k > 0 {
            assert idx[k] == rest[k - 1] && rest[k - 1] < rest[l - 1];
          }
        }
      } else {
        assert idx == rest;
      }
    }
  }

  /** Every position from `from` on that holds one of the user's records is listed. */
  lemma {:induction false} PositionsCover(store: seq<Debt>, userId: string, from: nat)
    requires from <= |store|
    ensures var idx := PositionsFrom(store, userId, from);
            forall j :: from <= j < |store| && OwnedAt(store, userId, j) ==> j in idx
    decreases |store| - from
  {
    if from < |store| {
      PositionsCover(store, userId, from + 1);
    }
  }

  /** The user's records are the store's records of that user, each once and
      in store order: with `idx` the positions of the user's records, the
      k-th of them is the record at `idx[k]`, the positions rise strictly,
      and every position holding one of the user's records is among them. */
  lemma UserDebtsInStoreOrder(store: seq<Debt>, userId: string)
    ensures var idx := PositionsFrom(store, userId, 0);
            && |idx| == |UserDebts(store, userId)|
            && (forall k :: 0 <= k < |idx| ==> idx[k] < |store| && UserDebts(store, userId)[k] == store[idx[k]])
            && Rising(idx)
            && (forall j :: 0 <= j < |store| && OwnedAt(store, userId, j) ==> j in idx)
  {
    assert store[0..] == store;
    PositionsSelect(store, userId, 0);
    PositionsRise(store, userId, 0);
    PositionsCover(store, userId, 0);
  }

  /** The records a listing of `userId` returns: their first `ListLimit`. */
  function ListDebts(store: seq<Debt>, userId: string): (r: seq<Debt>)
    ensures |r| == if |UserDebts(store, userId)| <= ListLimit then |UserDebts(store, userId)| else ListLimit
    ensures r <= UserDebts(store, userId)
  {
    var all := UserDebts(store, userId);
    if |all| <= ListLimit then all else all[..ListLimit]
  }

  /** The record a create request stores: the caller's, active, with its
      amount converted to lira. */
  function NewDebt(userId: string, newId: string, now: Timestamp, rates: RateTable, input: DebtCreate): (d: Debt)
    ensures d.id == newId && d.userId == userId
    ensures d.status == Active && d.paidAt == None
    ensures d.createdAt == now && d.updatedAt == now
    ensures d.amountInTry == ConvertToTry(input.amount, input.currency, rates)
    ensures d.debtType == input.debtType && d.personName == input.personName
    ensures d.amount == input.amount && d.currency == input.currency
    ensures d.description == input.description && d.category == input.category
    ensures d.dueDate == input.dueDate
  {
    Debt(
      id := newId,
      userId := userId,
      debtType := input.debtType,
      personName := input.personName,
      amount := input.amount,
      currency := input.currency,
      amountInTry := ConvertToTry(input.amount, input.currency, rates),
      description := input.description,
      category := input.category,
      status := Active,
      dueDate := input.dueDate,
      createdAt := now,
      updatedAt := now,
      paidAt := None)
  }

  /** Create: append the new record and answer with it. */
  function CreateDebt(store: seq<Debt>, userId: string, newId: string, now: Timestamp,
                      rates: RateTable, input: DebtCreate): (r: Reply<Debt>)
    ensures r.result.Ok?
    ensures r.store == store + [r.result.value]
    ensures r.result.value == NewDebt(userId, newId, now, rates, input)
  {
    var d := NewDebt(userId, newId, now, rates, input);
    Reply(store + [d], Ok(d))
  }

  /** Get one record, scoped to its owner. */
  function GetDebt(store: seq<Debt>, userId: string, id: string): (r: Result<Debt>)
    ensures r.NotFound? <==> forall j :: 0 <= j < |store| ==> !Owns(store[j], userId, id)
    ensures r.Ok? ==> r.value in store && Owns(r.value, userId, id)
    ensures r.Ok? ==> exists i :: 0 <= i < |store| && store[i] == r.value && FindOwned(store, userId, id) == Some(i)
  {
    match FindOwned(store, userId, id)
    case None => NotFound
    case Some(i) => Ok(store[i])
  }

  /** The record after a partial update: each supplied field replaces the
      stored one, `updatedAt` is refreshed, and the lira amount is
      recomputed exactly when the amount or the currency was supplied. */
  function ApplyUpdate(d: Debt, u: DebtUpdate, now: Timestamp, rates: RateTable): (r: Debt)
    ensures r.id == d.id && r.userId == d.userId && r.debtType == d.debtType && r.status == d.status
    ensures r.createdAt == d.createdAt && r.paidAt == d.paidAt
    ensures r.updatedAt == now
    ensures r.personName == (if u.personName.Some? then u.personName.value else d.personName)
    ensures r.amount == (if u.amount.Some? then u.amount.value else d.amount)
    ensures r.currency == (if u.currency.Some? then u.currency.value else d.currency)
    ensures r.description == (if u.description.Some? then u.description.value else d.description)
    ensures r.category == (if u.category.Some? then u.category.value else d.category)
    ensures r.dueDate == (if u.dueDate.Some? then u.dueDate.value else d.dueDate)
    ensures u.amount.Some? || u.currency.Some? ==> r.amountInTry == ConvertToTry(r.amount, r.currency, rates)
    ensures u.amount.None? && u.currency.None? ==> r.amountInTry == d.amountInTry
  {
    var amount := u.amount.GetOr(d.amount);
    var currency := u.currency.GetOr(d.currency);
    d.(
      personName := u.personName.GetOr(d.personName),
      amount := amount,
      currency := currency,
      description := u.description.GetOr(d.description),
      category := u.category.GetOr(d.category),
      dueDate := u.dueDate.GetOr(d.dueDate),
      updatedAt := now,
      amountInTry := if u.amount.Some? || u.currency.Some? then ConvertToTry(amount, currency, rates)
                     else d.amountInTry)
  }

  /** Update: apply the partial update to the owned record, then answer with
      that record read back from the store. */
  function UpdateDebt(store: seq<Debt>, userId: string, id: string, u: DebtUpdate,
                      now: Timestamp, rates: RateTable): (r: Reply<Debt>)
    ensures r.result.NotFound? <==> FindOwned(store, userId, id).None?
    ensures r.result.NotFound? ==> r.store == store
    ensures r.result.Ok? ==>
              var i := FindOwned(store, userId, id).value;
              && |r.store| == |store|
              && r.store[i] == ApplyUpdate(store[i], u, now, rates)
              && r.result.value == r.store[i]
              && (forall j :: 0 <= j < |store| && j != i ==> r.store[j] == store[j])
  {
    match FindOwned(store, userId, id)
    case None => Reply(store, NotFound)
    case Some(i) =>
      var updated := store[i := ApplyUpdate(store[i], u, now, rates)];
      assert FindOwned(updated, userId, id) == Some(i) by {
        assert Owns(updated[i], userId, id);
        assert forall j :: 0 <= j < i ==> updated[j] == store[j];
      }
      Reply(updated, GetDebt(updated, userId, id))
  }

  /** Delete: remove the owned record. */
  function DeleteDebt(store: seq<Debt>, userId: string, id: string): (r: Reply<()>)
    ensures r.result.NotFound? <==> FindOwned(store, userId, id).None?
    ensures r.result.NotFound? ==> r.store == store
    ensures r.result.Ok? ==>
              var i := FindOwned(store, userId, id).value;
              && |r.store| == |store| - 1
              && (forall j :: 0 <= j < i ==> r.store[j] == store[j])
              && (forall j :: i < j < |store| ==> r.store[j - 1] == store[j])
  {
    match FindOwned(store, userId, id)
    case None => Reply(store, NotFound)
    case Some(i) => Reply(store[..i] + store[i + 1..], Ok(()))
  }

  /** `after` is `before` with record `i` given `status`, `paidAt` and
      `updatedAt := now`, and nothing else changed. */
  predicate StatusOverwritten(before: seq<Debt>, after: seq<Debt>, i: nat, status: DebtStatus,
                              paidAt: Option<Timestamp>, now: Timestamp)
  {
    && i < |before| == |after|
    && after[i].status == status && after[i].paidAt == paidAt && after[i].updatedAt == now
    && after[i].(status := before[i].status, paidAt := before[i].paidAt, updatedAt := before[i].updatedAt) == before[i]
    && (forall j :: 0 <= j < |before| && j != i ==> after[j] == before[j])
  }

  /** Overwrite the status of the owned record, whatever it was. */
  function SetStatus(store: seq<Debt>, userId: string, id: string, status: DebtStatus,
                     paidAt: Option<Timestamp>, now: Timestamp): (r: Reply<()>)
    ensures r.result.NotFound? <==> FindOwned(store, userId, id).None?
    ensures r.result.NotFound? ==> r.store == store
    ensures r.result.Ok? ==>
              StatusOverwritten(store, r.store, FindOwned(store, userId, id).value, status, paidAt, now)
  {
    match FindOwned(store, userId, id)
    case None => Reply(store, NotFound)
    case Some(i) =>
      Reply(store[i := store[i].(status := status, paidAt := paidAt, updatedAt := now)], Ok(()))
  }

  /** Mark paid: the record becomes `Paid` with `paidAt` set, from any status. */
  function MarkPaid(store: seq<Debt>, userId: string, id: string, now: Timestamp): (r: Reply<()>)
    ensures r.result.NotFound? <==> FindOwned(store, userId, id).None?
    ensures r.result.NotFound? ==> r.store == store
    ensures r.result.Ok? ==> StatusOverwritten(store, r.store, FindOwned(store, userId, id).value, Paid, Some(now), now)
  {
    SetStatus(store, userId, id, Paid, Some(now), now)
  }

  /** Mark unpaid: the record becomes `Active` with `paidAt` cleared, from any status. */
  function MarkUnpaid(store: seq<Debt>, userId: string, id: string, now: Timestamp): (r: Reply<()>)
    ensures r.result.NotFound? <==> FindOwned(store, userId, id).None?
    ensures r.result.NotFound? ==> r.store == store
    ensures r.result.Ok? ==> StatusOverwritten(store, r.store, FindOwned(store, userId, id).value, Active, None, now)
  {
    SetStatus(store, userId, id, Active, None, now)
  }
}
