/**
 The dashboard statistics: one pass over a user's records that counts the
 active ones, sums their lira amounts by direction, groups what the user
 owes by counterparty, and collects the overdue ones; then the largest
 group and the most overdue record are picked the way the service's
 `max(...)` calls pick them (the first maximal element wins).

 Alongside the pass this module defines the reference quantities the pass
 is proved against: filtered sums and counts over the records, the names
 of the counterparties in order of first appearance, and the overdue items.
 */
module Dashboard {
  import opened Types
  import opened Store

  /** One day of the service's clock (microseconds). */
  const MicrosPerDay: int := 86_400_000_000

  /** An active debt the user owes. */
  predicate IsOwed(d: Debt) {
    d.status == Active && d.debtType == IOwe
  }

  /** An active debt owed to the user. */
  predicate IsToCollect(d: Debt) {
    d.status == Active && d.debtType == TheyOwe
  }

  /** An active debt whose due date is strictly before `now`. */
  predicate IsOverdue(d: Debt, now: Timestamp) {
    d.status == Active && d.dueDate.Some? && d.dueDate.value < now
  }

  /** Whole days between the due date and `now`, rounded down. */
  function OverdueDays(d: Debt, now: Timestamp): (days: nat)
    requires IsOverdue(d, now)
    ensures days * MicrosPerDay <= now - d.dueDate.value < (days + 1) * MicrosPerDay
  {
    (now - d.dueDate.value) / MicrosPerDay
  }

  // ---------------------------------------------------------------------
  // Reference quantities.

  /** Which records a sum or a count ranges over. */
  datatype Selector =
    | Owed
    | ToCollect
    | OwedTo(person: string)
    | ActiveRecords
    | OverdueAt(now: Timestamp)

  predicate Selects(s: Selector, d: Debt) {
    match s
    case Owed => IsOwed(d)
    case ToCollect => IsToCollect(d)
    case OwedTo(p) => IsOwed(d) && d.personName == p
    case ActiveRecords => d.status == Active
    case OverdueAt(now) => IsOverdue(d, now)
  }

  /** The sum of the lira amounts of the selected records. */
  function SumOf(ds: seq<Debt>, s: Selector): real {
    if |ds| == 0 then 0.0
    else (if Selects(s, ds[0]) then ds[0].amountInTry else 0.0) + SumOf(ds[1..], s)
  }

  /** The number of selected records. */
  function CountOf(ds: seq<Debt>, s: Selector): nat {
    if |ds| == 0 then 0
    else (if Selects(s, ds[0]) then 1 else 0) + CountOf(ds[1..], s)
  }

  /** Some record before position `bound` is an active debt owed to `name`. */
  predicate OwedBefore(ds: seq<Debt>, name: string, bound: nat)
    requires bound <= |ds|
  {
    exists i :: 0 <= i < bound && IsOwed(ds[i]) && ds[i].personName == name
  }

  /** The counterparties the user owes, each once, in order of first appearance. */
  function OwedNames(ds: seq<Debt>): seq<string> {
    if |ds| == 0 then []
    else
      var names := OwedNames(ds[..|ds| - 1]);
      var d := ds[|ds| - 1];
      if IsOwed(d) && d.personName !in names then names + [d.personName] else names
  }

  /** What the service remembers of an overdue record. */
  datatype OverdueItem = OverdueItem(description: string, person: string, days: int)

  function ItemOf(d: Debt, now: Timestamp): OverdueItem
    requires IsOverdue(d, now)
  {
    OverdueItem(d.description, d.personName, OverdueDays(d, now))
  }

  /** The overdue records, in record order. */
  function OverdueItems(ds: seq<Debt>, now: Timestamp): seq<OverdueItem> {
    if |ds| == 0 then []
    else
      var d := ds[|ds| - 1];
      OverdueItems(ds[..|ds| - 1], now) + (if IsOverdue(d, now) then [ItemOf(d, now)] else [])
  }

  /** The text the dashboard shows for the most overdue record. */
  function Label(it: OverdueItem): string {
    it.description + " - " + it.person
  }

  // ---------------------------------------------------------------------
  // The pass over the records.

  /** A counterparty and the running total the user owes them. */
  datatype PersonSum = PersonSum(name: string, amount: real)

  /** The loop state of the pass. `personAmounts` is an insertion-ordered
      dictionary: names are appended when first seen. */
  datatype Tally = Tally(
    totalOwed: real,
    totalToCollect: real,
    personAmounts: seq<PersonSum>,
    overdue: seq<OverdueItem>,
    activeCount: nat,
    overdueCount: nat
  )

  const EmptyTally: Tally := Tally(0.0, 0.0, [], [], 0, 0)

  /** The position of `name` among the dictionary's keys, or `|ps|`. */
  function NameIndex(ps: seq<PersonSum>, name: string): (k: nat)
    ensures k <= |ps|
    ensures k < |ps| ==> ps[k].name == name
    ensures forall j :: 0 <= j < k ==> ps[j].name != name
  {
    if |ps| == 0 then 0
    else if ps[0].name == name then 0
    else 1 + NameIndex(ps[1..], name)
  }

  /** The dictionary's `get(name, 0)`. */
  function Get(ps: seq<PersonSum>, name: string): real {
    var k := NameIndex(ps, name);
    if k < |ps| then ps[k].amount else 0.0
  }

  /** A position holding `n` with no `n` before it is `n`'s index. */
  lemma NameIndexAt(ps: seq<PersonSum>, n: string, p: nat)
    requires p < |ps| && ps[p].name == n
    requires forall j :: 0 <= j < p ==> ps[j].name != n
    ensures NameIndex(ps, n) == p
  {
  }

  /** Two dictionaries that agree on the names of the first `|ps|` entries
      and whose extra entries are not `n` find `n` at the same place. */
  lemma NameIndexExtended(ps: seq<PersonSum>, qs: seq<PersonSum>, n: string)
    requires |ps| <= |qs|
    requires forall k :: 0 <= k < |ps| ==> qs[k].name == ps[k].name
    requires forall k :: |ps| <= k < |qs| ==> qs[k].name != n
    ensures NameIndex(qs, n) == if NameIndex(ps, n) < |ps| then NameIndex(ps, n) else |qs|
  {
    var p := NameIndex(ps, n);
    if p < |ps| {
      NameIndexAt(qs, n, p);
    }
  }

  /** Add `x` to the entry for `name`, creating it (from zero) at the end if absent. */
  function AddToPerson(ps: seq<PersonSum>, name: string, x: real): seq<PersonSum> {
    var k := NameIndex(ps, name);
    if k < |ps| then ps[k := ps[k].(amount := ps[k].amount + x)]
    else ps + [PersonSum(name, x)]
  }

  /** `AddToPerson` is the dictionary update `person_amounts[name] =
      get(name, 0) + x`: the entry for `name` grows by `x`, every other
      entry keeps its amount, the existing keys keep their order, and a new
      key goes at the end. */
  lemma AddToPersonUpdates(ps: seq<PersonSum>, name: string, x: real)
    ensures var r := AddToPerson(ps, name, x);
            && |r| == (if NameIndex(ps, name) < |ps| then |ps| else |ps| + 1)
            && (forall k :: 0 <= k < |ps| ==> r[k].name == ps[k].name)
            && (|r| == |ps| + 1 ==> r[|ps|].name == name)
            && Get(r, name) == Get(ps, name) + x
            && (forall n :: n != name ==> Get(r, n) == Get(ps, n))
  {
    var k := NameIndex(ps, name);
    var r := AddToPerson(ps, name, x);
    assert forall j :: 0 <= j < |ps| ==> r[j].name == ps[j].name;
    NameIndexAt(r, name, k);
    forall n | n != name
      ensures Get(r, n) == Get(ps, n)
    {
      NameIndexExtended(ps, r, n);
    }
  }

  /** One iteration of the loop over the records. */
  function Step(t: Tally, d: Debt, now: Timestamp): Tally {
    if d.status != Active then t
    else
      var counted := t.(activeCount := t.activeCount + 1);
      var summed :=
        if d.debtType == IOwe then
          counted.(totalOwed := t.totalOwed + d.amountInTry,
                   personAmounts := AddToPerson(t.personAmounts, d.personName, d.amountInTry))
        else
          counted.(totalToCollect := t.totalToCollect + d.amountInTry);
      if d.dueDate.Some? && d.dueDate.value < now then
        summed.(overdueCount := t.overdueCount + 1, overdue := t.overdue + [ItemOf(d, now)])
      else
        summed
  }

  /** The loop state after visiting `ds` from first to last. */
  function TallyOf(ds: seq<Debt>, now: Timestamp): Tally {
    if |ds| == 0 then EmptyTally
    else Step(TallyOf(ds[..|ds| - 1], now), ds[|ds| - 1], now)
  }

  /** The dictionary key with the largest amount; on a tie, the earliest. */
  function MaxByAmount(ps: seq<PersonSum>): (w: nat)
    requires |ps| > 0
    ensures w < |ps|
    ensures forall k :: 0 <= k < |ps| ==> ps[k].amount <= ps[w].amount
    ensures forall k :: 0 <= k < w ==> ps[k].amount < ps[w].amount
  {
    if |ps| == 1 then 0
    else
      var best := MaxByAmount(ps[..|ps| - 1]);
      if ps[|ps| - 1].amount > ps[best].amount then |ps| - 1 else best
  }

  /** The overdue item with the most days; on a tie, the earliest. */
  function MaxByDays(items: seq<OverdueItem>): (w: nat)
    requires |items| > 0
    ensures w < |items|
    ensures forall k :: 0 <= k < |items| ==> items[k].days <= items[w].days
    ensures forall k :: 0 <= k < w ==> items[k].days < items[w].days
  {
    if |items| == 1 then 0
    else
      var best := MaxByDays(items[..|items| - 1]);
      if items[|items| - 1].days > items[best].days then |items| - 1 else best
  }

  /** The statistics built from the final loop state. */
  function Summarize(t: Tally): DashboardStats {
    var oweMost := if |t.personAmounts| == 0 then None else Some(t.personAmounts[MaxByAmount(t.personAmounts)]);
    var mostOverdue := if |t.overdue| == 0 then None else Some(t.overdue[MaxByDays(t.overdue)]);
    DashboardStats(
      totalOwed := t.totalOwed,
      totalToCollect := t.totalToCollect,
      netBalance := t.totalToCollect - t.totalOwed,
      personOweMost := if oweMost.Some? then Some(oweMost.value.name) else None,
      personOweMostAmount := if oweMost.Some? then oweMost.value.amount else 0.0,
      mostOverdueDebt := if mostOverdue.Some? then Some(Label(mostOverdue.value)) else None,
      mostOverdueDays := if mostOverdue.Some? then mostOverdue.value.days else 0,
      activeDebtsCount := t.activeCount,
      overdueDebtsCount := t.overdueCount)
  }

  /** The statistics of a sequence of records as of `now`. */
  function ComputeStats(ds: seq<Debt>, now: Timestamp): DashboardStats {
    Summarize(TallyOf(ds, now))
  }

  /** The dashboard route: the statistics of the records a listing of the
      user returns. */
  function GetDashboardStats(store: seq<Debt>, userId: string, now: Timestamp): DashboardStats {
    ComputeStats(ListDebts(store, userId), now)
  }
}
