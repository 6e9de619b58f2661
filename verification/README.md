# Debt tracker core in Dafny

This project models the backend of a personal debt tracker: a web service that records who owes whom, converts foreign-currency amounts to Turkish lira (TRY), and summarises one user's debts on a dashboard. It models three parts of `backend/server.py`:

- **Currency normalisation.** `convert_to_try` returns a lira amount unchanged. It multiplies any other amount by a rate from a table, and uses 1.0 when the table has no rate for the currency. The table is built from an exchange-rate feed, or from the fixed fallback 34 (USD) and 37 (EUR) when the feed cannot be read.
- **The debt routes** as pure functions over an in-memory store (`seq<Debt>`): create, get, list, partial update, delete, mark-paid and mark-unpaid. Every lookup is scoped by record id and owner. A failed lookup is the service's 404 and leaves the store as it was.
- **The dashboard statistics**, one pass over the user's records:
  - totals by direction and the net balance;
  - the active and overdue counts;
  - the counterparty the user owes most;
  - the most overdue debt.

Files:

| file | module | contents |
|---|---|---|
| `types.dfy` | `Types` | enums, `Debt`, request bodies, `DashboardStats`, `Option`, `Result` |
| `rates.dfy` | `Rates` | rate table, feed parsing, `ConvertToTry` and its laws |
| `store.dfy` | `Store` | the debt routes |
| `store_properties.dfy` | `StoreProperties` | consistency, status round trips, isolation, identity |
| `dashboard.dfy` | `Dashboard` | the pass over the records and its reference quantities |
| `dashboard_properties.dfy` | `DashboardProperties` | what each statistic equals |
| `scenarios.dfy` | `Scenarios` | three worked dashboards |

Representation choices:

- Amounts are exact `real`s.
- Timestamps are integers counting microseconds, the resolution of the service's clock. The model keeps every timestamp exactly, including stored ones (see "## Left out").
- Overdue days are `(now - due) / 86_400_000_000`. This rounds down, as `timedelta.days` does for a positive difference.
- The caller's user id, the new record's id, the clock reading and the rate table are parameters of the operations.
- Single-record database calls act on the first record that matches both id and owner.

Behaviour of the code worth knowing before reading the contracts:

- Totals and counts include only `ACTIVE` records, so `PAID` and `PARTIALLY_PAID` records are both left out (`backend/server.py:344`).
- A tie for the person owed most goes to the name first inserted into the dictionary, not to the alphabetically first name. `Scenarios.TieGoesToFirstRecorded` shows this.
- A tie for the most overdue debt goes to the first such record, whatever the amounts.
- Conversion does not round and never fails.
- No field is validated beyond its type.
- Mark-paid on a paid record is not a no-op, because it rewrites `paid_at` and `updated_at`.
- No operation records a partial payment. `PARTIALLY_PAID` is declared and never assigned.

## Model

| member | source | states |
|---|---|---|
| `Rates.ExchangeRates` | backend/server.py:163-182 | The table always has TRY at 1.0 and rates for USD and EUR. With a feed that quotes both currencies with non-zero values, each rate is the reciprocal of its quote. Otherwise (failed request, missing or zero quote) it is the fallback table 1/34/37. |
| `Rates.ConvertToTry` | backend/server.py:184-190 | A TRY amount is returned unchanged. Another currency is multiplied by its table rate. A currency missing from the table converts at 1.0. |
| `Rates.FeedConversionInverts` | backend/server.py:163-190 | With a readable feed, a converted foreign amount multiplied by the feed's quote gives back the original amount. |
| `Rates.ConversionIsAdditive` | backend/server.py:184-190 | Converting a sum equals summing the conversions, so lira totals do not depend on how amounts in one currency are split. |
| `Rates.ConversionKeepsSign` | backend_test.py:291 | With positive rates, a positive amount converts to a positive lira amount. |
| `Store.FindOwned` | backend/server.py:266-268 | Gives the first record whose id and owner both match. It gives none exactly when no record matches both. |
| `Store.UserDebts` | backend/server.py:259-262 | Every listed record belongs to the user, and a record is listed exactly when it is one of the user's records in the store. |
| `Store.UserDebtsInStoreOrder` | backend/server.py:259-262 | The user's records are listed in store order, each exactly once: the k-th listed record is the record at the k-th position holding one of the user's records, those positions rise strictly, and every such position is used. |
| `Store.ListDebts` | backend/server.py:259-262 | A listing is a prefix of the user's records, of length min(count, 1000). |
| `Store.NewDebt` | backend/server.py:83-106 | A created record has the fresh id and the caller's user id. It is `ACTIVE` with no `paid_at`, both timestamps are the creation time, and `amount_in_try` is the conversion of the input. Every other field is copied from the request. |
| `Store.CreateDebt` | backend/server.py:239-257 | Create always succeeds, appends the new record and answers with it. |
| `Store.GetDebt` | backend/server.py:264-269 | Not found holds exactly when the caller owns no record with that id. Otherwise the answer is the first such record. |
| `Store.ApplyUpdate` | backend/server.py:108-114 | Each supplied field replaces the stored one and `updated_at` is refreshed. `id`, owner, direction, status, `created_at` and `paid_at` never change. `amount_in_try` is recomputed from the new-or-old amount and currency exactly when amount or currency was supplied, and kept otherwise. |
| `Store.UpdateDebt` | backend/server.py:271-292 | Not found holds exactly when the caller owns no such record, and then the store is unchanged. Otherwise only the matched record changes, and the answer read back is that updated record. |
| `Store.DeleteDebt` | backend/server.py:294-299 | Not found leaves the store unchanged. Otherwise exactly the matched record is removed and the others keep their order. |
| `Store.SetStatus` | backend/server.py:301-325 | Overwrites status, `paid_at` and `updated_at` of the matched record whatever its status was, and changes nothing else. Not found leaves the store unchanged. |
| `Store.MarkPaid` | backend/server.py:301-312 | From any status the record becomes `PAID` with `paid_at` set, and nothing else changes. Not found leaves the store unchanged. |
| `Store.MarkUnpaid` | backend/server.py:314-325 | From any status the record becomes `ACTIVE` with `paid_at` cleared, and nothing else changes. Not found leaves the store unchanged. |
| `StoreProperties.CreateKeepsConsistent` | backend/server.py:241-254 | After a create, every record's `amount_in_try` still equals the conversion of its amount and currency under the same rates. |
| `StoreProperties.UpdateKeepsConsistent` | backend/server.py:280-284 | Updates keep `amount_in_try` consistent with amount and currency, whether or not those were supplied. |
| `StoreProperties.DeleteKeepsConsistent` | backend/server.py:294-299 | Deletes keep every record consistent. |
| `StoreProperties.StatusChangeKeepsConsistent` | backend/server.py:301-325 | Mark-paid and mark-unpaid keep every record consistent, because they leave amounts alone. |
| `StoreProperties.MarkPaidIdempotent` | backend/server.py:301-312 | Marking paid twice at the same instant equals marking paid once. |
| `StoreProperties.MarkUnpaidIdempotent` | backend/server.py:314-325 | Marking unpaid twice at the same instant equals marking unpaid once. |
| `StoreProperties.PaidThenUnpaidRoundTrip` | backend/server.py:301-325 | Paid then unpaid leaves the record `ACTIVE` with `paid_at` cleared and every other field except `updated_at` as before. An active, never-paid record comes back identical apart from `updated_at`. |
| `StoreProperties.NoRouteEntersPartiallyPaid` | backend/server.py:239-325 | No route increases the number of `PARTIALLY_PAID` records. |
| `StoreProperties.OtherUsersUnaffected` | backend/server.py:239-325 | Create, update, delete and both status changes by one user leave every other user's records exactly as they were. |
| `StoreProperties.CreateThenGet` | backend/server.py:239-269 | A create with a fresh id keeps ids unique, and getting the new id returns the created record. The service agrees except that later reads cut the timestamps to the millisecond (see "## Left out"). |
| `StoreProperties.DeleteThenGet` | backend/server.py:264-299 | With unique ids, a delete keeps them unique, and the deleted record can no longer be fetched. |
| `Dashboard.OverdueDays` | backend/server.py:357-359 | Overdue days are the whole days elapsed since the due date, rounded down. |
| `Dashboard.MaxByAmount` | backend/server.py:369-371 | Gives a key with the largest amount. Every earlier key has a strictly smaller amount, so ties go to the first key inserted. |
| `Dashboard.MaxByDays` | backend/server.py:376-379 | Gives an overdue item with the most days. Every earlier item has strictly fewer days, so ties go to the first item. |
| `DashboardProperties.TallyTotals` | backend/server.py:341-364 | After the loop (`TallyOf`, one `Step` per record) over any records, the two running totals equal the sums of active I_OWE and active THEY_OWE lira amounts, the active count counts `ACTIVE` records, and the overdue count counts active records past due. |
| `DashboardProperties.TallyOverdue` | backend/server.py:356-364 | The overdue list the loop (`TallyOf`, `Step`) builds holds one item (description, person, whole days) per active record past due, in record order. |
| `DashboardProperties.TallyGroups` | backend/server.py:347-352 | The per-person dictionary the loop (`TallyOf`, `Step`) builds holds each counterparty the user owes exactly once, in order of first appearance, with the sum of that counterparty's active I_OWE lira amounts. |
| `Dashboard.AddToPersonUpdates` | backend/server.py:350-352 | `AddToPerson` is `person_amounts[name] = get(name, 0) + amount`: the entry for the name grows by the amount, every other name keeps its amount, existing keys keep their order, and a new name is added at the end. |
| `DashboardProperties.StatsTotals` | backend/server.py:344-354 | Of `ComputeStats` (`Summarize` applied to the loop state): `total_owed` sums active I_OWE records and `total_to_collect` sums active THEY_OWE records. `net_balance` is their difference. The active count counts `ACTIVE` records and the overdue count counts active records past due, so 0 <= overdue <= active <= records. |
| `DashboardProperties.StatsNobodyOwed` | backend/server.py:366-371 | Of `ComputeStats` (`Summarize` applied to the loop state): the person owed most is None, with amount 0, exactly when no active I_OWE record exists. |
| `DashboardProperties.StatsPersonOweMost` | backend/server.py:366-371 | Of `ComputeStats` (`Summarize` applied to the loop state): when some active I_OWE record exists, the reported person is owed something and the reported amount is what is owed to that person. No one is owed more, and anyone owed as much appears no earlier than the reported person. |
| `DashboardProperties.PersonSumsAddUp` | backend/server.py:347-352 | The per-person sums add up to `total_owed`. |
| `DashboardProperties.MostOverdueWitness` | backend/server.py:376-379 | The item picked from the overdue list belongs to the first record with the most overdue days. |
| `DashboardProperties.StatsMostOverdue` | backend/server.py:356-379 | None with 0 days exactly when no active record is past due. Otherwise the report is "description - person" and the days of an overdue record that no overdue record beats, and no earlier overdue record ties with it. |
| `DashboardProperties.SummaryOverdue` | backend/server.py:373-391 | `Summarize` reports no debt with 0 days exactly when the loop's overdue list is empty. Otherwise it reports the label and days of the item picked by `max`. |
| `DashboardProperties.OnlyActiveRecordsCount` | backend/server.py:344-364 | The statistics of a sequence of records are those of its active records alone. `PAID` and `PARTIALLY_PAID` records contribute nothing. |
| `DashboardProperties.EmptyStats` | backend/server.py:332-337 | No records gives zero totals, zero counts and no insights. |
| `DashboardProperties.DashboardRoute` | backend/server.py:328-391 | `GetDashboardStats` works on the user's listed records only (all of them when there are at most 1000). Its totals and counts are the filtered sums and counts over those records. It reports nobody owed most exactly when none of them is owed, and no most-overdue debt exactly when none of them is overdue. |
| `DashboardProperties.DashboardIsolated` | backend/server.py:328-330 | Nothing one user does changes another user's dashboard. |
| `Scenarios.OwedAndToCollect` | backend/server.py:341-371 | An undated 1000-lira debt owed to "Ali" and an undated 3400-lira debt to collect give totals 1000 and 3400, net 2400, two active records, none overdue, and "Ali" as person owed most with 1000. |
| `Scenarios.MixedCurrencyTotals` | backend/server.py:177-182 | 1000 TRY owed and 100 USD to collect at the fallback rate give 1000, 3400, net 2400, two active records, and the lira creditor as person owed most. |
| `Scenarios.TieGoesToFirstRecorded` | backend/server.py:369-371 | With 500 owed to "Ayşe" (recorded first) and 500 owed to "Ali", the person owed most is "Ayşe", although "Ali" sorts first. |
| `Scenarios.TenDaysBeatsThree` | backend/server.py:356-379 | Records 10 and 3 days overdue report the 10-day one with its label. A paid record 20 days overdue is not counted. |

## Left out

- Authentication (password hashing, token issue and check, register, login, current-user lookup): library calls. The caller's user id is a parameter.
- The database client and async I/O: replaced by the in-memory sequence. Each route is taken to be atomic, although update and both status routes read with `find_one` and then write with `update_one` (`backend/server.py:273-289`, `303-310`). A delete landing between the two is not modelled. Mark-paid would then answer success without writing anything, and the update route's read-back would fail.
- The HTTP request to the exchange-rate service: its parsed reply is the parameter of `Rates.ExchangeRates`, or absent when the request fails. A reply whose quotes are not numbers is not modelled. Every conversion takes the rate table as a parameter. The service fetches a fresh table on each call, so two conversions may see different tables.
- Floating point: amounts, lira amounts and sums are exact reals, so float rounding in the sums is not modelled.
- The clock: `now` is a parameter. Create reads the clock twice, for `created_at` and `updated_at` (`backend/server.py:95-96`). Mark-paid also reads it twice, for `paid_at` and `updated_at`. The model uses one reading in each case.
- UUID generation: the new id is a parameter. `StoreProperties.CreateThenGet` assumes it is fresh.
- Request validation by the web framework (types, enum values, date parsing) is not modelled: requests are well-typed values.
- An update that sends an explicit null for a required field (amount, currency, name, description, category) is not modelled. A null amount with a non-TRY currency raises in the conversion (`backend/server.py:190`, reached from 284) before anything is written. In the other cases the service stores the null and then fails to read the record back. A null due date is modelled, and clears the date.
- Time zones: the database client (`backend/server.py:23`) returns stored datetimes as naive UTC, and the dashboard compares those with the naive UTC clock. A due date sent with a time zone is converted to UTC on write. The model's timestamps are naive UTC throughout, which matches.
- Millisecond storage: the database keeps datetimes to the millisecond and drops the microseconds, while the model keeps every timestamp exactly. Two consequences follow. `StoreProperties.CreateThenGet` says get returns the record the create answered; in the service the create answers with microsecond `created_at` and `updated_at` (`backend/server.py:257`), and later reads show them cut to the millisecond. The overdue test and the day count use the stored, cut due date, so a due date less than a millisecond after the clock reading counts as overdue in the service but not in the model, and the day count can differ by one at a day boundary.
- CORS, logging and application wiring; the React client (display-only lookups and formatting); the network test harness.
