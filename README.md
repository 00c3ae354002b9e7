# User dashboard store and record formatter, in Dafny

This project models the logic of the user dashboard of a small React/TypeScript
app that lists random users. That logic all sits in `DashboardContent`:

- The **user store** holds one field, `objects`: the ordered list of `User`
  records. `setInitialData` replaces the list with a freshly fetched and formatted
  batch. `addUser` puts a record in front. `removeUser(uid)` drops every record
  with that uid. The table's `onRowsDelete` handler calls `removeUser` once for
  each selected row. It reads each row index in the list as it was before any
  deletion.
- The **formatter**: `formatUser` copies `uid`, `first_name`, `last_name` and
  `username`, computes `age` with `dateDiffInYears`, and draws a salary string
  `"R$ <n>,00"`. `formatData` formats a batch in order.
- **`dateDiffInYears`** counts whole years by comparing year, then month, then
  `getDay()`. `getDay()` is the day of the *week* (0 to 6), not the day of the
  month. The model keeps this behaviour: `Users.Date` carries a `weekday` field,
  and the rule compares on it.

Modules:

- `Users` holds the records: `User`, the fetched `RawUser`, `Date` and `Option`.
  The fields `first_name` and `last_name` are written `firstName` and `lastName`
  here.
- `Age` holds the age rule.
- `Salary` holds the salary string, with a decimal renderer and its parser.
- `Formatter` holds `formatUser` and `formatData`.
- `Store` holds the pure filters, the batch delete, and the `UserStore` class with
  its `objects` field.

Inputs the model takes as parameters:

- The network response is an `Option`, where `None` means the request failed.
- The current date is a `Date` parameter.
- The random salary draw is a `SalaryDraw`, an integer in `[0, 10000)`. A batch
  takes one draw per record.

Two points of interpretation:

- `removeUser(id)` is `FilterOut(objs, [id])`. `FilterOut` is a filter by a list
  of uids. The same function describes a whole batch delete in one step
  (`DeleteEachIsFilterOut`).
- In `onRowsDelete`, a row index outside the list makes `data[i].uid` throw. The
  deletions already made stay, and the rest are skipped. `OnRowsDelete` then
  returns `ok == false`, and its postcondition says exactly which uids were
  removed: those of the valid leading rows.

## Model

| member | source | states |
|---|---|---|
| Age.DateDiffInYears | src/screens/dashboard/index.tsx:158-178 | the age is never negative and never more than max(0, yearB - yearA); when the later date is in a later year it is at least yearB - yearA - 1, so it is 0 whenever yearB <= yearA |
| Age.AgeBranches | src/screens/dashboard/index.tsx:167-177 | the result is yearB - yearA - 1 exactly when yearB > yearA and (monthB < monthA, or the months are equal and weekdayB < weekdayA); in a later year it is yearB - yearA exactly otherwise |
| Age.AgeCountsAnniversaries | src/screens/dashboard/index.tsx:158-177 | the k-th anniversary (k >= 1) falls on or before "now", in (year, month, weekday) order, exactly when k <= the result: the age is the number of anniversaries that have passed |
| Salary.Decimal | src/screens/dashboard/index.tsx:155 | the integer renders as a non-empty string of digits with no leading zero, except for 0 itself |
| Salary.DecimalRoundTrip | src/screens/dashboard/index.tsx:155 | reading the rendered digits back gives the same integer |
| Salary.DecimalWidth | src/screens/dashboard/index.tsx:154-155 | an integer below 10^k renders in at most k digits, so a draw below 10000 takes at most 4 |
| Salary.GenerateSalary | src/screens/dashboard/index.tsx:153-156 | the salary is "R$ " followed by 1 to 4 digits (no leading zero unless the draw is 0) and then ",00", and it reads back as the draw |
| Formatter.FormatUser | src/screens/dashboard/index.tsx:132-151 | uid, first_name, last_name and username are copied verbatim; age is non-negative, bounded by the year difference and 0 when the birth year is not earlier; it is exactly the number of anniversaries passed (unless 0, the age-th anniversary is on or before today, and the next one is not); the salary is the generated salary string for the draw (so "R$ ", 1 to 4 digits without a leading zero, ",00") and reads back as the draw |
| Formatter.FormatData | src/screens/dashboard/index.tsx:126-130 | the output has the input's length, and element i is the formatted input element i (order preserved) |
| Store.FilterOut | src/screens/dashboard/index.tsx:104-107 | the filtered list is no longer than the original, and no record in it carries a removed uid |
| Store.FilterOutMembers | src/screens/dashboard/index.tsx:104-107 | a record is in the filtered list exactly when it was in the original and its uid was not removed |
| Store.FilterOutKeepsOrder | src/screens/dashboard/index.tsx:106 | the filtered list is the original's records at an increasing list of positions, and those positions are exactly the ones whose uid was not removed |
| Store.FilterOutCompose | src/screens/dashboard/index.tsx:104-107 | filtering by one list of uids and then another equals filtering once by both lists |
| Store.FilterOutAbsentNoop | src/screens/dashboard/index.tsx:104-107 | removing uids that no record carries leaves the list unchanged |
| Store.FilterOutIdempotent | src/screens/dashboard/index.tsx:104-107 | removing the same uids twice is the same as removing them once |
| Store.AddThenRemoveRestores | src/screens/dashboard/index.tsx:97-107 | prepending u and then removing u's uid gives back the original list, when no record already had that uid |
| Store.FilterOutKeepsUnique | src/screens/dashboard/index.tsx:104-107 | removing a uid keeps uids unique, and on a list with unique uids it drops at most one record |
| Store.PrependKeepsUnique | src/screens/dashboard/index.tsx:97-103 | after a prepend the uids are unique exactly when they were unique before and the new uid is fresh (addUser itself does not check this) |
| Store.DeleteEachIsFilterOut | src/screens/dashboard/index.tsx:182-186 | calling removeUser once per uid, in turn, gives the same list as one filter by all those uids |
| Store.BatchDeleteRemovesSelected | src/screens/dashboard/index.tsx:182-186 | after a batch delete over valid rows, a record remains exactly when it was in the snapshot and its uid differs from the uid of every selected row |
| Store.ValidRowPrefix | src/screens/dashboard/index.tsx:183-184 | counts the leading row indices that fall inside the snapshot; the next index, if any, falls outside it (the point where the handler throws) |
| Store.UserStore.constructor | src/screens/dashboard/index.tsx:92 | the store starts with an empty list |
| Store.UserStore.SetInitialData | src/screens/dashboard/index.tsx:93-96 | on a successful fetch the list becomes the formatted batch, element by element and with the same length; on a failed fetch it is unchanged |
| Store.UserStore.AddUser | src/screens/dashboard/index.tsx:97-103 | the new list is [u] followed by the old list |
| Store.UserStore.RemoveUser | src/screens/dashboard/index.tsx:104-107 | the new list is the old one with every record carrying the uid filtered out |
| Store.UserStore.CreateNewUser | src/screens/dashboard/index.tsx:121-124 | on a successful fetch the formatted record is prepended; on a failed fetch the list is unchanged |
| Store.UserStore.OnRowsDelete | src/screens/dashboard/index.tsx:181-187 | using row indices read in the pre-delete snapshot, the new list is the snapshot filtered by the uids of the leading valid rows; ok holds exactly when every row index was valid |

## Left out

- The React component, its hooks and the MUI layout, theme, drawer and table rendering are UI only, so they are not modelled.
- HTTP requests (`axios.get`), `async`/`await` and the request URLs are network I/O. A response is an `Option` input, and `None` stands for a request that failed.
- The zustand `create`, `devtools` and `persist` middleware and the `'user-storage'` localStorage slot are library plumbing. The store is a plain class, and subscriptions and persistence are not modelled.
- `Math.random()` and `Math.floor` on floating point are random and floating-point. The salary takes the integer draw as a `SalaryDraw` parameter instead.
- `new Date(...)` parsing and the clock are not modelled. The birth date and today's date are `Date` inputs.
- Formatter.FormatData: the source reads the clock once per record, but here one `today` serves the whole batch, so the model does not capture a date change in the middle of a batch.
- Malformed fetched data is not modelled. A response that is not an array makes `forEach` throw. A record missing a field gives `undefined` for that field. A missing or unparsable `date_of_birth` gives an Invalid Date, and then the age is NaN. The model assumes well-formed records, so it has no undefined fields and no NaN ages.
- `addUser` performs no uid-uniqueness check, and neither does the model. `PrependKeepsUnique` states when uniqueness survives a prepend.
