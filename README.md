# NutriSnap core, modelled in Dafny

NutriSnap is a nutrition tracker. Users keep a profile with a daily calorie
target and a daily protein target. They log food entries: a photo, a name, a
quantity and unit, calories and protein. A daily view shows progress against
the targets. This project models the three parts of NutriSnap that carry
logic of their own:

- `schema.dfy` (module `Schema`): the `users` and `food_entries` row shapes
  and the insert payloads. A payload is a row without its server-assigned
  fields. `NewUser` and `NewFoodEntry` complete a payload into a row. They
  mirror the store's object spread `{ ...payload, id }`.
- `storage.dfy` (module `Storage`): the in-memory store `MemStorage` as a
  class. It has the two tables and the two id counters as fields. Its methods
  change those fields in place, as the TypeScript class does. A `Filter`
  over entries models `Array.prototype.filter`, and its lemmas give the listing
  its meaning: exactly the matching entries, in ascending id order.
- `daily_tracker.dfy` (module `DailyTracker`): the totals, progress
  percentages and over-target warning of the daily tracker component.

The food-entry table is a JavaScript `Map` in the source. A `Map` iterates in
insertion order. Entry ids come from a counter and are never reused or
deleted, so the map only ever grows at its end. The model therefore keeps the
entries as a `seq` in insertion order. `MemStorage.Valid` states that the
entry at position `i` has id `i + 1`. The users table is a `map`, because
only lookups by id read it.

Timestamps (`Date` values) are modelled as integers (milliseconds), since
`Date` values compare by that number. The wall clock of `createFoodEntry`
becomes the parameter `now`.

## Model

| member | source | states |
|---|---|---|
| Schema.NewUser | NutriSnap/server/storage.ts:31 | the spread `{ ...insertUser, id }`: the stored user row has the given id and exactly the four fields of the `userSchema` payload; a row is determined by its id and its payload |
| Schema.NewFoodEntry | NutriSnap/server/storage.ts:44-48 | the spread `{ ...insertEntry, id, createdAt }`: the stored entry has the given id and creation time and exactly the seven fields of the `foodEntrySchema` payload; a row is determined by those three parts |
| Storage.Filter | NutriSnap/server/storage.ts:54-55 | the filtered list is no longer than its input and holds exactly the input elements the predicate accepts |
| Storage.FilterAscending | NutriSnap/server/storage.ts:53-61 | filtering a list in ascending id order keeps it in ascending id order |
| Storage.FilterTwice | NutriSnap/server/storage.ts:57-58 | the `since` pass over the user's entries gives the same list as one pass keeping the entries that pass both tests |
| Storage.FilterAppend | NutriSnap/server/storage.ts:49-55 | an entry added to the table shows up at the end of a listing exactly when the listing's filter accepts it |
| Storage.AscendingDetermined | NutriSnap/server/storage.ts:53-61 | two lists in ascending id order with the same elements are equal, so "the matching entries in ascending id order" names one list |
| Storage.MemStorage.constructor | NutriSnap/server/storage.ts:17-23 | a fresh store has both tables empty and both counters at 1 |
| Storage.MemStorage.GetUser | NutriSnap/server/storage.ts:25-27 | returns the stored row exactly when the id is a key, and that row carries the id; otherwise absent; changes nothing |
| Storage.MemStorage.CreateUser | NutriSnap/server/storage.ts:29-34 | the new row has the old counter as id and the payload's fields; the counter rises by one; the row replaces whatever was under that id; the entry table and its counter are unchanged |
| Storage.MemStorage.UpdateUser | NutriSnap/server/storage.ts:36-40 | stores the payload under the given id whether or not a row existed; every other user, the entry table and both counters are unchanged |
| Storage.MemStorage.CreateFoodEntry | NutriSnap/server/storage.ts:42-51 | the new entry has the old entry counter as id, `now` as creation time and the payload's fields; its id exceeds every earlier entry's; it is appended; the counter rises by one; the users table and user counter are unchanged |
| Storage.MemStorage.GetFoodEntriesByUserId | NutriSnap/server/storage.ts:53-61 | returns exactly the stored entries of that user (created at or after `since` when given), in ascending id order, equal to one filter pass over the table; changes nothing |
| Storage.UpdateAheadThenCreate | NutriSnap/server/storage.ts:29-39 | on a fresh store, `UpdateUser(1, …)` stores a row under id 1, and a following `CreateUser` silently overwrites it |
| Storage.CreateTwice | NutriSnap/server/storage.ts:29-34 | two successive `CreateUser` calls return strictly increasing ids carrying their payloads, and the second row reads back under its id |
| DailyTracker.Sum | NutriSnap/client/src/components/daily-tracker.tsx:15-16 | the left-fold total of a nutrient is non-negative when every entry's amount is |
| DailyTracker.DailyTotal | NutriSnap/client/src/components/daily-tracker.tsx:15-16 | the displayed total is 0 when entries are not loaded or there are none, and non-negative when all amounts are |
| DailyTracker.Progress | NutriSnap/client/src/components/daily-tracker.tsx:18-19 | for a positive target: never above 100; exactly 100 iff the total reaches the target; otherwise total / target × 100; non-negative for a non-negative total |
| DailyTracker.Warning | NutriSnap/client/src/components/daily-tracker.tsx:21 | for any target, the warning shows iff the calorie total of the loaded entries strictly exceeds the calorie target; with nothing loaded only a negative target triggers it |
| DailyTracker.Summarize | NutriSnap/client/src/components/daily-tracker.tsx:15-21 | the totals are the calorie and protein totals of the loaded entries; the warning is `Warning`'s; each progress value is at most 100, is 100 exactly when its total reaches its target, is total / target × 100 otherwise, and is non-negative for a non-negative total; a warning implies calorie progress 100; unloaded entries show zeros and no warning |
| DailyTracker.SumConcat | NutriSnap/client/src/components/daily-tracker.tsx:15-16 | the total over two runs of entries is the sum of their totals |
| DailyTracker.SumOfAmounts | NutriSnap/client/src/components/daily-tracker.tsx:15-16 | a total depends only on that nutrient's amounts, entry by entry |
| DailyTracker.WarningIgnoresProtein | NutriSnap/client/src/components/daily-tracker.tsx:21 | fetches with the same calories entry by entry give the same warning and calorie total for any targets, and the same calorie progress for positive targets, whatever their protein |
| DailyTracker.TrackerExamples | NutriSnap/client/src/components/daily-tracker.tsx:18-21 | 3000 of 2000 kcal gives progress 100; 1000 of 2000 gives 50; 2000 of 2000 shows no warning; 2001 does |

Two behaviours of the code that the model keeps:

- `createdAt` is not promised to be non-decreasing. The store stamps each
  entry with `new Date()`, and the wall clock can go back. The model takes
  the time as a parameter and promises no order of `createdAt`.
- User ids are not reserved to `createUser`. `updateUser` stores a row under
  any id, and a later `createUser` overwrites it
  (`Storage.UpdateAheadThenCreate`). For this reason `MemStorage.Valid`
  relates user keys only to the rows' own ids, not to the user counter.

## Left out

- The HTTP routes (`NutriSnap/server/routes.ts`): request parsing, `zod`
  validation, multer file upload and status codes are library plumbing. The
  parsing of the `since` query string into a `Date` is part of this. So is an
  invalid date: it compares false with every entry and would give an empty
  listing. The model takes `since` as an optional timestamp.
- The entry form's nutrition estimate (`calculateNutrition` in
  `NutriSnap/client/src/components/food-entry.tsx`): floating-point rounding
  on fractional quantities.
- The profile, home and navigation pages: UI, routing and react-query cache
  calls.
- The wall clock: `new Date()` in `createFoodEntry` becomes the parameter
  `now`. The ISO-date cutoff that the tracker asks for ("today") is computed
  by the caller and is not modelled.
- `async`/`Promise`: every store method is straight-line code, so the
  methods are ordinary sequential methods with no concurrency.
- JavaScript numbers: ids, ages, targets, quantities, calories and protein
  are unbounded integers. Non-integer values, `NaN` keys (from `Number` of a
  malformed path parameter) and the 32-bit bound of the PostgreSQL `integer`
  columns are not modelled.
- DailyTracker.Progress: requires a positive target. With a zero target
  JavaScript yields `Infinity` or `NaN` and a negative target gives a
  negative percentage; IEEE floating point is not modelled.
- DailyTracker.Summarize: requires both targets positive, for the same
  reason as `Progress`. The warning alone needs no such condition and is
  stated for every target by `DailyTracker.Warning`.
- The exact floating-point rounding of `total / target * 100`: progress is
  computed over exact reals.
