# muu-reservation, modelled in Dafny

muu-reservation books tours and hands-on experiences: mornings, afternoons and full days. There are three parts:

- **Backend.** A Laravel API over PostgreSQL. Its four migrations build the `reservations` table and its guards:
  - column defaults;
  - a unique index on `(date, room)`;
  - an exclusion constraint on overlapping closed time ranges in one room;
  - a trigger that refuses overlapping half-open windows within one program.
- **Exception handler.** It turns database unique violations on that table into `409 Conflict` for JSON clients.
- **Next.js frontend.** It has three screens:
  - the public page, with a search filter, a booking form, status updates and deletion;
  - the PIN-gated admin page, with a client-side filter panel;
  - the "add reservation" dialog.

The project has ten modules, one file each:

| file | module | what it holds |
|---|---|---|
| `wrappers.dfy` | `Wrappers` | `Option` and `Result` |
| `text.dfy` | `Text` | The string semantics the code relies on: `includes` / `Str::contains`, `trim`, ASCII `toLowerCase`, the `<` order of strings, `String(n)`, `join` and `split`. |
| `reservation_types.dfy` | `ReservationTypes` | The shared frontend types, the `isProgram` / `isSlot` guards, `getErrorMessage`, and the error texts built from a failed reply. |
| `reservations_table.dfy` | `ReservationsTable` | The table after all migrations, as a state of rows plus the id sequence. It covers INSERT and UPDATE with every guard, the invariant the guards maintain, the `last_name` backfill, and a `Table` class whose methods update the rows in place. |
| `migrations.dfy` | `Migrations` | The schema changes each migration's `up` and `down` makes, and their round trips. |
| `exception_handler.dfy` | `ExceptionHandler` | `Handler::render`, the two `renderable` callbacks in registration order, and `isReservationsUniqueViolation`. |
| `reservation_lists.dfy` | `ReservationLists` | The `map`, `filter` and prepend updates both pages apply to their list. |
| `admin_page.dfy` | `AdminPage` | The filter panel as pure functions, plus a `Page` class for the component state: PIN, list, filters and messages. |
| `home_page.dfy` | `HomePage` | Form encoding and `buildQuery`, the booking form's checks, the error texts, and a `Page` class. |
| `create_modal.dfy` | `CreateModal` | `toDateStr`, and the draft with its consistency effect, field setters and submit handler, as a `Modal` class. |

Each React component becomes a class:

- its `useState` variables are fields;
- each handler is a method that changes them;
- a network reply is a parameter of the handler (`Reply`: a 2xx body, another status with its JSON `message`, or a thrown request).

## Model

| member | source | states |
|---|---|---|
| `ReservationsTable.SqlState` | backend/database/migrations/2025_09_07_023038_add_no_overlap_per_program_constraint_to_reservations_table.php:24-25 | The trigger's refusal reports 23505 (`unique_violation`), like the `(date, room)` unique index. 23505 means exactly one of those two. Only an UPDATE that matches no row raises nothing. |
| `ReservationsTable.ToRow` | backend/database/migrations/2025_08_26_040957_create_reservations_table.php:15-27 | A row can be stored exactly when every NOT NULL column (date, program, slot, room, name, status, has_certificate) has a value. The stored row has the given id, and every column the input gives or sets to NULL holds that value. |
| `ReservationsTable.InsertDefaults` | backend/database/migrations/2025_08_26_040957_create_reservations_table.php:20-26 | On INSERT, an omitted room becomes 'A', status 'booked', has_certificate false, and contact and the times NULL. A missing name or an explicit NULL room is refused. Every insert that gives date, program, slot and name and no NULL for a defaulted column is storable. |
| `ReservationsTable.UpdateNothingKeepsRow` | backend/database/migrations/2025_08_26_040957_create_reservations_table.php:15-27 | An UPDATE that sets no column leaves the row as it was. |
| `ReservationsTable.UpdateKeepsUnmentioned` | backend/database/migrations/2025_08_26_040957_create_reservations_table.php:15-27 | An UPDATE keeps the id, and keeps each of date, program, room, status, start_at and end_at when it does not mention it. |
| `ReservationsTable.TriggerRejectsIff` | backend/database/migrations/2025_09_07_023038_add_no_overlap_per_program_constraint_to_reservations_table.php:13-23 | The trigger refuses a row exactly when some stored row of the same program, both rows booked or done, with another id, has a window that strictly overlaps the new one. |
| `ReservationsTable.ProgramConflictSymmetric` | backend/database/migrations/2025_09_07_023038_add_no_overlap_per_program_constraint_to_reservations_table.php:17-22 | The trigger's conflict relation is symmetric. |
| `ReservationsTable.HalfOpenOverlapIff` | backend/database/migrations/2025_09_07_023038_add_no_overlap_per_program_constraint_to_reservations_table.php:20-22 | For proper windows, `r.start_at < NEW.end_at AND r.end_at > NEW.start_at` holds exactly when the half-open windows share an instant. |
| `ReservationsTable.ZeroLengthWindowStillConflicts` | backend/database/migrations/2025_09_07_023038_add_no_overlap_per_program_constraint_to_reservations_table.php:21-22 | A zero-length window contains no instant, yet is refused when it lies strictly inside another active window of its program. |
| `ReservationsTable.InactiveNeverRejected` | backend/database/migrations/2025_09_07_023038_add_no_overlap_per_program_constraint_to_reservations_table.php:13 | A row whose status is not booked or done is never refused by the trigger. |
| `ReservationsTable.TouchingWindowsPassTrigger` | backend/database/migrations/2025_09_07_023038_add_no_overlap_per_program_constraint_to_reservations_table.php:21-22 | Back-to-back windows (one ends when the other starts) pass the trigger. |
| `ReservationsTable.DifferentProgramsPassTrigger` | backend/database/migrations/2025_09_07_023038_add_no_overlap_per_program_constraint_to_reservations_table.php:17 | Rows of different programs never trip the trigger. |
| `ReservationsTable.NullBoundPassesTrigger` | backend/database/migrations/2025_09_07_023038_add_no_overlap_per_program_constraint_to_reservations_table.php:21-22 | A NULL bound on either row makes a comparison not true, so the trigger lets it through. |
| `ReservationsTable.ClosedRangesIntersectIff` | backend/database/migrations/2025_08_26_040957_create_reservations_table.php:39 | `tsrange(start_at, end_at, '[]') && ...` holds exactly when the closed ranges share an instant. A NULL bound is unbounded. |
| `ReservationsTable.TouchingWindowsConflictInRoom` | backend/database/migrations/2025_08_26_040957_create_reservations_table.php:34-41 | Back-to-back windows in one room violate the exclusion constraint, although they pass the trigger. |
| `ReservationsTable.CancelledRowStillBlocksRoom` | backend/database/migrations/2025_08_26_040957_create_reservations_table.php:34-41 | The exclusion constraint ignores status and program: two cancelled rows of different programs with the same window in one room conflict. |
| `ReservationsTable.NullWindowsConflictInRoom` | backend/database/migrations/2025_08_26_040957_create_reservations_table.php:38-39 | Two rows with no times in one room conflict, because their ranges are unbounded. |
| `ReservationsTable.DifferentRoomsNeverConflict` | backend/database/migrations/2025_08_26_040957_create_reservations_table.php:38 | Rows in different rooms never violate the exclusion constraint. |
| `ReservationsTable.OmittedRoomsCollide` | backend/database/migrations/2025_08_28_040745_add_unique_date_room_on_reservations.php:16 | Two inserts on one date that both omit the room get room 'A' and collide on `(date, room)`. |
| `ReservationsTable.DifferentDateOrRoomNeverClash` | backend/database/migrations/2025_08_28_040745_add_unique_date_room_on_reservations.php:16 | Rows differing in date or room never clash on the unique index. |
| `ReservationsTable.Check` | backend/database/migrations/2025_09_07_023038_add_no_overlap_per_program_constraint_to_reservations_table.php:34-36 | A row passes all guards exactly when it is admissible: lengths fit, the bounds are ordered, the trigger does not fire, and no row conflicts in its room or on `(date, room)`. A refusal for the trigger, the exclusion or the unique index names a guard the row really violates. A refusal is never a NOT NULL error and never a missing row. |
| `ReservationsTable.EmptyTableValid` | backend/database/migrations/2025_08_26_040957_create_reservations_table.php:15-30 | The freshly created table satisfies the invariant: unique ids below the next sequence value, column limits, no program overlap, no room overlap, unique `(date, room)`. |
| `ReservationsTable.AppendKeepsInvariant` | backend/database/migrations/2025_08_26_040957_create_reservations_table.php:34-41 | Appending an admissible row with the next id keeps the invariant. |
| `ReservationsTable.ReplaceKeepsInvariant` | backend/database/migrations/2025_09_07_023038_add_no_overlap_per_program_constraint_to_reservations_table.php:34-36 | Replacing a row in place by an admissible row with the same id keeps the invariant. |
| `ReservationsTable.InsertRow` | backend/database/migrations/2025_08_26_040957_create_reservations_table.php:16 | INSERT consumes a sequence value even when refused. An accepted row is appended with that id; a refused one leaves the rows unchanged. The invariant is preserved. |
| `ReservationsTable.OccupiedDateRoomRefused` | backend/database/migrations/2025_08_28_040745_add_unique_date_room_on_reservations.php:16 | Inserting on a date and room already taken fails and leaves the rows unchanged. |
| `ReservationsTable.TriggerRefusalIsUniqueViolation` | backend/database/migrations/2025_09_07_023038_add_no_overlap_per_program_constraint_to_reservations_table.php:24-25 | An insert the trigger refuses fails with the trigger's error, reported as SQLSTATE 23505. |
| `ReservationsTable.IndexOf` | backend/database/migrations/2025_08_26_040957_create_reservations_table.php:16 | Finds the row with a given id, or shows there is none. |
| `ReservationsTable.UpdateRow` | backend/database/migrations/2025_09_07_023038_add_no_overlap_per_program_constraint_to_reservations_table.php:34-36 | UPDATE rewrites exactly the row with that id, when it passes every guard. An unknown id fails with no row changed. The sequence is untouched, and the invariant is preserved. |
| `ReservationsTable.RunKeepsInvariant` | backend/database/migrations/2025_09_07_023038_add_no_overlap_per_program_constraint_to_reservations_table.php:11-36 | After any sequence of inserts and updates from a valid state, the invariant holds. In particular no two active rows of one program overlap. |
| `ReservationsTable.SelfNeverConflicts` | backend/database/migrations/2025_09_07_023038_add_no_overlap_per_program_constraint_to_reservations_table.php:19 | Thanks to `r.id <> COALESCE(NEW.id, 0)`, a stored row never conflicts with itself. An UPDATE that changes nothing succeeds. |
| `ReservationsTable.CancelFreesProgramWindow` | backend/database/migrations/2025_09_07_023038_add_no_overlap_per_program_constraint_to_reservations_table.php:13-18 | An active row blocks its window for its program. Cancelling it frees the window for the trigger. |
| `ReservationsTable.Backfilled` | backend/database/migrations/2025_09_05_021948_add_personal_fields_to_reservations_v2.php:28-32 | The backfill keeps the number of rows. What happens to each row is stated by `BackfillEffect`. |
| `ReservationsTable.BackfillEffect` | backend/database/migrations/2025_09_05_021948_add_personal_fields_to_reservations_v2.php:28-32 | Rows with a last name are unchanged. Rows without one get `last_name = name`. Afterwards every row has a last name. |
| `ReservationsTable.BackfillIdempotent` | backend/database/migrations/2025_09_05_021948_add_personal_fields_to_reservations_v2.php:28-32 | Running the backfill twice is running it once. |
| `ReservationsTable.BackfillKeepsInvariant` | backend/database/migrations/2025_09_05_021948_add_personal_fields_to_reservations_v2.php:28-32 | The backfill keeps the table invariant. |
| `ReservationsTable.Table.constructor` | backend/database/migrations/2025_08_26_040957_create_reservations_table.php:15-30 | A new table is empty, with the sequence at 1. |
| `ReservationsTable.Table.Insert` | backend/database/migrations/2025_09_07_023038_add_no_overlap_per_program_constraint_to_reservations_table.php:34-36 | The in-place INSERT leaves the table in the state `InsertRow` describes, and returns its result. It keeps the invariant when it held before, and does not demand it: the table may hold rows stored before the trigger existed. |
| `ReservationsTable.Table.Update` | backend/database/migrations/2025_09_07_023038_add_no_overlap_per_program_constraint_to_reservations_table.php:34-36 | The in-place UPDATE leaves the table in the state `UpdateRow` describes, and returns its result. It keeps the invariant when it held before, without demanding it. |
| `ReservationsTable.Table.BackfillLastName` | backend/database/migrations/2025_09_05_021948_add_personal_fields_to_reservations_v2.php:27-33 | Row by row, it rewrites the table to `Backfilled` of the old rows when the `name` column exists, and otherwise changes nothing. The sequence is untouched. It runs before the trigger exists, so it demands no invariant; one that held before still holds after. |
| `Migrations.RequiredColumns` | backend/database/migrations/2025_08_26_040957_create_reservations_table.php:15-27 | The columns every INSERT must supply are exactly those that are NOT NULL without a default. |
| `Migrations.CreateUp` | backend/database/migrations/2025_08_26_040957_create_reservations_table.php:13-42 | Creating the table succeeds exactly when it does not exist. It adds the table, the btree_gist extension and the exclusion constraint. |
| `Migrations.CreateDown` | backend/database/migrations/2025_08_26_040957_create_reservations_table.php:47-51 | Rolling back succeeds exactly when the table exists. It removes the table and leaves extensions and functions. |
| `Migrations.CreateRoundTrip` | backend/database/migrations/2025_08_26_040957_create_reservations_table.php:13-51 | up then down restores the schema, except that btree_gist stays installed. |
| `Migrations.ConstraintDroppedBeforeTable` | backend/database/migrations/2025_08_26_040957_create_reservations_table.php:49 | The constraint is dropped, if present, while the table still exists. |
| `Migrations.CreatedColumnDefaults` | backend/database/migrations/2025_08_26_040957_create_reservations_table.php:17-26 | room defaults to 'A' and status to 'booked'. The required columns are exactly date, program, slot and name. contact, note, start_at and end_at are nullable. |
| `Migrations.UniqueUp` | backend/database/migrations/2025_08_28_040745_add_unique_date_room_on_reservations.php:12-18 | It adds the `(date, room)` unique index and nothing else. It fails without the table or when the index exists. |
| `Migrations.UniqueDown` | backend/database/migrations/2025_08_28_040745_add_unique_date_room_on_reservations.php:23-28 | It drops exactly that index, and fails when it is missing. |
| `Migrations.UniqueRoundTrip` | backend/database/migrations/2025_08_28_040745_add_unique_date_room_on_reservations.php:12-28 | up then down is the identity. |
| `Migrations.PersonalColumnsAcceptExistingRows` | backend/database/migrations/2025_09_05_021948_add_personal_fields_to_reservations_v2.php:13-18 | The six added columns are all nullable or defaulted (has_certificate false), so existing rows stay valid. phone and notebook_type are limited to 32. |
| `Migrations.PersonalUp` | backend/database/migrations/2025_09_05_021948_add_personal_fields_to_reservations_v2.php:11-22 | It adds exactly the six columns and the name index. It fails without the table, or when a column or the index exists. |
| `Migrations.PersonalDown` | backend/database/migrations/2025_09_05_021948_add_personal_fields_to_reservations_v2.php:36-52 | It drops the index and exactly the six columns, leaving the others unchanged. |
| `Migrations.PersonalRoundTrip` | backend/database/migrations/2025_09_05_021948_add_personal_fields_to_reservations_v2.php:9-52 | up then down is the identity. |
| `Migrations.TriggerUp` | backend/database/migrations/2025_09_07_023038_add_no_overlap_per_program_constraint_to_reservations_table.php:11-36 | It installs the function and the trigger, and touches no column, index or constraint. |
| `Migrations.TriggerUpIdempotent` | backend/database/migrations/2025_09_07_023038_add_no_overlap_per_program_constraint_to_reservations_table.php:32-36 | `CREATE OR REPLACE` plus `DROP TRIGGER IF EXISTS` make a second run a no-op. |
| `Migrations.TriggerDown` | backend/database/migrations/2025_09_07_023038_add_no_overlap_per_program_constraint_to_reservations_table.php:40-46 | It removes trigger and function, and leaves everything else. |
| `Migrations.TriggerRoundTrip` | backend/database/migrations/2025_09_07_023038_add_no_overlap_per_program_constraint_to_reservations_table.php:7-46 | up then down restores a schema that had neither. |
| `Migrations.MigrateFromEmpty` | backend/database/migrations/2025_09_07_023038_add_no_overlap_per_program_constraint_to_reservations_table.php:33-36 | The four migrations in order succeed on an empty database. They leave all three guards, with the columns of the first and third. |
| `Migrations.RollbackAfterMigrate` | backend/database/migrations/2025_08_26_040957_create_reservations_table.php:47-51 | Rolling all four back in reverse order leaves an empty database with only btree_gist. |
| `ExceptionHandler.ReservationsTestIff` | backend/app/Exceptions/Handler.php:118-129 | The table test is true exactly when the message contains one of the four markers. |
| `ExceptionHandler.ReservationsTestMonotone` | backend/app/Exceptions/Handler.php:118-129 | Text added around a matching message never makes it stop matching. |
| `ExceptionHandler.SqlState` | backend/app/Exceptions/Handler.php:99 | `getCode() ?: errorInfo[0] ?? null`: a truthy code wins. A falsy one (0, "", "0") defers to errorInfo[0], or null. |
| `ExceptionHandler.UniqueCallback` | backend/app/Exceptions/Handler.php:82-93 | It answers exactly for JSON requests whose message names the table. It answers with 409, the fixed message and `source: handler:unique_violation`. |
| `ExceptionHandler.QueryCallback` | backend/app/Exceptions/Handler.php:96-111 | It answers exactly for JSON requests whose message names the table and that look unique: SQLSTATE `=== '23505'` or a unique marker in the message. It answers with 409 and no source. |
| `ExceptionHandler.Render` | backend/app/Exceptions/Handler.php:46-73 | For JSON requests, an HttpResponseException's own response passes through, and validation errors become 422 with the errors map. Any other exception that is not a query exception gets the framework's rendering. |
| `ExceptionHandler.ConflictIff` | backend/app/Exceptions/Handler.php:82-111 | A query exception becomes 409 exactly when the request wants JSON, the message names the table, and it is a unique-constraint exception or looks unique. The `source` field is present exactly when the first callback answered. Anything else falls through to the framework. |
| `ExceptionHandler.ConflictNamesReservations` | backend/app/Exceptions/Handler.php:86 | Every 409 comes from a query exception whose message names the table. |
| `ExceptionHandler.NonJsonFallsThrough` | backend/app/Exceptions/Handler.php:72 | Requests not expecting JSON always get the framework's rendering. |
| `ExceptionHandler.ExclusionViolationNotConflict` | backend/app/Exceptions/Handler.php:102-103 | An exclusion-constraint violation (23P01) whose message lacks the unique markers is not turned into 409. |
| `ExceptionHandler.IntegerCodeIsNotUniqueState` | backend/app/Exceptions/Handler.php:102 | The strict comparison fails for an integer code 23505, so only the message markers count. |
| `ExceptionHandler.FalsyCodeUsesErrorInfo` | backend/app/Exceptions/Handler.php:99 | A code of "0" or 0 falls back to errorInfo[0] = '23505'. |
| `ExceptionHandler.TriggerMessageAloneNotConflict` | backend/app/Exceptions/Handler.php:118-129 | The trigger's own message names no table, so on its own it yields no 409, even with SQLSTATE 23505. |
| `ExceptionHandler.TriggerFunctionNameMakesConflict` | backend/app/Exceptions/Handler.php:118-129 | A trigger refusal raised with 23505 whose message text carries the trigger function's name `reservations_no_overlap_trg_fn` (as PostgreSQL's CONTEXT line does) is turned into 409. |
| `ExceptionHandler.OtherTableCanMatch` | backend/app/Exceptions/Handler.php:123-128 | A unique violation on another table whose index name contains `reservations_` is still taken for a reservations conflict. |
| `ReservationTypes.AsProgram` | frontend/src/types/reservation.ts:72-74 | `isProgram` accepts exactly "tour" and "experience", and the narrowed value names the program. |
| `ReservationTypes.AsSlot` | frontend/src/types/reservation.ts:75-77 | `isSlot` accepts exactly "am", "pm" and "full", and the narrowed value names the slot. |
| `ReservationTypes.GuardsAcceptExactlyTheNames` | frontend/src/types/reservation.ts:72-77 | Every program or slot name passes its guard and narrows back to itself. |
| `ReservationTypes.ProgramAndSlotDisjoint` | frontend/src/types/reservation.ts:72-77 | No value passes both guards. |
| `ReservationTypes.FullPassesSlotGuard` | frontend/src/types/reservation.ts:75-77 | "full" passes `isSlot`: the guard does not know about the tour restriction. |
| `ReservationTypes.GetErrorMessage` | frontend/src/types/reservation.ts:80-82 | An `Error` gives its message. Any other value gives `String(e)`. |
| `ReservationTypes.PatchBody` | frontend/src/types/reservation.ts:67-69 | The PATCH body is a single `status` field holding one of the three status names. |
| `ReservationTypes.StatusNamesDistinct` | frontend/src/types/reservation.ts:8 | The status names identify the statuses. |
| `ReservationTypes.MessageOr` | frontend/src/app/page.tsx:143-144 | `js.message \|\| fallback`: a present, non-empty message is the text. A missing or empty one gives the fallback, so a non-empty fallback gives a non-empty text. |
| `ReservationTypes.FailureText` | frontend/src/app/admin/page.tsx:98-101 | A thrown request shows its own text. A non-2xx reply shows the server's message, or `<what>（<status>）`. |
| `ReservationLists.ReplaceById` | frontend/src/app/page.tsx:176 | The `map` keeps the length, replaces exactly the reservations with that id, and leaves the others. A reservation without an id never matches. |
| `ReservationLists.RemoveById` | frontend/src/app/page.tsx:196 | The `filter` keeps exactly the reservations without that id, in their order. Each kept reservation occurs as often as before, and each one with the id not at all. |
| `ReservationLists.Prepend` | frontend/src/app/page.tsx:149 | The created reservation comes first, followed by the previous list, or stands alone when there was none. |
| `ReservationLists.RemoveIdempotent` | frontend/src/app/admin/page.tsx:123 | Deleting an id twice is deleting it once. |
| `ReservationLists.RemoveAbsentId` | frontend/src/app/admin/page.tsx:123 | Deleting an id no reservation has changes nothing. |
| `ReservationLists.ReplaceAbsentId` | frontend/src/app/admin/page.tsx:103 | Updating an id no reservation has changes nothing. |
| `ReservationLists.RemoveAfterReplace` | frontend/src/app/admin/page.tsx:103-123 | If the server's record keeps its id, an update followed by a delete of that id is the same as the delete. |
| `AdminPage.Merge` | frontend/src/app/admin/page.tsx:132-133 | `{ ...f, ...patch }`: each field comes from the patch when present, otherwise from the filters. |
| `AdminPage.MergeLaws` | frontend/src/app/admin/page.tsx:132-133 | An empty patch changes nothing, and applying a patch twice is applying it once. |
| `AdminPage.DateKey` | frontend/src/app/admin/page.tsx:143-144 | `slice(0, 10)`: the date key is the date's first ten characters, or the whole date when it is shorter. It is a prefix of the date. |
| `AdminPage.FilterItems` | frontend/src/app/admin/page.tsx:142-179 | The result holds exactly the reservations the callback keeps, as an order-preserving subsequence. Each kept reservation occurs as often as in the input, and each refused one not at all. |
| `AdminPage.FilteredItems` | frontend/src/app/admin/page.tsx:135-136 | The result is null while nothing is loaded, and otherwise the filtered list. |
| `AdminPage.InitialFiltersKeepAll` | frontend/src/app/admin/page.tsx:24-32 | With the initial filters every reservation passes. |
| `AdminPage.FilterAllKept` | frontend/src/app/admin/page.tsx:142 | Filtering a list that passes entirely returns it unchanged. |
| `AdminPage.InitialFiltersShowEverything` | frontend/src/app/admin/page.tsx:24-32 | With the initial filters the visible list is the loaded list. |
| `AdminPage.FilterIdempotent` | frontend/src/app/admin/page.tsx:142-179 | Filtering twice is filtering once. |
| `AdminPage.FilterCommutesWithRemove` | frontend/src/app/admin/page.tsx:123 | Deleting a reservation and then filtering is filtering and then deleting. |
| `AdminPage.DateBounds` | frontend/src/app/admin/page.tsx:146-147 | Every kept reservation's date key is not below a set lower bound and not above a set upper bound, in string order. |
| `AdminPage.MissingStatusIsBooked` | frontend/src/app/admin/page.tsx:152-155 | A reservation without a status is filtered as if it were "booked". |
| `AdminPage.CertificateFilter` | frontend/src/app/admin/page.tsx:157-161 | "yes" keeps exactly the reservations whose certificate is true. "no" keeps false, null and missing alike. |
| `AdminPage.SameNormalizedKeyword` | frontend/src/app/admin/page.tsx:140 | Two keywords with the same trimmed, lower-cased form filter alike. |
| `AdminPage.BlankKeywordIgnored` | frontend/src/app/admin/page.tsx:163 | A keyword of white space only filters nothing. |
| `AdminPage.KeywordTrimmed` | frontend/src/app/admin/page.tsx:140 | Spaces around the keyword do not change the result. |
| `AdminPage.HaystackStartsWithLastName` | frontend/src/app/admin/page.tsx:164-174 | The searched text begins with the lower-cased last name. |
| `AdminPage.KeywordInLastName` | frontend/src/app/admin/page.tsx:163-175 | A keyword found in the lower-cased last name passes the keyword test. |
| `AdminPage.Page.constructor` | frontend/src/app/admin/page.tsx:36-43 | On mount, the stored `admin_ok` flag authenticates. The list is not loaded and the filters are initial. |
| `AdminPage.Page.SetPinInput` | frontend/src/app/admin/page.tsx:196 | Only the PIN input changes. |
| `AdminPage.Page.OnSubmitPin` | frontend/src/app/admin/page.tsx:45-59 | With no PIN configured, or the input equal to it, the session and the stored flag are set. A wrong PIN changes nothing. |
| `AdminPage.Page.Load` | frontend/src/app/admin/page.tsx:67-83 | A 2xx reply replaces the list and clears the error. A non-2xx reply keeps the list and shows `GET /reservations failed: <status>`. A thrown request keeps the list and shows its text. |
| `AdminPage.Page.UpdateStatus` | frontend/src/app/admin/page.tsx:89-108 | On success, the reservation with that id is replaced and "状態を更新しました" is shown. On failure the list is kept and the failure text with "更新に失敗しました" is shown. 409 gets no special text. |
| `AdminPage.Page.DeleteReservation` | frontend/src/app/admin/page.tsx:110-128 | Unconfirmed, nothing changes. On success, the id is removed and "削除しました" is shown. On failure the list is kept and the failure text with "削除に失敗しました" is shown. |
| `AdminPage.Page.OnChangeFilter` | frontend/src/app/admin/page.tsx:132-133 | The filters become the merge of the old filters and the patch. |
| `AdminPage.Page.ClearFilters` | frontend/src/app/admin/page.tsx:324 | The filters are reset, and the visible list is then the whole loaded list. |
| `HomePage.Utf8` | frontend/src/app/page.tsx:83-87 | A character encodes to 1–4 bytes, each below 256. Its lead byte announces the length (below 0x80, 0xC0–0xDF, 0xE0–0xEF, 0xF0–0xF7) and the others are continuation bytes 0x80–0xBF. It takes one byte exactly when it is ASCII, and that byte is its code. |
| `HomePage.Utf8RoundTrip` | frontend/src/app/page.tsx:87 | Decoding the UTF-8 bytes of any character gives the character back. |
| `HomePage.Escape` | frontend/src/app/page.tsx:87 | One byte is written as `%` and two hex digits whose value is the byte. |
| `HomePage.PercentBytes` | frontend/src/app/page.tsx:87 | Each byte becomes three characters, `%` or upper-case hex digits only. |
| `HomePage.PercentBytesDigits` | frontend/src/app/page.tsx:87 | Escape i is `%` followed by two hex digits whose value is byte i. |
| `HomePage.HexDigit` | frontend/src/app/page.tsx:87 | The digit for a value below 16 is an upper-case hex digit that reads back as that value. |
| `HomePage.EncodeChar` | frontend/src/app/page.tsx:87 | A space becomes `+`. Letters, digits and `*-._` stay. Any other character becomes `%` escapes, three per UTF-8 byte. No encoded character is `&` or `=`. |
| `HomePage.FormEncode` | frontend/src/app/page.tsx:87 | The encoding is never shorter than the value, and never contains `&` or `=`. |
| `HomePage.ReadEscapes` | frontend/src/app/page.tsx:87 | Reading k escapes yields k bytes and needs at least 3k characters. |
| `HomePage.ReadEscapesPercent` | frontend/src/app/page.tsx:87 | The escapes of a byte sequence read back as that sequence, whatever follows them. |
| `HomePage.DecodeEscapedFront` | frontend/src/app/page.tsx:87 | The escapes of a character's UTF-8 bytes decode to that character, whatever follows. |
| `HomePage.DecodeFront` | frontend/src/app/page.tsx:87 | Decoding an encoded character followed by more text gives that character followed by the decoded rest. |
| `HomePage.FormRoundTrip` | frontend/src/app/page.tsx:87 | Decoding the form encoding of any value gives the value back, so no two values share an encoding. |
| `HomePage.AmpersandEscaped` | frontend/src/app/page.tsx:87 | A value `&` is sent as `%26`. |
| `HomePage.SafeValuesVerbatim` | frontend/src/app/page.tsx:84-87 | Values made of letters, digits and `*-._` (dates, program and slot names) are written as they are. |
| `HomePage.NonAsciiEscaped` | frontend/src/app/page.tsx:87 | A non-ASCII character becomes one `%XX` per UTF-8 byte. |
| `HomePage.Params` | frontend/src/app/page.tsx:83-86 | For each of date, program and slot, a pair with that key is present exactly when its filter is non-empty, and its value is the filter. The keys appear at most once each, in the order date, program, slot. There are no pairs exactly when all three filters are empty. |
| `HomePage.Pairs` | frontend/src/app/page.tsx:87 | One `key=value` text per parameter. |
| `HomePage.KeysHaveNoSeparator` | frontend/src/app/page.tsx:84-86 | None of the three keys contains `&`. |
| `HomePage.PairHasNoSeparator` | frontend/src/app/page.tsx:87 | A pair whose key has no `&` has none at all. |
| `HomePage.JoinNonEmpty` | frontend/src/app/page.tsx:87 | Joining pairs whose first is non-empty gives a non-empty text. |
| `HomePage.QueryEmptyIff` | frontend/src/app/page.tsx:82-89 | `buildQuery()` is "" exactly when no filter is set. |
| `HomePage.QuerySplitsIntoPairs` | frontend/src/app/page.tsx:82-89 | A non-empty query is "?" followed by text that splits on `&` back into the pairs of the set filters, in order. |
| `HomePage.Validate` | frontend/src/app/page.tsx:121-122 | The form passes exactly when the trimmed name and the date are non-empty. A blank name is reported first, then a missing date. |
| `HomePage.BlankNameRefused` | frontend/src/app/page.tsx:121 | A name of white space only is refused with "お名前を入力してください". |
| `HomePage.PostBody` | frontend/src/app/page.tsx:127-135 | The POST body has exactly the four fields date, program, slot and name, with the form's values. |
| `HomePage.FailureText409` | frontend/src/app/page.tsx:138-145 | A 409 shows the server's message, or "その時間帯は埋まっています". Other failures show the server's message, or `<what>（<status>）`. |
| `HomePage.ServerConflictShownVerbatim` | frontend/src/app/page.tsx:138-141 | A 409 produced by the exception handler is shown with the same sentence the page uses when the body has no message. |
| `HomePage.Page.constructor` | frontend/src/app/page.tsx:53-65 | The form starts as tomorrow, experience, morning, no name. The filter is empty and the list unloaded. |
| `HomePage.Page.SetFilter` | frontend/src/app/page.tsx:61-65 | Only the filter changes. |
| `HomePage.Page.EditForm` | frontend/src/app/page.tsx:53-58 | Only the form changes. |
| `HomePage.Page.Load` | frontend/src/app/page.tsx:92-108 | A 2xx reply replaces the list. A non-2xx reply keeps it and shows `GET /reservations failed: <status>`. A thrown request shows its text. |
| `HomePage.Page.OnSubmit` | frontend/src/app/page.tsx:115-156 | An invalid form posts nothing and shows the first problem. A valid one is posted. On success the created reservation goes first, only the name is cleared, and "予約を作成しました" is shown. On failure the 409-aware failure text is shown. `submitting` ends false. |
| `HomePage.Page.UpdateStatus` | frontend/src/app/page.tsx:158-181 | On success the reservation with that id is replaced and a message is shown. On failure the list is kept and the 409-aware failure text is shown. |
| `HomePage.Page.DeleteReservation` | frontend/src/app/page.tsx:183-201 | Unconfirmed, nothing changes. On success the id is removed. On failure the list is kept and the failure text is shown; DELETE gets no 409 case. |
| `CreateModal.PadStart2` | frontend/src/app/components/CreateReservationModal.tsx:243-244 | `padStart(2, "0")` leaves texts of two or more characters alone. It pads shorter ones on the left to length 2. |
| `CreateModal.TwoDigitsValue` | frontend/src/app/components/CreateReservationModal.tsx:243-244 | Below 100, the padded number is two digits worth the number. |
| `CreateModal.FourDigitYear` | frontend/src/app/components/CreateReservationModal.tsx:242 | Years 1000–9999 are written with four digits worth the year. |
| `CreateModal.ParseDateStr` | frontend/src/app/components/CreateReservationModal.tsx:241-246 | Reading back accepts only text of length 10 with '-' at positions 4 and 7, and gives a valid date: year below 10000, month index below 12, day 1–31. |
| `CreateModal.DateStrBlocks` | frontend/src/app/components/CreateReservationModal.tsx:245 | For four-digit years the text has length 10, with '-' at positions 4 and 7 between the three blocks. |
| `CreateModal.DateStrRoundTrip` | frontend/src/app/components/CreateReservationModal.tsx:241-246 | `toDateStr` gives "YYYY-MM-DD", which reads back as the same date (month `getMonth() + 1`). |
| `CreateModal.DigitBlocksEqual` | frontend/src/app/components/CreateReservationModal.tsx:242-244 | Digit blocks of one length are equal exactly when their values are. |
| `CreateModal.DateStrSplit` | frontend/src/app/components/CreateReservationModal.tsx:245 | A date string is the year's digits followed by its "-MM-DD" part. |
| `CreateModal.BlockOrder` | frontend/src/app/admin/page.tsx:146-147 | Texts led by digit blocks of one length compare by the blocks' values first, then by what follows. |
| `CreateModal.MonthDayOrder` | frontend/src/app/components/CreateReservationModal.tsx:243-245 | The "-MM-DD" parts of two date strings compare as month first, then day. |
| `CreateModal.DateStrOrder` | frontend/src/app/components/CreateReservationModal.tsx:241-246 | For four-digit years, `<` on the date texts (as the admin date bounds compare them) is calendar order. |
| `CreateModal.Normalize` | frontend/src/app/components/CreateReservationModal.tsx:41-45 | The effect always leaves a consistent draft: a tour is never on the full day. It changes only the slot, and only to the morning, and leaves a consistent draft alone. |
| `CreateModal.NormalizeIdempotent` | frontend/src/app/components/CreateReservationModal.tsx:58-63 | The second, identical effect finds nothing to do. |
| `CreateModal.OpenedDraft` | frontend/src/app/components/CreateReservationModal.tsx:48-56 | Opening gives the empty draft with the initial date (today's by default) and the initial slot (morning by default). It is an experience, so it is consistent. |
| `CreateModal.SetText` | frontend/src/app/components/CreateReservationModal.tsx:98 | Editing a text field never touches program, slot, certificate, name, note or room. |
| `CreateModal.SetTextReadsBack` | frontend/src/app/components/CreateReservationModal.tsx:142-193 | An edited field reads back as typed, and every other text field is unchanged. |
| `CreateModal.OpenedDraftNotSubmittable` | frontend/src/app/components/CreateReservationModal.tsx:75 | A freshly opened draft fails the browser check, whatever the e-mail and phone checks say, because the required names are empty. |
| `CreateModal.ShortPhoneRefused` | frontend/src/app/components/CreateReservationModal.tsx:181 | Where the pattern compiles (the `u` flag of older browsers), a non-empty phone shorter than eight characters fails the form. |
| `CreateModal.WrittenClassRejectedUnderV` | frontend/src/app/components/CreateReservationModal.tsx:181 | The written class `[0-9()+\- ]` is a syntax error under the `v` flag, so the pattern imposes nothing there. Under `u` it applies. |
| `CreateModal.ShortPhoneAcceptedUnderV` | frontend/src/app/components/CreateReservationModal.tsx:181 | Under the `v` flag, a form with phone "123" and every other required field filled passes, although "123" does not match the pattern. |
| `CreateModal.EscapedClassCompiles` | frontend/src/app/components/CreateReservationModal.tsx:181 | The class with escaped parentheses compiles under both flags. |
| `CreateModal.EscapedPatternRefusesShortPhone` | frontend/src/app/components/CreateReservationModal.tsx:181 | With the escaped class, a non-empty phone shorter than eight characters fails the form under either flag. |
| `CreateModal.TourMovesFullDayToMorning` | frontend/src/app/components/CreateReservationModal.tsx:41-45 | Choosing tour on the full day moves the draft to the morning. With experience, any slot stays as chosen. A slot other than full always stays. |
| `CreateModal.Modal.constructor` | frontend/src/app/components/CreateReservationModal.tsx:17-39 | The dialog starts from the empty draft, consistent, with no alerts. |
| `CreateModal.Modal.Open` | frontend/src/app/components/CreateReservationModal.tsx:48-56 | Each opening resets the draft to `OpenedDraft`. |
| `CreateModal.Modal.SelectProgram` | frontend/src/app/components/CreateReservationModal.tsx:109-112 | A value passing `isProgram` is taken, then the effect normalises. Any other value changes nothing. The draft stays consistent. |
| `CreateModal.Modal.SelectSlot` | frontend/src/app/components/CreateReservationModal.tsx:126-129 | A value passing `isSlot` is taken, then the effect normalises, so a tour cannot keep "full". Any other value changes nothing. |
| `CreateModal.Modal.EditText` | frontend/src/app/components/CreateReservationModal.tsx:98 | The draft becomes `SetText` of the old draft. |
| `CreateModal.Modal.SetCertificate` | frontend/src/app/components/CreateReservationModal.tsx:207-218 | The two radio buttons set the certificate to true or false. |
| `CreateModal.Modal.Submit` | frontend/src/app/components/CreateReservationModal.tsx:71-89 | `onSubmit` is called with the draft exactly when the form is valid, the phone pattern counting only where the browser compiles it (the `vFlag` parameter). A rejection is alerted with `getErrorMessage`. The draft is unchanged. |
| `Text.ContainsIff` | backend/app/Exceptions/Handler.php:123-128 | The substring search holds exactly when the needle occurs at some position. |
| `Text.TrimStartSuffix` | frontend/src/app/page.tsx:121 | The leading part `trim()` removes is white space, and what remains is a suffix that does not start with white space. |
| `Text.TrimEndPrefix` | frontend/src/app/page.tsx:121 | The trailing part `trim()` removes is white space, and what remains is a prefix that does not end with white space. |
| `Text.TrimEmptyIff` | frontend/src/app/page.tsx:121 | `trim()` is empty exactly when the text is white space only. |
| `Text.TrimIdempotent` | frontend/src/app/admin/page.tsx:140 | Trimming twice is trimming once. |
| `Text.LowerProperties` | frontend/src/app/admin/page.tsx:174 | Lower-casing is idempotent and distributes over concatenation. |
| `Text.LexLessTotal` | frontend/src/app/admin/page.tsx:146-147 | String `<` is total and asymmetric. |
| `Text.LexLessTransitive` | frontend/src/app/admin/page.tsx:146-147 | String `<` is transitive. |
| `Text.LexLessConcat` | frontend/src/app/admin/page.tsx:146-147 | For leading blocks of one length, the first blocks decide the comparison unless they are equal. |
| `Text.ParseNatToString` | frontend/src/app/components/CreateReservationModal.tsx:243-244 | `String(n)` reads back as n. |
| `Text.DigitsLexOrder` | frontend/src/app/admin/page.tsx:146-147 | Between digit strings of one length, string order is numeric order. |
| `Text.SplitJoin` | frontend/src/app/page.tsx:87 | Splitting a join of parts free of the separator gives the parts back. |

## Left out

- Network, clock, DOM, `localStorage` and React scheduling:
  - replies are handler parameters;
  - the stored PIN flag is a field;
  - today's and tomorrow's dates are inputs;
  - each effect runs right after the change that triggers it.
- `loading` flags, `alert` texts on the admin PIN form, and the scroll-and-focus on the first invalid field: these are user-interface only.
- `HomePage.Page.Load`, `AdminPage.Page.Load`: the thrown text (`e.message || String(e)` on the public page, `e?.message ?? String(e)` on the admin page) is taken as given in `Failed`, without modelling how it is derived.
- `CreateModal.Modal.Submit`: the browser's e-mail syntax check is a parameter, and so is whether the browser compiles patterns with the `v` flag. The date input's own format check is not modelled, only its required check.
- `CreateModal.ValidDate`: days are bounded 1–31 regardless of month, and `ParseDateStr` checks that bound. Month lengths are not modelled.
- `ExceptionHandler.Render`: the framework's own rendering of other exceptions is opaque, and so is `HttpResponseException`'s response. Reporting and logging are not modelled.
- `HomePage.Utf8`: JavaScript strings are UTF-16. Characters are modelled as Unicode scalar values, so lone surrogates are not represented.
- `HomePage.FormDecode`: a strict inverse of the encoder. It refuses malformed escapes instead of keeping them, and does not reject overlong UTF-8 forms, unlike a browser's form parser.
- `Text.LexLess`: it compares characters as code points. JavaScript compares UTF-16 code units, which orders characters above U+FFFF differently from some characters between U+E000 and U+FFFF; such characters do not occur in the compared date texts.
- Lower-casing is ASCII only (`Text.Lower`); non-ASCII case mappings of `toLowerCase` are not modelled.
- `ReservationsTable`:
  - Laravel's 255-character default string length is not modelled, only the explicit 32 on phone and notebook_type;
  - `created_at`/`updated_at` are not carried;
  - ids are always taken from the sequence;
  - dates and timestamps are integers;
  - concurrent transactions (two inserts passing the trigger at once) are not modelled.
- `ReservationsTable.RunKeepsInvariant`: the trigger migration does not check rows already stored, so a database that held overlapping active rows of one program starts outside `Invariant`. The lemma assumes a valid start; the `Table` methods promise only that a valid table stays valid.
- `Migrations.UniqueUp`: creating the index also fails (SQLSTATE 23505) when stored rows already share `(date, room)`. The schema model carries no rows, so that failure is not modelled.
- `ReservationsTable.BackfillEffect`: `name` is NOT NULL, so the backfill's `name IS NOT NULL` test is always true and does not appear.
- `ExceptionHandler.TriggerMessageAloneNotConflict`: the exception message is an input. The connection and SQL text that the framework appends to the driver's message are not modelled, so whether a real trigger refusal mentions the table is not decided here. `ExceptionHandler.TriggerFunctionNameMakesConflict` shows the case where it does.
- `ReservationsTable.Check`: when several guards fail, the model reports one fixed error. The order in which PostgreSQL reports them is not modelled.
- `Migrations.TriggerDown`: `DROP TRIGGER IF EXISTS ... ON reservations` is modelled as succeeding even without the table.
- `Migrations`: column types, the `(date, program, slot)` index and comments are recorded only as far as the guards need them.
- `ReservationTypes.Reservation`: fields no page logic reads (start_at, end_at, contact, note, room, timestamps) are not carried. `jstDateTime` display formatting is not modelled.
- The controller, routes, CORS middleware, `ReservationTable.tsx`, `Modal.tsx` and `lib/api.ts` are not part of this model.

## Findings

| source | as written | input that shows it | evidently intended | confidence | as-written member | corrected member |
|---|---|---|---|---|---|---|
| frontend/src/app/components/CreateReservationModal.tsx:181 | The phone pattern `[0-9()+\- ]{8,}` has unescaped parentheses in its class. Browsers compile `pattern` with the `v` flag, where that class is a syntax error, and an invalid pattern imposes no constraint. | Phone "123" with every other required field filled, in a browser using the `v` flag: the form is submitted. | `[0-9\(\)+\- ]{8,}`, which compiles under both flags and refuses phones shorter than eight characters. | not executed | `CreateModal.ShortPhoneAcceptedUnderV` | `CreateModal.EscapedPatternRefusesShortPhone` |
