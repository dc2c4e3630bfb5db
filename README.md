# Car-wash booking: a verified model of the booking core

This project models, in Dafny, the parts of the car-wash scheduling application
that carry invariants:

- **The booking draft** (`booking_draft.dfy`, `catalog.dfy`, `date_utils.dfy`).
  The draft holds a selected package (none at first) and a list of proposed wash
  instants (empty at first). Proposing a date runs the calendar's fail-fast guard
  chain: no package, then a date past the package window, then quota reached,
  then a duplicate instant. If all pass, the date is appended. Removing a date
  filters out every equal instant. Selecting a package resets the list. The pure
  `Draft` value and the functions `CheckDate`, `Propose`, `Remove`, `Select`
  specify the handlers. The class `DraftSession` holds the shared context and its
  handler methods are proved against those functions. `ReplayKeepsInv` proves
  that any sequence of actions keeps the quota and no-duplicate invariant.
- **The booking endpoint** (`bookings.dfy`). A store class holds the Schedules,
  CarDetails and ScheduledDates rows, plus the identity counters of Schedules
  and CarDetails (ScheduledDates rows are keyed by their schedule).
  `Store.Book` checks the request body, then runs the transaction:
  1. insert the schedule header;
  2. insert the car row pointing at it;
  3. back-patch the header's CarID;
  4. insert one date row per instant in a loop;
  5. commit.

  A parameter names the step that throws. Begin takes a snapshot of the rows and
  rollback restores it. `Consistent` is the store invariant: identities are
  fresh and unique, each schedule has at most one car row, no child row is an
  orphan, and every schedule is complete.
- **The sign-up, login and dashboard endpoints** (`auth.dfy`, `dashboard.dfy`).
  These are the input guards, the credential lookup, the bearer-token extraction
  and the join of schedules with their dates.
- **The client-side reducers** (`user_manager.dfy`, `multi_step_form.dfy`).
  The user list's add, edit and delete, and the wizard's step counter and
  nested-field update.

Instants are integer milliseconds, and `DAY` is 86 400 000. The wall clock
("now") is a parameter of every operation that reads it. JWT verification is
an oracle parameter `verify: string -> Option<int>`. The database is the
in-memory `Store`. A failure injected into one transaction step is a parameter
`fail: Option<FailPoint>`.

Behaviour of the code worth noting:

- The calendar's guard chain has no "car details incomplete" step.
- The calendar enforces no lower bound on the date, although
  `isDateWithinRange` does. `PastDateAccepted` states the difference and
  `WithinRangePassesWindow` states the inclusion that does hold.
- A token that fails verification makes `jwt.verify` throw. The handler catches
  it and answers 500, not 401 or 403.
- The dashboard never answers "not found". An unknown user gets empty lists.

## Model

| member | source | states |
|---|---|---|
| `BookingDraft.CheckDate` | src/components/ScheduleCalendar.js:10-32 | Each verdict holds exactly when its guard is the first to fire. NoPackageSelected exactly when no package is selected. ExceedsDuration exactly when a package is selected and the date is past the window end `now + duration*DAY`. QuotaReached exactly when the date is within the window end and the list holds at least `washes` dates. AlreadyScheduled exactly when, in addition, the quota is not reached and the instant is in the list. Accepted exactly when all four guards pass. |
| `BookingDraft.Propose` | src/components/ScheduleCalendar.js:10-35 | A rejected proposal leaves the draft unchanged. An accepted one appends exactly that date at the end. The package never changes. The draft invariant (quota, no duplicates, no dates without a package) is preserved. |
| `BookingDraft.Remove` | src/components/ScheduleCalendar.js:37-39 | No equal instant remains. Every other entry is kept and nothing new appears. Removing an absent date is a no-op. The invariant is preserved. |
| `BookingDraft.RemoveKeepsOrder` | src/components/ScheduleCalendar.js:38 | Removal distributes over concatenation, so the surviving entries keep their order. |
| `BookingDraft.Select` | src/components/PackageSelector.js:13-16 | After selection the package is the given one and the list is empty, whatever the prior state. The result satisfies the invariant. |
| `BookingDraft.SelectIdempotent` | src/components/PackageSelector.js:13-16 | Selecting the same package twice gives the same draft as selecting it once. |
| `BookingDraft.Remaining` | src/components/ScheduleCalendar.js:72-76 | Remaining washes plus proposed dates equals the package's washes. Under the invariant the count is between 0 and `washes`. |
| `BookingDraft.ReplayKeepsInv` | src/components/ScheduleCalendar.js:24-38 | Any sequence of select, propose and remove actions keeps the draft invariant. |
| `BookingDraft.QuotaAndNoDuplicatesAlways` | src/context/PackageContext.js:6-7 | From the initial context (no package, no dates), after any actions: no instant appears twice, the length never exceeds the selected package's washes, the remaining count is at least 0, and there are no dates without a package. |
| `BookingDraft.PastDateAccepted` | src/components/ScheduleCalendar.js:16-34 | A date before now, within quota and not yet proposed, is accepted. The same date is not within range by the date helper's definition. |
| `BookingDraft.WithinRangePassesWindow` | src/utils/dateUtils.js:1-6 | Every date within range by the date helper passes the calendar's window guard. |
| `BookingDraft.ThirtyDayWalkThrough` | src/components/ScheduleCalendar.js:24-34 | With the 30-day, 4-wash package: three distinct dates leave 1 wash. Re-proposing the first date is AlreadyScheduled. A fourth date leaves 0. A fifth is QuotaReached. Re-selecting clears the list. |
| `BookingDraft.DraftSession.constructor` | src/context/PackageContext.js:6-7 | The context starts with no package and no dates, which satisfies the draft invariant. |
| `BookingDraft.DraftSession.HandleSelectPackage` | src/components/PackageSelector.js:13-16 | Sets the package and empties the dates, as `Select` does. The draft invariant is kept. |
| `BookingDraft.DraftSession.HandleDateSelect` | src/components/ScheduleCalendar.js:10-35 | Returns the verdict of `CheckDate` on the old state. The dates become old dates plus the date when accepted and stay unchanged otherwise. The package is unchanged. The draft invariant is kept. |
| `BookingDraft.DraftSession.HandleRemoveDate` | src/components/ScheduleCalendar.js:37-39 | The dates become the filter of the old dates by instant inequality. The package is unchanged. The draft invariant is kept. |
| `BookingDraft.DraftSession.RemainingWashes` | src/components/ScheduleCalendar.js:74 | The displayed remaining count lies between 0 and the package's washes in every reachable state of the context. |
| `Catalog.CatalogEntries` | src/components/PackageSelector.js:7-11 | The catalog is exactly (90 days, 12 washes), (60, 8), (30, 4), in that order. |
| `Catalog.CatalogPositive` | src/components/PackageSelector.js:8-10 | Every catalog entry has positive duration and positive wash count. |
| `Catalog.IsHighlighted` | src/components/PackageSelector.js:26 | The selected package's own button is highlighted. With no selection no button is. |
| `Catalog.HighlightIdentifiesEntry` | src/components/PackageSelector.js:26 | Catalog names are pairwise distinct, so the name comparison highlights at most one entry. |
| `DateUtils.IsDateWithinRange` | src/utils/dateUtils.js:1-6 | Only a non-negative duration admits any date. With one, the instant "now" itself is within range. |
| `DateUtils.PastIsOutOfRange` | src/utils/dateUtils.js:5 | No instant before now is within range, for any duration. |
| `DateUtils.WithinRangeMonotone` | src/utils/dateUtils.js:2-5 | Within range for duration d implies within range for any d' >= d. |
| `DateUtils.IsDateScheduled` | src/utils/dateUtils.js:8-10 | The `some`-style scan is true exactly when the instant is in the list, so it is false on the empty list. The calendar's duplicate test (src/components/ScheduleCalendar.js:29) inlines the identical `some` expression, so `CheckDate` uses this function for it. |
| `Bookings.StatusOf` | backend/server.js:119 | The stored status is the request's status, or "Scheduled" when absent. |
| `Bookings.NotesOf` | backend/server.js:153 | AdditionalNotes is stored exactly when the request's notes are non-empty. Otherwise it is NULL. |
| `Bookings.BookingStatus` | backend/server.js:121-123 | 400 exactly when a required field is falsy or `scheduledDates` is not a non-empty array. 500 exactly when the body is valid and the injected failure is reached. 201 otherwise. |
| `Bookings.SetCarId` | backend/server.js:162-169 | The UPDATE keeps the row count and touches only the CarID column. Every row with the schedule id gets the car id. Every other row is unchanged. |
| `Bookings.Committed` | backend/server.js:131-181 | A commit adds exactly one Schedules row, one CarDetails row and one ScheduledDates row per requested instant. |
| `Bookings.CommitAddsOneBooking` | backend/server.js:131-179 | The added Schedules row carries the new schedule identity, the new car identity, and the request's UserID, ServiceID, package and status. The added CarDetails row points at the new schedule and carries the request's UserID, make, model, registration number and colour, with the notes rule. The added ScheduledDates rows carry that ScheduleID, one per instant in input order. Earlier rows are untouched. |
| `Bookings.CommitKeepsConsistent` | backend/server.js:125-181 | A commit on fresh identities keeps the store consistent: schedule and car identities below their counters and pairwise distinct, no two car rows for one schedule, no orphan car or date rows, and every schedule patched with its car and holding at least one date. |
| `Bookings.PatchFreshSchedule` | backend/server.js:162-169 | The UPDATE on a freshly inserted schedule's id sets CarID on that row alone. |
| `Bookings.ConsistentUnderLargerCounters` | backend/server.js:183-190 | After a rollback restores the rows, the identities consumed by the failed attempt keep the store consistent. |
| `Bookings.Store.InsertDates` | backend/server.js:171-179 | The loop either inserts one row per instant, in order, or stops at the failing index with exactly the rows before it inserted. |
| `Bookings.Store.Book` | backend/server.js:118-194 | The status is `BookingStatus`. On 201 the tables equal `Committed` of the old tables with the old identity counters. On 400 or 500 all three tables equal their state before the request. The invariant is preserved. |
| `Auth.Signup` | backend/server.js:43-47 | Rejected exactly when FullName, PhoneNumber, email or Password is falsy. On acceptance the row copies those fields, and UserRole is the request's or "User" when absent. |
| `Auth.FirstMatch` | backend/server.js:88-102 | None exactly when no row has `(Email = id or FullName = id) and Password = pw`. Otherwise it is the first matching row in table order. |
| `Auth.Login` | backend/server.js:80-100 | 400 exactly when identifier or password is falsy. 401 exactly when both are present and no row matches. Otherwise it returns the first matching row. |
| `Auth.SignupThenLogin` | backend/server.js:92-96 | A user inserted by an accepted sign-up can log in with their email and password, whatever rows precede it. |
| `Dashboard.Split` | backend/server.js:198 | Splitting yields at least one piece, and no piece contains the separator. |
| `Dashboard.JoinSplit` | backend/server.js:198 | Joining the pieces of a split with the separator gives back the original string. |
| `Dashboard.BearerToken` | backend/server.js:198-202 | No header gives no token. A token, when present, is non-empty and has no space in it. With `BearerTokenOfHeader`, `BearerTokenIsSecondField` and `NoSpaceNoToken`, every header with zero, one or more spaces has its token pinned to the second field when that is non-empty, and to none otherwise. |
| `Dashboard.BearerTokenOfHeader` | backend/server.js:198-201 | A header of the form `scheme + " " + token` with no other space yields that token when it is non-empty. A scheme with a trailing space alone (`"Bearer "`) yields none, hence 401. |
| `Dashboard.BearerTokenIsSecondField` | backend/server.js:198-202 | For `a + " " + b + " " + c` with no space in `a` or `b`, the token is `b` when `b` is non-empty and absent otherwise. Whatever follows the second space is ignored. |
| `Dashboard.NoSpaceNoToken` | backend/server.js:198-202 | A header without a space yields no token, hence 401. |
| `Dashboard.CarsOf` | backend/server.js:209-216 | Every listed car is the projection of a CarDetails row of that user, and every CarDetails row of that user is listed. |
| `Dashboard.CarsOfIsProjection` | backend/server.js:209-216 | The car list is exactly the projection of the user's CarDetails rows, in table order: one entry per row, none else. |
| `Dashboard.RowsFor` | backend/server.js:219-230 | Every row one date row contributes is its join with a schedule of that id owned by the user, and each such join is contributed. |
| `Dashboard.SchedulesOf` | backend/server.js:219-230 | Every listed row pairs one ScheduledDates row with a schedule of that id owned by the user: the schedule's id, status and package, and the date's instant. Every such pair is listed. |
| `Dashboard.JoinedFromUnique` | backend/server.js:227-229 | With unique schedule ids, a date row determines its joined row. |
| `Dashboard.RowsForUnique` | backend/server.js:227-229 | With unique schedule ids, a date row contributes exactly one row when its schedule is the user's, and none otherwise. |
| `Dashboard.OneRowPerOwnedDate` | backend/server.js:219-230 | With unique schedule ids, the k-th listed row is the k-th ScheduledDates row whose schedule belongs to the user, joined with that schedule. There are exactly as many rows as such date rows. |
| `Dashboard.GetDashboard` | backend/server.js:197-238 | 401 exactly when no bearer token is extracted. 500 exactly when the token does not verify. Otherwise one response with the verified user id, that user's cars and that user's joined schedule rows. |
| `Dashboard.DashboardOfConsistentStore` | backend/server.js:209-233 | On a consistent store, the car list is exactly the projection of the user's car rows, and the schedules list holds exactly one row per date of the user's schedules, in date-row order, each that date joined with its schedule. |
| `UserManager.Merge` | src/components/UserManager.js:35 | The update's members win and the user's other members are kept. The id is the update's if it has one. |
| `UserManager.Added` | src/components/UserManager.js:28-30 | One user is appended and the earlier users are unchanged. Its id is the previous length + 1 unless the new user carries its own id. |
| `UserManager.Edited` | src/components/UserManager.js:33-37 | Same length and order. Each user with the id is merged with the update. Every other user is unchanged. |
| `UserManager.Deleted` | src/components/UserManager.js:40-42 | No user with the id remains, every other user is kept, and nothing new appears. |
| `UserManager.EditAbsentId` | src/components/UserManager.js:33-37 | Editing an id no user carries leaves the list unchanged. |
| `UserManager.DeleteAbsentId` | src/components/UserManager.js:40-42 | Deleting an id no user carries leaves the list unchanged. |
| `UserManager.DeleteKeepsOrder` | src/components/UserManager.js:41 | Deletion distributes over concatenation, so survivors keep their order. |
| `UserManager.DeleteUndoesAdd` | src/components/UserManager.js:28-42 | Deleting the id just assigned by an add undoes the add, provided no earlier user had that id. |
| `UserManager.IdsCanRepeat` | src/components/UserManager.js:29 | Add two users, delete id 1, then add a third: two users now share id 2. Ids are not unique. |
| `UserManager.UserList.constructor` | src/components/UserManager.js:4 | The user list starts empty. The users loaded at lines 7-20 are an arbitrary initial list (see "Left out"). |
| `UserManager.UserList.AddUser` | src/components/UserManager.js:28-30 | The users become `Added` of the old users. |
| `UserManager.UserList.EditUser` | src/components/UserManager.js:33-37 | The users become `Edited` of the old users. |
| `UserManager.UserList.DeleteUser` | src/components/UserManager.js:40-42 | The users become `Deleted` of the old users. |
| `MultiStepForm.Form.constructor` | src/MultiStepForm.js:5-18 | The wizard starts at step 1 with a null package and empty car and user fields. |
| `MultiStepForm.Form.HandleNext` | src/MultiStepForm.js:20 | The step increases by exactly 1, with no bound. The form data is unchanged. |
| `MultiStepForm.Form.HandleBack` | src/MultiStepForm.js:21 | The step decreases by exactly 1, with no bound. The form data is unchanged. |
| `MultiStepForm.WithInput` | src/MultiStepForm.js:23-31 | `formData[section][field]` becomes the value. Other fields of that section and all other sections are unchanged. A null or missing section becomes an object holding just that field. |
| `MultiStepForm.InputOverwrites` | src/MultiStepForm.js:23-31 | Setting the same field twice equals setting it once to the second value. |
| `MultiStepForm.Form.HandleInputChange` | src/MultiStepForm.js:23-31 | The form data becomes `WithInput` of the old data, and the step is unchanged. |
| `MultiStepForm.Buttons` | src/MultiStepForm.js:35-144 | Next is rendered exactly on steps 1 and 2, Back exactly on steps 2 and 3, and Submit exactly on step 3. |
| `MultiStepForm.Press` | src/MultiStepForm.js:20-21 | A press moves the step by at most one, Submit not at all, and a rendered button keeps a step in {1,2,3} inside it. |
| `MultiStepForm.PressAll` | src/MultiStepForm.js:20-144 | Starting from a step in {1,2,3}, any sequence of presses on rendered buttons ends in {1,2,3}, at most one step per press away from the start. |
| `MultiStepForm.AllStepsReachable` | src/MultiStepForm.js:41-46 | Steps 1, 2 and 3 are each reached from step 1 through the buttons. |
| `MultiStepForm.Form.Click` | src/MultiStepForm.js:41-143 | A click on a rendered button moves the step as `Press` says, and the step stays in {1,2,3}. Submit leaves the step unchanged. |

## Left out

- Rendering, JSX, the calendar widget, tile highlighting, alert texts and routing are user interface. So are the dashboard's status colours, its fetch and its redirect.
- The `localStorage` and `fetch('/users.json')` effects of the user list are browser I/O. Users loaded from them are an arbitrary initial list.
- Express setup, the connection pool, `process.exit`, `GET /api/users` and the 404 handler are wiring.
- SQL text, `OUTPUT INSERTED`, `GETDATE()` timestamps, driver type conversion and the ScheduledDates Status column default are not modelled. The database types are not part of this model.
- SQL Server collation is out: case-insensitive comparison and trailing-space padding are not modelled. The login lookup uses exact string equality.
- Query result order is not specified by the code. Login takes the first matching row in table order. The dashboard lists rows in date-row order.
- JWT signing is a foreign library call and is not modelled, so the login result carries the user row and no token. `jwt.verify` is the oracle parameter `verify`.
- Password hashing, the document-store schemas and controllers, `backend/config/database.js` and `tailwind.config.js` are not part of this model.
- The Users insert of sign-up and that insert's 500 path are database calls. `Auth.Signup` stops at the row to insert.
- Login's catch-all 500 (backend/server.js:111-114) is not modelled: it answers a database or signing failure, and both are outside the model.
- The dashboard's database failures (500) are not modelled. Only a failed verification produces 500.
- A throwing rollback is not modelled: the code logs it and still answers 500. The model's rollback always restores the snapshot.
- `Bookings.Store.Book`: after a rollback, consumed identity values advance and are not reused, as identity columns do. Only the three tables are restored.
- `Bookings.BookingRequest`: ids are integers and text members are strings. Other JSON types (a string user id, a null status) are not modelled. An absent status defaults to "Scheduled". A present one is stored as given.
- Wall-clock time, time zones, daylight saving and `Date.setDate` month rollover are left out. "Now" is a parameter and a day is a fixed `DAY` of milliseconds.
- Concurrent bookings and transaction isolation belong to the database. One booking runs at a time.
- `MultiStepForm.Form.HandleInputChange`: the wizard's step-1 selector (`src/PackageSelector.js`, imported at src/MultiStepForm.js:2) is not part of this model, so whether it calls `onSelect`, and so `handleInputChange('package', ...)`, is not known. `HandleInputChange` still models the handler for any section.
