# Intercity terminal booking core, in Dafny

This project models the core of a Go web application that runs an intercity bus terminal.
Staff manage vehicles, trips and passenger bookings. Users sign in with a role: Admin,
Manager, Accountant or Operator. Forgotten passwords are reset through emailed tokens,
six-character codes or a security question.

The model covers these parts:

- **The SQLite layer** (`Db`, `BookingQuery`). Each table is a `seq` field of the class
  `Db.Database`, kept in row order, with one AUTOINCREMENT counter per table. `Tables` is a
  value snapshot of all tables. The write operations are methods that state the whole new
  snapshot. The queries are functions over the snapshot:
  - vehicle availability;
  - active booking counts;
  - trip capacity;
  - reset-code validation;
  - the filtered booking query builder.
- **The admin and operator JSON handlers** (`Admin`, `Dashboard`). Each handler is a method
  on the database. It returns an `Http.Reply`, which is an accepted value or a status and an
  error message, and it runs its checks in the source's order. Cookies are `Option<string>`
  inputs. A parse result is an `Option<int>`.
- **The two in-memory reset-token stores** (`Tokens`, `LegacyTokens`), as classes with a
  `map` field.
- **The reset flows** (`PasswordReset`) and **registration** (`Register`).
- **The validators** (`Validation`, `HandlerValidation`) and **the route guards**
  (`AuthMiddleware`).
- **Go library behaviour** that the core relies on (`GoText`): `strings.TrimSpace`,
  ASCII `ToLower` and `EqualFold`, and UTF-8 byte length. It also covers byte order on
  strings, which is how SQLite and Go compare the TEXT timestamps of trips, and hex
  encoding.

Some values come from outside the program and are passed in as parameters:

- the clock (`now`, in whole seconds);
- the bytes from `crypto/rand`, and its error;
- bcrypt, as a function `hash: string -> string`;
- storage failures of the writes listed below, as `fault` inputs (a flag, or the driver's error text where the handler replies with it);
- the rows a SELECT returns, as a `select` function.

Foreign keys are enforced, because the connection string turns them on:

- an insert or update of a trip needs an existing vehicle;
- an insert of a booking needs an existing trip;
- deleting a trip cascades to its bookings;
- deleting a vehicle fails while any trip names it. The schema's `ON DELETE SET NULL` would
  break `trips.vehicle_id NOT NULL`.

The code behaves as follows, and the model follows it:

- Reset codes are six lower-case hex digits, not six decimal digits.
- Re-activating a cancelled booking never re-checks capacity.
- Creating a trip never checks vehicle availability.
- The operator booking form has no capacity check.

## Model

| member | source | states |
|---|---|---|
| Db.IsVehicleAvailableForTripEdit | db/db.go:1069-1089 | true iff the vehicle exists, is not 'Under repair', has its maintenance date outside [dep, arr], and has no other trip overlapping the window strictly |
| Db.ExcludedTripNeverConflicts | db/db.go:1076-1082 | the trip being edited never blocks its own edit, whatever its vehicle and window |
| Db.TouchingWindowsDoNotOverlap | db/db.go:1076-1082 | windows that only touch (arrival = next departure) do not conflict |
| Db.OverlapSymmetric | db/db.go:1076-1082 | the overlap test is symmetric in the two windows |
| Db.MaintenanceBlocksInClosedRange | db/db.go:1069-1075 | a maintenance date blocks exactly when dep <= date <= arr |
| Db.EmptyMaintenanceDate | db/db.go:767-786 | an omitted maintenance date ("") only blocks a departure of "" |
| Db.GetAvailableVehicles | db/db.go:767-786 | sorted by vehicle_number, and each vehicle occurs as often as in the table if it passes the status, maintenance and overlap filters, otherwise not at all |
| Db.ListingAgreesWithEditCheck | db/db.go:767-786 | with unique vehicle ids and an excluded id no trip has, a vehicle is listed iff the edit check accepts it |
| Db.GetTripBookingsCount | db/db.go:1112-1125 | the number of the trip's bookings whose status is not 'Cancelled' |
| Db.CountAppend | db/db.go:1112-1125 | appending a booking raises the count by one exactly when it is an active booking of that trip |
| Db.CountAfterStatusChange | db/db.go:968-974 | a status change of one booking moves its trip's count by at most one |
| Db.GetVehicleBookingsCount | db/db.go:1128-1140 | active bookings joined to the trips that use the vehicle |
| Db.VehicleCountIsSumOfTripCounts | db/db.go:1128-1140 | the vehicle count is the per-trip count summed over the vehicle's trip rows |
| Db.GetTripVehicleCapacity | db/db.go:1092-1109 | the capacity of the joined vehicle, or the error "trip not found" when the trip or its vehicle is missing |
| Db.CheckTripAvailability | db/db.go:1143-1155 | `count < capacity`, or the capacity lookup's "trip not found" |
| Db.AdmissionWithinCapacity | db/db.go:1143-1155 | when the check says true, one more active booking keeps the count within capacity; when it says false, the trip is full |
| Db.ReactivationCanExceedCapacity | db/db.go:968-974 | re-activating a cancelled booking on a full trip takes the count above capacity |
| Db.ValidateResetCode | db/db.go:553-571 | the user of the first row with the code that is unused and expires after `now`, otherwise an error |
| Db.MarkCodeUsed | db/db.go:574-581 | every row with the code becomes used and nothing else changes |
| Db.MarkedCodeIsRejected | db/db.go:553-581 | after marking, the code never validates again, at any time |
| Db.StoredCodeValidates | db/db.go:543-571 | a freshly stored code validates for its owner until it expires, unless an earlier live row has the same code |
| Db.FindUserByEmail | db/db.go:439-460 | the first user with the email, None iff there is none |
| Db.FindUserByUsername | db/db.go:415-436 | the first user with the username, None iff there is none |
| Db.FindSecurityQuestion | db/db.go:621-633 | the first security question of the user, None iff there is none |
| Db.FindTrip | handlers/dashboard/admin.go:815-817 | the first trip row with the id, None iff there is none |
| Db.FindBooking | handlers/dashboard/admin.go:1029-1032 | the first booking row with the id, None iff there is none |
| Db.RemovalDoesNotRaiseCount | db/db.go:926-983 | deleting booking rows never raises a trip's active count |
| Db.Database.constructor | db/db.go:134-272 | every table and counter empty |
| Db.Database.AddUser | db/db.go:378-412 | the required-field error; a taken username fails with `failed to insert user: UNIQUE constraint failed: users.username`; otherwise one row appended with the next id, and the role "Operator" when the role is empty |
| Db.Database.UpdateUserPassword | db/db.go:470-477 | the user's hash is replaced and nothing else changes; on a storage fault nothing changes |
| Db.Database.UpdateUsername | db/db.go:480-499 | refused when another user has the name; otherwise only that user's name changes |
| Db.Database.UpdateUserRole | db/db.go:699-706 | only the role of the user's row changes; on a storage fault nothing changes |
| Db.Database.StoreResetCode | db/db.go:543-550 | fails, changing nothing, exactly when the user does not exist or the storage fails; otherwise one unused row appended |
| Db.Database.MarkResetCodeUsed | db/db.go:574-581 | the codes table becomes MarkCodeUsed of the old one |
| Db.Database.AddSecurityQuestion | db/db.go:611-618 | one row appended with the next id for an existing user; nothing changes on a fault |
| Db.Database.AddVehicle | db/db.go:721-750 | number, type and status are required; a taken number fails with `failed to insert vehicle: UNIQUE constraint failed: vehicles.vehicle_number` and changes nothing; otherwise one row appended with the next id |
| Db.Database.UpdateVehicle | db/db.go:801-837 | fields required, the number must not belong to another vehicle; otherwise only that row changes |
| Db.Database.DeleteVehicle | db/db.go:840-847 | fails while a trip names the vehicle; otherwise only its rows go |
| Db.Database.AddTrip | db/db.go:852-882 | rejected unless departure < arrival (string order) and the cities differ; a missing vehicle fails with `failed to insert trip: FOREIGN KEY constraint failed`; otherwise one row appended with the next id |
| Db.Database.UpdateTrip | db/db.go:899-923 | rejected by the same checks before any write, an existing trip pointed at a missing vehicle with `failed to update trip: FOREIGN KEY constraint failed`; otherwise the row with the id is rewritten |
| Db.Database.DeleteTrip | db/db.go:926-932 | the trip's rows go and its bookings are removed by the cascade; on a driver fault, `failed to delete trip: ` and the driver text, with nothing changed |
| Db.Database.AddBooking | db/db.go:935-960 | trip id, passenger and status are required; a missing trip fails with `failed to insert booking: FOREIGN KEY constraint failed`; otherwise one row appended with the next id |
| Db.Database.UpdateBookingStatus | db/db.go:968-974 | the status of the rows with that id is written, with no capacity check; on a driver fault, `error updating booking status: ` and the driver text, with nothing changed |
| Db.Database.DeleteBooking | db/db.go:977-983 | only the booking rows with that id go; on a driver fault, `error deleting booking: ` and the driver text, with nothing changed |
| BookingQuery.AppendFilter | db/db.go:1008-1034 | appends the key's fragment to the WHERE text exactly when its value is non-empty, and FilterArg of the key to the arguments; continuing CondsUpTo/ArgsUpTo of the earlier keys gives those of this key |
| BookingQuery.FilterConditions | db/db.go:1008-1034 | the WHERE text is exactly FilterWhere (the fragments of the non-empty keys, in Go's order), the arguments are FilterArgs, and there is one `?` per argument |
| BookingQuery.FirstFilters | db/db.go:1009-1020 | the passenger, origin and destination tests leave CondsUpTo and ArgsUpTo of the first three keys |
| BookingQuery.LastFilters | db/db.go:1021-1033 | the status and date tests continue those to all six keys |
| BookingQuery.CondsMatchArgs | db/db.go:1008-1034 | for every prefix of the keys, the conditions hold exactly one `?` per bound argument |
| BookingQuery.NoFilterNoConditions | db/db.go:1008-1034 | a nil map, or one whose values are all empty, adds no condition and binds no argument |
| BookingQuery.AllFragmentsAreConditions | db/db.go:1008-1034 | there is one fragment per key, and each holds exactly one `?`, as its last character |
| BookingQuery.SortOrder | db/db.go:1037-1058 | the order clause never holds a placeholder |
| BookingQuery.BookingsQueryShape | db/db.go:999-1066 | BookingsQuery starts with the SELECT, ends with SortOrder, and holds one placeholder per FilterArgs entry after the SELECT |
| BookingQuery.OrderClause | db/db.go:1037-1058 | the column comes from the whitelist only, DESC only for exactly "desc", and `booking_date DESC` for an empty or unknown key |
| BookingQuery.GetFilteredBookings | db/db.go:999-1066 | the query is exactly BookingsQuery: the fixed SELECT, then FilterWhere, then SortOrder; the arguments are FilterArgs, with one placeholder per argument after the SELECT |
| BookingQuery.Assembled | db/db.go:1000-1057 | joining SELECT, conditions and order keeps the SELECT as prefix, the order clause as suffix, and one placeholder per argument |
| Http.QueryFilter | handlers/dashboard/admin.go:887-909 | the filter map has an entry exactly for each non-empty parameter |
| Http.QueryFilterValues | handlers/dashboard/admin.go:887-909 | each entry holds its parameter unchanged |
| Http.QueryFilterReadsParams | handlers/dashboard/admin.go:887-909 | the query builder reads every parameter back under its key, so empty parameters left out change nothing |
| Http.PositiveOr | handlers/dashboard/admin.go:916-923 | a parsed value replaces the default only when it is positive |
| Http.PageWindow | handlers/dashboard/admin.go:955-966 | 0 <= start <= end <= total and end - start <= pageSize |
| Http.EveryRowOnItsPage | handlers/dashboard/admin.go:955-966 | row i lies on page i / pageSize + 1 at position i % pageSize |
| Http.PagesAreContiguous | handlers/dashboard/admin.go:955-966 | each page starts where the one before it ends, and a page past the end is empty |
| Http.Paginate | handlers/dashboard/admin.go:916-966 | non-positive parameters fall back to page 1 and size 10; a page that starts inside the rows holds the next `min(size, rest)` rows from `(page-1)*size` on, in order; the total counts all rows |
| Http.DefaultPageIsFirstTen | handlers/dashboard/admin.go:916-923 | with no parameters the first ten rows are shown |
| Admin.AdminCreateRole | handlers/dashboard/admin.go:199-201 | a known role is kept; anything else becomes Operator |
| Admin.ManagerCreateRole | handlers/dashboard/admin.go:270-275 | Operator, Manager or Accountant is kept; anything else, Admin included, becomes Operator |
| Admin.AdminUpdateRole | handlers/dashboard/admin.go:306-310 | accepted iff the role is one of the four; "Invalid role" otherwise |
| Admin.ManagerUpdateRole | handlers/dashboard/admin.go:330-335 | accepted iff the role is Operator, Manager or Accountant |
| Admin.UpdateRejectsWhatCreateReplaces | handlers/dashboard/admin.go:199-335 | an update rejects exactly the roles a create would replace; the create normalisation is idempotent |
| Admin.ManagerNeverGrantsAdmin | handlers/dashboard/admin.go:270-335 | a manager can neither create nor set an Admin |
| Admin.CreateUser | handlers/dashboard/admin.go:183-220 | the required-field, username and password errors, in order; an empty hash or a taken username is a 500 "Failed to create user"; accepted iff the form passes, the hash is non-empty and the name is free, and then one user row is appended with the next id and nothing else changes |
| Admin.AddCheckedUser | handlers/dashboard/admin.go:205-220 | a 500 "Failed to create user" for an empty hash or a taken name, changing nothing; otherwise the row with the hashed password is appended and the counter advances |
| Admin.AdminCreateUser | handlers/dashboard/admin.go:150-228 | 401 without a username, 403 unless the role is exactly Admin; accepted iff signed in as Admin, the form passes, the hash is non-empty and the name is free; then exactly one user row with the normalised role is appended and nothing else changes |
| Admin.ManagerCreateUser | handlers/dashboard/admin.go:231-293 | 401, then 403 unless Manager or Admin; accepted iff signed in with one of those roles, the form passes, the hash is non-empty and the name is free; then exactly one user row with the manager-normalised role is appended, nothing else changes and no new Admin row exists |
| Admin.AdminUpdateUser | handlers/dashboard/admin.go:296-317 | 400 "Invalid role" for an unknown role, 500 on a storage fault; otherwise only the user's role changes |
| Admin.ManagerUpdateUser | handlers/dashboard/admin.go:320-342 | the same with the manager's role set, so Admin is refused |
| Admin.AdminCreateVehicle | handlers/dashboard/admin.go:496-560 | 401, 403, 400 for a missing number or type; status defaults to "Active"; a duplicate number is a 500 with `Failed to create vehicle: failed to insert vehicle: UNIQUE constraint failed: vehicles.vehicle_number` and changes nothing |
| Admin.InsertVehicle | handlers/dashboard/admin.go:533-559 | 400 for a missing number or type; inserted iff the number is new, with status "Active" when empty; a duplicate is a 500 with `Failed to create vehicle: ` and the driver's UNIQUE error, and changes nothing |
| Admin.AdminUpdateVehicle | handlers/dashboard/admin.go:563-605 | 400 without number or type, refused while the vehicle has active bookings; then a 500 carrying UpdateVehicle's message for an empty status or a number in use; otherwise only that row is rewritten |
| Admin.AdminDeleteVehicle | handlers/dashboard/admin.go:608-632 | 400 for a bad id, refused with active bookings; a vehicle still named by a trip gives 500 "Failed to delete vehicle"; deleted exactly when no trip names it |
| Admin.UnusedVehicleHasNoBookings | handlers/dashboard/admin.go:608-632 | a vehicle no trip uses has no active bookings, so the guard lets its deletion through |
| Admin.AdminCreateTrip | handlers/dashboard/admin.go:745-782 | 401, 403, all fields required, 400 when the cities are the same; then AddTrip with no availability check, its time-order and foreign-key errors passed through as 500s |
| Admin.BookedTripExists | handlers/dashboard/admin.go:813-825 | a trip with active bookings has a row, so its stored route can be read |
| Admin.AdminUpdateTrip | handlers/dashboard/admin.go:785-846 | in order: id required, cities differ, route frozen while bookings exist, availability excluding this trip, then UpdateTrip's time-order error as a 500; any rejection changes nothing |
| Admin.RescheduleTrip | handlers/dashboard/admin.go:833-846 | 400 when the vehicle is not free, then UpdateTrip's time-order error as a 500; the trip row changes iff the vehicle is free for the new times (this trip excluded) and departure precedes arrival; otherwise nothing changes |
| Admin.AdminDeleteTrip | handlers/dashboard/admin.go:849-872 | refused while the trip has active bookings; a failed delete is a 500 "Delete failed" that changes nothing; otherwise the trip and its bookings go |
| Admin.AdminBookings | handlers/dashboard/admin.go:876-967 | 401, 403; the query is exactly BookingsQuery of the filter built from the parameters, the arguments are its FilterArgs, and the page follows the clamped window |
| Admin.AdminCreateBooking | handlers/dashboard/admin.go:970-1014 | 401, 403, the fields 400, a 500 "Failed to check trip availability: trip not found" for a trip without a vehicle row, the full-trip 400; inserts only when CheckTripAvailability says true, so the new count stays within capacity; refused otherwise with nothing changed |
| Admin.BookSeat | handlers/dashboard/admin.go:993-1013 | 400 for missing fields, the 500 "Failed to check trip availability: trip not found", 400 for a full trip; booked iff the availability check says true, and the count then stays within the vehicle capacity |
| Admin.CapacityCheckFindsTrip | handlers/dashboard/admin.go:993-1008 | a successful capacity lookup means the trip exists, so the insert cannot hit the foreign key |
| Admin.AdminUpdateBookingStatus | handlers/dashboard/admin.go:1017-1064 | 400 without id or status, 500 "Failed to retrieve booking information" for an unknown booking, a 500 carrying the update error when the write fails; otherwise the status changes with no capacity check |
| Admin.AdminDeleteBooking | handlers/dashboard/admin.go:1067-1105 | 400 for a bad id; a failed delete is a 500 "Delete failed" that changes nothing; otherwise only that booking goes |
| Admin.AdminTripCapacity | handlers/dashboard/admin.go:1108-1143 | available = max(0, capacity - booked) and is_available = available > 0, or the lookup's error |
| Admin.CapacityReportMatchesAdmission | handlers/dashboard/admin.go:1131-1142 | the report shows seats exactly when admission would accept a booking |
| Dashboard.EffectiveRole | handlers/dashboard/dashboard.go:30-38 | a missing or empty role cookie means Operator |
| Dashboard.DashboardPage | handlers/dashboard/dashboard.go:18-123 | redirect to login without a username; otherwise the role's template, and the operator one for an unknown role |
| Dashboard.DashboardTemplateByRole | handlers/dashboard/dashboard.go:109-122 | Admin gets the admin dashboard; any role outside Manager, Accountant and Admin gets the operator dashboard |
| Dashboard.OperatorUpdateTrip | handlers/dashboard/dashboard.go:388-414 | 400 when the vehicle is not available excluding this trip; otherwise UpdateTrip, with no route freeze |
| Dashboard.OperatorCreateTrip | handlers/dashboard/dashboard.go:488-511 | all fields required, then only AddTrip's checks, whose time-order, same-city and foreign-key errors come back as 500s |
| Dashboard.OperatorDeleteTrip | handlers/dashboard/dashboard.go:417-439 | refused while the trip has active bookings; a failed delete is a 500 "Delete failed" that changes nothing; otherwise the trip and its bookings go |
| Dashboard.OperatorCreateBooking | handlers/dashboard/dashboard.go:199-227 | trip id, passenger and status required; a missing trip is a 500 with `failed to insert booking: FOREIGN KEY constraint failed`; otherwise inserted with no capacity check |
| Dashboard.OperatorBookingCanOverfill | handlers/dashboard/dashboard.go:212-221 | on a full trip the operator insert takes the count above capacity |
| Dashboard.OperatorDeleteBooking | handlers/dashboard/dashboard.go:473-485 | 400 for a bad id; a failed delete is a 500 "Delete failed" that changes nothing; otherwise only that booking goes |
| Dashboard.OperatorGetBookings | handlers/dashboard/dashboard.go:258-339 | only a missing username cookie is refused; the query is exactly BookingsQuery of the filter built from the parameters, with its FilterArgs, and the page follows the same clamped window |
| Dashboard.OperatorTripCapacity | handlers/dashboard/dashboard.go:442-470 | available = capacity - booked, unclamped, and is_available = available > 0 |
| Dashboard.CapacityReportsAgree | handlers/dashboard/dashboard.go:461-469 | the two reports fail together, agree on capacity, booked and is_available, and the admin figure is the operator's raised to 0 |
| Dashboard.OverfullTripShowsNegativeSeats | handlers/dashboard/dashboard.go:461-469 | on an overfull trip the operator report is negative where the admin report shows 0 |
| Tokens.GenerateResetToken | handlers/tokens/tokens.go:26-33 | 32 lower-case hex characters that decode back to the 16 random bytes, or the generator's error |
| Tokens.GenerateVerificationCode | handlers/tokens/tokens.go:93-97 | 6 lower-case hex characters that decode back to the 3 random bytes |
| Tokens.Recheck | handlers/tokens/tokens.go:58-73 | deletes the token only when it is still stored and still expired, and keeps every other entry |
| Tokens.ResetTokenStore.constructor | handlers/tokens/tokens.go:18-21 | the store starts empty |
| Tokens.ResetTokenStore.Store | handlers/tokens/tokens.go:36-49 | on success exactly one entry {userId, now + 15 min} is added and earlier tokens survive; on error nothing changes |
| Tokens.ResetTokenStore.Validate | handlers/tokens/tokens.go:52-82 | ok iff stored and now <= expiry; the stored user id even when expired, 0 when unknown; a live or unknown token leaves the map unchanged |
| Tokens.ResetTokenStore.Invalidate | handlers/tokens/tokens.go:85-90 | only that key is removed |
| Tokens.StoredTokenLiveUntilExpiry | handlers/tokens/tokens.go:41-55 | a stored token is live up to and including fifteen minutes after storing |
| Tokens.OtherTokensUnaffected | handlers/tokens/tokens.go:36-90 | storing or invalidating one token does not change whether another is live |
| Tokens.InvalidateIdempotent | handlers/tokens/tokens.go:85-90 | invalidation is idempotent and an invalidated token is never live |
| Tokens.UndisturbedRecheckDeletes | handlers/tokens/tokens.go:58-73 | with no interference, validating an expired token deletes it and nothing else |
| Tokens.RefreshedTokenSurvivesRecheck | handlers/tokens/tokens.go:64-71 | a token made live again before the re-check is kept |
| LegacyTokens.LegacyTokenStore.constructor | handlers.go:137-140 | the store starts empty |
| LegacyTokens.LegacyTokenStore.Store | handlers.go:155-168 | the same insertion as the newer store |
| LegacyTokens.LegacyTokenStore.Validate | handlers.go:171-190 | ok iff stored and not expired; a stored expired token is deleted with no re-check |
| LegacyTokens.LegacyTokenStore.Invalidate | handlers.go:193-198 | the key is deleted unconditionally |
| LegacyTokens.LegacyDeletionIsUndisturbedRecheck | handlers.go:177-182 | the unconditional delete equals the newer store's re-check when nothing interferes |
| LegacyTokens.ExpiredStaysExpired | handlers.go:171-190 | a token found not live is not live at any later time |
| PasswordReset.ShowResetForm | handlers/auth/password_reset.go:184-199 | redirect for a token that is not live, with the store as the re-check under the write lock leaves it; otherwise the form, with the token left stored |
| PasswordReset.HandleResetPassword | handlers/auth/password_reset.go:208-244 | invalid token (the store then as the re-check leaves it), then empty or mismatched, then short passwords are refused, keeping the token; the token goes only after the update succeeds |
| PasswordReset.Forgot | handlers/auth/password_reset.go:22-181 | with no code a new code expiring in 15 minutes is stored and no password changes, or, when storing fails, "An error occurred generating reset code. Please try again." and nothing changes; with a code, an invalid code is refused first, the code owner's password changes, and the code is marked used afterwards |
| PasswordReset.RequestCode | handlers/auth/password_reset.go:76-100 | a code row for the user expiring 15 minutes after now is appended and the code is shown on the page; a failed insert shows the generating-reset-code error and changes nothing |
| PasswordReset.RedeemCode | handlers/auth/password_reset.go:103-172 | an invalid or expired code is refused first, then bad passwords; a failed update shows the update error on the code form; the owner's password changes iff the code is valid, the passwords pass and the update succeeds |
| PasswordReset.SpentCodeIsRefused | handlers/auth/password_reset.go:164-172 | a code marked used is refused at any later time |
| PasswordReset.RequestedCodeRedeemable | handlers/auth/password_reset.go:76-100 | a requested code redeems for its user until it expires, unless an older live row has the same code |
| PasswordReset.FoundUserExists | handlers/auth/password_reset.go:41-100 | a user found by email is a stored user, so the code insert cannot hit the foreign key |
| PasswordReset.NormalizeAnswer | handlers/auth/password_reset.go:409 | the compared answer has no upper-case ASCII letter |
| PasswordReset.SecurityQuestionReset | handlers/auth/password_reset.go:251-467 | a username alone shows the question without changes; otherwise every field required, passwords equal and at least 8 bytes, then the trimmed lower-cased answer must match; each refusal has its own page text (invalid request, try again, mismatch, too short, wrong answer, update failed); only then the password changes |
| PasswordReset.ShowQuestion | handlers/auth/password_reset.go:262-347 | an unknown username, then a user without a question, are refused; otherwise the question form |
| PasswordReset.ResetByAnswer | handlers/auth/password_reset.go:350-458 | unparsable ids are an invalid request; then, in order, a missing question, mismatched passwords, a short password, a wrong answer and a failed update each get their own page text; the password changes iff the question exists, the passwords are equal and long enough, the normalised answer hash matches and the update succeeds |
| PasswordReset.AnswerIgnoresCase | handlers/auth/password_reset.go:409 | answers equal up to surrounding spaces and ASCII case normalise to the same string |
| Register.Trimmed | handlers/auth/register.go:65-72 | every field except the two passwords is trimmed |
| Register.MissingFields | handlers/auth/register.go:78-102 | the list of empty fields, built by appends in the fixed order |
| Register.EmptyFieldsExact | handlers/auth/register.go:78-102 | the list names exactly the empty fields, in field order, without repeats |
| Register.EmptyFieldsSound | handlers/auth/register.go:78-102 | every listed name is that of an empty field |
| Register.EmptyFieldsComplete | handlers/auth/register.go:78-102 | every empty field is listed |
| Register.EmptyFieldsOrdered | handlers/auth/register.go:78-102 | names appear in field order |
| Register.NothingMissingIff | handlers/auth/register.go:104-115 | no entry iff all eight values are non-empty |
| Register.RegisterCheck | handlers/auth/register.go:104-170 | no error iff all fields are present, the email is valid, not yet registered, and the passwords match; "missing" exactly when some field is empty |
| Register.CheckForm | handlers/auth/register.go:78-170 | the four checks in their order give exactly RegisterCheck's answer |
| Register.BasicRegister | handlers/auth/register.go:31-227 | the first failing check's message, with the email cleared only for a duplicate and nothing changed; otherwise the outcome of CreateAccount |
| Register.CreateAccount | handlers/auth/register.go:172-226 | an Operator row is added unless the insert fails; the lower-cased answer is then saved, and a failure there still redirects to success |
| Register.RegisteredAnswerAccepted | handlers/auth/register.go:186-188 | the answer hash stored at registration matches any answer the reset flow treats as equal |
| Validation.MatchesUsernamePattern | utils/validation.go:26-28 | true iff every character is in [0-9A-Za-z_-] and the name is non-empty |
| Validation.ConsecutiveSeparators | utils/validation.go:44-46 | the four Contains tests together mean two adjacent separators |
| Validation.IsValidUsername | utils/validation.go:19-49 | Pass iff every rule holds; otherwise the message of the first failing rule, in source order |
| Validation.ValidUsernameLength | utils/validation.go:21-23 | an accepted username has 3 to 30 characters |
| Validation.PasswordAcceptedIff | utils/validation.go:53-97 | a password passes iff it has at least 8 bytes and all four character kinds |
| Validation.MissingRequirementsBound | utils/validation.go:76-96 | at most five requirements are listed |
| Validation.IsValidPassword | utils/validation.go:53-97 | (true, "") iff nothing is missing; otherwise the missing requirements in order, joined by ", " in the fixed message |
| Validation.CharacterClasses | utils/validation.go:63-74 | each flag is set iff some character is of its class |
| Validation.EmailSplitUnique | utils/validation.go:11-15 | in any match, the `@` is the only one and the last `.` starts the top-level domain |
| Validation.IsValidEmail | utils/validation.go:11-15 | true iff the string matches the email pattern |
| Validation.ValidEmailParts | utils/validation.go:11-15 | an accepted email has one `@`, a non-empty local part, and ends in `.` and at least two ASCII letters |
| HandlerValidation.IsValidEmail | handlers/utils/validation.go:9-13 | the same language as the utils pattern |
| HandlerValidation.IsValidUsername | handlers/utils/validation.go:16-18 | true iff at least 3 bytes remain after trimming |
| HandlerValidation.PaddedUsername | handlers/utils/validation.go:16-18 | a name wrapped in white space passes iff its core, which neither starts nor ends with white space, has at least 3 bytes |
| HandlerValidation.PaddedShortName | handlers/utils/validation.go:16-18 | " ab " fails: the padding does not count |
| HandlerValidation.PaddedLongName | handlers/utils/validation.go:16-18 | "\tabc\n" passes |
| GoText.TrimSpace | handlers/utils/validation.go:17 | the result is the slice of the input that starts after its leading white space; it neither starts nor ends with white space, everything after it is white space, and it is empty iff the input is all white space |
| GoText.TrimSurrounded | handlers/utils/validation.go:17 | trimming white space from both sides of a core that neither starts nor ends with white space gives back that core |
| HandlerValidation.StrictUsernameIsLoose | handlers/utils/validation.go:16-18 | every name the strict rules accept passes this rule |
| HandlerValidation.LooseAcceptsInnerSpaces | handlers/utils/validation.go:16-18 | a name with an inner space passes here but fails the strict rules |
| AuthMiddleware.RequireLogin | handlers/middleware/auth.go:12-21 | next runs iff the username cookie is present and non-empty; otherwise the login redirect |
| AuthMiddleware.RequireRole | handlers/middleware/auth.go:24-62 | login redirect without a username, dashboard redirect without a role or with an unlisted role; next runs with user_role set iff both are present and the role matches up to case |
| AuthMiddleware.EqualFoldIsLowerEquality | handlers/middleware/auth.go:43-49 | EqualFold is equality after lower-casing |
| AuthMiddleware.AllowedIgnoresCase | handlers/middleware/auth.go:43-49 | roles equal up to case are allowed together or refused together |
| AuthMiddleware.LowerCaseAdminPassesGuardOnly | handlers/middleware/auth.go:43-49 | "admin" passes RequireRole(["Admin"]) while the admin handlers' exact comparison refuses it |

In handlers.go, `generateVerificationCode` (lines 470-474) matches Tokens.GenerateVerificationCode. Its `isValidEmail` (lines 730-733) uses the same pattern as Validation.IsValidEmail.

## Left out

- HTTP plumbing: request binding errors, JSON and template rendering, sessions and the GET pages that only render a form.
- Database setup: initialisation, migrations, the admin seed user and backups. The reports, with their SQL `DATE()` and floating-point rates, are also out, as is the Excel export.
- Failed database reads: read and count-query errors are not modelled; each query returns its result. The writes that take a `fault` input are UpdateUserPassword, UpdateUserRole, StoreResetCode, MarkResetCodeUsed, AddSecurityQuestion, DeleteTrip, UpdateBookingStatus and DeleteBooking.
- Db.Database.AddTrip, UpdateTrip, AddBooking, AddVehicle, AddUser, UpdateVehicle, UpdateUsername, DeleteVehicle: only the checks the Go functions make themselves and the constraint failures are modelled. Other driver errors (a failed prepare, exec or `LastInsertId`) are not, so the handlers' generic 500 replies that pass the driver text through (handlers/dashboard/admin.go:598-601, 776, 841 and 1008; handlers/dashboard/dashboard.go:217, 409 and 504) are not modelled either. A driver error of DeleteVehicle other than the foreign key (db/db.go:842-845) would also give the "Failed to delete vehicle" reply (handlers/dashboard/admin.go:625-628), and the wrapped driver error of UpdateUsername (db/db.go:494-497) is not modelled.
- Row scanning: every `rows.Scan` is assumed to succeed. One example is the forgot-password lookup, which scans 3 of the 7 columns it selects.
- bcrypt: modelled as a total function, so its errors (and the "Error processing password" replies) are not modelled.
- `crypto/rand`: the random bytes are a parameter. The error that `generateVerificationCode` ignores is not modelled.
- Concurrency:
  - All locking is sequential.
  - The legacy `validateResetToken` takes the write lock while holding its own read lock, which deadlocks in Go. The model shows only the deletion it intends.
  - The race between the capacity check and the booking insert is not modelled.
  - Tokens.ResetTokenStore.Validate: what another request does between the two locks is an input (`atRecheck`, `recheckNow`), not a second thread.
- Time: instants are whole seconds. Go `time.Time` values compared with SQLite `CURRENT_TIMESTAMP` text are modelled as integer comparison.
- Db.StoredCodeValidates, PasswordReset.RequestedCodeRedeemable: the expiry Go binds (handlers/auth/password_reset.go:78, db/db.go:545) is written as local time with a zone suffix, while `CURRENT_TIMESTAMP` (db/db.go:559) is UTC text, so the two lemmas describe the program only when the server runs in UTC; elsewhere the text comparison shifts the expiry by the zone offset.
- SQL edge cases: `NOT IN` with a NULL vehicle id cannot arise, because `vehicle_id` is NOT NULL in the model.
- Unicode: `unicode.IsUpper/IsLower/IsDigit/IsPunct/IsSymbol`, `ToLower` and `EqualFold` are modelled on ASCII only. `TrimSpace` uses Go's white-space list, and lengths are UTF-8 byte counts.
- Http.PageWindow: `(page-1)*pageSize` uses unbounded integers, so the model does not capture Go's integer overflow.
- Routes, the Electron launcher and browser scripts are outside the core.
