# Event back office: handlers, tables and page state

This project models the core of an event-management back office. The back
end is an Express application over a Sequelize database; the front end is
written in React. The model covers:

- the request handlers for events, customers, employees, roles, venues and
  users;
- the JWT gate in front of them;
- the state the React pages keep: the employee and customer lists with
  their pagination, the venue list, and the stored login token.

The database is one `Database.Db` object. It holds one `map` from primary
key to row per table, plus an auto-increment counter for each table that a
handler inserts into. `Db.Valid()` holds the unique keys the model files
declare: the user e-mail and username, the employee e-mail and phone, and
the venue e-mail. It also keeps every key below its table's counter.

MySQL compares text columns under the table's collation, which is
case-insensitive by default. `Db.collate` stands for it: a key function,
and two texts are equal under the collation exactly when their keys are.
The unique keys, the lookups by e-mail, the text filters of the list
handlers and the department ENUM all compare under it.

Each handler is a method over the `Db`. It returns the HTTP status it
answers, and its `ensures` states the whole new state of the tables. The
decisions a handler makes are specified by functions:
`BookingController.CheckUpdate`, `CustomerController.ReadPageRequest`,
`EmployeeController.NewEmployee`, `RoleController.UpdatedRole` and so on.
Lemmas prove what the handler promises about those functions.

A request body or query string is a `map<string, string>`. An absent key
is `undefined`, and `""` is the only falsy text. The JavaScript
conversions `parseInt`, `Number` and `parseFloat` are modelled on integer
text in `JsText`. Libraries and I/O are parameters of the operations that
use them:

- the `hash` and `compare` of bcryptjs (user.model.js, userController.js) and of bcrypt (loginController.js), one parameter each for both libraries;
- jsonwebtoken's `sign` and `verify`, and jwt-decode;
- the e-mail validator and the date parse;
- the clock;
- whether the database accepts a write;
- the replies the React pages get from the server.

The React components are classes whose fields are their `useState`
variables. Each handler is a method that updates those fields.

## Model

| member | source | states |
|---|---|---|
| Common.Filter | Backend/src/controllers/bookingController.js:153-155 | a filter is set exactly when the query value is present and non-empty, and then holds that value |
| JsText.IntParam | Backend/src/controllers/customerController.js:75-79 | an absent key reads as its default; a present one reads as `parseInt` of its text |
| JsText.ParseIntSkipsSpace | Backend/src/controllers/customerController.js:75-79 | any run of ECMAScript white space and line terminators (no-break space, byte order mark, the Unicode space separators, vertical tab, form feed and the line separators included) in front of the text leaves what `parseInt` reads unchanged |
| JsText.ToUpper | Backend/src/controllers/bookingController.js:185 | same length; each lower-case ASCII letter is raised, the long s becomes `S` and the dotless i becomes `I`, and every other character is kept |
| JsText.UpperIsSortOrder | Backend/src/controllers/bookingController.js:185 | a sort order is upper-cased to `ASC` exactly for the three letters in either case (the long s counting as `s`), and likewise for `DESC` |
| JsText.NatTextRoundTrip | Backend/src/controllers/customerController.js:79-83 | a number written into a query string by a template literal reads back as the same number through both `parseInt` and `Number` |
| JsText.IntTextRoundTrip | Backend/src/controllers/roleController.js:26 | an integer's decimal text, minus sign included, reads back as that integer through `Number` |
| JsText.NumberAgreesWithParseInt | Backend/src/controllers/bookingController.js:229-235 | on non-blank text, whatever `Number` reads `parseInt` reads too |
| JsText.BlankText | Backend/src/controllers/bookingController.js:229-235 | on blank text `parseInt` gives NaN and `Number` gives 0 |
| Tables.SortedKeys | Backend/src/controllers/roleController.js:5 | exactly the table's keys, strictly increasing |
| Tables.Select | Backend/src/controllers/bookingController.js:188-190 | the keys of exactly the rows the condition keeps, strictly increasing |
| Tables.Page | Backend/src/controllers/bookingController.js:191-192 | LIMIT/OFFSET: at most `limit` items, item `i` being item `offset + i` of the list |
| Database.Db.constructor | Backend/src/models/index.js:27-43 | an empty database meets the unique and key invariants |
| BookingController.SelectOrder | Backend/src/controllers/bookingController.js:184-186 | the direction is always ASC or DESC; the column is kept exactly when it is sortable; the upper-cased direction is used when recognised and ASC otherwise; an unsortable column gives ascending `startDate` |
| BookingController.SelectOrderIsStable | Backend/src/controllers/bookingController.js:184-186 | a chosen order fed back in as the sort spec is chosen again |
| BookingController.MatchingEvents | Backend/src/controllers/bookingController.js:152-157 | an event is selected exactly when its id, customer and venue match the filters that are set, and its status and event-type name equal them under the collation |
| BookingController.ListedEventsMatch | Backend/src/controllers/bookingController.js:188-196 | every listed event satisfies each custId and venueId filter the query sets and equals its status and eventType filters under the collation, and no more than `limit` are listed |
| BookingController.EventIdFilterSelectsOneRow | Backend/src/controllers/bookingController.js:153 | with an eventId filter at most one event is listed |
| BookingController.GetEvents | Backend/src/controllers/bookingController.js:138-201 | 400 exactly for a status or event type outside the accepted values, before any query runs; 500 when LIMIT or OFFSET is not a count; otherwise the selected order and the page of matching events, with `total` equal to the number of rows returned |
| BookingController.GetEventsAsWritten | Backend/src/controllers/bookingController.js:162-200 | 400 exactly for a status or event type outside the accepted values; otherwise 500 with nothing listed, because the query includes aliases no association declares |
| BookingController.WithoutEmpty | Backend/src/controllers/bookingController.js:213-217 | a key stays exactly when its value is not `''`, and keeps its value |
| BookingController.StripEmpty | Backend/src/controllers/bookingController.js:213-217 | the deleting loop leaves exactly the body without its `''` values |
| BookingController.RejectedExactly | Backend/src/controllers/bookingController.js:219-231 | the update is refused exactly for an invalid non-empty status, two non-empty dates with the end not after the start, or a budget that parses to at most 0 |
| BookingController.CoerceFields | Backend/src/controllers/bookingController.js:233-237 | the coercion loop converts exactly the truthy values of the listed fields and keeps every key |
| BookingController.Coerced | Backend/src/controllers/bookingController.js:233-237 | after stripping, the numeric fields hold numbers and every other key holds text |
| BookingController.ApplyUpdate | Backend/src/models/event.model.js:18-25 | a written row's status lies in the column's enumeration and its budget, when set, is not negative |
| BookingController.SentValue | Backend/src/controllers/bookingController.js:213-237 | a key reaches the write exactly when the body has it non-empty; numeric fields arrive as `Number` of the text |
| BookingController.TextColumnsFollowBody | Backend/src/controllers/bookingController.js:239 | name, desc and status take the body's value exactly when it is non-empty, and otherwise keep the stored one |
| BookingController.DateColumnsFollowBody | Backend/src/controllers/bookingController.js:239 | startDate and end_date take the parsed body value exactly when it is non-empty, and otherwise keep the stored one |
| BookingController.NumberColumnsFollowBody | Backend/src/controllers/bookingController.js:233-239 | budget, eventTypeId, venueId and custId take `Number` of a non-empty body value, and otherwise keep the stored one |
| BookingController.UpdateIsIdempotent | Backend/src/controllers/bookingController.js:239 | sending the same update twice gives the row that one update gives |
| BookingController.CancelledPassesCheckButNotColumn | Backend/src/controllers/bookingController.js:133 | `'cancelled'` passes the handler's status check, but the write fails because the column's enumeration lacks it |
| BookingController.BudgetCheck | Backend/src/controllers/bookingController.js:229-231 | the budget check refuses exactly a budget that `parseFloat` reads as at most 0 |
| BookingController.StoredBudget | Backend/src/controllers/bookingController.js:233-239 | a sent budget is stored as what `Number` reads from it |
| BookingController.BlankBudgetStoresZero | Backend/src/controllers/bookingController.js:229-235 | a blank budget passes the check and is stored as 0 |
| BookingController.StoredBudgetPositiveUnlessBlank | Backend/src/controllers/bookingController.js:229-235 | a non-blank budget that passes the check and is stored is positive |
| BookingController.CorrectedCheckStoresPositiveBudget | Backend/src/controllers/bookingController.js:229-235 | with the check reading the budget as `Number` does, every budget stored after the check is positive |
| BookingController.EndDateBeforeStartAccepted | Backend/src/models/event.model.js:7-16 | an `end_date` before the start date passes the handler and is written |
| BookingController.CorrectedWriteKeepsEndAfterStart | Backend/src/models/event.model.js:7-16 | with the validator comparing against `startDate`, a written end date follows the start date |
| BookingController.UpdateEvent | Backend/src/controllers/bookingController.js:203-257 | 404 exactly for a missing id; 400 exactly when the stripped body is refused; never 200: when the write succeeds (a changed event type, venue or customer key names a stored row) only that row changes, to the updated row, and the failing re-read answers 500 anyway; otherwise nothing changes; every event keeps naming stored rows |
| BookingController.UpdateEventCorrected | Backend/src/controllers/bookingController.js:203-257 | the handler with the re-read resolving: 404 and 400 as above, 200 exactly when the row builds, each changed event type, venue or customer key names a stored row and the database accepts the write, with only that row changed to the updated row; otherwise 500 and nothing changes; every event keeps naming stored event types, venues and customers |
| BookingController.WriteKeepsRefs | Backend/src/models/event.model.js:26-49 | a write whose changed keys name stored rows keeps every event naming a stored event type, venue and customer |
| BookingController.DeleteEvent | Backend/src/controllers/bookingController.js:284-299 | 404 exactly for a missing id, otherwise 200; exactly that row is removed |
| CustomerController.CeilDiv | Backend/src/controllers/customerController.js:89 | the least number of pages of `limit` rows that holds `count` rows |
| CustomerController.MatchingCustomers | Backend/src/controllers/customerController.js:77 | every customer without a custId filter, otherwise those whose key the filter reads as |
| CustomerController.DefaultPageRequest | Backend/src/controllers/customerController.js:75-79 | without page and limit the request is page 1, ten rows, offset 0 |
| CustomerController.PageRequestOfValues | Backend/src/controllers/customerController.js:79-84 | from page 1 on the offset is `(page - 1) * limit`; below page 1 a positive limit makes the offset negative and the query fails |
| CustomerController.PageRequestOfPage | Backend/src/controllers/customerController.js:79-84 | a page and limit sent as numbers are read back with the offset that skips the pages before |
| CustomerController.GetCustomers | Backend/src/controllers/customerController.js:73-96 | 500 exactly when the request cannot be read; otherwise the count of matching customers, the page count over the limit, `currentPage` echoing page, and the requested page of matching rows |
| CustomerController.CustIdFilterSelectsThatCustomer | Backend/src/controllers/customerController.js:77 | a custId filter keeps at most one customer, the one whose key it reads as, when that customer exists |
| CustomerController.ItemLiesOnItsPage | Backend/src/controllers/customerController.js:79-89 | every matching customer appears on exactly the page `i / limit + 1`, which lies within `totalPages` |
| CustomerController.BuildUpdates | Backend/src/controllers/customerController.js:149-155 | the guarded assignments build the updates the body calls for |
| CustomerController.PatchFollowsBody | Backend/src/controllers/customerController.js:149-157 | a text field changes exactly when it is supplied and non-empty; userId changes exactly when it parses; nothing else changes |
| CustomerController.PatchIsIdempotent | Backend/src/controllers/customerController.js:157 | applying the same body twice is applying it once |
| CustomerController.EmptyBodyChangesNothing | Backend/src/controllers/customerController.js:149-157 | a body with no usable field leaves the customer as it was |
| CustomerController.UpdateCustomer | Backend/src/controllers/customerController.js:138-166 | 404 exactly for a missing id and nothing changes; 200 exactly when a changed `userId` names a stored user and the database accepts the row, and then only that row changes, to the patched row; otherwise 500 and nothing changes; every customer keeps naming a stored user |
| CustomerController.PatchKeepsUserRefs | Backend/src/models/customer.model.js:22-28 | a write whose changed `userId` names a stored user keeps every customer naming a stored user |
| CustomerController.DeleteCustomer | Backend/src/controllers/customerController.js:193-218 | 404 for a missing id; 400 exactly while an event names the customer, leaving it stored; otherwise 200 and exactly that customer is removed; events never lose their customer |
| EmployeeController.MatchingEmployees | Backend/src/controllers/employeeController.js:77-84 | every employee without a role filter, otherwise those whose role name equals it under the collation, in key order |
| EmployeeController.GetEmployees | Backend/src/controllers/employeeController.js:73-103 | 500 exactly when limit or offset is not a count; otherwise limit and offset are echoed, `total` counts all matching rows, and the page of them is returned |
| EmployeeController.GetEmployeesAsWritten | Backend/src/controllers/employeeController.js:77-103 | 500 with nothing listed for every request, because the query includes `Role` under an alias no association declares |
| EmployeeController.ListedEmployeesHaveRole | Backend/src/controllers/employeeController.js:75-91 | limit defaults to 10 and offset to 0, so the first ten matches are listed, each holding a role whose name equals the one asked for under the collation |
| EmployeeController.NewEmployee | Backend/src/controllers/employeeController.js:186-195 | the row holds the supplied fields; it exists exactly when roleId and salary are numbers |
| EmployeeController.InsertKeepsContactsUnique | Backend/src/models/employee.model.js:27-38 | inserting a row whose e-mail and phone are free under the collation keeps both unique |
| EmployeeController.CreateEmployee | Backend/src/controllers/employeeController.js:163-205 | 400, inserting nothing, exactly when a required field is missing or empty or the e-mail is taken; 201 exactly when the row passes the column checks, and then exactly one row holding the supplied fields is added at the next key |
| EmployeeController.BuildUpdates | Backend/src/controllers/employeeController.js:277-286 | the guarded assignments build the updates the body calls for |
| EmployeeController.PatchFollowsBody | Backend/src/controllers/employeeController.js:277-288 | a text field changes exactly when it is supplied and non-empty; roleId and salary change exactly when they parse |
| EmployeeController.AcceptedUpdateKeepsContactsUnique | Backend/src/models/employee.model.js:27-38 | an update the unique keys accept keeps e-mails and phones unique |
| EmployeeController.UpdateEmployee | Backend/src/controllers/employeeController.js:258-298 | 404 exactly for a missing id; 200 exactly when the columns accept the updates, and then only that row changes, to the patched row; otherwise nothing changes |
| EmployeeController.DeleteEmployee | Backend/src/controllers/employeeController.js:324-339 | 404 exactly for a missing id, otherwise 200; exactly that row is removed |
| RoleController.SalaryColumn | Backend/src/models/role.model.js:17-22 | a salary bound is kept when absent, becomes `Number` of the text when present, and fails the statement when that is NaN |
| RoleController.NewRole | Backend/src/controllers/roleController.js:24-32 | the insert succeeds exactly when role_name and dept_name are given, the department equals an enum value under the collation and the salary bounds are numbers; the row holds the given name, that enum value as declared, and the salaries the bodies give |
| Records.EnumValue | Backend/src/models/role.model.js:13-16 | an ENUM column stores a member exactly when one equals the text under the collation, and what it stores is such a member |
| Records.EnumValueOfMember | Backend/src/models/role.model.js:13-16 | with members distinct under the collation, a member is stored as itself |
| Records.EnumValueFollowsCollation | Backend/src/models/role.model.js:13-16 | texts equal under the collation store the same member |
| RoleController.CaseVariantStoresMember | Backend/src/controllers/roleController.js:24-32 | under a collation equating `it` with `IT`, creating a role with department `it` stores `IT` |
| RoleController.CreateFromListedRole | Backend/src/controllers/roleController.js:24-32 | a stored role posted back as it is listed creates an equal row |
| RoleController.UpdateWithListedRoleKeepsIt | Backend/src/controllers/roleController.js:34-45 | putting a stored role back as it is listed changes nothing |
| RoleController.UpdateFollowsBody | Backend/src/controllers/roleController.js:39 | each column follows the body when the body names it (the department up to the collation) and is kept otherwise; the department stays an enum value |
| RoleController.UpdateRoleIsIdempotent | Backend/src/controllers/roleController.js:39 | the same update twice leaves the row as one update did |
| RoleController.GetAllRoles | Backend/src/controllers/roleController.js:3-11 | every role row, each once, in key order |
| RoleController.GetRoleById | Backend/src/controllers/roleController.js:13-22 | 404 exactly when the id is absent, otherwise 200 with that row |
| RoleController.CreateRole | Backend/src/controllers/roleController.js:24-32 | 201 exactly when the insert succeeds, its department matched under the collation, adding exactly that row at a fresh key; otherwise 400 and nothing changes |
| RoleController.RoleReply | Backend/src/controllers/roleController.js:39-40 | the reply holds each column the body names as sent and every other column as read, since the instance is not read back after the UPDATE |
| RoleController.ReplyAgreesWithStored | Backend/src/controllers/roleController.js:39-40 | the reply agrees with the stored row on the name and the salaries, and on the department only up to the collation |
| RoleController.CaseVariantIsAnsweredAsSent | Backend/src/controllers/roleController.js:39-40 | updating a role with department `it` stores `IT` and answers `it` |
| RoleController.UpdateRole | Backend/src/controllers/roleController.js:34-45 | 404 for a missing id; 400 exactly when the statement fails (a department matching no enum value under the collation, a salary that is not a number); otherwise only that row changes, with the body merged in, and the reply is the instance as set, not the stored row |
| RoleController.DeleteRole | Backend/src/controllers/roleController.js:47-58 | 404 exactly for a missing id; 500 with nothing removed exactly when an employee holds the role, as the foreign key `employees.roleId` refuses the delete; otherwise 200 with exactly that row removed; every employee's role stays stored |
| VenueController.Pick | Backend/src/controllers/venueController.js:103-104 | the destructured object holds exactly the listed keys the body carries, with their values |
| VenueController.BuildVenue | Backend/src/models/venue.model.js:3-8 | a row is built exactly when name, location and phone are given, max_occupancy is a number of at least 1, and a given e-mail passes the check; it then holds those values |
| VenueController.NewVenue | Backend/src/controllers/venueController.js:103-104 | the object createVenue hands to the table never builds a row |
| VenueController.NewVenueCorrected | Backend/src/controllers/venueController.js:103-104 | built from the columns the venue form posts, a row exists exactly when the values pass the column checks, and it holds them |
| VenueController.InsertKeepsVenueEmailsUnique | Backend/src/models/venue.model.js:7 | inserting a row whose e-mail is missing or free under the collation keeps venue e-mails unique |
| VenueController.InsertVenue | Backend/src/controllers/venueController.js:104-107 | 201 with exactly one row added at the next key exactly when the row builds and its e-mail is free, otherwise 500 and nothing changes |
| VenueController.UpdateKeepsVenueEmailsUnique | Backend/src/controllers/venueController.js:119 | an update leaves every e-mail as it was, so venue e-mails stay unique |
| VenueController.CreateVenue | Backend/src/controllers/venueController.js:101-109 | always 500, inserting nothing |
| VenueController.UpdateTouchesNameAndLocationOnly | Backend/src/controllers/venueController.js:114-119 | the update changes the name and location the body carries and nothing else |
| VenueController.UpdateVenueIsIdempotent | Backend/src/controllers/venueController.js:119 | updating twice with the same body leaves the row as one update did |
| VenueController.GetAllVenues | Backend/src/controllers/venueController.js:91-99 | every venue row, each once, in key order |
| VenueController.UpdateVenue | Backend/src/controllers/venueController.js:111-124 | 404 exactly for a missing id; otherwise 200 and only that row changes |
| VenueController.DeleteVenue | Backend/src/controllers/venueController.js:126-138 | 404 exactly for a missing id; 500 with nothing removed exactly when an event is held there, as the foreign key `events.venueId` refuses the delete; otherwise 204 with exactly that row removed; every event's venue stays stored |
| UserStore.FindByEmail | Backend/src/controllers/userController.js:48 | finds a user exactly when one has that e-mail under the collation, and it is the only one |
| UserStore.StoredPassword | Backend/src/models/user.model.js:38-43 | a non-empty password is stored as its hash, an empty one as it is |
| UserStore.InsertKeepsUsersUnique | Backend/src/models/user.model.js:12-26 | a user whose username and e-mail are new under the collation keeps both unique |
| UserStore.InsertUser | Backend/src/controllers/userController.js:53-57 | 201 exactly when the NOT NULL, e-mail, enum and unique checks pass, adding exactly that user with the stored password; otherwise 500 and nothing changes |
| UserStore.Payload | Backend/src/controllers/userController.js:111 | the signed payload carries the e-mail and no id |
| UserStore.PayloadCorrected | Backend/src/controllers/userController.js:111 | the payload with the user's key carries that key and the e-mail |
| UserStore.CorrectedPayloadNamesUser | Backend/src/controllers/userController.js:111-115 | the corrected claims name exactly the user who logged in; the payload as written names none |
| UserStore.Login | Backend/src/controllers/userController.js:101-119 | 404 exactly when no stored e-mail equals the one sent under the collation, 401 exactly when the password does not match, 500 without an e-mail, or without a password for a known e-mail; otherwise a token signed for one day over the stored e-mail of the user found, and a view carrying only that e-mail (loginController.js's `login` is the same handler except that it imports `bcrypt` where this file imports `bcryptjs`; one `compare` parameter stands for both) |
| UserController.Register | Backend/src/controllers/userController.js:40-71 | 400 exactly when username, e-mail or password is missing or the e-mail is taken; 201 exactly when the insert succeeds, adding one `customer` and answering without the password; otherwise nothing changes |
| UserController.RegisterThenLogin | Backend/src/controllers/userController.js:40-119 | a user who registered logs in with the same e-mail and password |
| LoginController.AdminRegister | Backend/src/controllers/loginController.js:36-63 | 400 only for a missing username or a taken e-mail; 201 adds exactly one `admin` user, and the answer carries that role |
| AuthMiddleware.Split | Backend/src/middlewares/auth.middleware.js:15 | at least one piece, none containing the separator |
| AuthMiddleware.JoinSplit | Backend/src/middlewares/auth.middleware.js:15 | joining the pieces again gives back the header |
| AuthMiddleware.SplitAfterFirst | Backend/src/middlewares/auth.middleware.js:15 | text before the first separator is the first piece |
| AuthMiddleware.TokenOf | Backend/src/middlewares/auth.middleware.js:15 | the token, when there is one, holds no space |
| AuthMiddleware.Decide | Backend/src/middlewares/auth.middleware.js:8-24 | a missing header is 401; every refusal is 401 or 403; passing on means the second piece verified to exactly those claims |
| AuthMiddleware.BearerTokenIsVerified | Backend/src/middlewares/auth.middleware.js:14-24 | `Bearer <token>` hands the token to verify unchanged: 403 when it fails, its claims otherwise |
| AuthMiddleware.SchemeIsIgnored | Backend/src/middlewares/auth.middleware.js:15-18 | any word in front of the token decides as `Bearer` does |
| AuthMiddleware.HeaderWithoutSpaceIsRejected | Backend/src/middlewares/auth.middleware.js:15-18 | a header with no second piece is 401 |
| AuthMiddleware.AuthenticateToken | Backend/src/middlewares/auth.middleware.js:5-35 | exactly one outcome per request: the status decided is sent and next is not called, or `req.user` is set to the claims and next is called once |
| VenuePage.Without | Frontend/src/pages/Venue.jsx:32 | exactly the entries with another venueId remain |
| VenuePage.WithoutKeepsOrder | Frontend/src/pages/Venue.jsx:32 | the filter goes piece by piece, so the kept entries stay in order |
| VenuePage.WithoutAbsentIsIdentity | Frontend/src/pages/Venue.jsx:32 | a list with no entry for the id is left as it is |
| VenuePage.WithoutIsIdempotent | Frontend/src/pages/Venue.jsx:32 | deleting the same id twice removes nothing more |
| VenuePage.Replaced | Frontend/src/pages/Venue.jsx:64-68 | same length; each entry with the returned venueId becomes the returned venue and the others stay |
| VenuePage.ReplacedKeepsOthers | Frontend/src/pages/Venue.jsx:64-68 | keys stay in place, other venues survive, and replacing twice is replacing once |
| VenuePage.FormData | Frontend/src/pages/Venue.jsx:47-53 | the five form fields are sent, and the image exactly when one is selected |
| VenuePage.VenuePage.constructor | Frontend/src/pages/Venue.jsx:5-11 | the page starts empty and loading with no form open |
| VenuePage.VenuePage.HandleDelete | Frontend/src/pages/Venue.jsx:29-36 | only after the delete succeeds are exactly the entries with that id removed; nothing else changes |
| VenuePage.VenuePage.HandleSubmit | Frontend/src/pages/Venue.jsx:42-84 | the update branch replaces the matching entry and closes its form; the create branch appends the returned venue; a failure keeps the list and sets the error; the image is cleared and loading ends either way |
| EmployeeListView.NextEnabledIffLaterPage | Frontend/src/components/EmployeeList.jsx:175 | on an aligned offset Next is enabled exactly when `currentPage < totalPages` |
| EmployeeListView.PreviousEnabledIffPastFirstPage | Frontend/src/components/EmployeeList.jsx:161 | on an aligned offset Previous is enabled exactly past page 1 |
| EmployeeListView.ServerReadsQuery | Frontend/src/components/EmployeeList.jsx:17 | getEmployees reads the request back as the offset and limit sent, with no role filter |
| EmployeeListView.EmployeeListView.constructor | Frontend/src/components/EmployeeList.jsx:6-11 | the list starts empty at offset 0 |
| EmployeeListView.EmployeeListView.Fetch | Frontend/src/components/EmployeeList.jsx:14-28 | rows, total and offset change only on a reply, and then to the reply and the offset asked for; a failure only sets the error |
| EmployeeListView.EmployeeListView.HandleNext | Frontend/src/components/EmployeeList.jsx:34-39 | fetches `offset + 10` exactly when that is below the total, otherwise changes nothing; a reply replaces the rows, the total and the offset and clears the error, a failure keeps them and sets the error, and loading ends; the offset stays a non-negative multiple of 10 |
| EmployeeListView.EmployeeListView.HandlePrevious | Frontend/src/components/EmployeeList.jsx:41-46 | fetches `offset - 10` exactly when that is not negative, otherwise changes nothing; a reply replaces the rows, the total and the offset and clears the error, a failure keeps them and sets the error, and loading ends; the offset stays a non-negative multiple of 10 |
| CustomerListView.NextButtonAgreesWithGuard | Frontend/src/components/CustomerList.jsx:173 | a disabled Next would not fetch; within the page count an enabled Next fetches; with no customers Next on page 1 is enabled but does nothing |
| CustomerListView.PreviousButtonAgreesWithGuard | Frontend/src/components/CustomerList.jsx:159 | Previous is enabled exactly when it fetches |
| CustomerListView.PageOnlyRequest | Frontend/src/components/CustomerList.jsx:18 | a query naming only a page is read with the default limit of ten |
| CustomerListView.ServerReadsQuery | Frontend/src/components/CustomerList.jsx:18 | getCustomers reads a page from 1 on back as that page of ten with no filter; page 0 fails |
| CustomerListView.CustomerListView.constructor | Frontend/src/components/CustomerList.jsx:7-13 | page 1 of 1, empty and loading |
| CustomerListView.CustomerListView.Fetch | Frontend/src/components/CustomerList.jsx:15-29 | rows, page count and current page are taken from a reply only; a failure only sets the error |
| CustomerListView.CustomerListView.HandleNext | Frontend/src/components/CustomerList.jsx:35-39 | fetches `currentPage + 1` exactly when `currentPage < totalPages`, otherwise changes nothing; a reply replaces the rows, the page count and the page and clears the error, a failure keeps them and sets the error, loading ends, and the selection stays |
| CustomerListView.CustomerListView.HandlePrevious | Frontend/src/components/CustomerList.jsx:41-45 | fetches `currentPage - 1` exactly when `currentPage > 1`, otherwise changes nothing; a reply replaces the rows, the page count and the page and clears the error, a failure keeps them and sets the error, loading ends, and the selection stays |
| CustomerListView.CustomerListView.HandleUpdate | Frontend/src/components/CustomerList.jsx:47-57 | a successful update of the selected customer clears the selection and refetches the same page, whose reply replaces the rows, the page count and the page and clears the error, while a failed fetch keeps them and sets the error; otherwise nothing changes |
| CustomerListView.CustomerListView.HandleDelete | Frontend/src/components/CustomerList.jsx:59-70 | nothing happens unless confirmed and deleted; then the same page is refetched with the selection kept, and its reply replaces the rows, the page count and the page and clears the error, while a failed fetch keeps them and sets the error |
| AuthStorage.Verdict | Frontend/src/utils/auth.js:18-39 | a session is answered exactly for a stored, decodable token whose expiry lies ahead; the token is removed exactly when one is stored and no session is answered |
| AuthStorage.SessionHoldsEarlier | Frontend/src/utils/auth.js:26 | a session found at one time is also found at any earlier time |
| AuthStorage.ExpiredTokenIsCleared | Frontend/src/utils/auth.js:26-33 | a token whose expiry has passed is removed and null answered |
| AuthStorage.TokenStore.GetToken | Frontend/src/utils/auth.js:3-5 | answers the stored token |
| AuthStorage.TokenStore.SetToken | Frontend/src/utils/auth.js:8-11 | stores the token |
| AuthStorage.TokenStore.Logout | Frontend/src/utils/auth.js:13-16 | leaves no token stored |
| AuthStorage.TokenStore.IsAuthenticated | Frontend/src/utils/auth.js:18-39 | answers the verdict's session, removes the token exactly when the verdict says so, and otherwise leaves the storage alone |
| AuthStorage.SetThenGetThenLogout | Frontend/src/utils/auth.js:3-16 | a token set is read back; after logout nothing is stored and isAuthenticated answers null |

## Left out

- ORDER BY is not executed. Rows come back in key order; `GetEvents` computes and returns the order it would ask for.
- The schema is taken to be the one the model files declare, as `sequelize.sync({ alter: true })` makes it in development (models/index.js:100-103). Under it, `events.venueId` and `employees.roleId` are NOT NULL and the `belongsTo` declared first gives them ON DELETE NO ACTION, which DeleteVenue and DeleteRole model.
- The foreign keys inside the model are checked where a modelled handler writes them: event type, venue and customer in UpdateEventCorrected, the user in UpdateCustomer, the role in CreateEmployee and UpdateEmployee, and the deletes of venues, roles and customers. Foreign keys from tables outside the model (tickets, sold tickets, payments, the event-catering and employee-event junctions) are not enforced, nor is ON DELETE CASCADE on users: no modelled handler deletes a user.
- JsText.ToUpper: the upper case of non-ASCII letters other than the long s and the dotless i is not modelled. No other character's upper case is a piece of `ASC` or `DESC` (expansions such as ß to `SS` are longer than one letter of them), so the sort orders getEvents accepts are the same.
- Collations are a key function: the padding and accent rules of a particular MySQL collation are not spelled out.
- String column lengths (`STRING(100)` and so on) are not checked.
- MySQL's coercion of text into INTEGER and DECIMAL columns is approximated by `Number`.
- Fractional amounts: `parseFloat` and DECIMAL values are integers here, and `parseFloat` is modelled by the integer `parseInt`.
- Hexadecimal, exponent and `Infinity` forms of `Number` and `parseInt` text are not modelled.
- Path ids (`req.params.id`) are taken as integers; a non-numeric id is not modelled.
- Concurrency: each handler runs atomically.
- `JWT_SECRET` and the secret passed to `sign` and `verify` are folded into those parameters.
- RoleController.CreateRole: a primary key `roleId` supplied in the body is ignored; the row always takes the next key.
- RoleController.CreateRole: the reply is given as the new key only; the instance Sequelize sends holds the body's values as sent, like `RoleReply`, so a case-variant department is answered as sent there too.
- RoleController.RoleReply: a NULL salary is left out of the reply rather than sent as `null`, and numbers are given as their text.
- Database failures other than the ones each handler states (the column and foreign key checks, and `writeOk` in UpdateCustomer and UpdateEventCorrected for any other refusal) are not modelled.
- BookingController.ApplyUpdate: the `status` ENUM compares exactly. The value reaching it has passed the handler's exact check against its list, and no case-insensitive collation equates the one listed value the column lacks, `cancelled`, with a member.
- AuthMiddleware.AuthenticateToken: the 500 answer of the catch block is not modelled, because nothing in the modelled path throws (a header is always text).
- bcrypt salts: `hash` is a function of the password alone.
- VenuePage.VenuePage.HandleSubmit: the page reads `res.data.venue`, while updateVenue and createVenue answer the row itself. The reply is a parameter standing for the venue the page obtains, and the shape mismatch is not modelled.
- The front end requests paths under `/api/...`, which server.js does not mount, and it mounts only the auth, venue, user and event routers: the customer, employee and role routers are not mounted. Every reply the pages get is therefore a parameter (`None` for a failed request).
- Console logging and `alert` calls are not modelled.
- React rendering, the loading spinner, the modals, and the initial fetch each `useEffect` makes on mount are not modelled.
- AuthStorage.Verdict: an `exp` claim that is not a number is modelled as missing (`None`), so it is removed like a missing expiry.
- The `beforeUpdate` password hook is not modelled, because no modelled handler updates a user.

## Findings

| source | as written | input that shows it | evidently intended | confidence | as-written member | corrected member |
|---|---|---|---|---|---|---|
| Backend/src/models/event.model.js:7-16 | updateEvent compares dates under the key `endDate`, but the column is `end_date`, and its validator compares with `this.start_date`, which is not a column, so it never refuses | a body with `startDate` 2024-05-10 and `end_date` 2024-05-01 | a stored end date follows the start date | not executed | BookingController.EndDateBeforeStartAccepted | BookingController.CorrectedWriteKeepsEndAfterStart |
| Backend/src/controllers/bookingController.js:229-235 | the budget check reads the text with `parseFloat`, the stored value with `Number` | budget `" "`: `parseFloat` gives NaN and passes the check, then `Number` gives 0 and 0 is stored | every budget that passes the check is stored as a positive number | not executed | BookingController.BlankBudgetStoresZero | BookingController.CorrectedCheckStoresPositiveBudget |
| Backend/src/controllers/venueController.js:103-104 | createVenue passes `name, location, capacity, availability, image`; the table requires `max_occupancy` and `phone` | the form Venue.jsx posts: name, location, max_occupancy 50, email, phone | the posted columns are inserted | not executed | VenueController.NewVenue | VenueController.NewVenueCorrected |
| Backend/src/controllers/bookingController.js:162-178 | getEvents includes `EventType` as `eventType`, `Venue` as `venue` and `Catering` as `catering`; no association declares those aliases, so every query throws and the catch answers 500 | any valid request, e.g. `GET /events` with no query | the page of matching events | not executed | BookingController.GetEventsAsWritten | BookingController.GetEvents |
| Backend/src/controllers/employeeController.js:77-82 | getEmployees includes `Role` as `role`; no association declares that alias, so every query throws and the catch answers 500 | any request, e.g. no query at all | the page of employees with their roles | not executed | EmployeeController.GetEmployeesAsWritten | EmployeeController.GetEmployees |
| Backend/src/controllers/bookingController.js:239-247 | updateEvent writes the row, then re-reads it including the aliases `eventType`, `venue` and `catering`, which no association declares; the re-read throws and the catch answers 500 | any valid update of a stored event, e.g. body `{ "name": "Gala" }` | 200 with the updated event | not executed | BookingController.UpdateEvent | BookingController.UpdateEventCorrected |
| Backend/src/controllers/userController.js:111 | the token payload reads `user.id`, but the key column is `userId`, so the id is undefined and dropped | any successful login | the token names the user by key | not executed | UserStore.Payload | UserStore.CorrectedPayloadNamesUser |
