# Contacts service — a Dafny model of its decision and state-update rules

The service is a small REST API: users sign up, confirm their email, log in and
refresh their tokens; contacts are created, listed, filtered, looked up, updated
and deleted; a role gate guards endpoints by an allow-list of roles. Its logic is
a set of rules about a database. This project models those rules over in-memory
state and proves what each operation promises.

- `models.dfy` (`Models`): the `Role` enumeration (`admin`, `moderator`, `user`), the
  `users` and `contacts` rows, the request bodies, the column defaults
  (`Role.User` for a new user, owner id 1 for a new contact).
- `iso_dates.dfy` (`IsoDates`): dates, their `%Y-%m-%d` text, string order by
  code point, and the proof that on valid dates string order is chronological order.
- `contact_repository.dfy` (`ContactRepository`): the contacts table as a class
  (`ContactTable`: rows keyed by primary key, the id sequence, the invariant that
  ids and emails are unique), the query functions and the three mutating
  repository functions.
- `contact_routes.dfy` (`ContactRoutes`): the `/contacts` handlers and their
  status codes.
- `auth.dfy` (`Auth`): the users table (`UserDirectory`), the background email
  queue (`Mailer`), the token service (`TokenService`), and the five `/auth`
  handlers as guarded transitions over them.
- `roles.dfy` (`Roles`): the `RoleAccess` gate.
- `http.dfy`, `wrappers.dfy`: replies with status codes (including a handler result that its route's response model rejects, which the client receives as a server error); `Option`.

The model follows the code of this revision where it departs from the service's intended design:
contact operations are not scoped to the requesting user in this revision; the
delete route carries no role gate; `GET /contacts/` answers the whole table and
never 404; no route exposes the birthday window. The `users` table declares no
`confirmed` column (src/database/models.py:13-21), yet the handlers read and set
it; the model's `User` carries it, created as `false`.

## Model

| member | source | states |
|---|---|---|
| `IsoDates.Digits` | src/repository/contacts.py:71-72 | a zero-padded number field has exactly the requested width |
| `IsoDates.Format` | src/repository/contacts.py:71-72 | `%Y-%m-%d` of a valid date is ten characters with dashes at positions 4 and 7 |
| `IsoDates.StrLessSplit` | src/repository/contacts.py:73 | string comparison over equal-length prefixes decides on the prefixes first and on the rests only when the prefixes are equal |
| `IsoDates.DigitsOrder` | src/repository/contacts.py:71-73 | zero-padded numbers of one width compare as strings exactly as they compare as numbers, and are equal exactly when the numbers are |
| `IsoDates.FormatOrder` | src/repository/contacts.py:70-73 | on valid dates, `<` on the `%Y-%m-%d` texts is chronological order and equal texts mean equal dates |
| `ContactRepository.GetContacts` | src/repository/contacts.py:9-11 | the answer holds every row of the table, whatever its owner, and nothing else |
| `ContactRepository.GetContactById` | src/repository/contacts.py:14-16 | the answer is the row with that id or nothing: at most one row, because the id is the primary key |
| `ContactRepository.GetContactByEmail` | src/repository/contacts.py:19-21 | every row answered holds the email, and the answer is empty exactly when no row holds it |
| `ContactRepository.EmailLookupAtMostOne` | src/repository/contacts.py:19-21 | the unique email column makes the email lookup answer at most one row |
| `ContactRepository.GetContactByFilter` | src/repository/contacts.py:24-35 | narrowing once per truthy argument answers exactly the rows matching every truthy argument; falsy arguments add no condition |
| `ContactRepository.FilterWithoutArgumentsIsEverything` | src/repository/contacts.py:24-35 | with no truthy argument the filter answers the whole table |
| `ContactRepository.FilterOnEmailIsEmailLookup` | src/repository/contacts.py:31-32 | filtering on a non-empty email alone answers what the email lookup answers |
| `ContactRepository.GetContactByLastname` | src/repository/contacts.py:38-40 | the answer depends on the lastname only: the rows with that lastname, or nothing when the lastname is missing |
| `ContactRepository.LastnameLookupVersusFilter` | src/repository/contacts.py:38-40 | on a non-empty lastname the lookup equals the filter; on the empty string the filter answers the whole table while the lookup answers only rows whose lastname is empty |
| `ContactRepository.ContactsPerDays` | src/repository/contacts.py:68-74 | every row answered is in the table and has a birthday: a null birthday never matches |
| `ContactRepository.BirthdayWindowIsDateWindow` | src/repository/contacts.py:68-74 | a birthday stored as `%Y-%m-%d` is answered exactly when its date is after today and not after today plus the given days |
| `ContactRepository.WindowBounds` | src/repository/contacts.py:73 | a birthday equal to today is never answered; one equal to the window's last day is |
| `ContactRepository.EarlierBirthYearNeverInWindow` | src/repository/contacts.py:73 | the comparison includes the year, so a birthday stored with a year before today's is never answered |
| `ContactRepository.CreateContact` | src/repository/contacts.py:43-48 | the commit is refused with no change exactly when the email is taken or no user has the default owner id 1 (the foreign key); otherwise exactly one row carrying the body's fields, a birthday, owner 1 and a fresh id is added and returned, other rows untouched, and the id sequence advances by one; the unique-id and unique-email invariant is kept, and so is "every row has a birthday" |
| `ContactRepository.UpdateContact` | src/repository/contacts.py:51-57 | on an existing id only that row's phone and email change, to the body's; on an absent id nothing changes and nothing is returned; an email held by another row is refused with no change; a table whose rows all have birthdays keeps that property |
| `ContactRepository.RemoveContact` | src/repository/contacts.py:60-65 | the row with that id is removed and returned, or nothing is returned when there is none; no other row changes; a table whose rows all have birthdays keeps that property |
| `ContactRoutes.GetContacts` | src/routes/contacts.py:13-16 | the handler returns exactly the table's rows; the answer is 200 exactly when every row has a birthday, and otherwise the response model rejects the list (a server error) |
| `ContactRoutes.GetContact` | src/routes/contacts.py:19-24 | ids below 1 are refused before the repository is called; otherwise the handler returns the (possibly empty) list of rows with that id instead of raising 404, and the route's single-contact response model rejects that list, so the client gets a server error |
| `ContactRoutes.GetContactOr404` | src/routes/contacts.py:19-24 | ids below 1 are refused; 404 "Not Found" exactly when no row has the id; otherwise that row with 200, or a server error when its birthday is null and the response model rejects it |
| `ContactRoutes.UnknownIdIsNeverNotFound` | src/routes/contacts.py:21-22 | on an unknown id the handler as written returns an empty list where the 404 check intends "Not Found" |
| `ContactRoutes.CreateContact` | src/routes/contacts.py:27-33 | a taken email raises 409 "Contact with email:… already exist!" with the table unchanged; otherwise, when no user has id 1, the foreign key refuses the commit and the request rolls back (400) with no change; otherwise exactly one row is inserted under the next id and returned with 201, and the id sequence advances by one |
| `ContactRoutes.UpdateContact` | src/routes/contacts.py:36-41 | ids below 1 are refused; an unknown id raises 404 "Not Found" with no change; a taken email rolls back with no change; otherwise the row gets the new email and phone, every other field and row unchanged, and is answered with 200, or with a server error when its birthday is null and the response model rejects it (the update stays committed) |
| `ContactRoutes.RemoveContact` | src/routes/contacts.py:44-49 | ids below 1 are refused; an unknown id raises 404; a known id is removed and answered with 204 |
| `ContactRoutes.RemoveTwice` | src/routes/contacts.py:44-49 | deleting the same id twice: the second request answers 404 |
| `Auth.UserDirectory.GetUserByEmail` | src/routes/auth.py:41 | the user found is the one holding the email, and there is one exactly when the email is in the table |
| `Auth.UserDirectory.CreateUser` | src/routes/auth.py:45 | the new user is inserted unconfirmed, with role `user`, no refresh token and no avatar; no other user changes |
| `Auth.UserDirectory.UpdateToken` | src/routes/auth.py:73 | only the user's refresh token changes |
| `Auth.UserDirectory.ConfirmedEmail` | src/routes/auth.py:123 | only the user's `confirmed` flag changes, to true |
| `Auth.TokenService.CreateToken` | src/routes/auth.py:71-72 | each issued token carries the subject and scope asked for and a serial no earlier token has |
| `Auth.TokenService.DecodeRefreshToken` | src/routes/auth.py:91 | a token yields its subject exactly when it is a refresh token |
| `Auth.Signup` | src/routes/auth.py:41-49 | an email already present raises 409 "Account already exists" and creates no user and no email; otherwise the user is stored under the next id with the hash of the password, the id sequence advances by one, and exactly one confirmation email to that user is queued |
| `Auth.Login` | src/routes/auth.py:64-74 | 401 "Invalid email" for an unknown email, then the not-confirmed 401 whatever the password, then 401 "Invalid password", each with no change; on success the refresh token is stored on the user and returned with an access token and type "bearer"; a confirmed user with the right password always succeeds |
| `Auth.RefreshToken` | src/routes/auth.py:90-99 | a non-refresh token is refused; a token other than the stored one clears the stored token and raises 401 "Invalid refresh token"; a matching one is replaced by a newly issued refresh token that is returned; that it differs from the presented one follows from the serials that stand for the freshness of issued tokens (see "## Left out") |
| `Auth.ConfirmedEmail` | src/routes/auth.py:117-124 | unknown email gives 400 "Verification error" with no change; an already confirmed user gives "Your email is already confirmed" with no change; otherwise `confirmed` becomes true; a known user always ends confirmed |
| `Auth.ConfirmTwice` | src/routes/auth.py:117-124 | confirming twice leaves the state confirming once leaves, and the second reply is "Your email is already confirmed" |
| `Auth.RequestEmail` | src/routes/auth.py:144-150 | the users table is never changed; a confirmed user gets no email; an unconfirmed user gets exactly one; an unknown address gets nothing and the same reply as an unconfirmed one |
| `Auth.SignupConfirmLogin` | src/routes/auth.py:64-70 | after signup a login with the right password is refused as not confirmed; after confirmation the same login succeeds with bearer tokens and the refresh token is stored |
| `Roles.RoleAccess.constructor` | src/services/roles.py:9-21 | the allow-list is the one given at construction; it is a constant, so nothing changes it later |
| `Roles.RoleAccess.Call` | src/services/roles.py:37-41 | the request passes exactly when the user's role is on the allow-list; otherwise 403 "Operation forbidden"; no state is read or changed |
| `Roles.EmptyAllowListRefusesEveryone` | src/services/roles.py:40-41 | an empty allow-list refuses every user with 403 |
| `Roles.CallDependsOnlyOnRole` | src/services/roles.py:40 | two users with the same role get the same answer |

## Findings

| source | as written | input that shows it | evidently intended | confidence | as-written member | corrected member |
|---|---|---|---|---|---|---|
| src/routes/contacts.py:21-22 | `if contact is None` tests the list that `get_contact_by_id` answers, and a list is never `None` | `GET /contacts/5` on a table with no row 5: the handler returns an empty list instead of raising 404 (and the response model then rejects the list: a server error) | 404 "Not Found" for an id no row has | not executed; high | `ContactRoutes.GetContact` (with `ContactRoutes.UnknownIdIsNeverNotFound`) | `ContactRoutes.GetContactOr404` |

## Left out

- Timestamps and the clock: `created_at`/`updated_at` are not modelled, and `contacts_per_days` takes today and `today + timedelta(days)` as dates from its caller; the calendar addition and its overflow past year 9999 are not modelled.
- Dates before year 1000: `%Y` does not pad them to four digits on every platform, so the ordering lemmas are stated for years 1000 to 9999 only, and `ContactRepository.ContactsPerDays` itself requires today and the window's end to be such dates: a window ending before year 1000 is not modelled.
- The database's string collation: the window compares birthdays by code point, as a byte-order collation does.
- NULL columns other than the birthday: `firstname`, `lastname`, `email` and `phone` are nullable columns (src/database/models.py:27-30), but the model's rows always hold strings there. Rows written outside the API with NULL in those columns are not modelled: the lastname lookup's `IS NULL` for a missing lastname would match them, and the list, fetch and update routes' response model would reject them (a server error). NULL birthdays are modelled, in the birthday window and in those three routes.
- Column widths: `username` (50), the user's `email` (150) and `refresh_token` (255) are bounded columns (src/database/models.py:16-19). The model assumes every value fits, so a longer username or email at signup, or a longer token at login, which a length-checking database refuses (a rollback and 400), is not modelled.
- Result order: SQL `.all()` without ORDER BY has no defined order, so queries answer sets.
- The id sequence: a refused insert does not advance it in the model.
- Password hashing, token signing, expiry and the cached user lookup of the token service are not part of this model: hashing and verification are opaque functions of which only "a password verifies against its own hash" is assumed, and tokens are their claims plus a serial that makes each issued token distinct.
- `Auth.RefreshToken`: a refresh token whose subject is no longer a user makes the source fail on `None`; the model requires the subject to exist instead of modelling that failure.
- The confirmation link's token: `Auth.ConfirmedEmail` takes the email it carries; decoding it is not part of this model.
- The 401 detail the token service gives for a refused token, and the 400 detail the session gives after a rollback, are driver and library texts that are not modelled.
- `src/conf/messages.py` is not part of this model: the not-confirmed message is assumed to read "Email not confirmed".
- The users repository is not part of this model: its effects are taken from the call names, and `create_user` is taken to store no avatar.
- Sending email: only "a confirmation email to this address was queued" is modelled, with the request's base URL as a parameter.
- Request validation by the web framework (email syntax) is not modelled; path ids below 1 are modelled as refused (422), and a handler's return value that its route's response model rejects is modelled as a server error carrying that value, without the framework's error text.
- The `print` calls of the role gate, the users routes, image upload, rate limiting, CORS, the process-time middleware and the health check are not part of this model.
- Concurrency: each request is modelled as one atomic step; two requests racing between the email check and the insert are not modelled.
