# Art-gallery shop backend — a Dafny model

This project models the core of an Express/Mongoose shop backend. The models:

- **Users and sessions.** Each user document keeps an ordered list of login sessions, at most five. Login appends a session and drops the oldest beyond five. Registration starts the list with one session. The `protect` middleware admits a request only while the session id in its JSON Web Token is still listed. Logout and remote revocation pull ids out of the list.
- **The user controller.** It covers:
  - the session listing and the profile read;
  - remote revocation;
  - the profile update, with its password check and new-password branch;
  - self-deletion;
  - the admin user list with its ten-minute activity status;
  - admin deletion, with its cascade over the user's orders;
  - promotion to admin.
- **Orders.** The schema's enums and defaults. Placing an order, changing its status, changing its delivery time, a customer's cancellation request, and deletion. Every status change appends a matching entry to the status history.
- **Reviews.** Field constraints; the listing with its mean rating; submission, editing and deletion, with integer ratings from one to five.
- **The admin dashboard.** The month windows, the twelve-slot earnings and leads charts, the device-visit shares, the campaign table with its padding row, and the endpoint that records a page visit.
- **Activity logging** and **the image-upload helper**, which routes on the string's prefix in front of the hosting service.

Where the handlers change state in place, the model does too:

- a user document loaded and saved back is the class `UserModel.User`;
- the users, orders, reviews, activities and visits collections are classes holding a `seq`;
- the dashboard's twelve-slot charts are `array`s filled by a loop.

Validation, mapping and formatting are functions.

Outside services are parameters:

- bcrypt is `Crypto.Hash`/`Crypto.Matches`, a stand-in that keeps what bcrypt reads of a password under the `$2a$` salts `genSalt` makes: its UTF-8 encoding followed by one NUL byte, read round and round until there are 72 bytes. A hash accepts exactly the passwords that bcrypt reads as the same 72 bytes. A long password is thus cut at 72 bytes, and every password `p` is also accepted as `p`, a NUL character and `p` again;
- JWT signing and verification are function parameters (`Signer`, `Verifier`), and the ghost predicate `Agree` relates them: every signed token verifies to its claims, that is, no token has expired yet;
- the image host is an `Uploader` function parameter;
- uuids, object ids, bcrypt salts and the current time are plain arguments.

Numbers are unbounded integers, or exact reals where the source computes with fractional values (order amounts, weeks, percentages, averages).

Two behaviours of the code worth knowing:

- Changing the password does not prune the user's other sessions. `updateMe` only re-saves the password (controllers/userController.js:109-118).
- A failed token verification answers 401 and clears no cookie (controllers/authController.js:174-177).

## Model

| member | source | states |
|---|---|---|
| Common.OrElse | controllers/authController.js:54-55 | `a \|\| b` on an optional string: the value when it is truthy (present and non-empty), the fallback otherwise |
| Common.Kept | routes/reviewRoutes.js:75 | `x \|\| null`: the value is kept exactly when it is truthy |
| Common.CastObjectId | routes/orderRoutes.js:70 | a well-formed id string casts to the id with the same digit values, spelt in lower case |
| Common.CastIgnoresCase | routes/reviewRoutes.js:154 | two well-formed spellings denote the same id exactly when their digits agree in value |
| Common.CastCanonical | routes/orderRoutes.js:210 | an id in the driver's spelling casts to itself |
| Common.FindById | routes/orderRoutes.js:168 | `findById`: none exactly when no item carries the id, otherwise the first item that does |
| Common.FoundUnderAnySpelling | controllers/userController.js:420 | a stored document is found under every spelling of its id, whatever the case of its letters |
| Sessions.PushCapped | controllers/authController.js:110-121 | login appends the new session last, drops only the single oldest entry once the list exceeds five, and keeps the list at no more than five |
| Sessions.PushCappedKeepsDistinct | controllers/authController.js:110-121 | with a fresh id, login keeps session ids distinct and the new session passes the membership test |
| Sessions.SixthLoginEvictsOldest | controllers/authController.js:119-121 | a sixth login evicts the oldest session and only it |
| Sessions.LoginAllKeepsNewest | controllers/authController.js:110-121 | over any run of logins, the list is the newest min(5, total) sessions of the whole history in login order (first-in first-out eviction) |
| Sessions.WithoutSessionMembers | controllers/authController.js:215-218 | `$pull` by session id leaves exactly the entries of other ids |
| Sessions.WithoutSession | controllers/authController.js:215-218 | `$pull` by session id never lengthens the list; what it leaves is stated by `Sessions.WithoutSessionMembers` |
| Sessions.WithoutSessionChanges | controllers/userController.js:221-228 | after the pull no entry of the id is left; the list changes exactly when the id was present |
| Sessions.WithoutSessionAppend | controllers/authController.js:215-218 | the pull distributes over concatenation, so the kept entries stay in order |
| Sessions.WithoutSessionDistinct | controllers/userController.js:221-224 | the pull keeps ids distinct and removes exactly one entry of a present id |
| Sessions.Annotate | controllers/userController.js:195-201 | one view per stored session, with `isCurrent` exactly when its id is the request's session id |
| Sessions.SortDescSorted | controllers/userController.js:203-204 | the comparator sort returns a permutation of the views in descending key order |
| Sessions.ListingAsWritten | controllers/userController.js:195-204 | the listing as written is a permutation of the annotated sessions sorted on the displayed (minute-precision) login time |
| Sessions.ListingAsWrittenNotNewestFirst | controllers/userController.js:204 | two logins within one minute come out oldest first (see Findings) |
| Sessions.Listing | controllers/userController.js:190-207 | the listing as meant: one view per stored session, a permutation of the annotated sessions, newest login first |
| Sessions.ListingMarksCurrent | controllers/userController.js:195-201 | every listed view is a stored session, marked current exactly when its id is the request's; every stored session is listed |
| Sessions.ListingReversesLoginOrder | controllers/userController.js:203-204 | sessions stored in login order are listed in reverse |
| Crypto.Hash | models/User.js:78-79 | the bcrypt hash of a password accepts that password, and exactly the passwords that bcrypt reads as the same 72 key bytes |
| Crypto.Utf8Char | models/User.js:78-79 | the UTF-8 encoding of a character: one to four bytes, a single byte exactly for ASCII, otherwise a lead byte from 0xC0 |
| Crypto.PasswordKey | models/User.js:78-79 | what bcrypt reads of a password: 72 bytes, the first 72 of its encoding when it has that many, otherwise the whole encoding followed by a zero byte |
| Crypto.Cycle | models/User.js:78-79 | the key stream of bcrypt's key schedule: the requested number of bytes, starting with the key bytes |
| Crypto.CyclePeriodic | models/User.js:78-79 | the key stream repeats with the key's length as period |
| Crypto.ReadsOnlyFirst72Bytes | models/User.js:93-96 | two passwords sharing a prefix of at least 72 bytes are each accepted by the other's hash |
| Crypto.SeventyThirdByteIgnored | models/User.js:93-96 | seventy-two `a`s then `Y` are accepted by the hash of seventy-two `a`s then `X` |
| Crypto.NulRepeatAccepted | models/User.js:93-96 | a password followed by a NUL character and by itself again is accepted by the password's hash |
| Crypto.CycleTwice | models/User.js:93-96 | streaming a key written out twice reads the same bytes as streaming it once |
| Crypto.NulRepeatExample | models/User.js:93-96 | `abcdef`, NUL, `abcdef` is accepted by the hash of `abcdef` |
| Crypto.ShortAsciiPasswordExact | models/User.js:93-96 | when neither contains a NUL character, a password of fewer than 72 ASCII characters is accepted by its hash and by no other password |
| UserModel.NormalizeUsername | models/User.js:12-19 | the stored username is lowercased and trimmed: no upper-case letter, no white space at either end |
| UserModel.NormalizeUsernameIdempotent | models/User.js:16-17 | applying the username setters again changes nothing |
| UserModel.TrimLowerCommute | models/User.js:16-17 | trimming and lowercasing commute |
| UserModel.EmailShape | models/User.js:25 | a local part, `@` and labels joined by dots match the email pattern exactly when the last label has 2 to 4 characters |
| UserModel.ValidEmailParts | models/User.js:25 | conversely, every matching email is its local part, `@` and its labels |
| UserModel.ValidEmail | models/User.js:25 | the email pattern: word characters, hyphens and dots, `@`, then at least two dot-separated labels, the last of two to four characters |
| UserModel.Acceptable | models/User.js:10-33 | what `User.create` validates: a first name, a username alphanumeric after the setters, an email matching the pattern after lowercasing, a password of at least six characters |
| UserModel.CreateDocument | models/User.js:10-45 | `User.create` succeeds exactly on acceptable fields: a first name, an alphanumeric username, a matching email, a password of at least six characters. The stored document then satisfies the schema, keeps the setters' username and email, stores a hash accepting the password and exactly the passwords bcrypt reads as the same 72 key bytes, and has the defaults (role `user`, no sessions, creation and last activity now, device and address `N/A`, the default picture) |
| UserModel.User.Load | models/User.js:32 | a loaded document hides its password unless the query selects it |
| UserModel.User.PreSave | models/User.js:74-81 | the pre-save hook hashes a modified password and otherwise leaves the stored hash unchanged |
| UserModel.User.MatchPassword | models/User.js:93-96 | `matchPassword` is true exactly when bcrypt reads the password as the same 72 key bytes as the one hashed into the document |
| UserModel.User.GetSignedToken | models/User.js:103-108 | the token's claims are exactly the user's id and the session id |
| UserModel.User.PushSession | controllers/authController.js:111-116 | `sessions.push` appends one entry |
| UserModel.User.ShiftOldest | controllers/authController.js:119-121 | `sessions.shift` drops the first entry |
| UserModel.User.Track | controllers/authController.js:124-126 | login's tracking assignments set last activity, device and address |
| UserStore.Find | controllers/authController.js:103 | `findOne` returns the first document with that field value, or none when no document has it |
| UserStore.FindUnique | models/User.js:15 | under the unique indexes, the found document is the only one with that value |
| UserStore.Violated | controllers/authController.js:76-78 | the first unique index a document would share with another document; none exactly when it clashes with no other document |
| UserStore.WithTracking | controllers/activityController.js:56-65 | the tracking update changes only last activity, device and address of the matching user, and nothing when no user matches |
| UserStore.Users.Insert | controllers/authController.js:58 | an insert is refused with the first duplicated index, otherwise it appends; the unique indexes keep holding |
| UserStore.Users.Put | controllers/authController.js:127 | a save is refused with the first unique index the document would share with another, and then nothing changes; otherwise exactly that document is overwritten; the unique indexes keep holding |
| UserStore.Users.PullSession | controllers/userController.js:221-226 | `$pull` on the user's sessions, reporting a modification exactly when the id was listed |
| UserStore.Users.SetTracking | controllers/activityController.js:56-65 | the tracking update of the document with that id |
| UserStore.Users.Delete | controllers/userController.js:441 | `deleteOne` removes exactly the document with that id |
| Auth.ClientIp | controllers/authController.js:54 | the forwarding header when truthy, else the socket's address |
| Auth.DeviceOf | controllers/authController.js:55 | the user agent when truthy, else `Unknown Device`; never empty |
| Auth.NewSession | controllers/authController.js:61-67 | the recorded session carries the fresh id, the login time, the device and the address |
| Auth.SendTokenResponse | controllers/authController.js:11-45 | the token carries the user's id and the session id. `authToken` is set http-only and `loggedIn=true` script-readable, with the same expiry. The reply user has no password, and the document's password is dropped |
| Auth.Registered | controllers/authController.js:61-71 | a registered user holds exactly one session, and its tracking fields describe that session |
| Auth.Register | controllers/authController.js:51-87 | 400 on a validation error, 409 naming the first duplicated field, otherwise one new user holding exactly the new session, a 201 reply, and a token that verifies to the new id and session |
| Auth.Enroll | controllers/authController.js:58-79 | after validation, 409 naming the first duplicated unique field with nothing inserted; otherwise the user is inserted holding exactly the new session, with a 201 reply and a token verifying to the user and that session |
| Auth.FirstSession | controllers/authController.js:60-73 | the new document's first session and tracking fields are saved in its place; the reply names the user and its token verifies to the user and that session |
| Auth.LoggedIn | controllers/authController.js:109-127 | after login the sessions are the capped append and the tracking fields describe the new session; keys, password and role are unchanged |
| Auth.LoggedInValid | controllers/authController.js:109-127 | a login with a fresh session id keeps the user document valid |
| Auth.Login | controllers/authController.js:92-135 | 400 without both credentials; 401 with nothing changed for an unknown email or a wrong password; otherwise only that user changes (capped append, tracking fields) and the token verifies to the new session |
| Auth.FindLogin | controllers/authController.js:103 | the lookup goes by the lowercased email: none exactly when no stored email equals it, otherwise a user with that email |
| Auth.NextSession | controllers/authController.js:109-129 | the user's document becomes its logged-in form (capped append, tracking fields) and nothing else changes; the token verifies to the user and the new session |
| Auth.AppendCapped | controllers/authController.js:111-121 | the in-place push and conditional shift produce the capped append |
| Auth.ExtractToken | controllers/authController.js:143-154 | the `authToken` cookie wins; otherwise only a header starting with `Bearer` is read, taking its second blank-separated word; no token is none |
| Auth.BearerHeader | controllers/authController.js:148-149 | `Bearer <token>` yields the token |
| Auth.Protect | controllers/authController.js:140-179 | admits only a verifying token whose user exists and lists the token's session, and admits every such token. The admitted user is that document read without its password, and the request's session id is the token's. Every refusal is 401 |
| Auth.IssuedTokenAdmits | controllers/authController.js:110-129 | while it has not expired, the token a login hands out admits its holder with the new session |
| Auth.RevokedTokenDenied | controllers/authController.js:159-169 | once its session id is pulled, no token carrying it is admitted, whether it comes as a cookie or a header |
| Auth.SixthLoginLocksOutOldest | controllers/authController.js:119-121 | a sixth login locks out the oldest session's token and, while they have not expired, keeps the other four admitted |
| Auth.RestrictTo | controllers/authController.js:184-190 | passes exactly when the role is among the allowed ones, otherwise 403 |
| Auth.AdminOnly | controllers/authController.js:184-190 | only an admin passes `restrictTo('admin')` |
| Auth.ForgotPassword | controllers/authController.js:196-207 | 400 exactly when neither email nor phone is given; otherwise always success |
| Auth.Logout | controllers/authController.js:212-227 | pulls the request's session from its user, leaves the rest in order, and sets both cookies to `none` |
| Duration.Split | controllers/userController.js:22-25 | h·3600 + m·60 + s = floor(ms/1000) with m, s < 60 |
| Duration.FormatDuration | controllers/userController.js:18-33 | `0s` for a missing or negative input. At one second or more, the text reads back as exactly floor(ms/1000) seconds. Zero hours and minutes are left out, and the seconds are printed when positive or when nothing else was printed. The same function serves the copy at controllers/activityController.js:8-22 |
| Duration.Tenths | controllers/userController.js:20 | the sub-second text's tenths are within half a tenth of ms/1000 |
| Duration.DurationRoundTrip | controllers/activityController.js:12-21 | for ms ≥ 1000 the formatted text parses back to floor(ms/1000) seconds |
| Duration.AccumulatedText | controllers/userController.js:27-32 | the string built with `+=` and trimmed is the blank-separated join of the words |
| Text.TrimIdempotent | models/reviewModel.js:11-22 | trimming twice changes nothing more |
| Text.ParseInt | routes/reviewRoutes.js:61 | `parseInt` without a radix: after white space and an optional sign, the value of the leading decimal digits, or of the hexadecimal digits after a `0x`/`0X` prefix; none where `parseInt` gives `NaN` |
| Text.ParseIntOfNumeral | routes/reviewRoutes.js:61 | `parseInt` reads a numeral back as its own value |
| Orders.ParseStatus | models/Order.js:52-56 | accepts exactly the six status names |
| Orders.ParsePaymentMethod | models/Order.js:45-49 | accepts exactly `cod`, `card`, `bank` and `easypaisa` |
| Orders.Cast | models/Order.js:6-73 | saving succeeds exactly on schema-valid input with items. It keeps the given history and weeks, and defaults the status to Pending, the payment method to cod and the discount to 0 |
| Orders.SchemaValid | models/Order.js:6-73 | the schema's required strings present and non-empty, required numbers present, and the status and payment method, when sent, among their enum values |
| Orders.HasEssentials | routes/orderRoutes.js:12-14 | the route's own check: a customer name and a non-empty item list |
| Orders.FirstEntry | routes/orderRoutes.js:17-21 | the first history entry carries the sent status, or `Pending` when none or an empty one was sent, the placing time and the placed note |
| Orders.PlacedOrderTracked | routes/orderRoutes.js:17-21 | a placed order has exactly one history entry, whose status is the sent status or `Pending` and agrees with the order's status |
| Orders.StatusNote | routes/orderRoutes.js:100-102 | the admin's note, or `Status manually changed to <status>.` |
| Orders.WithStatus | routes/orderRoutes.js:94-104 | sets the status and appends exactly one history entry with the same status; the earlier history and every other field are kept |
| Orders.CancellationAllowed | routes/orderRoutes.js:178-181 | a cancellation may be requested exactly from Pending or Processing |
| Orders.WithoutCustomerMembers | controllers/userController.js:435 | `deleteMany` by customer email keeps exactly the other customers' orders |
| Orders.WithoutCustomer | controllers/userController.js:435 | `deleteMany` by customer email never adds orders; what it keeps is stated by `Orders.WithoutCustomerMembers` |
| Orders.WithoutCustomerValid | controllers/userController.js:435 | the cascade keeps order ids distinct and every history tracked |
| Orders.OrderStore.Place | routes/orderRoutes.js:8-50 | 400 with nothing stored unless the essentials and the schema hold. Otherwise the order is appended with its first history entry and two weeks' delivery when left out (201) |
| Orders.OrderStore.Get | routes/orderRoutes.js:68-79 | 500 for a malformed id; otherwise the id is cast, so its letters may be in either case: 404 when no order has the cast id, otherwise that order |
| Orders.OrderStore.UpdateStatus | routes/orderRoutes.js:85-126 | 400 for a missing or unknown status before the store is touched, 500 for a malformed id, 404 when no order has the cast id, otherwise that order's status set with one matching history entry |
| Orders.OrderStore.UpdateDeliveryTime | routes/orderRoutes.js:131-159 | 400 for a missing or non-numeric value, 500 for a malformed id, 404 when no order has the cast id, otherwise only that order's delivery time changes |
| Orders.OrderStore.RequestCancellation | routes/orderRoutes.js:164-201 | 500 for a malformed id, 404 when no order has the cast id; 400 unless Pending or Processing; otherwise the status becomes Requested with one history entry saying so |
| Orders.OrderStore.Delete | routes/orderRoutes.js:208-230 | 500 for a malformed id, 404 when no order has the cast id, otherwise exactly that order is removed and returned |
| Orders.OrderStore.DeleteByCustomer | controllers/userController.js:435 | removes the customer's orders and reports how many |
| Reviews.ParseRating | routes/reviewRoutes.js:61-64 | accepted exactly when `parseInt` gives a whole number from 1 to 5, which is then the rating |
| Reviews.RatingNumeralAccepted | routes/reviewRoutes.js:61-64 | every star count from 1 to 5 written as a numeral is accepted as itself |
| Reviews.Average | routes/reviewRoutes.js:29-32 | 0 for no reviews, otherwise the mean: average times count equals the sum |
| Reviews.AverageInRange | models/reviewModel.js:24-29 | the mean of valid ratings lies between 1 and 5 |
| Reviews.ForProductMembers | routes/reviewRoutes.js:26 | the product's reviews are exactly the stored reviews with that product id |
| Reviews.Create | models/reviewModel.js:5-34 | creation succeeds exactly with a valid product id, a rating from 1 to 5, a name that trims to 1-50 characters and text that trims to something. The stored review is then valid, keeps the parsed rating and stores the product id as cast |
| Reviews.ReviewStore.List | routes/reviewRoutes.js:12-44 | 400 exactly without a well-formed product id; otherwise the reviews whose product id is the cast query id (any letter case), their count and their mean |
| Reviews.ReviewStore.Submit | routes/reviewRoutes.js:51-92 | 400 with nothing stored for a missing field, a bad rating or a schema error; otherwise the trimmed review is appended with the parsed rating and the cast product id (201) |
| Reviews.ReviewStore.Edit | routes/reviewRoutes.js:99-139 | 400 before the lookup for missing text or rating, a bad rating, a malformed id or blank text; 404 when no review has the cast id; otherwise only that review's text and rating change |
| Reviews.ReviewStore.Delete | routes/reviewRoutes.js:146-165 | 400 for a malformed id, 404 when no review has the cast id, otherwise exactly that review is removed |
| Account.GetSessions | controllers/userController.js:190-207 | `count` equals the number of stored sessions; a view is current exactly for the request's session; newest login first |
| Account.GetMe | controllers/userController.js:53-76 | the request's user with the same annotated session listing |
| Account.LogoutSpecificSession | controllers/userController.js:213-236 | 403 for the current session. 404 with nothing changed for an id the user does not have. Otherwise that id is pulled and the other sessions are kept |
| Account.RevocationKeepsCurrent | controllers/userController.js:216-224 | revoking another session never removes the current one |
| Account.CollectUpdates | controllers/userController.js:102-106 | the collected update holds exactly the truthy profile fields, and is empty exactly when none was sent |
| Account.Apply | controllers/userController.js:119-123 | the update overwrites only the sent fields, through the username and email setters; id, password, sessions, role and timestamps are kept |
| Account.UpdateMe | controllers/userController.js:81-147 | 400 without the current password or the fields; 401 for a wrong password. Then a short new password is 400; a new password alone is saved (the other fields are not written); no new password and no fields is 400; then the validators (400), the unique indexes (409) and the write |
| Account.WriteProfile | controllers/userController.js:119-124 | the update with validators: 400 when the updated document breaks a validator, 409 naming the first shared unique index, each with nothing written; otherwise exactly that document is replaced and its profile returned |
| Account.ChangePassword | controllers/userController.js:109-115 | only the password changes, and to a hash of the new password |
| Account.PasswordChangeAuthenticates | controllers/userController.js:109-115 | after a password change the stored hash accepts the new password and exactly the passwords bcrypt reads as the same 72 key bytes. Among them is the new password followed by a NUL and by itself again; for a short ASCII password and a candidate without NUL characters there is no other. The sessions are kept |
| Account.UpdatedEmailLogsIn | controllers/userController.js:119-123 | after an email change, logging in with the address as typed finds the updated user |
| Account.ActivityStatus | controllers/userController.js:252-257 | `Active` exactly when now − (last activity, or creation) is under ten minutes, otherwise `Inactive` |
| Account.LoginMakesActive | controllers/authController.js:124 | a user who just logged in is listed as active for ten minutes |
| Account.UserRowsMembers | controllers/userController.js:248-270 | the user list holds a row for exactly the users who are not admins |
| Account.UserRows | controllers/userController.js:248-270 | at most one row per user; which rows is stated by `Account.UserRowsMembers` |
| Account.DeleteUser | controllers/userController.js:411-461 | 400 for a malformed id, 404 when no user has the cast id, 403 for an admin, each with nothing deleted. Otherwise the user's orders and then the user are removed, and the reply names the email |
| Account.DeleteMyAccount | controllers/userController.js:152-184 | the request's user's orders and document are removed, and both cookies are set to `none` |
| Account.DeletedUserDenied | controllers/userController.js:165 | a deleted account's tokens are no longer admitted |
| Account.PromotionKey | controllers/userController.js:479-483 | the promotion looks the user up by the trimmed, lowercased email |
| Account.PromotionKeyCanonical | controllers/userController.js:479-483 | normalising an already normalised address changes nothing |
| Account.DisplayName | controllers/userController.js:494 | first name, a blank, then the last name |
| Account.MakeAdmin | controllers/userController.js:467-504 | 403 unless the caller is an admin, 400 without an email, 404 for no such user; otherwise only that user's role becomes admin |
| Dashboard.MonthStart | routes/dashboardRoutes.js:17-19 | `new Date(y, m, 1)` with an out-of-range month rolls over into the neighbouring year: a valid month whose ordinal is 12·y + m |
| Dashboard.WindowsAdjacent | routes/dashboardRoutes.js:16-20 | the previous, current and next month starts are consecutive months; the previous window ends where the current begins; no instant is in both; together they cover exactly last month and this month |
| Dashboard.EarningsSlots | routes/dashboardRoutes.js:110-118 | twelve slots; slot m−1 holds month m's delivered total, or 0 without data, and the profit series 80% of it |
| Dashboard.SlotOfGroup | routes/dashboardRoutes.js:99-108 | with one row per month, a month's slot holds that month's row |
| Dashboard.EarningsReport | routes/dashboardRoutes.js:97-135 | the twelve slots of delivered totals, the profit series at 80% of each slot, and the summary: profit is 80% of the earnings, tax and expense 10% each |
| Dashboard.TotalScaled | routes/dashboardRoutes.js:120-121 | the total of a series scaled slot by slot is the scaled total |
| Dashboard.LeadSlots | routes/dashboardRoutes.js:364-370 | twelve slots; slot m−1 holds month m's message count, or 0 |
| Dashboard.DeviceVisits | routes/dashboardRoutes.js:145-165 | each of Mobile, Tablet and Web gets its row's share of the total, 0 without a row; rows under other names are ignored |
| Dashboard.SharesAddUp | routes/dashboardRoutes.js:151-159 | with one row per device and only the three known devices stored, the three shares add up to 100% before rounding |
| Dashboard.SourceMedium | routes/dashboardRoutes.js:287-294 | `cod` is Offline/Cash, `stripe` and `paypal` are Payment Gateway/Online, anything else is Unknown/Unknown |
| Dashboard.StoredMethodsNeverGateway | models/Order.js:45-49 | no stored payment method maps to Payment Gateway |
| Dashboard.CampaignRowOf | routes/dashboardRoutes.js:296-302 | the campaign is the channel or `Unknown`; the clicks are the order count |
| Dashboard.CampaignSource | routes/dashboardRoutes.js:287-307 | one row per channel in order, then exactly one placeholder row when fewer than three |
| Dashboard.TrafficLog.Record | routes/dashboardRoutes.js:413-438 | 400 without a device or a page; 500 for a device outside the schema's three; otherwise one visit stored, with browser `Unknown` and source `direct` by default (201) |
| Activity.Defaulted | models/Activity.js:17-24 | a schema default applies only to a field left out |
| Activity.EntryOf | controllers/activityController.js:46-53 | the stored entry carries the request's user (or none), description and type, with page `N/A` and duration 0 by default |
| Activity.ActivityLog.RecordActivity | controllers/activityController.js:28-79 | 400 and nothing recorded without description or type; otherwise the entry is appended (201), and the user's tracking fields are refreshed only when a user is known |
| Activity.RecordedUserActive | controllers/activityController.js:56-65 | a user whose activity was just recorded is listed as active for ten minutes; nobody else's status changes |
| Cloudinary.UploadToCloudinary | config/cloudinary.js:24-53 | falsy input → null, no upload; `http…` → returned unchanged, no upload; not `data:image/…` → null, no upload. Otherwise the upload's URL, or an error whose message is `Cloudinary upload failed: ` followed by the service's message |
| Cloudinary.HostedUrlNotReuploaded | config/cloudinary.js:30-33 | passing back a URL an upload produced never uploads again |
| Cloudinary.ServiceOnlyForInline | config/cloudinary.js:26-39 | the outcome depends on the service only for an inline image |

## Left out

- Wiring:
  - `routes/userRoutes.js:20` imports `protect` and `restrictTo` from `middleware/authMiddleware.js`, whose versions (lines 12-31) always call `next()`, so the wired user routes skip the checks modelled in `Auth.Protect` and `Auth.RestrictTo`.
  - `routes/activityRoutes.js:11` mounts `recordActivity` without `protect`, so as wired the request never has a user: every activity is stored without a user and no user's tracking fields change.
  - The model gives each handler the principal that the real `protect` would attach.
- MongoDB itself:
  - concurrent requests, lost updates and the atomicity of `$push`/`$pull`;
  - sorting done by the database (`sort({createdAt: -1})` in the user list, `$sort` stages);
  - the unique indexes are modelled as an invariant of the users collection, with duplicate-key detection as `Violated`.
- Mongoose details:
  - Strict mode drops paths the schema does not declare. A review's `userId` and `updatedAt` are therefore never stored, and the activity handler's `sessionStatus` is never stored either.
  - An explicit `null` sent for a field is treated like a missing one.
  - `parseFloat`/`Number` casting of request fields is an input: the parsed value, or `None` for `NaN`.
- Reviews.ReviewStore.List: returns the product's reviews in collection order; the `sort({createdAt: -1})` at routes/reviewRoutes.js:26 is not modelled.
- Object ids: an id is well-formed exactly when it is 24 hexadecimal digits. The driver's check also accepts some 12-character strings, and that form is not modelled. The cast of a 24-digit id, which ignores the case of its letters, is modelled (`Common.CastObjectId`); stored ids are kept in its lower-case spelling.
- Crypto.Agree: JSON Web Token expiry (`expiresIn`, models/User.js:105-106) is not modelled. `Agree` says every signed token verifies, so `Auth.IssuedTokenAdmits` and `Auth.SixthLoginLocksOutOldest` speak of tokens that have not expired; an expired token is refused like any token that fails verification.
- Auth.Protect: looks the token's user up by the token's id exactly, without the cast. Tokens are signed over stored ids, which are already in lower case, so only a forged token could spell an id differently.
- Strings are sequences of Unicode code points. JavaScript's `toLowerCase` also folds letters outside ASCII, and `.length` and Mongoose's `minlength`/`maxlength` count UTF-16 code units. The model folds ASCII letters only and counts code points, so the members below differ from the source on non-ASCII input.
- UserModel.NormalizeUsername: folds ASCII letters only; the Kelvin sign U+212A, which `toLowerCase` turns into `k`, is kept, so the model refuses such a username where the schema accepts it.
- UserModel.Acceptable: the username and email are validated after folding ASCII letters only, and the six-character password minimum counts code points, not UTF-16 units.
- UserModel.CreateDocument: the username and email setters fold ASCII letters only, and the six-character password minimum counts code points; a password of three characters outside the Basic Multilingual Plane (six UTF-16 units) is refused here and accepted by the schema.
- Account.UpdateMe: the new password's six-character minimum counts code points, not UTF-16 units; its email update folds ASCII letters only.
- Reviews.Create: the fifty-character limit on the trimmed name counts code points, not UTF-16 units.
- Reviews.ReviewStore.Submit: the same name limit as `Reviews.Create`, counted in code points.
- Auth.FindLogin: lowercases the query email in ASCII only.
- Account.PromotionKey: lowercases the trimmed email in ASCII only.
- Account.GetSessions: orders the listing with the corrected comparator of `Sessions.Listing`, newest login first by the full login time. As written (controllers/userController.js:204), logins in the same minute keep their stored order; see Findings and `Sessions.ListingAsWrittenNotNewestFirst`.
- Account.GetMe: returns the same corrected session listing as `Account.GetSessions`.
- Orders.OrderStore.Place: the server supplies the new order's id. A client-sent `_id` in the body, which `new Order(orderData)` would take over (routes/orderRoutes.js:10, 28), is not modelled. When it names a stored order the save fails with a duplicate key, which is not a validation error, so the route answers 500 with nothing stored (lines 37-48).
- Activity.ActivityLog.RecordActivity: `durationMs` is taken as an optional whole number. The handler passes it to `Activity.create` uncast (controllers/activityController.js:33, 46-53). A value the Number path (models/Activity.js:21-24) cannot cast, such as `"abc"`, makes the create fail: the handler answers 500, stores nothing and leaves the user unchanged (lines 74-78). A fractional value is stored as it is. Neither case is modelled.
- Floating point and formatting:
  - `toFixed`, `toLocaleString`, and the string form of the dashboard's percentages and conversions; the model keeps the exact values before rounding;
  - the one-decimal rounding of the review average;
  - the date text of `formatTime`.
- Dashboard figures:
  - `Dashboard.DeviceVisits`: computes each share as an exact real; the rounding to a whole number and its string form are not modelled.
  - `Dashboard.CampaignRowOf`: computes the conversion as the exact real totalSales / count / 100; the two-decimal string with `%` is not modelled.
  - The stats, traffic-source, sales-countries, top-pages and top-session figures (routes/dashboardRoutes.js:14-92, 175-268, 320-339, 385-407) are aggregate counts and growth percentages over the month windows; only the windows (`Dashboard.WindowsAdjacent`) are modelled. `Math.random` in top-pages is not modelled.
  - The calendar (the instant each local month begins) is a parameter.
- `getUserDetails` and `trackActivity` in controllers/userController.js (lines 282-406) are lookups and counters outside the modelled core.
- The account-deletion cascade over activities and contact messages (controllers/userController.js:160-161, 436-437) is not modelled; only the order cascade is.
- Account.DeleteUser: the reply for `deletedCount == 0` after a successful lookup (controllers/userController.js:443-445) cannot happen without a concurrent delete, so the model leaves that branch out.
- Auth.Register, Auth.Login: the 500 replies for unexpected database errors are not modelled.
- The plain CRUD of products and contact messages, `server.js`, and the admin-creation script are not part of this model.
- The GET of all orders is a plain sorted read and is not modelled.
- Geolocation of addresses is not modelled.
- Duration.FormatDuration: covers whole milliseconds only; fractional inputs below one second are not modelled.

## Findings

| source | as written | input that shows it | evidently intended | confidence | as-written member | corrected member |
|---|---|---|---|---|---|---|
| controllers/userController.js:204 | the sessions are sorted by `new Date(b.loginTime) - new Date(a.loginTime)`, but `loginTime` has already been replaced by its display text, which carries whole minutes only | two sessions logged in 30 seconds apart within the same minute, stored oldest first: the sort sees equal keys and, being stable, lists the older one first | newest login first by the full login time | not executed | Sessions.ListingAsWrittenNotNewestFirst | Sessions.Listing |
