# SocialPayX account state machine in Dafny

This project models the Express backend of SocialPayX, a "mine SPX" platform. A user opens a
mining session, and stopping it credits the elapsed hours times the user's hourly rate. The
rate grows with every user the user referred. The SPX balance can be withdrawn to a wallet
address: the request debits ("locks") the amount at once, and an administrator later
approves the request or rejects it, which refunds the amount. Users submit a KYC payment
transaction id, which administrators approve or reject. A single settings record switches
mining, withdrawals, KYC and referrals on and off and holds the numeric parameters.
Administrators also publish news items.

The model is built as follows:

- The database is one `Store.Database` object. It holds the users collection, the (at most
  one) settings document, the news collection, and an id counter that stands for the
  ObjectId generator.
- Each route handler that writes to the database is a module-level method that takes the
  database object and modifies only the fields it writes. Its contract states every
  response and the whole new state, guard by guard, in the order the handler tests them.
- Most handlers that only read are functions over the collections they query: the user
  listing, the KYC queue, login, the referral endpoints, the KYC status, the profile, the
  news listings and the dashboard. Two wallet reads, `Wallet.Balance` and `Wallet.History`,
  are methods that take the database object and modify nothing. The withdrawal queue is a
  method over the users collection, because the handler builds it with loops. These contracts state the response
  in terms of the collection: its filter, its order, its page and its counts.
- What the handlers compute is defined by functions: the earnings formula, the referral
  rate, the lock and refund of withdrawals, the settings whitelist update and the listings.
  The properties the platform relies on are lemmas about those functions.
- Time is a natural number of milliseconds. SPX amounts and rates are reals.

A handler that dereferences a user that no longer exists answers 500; the model returns
`ServerError` and changes nothing.

Some behaviours of the handlers are easy to miss:

- Processing a withdrawal does not check that the request is still pending.
  - Rejecting a rejected request credits its amount a second time
    (`Admin.RejectTwiceCreditsTwice`).
  - Approving a rejected request keeps the refund (`Admin.ApproveAfterRejectKeepsRefund`).
  - Only a request that is still pending is resolved without creating or destroying SPX
    (`Admin.ResolvePendingConserves`).
  - The route's status validator is never consulted. "pending" is accepted and stored, and
    any other unknown status fails on save (500).
  - An unknown user and an unknown request both answer 404.
- A running session's rate is not frozen when the session starts. Stop multiplies by the
  rate stored at the moment of the stop. The referral bonus (`$inc` on the referrer) and the
  rate refresh in the status handler both change that stored rate, and the change then
  applies to the whole session (`Mining.RateChangeDuringSessionAppliesToWholeSession`).

## Model

| member | source | states |
|---|---|---|
| Helpers.CalculateMiningEarnings | backend/utils/helpers.js:7-11 | with the clock not behind the start and a non-negative rate the earnings are non-negative; a zero rate earns nothing |
| Helpers.EarningsOfEmptySession | backend/utils/helpers.js:7-11 | a session measured at its own start earns nothing |
| Helpers.EarningsMonotone | backend/utils/helpers.js:7-11 | at a non-negative rate, a later clock never gives smaller earnings |
| Helpers.EarningsSplit | backend/utils/helpers.js:7-11 | earnings from start to now are the earnings up to any midpoint plus the earnings after it |
| Helpers.EarningsOfWholeHours | backend/utils/helpers.js:7-11 | a session of exactly n hours earns n times the hourly rate |
| Helpers.ValidateWalletAddress | backend/utils/helpers.js:17-20 | the result is truthy exactly when the address is present and 26 to 62 characters long; a falsy address is returned itself |
| Helpers.GenerateReferralCode | backend/utils/helpers.js:3-5 | every code is eight upper-case hexadecimal digits |
| Helpers.HexRoundTrip | backend/utils/helpers.js:3-5 | the code decodes back to the four random bytes it was made from |
| Helpers.ReferralCodeInjective | backend/utils/helpers.js:3-5 | different random draws give different codes |
| SettingsModel.DefaultSettings | backend/models/Settings.js:3-24 | each of the twelve schema defaults (all features on, minimum claim 1, daily limit 24, KYC fee 10, placeholder USDT address, minimum withdrawal 10, fee 0.1, commission 0.1, maintenance off) |
| SettingsModel.FieldsDetermineSettings | backend/models/Settings.js:3-24 | two settings records that agree on every schema path are equal |
| SettingsModel.Assign | backend/routes/admin.js:267-271 | a schema path accepts a value exactly when the kinds match, and then reads back that value |
| SettingsModel.AssignKeepsOtherPaths | backend/routes/admin.js:267-271 | assigning one path leaves every other path unchanged |
| SettingsModel.ParsePath | backend/routes/admin.js:268 | a key names a schema path only when it is that path's name |
| SettingsModel.PathNamesRoundTrip | backend/routes/admin.js:268 | every schema path's name resolves to that path |
| SettingsModel.ParseObject | backend/routes/admin.js:267 | the parsed body has each key once, and each of its pairs is a pair of the body |
| SettingsModel.ApplyBody | backend/routes/admin.js:267-273 | the update fails exactly when the last value the body gives some schema path is of the wrong kind; otherwise every path holds the last value the body gave it, or its old value when the body does not name it |
| SettingsModel.ApplyPairsFails | backend/routes/admin.js:267-273 | assigning the keys in order fails exactly when one of them does not cast |
| SettingsModel.ApplyPairsFields | backend/routes/admin.js:267-271 | after the keys are assigned in order, every path holds the last value given to it, or its old value |
| SettingsModel.LastValueParse | backend/routes/admin.js:267 | parsing keeps, for every path, the last value the body gives it |
| SettingsModel.RepeatedKeyLastWins | backend/routes/admin.js:267-273 | a key given twice takes its second value, even when the first value would not cast |
| SettingsModel.UnknownKeysIgnored | backend/routes/admin.js:268 | a body made only of keys outside the schema leaves the settings unchanged |
| UserModel.ParseKycStatus | backend/models/User.js:26 | a string parses to a KYC status exactly when it is one of the three enum names, and the status is named by that string |
| UserModel.ParseWithdrawalStatus | backend/models/User.js:58 | the same for the withdrawal status enum |
| UserModel.StatusNamesRoundTrip | backend/models/User.js:26 | every status name parses back to its status |
| UserModel.NewUser | backend/models/User.js:4-64 | a new document has the given fields and every schema default: balance 0, rate 0.1, not mining, KYC pending, active, not admin, not verified, no requests |
| UserModel.PreSave | backend/models/User.js:66-70 | the password is hashed exactly when it was modified, and no other field changes |
| UserModel.CalculateMiningRate | backend/models/User.js:77-83 | the rate is at least the base rate 0.1, and above it exactly when the user has referred somebody |
| UserModel.MiningRateAtLeastBase | backend/models/User.js:77-83 | the computed rate is never below the base rate 0.1 |
| UserModel.MiningRateStrictlyIncreasing | backend/models/User.js:77-83 | more referrals give a strictly higher rate |
| UserModel.MiningRateNextReferral | backend/models/User.js:77-83 | one more referral raises the rate by exactly 0.005 |
| UserModel.ReferralCountAppend | backend/models/User.js:81 | adding a user adds one referral to that user's referrer and none to anybody else |
| UserModel.ReferralCountUpdate | backend/models/User.js:81 | changing a user without changing its referrer changes nobody's referral count |
| NewsModel.ParseCategory | backend/models/News.js:6-10 | a string parses to a category exactly when it is one of the five enum names |
| NewsModel.ParsePriority | backend/models/News.js:11-15 | a string parses to a priority exactly when it is one of the four enum names |
| NewsModel.NewNews | backend/models/News.js:3-22 | a new item has the given fields, category general and priority medium by default, zero views, the published flag as given, and published and created now |
| Store.FindUser | backend/routes/mining.js:17 | findById: the position of the user with the id, or none when no user has it |
| Store.FindNews | backend/routes/news.js:43 | the same for news items |
| Collections.SortNewestFirst | backend/routes/wallet.js:80 | the result is ordered by descending key and is a permutation of the input |
| Collections.Window | backend/routes/admin.js:51-52 | skip and limit: at most limit elements, and element k is the input's element skip + k |
| Paging.PageOrDefault | backend/routes/admin.js:43 | a missing, unparsable or zero page is page 1; any other page is kept |
| Paging.LimitOrDefault | backend/routes/admin.js:44 | a missing, unparsable or zero limit is 10; any other limit is kept |
| Paging.CeilDiv | backend/routes/admin.js:71 | the announced page count is the least whole number of pages of limit items that holds all items |
| Paging.ItemOnAnnouncedPage | backend/routes/admin.js:43-71 | with a positive limit, every item lies on a page that skip reaches and that is within the announced page count |
| Paging.PageOf | backend/routes/admin.js:45-52 | a negative skip is refused; otherwise the page is the ordered items from position skip on, exactly as many as the limit and the remaining items allow |
| Paging.PageCovers | backend/routes/admin.js:43-52 | with a positive limit, every item of the ordered result is on the page k / limit + 1, which is one of the announced pages |
| Mining.Start | backend/routes/mining.js:9-44 | refused when mining is disabled, then 500 for a missing user, then refused when already mining; otherwise the session opens now at the computed referral rate, and nothing else changes |
| Mining.Stop | backend/routes/mining.js:47-81 | refused when not mining; otherwise the balance and the lifetime total both grow by the elapsed hours times the stored rate, and the session closes |
| Mining.Status | backend/routes/mining.js:84-116 | stores the recomputed rate, and reports the live earnings at that rate only when a session with a start time is open |
| Mining.BeginSession | backend/routes/mining.js:27-31 | the session is open with a start time of now and the given rate; balance, lifetime total, referrer and requests are unchanged |
| Mining.Claim | backend/routes/mining.js:56-68 | the session is closed with no start time and the claim time now; rate, referrer and requests are unchanged |
| Mining.ClaimCreditsBothTotals | backend/routes/mining.js:56-64 | stop credits the balance and the lifetime total by the same amount, the session's earnings |
| Mining.StartThenStopEarnsHoursTimesRate | backend/routes/mining.js:27-68 | a start at rate r followed by a stop n hours later credits exactly n times r |
| Mining.StopAtStartEarnsNothing | backend/routes/mining.js:56-57 | a stop at the start instant leaves the balance unchanged |
| Mining.StatusThenStopAgree | backend/routes/mining.js:90-102 | after status stores the recomputed rate, a stop at the same instant credits exactly the earnings status reported |
| Mining.RateChangeDuringSessionAppliesToWholeSession | backend/routes/mining.js:56-57 | a rate change during a session changes what stop credits by the elapsed hours times the change |
| Mining.ClaimKeepsBalanceNonNegative | backend/routes/mining.js:56-64 | with the clock not behind the start and a non-negative rate, stop never lowers the balance |
| Wallet.Lock | backend/routes/wallet.js:55-64 | the request is appended after the earlier ones, which stay; a pending request moves its amount from the balance to the locked total, so balance plus locked stays the same |
| Wallet.Balance | backend/routes/wallet.js:10-22 | the user's balance, lifetime total and referral earnings, or 500 for a missing user |
| Wallet.Withdraw | backend/routes/wallet.js:25-72 | in order: validation, withdrawals disabled, below the minimum, missing user, amount above the balance; on success one pending request with a fresh id is appended, the balance drops by the amount and stays non-negative, and balance plus locked is unchanged |
| Wallet.History | backend/routes/wallet.js:75-85 | the user's requests, newest first, and exactly those |
| Admin.DashboardStats | backend/routes/admin.js:10-38 | the number of users, of users mining, of pending and of approved KYC (together at most the user count), of pending requests over all users' requests, and the sum of every user's lifetime total |
| Admin.UnwindPendingUpdate | backend/routes/admin.js:21-25 | replacing one user's requests changes the pending count over all users by the change in that user's count |
| Admin.SessionsMoveDashboard | backend/routes/admin.js:13-19 | a start adds one active miner; a stop removes one and adds its earnings to the mined total |
| Admin.WithdrawAddsPendingWithdrawal | backend/routes/admin.js:21-25 | a withdrawal request adds one pending withdrawal to the dashboard |
| Admin.ProcessingTakesPendingWithdrawal | backend/routes/admin.js:21-25 | approving or rejecting a pending request takes one pending withdrawal off the dashboard |
| Admin.UsersPage | backend/routes/admin.js:41-78 | 500 for a negative skip; otherwise the rows are the page at the skip of all users sorted newest first, each with its referral count, and the announced pagination |
| Admin.EveryUserOnAnAnnouncedPage | backend/routes/admin.js:43-73 | with a positive limit, every user is listed on one of the announced pages |
| Admin.SetUserActive | backend/routes/admin.js:81-94 | sets isActive when given, and returns the updated user, or null for a missing one |
| Admin.KycSubmissions | backend/routes/admin.js:97-117 | exactly the users with a non-empty transaction id and the requested status ("all" or none for every status), each as often as it is stored, newest submission first |
| Admin.ReviewKyc | backend/routes/admin.js:120-151 | a status other than approved or rejected is a 400, and a missing user a 404; otherwise the status is set, with the reason kept only on a rejection |
| Admin.ListWithdrawals | backend/routes/admin.js:154-186 | the loop collects exactly the requests with the queried status (pending by default), each tagged with its owner; the result is that collection, newest first |
| Admin.PushMatching | backend/routes/admin.js:164-177 | the inner loop appends exactly the user's requests that have the status, tagged and in order |
| Admin.TaggedAllComplete | backend/routes/admin.js:158-178 | every request with the queried status appears in the queue, tagged with its owner |
| Admin.TaggedOfComplete | backend/routes/admin.js:163-177 | the same within one user's requests |
| Admin.TaggedAllSound | backend/routes/admin.js:158-178 | every queue entry has the queried status and is a request of the user it names |
| Admin.TaggedOfSound | backend/routes/admin.js:164-177 | the same within one user's requests, with the user's id, username and email |
| Admin.UnknownStatusEmptyQueue | backend/routes/admin.js:156-165 | a queried status that is not an enum name gives an empty queue |
| Admin.FindRequest | backend/routes/admin.js:201 | the position of the request with the id in the user's requests, or none |
| Admin.Resolve | backend/routes/admin.js:206-212 | request k takes the status and the processing date; no other request and no other field changes; only a rejection credits the amount back |
| Admin.ProcessWithdrawal | backend/routes/admin.js:189-220 | 404 for a missing user or request, then 500 for a status outside the enum; otherwise the request takes the status and the processing date, and only a rejection credits its amount back |
| Admin.ResolvePendingConserves | backend/routes/admin.js:206-212 | resolving a pending request in any way keeps balance plus locked unchanged |
| Admin.RejectTwiceCreditsTwice | backend/routes/admin.js:195-212 | rejecting an already rejected request credits its amount again and raises balance plus locked by it |
| Admin.ApproveAfterRejectKeepsRefund | backend/routes/admin.js:206-212 | approving a rejected request keeps the refund and locks the amount again |
| Admin.GetPublicSettings | backend/routes/admin.js:223-243 | the six public fields of the stored settings, after saving the defaults when none exist |
| Admin.GetSettings | backend/routes/admin.js:246-257 | the stored settings, after saving the defaults when none exist |
| Admin.UpdateSettings | backend/routes/admin.js:260-278 | the loop applies the body's schema keys in order to the stored settings or the defaults; a cast failure stores nothing, otherwise the result is stored |
| Auth.FindByReferralCode | backend/routes/auth.js:35 | the position of a user holding the code, or none exactly when nobody holds it |
| Auth.FindByEmail | backend/routes/auth.js:101 | the position of a user with the email, or none when nobody has it |
| Auth.FirstFreeDraw | backend/routes/auth.js:39-45 | the first random draw whose code nobody holds, every earlier draw's code being taken |
| Auth.Referrer | backend/routes/auth.js:33-36 | an empty or unknown referral code names nobody; otherwise a user holding the code |
| Auth.Credit | backend/routes/auth.js:60-63 | with a referrer, only that user changes, and only its rate, which rises by exactly 0.005; without one nothing changes |
| Auth.Registered | backend/routes/auth.js:48-69 | the stored new user: the given id, email and username, password hashed, plain password kept, verified, with the new code and referrer; apart from the hash and the verified flag it is the new document with every schema default |
| Auth.Register | backend/routes/auth.js:10-85 | in order: validation, email or username taken; otherwise the new user gets the first free code, the referrer's rate rises by 0.005, and referral codes stay unique |
| Auth.RegisteredValid | backend/routes/auth.js:39-57 | appending a new user whose code nobody holds keeps ids and referral codes unique |
| Auth.RegistrationKeepsReferrerRateInSync | backend/routes/auth.js:59-65 | a referrer whose stored rate equalled the computed rate still does after the registration |
| Auth.RegistrationLeavesOtherRates | backend/routes/auth.js:59-65 | the registration changes nobody's referral count but the referrer's |
| Auth.Login | backend/routes/auth.js:88-135 | validation, then "invalid credentials" for both an unknown email and a wrong password; success only for the user with that email whose password hash matches |
| Auth.LoginAfterRegister | backend/routes/auth.js:101-110 | a user stored with the hash of a password logs in with that password |
| Auth.VerifyEmail | backend/routes/auth.js:138-176 | validation, then 404 for an unknown email, then a wrong code, then an expired one (a missing expiry never expires); otherwise verified with the code cleared |
| Auth.VerifyEmailConsumesCode | backend/routes/auth.js:164-168 | a code that verified cannot verify again |
| Kyc.SubmitKyc | backend/routes/kyc.js:10-49 | in order: missing id, KYC disabled, missing user, already approved; otherwise the id is stored, pending, dated now, with the reason cleared |
| Kyc.SubmitEntersQueue | backend/routes/kyc.js:34-37 | a submission leaves the user pending with a non-empty id, dated, with no reason |
| Kyc.ResubmitAfterRejection | backend/routes/kyc.js:28-37 | after a rejection, a new submission replaces the earlier one entirely |
| Kyc.KycStatusOf | backend/routes/kyc.js:52-69 | the user's KYC status, transaction id, submission date and rejection reason with the settings' switch, fee and address, or 500 for a missing user |
| Referral.Info | backend/routes/referral.js:9-33 | the user's code and referral earnings, the referral count, and exactly the users this user referred (as a multiset), newest first, with the settings' commission and switch |
| Referral.Stats | backend/routes/referral.js:36-54 | the referral count, and the number of referred users that are mining, never more than the count |
| Referral.ActiveAreMiningReferrals | backend/routes/referral.js:41-44 | counting users referred by the caller and mining is counting the miners among the caller's referrals |
| Profile.GetProfile | backend/routes/user.js:8-15 | the user's own document, or null exactly when it does not exist |
| Profile.UpdateProfile | backend/routes/user.js:18-41 | 403 for an admin; a new non-empty username held by anybody is refused; otherwise only the username changes, and usernames stay unique |
| NewsRoutes.Trim | backend/routes/news.js:90-91 | the trimmed string is no longer than the input, and starts and ends with a character that is not white space |
| NewsRoutes.TrimKeepsMiddle | backend/routes/news.js:90-91 | the trimmed string is one contiguous part of the input, with only white space before and after it |
| NewsRoutes.TrimBlank | backend/routes/news.js:90-91 | trimming leaves nothing exactly when the string is all white space |
| NewsRoutes.BlankTitleAfterTrim | backend/routes/news.js:90-91 | a white-space title passes the non-empty check, but is empty once trimmed |
| NewsRoutes.TrimIdempotent | backend/routes/news.js:123-124 | trimming twice is trimming once |
| NewsRoutes.ListNews | backend/routes/news.js:9-38 | 500 for a negative skip; otherwise the page at the skip of the published items (of the category, if given) sorted newest publication first, with the count of all such items |
| NewsRoutes.EveryListedItemOnAnAnnouncedPage | backend/routes/news.js:11-32 | with a positive limit, every published item of the category is on one of the announced pages |
| NewsRoutes.AdminListNews | backend/routes/news.js:60-85 | 500 for a negative skip; otherwise the page at the skip of all items sorted newest creation first, with the count of all items |
| NewsRoutes.EveryItemOnAnAnnouncedAdminPage | backend/routes/news.js:62-78 | with a positive limit, every item, published or not, is on one of the announced pages |
| NewsRoutes.GetNews | backend/routes/news.js:41-57 | 404 for a missing or unpublished item; otherwise its views grow by one |
| NewsRoutes.CreateNews | backend/routes/news.js:88-118 | a 400 for an empty title or content or an unknown category or priority; a 500 when the trimmed title or content is empty; otherwise the new item is appended, published unless the body says false |
| NewsRoutes.Revise | backend/routes/news.js:134-139 | each field the body gives (a non-blank title or content, a category or priority, a boolean flag, any image URL) replaces the stored one, and a category or priority outside its enum fails |
| NewsRoutes.EmptyUpdateChangesNothing | backend/routes/news.js:134-139 | an update with an empty body leaves the item as it was |
| NewsRoutes.UpdateNews | backend/routes/news.js:121-146 | 404 for a missing item, then 500 for a failed enum; otherwise the revised item replaces it |
| NewsRoutes.DeleteNews | backend/routes/news.js:149-161 | 404 for a missing item; otherwise it is removed, the others stay in order, and no item has that id any more |

## Left out

- Authentication middleware and JWT signing are not part of this model. The authenticated
  user's id is a parameter, and the admin-only handlers assume the caller is an
  administrator.
- bcrypt's hash and compare are function parameters. The clock (`new Date()`) is a `now`
  parameter. `crypto.randomBytes` is a sequence of draws given to `Auth.Register`.
- Auth.Register: requires that some draw gives a free code. The handler loops for as long as
  the codes it draws are taken.
- Helpers.ValidateWalletAddress: counts the characters of the address, while JavaScript's
  `.length` counts UTF-16 code units; the two differ for characters outside the Basic
  Multilingual Plane.
- Auth.IsEmail approximates express-validator's isEmail. `normalizeEmail` is not modelled:
  emails are compared as given.
- NewsRoutes.Trim: treats space, tab, line feed and carriage return as white space, not the
  other Unicode white space characters that JavaScript trims.
- SettingsModel.Assign: accepts only a JSON value of the path's own kind. Mongoose also casts
  strings such as "true" or "10" to booleans and numbers, and numbers to strings.
- SettingsModel.ParseObject: places a repeated key at its last occurrence, where JSON.parse
  keeps it at its first. Assignments to different paths do not interact, so the stored
  record is the same.
- SettingsModel.ParsePath: the schema also declares `_id`, `__v`, `createdAt` and
  `updatedAt`. Assignments to those are not modelled.
- Request bodies whose fields have other JSON types than the handler expects (a number for a
  title, an object for a status) are not modelled.
- Projections (`select`, `populate`) are not modelled: listings return whole documents. The
  admin user listing really omits the password hash (and still returns the plain password).
- Sorting uses an insertion sort. The order of items with equal keys is not specified.
- `updatedAt` timestamps are not modelled. `createdAt` is the creation time.
- The KYC document and personal-info fields, and `emailVerificationToken`, are not modelled.
  No modelled handler reads or writes them.
- A withdrawal processing request with no status at all is not modelled.
- `formatDate` is presentation only and is not part of this model.
- Concurrency is not modelled: each handler runs alone. Interleaved requests for one user
  (two stops at once, two withdrawals at once) are not captured.
- Floating point is not modelled: amounts and rates are exact reals, while the source uses
  JavaScript doubles.
- server.js, the database scripts (seeding, initialisation, KYC repair, test user) and the
  frontend are not part of this model.
