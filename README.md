# Loyalty rewards: a verified model of the server core and the client translator

This project models the server side of a loyalty-rewards web application and
its two client-side translation helpers, and proves properties of the model.

Customers register with a unique phone number, receive a wallet pass whose
serial number is later recorded on their user row, and collect one point per
store visit. Every fifth visit completes a reward cycle. The server keeps three
tables: users, visits and reward notifications. It offers two accrual handlers
(`recordVisit` and the pass-scan webhook), CRUD handlers around them, two
stats queries, newest-first listings, and two simulated wallet-service
adapters. On the client, `SimpleI18n` and the `useTranslation` hook look up
strings and fill `{{name}}` placeholders.

Layout (one module per file):

- `wrappers.dfy` (`Wrappers`): `Option` and `Result`.
- `text.dfy` (`Text`): the JavaScript white-space set, `trim`, and decimal rendering.
- `listing.dfy` (`Listing`): first match, filter and descending sort. These stand for the SQL `where … order by … desc`.
- `schema.dfy` (`Schema`): row datatypes, handler errors, and lookups by serial, id and phone.
- `rewards.dfy` (`Rewards`): the two accrual rules, the reward-cycle invariant, and the two stats projections.
- `store.dfy` (`Store`): class `Database`. Its fields are the three tables and their serial sequences. It has one method per writing handler and one function per query.
- `validation.dfy` (`Validation`): the zod input schemas.
- `pass_adapters.dfy` (`PassAdapters`): `triggerPassUpdate` and `triggerPassCreation`.
- `translation.dfy` (`Translation`): lookup with fallback, `indexOf`, first-occurrence and global replacement, and the two interpolations.
- `i18n.dfy` (`I18n`): class `SimpleI18n`.
- `use_translation.dfy` (`UseTranslation`): class `TranslationHook` for the hook's state.
- `scenarios.dfy` (`Scenarios`): the five-visit walk-through from the recordVisit tests, proved from the method contracts alone.

Time is a natural number passed in as `now`. The webhook's `scanned_at` is
passed in already parsed: `None` stands for a string that is not a date.

The stored reward points of every user equal its visit count modulo 5. Each
writing method keeps this invariant (`AllInCycle`). The store constraints
(serial ids, unique phone, both foreign keys) are `Database.Valid()`, which
every method keeps.

Three behaviours of the source that the model keeps:

- recordVisit's not-found message reads "User not found *with* pass serial number", while the scan webhook's reads "*for*".
- The visit insert and the user update are two separate statements, not one transaction.
- recordVisit's `isRewardEligible` is `points >= 5` after the reset, so it is always false (proved).

## Model

| member | source | states |
|---|---|---|
| `Store.Database.constructor` | server/src/db/schema.ts:5-32 | The three tables start empty, every serial sequence starts at 1, and the constraints hold. |
| `Store.AppendUser` | server/src/db/schema.ts:6-14 | A user row with the next serial id and an unused phone number keeps ids increasing and phones unique. The id set gains exactly that id. |
| `Store.RewriteUser` | server/src/db/schema.ts:6-9 | Rewriting a user row without changing its id or phone keeps the constraints and the id set. The cycle invariant is kept when the new row is in cycle. |
| `Store.AppendVisit` | server/src/db/schema.ts:17-24 | A visit with the next serial id whose `user_id` is an existing user keeps the visit constraints, including the foreign key. |
| `Store.AppendNotification` | server/src/db/schema.ts:26-32 | A notification with the next serial id for an existing user keeps the notification constraints, including the foreign key. |
| `Store.Database.CreateUser` | server/src/handlers/create_user.ts:9-21 | A phone number already in use fails with a unique violation and changes nothing. Otherwise exactly one row is appended. It holds the given names and phone verbatim, counters 0, a null serial and both timestamps `now`. Its id is greater than every earlier id. Only the users' id sequence advances. Visits and notifications are unchanged, and the cycle invariant is kept. |
| `Schema.FindBySerial` | server/src/handlers/record_visit.ts:17-26 | The user picked for a serial is the first one in table order that holds it. None is found only when no user holds it. |
| `Rewards.PointsRule` | server/src/handlers/record_visit.ts:29-36 | The visit count grows by one. The cycle completes iff points+1 reaches 5. The stored points are then 0, otherwise points+1, so they always stay below 5. |
| `Store.Database.RecordVisit` | server/src/handlers/record_visit.ts:17-72 | An unknown serial fails with "User not found with pass serial number" and changes nothing. Otherwise one visit is appended: the user's id, the input serial, time `now`, 1 point, and the reward flag. Only that user's counters and `updated_at` change. The result returns the stored row, and `isRewardEligible` is always false. Only the visits' id sequence advances. The cycle invariant is kept. |
| `Rewards.PointsRuleKeepsCycle` | server/src/handlers/record_visit.ts:29-36 | From points = visits mod 5, recordVisit's rule stays in cycle and triggers exactly when the new visit count is a multiple of 5. |
| `Rewards.ReplayCounts` | server/src/handlers/record_visit.ts:29-36 | After N recordVisit calls a new user has N visits and N mod 5 points. The N-th call triggered a reward iff 5 divides N. |
| `Scenarios.MemberWithPass` | server/src/tests/record_visit.test.ts:177-186 | Registering a user and assigning pass PASS123 through the handler contracts gives a valid store with one user. That user holds the serial and has both counters at 0. From there, `RewardCycleWalkThrough` derives the test's five-visit cycle from `RecordVisit`'s contract alone. |
| `Rewards.ModuloRule` | server/src/handlers/handle_pass_scan_webhook.ts:32-40 | The visit count grows by one. The cycle completes iff the new count is a multiple of 5. Points become 0 then, and old points + 1 otherwise, even when the old points were out of sync. |
| `Store.Database.HandlePassScanWebhook` | server/src/handlers/handle_pass_scan_webhook.ts:20-78 | An unknown serial fails with "User not found for pass serial number". An unparseable scan time fails after the lookup and before any write. Both failures change nothing. Otherwise one visit is appended, stamped with the scan time rather than `now`. The user's counters and `updated_at` follow the modulo rule. The reply repeats the stored counters, 1 point earned, the reward flag, and the one-visit-away flag. Only the visits' id sequence advances. The cycle invariant is kept. |
| `Rewards.ModuloRuleKeepsCycle` | server/src/handlers/handle_pass_scan_webhook.ts:32-40 | From points = visits mod 5, the webhook's rule stays in cycle with points below 5. |
| `Rewards.RulesAgree` | server/src/handlers/handle_pass_scan_webhook.ts:37-40 | While points = visits mod 5, the two handlers compute identical counters and reward flags. |
| `Rewards.OneVisitAway` | server/src/handlers/handle_pass_scan_webhook.ts:67-68 | `5 - (points % 5) === 1` holds iff points mod 5 is 4, that is, the next visit completes the cycle. |
| `Rewards.StatsWithThreshold` | server/src/handlers/get_user_with_stats.ts:24-27 | Eligible iff points >= 5. The visits still needed are never negative, are 0 iff eligible, and are 5 - points otherwise. For points in [0,4] they lie in [1,5]. |
| `Rewards.StatsWithMax` | server/src/handlers/get_user_by_id.ts:23-24 | Eligible iff points >= 5. The visits still needed are max(0, 5 - points). |
| `Rewards.ProjectionsAgree` | server/src/handlers/get_user_by_id.ts:23-24 | The two projections, written differently, are equal for every integer number of points. |
| `Store.Database.GetUserWithStats` | server/src/handlers/get_user_with_stats.ts:12-41 | Null iff no user has the id. Otherwise the stored row unchanged, plus the threshold projection of its points. Being a function, it cannot write. |
| `Store.Database.GetUserById` | server/src/handlers/get_user_by_id.ts:11-30 | Null iff no user has the id. Otherwise the stored row plus eligibility (points >= 5) and a non-negative max(0, 5 - points). |
| `Store.Database.ByIdAgreesWithStats` | server/src/handlers/get_user_by_id.ts:23-30 | getUserById and getUserWithStats return the same view for every id. |
| `Store.AssignSerial` | server/src/handlers/update_user_pass_serial.ts:11-14 | The row gets exactly the given serial and `updated_at = now`. Every other field is as before. |
| `Store.Database.UpdateUserPassSerial` | server/src/handlers/update_user_pass_serial.ts:10-23 | A missing id fails with "User with id N not found" and changes nothing. Otherwise that user's serial is overwritten (the empty string included) and returned. Other users, visits, notifications and all id sequences are unchanged. |
| `Store.Database.HandlePassCreationWebhook` | server/src/handlers/handle_pass_creation_webhook.ts:10-23 | The payload arrives typed by the webhook schema, so its pass type is one of the two wallets. Its effect is the same state equation as UpdateUserPassSerial with the payload's user id and serial. The URL and pass type are not stored. A missing user fails with "User with ID N not found" and changes nothing. |
| `Store.Database.GetUserByPhone` | server/src/handlers/get_user_by_phone.ts:9-23 | Null iff no row has exactly that phone number. Otherwise a stored row with that phone. |
| `Store.Database.PhoneMatchIsUnique` | server/src/db/schema.ts:9 | Phone numbers are unique, so the row returned is the only user with that phone. |
| `Schema.Error.Message` | server/src/handlers/update_user_pass_serial.ts:20 | The text each handler throws. A serial failure's text ends with the serial. An id failure's text has `IntToString(id)` between "User with id " (or "ID") and " not found". |
| `Schema.IntToString` | server/src/handlers/update_user_pass_serial.ts:20 | `${n}` for an integer: there is a leading '-' exactly when n is negative, and the remaining digits denote |n|, so the rendered id reads back to the id. |
| `Schema.MessageIdentifiesSubject` | server/src/handlers/record_visit.ts:23 | Two failures of the same kind with equal messages are about the same serial or the same user id. |
| `Store.Database.CreateRewardNotification` | server/src/handlers/create_reward_notification.ts:8-15 | A user id with no user fails with a foreign-key violation and changes nothing. Otherwise one row is appended: a fresh larger id, the user id, sent at `now`, unclaimed, with a null claim time. There is no deduplication. Only the notifications' id sequence advances. Users and visits are unchanged. |
| `Store.Claimed` | server/src/handlers/claim_reward.ts:11-14 | A claimed row has the flag set and the claim time `now`. Its id, user and sent time are kept. |
| `Store.Database.ClaimReward` | server/src/handlers/claim_reward.ts:10-23 | A missing id fails with "Reward notification not found" and changes nothing. Otherwise only that row becomes claimed at `now`, whether or not it was claimed before, and it is returned. No id sequence moves. |
| `Store.ClaimTwice` | server/src/handlers/claim_reward.ts:10-17 | Claiming twice equals claiming once at the later time. The two states differ only in the claim time. |
| `Listing.SelectDesc` | server/src/handlers/get_user_visits.ts:9-13 | `where p order by key desc` returns exactly the matching rows, with their multiplicities, in non-increasing key order, and nothing when no row matches. |
| `Store.Database.GetUserVisits` | server/src/handlers/get_user_visits.ts:9-15 | Every returned visit belongs to the user. All of the user's visits are returned, as a multiset. They come newest first, and the list is empty for a user with no visits. |
| `Store.Database.GetUserRewardNotifications` | server/src/handlers/get_user_reward_notifications.ts:9-15 | The same as the visit listing, for notifications ordered by sent time. Rows keep their stored claim state. |
| `Text.TrimEmptyIffBlank` | server/src/handlers/trigger_pass_update.ts:16 | `s.trim() === ''` holds exactly when every character is JavaScript white space. |
| `PassAdapters.TriggerPassUpdate` | server/src/handlers/trigger_pass_update.ts:16-50 | The guards run in order: a blank serial, then negative points, then negative visits. Only the first failing guard is reported. Otherwise it succeeds with "Pass <serial> updated successfully", and zero values are accepted. |
| `PassAdapters.TriggerPassCreation` | server/src/handlers/trigger_pass_creation.ts:28-50 | A blank name or phone reports missing fields. This takes precedence over userId <= 0, which reports an invalid userId. Otherwise it succeeds with the generated serial. A serial is present iff the call succeeds. |
| `Validation.CreateUserInputIssues` | server/src/schema.ts:20-24 | Input is accepted iff both names are non-empty (white space alone passes) and the phone matches the format. Each field's message is reported iff that field fails. |
| `Validation.PhoneFormatByPosition` | server/src/schema.ts:23 | The phone regex accepts s iff s is non-empty and not "+", a '+' appears only first, and every other character is a digit, white space, '-', '(' or ')'. |
| `Validation.PhoneRejects` | server/src/schema.ts:23 | The phone is rejected when it contains a letter, an interior '+' or any other outside character, and when it is "" or "+". |
| `Validation.RecordVisitInputIssues` | server/src/schema.ts:41-43 | The serial is accepted iff it is non-empty. Otherwise the single message is "Pass serial number is required". |
| `Validation.ParsePassType` | server/src/schema.ts:63 | A raw `pass_type` names a wallet iff it is "apple" or "google", and the wallet's name is that string. |
| `Validation.PassTypeRoundTrip` | server/src/schema.ts:63 | Each wallet's name parses back to that wallet. |
| `Validation.ParsePassCreationPayload` | server/src/schema.ts:59-64 | The webhook payload is accepted iff `pass_type` is "apple" or "google". The number and the two strings pass through unchanged. |
| `Translation.Lookup` | client/src/components/i18n.ts:128 | It gives the table's entry for the key when that entry is present and non-empty, and the key itself otherwise. |
| `Translation.ReplaceFirst` | client/src/components/i18n.ts:132 | With no occurrence the text is unchanged. Otherwise only the first occurrence, found by `indexOf`, is replaced, and the text after it is kept as it was. |
| `Translation.ReplaceAll` | client/src/components/useTranslation.tsx:163 | Global replacement of a literal placeholder, scanning left to right. Replacing the pattern with itself returns the text unchanged. A value as long as the pattern keeps the length. |
| `Translation.ReplaceAllContinues` | client/src/components/useTranslation.tsx:163 | The global replacement replaces the first occurrence and then goes on replacing in the rest of the text. With no occurrence it leaves the text unchanged. |
| `Translation.ReplaceOnceAgrees` | client/src/components/useTranslation.tsx:163 | When the placeholder occurs at most once, the global replacement and the first-occurrence replacement agree. |
| `Translation.NoPlaceholdersUnchanged` | client/src/components/i18n.ts:130-134 | A template without `{{` comes back unchanged, whatever the parameters, under both interpolations. |
| `I18n.Supported` | client/src/components/i18n.ts:120-122 | A code names a table iff it is "en" or "es". |
| `I18n.InitialLanguage` | client/src/components/i18n.ts:115-125 | The saved language if it is supported. Otherwise the browser tag's first two characters, if supported (case-sensitive). Otherwise English. |
| `I18n.SavedChoiceWins` | client/src/components/i18n.ts:139-142 | A language saved by changeLanguage is the one the next construction starts in, whatever the browser says. |
| `I18n.SimpleI18n.constructor` | client/src/components/i18n.ts:113-125 | The current language is the initial choice above. |
| `I18n.SimpleI18n.Translate` | client/src/components/i18n.ts:127-137 | The result is the looked-up template with each parameter, in order, replacing the first occurrence of its placeholder. The loop is proved against `InterpolateFirst`. |
| `I18n.SimpleI18n.ChangeLanguage` | client/src/components/i18n.ts:139-146 | Afterwards `getCurrentLanguage()` returns the new language, and the language code is saved. |
| `UseTranslation.InitialLanguage` | client/src/components/useTranslation.tsx:135-148 | The result is always "en" or "es". A saved "en" or "es" wins. Otherwise it is "es" iff the lower-cased browser tag starts with "es". |
| `UseTranslation.ReloadKeepsChoice` | client/src/components/useTranslation.tsx:150-153 | After changeLanguage saves a value and the page reloads, the hook starts in that value iff it is "en" or "es". |
| `UseTranslation.TranslationHook.constructor` | client/src/components/useTranslation.tsx:135-148 | The language state starts at the initial choice above. |
| `UseTranslation.TranslationHook.ChangeLanguage` | client/src/components/useTranslation.tsx:150-153 | Any string becomes the language and is saved. |
| `UseTranslation.TranslationHook.Translate` | client/src/components/useTranslation.tsx:156-168 | A language without a table fails, as the TypeError does. Otherwise the result is the looked-up template with each parameter, in order, replacing every occurrence of its placeholder in the text produced so far. The loop is proved against `InterpolateAll`. |

## Left out

- The RPC router, HTTP server, CORS and environment settings (server/src/index.ts) are plumbing. Input validation is modelled on its own in `Validation`.
- server/src/handlers/trigger_reward_notification.ts only declares a function with no body, so it has no behaviour to model.
- The React UI (App.tsx, LanguageSelector.tsx, LanguageSwitcher.tsx), device sniffing and the progress-bar arithmetic are not part of this model.
- The adapters' `setTimeout` delays, all `console` logging, and the catch-log-rethrow wrappers are left out. The adapters' catch branches ("system error" replies) cannot be reached in the model, because nothing in it throws.
- The pass serial that triggerPassCreation builds from `Date.now()` and `Math.random()` is a parameter (`generatedSerial`).
- The wall clock is a parameter `now`. Whether `updated_at` moves forward depends on the caller supplying a later `now`. The model does not assume a monotone clock.
- Concurrency is not modelled. Each handler runs alone. The visit insert and the user update are separate statements in the source, and no atomicity is claimed.
- PostgreSQL gives no row order without `order by`. The model reads "the first user with this serial" and the order of equal timestamps in the listings in insertion order.
- A PostgreSQL sequence also consumes an id when an insert fails. In the model a failed insert does not advance the sequence. Ids are still fresh and increasing.
- The texts of the database's own unique and foreign-key violation errors are not modelled, only their kind.
- Counters are natural numbers. Negative stored counters (for which JavaScript `%` differs from Dafny's) and 32-bit integer overflow are not modelled. JavaScript ids and numbers are integers here, with no fractions or NaN.
- The visit columns' defaults (`reward_points_earned = 1`, `is_reward_visit = false`) are not modelled separately: both handlers always supply both values.
- Date parsing of `scanned_at` is left out. The method receives the parsed time, or `None` when parsing fails. The optional `location` field is ignored by the source and is not a parameter.
- The translation tables' contents are constructor arguments. The literal strings of the two translation files are not reproduced.
- `window.location.reload()` is represented by `UseTranslation.ReloadKeepsChoice`. Local storage is represented by the `storedLanguage` fields.
- Parameter values are strings already converted with `String(...)`. Number formatting is left out.
- I18n.SimpleI18n.Translate: values containing '$' are excluded, because `String.prototype.replace` reads '$' patterns in the replacement. Parameter order is the given sequence; JavaScript would list integer-like names first.
- UseTranslation.TranslationHook.Translate: parameter names must be word characters and not all digits, because the name becomes part of a regular expression. Values containing '$' are excluded, as above.
- Inherited object properties are not modelled. For example, a saved language or a key such as "constructor" is truthy on a plain JavaScript object. The model treats only "en"/"es" and the table's own keys as present.
- Strings are sequences of Unicode scalar values, not UTF-16 code units. This only matters for characters outside the Basic Multilingual Plane in length checks and `substring`.
