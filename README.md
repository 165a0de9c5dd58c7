# Gemini chat front-end: OTP simulator, conversation store, form schemas, date labels

This project models, in Dafny, the four pieces of logic under the chat application's UI:

- **OTP simulator** (`src/lib/otp-simulator.ts`) — a table from phone number to
  `{phone, otp, expiresAt, attempts}`. `sendOTP` checks the phone length and the resend
  cooldown, then stores a fresh six-digit code valid for ten minutes; `verifyOTP` checks
  expiry, then the attempt limit, then the code, deleting the record on success, expiry or
  lockout and counting a wrong guess otherwise; `cleanupExpiredOTPs` deletes expired records.
  Modelled as the class `OtpSimulator.OtpRegistry` over a `map<string, OtpData>`, with the
  clock as an integer-millisecond `now` argument and `generateOTP` as a nondeterministic
  choice of an integer in [100000, 999999] rendered in base 10. The invariant `Valid()`
  (every record keyed by its own phone, holds a six-digit code without a leading zero, and
  has at most three attempts) is kept by every operation. `OtpScenarios` replays whole
  sessions on a fresh table.
- **Conversation store** (`src/store/index.ts`) — the single aggregate of authentication
  flag, user, chat rooms, current room, messages, loading flag and dark mode, with one method
  per action of the class `ConversationStore.Store`. Every method states the new value of
  every field. Room filtering and the per-message room update are functions with their
  own lemmas. `partialize` is `Store.Persisted`.
- **Form schemas** (`src/lib/validations.ts`) — each zod field schema is the list of checks
  it declares (`min`, `max`, `length`, `regex`, `email`), interpreted by `Validations.Issues`
  (one message per failing check). Each regular expression is an anchored character-class
  pattern matched character by character. Lemmas tie every schema to a direct statement
  of the strings it accepts.
- **Date labels** (`src/utils/dateUtils.ts`) — `safeDate`, `safeFormatTime`,
  `safeFormatDate`, `isValidDate` over a small model of JavaScript values. Dates are time
  values in milliseconds or NaN, and `new Date(number)` is TimeClip of ECMA-262. The host's
  date-string parser and `toLocaleDateString` are function parameters.

`Decimal` models `Number.prototype.toString()` on non-negative integers. Five places use it:
the OTP generator, the clock-derived ids of rooms and messages, the `"<h>h ago"` label, the
remaining-attempts count of a mismatched code and the wait in the cooldown message.

Where the code does something other than one might expect, the model follows the code:

- The resend cooldown covers the **first** minute after issuance (`expiresAt − 9 min`), not
  the last minute of the window, and not nine minutes.
- After three wrong codes the record is still there with `attempts = 3`. The fourth
  verification, even with the right code, reports "Maximum attempts exceeded" and deletes
  the record. Only a fifth reports "not found" (`OtpScenarios.LockoutAfterThreeMisses`).
- `deleteChatRoom` never clears the messages, even when the deleted room was on screen
  (see Findings).

## Model

| member | source | states |
|---|---|---|
| `Decimal.DecimalString` | src/lib/otp-simulator.ts:24 | `toString()` of a non-negative integer is non-empty, digits only, and begins with '0' only for zero |
| `Decimal.ParseDecimalString` | src/lib/otp-simulator.ts:24 | reading the rendered numeral back gives the number (round trip) |
| `Decimal.DecimalStringOfParse` | src/lib/otp-simulator.ts:24 | a canonical digit string is the rendering of its own value (the other direction of the round trip) |
| `Decimal.DecimalStringInjective` | src/store/index.ts:113 | distinct clock readings give distinct ids, and equal readings give equal ids |
| `Decimal.DecimalStringLength` | src/lib/otp-simulator.ts:24 | a number in [10^k, 10^(k+1)) renders with exactly k+1 characters |
| `Validations.MatchesCharacterwise` | src/lib/validations.ts:8 | an anchored `^[class]+$` / `^[class]{n}$` pattern matches iff the length is admitted and every character is in the class |
| `Validations.AcceptsIffAllPass` | src/lib/validations.ts:4-22 | a field reports no issue iff every declared check passes |
| `Validations.AcceptsThree` | src/lib/validations.ts:5-8 | a three-check field is accepted iff each of its three checks passes |
| `Validations.NameChecksSpec` | src/lib/validations.ts:5-8 | name accepted iff length 2..50 and every character an ASCII letter or JavaScript whitespace |
| `Validations.EmailChecksSpec` | src/lib/validations.ts:10-13 | email accepted iff length 5..100 and the library's format test holds |
| `Validations.PhoneChecksSpec` | src/lib/validations.ts:15-18 | phone accepted iff length 10..15 inclusive and all characters 0-9 |
| `Validations.CountryCodeChecksSpec` | src/lib/validations.ts:20-21 | country code accepted iff non-empty |
| `Validations.OtpChecksSpec` | src/lib/validations.ts:37-39 | OTP accepted iff exactly six characters, all digits |
| `Validations.TitleChecksSpec` | src/lib/validations.ts:55-58 | room title accepted iff length 3..50 and each character a letter, digit, whitespace, '-' or '_' |
| `Validations.ChatroomSchemaSpec` | src/lib/validations.ts:54-59 | chatroomSchema accepts exactly the valid titles |
| `Validations.SignupSchemaSpec` | src/lib/validations.ts:4-22 | the sign-up form is accepted iff each of its four fields is valid |
| `Validations.LoginAndPhoneSchemasAgree` | src/lib/validations.ts:25-51 | loginSchema and phoneSchema accept exactly the same forms: a valid phone and a non-empty country code |
| `Validations.PhoneUpperBoundInclusive` | src/lib/validations.ts:17 | a 15-digit phone is accepted and a 16-digit one refused, despite the "less than 15" message |
| `OtpSimulator.InCooldownAt` | src/lib/otp-simulator.ts:32-33 | the `expiresAt − 9 min` cut-off means: less than one minute since issuance |
| `OtpSimulator.CooldownPrecedesExpiry` | src/lib/otp-simulator.ts:28-34 | a cooling record is unexpired, and a record a minute old or older no longer cools down |
| `OtpSimulator.Unexpired` | src/lib/otp-simulator.ts:154-161 | the sweep keeps exactly the records with `now <= expiresAt`, unchanged |
| `OtpSimulator.SweepPreservesVerifiable` | src/lib/otp-simulator.ts:154-161 | a sweep never changes whether a verification at the same instant succeeds |
| `OtpSimulator.SweepsCompose` | src/lib/otp-simulator.ts:154-161 | a sweep at t1 followed by one at t2 >= t1 equals a single sweep at t2 |
| `OtpSimulator.CooldownOutlastsItsMessage` | src/lib/otp-simulator.ts:50-53 | the announced wait is always "1" second, while a code issued at t still cools down at t + 1 s |
| `OtpSimulator.RemainingCooldownSeconds` | src/lib/otp-simulator.ts:50 | the evidently intended wait: at least 1 s, waiting it ends the cooldown, one second less does not, at most 60 s |
| `OtpSimulator.GenerateOtp` | src/lib/otp-simulator.ts:23-25 | the code is six digits with no leading zero, its value lies in [100000, 999999], and otpSchema accepts it |
| `OtpSimulator.GeneratedCodeShape` | src/lib/otp-simulator.ts:24 | the numerals of [100000, 999999] are exactly the six-digit strings without a leading zero |
| `OtpSimulator.SchemaPhonePassesLengthCheck` | src/lib/otp-simulator.ts:40 | every phone the forms accept passes `sendOTP`'s length check |
| `OtpSimulator.OtpRegistry.constructor` | src/lib/otp-simulator.ts:12 | the table starts empty and valid |
| `OtpSimulator.OtpRegistry.IsInCooldown` | src/lib/otp-simulator.ts:28-34 | cooldown holds iff a record exists and was issued less than a minute before `now` |
| `OtpSimulator.OtpRegistry.Status` | src/lib/otp-simulator.ts:140-151 | absent iff no record; otherwise the record's expiry and attempts, at most three in a valid table |
| `OtpSimulator.OtpRegistry.SendOtp` | src/lib/otp-simulator.ts:37-88 | short phone: fails, table unchanged; cooldown: fails, record untouched; otherwise stores exactly `{phone, code, now + 10 min, 0}` and returns that same code; other phones untouched |
| `OtpSimulator.OtpRegistry.VerifyOtp` | src/lib/otp-simulator.ts:91-137 | success iff the record exists, is unexpired, has fewer than 3 attempts and matches; each failure branch's message and effect (delete on expiry or lockout, attempts + 1 and `3 − attempts` remaining on mismatch); other phones untouched |
| `OtpSimulator.OtpRegistry.CleanupExpired` | src/lib/otp-simulator.ts:154-161 | the loop leaves exactly the unexpired records |
| `OtpScenarios.VerifyIsSingleUse` | src/lib/otp-simulator.ts:99-119 | the issued code verifies once; a second verification reports "not found" |
| `OtpScenarios.LockoutAfterThreeMisses` | src/lib/otp-simulator.ts:110-127 | three misses report 2, 1, 0 remaining and leave attempts = 3; the fourth, with the right code, is locked out; the fifth finds nothing |
| `OtpScenarios.ResendAfterOneMinute` | src/lib/otp-simulator.ts:28-34 | a resend 1 ms before the minute is refused; at the minute it succeeds and replaces the record |
| `ConversationStore.WelcomeText` | src/store/index.ts:81-95 | the nameless greeting is used iff the user has no name or an empty one; otherwise the greeting is "Hello ", the name, then "! "; both end with the same welcome sentence |
| `ConversationStore.RoomsWithout` | src/store/index.ts:128 | the kept rooms are exactly the input rooms with another id |
| `ConversationStore.RoomsWithoutConcat` | src/store/index.ts:128 | filtering distributes over concatenation, so kept rooms stay in their order |
| `ConversationStore.RoomsWithoutAbsent` | src/store/index.ts:128 | deleting an id no room has leaves the list unchanged |
| `ConversationStore.RoomsWithoutIdempotent` | src/store/index.ts:126-138 | deleting the same id twice equals deleting it once |
| `ConversationStore.DeleteNeverClearsMessages` | src/store/index.ts:129-136 | for every state, the as-written guard keeps the messages |
| `ConversationStore.MessagesAfterDeleteIntended` | src/store/index.ts:136 | the evidently intended guard clears the messages iff the deleted room was on screen |
| `ConversationStore.DeleteGuardDiffersFromIntended` | src/store/index.ts:129-136 | for every state, the as-written and intended guards differ exactly when the deleted room was on screen and messages were shown |
| `ConversationStore.DeleteOpenRoomDiscrepancy` | src/store/index.ts:129-136 | deleting the room on screen keeps its message as written and clears it as intended |
| `ConversationStore.RoomsWithMessage` | src/store/index.ts:164-173 | the room list keeps its length, ids, titles and creation times |
| `ConversationStore.RoomsWithMessageUnread` | src/store/index.ts:170 | unread count grows by 1 exactly for AI messages in rooms matching the current room |
| `ConversationStore.RoomsWithMessageNoCurrent` | src/store/index.ts:165 | with no current room, no room changes |
| `ConversationStore.RoomsWithMessageTouchesOnlyCurrent` | src/store/index.ts:164-173 | matching rooms get the last message and its time; all other rooms are unchanged |
| `ConversationStore.Store.constructor` | src/store/index.ts:66-73 | the initial state: signed out, no rooms, no messages, light theme |
| `ConversationStore.Store.Persisted` | src/store/index.ts:192-198 | persistence keeps auth, user, rooms, current room and dark mode, and drops messages and loading |
| `ConversationStore.Store.Login` | src/store/index.ts:76-97 | authenticated with the user; messages are exactly the AI welcome with id "welcome"; rooms, current room, loading and theme unchanged |
| `ConversationStore.Store.Logout` | src/store/index.ts:99-108 | signed out, user, rooms, current room and messages cleared, not loading; theme kept |
| `ConversationStore.Store.CreateChatRoom` | src/store/index.ts:111-124 | one room prepended (clock id, unread 0, no last message), old rooms follow in order, it becomes current, messages emptied |
| `ConversationStore.Store.DeleteChatRoom` | src/store/index.ts:126-139 | rooms with the id removed, others kept in order; if the deleted room was current, the first remaining room or none; messages never change |
| `ConversationStore.Store.SelectChatRoom` | src/store/index.ts:141-146 | the given room becomes current and messages are emptied; rooms untouched |
| `ConversationStore.Store.ClearCurrentChatRoom` | src/store/index.ts:148-150 | only the current room changes, to none |
| `ConversationStore.Store.AddMessage` | src/store/index.ts:152-175 | exactly one message appended; rooms updated per `RoomsWithMessage`; with no current room no room changes; current room object itself unchanged |
| `ConversationStore.Store.ClearMessages` | src/store/index.ts:177-179 | messages emptied; the persisted part and loading flag unchanged |
| `ConversationStore.Store.SetLoading` | src/store/index.ts:181-183 | only the loading flag changes |
| `ConversationStore.Store.ToggleDarkMode` | src/store/index.ts:186-188 | the theme flag is negated, all else unchanged |
| `ConversationStore.ToggleTwiceIsIdentity` | src/store/index.ts:186-188 | two toggles restore every field |
| `DateUtils.Truncate` | src/utils/dateUtils.ts:21 | rounding toward zero: the integer with the sign of r, no farther from zero than r, and less than 1 from it |
| `DateUtils.TimeClip` | src/utils/dateUtils.ts:20-22 | `new Date(number)` is valid iff the number is finite and within ±8.64e15 ms, and then holds the number rounded toward zero |
| `DateUtils.SafeDate` | src/utils/dateUtils.ts:10-26 | a Date comes back unchanged; a string gives the parsed Date iff it parses, else null; a number gives its TimeClip iff that is valid, else null; anything else gives null; only a Date passed in can come out with a NaN time |
| `DateUtils.IsValidDate` | src/utils/dateUtils.ts:84-86 | true iff the value is a Date, a string the host parses, or a finite number within range |
| `DateUtils.IsValidDateIntended` | src/utils/dateUtils.ts:84-86 | the intended check: as written, minus Invalid Date objects |
| `DateUtils.InvalidDateObjectPasses` | src/utils/dateUtils.ts:84-86 | an Invalid Date object passes `isValidDate` as written |
| `DateUtils.FloorHoursBuckets` | src/utils/dateUtils.ts:42 | the floored hour count crosses 1, 24, 48 exactly when the age crosses 1, 24, 48 hours |
| `DateUtils.FormatAge` | src/utils/dateUtils.ts:40-52 | age < 1 h, future times included: "Just now"; 1–24 h: "<h>h ago" with 1 <= h <= 23; 24–48 h: "Yesterday"; older: the locale date |
| `DateUtils.HoursLabelReadsBack` | src/utils/dateUtils.ts:47 | the "h ago" label's numeral reads back as the hour count and has one or two digits |
| `DateUtils.SafeFormatTime` | src/utils/dateUtils.ts:34-57 | fallback when no Date comes out; "Invalid Date" for an Invalid Date object; "Just now" for ages under an hour; otherwise the age bucket of `FormatAge` |
| `DateUtils.DefaultFallbackDistinguishesBadInputs` | src/utils/dateUtils.ts:34-38 | with the default fallback, an unparseable string reads "Invalid date" and an Invalid Date object "Invalid Date", which differ |
| `DateUtils.SafeFormatDate` | src/utils/dateUtils.ts:65-77 | fallback when no Date comes out; otherwise the locale date ("Invalid Date" for NaN) |
| `DateUtils.FallbackOnlyWithoutDate` | src/utils/dateUtils.ts:35-38 | whenever a Date comes out, neither formatter depends on the fallback |
| `DateUtils.OldDatesFormatAlike` | src/utils/dateUtils.ts:48-52 | for dates two days old or more, and Invalid Dates, both formatters give the same text |

## Findings

| source | as written | input that shows it | evidently intended | confidence | as-written member | corrected member |
|---|---|---|---|---|---|---|
| src/store/index.ts:136 | messages are cleared only if the NEW current room's id equals the deleted id, which can never hold | one room "1", on screen, showing one message; `deleteChatRoom("1")` keeps the message | clear the messages when the deleted room was the one on screen | high; not executed | `ConversationStore.DeleteOpenRoomDiscrepancy` | `ConversationStore.MessagesAfterDeleteIntended` |
| src/lib/otp-simulator.ts:50 | the wait is `ceil(1 * 60 / 1000)`, so the message always says "1 seconds" | issue at t; a resend at t + 1 s is still refused | the seconds left until the one-minute cooldown ends (1..60) | high; not executed | `OtpSimulator.CooldownOutlastsItsMessage` | `OtpSimulator.RemainingCooldownSeconds` |
| src/utils/dateUtils.ts:85 | a Date object whose time value is NaN counts as valid | `isValidDate(new Date("nonsense"))` is true | false for an Invalid Date | medium; not executed | `DateUtils.InvalidDateObjectPasses` | `DateUtils.IsValidDateIntended` |

The store and simulator operations keep the behaviour as written (`Store.DeleteChatRoom`
keeps the messages, `SendOtp` announces one second). The corrected definitions stand beside
them with their properties proved.

## Left out

- React components, pages, routing, toasts, the country API client and the generative-AI wrapper: none of them is part of this model.
- The persistence adapter (localStorage and JSON with a Date replacer): I/O. Only `partialize` is modelled.
- `setInterval(cleanupExpiredOTPs, 5 min)`: scheduling. Only the sweep itself is modelled.
- Console logging and the `try`/`catch` branches returning "An unexpected error occurred" (or the fallback in the date formatters): nothing in the modelled code throws.
- `OtpSimulator.GenerateOtp`: does not state that the draw is uniform. `Math.random` is a nondeterministic choice of an integer in [100000, 999999], and the floating-point `floor(100000 + r * 900000)` is not modelled.
- `OtpSimulator.OtpRegistry.SendOtp`: reads the clock once. The source reads it twice, in `isInCooldown` and for `expiresAt`.
- `ConversationStore.Store.AddMessage`, `ConversationStore.Store.CreateChatRoom`: ids are modelled only for non-negative clock readings (`now: nat`); a clock before 1970 would render with a minus sign. `Date.now()` and `new Date()` are one `now` argument. Ids come from the clock and may collide; the model does not assume they are unique.
- Dates are values (integer milliseconds), not shared mutable objects. No code in the core mutates a Date, so aliasing does not matter. `currentChatRoom` is a copy of a room, as in the source, and `addMessage` does not update it.
- `Decimal.DecimalString`: JavaScript renders numbers of 10^21 and above in exponent form. No clock reading, hour count or attempt count reaches that.
- String lengths are counted in code points, while zod counts UTF-16 code units. Accept or reject agrees for every field but email, because the character-class checks refuse any character outside the Basic Multilingual Plane. The reported messages can differ for any field holding such a character: the name "😀" is 1 code point but 2 code units, so zod reports only the regex message while `Validations.Issues` also reports "Name must be at least 2 characters".
- zod's `.email()` format test, the host's `new Date(string)` parser and `toLocaleDateString` are function parameters, uninterpreted.
- `safeDate` tells apart only Date, string, number and "anything else". Booleans, objects, null and undefined all fall in the last group and give null.
- `safeFormatTime`: the floating-point `Math.floor(diff / 3600000)` is floor division on integers. The two agree on the bucket thresholds; they could differ only in the hour count of ages past about 2^31 hours, which falls in the locale-date bucket either way.
