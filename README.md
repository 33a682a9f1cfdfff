# Sales-report chat bot: session and command model

This project models the core of a Telegram bot that logs a user in to a sales-reporting HTTP API and
relays sales reports. The core is the `message` handler of `Bot.js` and the helpers it calls. The bot
keeps three module-level variables: `accessToken`, `tokenExpiry` and `userCredentials` (a login ID
and a password).

Each incoming message is trimmed and lower-cased. It is then checked in this order:

1. the fixed commands `/start`, `/command` and `logout`;
2. `login`;
3. credential collection, which fills the login ID, then the password, and then starts a login;
4. once both fields are filled, command dispatch.

Command dispatch recognises the report phrases and `schedule report {type} {HH:MM}`,
`show scheduled reports` and `delete scheduled report {n}`.

The project has these modules:

- `JsText` (`js_text.dfy`): the JavaScript string built-ins the handler uses. These are `trim` with
  ECMAScript's whitespace set, `toLowerCase`, `startsWith`, and `split` on a one-character separator
  (with its inverse `Join`).
- `JsNumber` (`js_number.dfy`): `parseInt(s, 10)` on exact integers, with NaN as `None`.
- `Commands` (`commands.dfy`): the pure parts of the handler. These are the greeting chosen from the
  hour, the report phrases, the query suffix built from a filter, and the validation of the schedule
  and delete commands. `Classify` gathers the whole dispatch chain into one closed `Command` value.
- `Session` (`session.dfy`): the state as a value (`BotState`). `Step` is what one message does to it
  and the action it sets off. `AfterLogin` is what the end of a login request does to it. The
  properties of the session and credential state machine are lemmas about these two functions.
- `TelegramBot` (`bot.dfy`): the class `Bot`, holding the three variables as fields.
  `HandleMessage` runs the handler's if/else-if chain in place. `CompleteLogin` applies the end of a
  login request. Each method is proved to make exactly the transition of `Step` or `AfterLogin`.

The side effects are returned as an `Action` value: a reply, a login attempt with these credentials,
a report request with this query suffix (after a refresh login when the token is stale), or a call
into `scheduleReport`, `showScheduledTasks`, `deleteScheduledTask`, `logout` or `sendCommandList`.
A `TypeError` thrown by the handler is the action `Crash`.

Inputs from outside the handler are parameters:

- the clock: `now`, in milliseconds;
- the hour of the local clock: `hour`;
- the outcome of the login request: `LoginResult`.

### Behaviour of Bot.js that the model makes explicit

- **Commands during collection.** While credentials are being collected, `/start`, `/command`,
  `logout` and `login` are still tested first. They are never stored as a login ID or password
  (`FixedCommandsWin`, `LoginCommand`).
- **Collection without `login`.** Whenever the login-ID field is empty, any other message is captured
  as the login ID. This includes the very first message and the message after a failed refresh
  login, whether or not a token is held (`OneFieldPerMessage`, `FailedLoginRestartsCollection`).
- **Failed login.** A failed login clears only the credentials. `accessToken` and `tokenExpiry` keep
  their old values (`AfterLogin`), so a stale token that survives a failed refresh still makes
  `login` answer "already logged in".
- **Report after a failed refresh.** `getSalesReport` sends its request after the refresh login
  however that login ends. The model records only that the refresh login comes first
  (`FetchReport.refreshLogin`).
- **Loose prefix matching.** `schedule report` and `delete scheduled report` are prefix matches on
  the text. Their arguments are positional words of a split on single spaces. So words after the
  time are ignored, and a doubled space changes which word is taken (`ScheduleAcceptsWellFormed`,
  `ScheduleRejectsMalformed`, `DeleteAcceptsEveryInteger`).
- **The time is not range-checked.** The pattern `^\d{2}:\d{2}$` accepts any two-digit hour and
  minute, for example `99:99` (`ClockPatternAccepts`).

## Model

| member | source | states |
|---|---|---|
| `JsText.Trim` | Bot.js:155 | The result has no whitespace at either end. It is the input with an all-whitespace prefix and suffix removed. |
| `JsText.TrimPadded` | Bot.js:155 | Any whitespace padding around a string whose ends are not whitespace is removed exactly. Trim therefore hands back the text the user typed. |
| `JsText.TrimIdempotent` | Bot.js:189 | Trimming a stored credential again does not change it. |
| `JsText.TrimEmpty` | Bot.js:189 | A message trims to "" exactly when it is all whitespace. Only such a message leaves the login-ID field empty. |
| `JsText.Lower` | Bot.js:155 | Lower-casing keeps the length and maps each character independently. |
| `JsText.LowerIdempotent` | Bot.js:155 | Lower-cased text has no ASCII upper-case letter, and lower-casing it again does not change it. |
| `JsText.StartsWithAppend` | Bot.js:210 | `startsWith` holds of a text followed by anything, so every text built on a command prefix takes that prefix's branch. |
| `JsText.StartsWithShorter` | Bot.js:229 | A text that starts with a longer prefix also starts with each front part of it. |
| `JsText.Split` | Bot.js:211 | `split(" ")` yields at least one piece, and no piece contains the separator. |
| `JsText.JoinSplit` | Bot.js:211 | Joining the pieces of a split with the separator gives back the original text. |
| `JsText.SplitJoin` | Bot.js:230 | Splitting words that contain no separator, joined by it, gives back the same words in order. |
| `JsText.SplitAfterWord` | Bot.js:211 | The first separator ends the first piece. The rest of the text splits on its own. |
| `JsNumber.ParseIntShowInt` | Bot.js:231 | `parseInt(…, 10)` reads back every integer, negative and zero included. Any text after the digits that does not start with a digit is ignored. |
| `JsNumber.ParseIntSkipsWhitespace` | Bot.js:231 | Leading whitespace never changes what `parseInt` returns. |
| `JsNumber.ParseInt` | Bot.js:231-232 | `parseInt(…, 10)` is NaN exactly when no decimal digit follows the leading whitespace and the optional sign. |
| `JsNumber.ParseIntDigits` | Bot.js:231 | An optional "+" or "-", a run of decimal digits (leading zeros allowed) and any continuation that does not start with a digit read as the number the digits denote, with that sign. So "+3" is 3 and "007" is 7. |
| `JsNumber.ParseIntUndefined` | Bot.js:231 | A missing fourth word, which reaches `parseInt` as "undefined", is NaN. |
| `Commands.Greeting` | Bot.js:82-88 | "Good Morning!" exactly before hour 12, "Good Afternoon!" exactly from 12 to before 18, and "Good Evening!" exactly from 18 on. |
| `Commands.GreetingMonotone` | Bot.js:82-88 | A later hour never gets an earlier greeting of the day. |
| `Commands.WelcomeMessage` | Bot.js:90-93 | The /start reply begins with the greeting for the hour. |
| `Commands.ReportRequest` | Bot.js:200-209 | A text recognised as a report request is exactly the phrase of the filter it is read as. |
| `Commands.ReportRequestIsPhrase` | Bot.js:200-209 | A text is recognised as a request for a filter exactly when it is that filter's phrase: quarterly to quarter, weekly to week, monthly to month, daily to today, and "get sales report" to no filter. |
| `Commands.ClassifyReportPhrase` | Bot.js:200-209 | Each report phrase is dispatched as a request with its own filter. |
| `Commands.QuerySuffix` | Bot.js:102-108 | The suffix is "" exactly when there is no filter. With a filter it begins with "?filter=". |
| `Commands.QuerySuffixRoundTrip` | Bot.js:102-108 | Reading the suffix back gives exactly the filter that was asked for. |
| `Commands.IsClockPattern` | Bot.js:218 | A time that matches `^\d{2}:\d{2}$` is exactly five characters long and contains no space. |
| `Commands.ClockPatternAccepts` | Bot.js:218 | Every pair of two-digit numbers written HH:MM matches `^\d{2}:\d{2}$`. |
| `Commands.ClockPatternDecodes` | Bot.js:218 | Everything that matches the pattern is some HH:MM written with two-digit numbers. |
| `Commands.ScheduleCommand` | Bot.js:211-226 | A schedule command is accepted exactly when its split has a fourth word, its third word is a whitelisted type and its fourth word matches HH:MM. The accepted type and time are those two words. The handler throws exactly when there are three words and the third is whitelisted. |
| `Commands.ScheduleAcceptsWellFormed` | Bot.js:210-226 | "schedule report {type} {HH:MM}" with a whitelisted type is dispatched as exactly that schedule, whatever words follow. |
| `Commands.ScheduleRejectsMalformed` | Bot.js:216-223 | "schedule report {type} {time}" gets the format reply when the type is not whitelisted or the time does not match HH:MM, whatever words follow. |
| `Commands.ScheduleWithoutTime` | Bot.js:216-218 | When the time word is missing, a valid type makes `time.match` throw. An invalid type is rejected before the time is read. |
| `Commands.Classify` | Bot.js:200-239 | Report phrases are matched first and exactly. Schedule and delete results come only from text with their prefixes. "show scheduled reports" is matched exactly. |
| `Commands.ClassifySchedulePrefix` | Bot.js:210 | Every text starting with "schedule report" goes to schedule validation. |
| `Commands.DeleteCommand` | Bot.js:229-232 | With fewer than four words the task number is NaN. With four or more it is exactly `parseInt` of the fourth word. |
| `Commands.DeleteReadsParseInt` | Bot.js:229-236 | For any fourth word, whatever follows it, "delete scheduled report {w}" deletes task `parseInt(w, 10)` when that is a number, and otherwise gets the task-number reply. |
| `Commands.DeleteLooseNumber` | Bot.js:229-236 | A fourth word made of an optional sign, digits with any leading zeros and a tail that does not start with a digit ("+3", "007", "5abc") deletes the task those digits denote, with that sign. |
| `Commands.DeletePlusThree` | Bot.js:229-236 | "delete scheduled report +3" deletes task 3. |
| `Commands.ClassifyDeletePrefix` | Bot.js:229 | Every text starting with "delete scheduled report" goes to the task-number parse. |
| `Commands.DeleteAcceptsEveryInteger` | Bot.js:229-236 | "delete scheduled report {n}" reaches `deleteScheduledTask` with n for every integer n, including 0 and negative numbers. |
| `Commands.DeleteWithoutNumber` | Bot.js:229-233 | Without a fourth word, the delete command gets the task-number reply. |
| `Session.NeedsRefresh` | Bot.js:71 | Without a token a refresh login is always needed. A null expiry, which reads as 0, forces one at every non-negative time. |
| `Session.NormalizeCanonical` | Bot.js:155 | The normalized text has no whitespace at its ends and no ASCII upper-case letter. Normalizing it again does not change it. |
| `Session.AfterLogin` | Bot.js:30-66 | A successful login stores exactly the returned token, with expiry now + 86,400,000 ms, and keeps the credentials. A failed login clears both fields and leaves the token and expiry as they were. |
| `Session.Dispatch` | Bot.js:198-239 | The action is a report request exactly for report commands. Its query names the requested filter. It carries a refresh login with the stored credentials exactly when the token is stale. An accepted schedule command schedules exactly its type and time. A rejected one gets the format reply, and one without a time throws. A delete command deletes exactly its task number. Each other command gets its own reply or call. |
| `Session.Step` | Bot.js:153-241 | The handler never changes the token or the expiry. A message without text throws and changes nothing. |
| `Session.ConsistentPreserved` | Bot.js:181-197 | A password is stored only when a login ID is stored, and a token is held only with an expiry. This holds initially and after every message and every login completion. |
| `Session.FixedCommandsWin` | Bot.js:155-170 | `/start`, `/command` and `logout` leave the whole state unchanged even in the middle of collection, so they are never stored. Each sets off its own action. |
| `Session.LoginCommand` | Bot.js:173-185 | When a token is held, `login` replies "already logged in" and changes nothing. Otherwise it resets both fields to "" and asks for the ID, whatever was collected before. |
| `Session.OneFieldPerMessage` | Bot.js:186-197 | Any other message during collection fills exactly the first empty field, with the trimmed text in its original case. Filling the password sets off one login attempt with the stored credentials. |
| `Session.ReachesDispatch` | Bot.js:157-240 | A message reaches command dispatch exactly when it is neither a fixed command nor `login` and both fields are non-empty. Whether a token is held plays no part. |
| `Session.ScheduleReachesRegistry` | Bot.js:210-226 | A schedule command reaches `scheduleReport` exactly when validation accepts it. It then schedules exactly the accepted type and time: a whitelisted type and a time matching HH:MM. A command without a time throws. A rejected command only gets the format reply. The state is unchanged. |
| `Session.DeleteReachesRegistry` | Bot.js:229-236 | A delete command calls `deleteScheduledTask` with `parseInt` of its fourth word. If that is NaN, it only gets the task-number reply. The state is unchanged. |
| `Session.ReportRequestRefreshes` | Bot.js:198-209 | A report phrase requests the report with its filter's query. It logs in first with the stored credentials exactly when `accessToken` is falsy or `now >= tokenExpiry`. |
| `Session.TokenWindow` | Bot.js:70-75 | A token obtained at time t passes `checkToken` exactly for the times before t + 86,400,000 ms. |
| `Session.NoTokenAlwaysRefreshes` | Bot.js:30 | A login response with a missing or empty token leaves every later report request to log in first. |
| `Session.FailedLoginRestartsCollection` | Bot.js:53-66 | After a failed login the token is as it was. The next message that is not a command is captured as a new login ID. |
| `Session.LoginConversation` | Bot.js:173-197 | Without a token, `login`, an ID and a password set off one login attempt with exactly the trimmed ID and password that were typed. |
| `TelegramBot.Bot.constructor` | Bot.js:10-17 | The bot starts with no token, no expiry and both credential fields empty. |
| `TelegramBot.Bot.TokenIsStale` | Bot.js:71 | The `checkToken` condition read off the fields is exactly `Session.NeedsRefresh` of the current state. |
| `TelegramBot.Bot.RunCommand` | Bot.js:199-239 | Running the dispatch chain on the fields returns exactly the action `Session.Dispatch` gives for the current state. |
| `TelegramBot.Bot.HandleMessage` | Bot.js:153-241 | Updating the fields in place makes exactly the transition of `Session.Step` and returns its action. It keeps the invariant. |
| `TelegramBot.FailedLoginScenario` | Bot.js:186-197 | Through the class alone, starting fresh, the first two ordinary messages start one login attempt with the trimmed ID and password, even without `login`. After that login fails, the next ordinary message becomes the new login ID and the password is empty. |
| `TelegramBot.Bot.CompleteLogin` | Bot.js:23-67 | Updating the fields in place makes exactly the transition of `Session.AfterLogin` and returns login's success or failure message. |

## Left out

- **Telegram transport.** Telegram polling and `bot.sendMessage` (Bot.js:2-8) are foreign I/O. Messages sent appear only as `Reply` actions.
- **HTTP.** The HTTP calls (Bot.js:25-28, 100-147) are network I/O. The outcome of the login POST is the `LoginResult` input. The report GET appears only as the `FetchReport` action.
- **Report formatting.** Formatting the report records (Bot.js:113-139) depends on `toFixed(2)` over floating-point amounts.
- **Undefined functions.** `scheduleReport`, `showScheduledTasks`, `deleteScheduledTask`, `logout` and `sendCommandList` are called but not defined in the file (Bot.js:150). The model records only the calls. The schedule registry, its 1-based numbering and what `logout` clears are not modelled.
- **Timers.** The 24-hour re-login timer (Bot.js:49-52) is timer behaviour. Its login completes through the same `CompleteLogin`.
- **Async interleaving.** Interleaving between a pending login or report request and new messages is concurrency. Each login completion is modelled as a separate event.
- **Clock.** `Date.now()` and `getHours()` are the parameters `now` and `hour`.
- **The `custom` filter.** Bot.js:105 refers to the undefined `fromDate` and `toDate` and no command reaches it. `Filter` has only the four reachable values.
- **Chat ID of the refresh login.** `checkToken` calls `login()` without a chat ID (Bot.js:73). Only its effect on the state is modelled, not where its messages go.
- **Token type.** A token field holding a non-string JSON value is not modelled. `accessToken` is a string or absent, and a missing field is absent.
- **Console logging.** The `console.log` and `console.error` calls (Bot.js:32, 54-57, 72, 142-145) only log.
- JsText.Lower: lower-cases only ASCII letters and the KELVIN SIGN (U+212A, which lower-cases to `k` and so can complete "weekly"). Other non-ASCII case mappings are left out because they never turn text into, or out of, one of the ASCII commands.
- JsNumber.ParseInt: returns exact integers. JavaScript's rounding of numbers beyond 2^53 and its -0 (which the model reads as 0) are left out, because they are floating-point behaviour.
