# Discord bot core: auto-clean, bulk delete and calendar helpers

This project is a Dafny model of the sequential core of a Discord bot. The bot
deletes recent messages on request and on a timer, and it sends Google Calendar
notifications. The model covers three parts.

- **One live job per key.** Two timer maps share one shape:
  - the auto-clean timer map `autoCleanTimers`, which holds one `setInterval` handle per channel;
  - the calendar module's `userSchedules`, which holds one `node-schedule` job per user.

  `Jobs` models these two as a registry. Each key points at a handle, and every
  handle ever created is kept in a pool, marked live or cancelled. Its
  invariant (`Consistent`) says a key has exactly one live handle and that
  no live handle is orphaned. The classes `AutoClean.AutoCleanBot` and
  `Scheduler.NotificationScheduler` hold such a registry and update it in place.
  The auto-clean settings table, changed by the `자동청소` (auto-clean)
  subcommands 설정 (set up), 해제 (remove) and 목록 (list), is a plain map from
  channel to setting in `AutoClean.AutoCleanBot`, kept in step with the timers.
- **The bulk-delete loops.** These are the loop run by each auto-clean timer
  (`executeAutoClean`) and the `/청소` (clean) command. A `Cleanup.Channel` is
  a list of messages, newest first, and the clock is a fixed `now`. Each round:
  - fetches the newest 100 messages;
  - keeps those whose timestamp is strictly greater than `now - 14 days`;
  - bulk-deletes them and adds the count to the total.

  Both methods are proved equal to the specification function `Clean`. The
  lemmas about `Clean` give the properties: the accounting, termination, the
  overshoot bound, old messages kept, and the exact batches of a sorted
  channel.
- **Validators and formatters.**
  - `isValidTimeFormat` (`HH:mm`), proved equivalent to "the zero-padded
    spelling of an hour 0..23 and a minute 0..59".
  - The event formatters (`formatEventTime`, `formatEventsForDiscord`).
  - `parseDate` as a classifier over input shapes.
  - `isTokenExpired`, with the 5-minute margin and `now` passed as a parameter.

Files:
- `Wrappers.dfy`: Option.
- `Text.dfy`: ASCII digits, `Number()` on digit strings, `toString`/`padStart`, `split`/`join`.
- `Jobs.dfy`: the registry.
- `AutoClean.dfy`: the auto-clean timers and settings.
- `Cleanup.dfy`: the delete loops.
- `Scheduler.dfy`: the notification scheduler.
- `CalendarApi.dfy`: the formatters and `parseDate`.
- `CalendarAuth.dfy`: the token expiry check.

Two behaviours of the code worth knowing:
- When the channel of an auto-clean run is gone, the code only logs it
  (`index.js:68-71`) and keeps the setting. `Cleanup.ExecuteAutoClean`
  returns 0 and changes nothing.
- The startup restore of auto-clean timers (`index.js:325-328`) arms every
  persisted entry, with no `enabled` filter.

## Model

| member | source | states |
|---|---|---|
| Jobs.Arm | index.js:97-105 | Registering a job: the key's previous handle (if any) is cancelled and the key points at a fresh live handle; its properties are the contracts of `ArmConsistent` and `ArmTwice` |
| Jobs.Disarm | index.js:111-117 | Stopping a job: its handle is cancelled and the key removed, and a key without a job is left alone; its properties are the contracts of `DisarmConsistent` and `DisarmIdempotent` |
| Jobs.EmptyConsistent | calendar/scheduler.js:5 | An empty map satisfies the registry invariant and has no live job |
| Jobs.LiveKeys | calendar/scheduler.js:64-66 | Under the invariant, the armed keys are exactly the keys of the map, and the map size equals the number of live handles |
| Jobs.OneLivePerKey | index.js:97-105 | Under the invariant, a key has exactly one live handle (the one it points at) or none |
| Jobs.ArmConsistent | index.js:97-105 | Registering keeps the invariant. Afterwards the key is armed with the new trigger and its previous handle is cancelled. No other key changes, and the size grows by one only for a new key |
| Jobs.DisarmConsistent | index.js:111-117 | Stopping keeps the invariant, removes exactly the key's job and cancels its handle |
| Jobs.DisarmIdempotent | index.js:111-117 | Stopping twice equals stopping once. Stopping a key without a job changes nothing |
| Jobs.ArmTwice | index.js:97-105 | Registering the same key twice leaves one live handle for it, carrying the second trigger |
| AutoClean.IntervalMs | index.js:103 | The period is `intervalHours` hours in ms, a whole number of hours. Within the option's 1..168 range it lies between 1 h and 168 h, below Node's maximum timer delay |
| AutoClean.GuildEntries | index.js:515-516 | 목록 lists exactly the channels whose setting names the current guild, with their settings unchanged |
| AutoClean.GuildEntriesPartition | index.js:515-516 | Two guilds' listings never share a channel, and a channel appears in its own guild's listing |
| AutoClean.Periods | index.js:325-326 | The restored timers are exactly the persisted keys, each with the period of its own interval |
| AutoClean.AutoCleanBot.constructor | index.js:33-34 | The bot starts with the loaded settings and no timers |
| AutoClean.AutoCleanBot.StartAutoCleanTimer | index.js:97-108 | Keeps the invariant. The channel is armed with its period, its old handle (if any) is cancelled, it has exactly one live timer, and no other channel changes |
| AutoClean.AutoCleanBot.StopAutoCleanTimer | index.js:111-117 | Keeps the invariant. The channel's timer is cleared and forgotten, no live timer of it remains, and nothing changes when it had none |
| AutoClean.AutoCleanBot.RestoreOnReady | index.js:325-328 | Arms one timer per persisted key, with its period and no filter. Returns the number of settings. Settings and timers agree afterwards |
| AutoClean.AutoCleanBot.Configure | index.js:467-481 | 설정 stores (or replaces) the channel's setting and (re)starts its timer with one live handle. No other entry changes, and settings and timers stay in agreement |
| AutoClean.AutoCleanBot.Unconfigure | index.js:491-505 | 해제 on a channel without a setting changes neither map. Otherwise it removes exactly that channel's setting and timer. It reports which case happened |
| Cleanup.Fetch | index.js:77 | `messages.fetch({ limit: 100 })` on a channel kept newest first; `FetchNewest` states what it returns |
| Cleanup.FetchNewest | index.js:77 | The fetch returns the newest `min(n, 100)` messages |
| Cleanup.DeletableMessages | index.js:78-79 | The filter never returns more messages than it was given; `FilterMembership` and `FilterPartition` state which |
| Cleanup.Undeletable | index.js:78-79 | The complement of the filter is never longer than its input; `FilterMembership` and `FilterPartition` state which |
| Cleanup.FilterKeeps | index.js:78-79 | Every message the filter keeps is younger than two weeks, strictly |
| Cleanup.FilterDrops | index.js:78-79 | Every message the filter drops is two weeks old or older |
| Cleanup.FilterSplit | index.js:78-79 | The numbers of kept and dropped messages add up to the number of messages given |
| Cleanup.FilterPartition | index.js:78-79 | Kept and dropped messages together are the messages given, each exactly once (as multisets) |
| Cleanup.FilterMembership | index.js:78-79 | A message is kept iff it is in the channel and younger than two weeks, and dropped iff it is in the channel and older |
| Cleanup.Without | index.js:83 | `bulkDelete` never makes the channel longer; `WithoutRemoves`, `WithoutKeeps` and `RoundEffect` state what goes |
| Cleanup.WithoutRemoves | index.js:83 | No message with a submitted id is left in the channel |
| Cleanup.WithoutKeeps | index.js:83 | Every message whose id was not submitted is still in the channel |
| Cleanup.RoundEffect | index.js:77-83 | With unique ids, one round leaves the old messages of the fetched 100 followed by every message beyond them |
| Cleanup.Amount | index.js:421 | `개수` defaults to 100 when omitted (or 0). Otherwise it is the given count |
| Cleanup.Channel.constructor | index.js:67 | A channel holds the given messages |
| Cleanup.Channel.FetchMessages | index.js:77 | Returns the newest 100 messages and changes nothing |
| Cleanup.Channel.BulkDelete | index.js:83-84 | Removes exactly the submitted messages and returns how many were removed |
| Cleanup.Clean | index.js:76-87 | The specification of the loop: the batch sizes and the channel left behind. Its properties are the contracts of the lemmas below, and the two loops are proved equal to it |
| Cleanup.ExecuteAutoClean | index.js:65-87 | A missing channel deletes nothing. Otherwise the loop leaves the channel as the unlimited `Clean` run does, and the total is the sum of its batches |
| Cleanup.Purge | index.js:420-448 | With `전체삭제` (all), as the automatic loop. Otherwise `Clean` with the limit `amount`. The total is the sum of the batches |
| Cleanup.CleanAccounting | index.js:76-87 | The total deleted plus the messages left equals the messages there were |
| Cleanup.CleanKeepsOldMessages | index.js:77-83 | No message two weeks old or older is ever deleted: the old messages of the channel are the same before and after the run |
| Cleanup.CleanBatchSizes | index.js:77-83 | Every bulk delete removes between 1 and 100 messages, so a bulk delete never comes back empty with unique ids |
| Cleanup.CleanRunsDry | index.js:76-87 | Without a limit, the loop ends only when the newest 100 messages hold nothing deletable |
| Cleanup.CleanOvershoot | index.js:430-448 | With a count, the loop reaches `amount` or runs dry, and the total exceeds `amount` by less than one batch of 100 |
| Cleanup.CleanStopsAtFirstReach | index.js:446 | Every round before the last ended below `amount`. The loop stops at the first round that reaches it |
| Cleanup.CleanNewestFirst | index.js:76-87 | On a newest-first channel, the automatic loop deletes every recent message in batches of 100 and a final smaller one, and keeps exactly the older ones |
| Cleanup.TwoHundredFifty | index.js:76-87 | 250 recent messages are deleted in rounds of 100, 100 and 50 |
| Text.ToDecimal | calendar/api.js:33 | `toString()` of a non-negative integer is a non-empty digit string with no leading zero that reads back as the integer |
| Text.PadDigits | calendar/api.js:33-34 | `padStart(width, '0')` of an integer below 10^width is exactly `width` digits that read back as the integer |
| Text.PadOfTwoDigits | calendar/scheduler.js:59 | Every two-digit string is the padding of the number it spells |
| Text.ToNumber | calendar/scheduler.js:14 | The model computes `Number` only on ASCII digit strings, as their decimal value; other text stays `Unmodelled` |
| Text.Split | calendar/scheduler.js:14 | `split` gives at least one piece, none contains the separator, and joining them gives back the string |
| Text.SplitJoin | calendar/api.js:52 | Splitting a join of separator-free pieces gives the pieces back |
| Text.SplitCount | calendar/scheduler.js:14 | A string splits into one more piece than it has separators |
| Text.JoinCount | calendar/api.js:52 | Joining n separator-free pieces inserts exactly n - 1 separators |
| Scheduler.ParseTime | calendar/scheduler.js:14 | `time.split(':').map(Number)` destructured into hour and minute; stated by `ParseTimeMinute`, `ParseTimeOfPattern` and `TimeRoundTrip` |
| Scheduler.ParseTimeMinute | calendar/scheduler.js:14 | The minute is undefined exactly when the time holds no ':' |
| Scheduler.ParseTimeOfPattern | calendar/scheduler.js:14 | On the `HH:mm` shape, the hour and minute are the two digit pairs read as numbers |
| Scheduler.IsValidTimeFormat | calendar/scheduler.js:56-61 | Only strings of the `\d{2}:\d{2}` shape are accepted |
| Scheduler.TimeRoundTrip | calendar/scheduler.js:14 | A zero-padded `HH:mm` spelling parses back to its hour and minute |
| Scheduler.SplitOfPattern | calendar/scheduler.js:59 | A string of the time shape splits into its two digit pairs |
| Scheduler.TimeFormatIff | calendar/scheduler.js:56-61 | Accepted iff the input is the zero-padded spelling of an hour 0..23 and a minute 0..59 |
| Scheduler.ValidTimeSpelling | calendar/scheduler.js:56-61 | Every accepted time is such a spelling |
| Scheduler.ValidTimeString | calendar/scheduler.js:60 | On two-digit spellings, the validator is exactly hour < 24 and minute < 60 |
| Scheduler.RejectsShortHour | calendar/scheduler.js:57 | "9:00" is rejected |
| Scheduler.RejectsHour24 | calendar/scheduler.js:60 | "24:00" is rejected |
| Scheduler.RejectsMinute60 | calendar/scheduler.js:60 | "12:60" is rejected |
| Scheduler.AcceptsLastMinute | calendar/scheduler.js:56-61 | "23:59" is accepted |
| Scheduler.ActiveUsers | calendar/scheduler.js:45 | Exactly the users whose setting is enabled and has a non-empty time are selected |
| Scheduler.RestoredRules | calendar/scheduler.js:44-46 | Each restored user gets the rule parsed from their own time |
| Scheduler.NotificationScheduler.constructor | calendar/scheduler.js:5 | The module starts with no job |
| Scheduler.NotificationScheduler.ScheduleCount | calendar/scheduler.js:64-66 | The count equals the number of registered users and of live jobs |
| Scheduler.NotificationScheduler.ScheduleNotification | calendar/scheduler.js:8-27 | Always returns true. Afterwards the user is registered with the parsed hour and minute and has one live job, the previous job is cancelled, and the count grows only for a new user |
| Scheduler.NotificationScheduler.CancelNotification | calendar/scheduler.js:30-38 | Returns true iff the user was registered, in which case exactly that user's job is cancelled and removed. Otherwise nothing changes |
| Scheduler.NotificationScheduler.RestoreAllSchedules | calendar/scheduler.js:41-53 | Registers exactly the active users with their parsed times and returns their number |
| Scheduler.RescheduleKeepsOneJob | calendar/scheduler.js:9-23 | Registering a user twice leaves one live job with the second time, and the count changes only if the user was new |
| CalendarApi.FormatEventTime | calendar/api.js:29-39 | An event without a start time reads "종일", and the time text never holds a newline |
| CalendarApi.FormatEventsForDiscord | calendar/api.js:44-52 | No events give the fixed sentence; otherwise the listing begins with the first event's line |
| CalendarApi.ClockString | calendar/api.js:33-34 | A valid time prints as five characters with ':' in the middle, and no time prints a newline |
| CalendarApi.ClockDigits | calendar/api.js:33-34 | The digit pairs of `HH:MM` read back as the hour and the minute |
| CalendarApi.TimedEventTime | calendar/api.js:29-35 | A timed event prints as 13 characters: the start clock, " - ", the end clock |
| CalendarApi.AllDayIff | calendar/api.js:29-39 | The time reads "종일" iff the event has no start time |
| CalendarApi.Title | calendar/api.js:50 | The title is the summary, or "(제목 없음)" when it is missing or empty |
| CalendarApi.Lines | calendar/api.js:48-51 | One line per event, in input order |
| CalendarApi.LineHasNoNewline | calendar/api.js:49-51 | A line holds no newline when its summary holds none |
| CalendarApi.EmptyListingIff | calendar/api.js:44-46 | The listing is "오늘 일정이 없습니다." iff there are no events |
| CalendarApi.ListingLines | calendar/api.js:48-52 | A non-empty listing splits back at its newlines into the events' lines, in order, so it holds exactly n - 1 newlines |
| CalendarApi.LiteralLookup | calendar/api.js:72-78 | A property read on the keyword object finds its own keys, then the 12 names inherited from `Object.prototype`. Anything else is undefined |
| CalendarApi.OwnLookup | calendar/api.js:72-78 | An own-key lookup finds only the three keywords |
| CalendarApi.ParseDateAsWritten | calendar/api.js:56-85 | The parser as written: missing or empty input is today, the two date shapes and the three keywords are classified as such, and exactly the 12 names inherited from `Object.prototype` give an Invalid Date |
| CalendarApi.ParseDate | calendar/api.js:56-85 | The corrected parser (keyword test on own keys only, see Findings): missing or empty input is today, a full-date shape, a month-day shape and a keyword are classified as such, with the keyword offsets, and anything else is null |
| CalendarApi.FullDateRoundTrip | calendar/api.js:62-63 | The zero-padded spelling of a date is a full date with those numbers |
| CalendarApi.DateSlices | calendar/api.js:62 | The zero-padded `YYYY-MM-DD` spelling has the dashes in place, and its digit groups read back as year, month and day |
| CalendarApi.MonthDayIff | calendar/api.js:67-68 | A month-day result with given numbers comes from exactly their zero-padded spelling, without a range check |
| CalendarApi.KeywordOffsets | calendar/api.js:72-81 | 오늘, 내일 and 모레 are 0, 1 and 2 days ahead |
| CalendarApi.PrototypeNameFinding | calendar/api.js:78 | The code as written and the corrected parser agree except on the inherited names, where the code gives an Invalid Date and the correction gives null |
| CalendarApi.ToStringIsNotNull | calendar/api.js:78 | `parseDate("toString")` is an Invalid Date as written, not null |
| CalendarAuth.IsTokenExpired | calendar/auth.js:55-59 | Without a (truthy) expiry a token is never expired. Otherwise it is expired iff the expiry is before `now` + 300000 ms |
| CalendarAuth.ExpiryMonotone | calendar/auth.js:58 | A token expired at `now` is expired at every later time |
| CalendarAuth.MarginBoundary | calendar/auth.js:58 | Exactly 5 minutes before expiry the token is not expired, and 1 ms later it is |
| CalendarAuth.PastExpiryIsExpired | calendar/auth.js:58 | A token whose expiry has passed is expired |
| CalendarAuth.ZeroExpiryNeverExpires | calendar/auth.js:56 | An expiry of 0, like a missing one, is never expired |

## Left out

- Wikipedia and Namuwiki lookups (`index.js:236-304`): HTTP fetches and HTML scraping.
- Slash-command definitions, REST registration, permission checks, embeds, replies and `client.login`: Discord client plumbing. The 목록 reply text and the interval option range are not modelled beyond `GuildEntries` and `IntervalMs`.
- Loading and saving the JSON settings files: file I/O. Settings are an in-memory map, loaded by the constructor.
- Anonymous settings and `anonCooldowns`: no handler in the core reads or writes them.
- Real timer firing. `setInterval`, `clearInterval`, the `node-schedule` RecurrenceRule, the Asia/Seoul time zone and the notification callback are abstract handles that carry their period or rule.
- Interleaving of asynchronous handlers. Each operation runs to completion.
- `getTodayEvents` and the OAuth wrappers of the calendar auth module: calls into googleapis.
- JavaScript `Date`:
  - `new Date(dateTime)` with `getHours`/`getMinutes` becomes a `Clock` (hour and minute, or an Invalid Date printing `NaN:NaN`).
  - `parseDate` returns a classification (`DateQuery`) instead of a `Date`. The date arithmetic of `setDate` and the current year are not computed.
- A missing `event.end` throws in JavaScript. The model treats it as an Invalid Date.
- `Number()` is computed only on ASCII digit strings. Other text (signs, decimals, exponents, hex, whitespace) is kept as unmodelled text. This does not affect `isValidTimeFormat`, which parses only strings of the `\d{2}:\d{2}` shape.
- `Object.entries` order: restores iterate over a set of keys. The results are order-independent.
- The `enabled` setting is modelled as a boolean, not an arbitrary truthy value.
- Deletion runs against a fixed `now`. The code recomputes `Date.now()` each round.
- The bulk-delete `filterOld` flag and Discord's own rejection of old messages are subsumed by the filter. `BulkDelete` deletes exactly what it is given.
- `bulkDelete` failures and the `try`/`catch` error replies are not modelled.
- CalendarApi.TimedEventTime: states the positions of the two clocks. The digit read-back is stated separately, by `ClockDigits`.

## Findings

| source | as written | input that shows it | evidently intended | confidence | as-written member | corrected member |
|---|---|---|---|---|---|---|
| calendar/api.js:72-82 | `keywords[dateStr] !== undefined` reads through the object literal's prototype, so the names inherited from `Object.prototype` pass the keyword test, and adding a function to a day number gives an Invalid Date | `parseDate("toString")` (also "constructor", "valueOf", "__proto__", ...) | only 오늘, 내일 and 모레 are keywords; every other string is null | high, not executed | CalendarApi.ParseDateAsWritten, CalendarApi.ToStringIsNotNull | CalendarApi.ParseDate, CalendarApi.PrototypeNameFinding |
