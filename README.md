# Demo-data generator of the parking system, in Dafny

The parking system keeps four SQLite tables: `transactions` (one row per
casual visit, with entry and exit time, fee and the guard who handled it),
`cards` (registered RFID cards), `monthly_payments` (the payment history of
monthly subscribers) and `settings` (the hourly and monthly rates). Its
demo-data generator `create_beautiful_data` fills them with plausible data.
One run does the following:

1. Cleanup. It deletes the rows an earlier run seeded:
   - transactions tagged with the seed user `dieptb`;
   - the four roster cards and their payments;
   - cards and payments whose codes follow the patterns of older generators.

   Then it commits.
2. Rates. It reads the rates, falling back to 5 000 per hour and 1 500 000
   per month.
3. Casual visits. For today and each of the five days before it, it draws
   15–30 visits (30–50 on a weekend). Each visit gets:
   - an entry time inside a drawn hour band;
   - a short or long stay;
   - a Vietnamese-style plate;
   - a random four-byte hex card code;
   - a fee charged per started hour.

   A visit that would end after "now" is skipped.
4. Subscribers. It upserts the fixed roster of four subscribers
   (`VIP_CARDS`), with an expiry one month ahead. For each of them it then
   inserts one payment for each of the last six months, walking back across
   year boundaries.
5. It commits.

The model works as follows:

- The tables are fields of a `ParkingDatabase` class, each a sequence of
  rows. The stages are methods that change those fields.
- Every random draw is a parameter, constrained to the range the generator
  draws it from.
- Each method is proved against a specification function of its inputs and
  the old tables:
  - `BatchRows`, `DayRows`;
  - `CardPayments`, `RosterPayments`, `UpsertRoster`;
  - `RunTransactions`, `RunCards`, `RunPayments`.
- The properties the generator promises are proved about those functions:
  - round trips of the plate, card-code and month-label formats;
  - the fee rule;
  - what cleanup removes and keeps;
  - the shape of every seeded row;
  - exactly six payments for distinct months per roster card;
  - no effect on rows the generator does not own;
  - a second run leaves the same tables as a single run.
- A run that would raise in Python returns `ok == false`. The tables are
  then those of the first commit, after cleanup. Python raises at four
  places, in this order:
  - line 131: `OverflowError` when a day, `now - timedelta(days=i)`, falls
    before year 1 (and at line 154 when an exit time passes 9999-12-31);
  - line 71: `OverflowError` when `created_at`, 200 days back, falls before
    year 1;
  - line 72: `ValueError` from `replace` at line 42 when the expiry month
    falls after December 9999;
  - line 91: `ValueError` when the month walk reaches year 0. With six
    months this cannot happen once line 71 has passed
    (`SubscriptionSeeding.CreatedAtCoversWalk`).

Files:

| file | module | contents |
|---|---|---|
| `options.dfy` | `Options` | `Option` |
| `numerals.dfy` | `Numerals` | decimal rendering (`str`, `{:04d}`) and its inverse |
| `calendar.dfy` | `CalendarMath` | Gregorian calendar, `add_months`, seconds since 0001-01-01, weekday |
| `identifiers.dfy` | `Identifiers` | plate and RFID card-code synthesis with parsers |
| `fees.dfy` | `Fees` | settings map, rate defaults, casual fee |
| `records.dfy` | `Records` | table rows, the roster, `Filter`, SQLite `LIKE`, the cleanup predicates |
| `casual.dfy` | `CasualSeeding` | the casual batch as a function of its draws |
| `subscription.dfy` | `SubscriptionSeeding` | month walk, month labels, payment histories, roster upserts |
| `seeddata.dfy` | `SeedData` | the `ParkingDatabase` class and the properties of whole runs |

## Model

| member | source | states |
|---|---|---|
| Numerals.Decimal | software/seed_data.py:22 | `str(n)` is a non-empty digit string that starts with `0` only for zero |
| Numerals.ValueOfDecimal | software/seed_data.py:22 | reading the decimal rendering of `n` back gives `n` |
| Numerals.DecimalExactLength | software/seed_data.py:20-25 | a number in `[10^(k-1), 10^k)` prints with exactly `k` digits |
| Numerals.ZeroPadded | software/seed_data.py:88 | `{n:0wd}` is all digits and at least `w` long |
| Numerals.ZeroPaddedForm | software/seed_data.py:88 | below `10^w` the padded rendering is `str(n)` prefixed by the missing zeros |
| Numerals.ZeroPaddedRoundTrip | software/seed_data.py:88 | below `10^w` the padded rendering is exactly `w` digits and reads back as `n` |
| Identifiers.GenerateVietnamPlate | software/seed_data.py:14-25 | definition of both plate branches; its properties are `PlateRoundTrip`, `DottedPlateRoundTrip` and `PlainPlateRoundTrip` |
| Identifiers.ValidPlateDraw | software/seed_data.py:16-25 | definition of what the plate draws range over (a province from `PROVINCES`, a letter from `CHARS`, a 100-999 and 10-99 pair or a 1000-9999 number); used as the requires of `PlateRoundTrip` |
| Identifiers.PlateRoundTrip | software/seed_data.py:14-25 | each drawn plate has the shape of its branch (`NNL-NNN.NN` or `NNL-NNNN`) and parsing it recovers province, letter and numbers |
| Identifiers.DottedPlateRoundTrip | software/seed_data.py:19-22 | the 80 % branch yields a dotted plate that parses back to its draws |
| Identifiers.PlainPlateRoundTrip | software/seed_data.py:23-25 | the 20 % branch yields a plain plate, never a dotted one, that parses back to its draws |
| Identifiers.ProvinceHasTwoDigits | software/seed_data.py:11 | every province code prints with two digits |
| Identifiers.HexDigit | software/seed_data.py:35 | the upper-case hex digit of a nibble is a hex digit |
| Identifiers.HexValue | software/seed_data.py:35 | reading a hex digit is the inverse of `HexDigit` |
| Identifiers.HexByte | software/seed_data.py:35 | `{b:02X}` is two hex digits whose value is `b` |
| Identifiers.HexByteOfDigits | software/seed_data.py:35 | any two hex digits are the `{b:02X}` rendering of the byte they denote |
| Identifiers.JoinHexBytes | software/seed_data.py:35 | definition of the space-joined `{b:02X}` rendering; its properties are `JoinShape`, `ParseJoinRoundTrip` and `JoinParseRoundTrip` |
| Identifiers.GenerateHexCardId | software/seed_data.py:27-35 | definition; its properties are `CardCodeShape` and `ParseJoinRoundTrip` |
| Identifiers.JoinShape | software/seed_data.py:35 | `k` joined bytes make `3k-1` characters with a space at every third place |
| Identifiers.CardCodeShape | software/seed_data.py:27-35 | a generated card code has the `XX XX XX XX` shape |
| Identifiers.ParseJoinRoundTrip | software/seed_data.py:33-35 | parsing a joined code gives back its bytes |
| Identifiers.JoinParseRoundTrip | software/seed_data.py:35 | every accepted code is the rendering of the bytes it parses to |
| Identifiers.GroupsRoundTrip | software/seed_data.py:35 | a non-empty run of accepted groups is the rendering of its bytes |
| CalendarMath.DaysInMonth | software/seed_data.py:41 | `monthrange(y, m)[1]` is between 28 and 31 |
| CalendarMath.IsLeapYear | software/seed_data.py:41 | definition of the Gregorian 4/100/400 leap-year rule behind `monthrange`; its properties are `YearLength`, `DaysInMonth` and `EndOfJanuaryPlusOneMonth` |
| CalendarMath.YearLength | software/seed_data.py:41 | the month lengths add up to 366 in a leap year and 365 otherwise |
| CalendarMath.AddMonths | software/seed_data.py:37-42 | defined exactly when the target year is in 1..9999; the result is a valid date `n` months on, its day clamped to the target month's length |
| CalendarMath.AddZeroMonths | software/seed_data.py:37-42 | adding zero months is the identity |
| CalendarMath.AddMonthsCompose | software/seed_data.py:37-42 | adding `a` then `b` months reaches the year and month of adding `a + b` |
| CalendarMath.AddMonthsInverse | software/seed_data.py:37-42 | for days up to 28, adding `n` months then `-n` returns the original date |
| CalendarMath.EndOfJanuaryPlusOneMonth | software/seed_data.py:41 | 31 January plus a month is 29 February in 2024 and 28 February in 2023 |
| CalendarMath.MonthIndexInjective | software/seed_data.py:82-86 | two year/month pairs with the same month count are equal |
| CalendarMath.MonthOf | software/seed_data.py:82-86 | every month count has a year and a month in 1..12 |
| CalendarMath.MonthOfIndex | software/seed_data.py:82-86 | `MonthOf` inverts the month count |
| CalendarMath.Weekday | software/seed_data.py:132 | `weekday()` is in 0..6 |
| CalendarMath.WeekdayAnchor | software/seed_data.py:132 | the day numbering puts 2024-01-06 on a Saturday (`weekday()` 5), so 0 is Monday |
| CalendarMath.ToSeconds | software/seed_data.py:131 | definition of a `datetime` as seconds since 0001-01-01; its properties are `ToSecondsInRange`, `MaxSecondsIsLastSecond` and `WeekdayAnchor` |
| CalendarMath.ToSecondsInRange | software/seed_data.py:131 | every valid date and time lies between 0001-01-01 00:00:00 and 9999-12-31 23:59:59 |
| CalendarMath.MaxSecondsIsLastSecond | software/seed_data.py:154 | the largest representable second is 9999-12-31 23:59:59 |
| Fees.SettingsOf | software/seed_data.py:46-50 | definition of the map the loop builds; its properties are `SettingsOfLastRowWins`, `SettingsOfKeys` and `RateOfRows` |
| Fees.SettingsOfLastRowWins | software/seed_data.py:46-50 | the value loaded for a key is the one in the last row naming it |
| Fees.SettingsOfKeys | software/seed_data.py:46-50 | the keys loaded are exactly the keys of the rows |
| Fees.LoadSettings | software/seed_data.py:44-53 | the loop builds the map `SettingsOf(rows)` |
| Fees.HourlyFee | software/seed_data.py:121 | definition; its properties are `HourlyFeeOfRows` and `DefaultRates` |
| Fees.MonthlyFee | software/seed_data.py:122 | definition; its properties are `MonthlyFeeOfRows` and `DefaultRates` |
| Fees.RateOfRows | software/seed_data.py:46-50 | a key no row names is absent from the loaded map, so `settings.get` falls back to its default; a key some row names maps to the value of the last row naming it |
| Fees.HourlyFeeOfRows | software/seed_data.py:121 | the hourly rate is the last `fee_per_hour` row's value, and 5 000 when no row names `fee_per_hour` |
| Fees.MonthlyFeeOfRows | software/seed_data.py:122 | the monthly rate is the last `monthly_fee` row's value, and 1 500 000 when no row names `monthly_fee` |
| Fees.DefaultRates | software/seed_data.py:120-122 | with no settings rows the rates are 5 000 per hour and 1 500 000 per month |
| Fees.BilledHours | software/seed_data.py:158 | at least one hour; for a positive stay, the number of started hours |
| Fees.BilledHoursMonotonic | software/seed_data.py:158 | a longer stay is never billed fewer hours |
| Fees.CasualFee | software/seed_data.py:158 | definition; its properties are `CasualFeeBounds` and `NinetyMinutesAtDefaultRate` |
| Fees.CasualFeeBounds | software/seed_data.py:158 | a stay costs at least one hour; more than an hour costs at least two |
| Fees.NinetyMinutesAtDefaultRate | software/seed_data.py:158 | ninety minutes at the default rate cost 10 000 |
| Records.CardIdsOf | software/seed_data.py:109 | the roster's codes, in roster order |
| Records.Filter | software/seed_data.py:106-115 | a `DELETE ... WHERE not keep` keeps exactly the rows satisfying `keep` and never adds rows |
| Records.FilterAppend | software/seed_data.py:106-115 | deleting from two parts of a table is deleting from each part |
| Records.FilterFilter | software/seed_data.py:110-115 | two deletes in a row equal one delete by the conjoined condition |
| Records.Like | software/seed_data.py:114-115 | definition of SQLite `LIKE`; its properties are `LikeAnySuffix`, `LikePrefix`, `MonthVipPattern` and `FakePattern` |
| Records.LikeAnySuffix | software/seed_data.py:114-115 | `%` matches every string |
| Records.LikePrefix | software/seed_data.py:114-115 | `q%` matches exactly the strings whose first `|q|` characters match `q` (`_` any one character, ASCII case ignored) |
| Records.MonthVipPattern | software/seed_data.py:114-115 | `LIKE 'MONTH_VIP_%'` matches exactly the codes whose first ten characters match `MONTH_VIP_` |
| Records.FakePattern | software/seed_data.py:114 | `LIKE 'FAKE_%'` matches exactly the codes whose first five characters match `FAKE_` |
| Records.KeepTransaction | software/seed_data.py:106 | definition of the rows the transactions delete spares; its property is `CleanupFilters` |
| Records.KeepCard | software/seed_data.py:110-114 | definition of the rows the two card deletes spare; its properties are `CleanupFilters` and `CleanupSteps` |
| Records.KeepPayment | software/seed_data.py:111-115 | definition of the rows the two payment deletes spare; its properties are `CleanupFilters` and `CleanupSteps` |
| Records.CleanupFilters | software/seed_data.py:104-117 | after cleanup no seeded transaction, roster or legacy card, or roster or `MONTH_VIP_` payment is left; transactions not tagged `dieptb` all stay; a table with nothing to delete is unchanged |
| Records.CleanupIdempotent | software/seed_data.py:104-117 | cleaning twice is cleaning once |
| Records.CleanupSteps | software/seed_data.py:110-115 | the roster delete followed by the pattern delete is the single cleanup condition |
| CasualSeeding.CardBytes | software/seed_data.py:33 | four drawn bytes form a four-byte sequence |
| CasualSeeding.ValidEventDraw | software/seed_data.py:137-159 | definition of the ranges of one visit's draws; used as the requires of `EventRowIsSeeded` |
| CasualSeeding.IsWeekend | software/seed_data.py:132 | definition of `weekday() >= 5` (Saturday or Sunday); used by `ValidDailyCount`, anchored by `CalendarMath.WeekdayAnchor` |
| CasualSeeding.ValidDailyCount | software/seed_data.py:132-133 | definition of the daily visit counts (30-50 on a weekend, 15-30 otherwise); used by `ValidBatchDraws` |
| CasualSeeding.ValidBatchDraws | software/seed_data.py:130-137 | definition of a valid draw for the whole batch (six days, each with a valid visit count and valid visits); used as the requires of `SeedData.CreateBeautifulData`, `RerunTransactions` and `RunTwiceIsRunOnce` |
| CasualSeeding.DayTime | software/seed_data.py:131 | definition of `now - timedelta(days=i)` in seconds, reached through `DayOfBatch`; its property is `SeedCasualTransactions` |
| CasualSeeding.Kept | software/seed_data.py:155 | definition of the `exit_time > now` skip, negated; its properties are `EventRowIsSeeded`, `DayRowsCount` and `SeedDay` |
| CasualSeeding.DayOverflows | software/seed_data.py:131-154 | definition of a day on which some visit's exit time passes 9999-12-31 23:59:59; its properties are `SeedDay` (fails exactly then) and `SeedCasualTransactions` |
| CasualSeeding.DayOfBatch | software/seed_data.py:130-131 | definition of the day of batch entry `k`; its property is `SeedCasualTransactions` |
| CasualSeeding.EntryTime | software/seed_data.py:146 | definition; its property is `EventRowIsSeeded` |
| CasualSeeding.ExitTime | software/seed_data.py:154 | definition; its property is `EventRowIsSeeded` |
| CasualSeeding.EventRow | software/seed_data.py:158-177 | definition of the inserted row; its property is `EventRowIsSeeded` |
| CasualSeeding.EventRowIsSeeded | software/seed_data.py:137-177 | a kept visit becomes a row that ends by `now` after it starts, lasts whole minutes, costs the fee of its duration (at least one hour), carries the seed user and placeholder snapshots, a card code and a plate of one of the two shapes |
| CasualSeeding.DayRows | software/seed_data.py:135-178 | definition; its properties are `DayRowsAreSeeded`, `DayRowsCount` and `SeedDay` |
| CasualSeeding.DayRowsAreSeeded | software/seed_data.py:135-178 | every row of a day has those properties |
| CasualSeeding.DayRowsCount | software/seed_data.py:155-156 | a day yields one row per visit that ends by `now`, and no other |
| CasualSeeding.BatchRows | software/seed_data.py:130-178 | definition; its properties are `BatchRowsAreSeeded`, `BatchRowsBound` and `SeedCasualTransactions` |
| CasualSeeding.BatchOverflows | software/seed_data.py:130-156 | definition of the `OverflowError` cases of lines 131 and 154; its property is `SeedCasualTransactions` |
| CasualSeeding.BatchRowsAreSeeded | software/seed_data.py:130-178 | every row of the batch has those properties |
| CasualSeeding.BatchRowsBound | software/seed_data.py:133-135 | with at most 50 visits a day, the batch has at most 50 rows per day |
| SubscriptionSeeding.MonthBack | software/seed_data.py:82-86 | the borrowing loop ends on a month in 1..12 exactly `i` months before the start |
| SubscriptionSeeding.MonthLabel | software/seed_data.py:88 | definition; its properties are `MonthLabelRoundTrip` and `MonthLabelInjective` |
| SubscriptionSeeding.MonthLabelRoundTrip | software/seed_data.py:88 | `{y:04d}-{m:02d}` is seven characters with a dash at position 4, and parses back to `(y, m)` |
| SubscriptionSeeding.MonthLabelInjective | software/seed_data.py:88 | different months get different labels |
| SubscriptionSeeding.WalkFits | software/seed_data.py:82-91 | definition of a walk whose oldest month is in year 1 or later; its properties are `InsertPaymentHistory` and `CreatedAtCoversWalk` |
| SubscriptionSeeding.SubscriptionFits | software/seed_data.py:69-91 | definition of the no-raise condition of the subscription stage; its properties are `SeedCard` and `CreatedAtCoversWalk` |
| SubscriptionSeeding.CreatedAtCoversWalk | software/seed_data.py:71-91 | once `created_at` (line 71) is not before year 1, a walk of up to seven months stays in year 1 or later, so with six months line 91 never raises on its own |
| SubscriptionSeeding.MonthPayment | software/seed_data.py:88-96 | definition of one payment row; its property is `PaymentRowFacts` |
| SubscriptionSeeding.PaymentRow | software/seed_data.py:81-96 | definition by month count; its property is `PaymentRowAt` |
| SubscriptionSeeding.ValidPaymentDraw | software/seed_data.py:91 | definition of the ranges of one payment's draws (day 1-5, hour 8-17, minute 0-59); used as the requires of `PaymentRowFacts` and `CardPaymentsFacts` |
| SubscriptionSeeding.ValidPaymentDraws | software/seed_data.py:80-91 | definition of a valid draw for the whole roster (one list per card, at least `RowCount` entries each, all valid); used as the requires of `SeedData.CreateBeautifulData` and the rerun lemmas |
| SubscriptionSeeding.RowCount | software/seed_data.py:80 | definition of `len(range(month_count))` (0 when negative); its property is `InsertPaymentHistory`, which appends exactly that many rows per card |
| SubscriptionSeeding.PaymentRowAt | software/seed_data.py:81-96 | the row for a month count is the row for its year and month |
| SubscriptionSeeding.PaymentRowFacts | software/seed_data.py:88-96 | a payment row carries its card and the monthly fee; it is paid on day 1–5 between 8:00 and 17:59 of its month, at a valid `datetime`; its label names that month |
| SubscriptionSeeding.CardPayments | software/seed_data.py:81-96 | definition, one row per `i` in `range(month_count)`, of length `n`; its properties are `CardPaymentsAt`, `CardPaymentsFacts` and `CardPaymentsIds` |
| SubscriptionSeeding.CardPaymentsAt | software/seed_data.py:81-96 | row `k` of a history is the payment for the month `k` months before the start |
| SubscriptionSeeding.CardPaymentsFacts | software/seed_data.py:80-96 | every row of a history has the properties above for the month `i` back, and no two rows share a label |
| SubscriptionSeeding.CardPaymentsIds | software/seed_data.py:93-96 | every row of a card's history carries that card's code |
| SubscriptionSeeding.RosterCard | software/seed_data.py:70-77 | definition of the upserted card; its properties are `UpsertRosterRows` and `RunRosterCard` |
| SubscriptionSeeding.Upsert | software/seed_data.py:74-77 | definition of `INSERT OR REPLACE` by `card_id`; its property is `UpsertRosterRows` |
| SubscriptionSeeding.UpsertRoster | software/seed_data.py:69-77 | definition; its properties are `UpsertRosterRows` and `SeedMonthlyPayments` |
| SubscriptionSeeding.UpsertRosterRows | software/seed_data.py:74-77 | after upserting a roster with distinct codes, a roster code has exactly one card row, its fresh one; any other code keeps its rows |
| SubscriptionSeeding.FindEntryOfDistinct | software/seed_data.py:56-61 | in a roster with distinct codes, looking a code up finds its card |
| SubscriptionSeeding.RosterPayments | software/seed_data.py:69-96 | definition; its properties are `RosterPaymentsOf`, `RosterPaymentsNone` and `SeedMonthlyPayments` |
| SubscriptionSeeding.RosterPaymentsOf | software/seed_data.py:69-96 | the roster's payments with a card's code are exactly that card's history |
| SubscriptionSeeding.RosterPaymentsNone | software/seed_data.py:69-96 | a code outside the roster has no rows among the roster's payments |
| SeedData.ParkingDatabase.Cleanup | software/seed_data.py:104-117 | the five `DELETE` statements leave each table filtered by its cleanup condition, settings untouched |
| SeedData.ParkingDatabase.SeedDay | software/seed_data.py:131-178 | succeeds unless some exit time overflows; appends the day's rows (`DayRows`) and reports their count |
| SeedData.ParkingDatabase.SeedCasualTransactions | software/seed_data.py:127-178 | succeeds unless a day or exit time overflows; appends `BatchRows` and returns its length as `total_records`; other tables untouched |
| SeedData.ParkingDatabase.InsertPaymentHistory | software/seed_data.py:80-96 | succeeds exactly when the walk stays at or after year 1; appends the card's history `CardPayments` |
| SeedData.ParkingDatabase.SeedCard | software/seed_data.py:69-96 | upserts the roster card with expiry one month ahead, then appends its history; fails exactly when the run cannot fit in `datetime` |
| SeedData.ParkingDatabase.SeedMonthlyPayments | software/seed_data.py:63-96 | upserts every roster card in order and appends every history (`UpsertRoster`, `RosterPayments`); an empty roster changes nothing |
| SeedData.ParkingDatabase.CreateBeautifulData | software/seed_data.py:98-185 | a run succeeds exactly when no stage raises. On success the tables are `RunTransactions`, `RunCards` and `RunPayments` of the old tables, and `total` counts the inserted transactions. On failure the tables are those after cleanup |
| SeedData.VipRosterWellFormed | software/seed_data.py:56-61 | four distinct roster codes in the `XX XX XX XX` shape, and dotted plates |
| SeedData.VipIdsDistinct | software/seed_data.py:56-61 | the roster codes are pairwise distinct |
| SeedData.VipCardCodes | software/seed_data.py:56-61 | every roster code has the generated card-code shape |
| SeedData.VipPlates | software/seed_data.py:56-61 | every roster plate has the dotted plate shape |
| SeedData.RosterIdsListed | software/seed_data.py:109 | every roster code is among the codes the cleanup deletes |
| SeedData.RunSucceeds | software/seed_data.py:98-185 | definition of a run that raises nowhere; its property is `CreateBeautifulData` |
| SeedData.RunTransactions | software/seed_data.py:98-185 | definition of `transactions` after a run; its properties are `CreateBeautifulData` and `RerunTransactions` |
| SeedData.RunCards | software/seed_data.py:98-185 | definition of `cards` after a run; its properties are `CreateBeautifulData`, `RunRosterCard` and `RerunCards` |
| SeedData.RunPayments | software/seed_data.py:98-185 | definition of `monthly_payments` after a run; its properties are `CreateBeautifulData`, `RunRosterPayments` and `RerunPayments` |
| SeedData.RunRosterRows | software/seed_data.py:69-96 | after a run each roster card has exactly one card row and exactly six payments, for six distinct months |
| SeedData.RunRosterCard | software/seed_data.py:74-77 | after a run a roster code's only card row is the fresh upsert |
| SeedData.RunRosterPayments | software/seed_data.py:93-96 | after a run a roster code's payments are exactly its fresh history, whatever the table held before |
| SeedData.KeptPaymentsOfRosterCode | software/seed_data.py:111 | cleanup leaves no payment with a roster code |
| SeedData.RunKeepsOtherRows | software/seed_data.py:104-117 | a code outside the roster keeps, after a run, exactly the card and payment rows cleanup left it |
| SeedData.RunKeepsOtherPayments | software/seed_data.py:111 | a code outside the roster keeps exactly the payments cleanup left it |
| SeedData.CleanupUndoesUpserts | software/seed_data.py:110 | the next cleanup removes every roster upsert |
| SeedData.CleanupUndoesUpsert | software/seed_data.py:110 | the next cleanup removes a single roster upsert |
| SeedData.CleanupUndoesPayments | software/seed_data.py:111 | the next cleanup removes every seeded payment |
| SeedData.CleanupUndoesBatch | software/seed_data.py:106 | the next cleanup removes every seeded transaction |
| SeedData.RerunTransactions | software/seed_data.py:106 | after two runs the transactions are those a single run with the second draws leaves |
| SeedData.RerunCards | software/seed_data.py:110 | after two runs the cards are those a single second run leaves |
| SeedData.RerunPayments | software/seed_data.py:111 | after two runs the payments are those a single run with the second draws leaves |
| SeedData.RunTwiceIsRunOnce | software/seed_data.py:98-185 | two completed runs leave all three tables as the second run alone would |

## Left out

- Random distributions are left out. Every draw is a parameter limited to its range:
  - the 0.8/0.2 plate branch, the 0.3/0.3/0.4 hour bands and the 0.7/0.3 stay split are modelled as free choices of branch;
  - the probabilities are not modelled.
- Output from `print` is left out. It has no effect on the tables.
- Opening the database is left out. `Config.DATABASE_PATH`, `sqlite3.connect` and `close` are I/O.
  - `ParkingDatabase` starts from arbitrary tables.
  - `config.py` is not part of this model.
- SQL text and `strftime` formatting are left out.
  - Stored times are seconds since 0001-01-01 00:00:00 (transactions, `created_at`).
  - Payment times and the card expiry are date-and-time records.
  - The `"%Y-%m-%d %H:%M:%S"` strings are not modelled.
- Microseconds are dropped, and one value `now` stands for every `datetime.now()` call (lines 67, 131 and 155).
  - The real calls read the clock at slightly different instants.
  - The exit check at line 155 compares against a later clock reading than the day computation.
- Part of the settings error handling is left out. The catch-all at lines 51-52 is not modelled.
  - A missing `settings` table behaves like an empty one and gives the defaults.
  - Malformed values, which Python swallows after a partial read, are left out: rows hold integers.
- Database errors other than `datetime` overflow and year 0 are left out: constraint violations, a locked file, a missing table.
- The cleanup statement at line 115 deletes payments only for `MONTH_VIP_%` codes, not `FAKE_%` ones. The model follows the code here, not a reading of the cleanup as symmetric with line 114.
- SQLite tables have no row order. The model keeps each table as a sequence in insertion order.
  - SQLite gives no order, so the properties compare the rows with a given code.
  - `Upsert` models `INSERT OR REPLACE` as removing the row with the same `card_id` and appending the new one, so `card_id` is taken to be the key of `cards`.
- SubscriptionSeeding.RosterPaymentsOf: requires distinct roster codes, which the fixed roster has (`SeedData.VipIdsDistinct`). With repeated codes the Python run would give one code two histories.
- SeedData.RunTwiceIsRunOnce: stated for two completed runs; a failed second run leaves the tables of its cleanup (see `CreateBeautifulData`).

