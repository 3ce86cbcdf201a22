# BitTap game economy — a Dafny model

BitTap is a tap-to-earn game served by a Telegram bot and an HTTP API
(`bot.js`). Every handler reads one row of the `users` table, computes,
and writes it back; `/start` also inserts into the `referrals` table.
This project models that economy with the database replaced by values:

- `options.dfy` — `Option`, for nullable columns and JavaScript's `undefined`.
- `accounts.dfy` (module `Accounts`) — the schema defaults and constants,
  the `Account` row, its economic `Profile`, the two `Tables`, and the
  row transitions of registration, reset, tap and referral credit.
- `energy.dfy` (module `Energy`) — `updateEnergy`: one unit per whole
  elapsed second, capped at `max_energy`, written only when something is
  added; and what repeated observation does.
- `mining.dfy` (module `AutoMining`) — starting a run (an eight-hour window)
  and settling it (`processAutoMining`: `level * 8` once, then the window is
  cleared).
- `referral.dfy` (module `Referral`) — the `/start` command: the referral
  code taken from the argument (`trim`, first `"ref"` removed), the textual
  self-check against `userId.toString()`, the insert gated on the unique
  `referred_id`, and the 5000-coin credit.
- `store.dfy` (module `Handlers`) — class `Store`, holding `users`
  (`map<int, Account>`) and `referrals` (`map<int, int>`, referred id to
  referrer id), with one method per handler. Each method is written the way
  the handler computes and is proved equal to the specification functions
  of the modules above; its invariant `Valid` says that the auto-mining
  window columns are both null or both set eight hours apart, and that only
  registered accounts appear as referred.

Time is one integer `now` in milliseconds, passed to each operation; SQL
`NOW()` and JavaScript `new Date()` are the same instant. Each handler is
taken as atomic.

The model follows the code, including where it departs from what such an
economy would be expected to guarantee:

- Starting auto-mining checks neither the level nor an existing window and
  never fails; it overwrites the window, and a finished but unclaimed run is lost
  (`AutoMining.RestartForfeitsUnclaimedRun`). With level 0 a started run
  never pays (`AutoMining.UnownedRunNeverPays`).
- Accrual depends on how often energy is observed: each write restarts the
  clock at `now` and drops the fraction of a second already elapsed
  (`Energy.PollingLosesFractions`); polling never gains over one
  observation (`Energy.PollingNeverBeatsOnePoll`).
- The code does not keep `0 <= energy <= max_energy`, a non-decreasing
  `total_coins`, or "level 0 means no window": tap and the upgrade
  endpoints store client-reported values verbatim, reset zeroes the totals,
  and buying level 0 leaves any window in place. The energy lemmas
  therefore assume `energy <= max_energy` of the row they start from.
- The referrer is credited only if its row exists; the referrals row is
  inserted either way.

## Model

| member | source | states |
|---|---|---|
| `Accounts.NewAccount` | bot.js:24-40 | a fresh row carries the schema defaults (coins 0, total 0, click power 1, boost 1, energy 1000 of 1000, energy level 1, auto-mining level 0), no window, no referrer and no daily stamp, and the energy clock and creation time at `now` |
| `Accounts.ResetEconomy` | bot.js:205-208 | reset restores the economic columns of a fresh row and clears the window, keeping name, referrer, energy clock, daily stamp and creation time |
| `Accounts.Tapped` | bot.js:314-317 | a tap raises the lifetime total by exactly the click power, takes balance and energy as reported, restarts the energy clock, and changes no other column |
| `Accounts.Credited` | bot.js:145-148 | a referral credit adds 5000 to both balances and nothing else |
| `Energy.SecondsElapsed` | bot.js:74 | the whole seconds elapsed, rounded down, also for negative differences |
| `Energy.Regenerate` | bot.js:74-85 | the row is left as it is (energy clock included) exactly when no whole second has passed or energy is at capacity; otherwise energy grows by the elapsed seconds up to the cap and the clock moves to `now`; only energy and clock change; from `energy <= max` energy never falls and never exceeds the cap; a clock moved backward changes nothing |
| `Energy.RegenerateIdempotent` | bot.js:74-83 | a second regeneration at the same instant writes nothing |
| `Energy.TapRestartsRegeneration` | bot.js:314-317 | regeneration at the instant of a tap writes nothing |
| `Energy.RegenerateHalfFull` | bot.js:74-83 | 500 of 1000 with 100 s elapsed gives 600 |
| `Energy.RegenerateNearlyFull` | bot.js:74-83 | 950 of 1000 with 100 s elapsed gives 1000 |
| `Energy.StepNoGain` | bot.js:74-83 | one intermediate write never gains over a single later regeneration |
| `Energy.PollingNeverBeatsOnePoll` | bot.js:74-83 | over any ascending sequence of observations energy never falls, never exceeds one observation at the last instant, and stays within capacity |
| `Energy.PollingLosesFractions` | bot.js:79-82 | observing at 1.5 s and 3 s gives 2 units where one observation at 3 s gives 3 |
| `AutoMining.EarnedOrZero` | bot.js:301 | the reported `earned` field: 0 for an outcome that is not completed, the payout otherwise, and a non-zero report identifies a completed outcome with that payout |
| `AutoMining.RunDue` | bot.js:103-107 | a due run pays at least 8 coins; a row with consistent window columns and no start is never due |
| `AutoMining.Settle` | bot.js:103-116 | settlement pays exactly when the level is positive, a window end is set and `now` has reached it; it then adds `level * 8` to both balances and clears both window columns; otherwise the row is untouched and the outcome is not completed |
| `AutoMining.Started` | bot.js:378-384 | starting sets the window to `[now, now + 28 800 000 ms]` and changes nothing else |
| `AutoMining.SecondClaimPaysNothing` | bot.js:103-116 | after a completed settlement any further settlement pays nothing and changes nothing |
| `AutoMining.RunPaysAtEnd` | bot.js:103-109 | a run started at `t` by a level-`L` owner pays `L * 8` from `t + 8 h` on and not before |
| `AutoMining.ScenarioLevelThree` | bot.js:103-116 | level 3, claimed 8 h 1 s after the start: 24 coins, then not completed |
| `AutoMining.UnownedRunNeverPays` | bot.js:103 | with level 0 a started run never settles |
| `AutoMining.RestartForfeitsUnclaimedRun` | bot.js:378-384 | starting over a due run replaces its window, so it no longer pays, without crediting anything |
| `AutoMining.IdleClaimsAreNoOps` | bot.js:103 | without a window no sequence of claims pays or changes anything |
| `AutoMining.DueRunLastedEightHours` | bot.js:103-107 | in a row whose window columns are consistent, a run that pays was started at least eight hours earlier |
| `AutoMining.ClaimsPayAtMostOnce` | bot.js:103-116 | any sequence of claims completes at most once and credits exactly `level * 8` per completion to both balances |
| `Referral.TrimStart` | bot.js:130 | removes exactly the leading run of ECMAScript white space and line terminators |
| `Referral.TrimEnd` | bot.js:130 | removes exactly the trailing run of white space and line terminators |
| `Referral.Trim` | bot.js:130 | the trimmed string is no longer than the original and starts and ends with a character that is not white space; it is empty only when the whole original is white space |
| `Referral.IndexOf` | bot.js:130 | the first occurrence of the pattern, or -1 when there is none |
| `Referral.CutReinserted` | bot.js:130 | cutting an occurrence of the pattern out and putting it back at the same place gives the original string |
| `Referral.RemoveFirst` | bot.js:130 | `replace` with a string pattern: the string unchanged when the pattern does not occur; otherwise one pattern's length shorter, and re-inserting the pattern at its first occurrence gives the original |
| `Referral.ReferralCode` | bot.js:130 | the code is the trimmed argument when it contains no "ref", and otherwise that string with its first "ref" cut out: putting "ref" back at its first occurrence gives the trimmed argument |
| `Referral.Digits` | bot.js:138 | the decimal form of a non-negative id is a non-empty digit string without leading zero |
| `Referral.DecimalString` | bot.js:138 | `toString` of an integer: non-empty, starting with "-" exactly for a negative number, followed by digits that read back as the absolute value |
| `Referral.DigitsValue` | bot.js:141 | `parseInt` of a digit string: below 10 to the power of its length, and 0 exactly when every digit is "0" |
| `Referral.DigitsRoundTrip` | bot.js:141 | reading the decimal form of `n` as an integer gives `n` |
| `Referral.LeadingZeroIgnored` | bot.js:141 | a leading zero does not change the integer read |
| `Referral.TrimKeepsClean` | bot.js:130 | trimming leaves a string without white space at its ends as it is |
| `Referral.TrimLeadingBlank` | bot.js:130 | a leading blank is dropped by trimming |
| `Referral.TrimAfterBlank` | bot.js:130 | a blank followed by a string with non-blank ends trims to that string |
| `Referral.MarkerFirst` | bot.js:130 | a string that starts with "ref" has its first "ref" at position 0 |
| `Referral.RemoveMarker` | bot.js:130 | removing the first "ref" of "ref" followed by `d` leaves `d` |
| `Referral.CodeAfterMarker` | bot.js:130 | the argument `" ref<d>"` yields the code `d` |
| `Referral.InviteCodeRoundTrip` | bot.js:239 | the invitation link's argument yields the inviter's decimal id, which reads back as that id |
| `Referral.Enrolled` | bot.js:133-136 | the row is inserted only for an unknown id; existing rows are untouched |
| `Referral.RegisterWith` | bot.js:133-149 | a referrals row is inserted exactly when there is a referrer and the user has none yet; then and only then the referrer's row, if present, is credited; every other row is as after the insert; the invariant is kept |
| `Referral.ReferrerAsWritten` | bot.js:138-141 | a referrer is attempted exactly when the code is non-empty, differs as text from the user's decimal id and reads as an integer |
| `Referral.RegisterAsWritten` | bot.js:126-149 | `/start` as written: a referral is recorded exactly when the user has none yet, the code is non-empty, differs as text from the user's id and reads as an integer, and the row recorded names that integer; otherwise the referrals table is unchanged; the user's row exists afterwards |
| `Referral.PaddedCode` | bot.js:130 | the argument " ref0" followed by the digits of `n` yields the code "0" followed by those digits |
| `Referral.PaddedSelfCode` | bot.js:130-141 | the argument " ref0" followed by the digits of `n` yields a code that differs from `n`'s text and reads as `n` |
| `Referral.RecordedSelfReferralCredits` | bot.js:139-148 | once a referral of a user to themselves is inserted, their own row receives the 5000 bonus |
| `Referral.SelfReferralPassesTextualCheck` | bot.js:138-148 | user `n` sending `"/start ref0<n>"` is recorded as their own referrer and credited 5000 |
| `Referral.Referrer` | bot.js:138-141 | the corrected check: as written, and in addition the integer read is not the user's id |
| `Referral.Register` | bot.js:126-149 | `/start` with the corrected check: a referral is recorded exactly as written, and in addition only when the integer read is not the user's own id |
| `Referral.RegisterNeverSelfCredits` | bot.js:138-148 | with the corrected check no user is their own referrer and the user's own row is never credited |
| `Referral.CorrectionOnlyAffectsNonCanonicalCodes` | bot.js:138-141 | both checks agree when the code is the canonical decimal form of the id it reads as |
| `Referral.ReferralRecordedAtMostOnce` | bot.js:139-148 | however often a user sends `/start`, at most one referral is recorded for them, none if one already was, and a recorded referrer never changes |
| `Handlers.Observe` | bot.js:285-286 | the user GET's side effects: energy within capacity and not falling, lifetime total not falling, window consistency kept |
| `Handlers.ObserveIdempotent` | bot.js:282-307 | a second GET at the same instant changes nothing and reports no payout |
| `Handlers.Store.constructor` | bot.js:21-58 | the store starts with both tables empty and valid |
| `Handlers.Store.UpdateEnergy` | bot.js:63-91 | the row becomes its regeneration and the new energy is returned; an unknown id returns 1000 and changes nothing |
| `Handlers.Store.ProcessAutoMining` | bot.js:94-124 | the row becomes its settlement and the outcome is returned; an unknown id is not completed |
| `Handlers.Store.Start` | bot.js:126-150 | `/start` is the registration with the textual self-check: row insert, referrals insert and credit as `Referral.RegisterWith` |
| `Handlers.Store.Reset` | bot.js:195-213 | only the operator may reset; the target row, if present, gets the reset economy; nothing else changes |
| `Handlers.Store.GetUser` | bot.js:282-307 | the row is observed; the reply carries its profile, or the default object for an unknown id, and the settlement outcome with `earned` 0 when not completed |
| `Handlers.Store.Tap` | bot.js:309-323 | the row becomes the tapped row; nothing else changes |
| `Handlers.Store.Upgrade` | bot.js:325-339 | only balance, boost level and click power of the row are overwritten |
| `Handlers.Store.UpgradeEnergy` | bot.js:341-355 | only balance, energy level and capacity of the row are overwritten |
| `Handlers.Store.BuyAutoMining` | bot.js:357-371 | only balance and auto-mining level of the row are overwritten |
| `Handlers.Store.StartAutoMining` | bot.js:373-390 | the window becomes `[now, now + 8 h]` whatever the requested level and any earlier window, and its end is returned |
| `Handlers.Store.ClaimAutoMining` | bot.js:392-411 | a claim succeeds exactly when the row's run is due, replying with `level * 8` and the balances raised by it, and only once eight hours have passed since the run started; otherwise it is refused and the row untouched |
| `Handlers.ClaimTwice` | bot.js:392-411 | a claim right after a successful one is refused and leaves both balances, `coins` and `total_coins`, as the first set them |

## Findings

| source | as written | input that shows it | evidently intended | confidence | as-written member | corrected member |
|---|---|---|---|---|---|---|
| bot.js:138-148 | the self-referral check compares the code as text with `userId.toString()`, while the referrer inserted and credited is `parseInt(code)` | user 123 sends `/start ref0123`: the code `"0123"` differs from `"123"`, `parseInt` gives 123, so the row `(123, 123)` is inserted and user 123 is credited 5000 | no user can be recorded or credited as their own referrer: compare the parsed id with the user's id | high, not executed | `Referral.SelfReferralPassesTextualCheck` | `Referral.RegisterNeverSelfCredits` |

`Handlers.Store.Start` keeps the check as written, so that the store stays
a model of the handler; the corrected registration is `Referral.Register`,
built on the same `Referral.RegisterWith` with `Referral.Referrer`. The
at-most-once guarantee `Referral.ReferralRecordedAtMostOnce` is proved of the
as-written registration; its proof uses only the contract of
`Referral.RegisterWith`.

## Left out

- Telegram wiring, keyboards and message texts, the Express routes, JSON
  replies and HTTP status codes: presentation only.
- The `pg` pool and `initDB`: the tables are the two maps. The `referrals`
  columns `id`, `bonus_claimed` (never written) and `created_at` are not
  modelled.
- Database errors: every `catch` (which logs, or in `updateEnergy` returns
  1000 and in `processAutoMining` returns not completed) is unmodelled,
  except that a referrer that does not read as an integer (`NaN`) makes the
  referrals insert fail, which the model treats as "no referral".
- `parseInt` is an input of `/start` (`None` for `NaN`); only strings of
  decimal digits are read by `Referral.DigitsValue`.
- `Referral.DecimalString`: `toString` of integers of 10^21 and more, which
  JavaScript writes in exponent form, is not modelled (Telegram ids are far
  smaller).
- Integer widths: `INT`/`BIGINT` overflow and JavaScript's 2^53 precision
  limit are not modelled; all columns are unbounded integers. Reported
  values of a missing or non-numeric type (`null`, strings) are not modelled.
- The race between the read and the write of `updateEnergy` and
  `processAutoMining`, and between concurrent taps: each handler is atomic.
- Timestamp parsing, the time-zone difference between SQL `NOW()` and
  JavaScript dates, and `toLocaleString`.
- The profile callback's message: its one write, the energy update, is
  `Handlers.Store.UpdateEnergy`. The read-only queries: the referral-count
  message, the statistics and the top-10 list.
- The `/start` pattern matches "/start" anywhere in the text and stops at a
  line break; the argument after it is an input.
