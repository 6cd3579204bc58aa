# SOLAY39 daily mining: quota policy and payout bookkeeping

This project models the two backends of the SOLAY39 "mining" service. Each
pays a holder of the SOLAY39 token a reward and keeps a per-wallet daily cap.
They share no code, so the model has one module for each.

- `Backend` (backend/main.py, FastAPI). It holds the quota engine behind
  `/user_info`. That engine derives `can_mine`, `has_quota`, `daily_quota`,
  `current_reward` and `mining_left` from the balance and the amount mined
  today. The module also holds the `mining_log` table, an append-only
  sequence of rows with a recursive daily sum, and the `/mine` action.
  `/mine` checks the address, the balance threshold and the daily sum. It
  then sends the remaining quota and records one row.
  - `MineStep` is `/mine` exactly as written, on the ledger as a value. It
    takes the day the sum is read for and the day the row is stamped with as
    two inputs.
  - `MiningLog.Mine` is the imperative handler over the table. It uses a
    single day for both (see Findings). That single day also means the date
    cannot change while the transfer runs, between the daily-sum read
    (backend/main.py:248) and the insert (backend/main.py:263).
- `NodeApi` (api.js, Express). It holds the in-memory `USER_MINING_DB`
  counter, modelled as a class over a `map<string, Entry>`. Its helpers
  `getUserMiningToday` and `updateUserMining` reset a stale entry lazily.
  The module also holds the `/api/user_info` and `/api/mine` handlers.
  `/api/mine` reads the clock once for its guard and again for its update,
  with the awaited transfer in between. The model therefore takes two days
  there, and the daily-limit invariant is proved even when the day turns
  between them.

Inputs that stand for the outside world:
- the token balance;
- whether the wallet address parses as a public key;
- the outcome of the token transfer: a signature, or an error with a message;
- the reward the Node backend computes from the balance and the token price;
- the current day, as an integer ordinal.

Requests are assumed to run one at a time.

The Python daily sum filters rows on the server's local date (`date.today()`,
backend/main.py:121). Rows are stamped with the UTC time (`datetime.utcnow()`,
backend/main.py:133). The code does not sum over the UTC day, and the model
follows the code: `MineStep` keeps the two days apart.

## Model

| member | source | states |
|---|---|---|
| `Backend.DailyMined` | backend/main.py:119-127 | The sum of `amount` over one wallet's rows on one day. It is 0 when no row matches (the NULL sum reads as 0). It is non-negative when every amount is. |
| `Backend.DailyMinedConcat` | backend/main.py:124-127 | The daily sum over two concatenated tables is the sum of the two daily sums. |
| `Backend.DailyMinedAppend` | backend/main.py:124-133 | Inserting one row adds its amount to the sum for its own wallet and day. Every other (wallet, day) sum is unchanged. |
| `Backend.QuotaFor` | backend/main.py:211-229 | `can_mine` iff balance >= MIN_HOLD_TO_MINE. `has_quota` iff balance >= MIN_HOLD_FOR_QUOTA, which implies `can_mine`. `current_reward` = `daily_quota` = DAILY_QUOTA or 0. `mining_left` >= 0. It is at most `daily_quota` when the mined amount is non-negative, and 0 when there is no quota. It is positive iff mined < `daily_quota`, and then mined + `mining_left` = `daily_quota`. |
| `Backend.UserInfo` | backend/main.py:200-233 | 400 iff the address does not parse. Otherwise the reply echoes the wallet and the balance, `mined_today` is the ledger's daily sum, and the quota fields are `QuotaFor(balance, mined_today)`, so `can_mine`, `has_quota`, `current_reward` and `mining_left` = max(0, `daily_quota` - `mined_today`) hold of the endpoint's reply. Over a ledger of positive rewards, 0 <= `mining_left` <= DAILY_QUOTA, and `mining_left` is 0 without quota. |
| `Backend.MiningLeftNonIncreasing` | backend/main.py:216-219 | Appending positive rewards to the ledger never raises the reported `mining_left`. |
| `Backend.MineStep` | backend/main.py:235-265 | 400 iff the address is invalid. 403 iff the address is valid and the balance is below MIN_HOLD_FOR_QUOTA. "Quota reached" (200, success = false) iff the address is valid, the balance meets the threshold and today's sum >= DAILY_QUOTA. 500 iff the address is valid, the balance meets the threshold, today's sum < DAILY_QUOTA and the transfer failed, and the reply carries the transfer's error. Success iff the address is valid, the balance meets the threshold, today's sum < DAILY_QUOTA and the transfer returned a signature. The reward is positive and brings the sum to DAILY_QUOTA. The "no reward" reply never occurs. The ledger gains exactly the row (wallet, reward, tx, stamp day) on success and is unchanged otherwise. |
| `Backend.InfoPredictsMine` | backend/main.py:244-252 | With a valid address and a successful transfer, `/mine` pays iff `/user_info` shows `has_quota` and a positive `mining_left`. The reward paid equals that `mining_left`. |
| `Backend.MineLeavesOtherSums` | backend/main.py:257-263 | No `/mine` outcome changes the daily sum of any (wallet, day) other than its own wallet on the stamp day. |
| `Backend.MineFillsQuota` | backend/main.py:252-263 | With one clock, after a successful `/mine` the wallet's sum for the day is exactly DAILY_QUOTA, and `/user_info` reports `mining_left` = 0. |
| `Backend.SecondMineIsNoop` | backend/main.py:248-250 | After a successful `/mine`, a second `/mine` by the same wallet on the same day pays nothing and leaves the ledger as it is, whatever the balance and transfer are then. With a valid address and enough balance it answers "quota reached". |
| `Backend.MineKeepsCap` | backend/main.py:248-263 | With one clock, `/mine` keeps every recorded reward positive and every wallet's daily sum at most DAILY_QUOTA. |
| `Backend.SkewedClocksPayTwice` | backend/main.py:119-133 | When the local date is 1 and the UTC date is 0, two `/mine` calls by one wallet each pay 50. That wallet's UTC day then sums to 100, which exceeds DAILY_QUOTA. |
| `Backend.MiningLog.constructor` | backend/main.py:50-63 | The table starts empty and satisfies the cap invariant. |
| `Backend.MiningLog.RecordMining` | backend/main.py:129-135 | The table afterwards is the old table plus the one new row. |
| `Backend.MiningLog.Mine` | backend/main.py:235-265 | The reply and the new table are `MineStep` with one day for the read and the stamp. The cap invariant is preserved. |
| `NodeApi.Refreshed` | api.js:58-63 | The wallet's entry afterwards is (today, mined today), where mined today is 0 for a missing or stale entry. A map whose entry is already dated today is unchanged. Every other wallet's entry is untouched. |
| `NodeApi.MiningLeft` | api.js:93-94 | `mining_left` >= 0. It is at most DAILY_LIMIT when the mined amount is non-negative. It is 0 iff mined >= DAILY_LIMIT. When positive, mined + `mining_left` = DAILY_LIMIT. |
| `NodeApi.GuardKeepsLimit` | api.js:113-116 | For a positive reward, the guard `DAILY_LIMIT - mining_today < reward` holds iff reward exceeds the `mining_left` of `/api/user_info`. When the guard passes, mined + reward stays in (0, DAILY_LIMIT]. |
| `NodeApi.UpdateKeepsBounded` | api.js:114-133 | The post-transfer update keeps every entry within [0, DAILY_LIMIT], even when the day changed between the guard and the update. |
| `NodeApi.MiningCounter.constructor` | api.js:29 | The counter starts empty, which satisfies the limit invariant. |
| `NodeApi.MiningCounter.GetUserMiningToday` | api.js:58-64 | The counter becomes `Refreshed`, and the result is the wallet's amount for today (0 if the entry was missing or stale). |
| `NodeApi.MiningCounter.UpdateUserMining` | api.js:66-72 | The wallet's entry becomes (today, mined today + amount). All other wallets' entries are unchanged. |
| `NodeApi.MiningCounter.UserInfo` | api.js:85-103 | 400 without a counter change when the wallet is missing or empty. Otherwise the wallet's entry is reset if stale, `mining_left` = `MiningLeft` of today's amount and lies in [0, DAILY_LIMIT], and `can_mine` iff balance >= MIN_HOLD. The limit invariant is preserved. |
| `NodeApi.MiningCounter.Mine` | api.js:106-139 | A missing wallet gives 400 and a balance below MIN_HOLD gives a failure, both without touching the counter. A reward above `mining_left` gives "limit reached", and a failed transfer gives a failure; both leave only the reset entry. A successful transfer adds the reward to the wallet's entry for the update day. Other wallets are never touched, and every entry stays within [0, DAILY_LIMIT]. |

## Left out

- Floating point: balances and amounts are exact reals. Python float sums and JS doubles can round, so for example the ledger sum after a payout could miss DAILY_QUOTA by a rounding error.
- Configuration: DAILY_QUOTA, MIN_HOLD_TO_MINE and MIN_HOLD_FOR_QUOTA are fixed at their defaults (50, 1, 100000). Their environment overrides are not modelled.
- Balance lookup (`get_token_balance`, `getUserBalance`): the balance is an input. A network error in the Python lookup ends the request with an unhandled exception, which is not modelled. The JS lookup turns every error into balance 0, which the balance input covers.
- Address parsing (`PublicKey(wallet)`): in Python the parse result is the boolean input `validAddress`. In api.js only an absent or empty wallet is rejected; an unparsable one reaches the balance lookup and reads as balance 0.
- Token transfer (`send_token_reward`, `load_treasury_keypair`, the associated-account calls, `sendAndConfirmTransaction`): the transfer is an input outcome, a signature or an error. The decimal scaling of the raw amount is not modelled.
- `calcReward`, `getTokenPriceEUR`, `price_eur`, BASE_REWARD and FULL_REWARD_BALANCE: the Node reward is an input, required positive (calcReward never returns less than 0.1). `price_eur` is not part of either user-info reply here.
- Concurrency: two parallel `/mine` requests can both read the same daily sum before either writes. Requests are modelled one at a time.
- A crash between a successful transfer and `record_mining` would lose the record. The insert is modelled as always succeeding.
- The clock: `date.today()`, `datetime.utcnow()` and `new Date().toISOString()` become day inputs. In the model the day is always an argument of the daily sum; the source's call sites leave `for_date` out, so it defaults to `date.today()`.
- The row id (AUTOINCREMENT) is the row's position in the sequence. The SQLite schema setup in `backend/db_init.py` and the two Streamlit front ends are not part of this model.

## Findings

| source | as written | input that shows it | evidently intended | confidence | as-written member | corrected member |
|---|---|---|---|---|---|---|
| backend/main.py:121-133 | `/mine` sums today's payouts for the local date (`date.today()`) but stamps new rows with the UTC time (`datetime.utcnow()`). | The server runs at UTC+2, and at 00:30 local time a wallet holding 200000 calls `/mine` twice. The local date has no rows, so each call pays 50. Both rows land on the previous UTC day, for 100 in one day. | The day the sum is read for is the day rows are stamped with, which caps each wallet at DAILY_QUOTA per day (`MineKeepsCap`). | medium: needs a server clock outside UTC; not executed | `Backend.SkewedClocksPayTwice` | `Backend.MiningLog.Mine` |
