/** The Express backend (api.js): the in-memory daily counter USER_MINING_DB
    behind /api/user_info and /api/mine.

    The token balance, the reward computed from it and the token price, and
    the outcome of the token transfer are inputs. The clock is read once per
    helper, so /api/mine takes the day of its check and the day of its
    update separately: the transfer is awaited in between. */
module NodeApi {
  import opened Shared

  const DAILY_LIMIT: real := 2000.0
  const MIN_HOLD: real := 1.0

  /** One value of USER_MINING_DB: the day it counts for and the amount
      mined on that day. */
  datatype Entry = Entry(date: Day, mined: real)

  type Counter = map<string, Entry>

  /** What the wallet has mined on `today` according to the counter. */
  function MinedOn(db: Counter, wallet: string, today: Day): real {
    if wallet in db && db[wallet].date == today then db[wallet].mined else 0.0
  }

  /** The counter after the lazy reset that getUserMiningToday and
      updateUserMining both perform. */
  function Refreshed(db: Counter, wallet: string, today: Day): (db': Counter)
    ensures wallet in db' && db'[wallet] == Entry(today, MinedOn(db, wallet, today))
    ensures wallet in db && db[wallet].date == today ==> db' == db
    ensures !(wallet in db && db[wallet].date == today) ==> db'[wallet].mined == 0.0
    ensures forall w | w != wallet :: (w in db' <==> w in db) && (w in db ==> db'[w] == db[w])
  {
    if wallet in db && db[wallet].date == today then db else db[wallet := Entry(today, 0.0)]
  }

  /** Every entry of the counter lies within the daily limit. */
  ghost predicate Bounded(db: Counter) {
    forall w | w in db :: 0.0 <= db[w].mined <= DAILY_LIMIT
  }

  /** mining_left of /api/user_info. */
  function MiningLeft(minedToday: real): (left: real)
    ensures left >= 0.0
    ensures minedToday >= 0.0 ==> left <= DAILY_LIMIT
    ensures left == 0.0 <==> minedToday >= DAILY_LIMIT
    ensures left > 0.0 ==> minedToday + left == DAILY_LIMIT
  {
    var left := DAILY_LIMIT - minedToday;
    if left < 0.0 then 0.0 else left
  }

  /** The guard of /api/mine: a positive reward passes it exactly when it is
      at most the mining_left that /api/user_info reports, and then adding
      it to a counter within the limit keeps it within the limit. */
  lemma GuardKeepsLimit(minedToday: real, reward: real)
    requires reward > 0.0 && 0.0 <= minedToday <= DAILY_LIMIT
    ensures (DAILY_LIMIT - minedToday < reward) <==> (MiningLeft(minedToday) < reward)
    ensures !(DAILY_LIMIT - minedToday < reward) ==> 0.0 < minedToday + reward <= DAILY_LIMIT
  {
  }

  /** The update after a successful transfer keeps every entry within the
      limit, even if the day has turned since the guard was checked. */
  lemma UpdateKeepsBounded(db: Counter, wallet: string, reward: real, checkDay: Day, updateDay: Day)
    requires Bounded(db) && reward > 0.0
    requires DAILY_LIMIT - MinedOn(db, wallet, checkDay) >= reward
    ensures var seen := Refreshed(db, wallet, checkDay);
            Bounded(seen[wallet := Entry(updateDay, MinedOn(seen, wallet, updateDay) + reward)])
  {
  }

  datatype InfoResponse =
    | InfoMissingWallet                                           // 400
    | Info(balance: real, currentReward: real, miningLeft: real, canMine: bool)

  datatype MineResponse =
    | MissingWallet                     // 400
    | NoHolding                         // success = false
    | LimitReached                      // success = false
    | TransferFailed(reason: string)    // success = false
    | Mined(reward: real, tx: string)   // success = true
  {
    function Status(): int {
      if MissingWallet? then 400 else 200
    }
  }

  /** `!wallet`: the parameter is absent or empty. */
  predicate Missing(wallet: Option<string>) {
    wallet.None? || wallet.value == ""
  }

  /** USER_MINING_DB and the handlers that read and update it. */
  class MiningCounter {
    var db: Counter

    ghost predicate Valid()
      reads this
    {
      Bounded(db)
    }

    constructor ()
      ensures db == map[] && Valid()
    {
      db := map[];
    }

    /** getUserMiningToday: reset a missing or stale entry, then report it. */
    method GetUserMiningToday(wallet: string, today: Day) returns (mined: real)
      modifies this
      ensures db == Refreshed(old(db), wallet, today)
      ensures mined == MinedOn(old(db), wallet, today)
      ensures mined == db[wallet].mined
    {
      if !(wallet in db && db[wallet].date == today) {
        db := db[wallet := Entry(today, 0.0)];
      }
      mined := db[wallet].mined;
    }

    /** updateUserMining: reset a missing or stale entry, then add `amount`. */
    method UpdateUserMining(wallet: string, amount: real, today: Day)
      modifies this
      ensures db == old(db)[wallet := Entry(today, MinedOn(old(db), wallet, today) + amount)]
      ensures forall w | w != wallet :: (w in db <==> w in old(db)) && (w in db ==> db[w] == old(db)[w])
    {
      if !(wallet in db && db[wallet].date == today) {
        db := db[wallet := Entry(today, 0.0)];
      }
      db := db[wallet := Entry(db[wallet].date, db[wallet].mined + amount)];
    }

    /** /api/user_info; `reward` is calcReward(balance, price). Even this
        read resets a stale entry. */
    method UserInfo(wallet: Option<string>, balance: real, reward: real, today: Day)
      returns (r: InfoResponse)
      requires Valid()
      modifies this
      ensures Valid()
      ensures Missing(wallet) ==> r == InfoMissingWallet && db == old(db)
      ensures !Missing(wallet) ==>
                db == Refreshed(old(db), wallet.value, today)
                && r == Info(balance, reward, MiningLeft(MinedOn(old(db), wallet.value, today)), balance >= MIN_HOLD)
      ensures r.Info? ==> 0.0 <= r.miningLeft <= DAILY_LIMIT
    {
      if Missing(wallet) {
        return InfoMissingWallet;
      }
      var canMine := balance >= MIN_HOLD;
      var miningToday := GetUserMiningToday(wallet.value, today);
      var miningLeft := DAILY_LIMIT - miningToday;
      if miningLeft < 0.0 {
        miningLeft := 0.0;
      }
      r := Info(balance, reward, miningLeft, canMine);
    }

    /** /api/mine; `reward` is calcReward(balance, price), which is never
        below 0.1. The guard is checked on `checkDay` and the counter is
        updated on `updateDay`. */
    method Mine(wallet: Option<string>, balance: real, reward: real, transfer: Transfer,
                checkDay: Day, updateDay: Day)
      returns (r: MineResponse)
      requires Valid() && reward > 0.0
      modifies this
      ensures Valid()
      ensures Missing(wallet) ==> r == MissingWallet && db == old(db)
      ensures !Missing(wallet) && balance < MIN_HOLD ==> r == NoHolding && db == old(db)
      ensures !Missing(wallet) && balance >= MIN_HOLD ==>
                var w := wallet.value;
                var seen := Refreshed(old(db), w, checkDay);
                if MiningLeft(MinedOn(old(db), w, checkDay)) < reward then
                  r == LimitReached && db == seen
                else if transfer.Failed? then
                  r == TransferFailed(transfer.reason) && db == seen
                else
                  r == Mined(reward, transfer.signature)
                  && db == seen[w := Entry(updateDay, MinedOn(seen, w, updateDay) + reward)]
      ensures forall w | wallet.None? || w != wallet.value ::
                (w in db <==> w in old(db)) && (w in db ==> db[w] == old(db)[w])
    {
      if Missing(wallet) {
        return MissingWallet;
      }
      if balance < MIN_HOLD {
        return NoHolding;
      }
      var w := wallet.value;
      ghost var before := db;
      var miningToday := GetUserMiningToday(w, checkDay);
      GuardKeepsLimit(miningToday, reward);
      var miningLeft := DAILY_LIMIT - miningToday;
      if miningLeft < reward {
        return LimitReached;
      }
      match transfer {
        case Failed(e) =>
          return TransferFailed(e);
        case Sent(signature) =>
          UpdateKeepsBounded(before, w, reward, checkDay, updateDay);
          UpdateUserMining(w, reward, updateDay);
          return Mined(reward, signature);
      }
    }
  }
}
