/** The FastAPI backend (backend/main.py): the daily quota engine behind
    /user_info and /mine, and the append-only mining_log table.

    The token balance, the validity of the wallet address (a library parse)
    and the outcome of the token transfer are inputs. Requests are handled one
    at a time. */
module Backend {
  import opened Shared

  const DAILY_QUOTA: real := 50.0
  const MIN_HOLD_TO_MINE: real := 1.0
  const MIN_HOLD_FOR_QUOTA: real := 100000.0

  // ---------------------------------------------------------------------
  // The mining_log table
  // ---------------------------------------------------------------------

  /** One row of mining_log; `day` is DATE(created_at). The row id is the
      position in the table. */
  datatype Record = Record(wallet: string, amount: real, tx: Option<string>, day: Day)

  predicate Matches(r: Record, wallet: string, day: Day) {
    r.wallet == wallet && r.day == day
  }

  /** The daily-sum query of get_wallet_daily_mined: the sum of `amount` over
      the rows of one wallet on one day, where an empty sum reads as 0. */
  function DailyMined(rows: seq<Record>, wallet: string, day: Day): (s: real)
    ensures (forall i | 0 <= i < |rows| :: !Matches(rows[i], wallet, day)) ==> s == 0.0
    ensures (forall i | 0 <= i < |rows| :: rows[i].amount >= 0.0) ==> s >= 0.0
  {
    if rows == [] then 0.0
    else
      (if Matches(rows[0], wallet, day) then rows[0].amount else 0.0)
      + DailyMined(rows[1..], wallet, day)
  }

  lemma {:induction false} DailyMinedConcat(a: seq<Record>, b: seq<Record>, wallet: string, day: Day)
    ensures DailyMined(a + b, wallet, day) == DailyMined(a, wallet, day) + DailyMined(b, wallet, day)
  {
    if a == [] {
      assert a + b == b;
    } else {
      assert (a + b)[1..] == a[1..] + b;
      DailyMinedConcat(a[1..], b, wallet, day);
    }
  }

  /** Inserting one row adds its amount to the sum of its own wallet and day,
      and to no other. */
  lemma DailyMinedAppend(rows: seq<Record>, r: Record, wallet: string, day: Day)
    ensures DailyMined(rows + [r], wallet, day)
         == DailyMined(rows, wallet, day) + (if Matches(r, wallet, day) then r.amount else 0.0)
  {
    DailyMinedConcat(rows, [r], wallet, day);
  }

  /** Every recorded reward is positive. */
  ghost predicate Positive(rows: seq<Record>) {
    forall i | 0 <= i < |rows| :: rows[i].amount > 0.0
  }

  /** No wallet has been paid more than DAILY_QUOTA on any one day. */
  ghost predicate Capped(rows: seq<Record>) {
    forall wallet: string, day: Day :: DailyMined(rows, wallet, day) <= DAILY_QUOTA
  }

  // ---------------------------------------------------------------------
  // The quota engine (user_info)
  // ---------------------------------------------------------------------

  /** What /user_info reports besides the wallet, the balance and the price. */
  datatype Quota = Quota(canMine: bool, hasQuota: bool, dailyQuota: real,
                         currentReward: real, miningLeft: real)

  function QuotaFor(balance: real, minedToday: real): (q: Quota)
    ensures q.canMine <==> balance >= MIN_HOLD_TO_MINE
    ensures q.hasQuota <==> balance >= MIN_HOLD_FOR_QUOTA
    ensures q.hasQuota ==> q.canMine
    ensures q.currentReward == q.dailyQuota == (if q.hasQuota then DAILY_QUOTA else 0.0)
    ensures q.miningLeft >= 0.0
    ensures minedToday >= 0.0 ==> q.miningLeft <= q.dailyQuota
    ensures minedToday >= 0.0 && !q.hasQuota ==> q.miningLeft == 0.0
    ensures q.miningLeft > 0.0 <==> minedToday < q.dailyQuota
    ensures q.miningLeft > 0.0 ==> minedToday + q.miningLeft == q.dailyQuota
  {
    var hasQuota := balance >= MIN_HOLD_FOR_QUOTA;
    var dailyQuota := if hasQuota then DAILY_QUOTA else 0.0;
    Quota(balance >= MIN_HOLD_TO_MINE, hasQuota, dailyQuota,
          if hasQuota then DAILY_QUOTA else 0.0,
          Max(0.0, dailyQuota - minedToday))
  }

  datatype InfoResponse =
    | InfoInvalidWallet                                              // 400
    | Info(wallet: string, balance: real, minedToday: real, quota: Quota)
  {
    function Status(): int {
      if InfoInvalidWallet? then 400 else 200
    }
  }

  /** /user_info for a wallet whose address parses iff `validAddress`, whose
      token balance is `balance`, against the ledger `rows` on day `today`. */
  function UserInfo(rows: seq<Record>, wallet: string, validAddress: bool, balance: real, today: Day)
    : (r: InfoResponse)
    ensures r.Status() == 400 <==> !validAddress
    ensures r.Info? ==> r.wallet == wallet && r.balance == balance
                        && r.minedToday == DailyMined(rows, wallet, today)
                        && r.quota == QuotaFor(balance, r.minedToday)
    ensures r.Info? && Positive(rows) ==> 0.0 <= r.quota.miningLeft <= DAILY_QUOTA
    ensures r.Info? && Positive(rows) && !r.quota.hasQuota ==> r.quota.miningLeft == 0.0
  {
    if !validAddress then InfoInvalidWallet
    else
      var minedToday := DailyMined(rows, wallet, today);
      Info(wallet, balance, minedToday, QuotaFor(balance, minedToday))
  }

  /** Appending rewards to the ledger never raises what user_info reports as
      left to mine today. */
  lemma MiningLeftNonIncreasing(rows: seq<Record>, extra: seq<Record>, wallet: string, balance: real, today: Day)
    requires Positive(extra)
    ensures UserInfo(rows + extra, wallet, true, balance, today).quota.miningLeft
         <= UserInfo(rows, wallet, true, balance, today).quota.miningLeft
  {
    DailyMinedConcat(rows, extra, wallet, today);
    assert DailyMined(extra, wallet, today) >= 0.0;
  }

  // ---------------------------------------------------------------------
  // The mine action
  // ---------------------------------------------------------------------

  datatype MineOutcome =
    | InvalidWallet                     // 400
    | NotEligible                       // 403: balance below MIN_HOLD_FOR_QUOTA
    | QuotaReached                      // 200, success = false
    | NothingLeft                       // 200, success = false: reward <= 0
    | TransferError(reason: string)     // 500
    | Mined(reward: real, tx: string)   // 200, success = true
  {
    function Status(): int {
      match this
      case InvalidWallet => 400
      case NotEligible => 403
      case TransferError(_) => 500
      case _ => 200
    }
  }

  /** /mine as written, on the ledger as a value: today's sum is read for
      `queryDay` (the server's local date) and the new row is stamped with
      `stampDay` (the UTC date at the time of the insert). Returns the reply
      and the ledger afterwards. */
  function MineStep(rows: seq<Record>, wallet: string, validAddress: bool, balance: real,
                    transfer: Transfer, queryDay: Day, stampDay: Day): (r: (MineOutcome, seq<Record>))
    ensures r.0.Status() == 400 <==> !validAddress
    ensures r.0.Status() == 403 <==> validAddress && balance < MIN_HOLD_FOR_QUOTA
    ensures r.0 == QuotaReached <==> validAddress && balance >= MIN_HOLD_FOR_QUOTA
                                     && DailyMined(rows, wallet, queryDay) >= DAILY_QUOTA
    ensures r.0.Status() == 500 <==> validAddress && balance >= MIN_HOLD_FOR_QUOTA
                                     && DailyMined(rows, wallet, queryDay) < DAILY_QUOTA && transfer.Failed?
    ensures r.0.TransferError? ==> r.0.reason == transfer.reason
    ensures r.0.Mined? <==> validAddress && balance >= MIN_HOLD_FOR_QUOTA
                            && DailyMined(rows, wallet, queryDay) < DAILY_QUOTA && transfer.Sent?
    ensures r.0.Mined? ==> r.0.tx == transfer.signature && r.0.reward > 0.0
                           && DailyMined(rows, wallet, queryDay) + r.0.reward == DAILY_QUOTA
    ensures r.0 != NothingLeft
    ensures r.1 == if r.0.Mined? then rows + [Record(wallet, r.0.reward, Some(r.0.tx), stampDay)] else rows
  {
    if !validAddress then (InvalidWallet, rows)
    else if balance < MIN_HOLD_FOR_QUOTA then (NotEligible, rows)
    else
      var minedToday := DailyMined(rows, wallet, queryDay);
      if minedToday >= DAILY_QUOTA then (QuotaReached, rows)
      else
        var reward := DAILY_QUOTA - minedToday;
        if reward <= 0.0 then (NothingLeft, rows)
        else
          match transfer
          case Failed(e) => (TransferError(e), rows)
          case Sent(tx) => (Mined(reward, tx), rows + [Record(wallet, reward, Some(tx), stampDay)])
  }

  /** The reward /mine pays is exactly what /user_info reports as left to
      mine, and it is paid exactly when that is positive. */
  lemma InfoPredictsMine(rows: seq<Record>, wallet: string, balance: real, tx: string, today: Day)
    ensures var info := UserInfo(rows, wallet, true, balance, today);
            var outcome := MineStep(rows, wallet, true, balance, Sent(tx), today, today).0;
            (outcome.Mined? <==> info.quota.miningLeft > 0.0 && info.quota.hasQuota)
            && (outcome.Mined? ==> outcome.reward == info.quota.miningLeft)
  {
  }

  /** A rejected or failed /mine leaves every daily sum as it was; a
      successful one changes only the sum of its own wallet and stamp day. */
  lemma MineLeavesOtherSums(rows: seq<Record>, wallet: string, validAddress: bool, balance: real,
                            transfer: Transfer, queryDay: Day, stampDay: Day, w: string, d: Day)
    requires w != wallet || d != stampDay
    ensures DailyMined(MineStep(rows, wallet, validAddress, balance, transfer, queryDay, stampDay).1, w, d)
         == DailyMined(rows, w, d)
  {
    var r := MineStep(rows, wallet, validAddress, balance, transfer, queryDay, stampDay);
    if r.0.Mined? {
      DailyMinedAppend(rows, Record(wallet, r.0.reward, Some(r.0.tx), stampDay), w, d);
    }
  }

  /** With one clock, a successful /mine brings the wallet's sum for the day
      to exactly DAILY_QUOTA, so /user_info then reports nothing left. */
  lemma MineFillsQuota(rows: seq<Record>, wallet: string, balance: real, transfer: Transfer, today: Day)
    requires MineStep(rows, wallet, true, balance, transfer, today, today).0.Mined?
    ensures var rows' := MineStep(rows, wallet, true, balance, transfer, today, today).1;
            DailyMined(rows', wallet, today) == DAILY_QUOTA
            && UserInfo(rows', wallet, true, balance, today).quota.miningLeft == 0.0
  {
    var r := MineStep(rows, wallet, true, balance, transfer, today, today);
    DailyMinedAppend(rows, Record(wallet, r.0.reward, Some(r.0.tx), today), wallet, today);
  }

  /** A second /mine by the same wallet on the same day pays nothing and
      leaves the ledger alone, whatever the balance and transfer then are. */
  lemma SecondMineIsNoop(rows: seq<Record>, wallet: string, balance: real, transfer: Transfer,
                         validAddress2: bool, balance2: real, transfer2: Transfer, today: Day)
    requires MineStep(rows, wallet, true, balance, transfer, today, today).0.Mined?
    ensures var rows' := MineStep(rows, wallet, true, balance, transfer, today, today).1;
            var again := MineStep(rows', wallet, validAddress2, balance2, transfer2, today, today);
            !again.0.Mined? && again.1 == rows'
            && (validAddress2 && balance2 >= MIN_HOLD_FOR_QUOTA ==> again.0 == QuotaReached)
  {
    MineFillsQuota(rows, wallet, balance, transfer, today);
  }

  /** With one clock, /mine keeps every recorded reward positive and every
      wallet's daily sum within DAILY_QUOTA. */
  lemma MineKeepsCap(rows: seq<Record>, wallet: string, validAddress: bool, balance: real,
                     transfer: Transfer, today: Day)
    requires Positive(rows) && Capped(rows)
    ensures var rows' := MineStep(rows, wallet, validAddress, balance, transfer, today, today).1;
            Positive(rows') && Capped(rows')
  {
    var r := MineStep(rows, wallet, validAddress, balance, transfer, today, today);
    if r.0.Mined? {
      var row := Record(wallet, r.0.reward, Some(r.0.tx), today);
      forall w: string, d: Day ensures DailyMined(r.1, w, d) <= DAILY_QUOTA {
        DailyMinedAppend(rows, row, w, d);
      }
    }
  }

  /** The ledger's daily sum is read on the local date but new rows are
      stamped with the UTC date. While the two dates differ, every /mine
      sees nothing mined "today" and pays the full quota again: two calls
      put 100 on one wallet's UTC day. */
  lemma SkewedClocksPayTwice()
    ensures var first := MineStep([], "W", true, 200000.0, Sent("a"), 1, 0);
            var second := MineStep(first.1, "W", true, 200000.0, Sent("b"), 1, 0);
            first.0 == Mined(50.0, "a") && second.0 == Mined(50.0, "b")
            && DailyMined(second.1, "W", 0) == 100.0 > DAILY_QUOTA
  {
    var first := MineStep([], "W", true, 200000.0, Sent("a"), 1, 0);
    assert first.1 == [Record("W", 50.0, Some("a"), 0)];
    var second := MineStep(first.1, "W", true, 200000.0, Sent("b"), 1, 0);
    assert second.1 == first.1 + [Record("W", 50.0, Some("b"), 0)];
    DailyMinedAppend(first.1, Record("W", 50.0, Some("b"), 0), "W", 0);
  }

  /** The mining_log table, updated in place by record_mining. */
  class MiningLog {
    var rows: seq<Record>

    ghost predicate Valid()
      reads this
    {
      Positive(rows) && Capped(rows)
    }

    constructor ()
      ensures rows == [] && Valid()
    {
      rows := [];
    }

    /** record_mining: INSERT one row. */
    method RecordMining(wallet: string, amount: real, tx: Option<string>, day: Day)
      modifies this
      ensures rows == old(rows) + [Record(wallet, amount, tx, day)]
    {
      rows := rows + [Record(wallet, amount, tx, day)];
    }

    /** /mine with a single clock: the day it reads the sum for is the day
        it stamps the new row with. */
    method Mine(wallet: string, validAddress: bool, balance: real, transfer: Transfer, today: Day)
      returns (outcome: MineOutcome)
      requires Valid()
      modifies this
      ensures Valid()
      ensures (outcome, rows) == MineStep(old(rows), wallet, validAddress, balance, transfer, today, today)
    {
      MineKeepsCap(rows, wallet, validAddress, balance, transfer, today);
      if !validAddress {
        return InvalidWallet;
      }
      if balance < MIN_HOLD_FOR_QUOTA {
        return NotEligible;
      }
      var minedToday := DailyMined(rows, wallet, today);
      if minedToday >= DAILY_QUOTA {
        return QuotaReached;
      }
      var reward := DAILY_QUOTA - minedToday;
      if reward <= 0.0 {
        // the source's "no reward available" reply cannot be reached
        assert false;
      }
      match transfer {
        case Failed(e) =>
          return TransferError(e);
        case Sent(tx) =>
          RecordMining(wallet, reward, Some(tx), today);
          return Mined(reward, tx);
      }
    }
  }
}
