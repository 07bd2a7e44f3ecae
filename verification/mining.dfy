/**
 * The mining session handlers: start (snapshots the referral-based rate), stop (the claim:
 * elapsed hours times the stored rate, credited to the balance and the lifetime total) and
 * status (live earnings at the freshly computed rate, which it also stores).
 */
module Mining {
  import opened Common
  import opened Helpers
  import opened UserModel
  import opened SettingsModel
  import opened Store

  datatype MiningError = MiningDisabled | AlreadyMining | NotMining | ServerError

  datatype Started = Started(miningStartTime: Time, miningRate: real)

  datatype Stopped = Stopped(earnings: real, newBalance: real, totalMined: real)

  datatype MiningStatus = MiningStatus(
    isMining: bool,
    miningStartTime: Option<Time>,
    currentEarnings: real,
    miningRate: real,
    spxBalance: real,
    totalMined: real,
    miningEnabled: bool)

  /** The session's start in milliseconds; JavaScript reads a null date as 0 in a subtraction. */
  function StartMs(u: User): Time {
    if u.miningStartTime.Some? then u.miningStartTime.value else 0
  }

  /** What stopping at now earns: the session's elapsed hours times the stored rate. */
  function SessionEarnings(u: User, now: Time): real {
    CalculateMiningEarnings(StartMs(u), now, u.miningRate)
  }

  /** The fields start sets: the session opens at now with the given rate. */
  function BeginSession(u: User, now: Time, rate: real): (r: User)
    ensures r.isMining && MiningConsistent(r) && StartMs(r) == now && r.miningRate == rate
    ensures r.spxBalance == u.spxBalance && r.totalMined == u.totalMined
    ensures r.referredBy == u.referredBy && r.withdrawalRequests == u.withdrawalRequests
  {
    u.(isMining := true, miningStartTime := Some(now), miningRate := rate)
  }

  /** The fields stop sets: both totals grow by the session's earnings and the session closes. */
  function Claim(u: User, now: Time): (r: User)
    ensures !r.isMining && MiningConsistent(r) && r.lastMiningClaim == now
    ensures r.miningRate == u.miningRate && r.referredBy == u.referredBy
    ensures r.withdrawalRequests == u.withdrawalRequests
  {
    var e := SessionEarnings(u, now);
    u.(spxBalance := u.spxBalance + e, totalMined := u.totalMined + e,
       isMining := false, miningStartTime := None, lastMiningClaim := now)
  }

  /** The live earnings status reports: zero unless a session with a start time is open. */
  function CurrentEarnings(u: User, now: Time, rate: real): real {
    if u.isMining && u.miningStartTime.Some? then CalculateMiningEarnings(u.miningStartTime.value, now, rate) else 0.0
  }

  method Start(db: Database, uid: UserId, now: Time) returns (r: Result<Started, MiningError>)
    requires db.Valid()
    modifies db`users
    ensures db.Valid()
    ensures !CurrentSettings(db.settings).miningEnabled ==> r == Err(MiningDisabled) && db.users == old(db.users)
    ensures CurrentSettings(db.settings).miningEnabled ==>
      match FindUser(old(db.users), uid)
      case None => r == Err(ServerError) && db.users == old(db.users)
      case Some(i) =>
        if old(db.users[i]).isMining then r == Err(AlreadyMining) && db.users == old(db.users)
        else
          var rate := RateOf(old(db.users), uid);
          && r == Ok(Started(now, rate))
          && db.users == old(db.users)[i := BeginSession(old(db.users[i]), now, rate)]
  {
    var settings := CurrentSettings(db.settings);
    if !settings.miningEnabled {
      return Err(MiningDisabled);
    }
    var found := FindUser(db.users, uid);
    if found.None? {
      return Err(ServerError);
    }
    var i := found.value;
    var user := db.users[i];
    if user.isMining {
      return Err(AlreadyMining);
    }
    var rate := RateOf(db.users, uid);
    db.users := db.users[i := BeginSession(user, now, rate)];
    r := Ok(Started(now, rate));
  }

  method Stop(db: Database, uid: UserId, now: Time) returns (r: Result<Stopped, MiningError>)
    requires db.Valid()
    modifies db`users
    ensures db.Valid()
    ensures
      match FindUser(old(db.users), uid)
      case None => r == Err(ServerError) && db.users == old(db.users)
      case Some(i) =>
        var u := old(db.users[i]);
        if !u.isMining then r == Err(NotMining) && db.users == old(db.users)
        else
          var e := SessionEarnings(u, now);
          && r == Ok(Stopped(e, u.spxBalance + e, u.totalMined + e))
          && db.users == old(db.users)[i := Claim(u, now)]
  {
    var found := FindUser(db.users, uid);
    if found.None? {
      return Err(ServerError);
    }
    var i := found.value;
    var user := db.users[i];
    if !user.isMining {
      return Err(NotMining);
    }
    var earnings := SessionEarnings(user, now);
    var updated := Claim(user, now);
    db.users := db.users[i := updated];
    r := Ok(Stopped(earnings, updated.spxBalance, updated.totalMined));
  }

  method Status(db: Database, uid: UserId, now: Time) returns (r: Result<MiningStatus, MiningError>)
    requires db.Valid()
    modifies db`users
    ensures db.Valid()
    ensures
      match FindUser(old(db.users), uid)
      case None => r == Err(ServerError) && db.users == old(db.users)
      case Some(i) =>
        var u := old(db.users[i]);
        var rate := RateOf(old(db.users), uid);
        && db.users == old(db.users)[i := u.(miningRate := rate)]
        && r == Ok(MiningStatus(u.isMining, u.miningStartTime, CurrentEarnings(u, now, rate), rate,
                                u.spxBalance, u.totalMined, CurrentSettings(db.settings).miningEnabled))
  {
    var found := FindUser(db.users, uid);
    if found.None? {
      return Err(ServerError);
    }
    var i := found.value;
    var user := db.users[i];
    var settings := CurrentSettings(db.settings);
    var rate := RateOf(db.users, uid);
    if user.miningRate != rate {
      user := user.(miningRate := rate);
      db.users := db.users[i := user];
    }
    r := Ok(MiningStatus(user.isMining, user.miningStartTime, CurrentEarnings(user, now, rate), rate,
                         user.spxBalance, user.totalMined, settings.miningEnabled));
  }

  /** Stop credits the balance and the lifetime total by the same amount, the session's earnings. */
  lemma ClaimCreditsBothTotals(u: User, now: Time)
    ensures Claim(u, now).spxBalance - u.spxBalance == SessionEarnings(u, now)
    ensures Claim(u, now).totalMined - u.totalMined == SessionEarnings(u, now)
  {
  }

  /** Start at t0 with rate r, stop n hours later: the balance grows by exactly n * r. */
  lemma StartThenStopEarnsHoursTimesRate(u: User, t0: Time, rate: real, hours: nat)
    ensures Claim(BeginSession(u, t0, rate), t0 + hours * MsPerHour).spxBalance == u.spxBalance + hours as real * rate
    ensures Claim(BeginSession(u, t0, rate), t0 + hours * MsPerHour).totalMined == u.totalMined + hours as real * rate
  {
    EarningsOfWholeHours(t0, hours, rate);
  }

  /** Stopping at the instant of the start earns nothing and leaves the balance unchanged. */
  lemma StopAtStartEarnsNothing(u: User, t0: Time, rate: real)
    ensures Claim(BeginSession(u, t0, rate), t0).spxBalance == u.spxBalance
  {
    EarningsOfEmptySession(t0, rate);
  }

  /**
   * Status stores the recomputed rate, so a stop at the same instant settles exactly the
   * earnings the status reported.
   */
  lemma StatusThenStopAgree(u: User, now: Time, rate: real)
    requires u.isMining && MiningConsistent(u)
    ensures SessionEarnings(u.(miningRate := rate), now) == CurrentEarnings(u, now, rate)
  {
  }

  /**
   * The stored rate is read when the session is stopped, not when it starts: a rate change
   * during the session (the referral bonus, or a status refresh) applies to the whole session.
   */
  lemma RateChangeDuringSessionAppliesToWholeSession(u: User, now: Time, bonus: real)
    requires u.isMining && MiningConsistent(u)
    ensures SessionEarnings(u.(miningRate := u.miningRate + bonus), now)
         == SessionEarnings(u, now) + ElapsedHours(u.miningStartTime.value, now) * bonus
  {
  }

  /** A claim with the clock not behind the start and a non-negative rate keeps a non-negative balance. */
  lemma ClaimKeepsBalanceNonNegative(u: User, now: Time)
    requires u.spxBalance >= 0.0 && u.miningRate >= 0.0 && StartMs(u) <= now
    ensures Claim(u, now).spxBalance >= u.spxBalance >= 0.0
  {
    EarningsOfEmptySession(StartMs(u), u.miningRate);
    EarningsMonotone(StartMs(u), StartMs(u), now, u.miningRate);
  }
}
