/**
 * The wallet handlers: the balance read, the withdrawal request (which debits, "locks",
 * the amount at once and appends a pending request) and the withdrawal history, newest
 * first.
 */
module Wallet {
  import opened Common
  import opened Collections
  import opened UserModel
  import opened SettingsModel
  import opened Store

  datatype WalletError =
    | ValidationFailed
    | WithdrawalsDisabled
    | BelowMinimum(minimum: real)
    | InsufficientBalance
    | ServerError

  datatype BalanceInfo = BalanceInfo(spxBalance: real, totalMined: real, referralEarnings: real)

  /** The request the handler pushes: pending, for the amount and address given, dated now. */
  function NewRequest(id: nat, amount: real, address: string, now: Time): WithdrawalRequest {
    WithdrawalRequest(id, amount, address, Pending, now, None)
  }

  /**
   * The push and the debit of a successful request: a new pending request moves its amount
   * from the balance into the locked total.
   */
  function Lock(u: User, w: WithdrawalRequest): (r: User)
    ensures w.status == Pending ==> Holdings(r) == Holdings(u)
    ensures w.status == Pending ==> Outstanding(r.withdrawalRequests) == Outstanding(u.withdrawalRequests) + w.amount
    ensures var n := |u.withdrawalRequests|;
      |r.withdrawalRequests| == n + 1 && r.withdrawalRequests[..n] == u.withdrawalRequests && r.withdrawalRequests[n] == w
  {
    SumAppend(u.withdrawalRequests, w, Locked);
    u.(withdrawalRequests := u.withdrawalRequests + [w], spxBalance := u.spxBalance - w.amount)
  }

  method Balance(db: Database, uid: UserId) returns (r: Result<BalanceInfo, WalletError>)
    ensures
      match FindUser(db.users, uid)
      case None => r == Err(ServerError)
      case Some(i) =>
        r == Ok(BalanceInfo(db.users[i].spxBalance, db.users[i].totalMined, db.users[i].referralEarnings))
  {
    var found := FindUser(db.users, uid);
    if found.None? {
      return Err(ServerError);
    }
    var user := db.users[found.value];
    r := Ok(BalanceInfo(user.spxBalance, user.totalMined, user.referralEarnings));
  }

  method Withdraw(db: Database, uid: UserId, amount: Option<real>, address: Option<string>, now: Time)
    returns (r: Result<(), WalletError>)
    requires db.Valid()
    modifies db`users, db`nextId
    ensures db.Valid()
    ensures r.Err? ==> db.users == old(db.users)
    ensures amount.None? || !Truthy(address) ==> r == Err(ValidationFailed)
    ensures amount.Some? && Truthy(address) ==>
      var settings := CurrentSettings(db.settings);
      if !settings.withdrawalsEnabled then r == Err(WithdrawalsDisabled)
      else if amount.value < settings.minWithdrawalAmount then r == Err(BelowMinimum(settings.minWithdrawalAmount))
      else
        match FindUser(old(db.users), uid)
        case None => r == Err(ServerError)
        case Some(i) =>
          var u := old(db.users[i]);
          if amount.value > u.spxBalance then r == Err(InsufficientBalance)
          else
            && r == Ok(())
            && db.users == old(db.users)[i := Lock(u, NewRequest(old(db.nextId), amount.value, address.value, now))]
            && db.users[i].spxBalance >= 0.0
            && Holdings(db.users[i]) == Holdings(u)
  {
    if amount.None? || !Truthy(address) {
      return Err(ValidationFailed);
    }
    var settings := CurrentSettings(db.settings);
    if !settings.withdrawalsEnabled {
      return Err(WithdrawalsDisabled);
    }
    if amount.value < settings.minWithdrawalAmount {
      return Err(BelowMinimum(settings.minWithdrawalAmount));
    }
    var found := FindUser(db.users, uid);
    if found.None? {
      return Err(ServerError);
    }
    var i := found.value;
    var user := db.users[i];
    if amount.value > user.spxBalance {
      return Err(InsufficientBalance);
    }
    var wid := db.NewId();
    var request := NewRequest(wid, amount.value, address.value, now);
    db.users := db.users[i := Lock(user, request)];
    r := Ok(());
  }

  function RequestDate(w: WithdrawalRequest): int {
    w.requestDate
  }

  /** The history response: the user's requests, newest first. */
  method History(db: Database, uid: UserId) returns (r: Result<seq<WithdrawalRequest>, WalletError>)
    ensures FindUser(db.users, uid).None? <==> r == Err(ServerError)
    ensures r.Ok? ==>
      var u := db.users[FindUser(db.users, uid).value];
      && NewestFirst(r.value, RequestDate)
      && multiset(r.value) == multiset(u.withdrawalRequests)
  {
    var found := FindUser(db.users, uid);
    if found.None? {
      return Err(ServerError);
    }
    var user := db.users[found.value];
    r := Ok(SortNewestFirst(user.withdrawalRequests, RequestDate));
  }
}
