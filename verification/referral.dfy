/** The referral handlers: the user's code with the users it brought in, and the counts. */
module Referral {
  import opened Common
  import opened Collections
  import opened UserModel
  import opened SettingsModel
  import opened Store

  datatype ReferralError = ServerError

  datatype ReferralInfo = ReferralInfo(
    referralCode: string,
    referralCount: nat,
    referralEarnings: real,
    referralCommission: real,
    referralEnabled: bool,
    referredUsers: seq<User>)

  datatype ReferralStats = ReferralStats(totalReferrals: nat, activeReferrals: nat, totalEarnings: real)

  /** GET /referral/info: the count, and the referred users newest first. */
  function Info(users: seq<User>, stored: Option<Settings>, uid: UserId): (r: Result<ReferralInfo, ReferralError>)
    ensures FindUser(users, uid).None? <==> r == Err(ServerError)
    ensures r.Ok? ==>
      var u := users[FindUser(users, uid).value];
      r.value.referralCode == u.referralCode && r.value.referralEarnings == u.referralEarnings
    ensures r.Ok? ==> r.value.referralCount == |r.value.referredUsers| == ReferralCount(users, uid)
    ensures r.Ok? ==> multiset(r.value.referredUsers) == multiset(Referrals(users, uid))
    ensures r.Ok? ==> forall k :: 0 <= k < |r.value.referredUsers| ==>
      r.value.referredUsers[k] in users && r.value.referredUsers[k].referredBy == Some(uid)
    ensures r.Ok? ==> forall k :: 0 <= k < |users| && users[k].referredBy == Some(uid) ==> users[k] in r.value.referredUsers
    ensures r.Ok? ==> NewestFirst(r.value.referredUsers, CreatedAt)
    ensures r.Ok? ==>
      && r.value.referralCommission == CurrentSettings(stored).referralCommission
      && r.value.referralEnabled == CurrentSettings(stored).referralEnabled
  {
    match FindUser(users, uid)
    case None => Err(ServerError)
    case Some(i) =>
      var u := users[i];
      var s := CurrentSettings(stored);
      var referrals := Referrals(users, uid);
      var referred := SortNewestFirst(referrals, CreatedAt);
      SameMembers(referred, referrals);
      Ok(ReferralInfo(u.referralCode, ReferralCount(users, uid), u.referralEarnings,
                      s.referralCommission, s.referralEnabled, referred))
  }

  /** GET /referral/stats: referrals, those of them mining now, and the earnings field. */
  function Stats(users: seq<User>, uid: UserId): (r: Result<ReferralStats, ReferralError>)
    ensures FindUser(users, uid).None? <==> r == Err(ServerError)
    ensures r.Ok? ==> r.value.totalReferrals == ReferralCount(users, uid)
    ensures r.Ok? ==> r.value.activeReferrals == Count(Referrals(users, uid), (v: User) => v.isMining)
    ensures r.Ok? ==> r.value.activeReferrals <= r.value.totalReferrals
    ensures r.Ok? ==> r.value.totalEarnings == users[FindUser(users, uid).value].referralEarnings
  {
    match FindUser(users, uid)
    case None => Err(ServerError)
    case Some(i) =>
      var active := (v: User) => v.referredBy == Some(uid) && v.isMining;
      ActiveAreMiningReferrals(users, uid);
      Ok(ReferralStats(ReferralCount(users, uid), Count(users, active), users[i].referralEarnings))
  }

  /**
   * `countDocuments({ referredBy: id, isMining: true })` counts the referred users that are
   * mining: the same number as counting the miners among the referrals.
   */
  lemma ActiveAreMiningReferrals(users: seq<User>, uid: UserId)
    ensures Count(users, (v: User) => v.referredBy == Some(uid) && v.isMining)
         == Count(Referrals(users, uid), (v: User) => v.isMining)
    ensures Count(users, (v: User) => v.referredBy == Some(uid) && v.isMining) <= ReferralCount(users, uid)
  {
    CountConj(users, (v: User) => v.referredBy == Some(uid), (v: User) => v.isMining,
              (v: User) => v.referredBy == Some(uid) && v.isMining);
  }
}
