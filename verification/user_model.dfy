/**
 * The user document: account, mining, KYC, referral and wallet fields with the schema's
 * defaults and enums, the withdrawal sub-record, the referral-based mining rate, and the
 * pre-save rule that hashes a modified password.
 */
module UserModel {
  import opened Common
  import opened Collections

  /** Milliseconds since the epoch. */
  type Time = nat

  type UserId = nat

  datatype KycStatus = KycPending | KycApproved | KycRejected

  datatype WithdrawalStatus = Pending | Approved | Rejected

  function KycStatusName(k: KycStatus): string {
    match k
    case KycPending => "pending"
    case KycApproved => "approved"
    case KycRejected => "rejected"
  }

  /** The kycStatus enum: the status a string names, if it is one of the three. */
  function ParseKycStatus(s: string): (k: Option<KycStatus>)
    ensures k.Some? ==> KycStatusName(k.value) == s
    ensures k.None? ==> s !in {"pending", "approved", "rejected"}
  {
    if s == "pending" then Some(KycPending)
    else if s == "approved" then Some(KycApproved)
    else if s == "rejected" then Some(KycRejected)
    else None
  }

  function WithdrawalStatusName(w: WithdrawalStatus): string {
    match w
    case Pending => "pending"
    case Approved => "approved"
    case Rejected => "rejected"
  }

  /** The withdrawal status enum: the status a string names, if it is one of the three. */
  function ParseWithdrawalStatus(s: string): (w: Option<WithdrawalStatus>)
    ensures w.Some? ==> WithdrawalStatusName(w.value) == s
    ensures w.None? ==> s !in {"pending", "approved", "rejected"}
  {
    if s == "pending" then Some(Pending)
    else if s == "approved" then Some(Approved)
    else if s == "rejected" then Some(Rejected)
    else None
  }

  lemma StatusNamesRoundTrip(k: KycStatus, w: WithdrawalStatus)
    ensures ParseKycStatus(KycStatusName(k)) == Some(k)
    ensures ParseWithdrawalStatus(WithdrawalStatusName(w)) == Some(w)
  {
  }

  /** An element of withdrawalRequests; `id` is its sub-document _id. */
  datatype WithdrawalRequest = WithdrawalRequest(
    id: nat,
    amount: real,
    address: string,
    status: WithdrawalStatus,
    requestDate: Time,
    processedDate: Option<Time>)

  datatype User = User(
    id: UserId,
    email: string,
    password: string,
    plainPassword: string,
    username: string,
    isActive: bool,
    isAdmin: bool,
    isEmailVerified: bool,
    emailVerificationCode: Option<string>,
    emailVerificationExpires: Option<Time>,
    spxBalance: real,
    miningRate: real,
    lastMiningClaim: Time,
    isMining: bool,
    miningStartTime: Option<Time>,
    totalMined: real,
    kycStatus: KycStatus,
    kycSubmissionDate: Option<Time>,
    kycTID: Option<string>,
    kycRejectionReason: Option<string>,
    referralCode: string,
    referredBy: Option<UserId>,
    referralEarnings: real,
    withdrawalRequests: seq<WithdrawalRequest>,
    createdAt: Time)

  /** A session is open exactly when it has a start time. */
  predicate MiningConsistent(u: User) {
    u.isMining <==> u.miningStartTime.Some?
  }

  /**
   * A new document as `new User({...})` builds it at time now: the given fields, and every
   * other field at its schema default.
   */
  function NewUser(id: UserId, email: string, password: string, username: string,
                   referralCode: string, referredBy: Option<UserId>, now: Time): (u: User)
    ensures u.id == id && u.email == email && u.username == username
    ensures u.password == password && u.plainPassword == password
    ensures u.referralCode == referralCode && u.referredBy == referredBy
    ensures u.spxBalance == 0.0 && u.miningRate == BaseRate && !u.isMining && u.totalMined == 0.0
    ensures u.miningStartTime.None? && MiningConsistent(u) && u.lastMiningClaim == now
    ensures u.kycStatus == KycPending && u.kycTID.None? && u.kycSubmissionDate.None? && u.kycRejectionReason.None?
    ensures u.emailVerificationCode.None? && u.emailVerificationExpires.None?
    ensures u.isActive && !u.isAdmin && !u.isEmailVerified
    ensures u.withdrawalRequests == [] && u.referralEarnings == 0.0 && u.createdAt == now
  {
    User(id, email, password, password, username, true, false, false, None, None,
         0.0, BaseRate, now, false, None, 0.0,
         KycPending, None, None, None,
         referralCode, referredBy, 0.0, [], now)
  }

  /**
   * The pre-save hook: the password is replaced by its hash when it was modified since the
   * last save, and the document is saved as it is otherwise.
   */
  function PreSave(u: User, passwordModified: bool, hash: string -> string): (r: User)
    ensures r.password == if passwordModified then hash(u.password) else u.password
    ensures r.(password := u.password) == u
  {
    if passwordModified then u.(password := hash(u.password)) else u
  }

  /** Sort key for `createdAt: -1`. */
  function CreatedAt(u: User): int {
    u.createdAt
  }

  const BaseRate: real := 0.1
  const ReferralBonus: real := 0.005

  /** calculateMiningRate, given the number of users this user referred. */
  function CalculateMiningRate(referralCount: nat): (r: real)
    ensures r >= BaseRate
    ensures referralCount > 0 <==> r > BaseRate
  {
    BaseRate + referralCount as real * ReferralBonus
  }

  lemma MiningRateAtLeastBase(n: nat)
    ensures CalculateMiningRate(n) >= BaseRate
  {
  }

  lemma MiningRateStrictlyIncreasing(m: nat, n: nat)
    requires m < n
    ensures CalculateMiningRate(m) < CalculateMiningRate(n)
  {
  }

  /** One more referral raises the rate by exactly the per-referral bonus. */
  lemma MiningRateNextReferral(n: nat)
    ensures CalculateMiningRate(n + 1) == CalculateMiningRate(n) + ReferralBonus
  {
  }

  /** `find({ referredBy: id })`, in stored order. */
  function Referrals(users: seq<User>, id: UserId): seq<User> {
    Filter(users, (u: User) => u.referredBy == Some(id))
  }

  /** `countDocuments({ referredBy: id })`. */
  function ReferralCount(users: seq<User>, id: UserId): nat {
    |Referrals(users, id)|
  }

  /** The rate calculateMiningRate gives user id over the collection. */
  function RateOf(users: seq<User>, id: UserId): real {
    CalculateMiningRate(ReferralCount(users, id))
  }

  /** Adding a user referred by r adds one referral to r and none to anybody else. */
  lemma ReferralCountAppend(users: seq<User>, u: User, id: UserId)
    ensures ReferralCount(users + [u], id) == ReferralCount(users, id) + (if u.referredBy == Some(id) then 1 else 0)
  {
    FilterAppend(users, u, (v: User) => v.referredBy == Some(id));
  }

  /** Changing a user without changing its referrer changes nobody's referral count. */
  lemma ReferralCountUpdate(users: seq<User>, i: nat, u: User, id: UserId)
    requires i < |users| && u.referredBy == users[i].referredBy
    ensures ReferralCount(users[i := u], id) == ReferralCount(users, id)
  {
    CountUpdate(users, i, u, (v: User) => v.referredBy == Some(id));
  }

  /** What a withdrawal request keeps locked: its amount unless it was rejected. */
  function Locked(w: WithdrawalRequest): real {
    if w.status == Rejected then 0.0 else w.amount
  }

  /** The sum of the amounts of the requests that are pending or approved. */
  function Outstanding(requests: seq<WithdrawalRequest>): real {
    SumOf(requests, Locked)
  }

  /** Balance plus what is locked in withdrawals: the quantity withdrawals move, not create. */
  function Holdings(u: User): real {
    u.spxBalance + Outstanding(u.withdrawalRequests)
  }
}
