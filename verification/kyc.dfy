/**
 * The user's KYC handlers: submitting a payment transaction id, and reading the KYC state
 * with the payment instructions from the settings.
 */
module Kyc {
  import opened Common
  import opened UserModel
  import opened SettingsModel
  import opened Store

  datatype KycError = ValidationFailed | KycDisabled | AlreadyApproved | ServerError

  datatype Submitted = Submitted(kycStatus: KycStatus, submissionDate: Time)

  datatype KycInfo = KycInfo(
    kycStatus: KycStatus,
    kycSubmissionDate: Option<Time>,
    kycRejectionReason: Option<string>,
    kycTID: Option<string>,
    kycEnabled: bool,
    usdtAmount: real,
    usdtWalletAddress: string)

  /** The fields a submission sets: the id, back to pending, dated now, any earlier reason cleared. */
  function Submit(u: User, tid: string, now: Time): User {
    u.(kycTID := Some(tid), kycStatus := KycPending, kycSubmissionDate := Some(now), kycRejectionReason := None)
  }

  /** POST /kyc/submit: validation, then the settings switch, then the user's current status. */
  method SubmitKyc(db: Database, uid: UserId, tid: Option<string>, now: Time) returns (r: Result<Submitted, KycError>)
    requires db.Valid()
    modifies db`users
    ensures db.Valid()
    ensures r.Err? ==> db.users == old(db.users)
    ensures !Truthy(tid) ==> r == Err(ValidationFailed)
    ensures Truthy(tid) && !CurrentSettings(db.settings).kycEnabled ==> r == Err(KycDisabled)
    ensures Truthy(tid) && CurrentSettings(db.settings).kycEnabled ==>
      match FindUser(old(db.users), uid)
      case None => r == Err(ServerError)
      case Some(i) =>
        var u := old(db.users[i]);
        if u.kycStatus == KycApproved then r == Err(AlreadyApproved)
        else
          && r == Ok(Submitted(KycPending, now))
          && db.users == old(db.users)[i := Submit(u, tid.value, now)]
  {
    if !Truthy(tid) {
      return Err(ValidationFailed);
    }
    var settings := CurrentSettings(db.settings);
    if !settings.kycEnabled {
      return Err(KycDisabled);
    }
    var found := FindUser(db.users, uid);
    if found.None? {
      return Err(ServerError);
    }
    var i := found.value;
    var user := db.users[i];
    if user.kycStatus == KycApproved {
      return Err(AlreadyApproved);
    }
    db.users := db.users[i := Submit(user, tid.value, now)];
    r := Ok(Submitted(KycPending, now));
  }

  /** A submission puts the user in the admin KYC queue: a non-empty id, pending, dated. */
  lemma SubmitEntersQueue(u: User, tid: string, now: Time)
    requires tid != ""
    ensures Truthy(Submit(u, tid, now).kycTID)
    ensures Submit(u, tid, now).kycStatus == KycPending && Submit(u, tid, now).kycSubmissionDate == Some(now)
    ensures Submit(u, tid, now).kycRejectionReason.None?
  {
  }

  /** Resubmission after a rejection is allowed and replaces the earlier id. */
  lemma ResubmitAfterRejection(u: User, tid1: string, tid2: string, t1: Time, t2: Time)
    ensures Submit(Submit(u, tid1, t1).(kycStatus := KycRejected), tid2, t2) == Submit(u, tid2, t2)
  {
  }

  /** GET /kyc/status: the user's KYC fields and the settings' payment details. */
  function KycStatusOf(users: seq<User>, stored: Option<Settings>, uid: UserId): (r: Result<KycInfo, KycError>)
    ensures FindUser(users, uid).None? <==> r == Err(ServerError)
    ensures r.Ok? ==>
      var u := users[FindUser(users, uid).value];
      && u.id == uid
      && r.value.kycStatus == u.kycStatus && r.value.kycTID == u.kycTID
      && r.value.kycSubmissionDate == u.kycSubmissionDate && r.value.kycRejectionReason == u.kycRejectionReason
    ensures r.Ok? ==>
      && r.value.kycEnabled == CurrentSettings(stored).kycEnabled
      && r.value.usdtAmount == CurrentSettings(stored).kycUsdtAmount
      && r.value.usdtWalletAddress == CurrentSettings(stored).usdtWalletAddress
  {
    match FindUser(users, uid)
    case None => Err(ServerError)
    case Some(i) =>
      var u := users[i];
      var s := CurrentSettings(stored);
      Ok(KycInfo(u.kycStatus, u.kycSubmissionDate, u.kycRejectionReason, u.kycTID,
                 s.kycEnabled, s.kycUsdtAmount, s.usdtWalletAddress))
  }
}
