/**
 * The authentication handlers: registration (with the referral link, the referrer's rate
 * bonus and the unique referral code), login and email verification.
 */
module Auth {
  import opened Common
  import opened Collections
  import opened Helpers
  import opened UserModel
  import opened Store

  datatype AuthError =
    | ValidationFailed
    | UserExists
    | InvalidCredentials
    | UserNotFound
    | InvalidCode
    | CodeExpired

  /**
   * An approximation of isEmail: one '@' with a non-empty local part before it and a
   * domain after it that holds a '.' neither first nor last.
   */
  predicate IsEmail(s: string) {
    exists at :: 0 < at < |s| - 1 && s[at] == '@' && '@' !in s[..at] && '@' !in s[at + 1..]
      && exists dot :: at + 1 < dot < |s| - 1 && s[dot] == '.'
  }

  /** The register validators: an email, a password of six characters or more, a username of three or more. */
  predicate RegistrationValid(email: string, password: string, username: string) {
    IsEmail(email) && |password| >= 6 && |username| >= 3
  }

  /** `findOne({ $or: [{ email }, { username }] })` finds somebody. */
  predicate Taken(users: seq<User>, email: string, username: string) {
    exists i :: 0 <= i < |users| && (users[i].email == email || users[i].username == username)
  }

  /** `findOne({ referralCode })`. */
  function FindByReferralCode(users: seq<User>, code: string): (r: Option<nat>)
    ensures r.Some? ==> r.value < |users| && users[r.value].referralCode == code
    ensures r.None? <==> CodeFree(users, code)
  {
    FirstIndex(users, (u: User) => u.referralCode == code)
  }

  /** `findOne({ email })`. */
  function FindByEmail(users: seq<User>, email: string): (r: Option<nat>)
    ensures r.Some? ==> r.value < |users| && users[r.value].email == email
    ensures r.None? ==> forall k :: 0 <= k < |users| ==> users[k].email != email
  {
    FirstIndex(users, (u: User) => u.email == email)
  }

  predicate CodeFree(users: seq<User>, code: string) {
    forall k :: 0 <= k < |users| ==> users[k].referralCode != code
  }

  predicate UniqueReferralCodes(users: seq<User>) {
    forall i, j :: 0 <= i < j < |users| ==> users[i].referralCode != users[j].referralCode
  }

  /** A draw of randomBytes(4) whose code nobody holds yet. */
  predicate FreeDraw(users: seq<User>, draw: seq<Byte>) {
    |draw| == 4 && CodeFree(users, GenerateReferralCode(draw))
  }

  /** The draw the uniqueness loop stops at: the first whose code is free. */
  function FirstFreeDraw(users: seq<User>, draws: seq<seq<Byte>>): (r: Option<nat>)
    ensures r.Some? ==> r.value < |draws| && FreeDraw(users, draws[r.value])
    ensures r.Some? ==> forall k :: 0 <= k < r.value ==> !FreeDraw(users, draws[k])
    ensures r.None? <==> forall k :: 0 <= k < |draws| ==> !FreeDraw(users, draws[k])
  {
    FirstIndex(draws, (d: seq<Byte>) => FreeDraw(users, d))
  }

  /** The referrer the body's referral code names; an empty or unknown code names nobody. */
  function Referrer(users: seq<User>, referralCode: string): (r: Option<nat>)
    ensures r.Some? ==> referralCode != "" && r.value < |users| && users[r.value].referralCode == referralCode
    ensures r.None? <==> referralCode == "" || CodeFree(users, referralCode)
  {
    if referralCode == "" then None else FindByReferralCode(users, referralCode)
  }

  /** The referrer's `$inc: { miningRate: 0.005 }`. */
  function Credit(users: seq<User>, referrer: Option<nat>): (r: seq<User>)
    requires referrer.Some? ==> referrer.value < |users|
    ensures |r| == |users|
    ensures referrer.None? ==> r == users
    ensures referrer.Some? ==>
      var i := referrer.value;
      && r[i].miningRate == users[i].miningRate + ReferralBonus
      && r[i].(miningRate := users[i].miningRate) == users[i]
      && forall j :: 0 <= j < |users| && j != i ==> r[j] == users[j]
  {
    if referrer.None? then users
    else users[referrer.value := users[referrer.value].(miningRate := users[referrer.value].miningRate + ReferralBonus)]
  }

  /** The document registration stores: hashed on the first save, then marked verified. */
  function Registered(id: UserId, email: string, password: string, username: string, code: string,
                      referredBy: Option<UserId>, now: Time, hash: string -> string): (u: User)
    ensures u.password == hash(password) && u.plainPassword == password
    ensures u.isEmailVerified && u.referralCode == code && u.referredBy == referredBy
    ensures u.spxBalance == 0.0 && u.miningRate == BaseRate && !u.isAdmin
    ensures u.id == id && u.email == email && u.username == username && u.createdAt == now
    ensures u.(password := password, isEmailVerified := false) == NewUser(id, email, password, username, code, referredBy, now)
  {
    PreSave(NewUser(id, email, password, username, code, referredBy, now), true, hash).(isEmailVerified := true)
  }

  /**
   * POST /register. Each element of draws is one call of randomBytes(4); the handler loops
   * until a code is free, so some draw must give a free code.
   */
  method Register(db: Database, email: string, password: string, username: string, referralCode: string,
                  draws: seq<seq<Byte>>, hash: string -> string, now: Time)
    returns (r: Result<UserId, AuthError>)
    requires db.Valid()
    requires forall k :: 0 <= k < |draws| ==> |draws[k]| == 4
    requires FirstFreeDraw(db.users, draws).Some?
    modifies db`users, db`nextId
    ensures db.Valid()
    ensures r.Err? ==> db.users == old(db.users)
    ensures !RegistrationValid(email, password, username) ==> r == Err(ValidationFailed)
    ensures RegistrationValid(email, password, username) && Taken(old(db.users), email, username) ==>
      r == Err(UserExists)
    ensures RegistrationValid(email, password, username) && !Taken(old(db.users), email, username) ==>
      var code := GenerateReferralCode(draws[FirstFreeDraw(old(db.users), draws).value]);
      var referrer := Referrer(old(db.users), referralCode);
      var referredBy := if referrer.Some? then Some(old(db.users)[referrer.value].id) else None;
      && r == Ok(old(db.nextId))
      && db.users == Credit(old(db.users), referrer)
                     + [Registered(old(db.nextId), email, password, username, code, referredBy, now, hash)]
      && IsReferralCode(code) && CodeFree(old(db.users), code)
      && (UniqueReferralCodes(old(db.users)) ==> UniqueReferralCodes(db.users))
  {
    if !RegistrationValid(email, password, username) {
      return Err(ValidationFailed);
    }
    if Taken(db.users, email, username) {
      return Err(UserExists);
    }
    var referrer := Referrer(db.users, referralCode);

    ghost var stop := FirstFreeDraw(db.users, draws).value;
    var newCode := "";
    var isUnique := false;
    var j := 0;
    while !isUnique
      invariant !isUnique ==> j <= stop
      invariant isUnique ==> j == stop + 1 && newCode == GenerateReferralCode(draws[stop])
      decreases stop + 1 - j
    {
      newCode := GenerateReferralCode(draws[j]);
      var existing := FindByReferralCode(db.users, newCode);
      if existing.None? {
        isUnique := true;
      }
      j := j + 1;
    }

    var referredBy := if referrer.Some? then Some(db.users[referrer.value].id) else None;
    ghost var before := db.users;
    var id := db.NewId();
    // saved once with the password hashed, the referrer credited, then saved again as verified
    var user := Registered(id, email, password, username, newCode, referredBy, now, hash);
    RegisteredValid(before, id, referrer, user);
    db.users := Credit(db.users, referrer) + [user];
    r := Ok(id);
  }

  /** Crediting the referrer and appending a fresh, valid user keeps the collection valid and codes unique. */
  lemma RegisteredValid(users: seq<User>, nextId: nat, referrer: Option<nat>, u: User)
    requires UsersValid(users, nextId) && u.id == nextId && UserValid(u, nextId + 1)
    requires referrer.Some? ==> referrer.value < |users|
    requires CodeFree(users, u.referralCode)
    ensures UsersValid(Credit(users, referrer) + [u], nextId + 1)
    ensures UniqueReferralCodes(users) ==> UniqueReferralCodes(Credit(users, referrer) + [u])
  {
    var after := Credit(users, referrer) + [u];
    forall i | 0 <= i < |after| ensures UserValid(after[i], nextId + 1) && after[i].referralCode == (users + [u])[i].referralCode {
      if i < |users| {
        assert after[i].id == users[i].id && after[i].withdrawalRequests == users[i].withdrawalRequests;
        assert UserValid(users[i], nextId);
      }
    }
  }

  /**
   * A referrer whose stored rate matched calculateMiningRate before the registration still
   * matches it after: the bonus is exactly one referral's worth.
   */
  lemma RegistrationKeepsReferrerRateInSync(users: seq<User>, ri: nat, u: User)
    requires ri < |users| && u.referredBy == Some(users[ri].id)
    requires users[ri].miningRate == RateOf(users, users[ri].id)
    ensures var after := Credit(users, Some(ri)) + [u];
      after[ri].miningRate == RateOf(after, users[ri].id)
  {
    var id := users[ri].id;
    var credited := Credit(users, Some(ri));
    ReferralCountUpdate(users, ri, credited[ri], id);
    ReferralCountAppend(credited, u, id);
    MiningRateNextReferral(ReferralCount(users, id));
  }

  /** Everybody but the referrer keeps the rate; the new user is referred by nobody else. */
  lemma RegistrationLeavesOtherRates(users: seq<User>, ri: Option<nat>, u: User, id: UserId)
    requires ri.Some? ==> ri.value < |users| && u.referredBy == Some(users[ri.value].id)
    requires ri.None? ==> u.referredBy.None?
    requires ri.Some? ==> users[ri.value].id != id
    ensures ReferralCount(Credit(users, ri) + [u], id) == ReferralCount(users, id)
  {
    var credited := Credit(users, ri);
    if ri.Some? {
      ReferralCountUpdate(users, ri.value, credited[ri.value], id);
    }
    ReferralCountAppend(credited, u, id);
  }

  /** What login returns on success: the user found by email. */
  function Login(users: seq<User>, email: string, password: Option<string>, compare: (string, string) -> bool)
    : (r: Result<UserId, AuthError>)
    ensures !IsEmail(email) || password.None? ==> r == Err(ValidationFailed)
    ensures r.Ok? ==> exists k :: 0 <= k < |users| && users[k].id == r.value && users[k].email == email
                                   && compare(password.value, users[k].password)
    ensures IsEmail(email) && password.Some? && FindByEmail(users, email).None? ==> r == Err(InvalidCredentials)
    ensures IsEmail(email) && password.Some? && FindByEmail(users, email).Some? ==>
      var u := users[FindByEmail(users, email).value];
      r == if compare(password.value, u.password) then Ok(u.id) else Err(InvalidCredentials)
  {
    if !IsEmail(email) || password.None? then Err(ValidationFailed)
    else
      match FindByEmail(users, email)
      case None => Err(InvalidCredentials)
      case Some(k) => if compare(password.value, users[k].password) then Ok(users[k].id) else Err(InvalidCredentials)
  }

  /** A stored user logs in with the password registration hashed, when compare recognises the hash. */
  lemma LoginAfterRegister(users: seq<User>, u: User, password: string, hash: string -> string,
                           compare: (string, string) -> bool)
    requires IsEmail(u.email) && u.password == hash(password)
    requires forall k :: 0 <= k < |users| ==> users[k].email != u.email
    requires compare(password, hash(password))
    ensures Login(users + [u], u.email, Some(password), compare) == Ok(u.id)
  {
    var all := users + [u];
    assert all[|users|] == u;
    var found := FindByEmail(all, u.email);
    assert found.Some?;
    assert found.value == |users|;
  }

  /** The verification-code expiry test: a date before now; a missing date never expires. */
  predicate Expired(expires: Option<Time>, now: Time) {
    expires.Some? && expires.value < now
  }

  function MarkVerified(u: User): User {
    u.(isEmailVerified := true, emailVerificationCode := None, emailVerificationExpires := None)
  }

  /** POST /verify-email: the code is compared before the expiry is checked. */
  method VerifyEmail(db: Database, email: string, code: string, now: Time) returns (r: Result<(), AuthError>)
    requires db.Valid()
    modifies db`users
    ensures db.Valid()
    ensures r.Err? ==> db.users == old(db.users)
    ensures !IsEmail(email) || |code| != 6 ==> r == Err(ValidationFailed)
    ensures IsEmail(email) && |code| == 6 ==>
      match FindByEmail(old(db.users), email)
      case None => r == Err(UserNotFound)
      case Some(i) =>
        var u := old(db.users[i]);
        if u.emailVerificationCode != Some(code) then r == Err(InvalidCode)
        else if Expired(u.emailVerificationExpires, now) then r == Err(CodeExpired)
        else r == Ok(()) && db.users == old(db.users)[i := MarkVerified(u)]
  {
    if !IsEmail(email) || |code| != 6 {
      return Err(ValidationFailed);
    }
    var found := FindByEmail(db.users, email);
    if found.None? {
      return Err(UserNotFound);
    }
    var i := found.value;
    var user := db.users[i];
    if user.emailVerificationCode != Some(code) {
      return Err(InvalidCode);
    }
    if Expired(user.emailVerificationExpires, now) {
      return Err(CodeExpired);
    }
    db.users := db.users[i := MarkVerified(user)];
    r := Ok(());
  }

  /** Verification consumes the code: the same code cannot verify twice. */
  lemma VerifyEmailConsumesCode(u: User, code: string)
    requires u.emailVerificationCode == Some(code)
    ensures MarkVerified(u).emailVerificationCode != Some(code)
    ensures MarkVerified(u).isEmailVerified
  {
  }
}
