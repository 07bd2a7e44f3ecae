/**
 * The admin handlers: dashboard counts, the paginated user listing, user activation, the
 * KYC queue and its review, the withdrawal queue and its processing, and the settings
 * read and whitelist update.
 */
module Admin {
  import opened Common
  import opened Collections
  import opened UserModel
  import opened SettingsModel
  import opened Store
  import opened Paging
  import Mining
  import Wallet

  datatype AdminError = ValidationFailed | UserNotFound | WithdrawalNotFound | ServerError

  // ---------------------------------------------------------------- dashboard

  datatype Dashboard = Dashboard(
    totalUsers: nat,
    activeMiners: nat,
    pendingKYC: nat,
    approvedKYC: nat,
    totalMined: real,
    pendingWithdrawals: nat)

  /** `$unwind: '$withdrawalRequests'`: every user's requests, user by user. */
  function Unwind(users: seq<User>): seq<WithdrawalRequest> {
    if |users| == 0 then [] else Unwind(users[..|users| - 1]) + users[|users| - 1].withdrawalRequests
  }

  function TotalMined(u: User): real {
    u.totalMined
  }

  predicate IsMiner(u: User) {
    u.isMining
  }

  predicate KycIsPending(u: User) {
    u.kycStatus == KycPending
  }

  predicate KycIsApproved(u: User) {
    u.kycStatus == KycApproved
  }

  predicate IsPendingRequest(w: WithdrawalRequest) {
    w.status == Pending
  }

  /** GET /admin/dashboard: the document counts, the $sum of totalMined and the pending requests. */
  function DashboardStats(users: seq<User>): (d: Dashboard)
    ensures d.totalUsers == |users|
    ensures d.activeMiners == Count(users, IsMiner) <= d.totalUsers
    ensures d.pendingKYC == Count(users, KycIsPending) && d.approvedKYC == Count(users, KycIsApproved)
    ensures d.pendingKYC + d.approvedKYC <= d.totalUsers
    ensures d.totalMined == SumOf(users, TotalMined)
    ensures d.pendingWithdrawals == Count(Unwind(users), IsPendingRequest) <= |Unwind(users)|
  {
    CountDisjoint(users, KycIsPending, KycIsApproved);
    Dashboard(
      |users|,
      Count(users, IsMiner),
      Count(users, KycIsPending),
      Count(users, KycIsApproved),
      SumOf(users, TotalMined),
      Count(Unwind(users), IsPendingRequest))
  }

  /** Replacing one user's requests changes the unwound pending count by the difference of the two lists' counts. */
  lemma {:induction false} UnwindPendingUpdate(users: seq<User>, i: nat, u: User)
    requires i < |users|
    ensures Count(Unwind(users[i := u]), IsPendingRequest) + Count(users[i].withdrawalRequests, IsPendingRequest)
         == Count(Unwind(users), IsPendingRequest) + Count(u.withdrawalRequests, IsPendingRequest)
  {
    var n := |users| - 1;
    var after := users[i := u];
    FilterConcat(Unwind(users[..n]), users[n].withdrawalRequests, IsPendingRequest);
    FilterConcat(Unwind(after[..n]), after[n].withdrawalRequests, IsPendingRequest);
    if i < n {
      assert after[..n] == users[..n][i := u];
      UnwindPendingUpdate(users[..n], i, u);
    } else {
      assert after[..n] == users[..n];
    }
  }

  /** A start adds one active miner to the dashboard; a stop removes one and adds its earnings to the mined total. */
  lemma SessionsMoveDashboard(users: seq<User>, i: nat, now: Time, rate: real)
    requires i < |users|
    ensures !users[i].isMining ==>
      DashboardStats(users[i := Mining.BeginSession(users[i], now, rate)]).activeMiners
        == DashboardStats(users).activeMiners + 1
    ensures users[i].isMining ==>
      && DashboardStats(users[i := Mining.Claim(users[i], now)]).activeMiners + 1
           == DashboardStats(users).activeMiners
      && DashboardStats(users[i := Mining.Claim(users[i], now)]).totalMined
           == DashboardStats(users).totalMined + Mining.SessionEarnings(users[i], now)
  {
    CountUpdate(users, i, Mining.BeginSession(users[i], now, rate), IsMiner);
    CountUpdate(users, i, Mining.Claim(users[i], now), IsMiner);
    SumUpdate(users, i, Mining.Claim(users[i], now), TotalMined);
  }

  /** A withdrawal request adds one to the dashboard's pending withdrawals. */
  lemma WithdrawAddsPendingWithdrawal(users: seq<User>, i: nat, w: WithdrawalRequest)
    requires i < |users| && w.status == Pending
    ensures DashboardStats(users[i := Wallet.Lock(users[i], w)]).pendingWithdrawals
         == DashboardStats(users).pendingWithdrawals + 1
  {
    UnwindPendingUpdate(users, i, Wallet.Lock(users[i], w));
    FilterAppend(users[i].withdrawalRequests, w, IsPendingRequest);
  }

  /** A row of the user listing: the user document with its referral count. */
  datatype UserRow = UserRow(user: User, referralCount: nat)

  datatype UserPage = UserPage(users: seq<UserRow>, pagination: Pagination)

  /** The user documents of the listing's rows. */
  function RowUsers(rows: seq<UserRow>): (r: seq<User>)
    ensures |r| == |rows| && forall k :: 0 <= k < |rows| ==> r[k] == rows[k].user
  {
    seq(|rows|, k requires 0 <= k < |rows| => rows[k].user)
  }

  /**
   * `User.find().sort({ createdAt: -1 }).skip(skip).limit(limit)` with each row's referral
   * count. A negative skip is refused by the database; a negative limit returns at most
   * |limit| documents.
   */
  function UsersPage(users: seq<User>, page: Option<int>, limit: Option<int>): (r: Result<UserPage, AdminError>)
    ensures Skip(page, limit) < 0 <==> r == Err(ServerError)
    ensures r.Ok? ==> r.value.pagination == Paginate(page, limit, |users|)
    ensures r.Ok? ==> IsPage(RowUsers(r.value.users), SortNewestFirst(users, CreatedAt), page, limit)
    ensures r.Ok? ==> forall k :: 0 <= k < |r.value.users| ==>
      && r.value.users[k].user in users
      && r.value.users[k].referralCount == ReferralCount(users, r.value.users[k].user.id)
    ensures r.Ok? ==> forall j, k :: 0 <= j < k < |r.value.users| ==>
      r.value.users[j].user.createdAt >= r.value.users[k].user.createdAt
  {
    var sorted := SortNewestFirst(users, CreatedAt);
    match PageOf(sorted, page, limit)
    case None => Err(ServerError)
    case Some(window) =>
      SameMembers(sorted, users);
      var rows := seq(|window|, k requires 0 <= k < |window| => UserRow(window[k], ReferralCount(users, window[k].id)));
      assert RowUsers(rows) == window;
      Ok(UserPage(rows, Paginate(page, limit, |users|)))
  }

  /** With a positive limit, every user is listed on one of the pages the listing announces. */
  lemma EveryUserOnAnAnnouncedPage(users: seq<User>, limit: nat, u: User)
    requires 0 < limit && u in users
    ensures exists page :: 1 <= page <= CeilDiv(|users|, limit)
                        && UsersPage(users, Some(page), Some(limit)).Ok?
                        && u in RowUsers(UsersPage(users, Some(page), Some(limit)).value.users)
  {
    var sorted := SortNewestFirst(users, CreatedAt);
    assert u in multiset(sorted);
    var k :| 0 <= k < |sorted| && sorted[k] == u;
    PageCovers(sorted, limit, k);
    var page := k / limit + 1;
    assert RowUsers(UsersPage(users, Some(page), Some(limit)).value.users) == PageOf(sorted, Some(page), Some(limit)).value;
  }

  // ---------------------------------------------------------------- user status

  /** `findByIdAndUpdate(id, { isActive })`: an absent isActive changes nothing; a missing user gives null. */
  method SetUserActive(db: Database, id: UserId, isActive: Option<bool>) returns (r: Option<User>)
    requires db.Valid()
    modifies db`users
    ensures db.Valid()
    ensures
      match FindUser(old(db.users), id)
      case None => r == None && db.users == old(db.users)
      case Some(i) =>
        var u := old(db.users[i]);
        var u' := if isActive.Some? then u.(isActive := isActive.value) else u;
        r == Some(u') && db.users == old(db.users)[i := u']
  {
    var found := FindUser(db.users, id);
    if found.None? {
      return None;
    }
    var i := found.value;
    var user := db.users[i];
    if isActive.Some? {
      user := user.(isActive := isActive.value);
      db.users := db.users[i := user];
    }
    r := Some(user);
  }

  // ---------------------------------------------------------------- KYC

  /** The KYC queue's filter: a non-empty TID and, unless the status is absent or "all", that status. */
  predicate KycListed(u: User, status: Option<string>) {
    && Truthy(u.kycTID)
    && (!Truthy(status) || status.value == "all" || KycStatusName(u.kycStatus) == status.value)
  }

  /** Sort key for `kycSubmissionDate: -1`: a missing date sorts after every date. */
  function SubmissionKey(u: User): int {
    if u.kycSubmissionDate.Some? then u.kycSubmissionDate.value else -1
  }

  function KycSubmissions(users: seq<User>, status: Option<string>): (r: seq<User>)
    ensures multiset(r) == multiset(Filter(users, (u: User) => KycListed(u, status)))
    ensures forall k :: 0 <= k < |r| ==> r[k] in users && KycListed(r[k], status)
    ensures forall k :: 0 <= k < |users| && KycListed(users[k], status) ==> users[k] in r
    ensures NewestFirst(r, SubmissionKey)
  {
    var listed := Filter(users, (u: User) => KycListed(u, status));
    var r := SortNewestFirst(listed, SubmissionKey);
    SameMembers(r, listed);
    r
  }

  /** The review: the new status, and the reason only for a rejection. */
  function Review(u: User, status: KycStatus, reason: Option<string>): User {
    u.(kycStatus := status, kycRejectionReason := if status == KycRejected then reason else None)
  }

  method ReviewKyc(db: Database, id: UserId, status: string, rejectionReason: Option<string>)
    returns (r: Result<KycStatus, AdminError>)
    requires db.Valid()
    modifies db`users
    ensures db.Valid()
    ensures r.Err? ==> db.users == old(db.users)
    ensures status !in {"approved", "rejected"} ==> r == Err(ValidationFailed)
    ensures status in {"approved", "rejected"} ==>
      match FindUser(old(db.users), id)
      case None => r == Err(UserNotFound)
      case Some(i) =>
        var k := ParseKycStatus(status).value;
        && r == Ok(k)
        && db.users == old(db.users)[i := Review(old(db.users[i]), k, rejectionReason)]
        && (k == KycApproved ==> db.users[i].kycRejectionReason.None?)
        && db.users[i].kycTID == old(db.users[i]).kycTID
  {
    if status != "approved" && status != "rejected" {
      return Err(ValidationFailed);
    }
    var found := FindUser(db.users, id);
    if found.None? {
      return Err(UserNotFound);
    }
    var i := found.value;
    var k := ParseKycStatus(status).value;
    db.users := db.users[i := Review(db.users[i], k, rejectionReason)];
    r := Ok(k);
  }

  // ---------------------------------------------------------------- withdrawals

  /** An entry of the withdrawal queue: the request tagged with its owner. */
  datatype TaggedWithdrawal = TaggedWithdrawal(
    id: nat,
    userId: UserId,
    username: string,
    email: string,
    amount: real,
    address: string,
    status: WithdrawalStatus,
    requestDate: Time)

  function Tag(u: User, w: WithdrawalRequest): TaggedWithdrawal {
    TaggedWithdrawal(w.id, u.id, u.username, u.email, w.amount, w.address, w.status, w.requestDate)
  }

  /** `req.status === status`, on the status's stored name. */
  predicate HasStatus(w: WithdrawalRequest, status: string) {
    WithdrawalStatusName(w.status) == status
  }

  /** The entries one user contributes, in request order. */
  function TaggedOf(u: User, requests: seq<WithdrawalRequest>, status: string): seq<TaggedWithdrawal> {
    if |requests| == 0 then []
    else
      var n := |requests| - 1;
      TaggedOf(u, requests[..n], status) + (if HasStatus(requests[n], status) then [Tag(u, requests[n])] else [])
  }

  /** The entries of all users, user by user, before sorting. */
  function TaggedAll(users: seq<User>, status: string): seq<TaggedWithdrawal> {
    if |users| == 0 then []
    else
      var n := |users| - 1;
      TaggedAll(users[..n], status) + TaggedOf(users[n], users[n].withdrawalRequests, status)
  }

  function TaggedDate(t: TaggedWithdrawal): int {
    t.requestDate
  }

  /**
   * The queue: every request whose status is the query status (pending by default), tagged
   * with its owner, newest first.
   */
  method ListWithdrawals(users: seq<User>, statusQuery: Option<string>) returns (r: seq<TaggedWithdrawal>)
    ensures var status := if Truthy(statusQuery) then statusQuery.value else "pending";
      && multiset(r) == multiset(TaggedAll(users, status))
      && NewestFirst(r, TaggedDate)
  {
    var status := if Truthy(statusQuery) then statusQuery.value else "pending";
    var withdrawals: seq<TaggedWithdrawal> := [];
    var i := 0;
    while i < |users|
      invariant 0 <= i <= |users|
      invariant withdrawals == TaggedAll(users[..i], status)
    {
      withdrawals := PushMatching(withdrawals, users[i], status);
      TaggedAllStep(users, status, i);
      i := i + 1;
    }
    assert users[..i] == users;
    r := SortNewestFirst(withdrawals, TaggedDate);
  }

  /** The inner forEach: push each of the user's requests that has the status, tagged, in order. */
  method PushMatching(withdrawals: seq<TaggedWithdrawal>, user: User, status: string) returns (r: seq<TaggedWithdrawal>)
    ensures r == withdrawals + TaggedOf(user, user.withdrawalRequests, status)
  {
    r := withdrawals;
    var j := 0;
    while j < |user.withdrawalRequests|
      invariant 0 <= j <= |user.withdrawalRequests|
      invariant r == withdrawals + TaggedOf(user, user.withdrawalRequests[..j], status)
    {
      var w := user.withdrawalRequests[j];
      TaggedOfStep(user, user.withdrawalRequests, status, j);
      if HasStatus(w, status) {
        r := r + [Tag(user, w)];
      }
      j := j + 1;
    }
    assert user.withdrawalRequests[..j] == user.withdrawalRequests;
  }

  /** One more request extends a user's entries by its entry, if it has the status. */
  lemma TaggedOfStep(u: User, requests: seq<WithdrawalRequest>, status: string, j: nat)
    requires j < |requests|
    ensures TaggedOf(u, requests[..j + 1], status)
         == TaggedOf(u, requests[..j], status) + (if HasStatus(requests[j], status) then [Tag(u, requests[j])] else [])
  {
    assert requests[..j + 1][..j] == requests[..j];
  }

  /** One more user extends the entries by all of that user's entries. */
  lemma TaggedAllStep(users: seq<User>, status: string, i: nat)
    requires i < |users|
    ensures TaggedAll(users[..i + 1], status) == TaggedAll(users[..i], status) + TaggedOf(users[i], users[i].withdrawalRequests, status)
  {
    assert users[..i + 1][..i] == users[..i];
  }

  /** Every request with the queried status shows up in the queue, tagged with its owner. */
  lemma {:induction false} TaggedOfComplete(u: User, requests: seq<WithdrawalRequest>, status: string, k: nat)
    requires k < |requests| && HasStatus(requests[k], status)
    ensures Tag(u, requests[k]) in TaggedOf(u, requests, status)
  {
    var n := |requests| - 1;
    if k < n {
      assert requests[..n][k] == requests[k];
      TaggedOfComplete(u, requests[..n], status, k);
    }
  }

  lemma {:induction false} TaggedAllComplete(users: seq<User>, status: string, i: nat, k: nat)
    requires i < |users| && k < |users[i].withdrawalRequests|
    requires HasStatus(users[i].withdrawalRequests[k], status)
    ensures Tag(users[i], users[i].withdrawalRequests[k]) in TaggedAll(users, status)
  {
    var n := |users| - 1;
    if i < n {
      assert users[..n][i] == users[i];
      TaggedAllComplete(users[..n], status, i, k);
    } else {
      TaggedOfComplete(users[i], users[i].withdrawalRequests, status, k);
    }
  }

  /** Every queue entry has the queried status and is a request of the user it names. */
  lemma {:induction false} TaggedOfSound(u: User, requests: seq<WithdrawalRequest>, status: string, t: TaggedWithdrawal)
    requires t in TaggedOf(u, requests, status)
    ensures WithdrawalStatusName(t.status) == status
    ensures t.userId == u.id && t.username == u.username && t.email == u.email
    ensures exists k :: 0 <= k < |requests| && t == Tag(u, requests[k])
  {
    var n := |requests| - 1;
    if t in TaggedOf(u, requests[..n], status) {
      TaggedOfSound(u, requests[..n], status, t);
      var k :| 0 <= k < n && t == Tag(u, requests[..n][k]);
      assert requests[..n][k] == requests[k];
    } else {
      assert t == Tag(u, requests[n]);
    }
  }

  lemma {:induction false} TaggedAllSound(users: seq<User>, status: string, t: TaggedWithdrawal)
    requires t in TaggedAll(users, status)
    ensures WithdrawalStatusName(t.status) == status
    ensures exists i, k :: 0 <= i < |users| && 0 <= k < |users[i].withdrawalRequests|
                        && t == Tag(users[i], users[i].withdrawalRequests[k])
  {
    var n := |users| - 1;
    if t in TaggedAll(users[..n], status) {
      TaggedAllSound(users[..n], status, t);
      var i, k :| 0 <= i < n && 0 <= k < |users[..n][i].withdrawalRequests|
               && t == Tag(users[..n][i], users[..n][i].withdrawalRequests[k]);
      assert users[..n][i] == users[i];
    } else {
      TaggedOfSound(users[n], users[n].withdrawalRequests, status, t);
    }
  }

  /** A query status that names no withdrawal status gives an empty queue. */
  lemma {:induction false} UnknownStatusEmptyQueue(users: seq<User>, status: string)
    requires status !in {"pending", "approved", "rejected"}
    ensures TaggedAll(users, status) == []
  {
    if TaggedAll(users, status) != [] {
      TaggedAllSound(users, status, TaggedAll(users, status)[0]);
    }
  }

  /** `user.withdrawalRequests.id(withdrawalId)`. */
  function FindRequest(requests: seq<WithdrawalRequest>, id: nat): (r: Option<nat>)
    ensures r.Some? ==> r.value < |requests| && requests[r.value].id == id
    ensures r.None? ==> forall k :: 0 <= k < |requests| ==> requests[k].id != id
  {
    FirstIndex(requests, (w: WithdrawalRequest) => w.id == id)
  }

  /**
   * Processing request k: it takes the status and the processing date, and a rejection
   * credits its amount back. There is no check of the request's current status.
   */
  function Resolve(u: User, k: nat, status: WithdrawalStatus, now: Time): (r: User)
    requires k < |u.withdrawalRequests|
    ensures |r.withdrawalRequests| == |u.withdrawalRequests|
    ensures r.withdrawalRequests[k] == u.withdrawalRequests[k].(status := status, processedDate := Some(now))
    ensures forall j :: 0 <= j < |u.withdrawalRequests| && j != k ==> r.withdrawalRequests[j] == u.withdrawalRequests[j]
    ensures r.spxBalance - u.spxBalance == if status == Rejected then u.withdrawalRequests[k].amount else 0.0
    ensures r.(spxBalance := u.spxBalance, withdrawalRequests := u.withdrawalRequests) == u
  {
    var w := u.withdrawalRequests[k];
    u.(withdrawalRequests := u.withdrawalRequests[k := w.(status := status, processedDate := Some(now))],
       spxBalance := if status == Rejected then u.spxBalance + w.amount else u.spxBalance)
  }

  method ProcessWithdrawal(db: Database, userId: UserId, withdrawalId: nat, status: string, now: Time)
    returns (r: Result<WithdrawalStatus, AdminError>)
    requires db.Valid()
    modifies db`users
    ensures db.Valid()
    ensures r.Err? ==> db.users == old(db.users)
    ensures
      match FindUser(old(db.users), userId)
      case None => r == Err(UserNotFound)
      case Some(i) =>
        var u := old(db.users[i]);
        match FindRequest(u.withdrawalRequests, withdrawalId)
        case None => r == Err(WithdrawalNotFound)
        case Some(k) =>
          match ParseWithdrawalStatus(status)
          case None => r == Err(ServerError)
          case Some(st) =>
            && r == Ok(st)
            && db.users == old(db.users)[i := Resolve(u, k, st, now)]
            && db.users[i].spxBalance == u.spxBalance + (if st == Rejected then u.withdrawalRequests[k].amount else 0.0)
  {
    var found := FindUser(db.users, userId);
    if found.None? {
      return Err(UserNotFound);
    }
    var i := found.value;
    var user := db.users[i];
    var k := FindRequest(user.withdrawalRequests, withdrawalId);
    if k.None? {
      return Err(WithdrawalNotFound);
    }
    var st := ParseWithdrawalStatus(status);
    if st.None? {
      // the enum validator fails on save; nothing is written
      return Err(ServerError);
    }
    db.users := db.users[i := Resolve(user, k.value, st.value, now)];
    r := Ok(st.value);
  }

  /** Resolving a request that is still pending moves money between the balance and the locked total only. */
  lemma ResolvePendingConserves(u: User, k: nat, status: WithdrawalStatus, now: Time)
    requires k < |u.withdrawalRequests| && u.withdrawalRequests[k].status == Pending
    ensures Holdings(Resolve(u, k, status, now)) == Holdings(u)
  {
    var w := u.withdrawalRequests[k];
    SumUpdate(u.withdrawalRequests, k, w.(status := status, processedDate := Some(now)), Locked);
  }

  /** Approving or rejecting a pending request takes one off the dashboard's pending withdrawals. */
  lemma ProcessingTakesPendingWithdrawal(users: seq<User>, i: nat, k: nat, status: WithdrawalStatus, now: Time)
    requires i < |users| && k < |users[i].withdrawalRequests|
    requires users[i].withdrawalRequests[k].status == Pending && status != Pending
    ensures DashboardStats(users[i := Resolve(users[i], k, status, now)]).pendingWithdrawals + 1
         == DashboardStats(users).pendingWithdrawals
  {
    var u := users[i];
    var w := u.withdrawalRequests[k];
    UnwindPendingUpdate(users, i, Resolve(u, k, status, now));
    CountUpdate(u.withdrawalRequests, k, w.(status := status, processedDate := Some(now)), IsPendingRequest);
  }

  /** Without a pending check, rejecting a rejected request again credits its amount a second time. */
  lemma RejectTwiceCreditsTwice(u: User, k: nat, now: Time)
    requires k < |u.withdrawalRequests| && u.withdrawalRequests[k].status == Rejected
    ensures Resolve(u, k, Rejected, now).spxBalance == u.spxBalance + u.withdrawalRequests[k].amount
    ensures Holdings(Resolve(u, k, Rejected, now)) == Holdings(u) + u.withdrawalRequests[k].amount
  {
    var w := u.withdrawalRequests[k];
    SumUpdate(u.withdrawalRequests, k, w.(status := Rejected, processedDate := Some(now)), Locked);
  }

  /** Approving a request that was already rejected keeps the refund and locks the amount again. */
  lemma ApproveAfterRejectKeepsRefund(u: User, k: nat, now: Time)
    requires k < |u.withdrawalRequests| && u.withdrawalRequests[k].status == Rejected
    ensures Resolve(u, k, Approved, now).spxBalance == u.spxBalance
    ensures Holdings(Resolve(u, k, Approved, now)) == Holdings(u) + u.withdrawalRequests[k].amount
  {
    var w := u.withdrawalRequests[k];
    SumUpdate(u.withdrawalRequests, k, w.(status := Approved, processedDate := Some(now)), Locked);
  }

  // ---------------------------------------------------------------- settings

  /** The public projection of the settings. */
  datatype PublicSettings = PublicSettings(
    kycEnabled: bool,
    miningEnabled: bool,
    referralEnabled: bool,
    withdrawalsEnabled: bool,
    usdtWalletAddress: string,
    kycUsdtAmount: real)

  /** GET /settings/public: reads the settings, first saving the defaults when there is no document. */
  method GetPublicSettings(db: Database) returns (r: PublicSettings)
    modifies db`settings
    ensures db.settings == Some(CurrentSettings(old(db.settings)))
    ensures var s := db.settings.value;
      r == PublicSettings(s.kycEnabled, s.miningEnabled, s.referralEnabled, s.withdrawalsEnabled,
                          s.usdtWalletAddress, s.kycUsdtAmount)
  {
    if db.settings.None? {
      db.settings := Some(DefaultSettings());
    }
    var s := db.settings.value;
    r := PublicSettings(s.kycEnabled, s.miningEnabled, s.referralEnabled, s.withdrawalsEnabled,
                        s.usdtWalletAddress, s.kycUsdtAmount);
  }

  /** GET /settings: the whole record, first saving the defaults when there is no document. */
  method GetSettings(db: Database) returns (r: Settings)
    modifies db`settings
    ensures db.settings == Some(r) && r == CurrentSettings(old(db.settings))
  {
    if db.settings.None? {
      db.settings := Some(DefaultSettings());
    }
    r := db.settings.value;
  }

  /**
   * PUT /settings: each key of the parsed body the schema declares is assigned in order,
   * others are ignored; a value that does not cast makes the save fail and nothing is stored.
   */
  method UpdateSettings(db: Database, body: seq<(string, Json)>) returns (r: Result<Settings, AdminError>)
    modifies db`settings
    ensures
      match ApplyBody(CurrentSettings(old(db.settings)), body)
      case None => r == Err(ServerError) && db.settings == old(db.settings)
      case Some(t) => r == Ok(t) && db.settings == Some(t)
  {
    var settings := CurrentSettings(db.settings);
    ghost var initial := settings;
    var fields := ParseObject(body);
    var castFailed := false;
    for i := 0 to |fields|
      invariant castFailed ==> ApplyPairs(initial, fields[..i]).None?
      invariant !castFailed ==> ApplyPairs(initial, fields[..i]) == Some(settings)
    {
      assert fields[..i + 1][..i] == fields[..i];
      var (key, value) := fields[i];
      match SetPath(settings, key, value)
      case None =>
        castFailed := true;
      case Some(t) =>
        settings := t;
    }
    assert fields[..|fields|] == fields;
    if castFailed {
      return Err(ServerError);
    }
    db.settings := Some(settings);
    r := Ok(settings);
  }
}
