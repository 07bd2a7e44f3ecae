/**
 * The platform settings record: feature gates (mining, withdrawals, KYC, referrals) and
 * numeric parameters, with the schema's defaults, and the field-by-name access that the
 * admin settings update uses.
 */
module SettingsModel {
  import opened Common

  datatype Settings = Settings(
    kycEnabled: bool,
    miningEnabled: bool,
    withdrawalsEnabled: bool,
    referralEnabled: bool,
    minClaimAmount: real,
    dailyMiningLimit: real,
    kycUsdtAmount: real,
    usdtWalletAddress: string,
    minWithdrawalAmount: real,
    withdrawalFee: real,
    referralCommission: real,
    maintenanceMode: bool)

  /** `new Settings()`: every schema default. */
  function DefaultSettings(): (s: Settings)
    ensures s.kycEnabled && s.miningEnabled && s.withdrawalsEnabled && s.referralEnabled
    ensures s.minClaimAmount == 1.0 && s.dailyMiningLimit == 24.0 && s.kycUsdtAmount == 10.0
    ensures s.usdtWalletAddress == "TYourUSDTWalletAddressHere"
    ensures s.minWithdrawalAmount == 10.0 && s.withdrawalFee == 0.1 && s.referralCommission == 0.1
    ensures !s.maintenanceMode
  {
    Settings(true, true, true, true, 1.0, 24.0, 10.0, "TYourUSDTWalletAddressHere", 10.0, 0.1, 0.1, false)
  }

  /** `await Settings.findOne() || new Settings()`: the stored record, or the defaults when none exists. */
  function CurrentSettings(stored: Option<Settings>): Settings {
    if stored.Some? then stored.value else DefaultSettings()
  }

  /** The JSON kind a schema path holds. */
  datatype Kind = BoolKind | NumKind | StrKind

  function KindOf(v: Json): Kind {
    match v
    case JBool(_) => BoolKind
    case JNum(_) => NumKind
    case JStr(_) => StrKind
  }

  /** The schema paths of the settings record. */
  datatype Path =
    | KycEnabled | MiningEnabled | WithdrawalsEnabled | ReferralEnabled | MaintenanceMode
    | MinClaimAmount | DailyMiningLimit | KycUsdtAmount | MinWithdrawalAmount | WithdrawalFee
    | ReferralCommission | UsdtWalletAddress

  /** `settings.schema.paths[key]`: the path a request-body key names, if the schema declares it. */
  function ParsePath(key: string): (r: Option<Path>)
    ensures r.Some? ==> key == PathName(r.value)
  {
    if key == "kycEnabled" then Some(KycEnabled)
    else if key == "miningEnabled" then Some(MiningEnabled)
    else if key == "withdrawalsEnabled" then Some(WithdrawalsEnabled)
    else if key == "referralEnabled" then Some(ReferralEnabled)
    else if key == "maintenanceMode" then Some(MaintenanceMode)
    else if key == "minClaimAmount" then Some(MinClaimAmount)
    else if key == "dailyMiningLimit" then Some(DailyMiningLimit)
    else if key == "kycUsdtAmount" then Some(KycUsdtAmount)
    else if key == "minWithdrawalAmount" then Some(MinWithdrawalAmount)
    else if key == "withdrawalFee" then Some(WithdrawalFee)
    else if key == "referralCommission" then Some(ReferralCommission)
    else if key == "usdtWalletAddress" then Some(UsdtWalletAddress)
    else None
  }

  /** The key that names a schema path. */
  function PathName(p: Path): string {
    match p
    case KycEnabled => "kycEnabled"
    case MiningEnabled => "miningEnabled"
    case WithdrawalsEnabled => "withdrawalsEnabled"
    case ReferralEnabled => "referralEnabled"
    case MaintenanceMode => "maintenanceMode"
    case MinClaimAmount => "minClaimAmount"
    case DailyMiningLimit => "dailyMiningLimit"
    case KycUsdtAmount => "kycUsdtAmount"
    case MinWithdrawalAmount => "minWithdrawalAmount"
    case WithdrawalFee => "withdrawalFee"
    case ReferralCommission => "referralCommission"
    case UsdtWalletAddress => "usdtWalletAddress"
  }

  /** Every path's name is a key the schema resolves to that path. */
  lemma PathNamesRoundTrip(p: Path)
    ensures ParsePath(PathName(p)) == Some(p)
  {
  }

  function PathKind(p: Path): Kind {
    match p
    case KycEnabled | MiningEnabled | WithdrawalsEnabled | ReferralEnabled | MaintenanceMode => BoolKind
    case UsdtWalletAddress => StrKind
    case _ => NumKind
  }

  /** `settings[path]` read as JSON. */
  function Field(s: Settings, p: Path): (v: Json)
    ensures KindOf(v) == PathKind(p)
  {
    match p
    case KycEnabled => JBool(s.kycEnabled)
    case MiningEnabled => JBool(s.miningEnabled)
    case WithdrawalsEnabled => JBool(s.withdrawalsEnabled)
    case ReferralEnabled => JBool(s.referralEnabled)
    case MaintenanceMode => JBool(s.maintenanceMode)
    case MinClaimAmount => JNum(s.minClaimAmount)
    case DailyMiningLimit => JNum(s.dailyMiningLimit)
    case KycUsdtAmount => JNum(s.kycUsdtAmount)
    case MinWithdrawalAmount => JNum(s.minWithdrawalAmount)
    case WithdrawalFee => JNum(s.withdrawalFee)
    case ReferralCommission => JNum(s.referralCommission)
    case UsdtWalletAddress => JStr(s.usdtWalletAddress)
  }

  /** Two records that agree on every schema path are the same record. */
  lemma FieldsDetermineSettings(s: Settings, t: Settings)
    requires forall p :: Field(s, p) == Field(t, p)
    ensures s == t
  {
    assert Field(s, KycEnabled) == Field(t, KycEnabled);
    assert Field(s, MiningEnabled) == Field(t, MiningEnabled);
    assert Field(s, WithdrawalsEnabled) == Field(t, WithdrawalsEnabled);
    assert Field(s, ReferralEnabled) == Field(t, ReferralEnabled);
    assert Field(s, MaintenanceMode) == Field(t, MaintenanceMode);
    assert Field(s, MinClaimAmount) == Field(t, MinClaimAmount);
    assert Field(s, DailyMiningLimit) == Field(t, DailyMiningLimit);
    assert Field(s, KycUsdtAmount) == Field(t, KycUsdtAmount);
    assert Field(s, MinWithdrawalAmount) == Field(t, MinWithdrawalAmount);
    assert Field(s, WithdrawalFee) == Field(t, WithdrawalFee);
    assert Field(s, ReferralCommission) == Field(t, ReferralCommission);
    assert Field(s, UsdtWalletAddress) == Field(t, UsdtWalletAddress);
  }

  /** A value a path can hold: it casts exactly when the kinds agree. */
  function Assign(s: Settings, p: Path, v: Json): (r: Option<Settings>)
    ensures r.Some? <==> KindOf(v) == PathKind(p)
    ensures r.Some? ==> Field(r.value, p) == v
  {
    if KindOf(v) != PathKind(p) then None
    else
      match p
      case KycEnabled => Some(s.(kycEnabled := v.b))
      case MiningEnabled => Some(s.(miningEnabled := v.b))
      case WithdrawalsEnabled => Some(s.(withdrawalsEnabled := v.b))
      case ReferralEnabled => Some(s.(referralEnabled := v.b))
      case MaintenanceMode => Some(s.(maintenanceMode := v.b))
      case MinClaimAmount => Some(s.(minClaimAmount := v.n))
      case DailyMiningLimit => Some(s.(dailyMiningLimit := v.n))
      case KycUsdtAmount => Some(s.(kycUsdtAmount := v.n))
      case MinWithdrawalAmount => Some(s.(minWithdrawalAmount := v.n))
      case WithdrawalFee => Some(s.(withdrawalFee := v.n))
      case ReferralCommission => Some(s.(referralCommission := v.n))
      case UsdtWalletAddress => Some(s.(usdtWalletAddress := v.s))
  }

  /** Assigning one path leaves every other path as it was. */
  lemma AssignKeepsOtherPaths(s: Settings, p: Path, v: Json, q: Path)
    requires Assign(s, p, v).Some? && q != p
    ensures Field(Assign(s, p, v).value, q) == Field(s, q)
  {
  }

  /**
   * `if (settings.schema.paths[key]) settings[key] = value`: a key outside the schema is
   * ignored; a schema path takes the value, or records a cast failure (None) when the value
   * is of another kind, which makes the later save fail.
   */
  function SetPath(s: Settings, key: string, v: Json): Option<Settings> {
    match ParsePath(key)
    case None => Some(s)
    case Some(p) => Assign(s, p, v)
  }

  /** The pairs of body whose key is not key, in order. */
  function Drop(body: seq<(string, Json)>, key: string): (r: seq<(string, Json)>)
    ensures |r| <= |body|
    ensures forall k :: 0 <= k < |r| ==> r[k] in body && r[k].0 != key
  {
    if |body| == 0 then []
    else
      var rest := Drop(body[..|body| - 1], key);
      var last := body[|body| - 1];
      if last.0 == key then rest else rest + [last]
  }

  /** No key occurs twice, as in an object JSON.parse builds. */
  ghost predicate DistinctKeys(pairs: seq<(string, Json)>) {
    forall i, j :: 0 <= i < j < |pairs| ==> pairs[i].0 != pairs[j].0
  }

  /**
   * The object a JSON text with these members parses to: a repeated key keeps only its
   * last value, so each remaining pair is the last one the text gives for its key.
   */
  function ParseObject(body: seq<(string, Json)>): (r: seq<(string, Json)>)
    ensures DistinctKeys(r)
    ensures forall k :: 0 <= k < |r| ==> r[k] in body
    decreases |body|
  {
    if |body| == 0 then []
    else
      var last := body[|body| - 1];
      var rest := ParseObject(Drop(body[..|body| - 1], last.0));
      assert forall k :: 0 <= k < |rest| ==> rest[k].0 != last.0;
      rest + [last]
  }

  /** The assignments of `Object.keys(body).forEach` in order; None once any schema path fails to cast. */
  function ApplyPairs(s: Settings, pairs: seq<(string, Json)>): Option<Settings> {
    if |pairs| == 0 then Some(s)
    else
      match ApplyPairs(s, pairs[..|pairs| - 1])
      case None => None
      case Some(t) => SetPath(t, pairs[|pairs| - 1].0, pairs[|pairs| - 1].1)
  }

  /**
   * The update a request body makes: its parsed object's assignments. It fails exactly when
   * the value the body gives some schema path last is of the wrong kind (an overwritten
   * value never reaches the record); otherwise every schema path holds the last value the
   * body gave it, and every path the body does not name keeps its old value.
   */
  function ApplyBody(s: Settings, body: seq<(string, Json)>): (r: Option<Settings>)
    ensures r.None? <==> exists p :: WrongKind(body, p)
    ensures r.Some? ==> forall p :: Field(r.value, p) == if LastValue(body, p).Some? then LastValue(body, p).value else Field(s, p)
  {
    ParsedBodyFails(s, body);
    ParsedBodyFields(s, body);
    ApplyPairs(s, ParseObject(body))
  }

  /** The value the body gives path p last, if any. */
  function LastValue(body: seq<(string, Json)>, p: Path): Option<Json> {
    if |body| == 0 then None
    else if ParsePath(body[|body| - 1].0) == Some(p) then Some(body[|body| - 1].1)
    else LastValue(body[..|body| - 1], p)
  }

  /** The last value of p comes from a pair of the body that names p. */
  lemma {:induction false} LastValueSource(body: seq<(string, Json)>, p: Path) returns (i: nat)
    requires LastValue(body, p).Some?
    ensures i < |body| && ParsePath(body[i].0) == Some(p) && body[i].1 == LastValue(body, p).value
  {
    var n := |body| - 1;
    if ParsePath(body[n].0) == Some(p) {
      i := n;
    } else {
      i := LastValueSource(body[..n], p);
      assert body[..n][i] == body[i];
    }
  }

  /** A pair whose key is a schema path of another kind than its value. */
  predicate CastFails(pair: (string, Json)) {
    ParsePath(pair.0).Some? && PathKind(ParsePath(pair.0).value) != KindOf(pair.1)
  }

  /** The last value the body gives path p is of another kind than p holds. */
  predicate WrongKind(body: seq<(string, Json)>, p: Path) {
    LastValue(body, p).Some? && KindOf(LastValue(body, p).value) != PathKind(p)
  }

  /** Assigning the pairs fails exactly when one of them fails to cast. */
  lemma {:induction false} ApplyPairsFails(s: Settings, pairs: seq<(string, Json)>)
    ensures ApplyPairs(s, pairs).None? <==> exists i :: 0 <= i < |pairs| && CastFails(pairs[i])
  {
    if |pairs| > 0 {
      var n := |pairs| - 1;
      ApplyPairsFails(s, pairs[..n]);
      assert forall i :: 0 <= i < n ==> pairs[..n][i] == pairs[i];
      if ApplyPairs(s, pairs[..n]).None? {
        var i :| 0 <= i < n && CastFails(pairs[..n][i]);
        assert CastFails(pairs[i]);
      } else if ApplyPairs(s, pairs).None? {
        assert CastFails(pairs[n]);
      } else {
        forall i | 0 <= i < |pairs| ensures !CastFails(pairs[i]) {
          if i < n {
            assert pairs[i] == pairs[..n][i];
          }
        }
      }
    }
  }

  /** After the pairs are assigned, every path holds the last value they gave it, or its old value. */
  lemma {:induction false} ApplyPairsFields(s: Settings, pairs: seq<(string, Json)>, t: Settings, p: Path)
    requires ApplyPairs(s, pairs) == Some(t)
    ensures Field(t, p) == if LastValue(pairs, p).Some? then LastValue(pairs, p).value else Field(s, p)
  {
    if |pairs| > 0 {
      var n := |pairs| - 1;
      var t' :| ApplyPairs(s, pairs[..n]) == Some(t');
      ApplyPairsFields(s, pairs[..n], t', p);
      match ParsePath(pairs[n].0)
      case None =>
      case Some(q) =>
        if q != p {
          AssignKeepsOtherPaths(t', q, pairs[n].1, p);
        }
    }
  }

  /** Dropping a key that does not name p keeps the last value of p. */
  lemma {:induction false} LastValueDrop(body: seq<(string, Json)>, key: string, p: Path)
    requires ParsePath(key) != Some(p)
    ensures LastValue(Drop(body, key), p) == LastValue(body, p)
  {
    if |body| > 0 {
      var n := |body| - 1;
      LastValueDrop(body[..n], key, p);
      if body[n].0 != key {
        var rest := Drop(body[..n], key);
        assert (rest + [body[n]])[..|rest|] == rest;
      }
    }
  }

  /** Parsing keeps, for every path, the last value the text gives it. */
  lemma {:induction false} LastValueParse(body: seq<(string, Json)>, p: Path)
    ensures LastValue(ParseObject(body), p) == LastValue(body, p)
    decreases |body|
  {
    if |body| > 0 {
      var n := |body| - 1;
      var last := body[n];
      var dropped := Drop(body[..n], last.0);
      var rest := ParseObject(dropped);
      assert ParseObject(body) == rest + [last];
      if ParsePath(last.0) != Some(p) {
        assert (rest + [last])[..|rest|] == rest;
        LastValueParse(dropped, p);
        LastValueDrop(body[..n], last.0, p);
      }
    }
  }

  /** In pairs with distinct keys, the pair naming p is the last one naming it. */
  lemma {:induction false} DistinctLastValue(pairs: seq<(string, Json)>, i: nat, p: Path)
    requires DistinctKeys(pairs) && i < |pairs| && ParsePath(pairs[i].0) == Some(p)
    ensures LastValue(pairs, p) == Some(pairs[i].1)
  {
    var n := |pairs| - 1;
    if i < n {
      assert ParsePath(pairs[n].0) != Some(p);
      DistinctLastValue(pairs[..n], i, p);
    }
  }

  /** Assigning the parsed object fails exactly when some schema path's last value is of the wrong kind. */
  lemma ParsedBodyFails(s: Settings, body: seq<(string, Json)>)
    ensures ApplyPairs(s, ParseObject(body)).None? <==> exists p :: WrongKind(body, p)
  {
    var pairs := ParseObject(body);
    ApplyPairsFails(s, pairs);
    if ApplyPairs(s, pairs).None? {
      var i :| 0 <= i < |pairs| && CastFails(pairs[i]);
      var p := ParsePath(pairs[i].0).value;
      DistinctLastValue(pairs, i, p);
      LastValueParse(body, p);
      assert WrongKind(body, p);
    } else {
      forall p ensures !WrongKind(body, p) {
        LastValueParse(body, p);
        if LastValue(pairs, p).Some? {
          var i := LastValueSource(pairs, p);
          assert !CastFails(pairs[i]);
        }
      }
    }
  }

  /** After the parsed object is assigned, every path holds the body's last value for it, or its old value. */
  lemma ParsedBodyFields(s: Settings, body: seq<(string, Json)>)
    ensures ApplyPairs(s, ParseObject(body)).Some? ==>
      forall p :: Field(ApplyPairs(s, ParseObject(body)).value, p)
                  == if LastValue(body, p).Some? then LastValue(body, p).value else Field(s, p)
  {
    if ApplyPairs(s, ParseObject(body)).Some? {
      var t := ApplyPairs(s, ParseObject(body)).value;
      forall p
        ensures Field(t, p) == if LastValue(body, p).Some? then LastValue(body, p).value else Field(s, p)
      {
        ApplyPairsFields(s, ParseObject(body), t, p);
        LastValueParse(body, p);
      }
    }
  }

  /** A key given twice takes its second value, even when the first would not cast. */
  lemma RepeatedKeyLastWins()
    ensures ApplyBody(DefaultSettings(), [("kycEnabled", JStr("x")), ("kycEnabled", JBool(true))])
         == Some(DefaultSettings())
  {
    var body := [("kycEnabled", JStr("x")), ("kycEnabled", JBool(true))];
    assert body[..1] == [("kycEnabled", JStr("x"))];
    assert Drop(body[..1], "kycEnabled") == [];
    assert ParseObject(body) == [("kycEnabled", JBool(true))];
  }

  /** A body naming no schema path leaves the record as it was. */
  lemma UnknownKeysIgnored(s: Settings, body: seq<(string, Json)>)
    requires forall i :: 0 <= i < |body| ==> ParsePath(body[i].0).None?
    ensures ApplyBody(s, body) == Some(s)
  {
    forall p ensures LastValue(body, p).None? {
      NotNamed(body, p);
    }
    var t := ApplyBody(s, body).value;
    FieldsDetermineSettings(s, t);
  }

  lemma {:induction false} NotNamed(body: seq<(string, Json)>, p: Path)
    requires forall i :: 0 <= i < |body| ==> ParsePath(body[i].0) != Some(p)
    ensures LastValue(body, p).None?
  {
    if |body| > 0 {
      var n := |body| - 1;
      assert forall i :: 0 <= i < n ==> body[..n][i] == body[i];
      NotNamed(body[..n], p);
    }
  }
}
