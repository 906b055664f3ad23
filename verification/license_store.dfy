/** The license store: its state, the local parts of each action, and the
    random key helper. Every remote call (the signed-in user, the
    `generate_license_key` RPC, the table reads and writes) is an outcome
    parameter of the action that makes it. */
module LicenseStore {
  import opened Wrappers
  import opened Text
  import opened License

  datatype LicenseState = LicenseState(
    licenses: seq<LicenseKey>,
    userPlan: Option<UserPlan>,
    loading: bool,
    error: Option<string>)

  const InitialState := LicenseState([], None, false, None)

  /** `set({ loading: true, error: null })`, the first step of every action. */
  function Begin(s: LicenseState): (r: LicenseState)
    ensures r.loading && r.error == None
    ensures r.(loading := s.loading, error := s.error) == s
  {
    s.(loading := true, error := None)
  }

  /** The message a `catch` block records: the thrown value's message when it
      is an `Error` (`message` present), otherwise the action's fallback. */
  function CaughtMessage(message: Option<string>, fallback: string): string {
    message.GetOr(fallback)
  }

  // ----- fetchUserLicenses -----

  /** One fetched row made into the interface's shape: `key` takes the row's
      `license_key` and `is_active` says whether its `status` is `'active'`. */
  function FromRow(row: LicenseKey): (l: LicenseKey)
    ensures l.key == row.licenseKey
    ensures l.isActive <==> row.status == Some("active")
    ensures l.(key := row.key, isActive := row.isActive) == row
  {
    row.(key := row.licenseKey, isActive := row.status == Some("active"))
  }

  /** `(data || []).map(...)`: one license per row, in the rows' order. */
  function TransformRows(data: Option<seq<LicenseKey>>): (r: seq<LicenseKey>)
    ensures |r| == |data.GetOr([])|
    ensures forall i :: 0 <= i < |r| ==> r[i] == FromRow(data.GetOr([])[i])
  {
    var rows := data.GetOr([]);
    seq(|rows|, i requires 0 <= i < |rows| => FromRow(rows[i]))
  }

  /** Transforming rows that are already transformed changes nothing. */
  lemma TransformRowsIdempotent(rows: seq<LicenseKey>)
    ensures TransformRows(Some(TransformRows(Some(rows)))) == TransformRows(Some(rows))
  {
  }

  /** How the remote part of `fetchUserLicenses` ended. */
  datatype LicensesFetch =
    | LicensesNoUser
    | LicensesFailed(message: Option<string>)
    | LicensesFetched(data: Option<seq<LicenseKey>>)

  /** The end of `fetchUserLicenses`: on success the transformed rows replace
      the licenses; otherwise the licenses are kept and the error is set. */
  function FinishLicensesFetch(s: LicenseState, f: LicensesFetch): (r: LicenseState)
    ensures !r.loading
    ensures r.userPlan == s.userPlan
    ensures f.LicensesFetched? ==> r.licenses == TransformRows(f.data) && r.error == s.error
    ensures !f.LicensesFetched? ==> r.licenses == s.licenses && r.error.Some?
  {
    match f
    case LicensesNoUser => s.(error := Some("User not authenticated"), loading := false)
    case LicensesFailed(m) => s.(error := Some(CaughtMessage(m, "Failed to fetch licenses")), loading := false)
    case LicensesFetched(data) => s.(licenses := TransformRows(data), loading := false)
  }

  function FetchUserLicenses(s: LicenseState, f: LicensesFetch): (r: LicenseState)
    ensures !r.loading && r.userPlan == s.userPlan
    ensures f.LicensesFetched? ==> r.licenses == TransformRows(f.data) && r.error == None
    ensures !f.LicensesFetched? ==> r.licenses == s.licenses && r.error.Some?
  {
    FinishLicensesFetch(Begin(s), f)
  }

  // ----- generateLicenseKey -----

  /** The plan's limit as the guard compares with it: a null `max_licenses`
      reads as 0 in `licenses.length >= max_licenses`. */
  function Capacity(p: UserPlan): int {
    p.maxLicenses.GetOr(0)
  }

  /** `${max_licenses}` inside the guard's message. */
  function LimitText(m: Option<int>): string {
    if m.Some? then IntToString(m.value) else "null"
  }

  /** The error of the two local guards, checked before any remote call. The
      capacity guard counts every license, revoked ones included. */
  function GuardError(s: LicenseState): (e: Option<string>)
    ensures e.None? <==> s.userPlan.Some? && |s.licenses| < Capacity(s.userPlan.value)
    ensures s.userPlan.None? ==> e == Some("No active plan found")
    ensures s.userPlan.Some? && e.Some? ==>
      e.value == "Maximum licenses reached for " + PlanName(s.userPlan.value.planType)
                 + " plan (" + LimitText(s.userPlan.value.maxLicenses) + ")"
  {
    if s.userPlan.None? then Some("No active plan found")
    else if |s.licenses| >= Capacity(s.userPlan.value) then
      Some("Maximum licenses reached for " + PlanName(s.userPlan.value.planType)
           + " plan (" + LimitText(s.userPlan.value.maxLicenses) + ")")
    else None
  }

  /** The `data` an RPC call returns. */
  datatype RpcReply = RpcReply(success: bool, error: Option<string>)

  /** The arguments the `generate_license_key` RPC is called with. */
  datatype RpcArgs = RpcArgs(userId: string, planType: PlanType, deviceName: string)

  /** How the remote part of `generateLicenseKey` ended, once the guards pass:
      no signed-in user; the RPC reported an error (thrown as is); or the RPC
      replied, after which the licenses are refetched. */
  datatype GenerateRemote =
    | GenerateNoUser
    | GenerateRpcFailed(userId: string, message: Option<string>)
    | GenerateReplied(userId: string, data: Option<RpcReply>, refresh: LicensesFetch)

  /** The store after the action, its boolean result, and the RPC call made,
      if any. */
  datatype GenerateResult = GenerateResult(state: LicenseState, ok: bool, rpc: Option<RpcArgs>)

  /** The device name sent to the RPC: `deviceName || 'Unknown Device'`. */
  function RpcDeviceName(deviceName: Option<string>): (d: string)
    ensures d != ""
    ensures Present(deviceName) ==> d == deviceName.value
  {
    OrElse(deviceName, "Unknown Device")
  }

  /** A reply counts as a failure when there is data and it is not a success. */
  predicate Declined(data: Option<RpcReply>) {
    data.Some? && !data.value.success
  }

  function GenerateLicenseKey(s: LicenseState, deviceName: Option<string>, remote: GenerateRemote): (r: GenerateResult)
    // every exit clears `loading`, and neither the plan nor the licenses change on failure
    ensures !r.state.loading
    ensures r.state.userPlan == s.userPlan
    ensures !r.ok ==> r.state.error.Some? && r.state.licenses == s.licenses
    // a failing guard decides the outcome before any remote call
    ensures GuardError(s).Some? ==> r == GenerateResult(s.(loading := false, error := GuardError(s)), false, None)
    // success exactly when the guards pass and the RPC replies without declining
    ensures r.ok <==> GuardError(s).None? && remote.GenerateReplied? && !Declined(remote.data)
    ensures r.ok ==> r.state == FinishLicensesFetch(Begin(s), remote.refresh).(loading := false)
    ensures r.rpc.Some? <==> GuardError(s).None? && !remote.GenerateNoUser?
    ensures r.rpc.Some? ==> r.rpc.value == RpcArgs(remote.userId, s.userPlan.value.planType, RpcDeviceName(deviceName))
    ensures GuardError(s).None? && remote.GenerateReplied? && Declined(remote.data) ==>
      r.state.error == Some(OrElse(remote.data.value.error, "Failed to generate license key"))
  {
    var s1 := Begin(s);
    var guard := GuardError(s);
    if guard.Some? then
      GenerateResult(s1.(error := guard, loading := false), false, None)
    else
      var plan := s.userPlan.value;
      match remote
      case GenerateNoUser =>
        GenerateResult(s1.(error := Some("User not authenticated"), loading := false), false, None)
      case GenerateRpcFailed(userId, message) =>
        var args := RpcArgs(userId, plan.planType, RpcDeviceName(deviceName));
        GenerateResult(s1.(error := Some(CaughtMessage(message, "Failed to generate license key")), loading := false), false, Some(args))
      case GenerateReplied(userId, data, refresh) =>
        var args := RpcArgs(userId, plan.planType, RpcDeviceName(deviceName));
        if Declined(data) then
          GenerateResult(s1.(error := Some(OrElse(data.value.error, "Failed to generate license key")), loading := false), false, Some(args))
        else
          GenerateResult(FinishLicensesFetch(s1, refresh).(loading := false), true, Some(args))
  }

  /** A null limit reads as 0, so with a null `max_licenses` no license can
      ever be generated. */
  lemma NullLimitBlocks(s: LicenseState)
    requires s.userPlan.Some? && s.userPlan.value.maxLicenses.None?
    ensures GuardError(s).Some?
  {
  }

  // ----- revokeLicenseKey -----

  /** A license after revocation. */
  function Revoked(l: LicenseKey): (r: LicenseKey)
    ensures !r.isActive && r.status == Some("revoked")
    ensures r.(isActive := l.isActive, status := l.status) == l
  {
    l.(status := Some("revoked"), isActive := false)
  }

  /** The local update after a successful revoke: exactly the licenses with the
      given id are revoked. */
  function RevokeLocal(ls: seq<LicenseKey>, id: string): (r: seq<LicenseKey>)
    ensures |r| == |ls|
    ensures forall i :: 0 <= i < |ls| && ls[i].id == id ==> r[i] == Revoked(ls[i])
    ensures forall i :: 0 <= i < |ls| && ls[i].id != id ==> r[i] == ls[i]
  {
    seq(|ls|, i requires 0 <= i < |ls| => if ls[i].id == id then Revoked(ls[i]) else ls[i])
  }

  lemma RevokeLocalIdempotent(ls: seq<LicenseKey>, id: string)
    ensures RevokeLocal(RevokeLocal(ls, id), id) == RevokeLocal(ls, id)
  {
  }

  /** After the update no license with the id is active, and every license with
      another id is untouched. */
  lemma RevokeLocalEffect(ls: seq<LicenseKey>, id: string)
    ensures forall l :: l in RevokeLocal(ls, id) && l.id == id ==> !l.isActive
    ensures forall l :: l in ls && l.id != id ==> l in RevokeLocal(ls, id)
  {
    var r := RevokeLocal(ls, id);
    forall l | l in ls && l.id != id
      ensures l in r
    {
      var i :| 0 <= i < |ls| && ls[i] == l;
      assert r[i] == l;
    }
  }

  datatype WriteOutcome = WriteOk | WriteFailed(message: Option<string>)

  /** `revokeLicenseKey`: the store after the action and its result. */
  function RevokeLicenseKey(s: LicenseState, id: string, outcome: WriteOutcome): (r: (LicenseState, bool))
    ensures !r.0.loading && r.0.userPlan == s.userPlan
    ensures r.1 <==> outcome.WriteOk?
    ensures r.1 ==> r.0.licenses == RevokeLocal(s.licenses, id) && r.0.error == None
    ensures !r.1 ==> r.0.licenses == s.licenses && r.0.error.Some?
  {
    var s1 := Begin(s);
    match outcome
    case WriteOk => (s1.(licenses := RevokeLocal(s.licenses, id), loading := false), true)
    case WriteFailed(m) => (s1.(error := Some(CaughtMessage(m, "Failed to revoke license key")), loading := false), false)
  }

  /** Revoking never frees room under the store's guard: it counts revoked
      licenses too. */
  lemma RevokeKeepsGuard(s: LicenseState, id: string, outcome: WriteOutcome)
    ensures GuardError(RevokeLicenseKey(s, id, outcome).0).None? <==> GuardError(s).None?
  {
  }

  // ----- fetchUserPlan -----

  /** The limits `fetchUserPlan` treats as broken: null, 0 and 1. */
  predicate NeedsRepair(m: Option<int>) {
    m == None || m == Some(0) || m == Some(1)
  }

  /** The plan with a broken limit replaced by its plan type's limit, as the
      update in `fetchUserPlan` writes it. */
  function RepairPlan(p: UserPlan): (r: UserPlan)
    ensures !NeedsRepair(r.maxLicenses)
    ensures NeedsRepair(p.maxLicenses) ==> r.maxLicenses == Some(if p.planType == Premium then 5 else 10)
    ensures !NeedsRepair(p.maxLicenses) ==> r == p
    ensures r.(maxLicenses := p.maxLicenses) == p
  {
    if NeedsRepair(p.maxLicenses) then p.(maxLicenses := Some(Limits(p.planType).maxLicenses)) else p
  }

  lemma RepairPlanIdempotent(p: UserPlan)
    ensures RepairPlan(RepairPlan(p)) == RepairPlan(p)
  {
  }

  /** What the database gives back for the inserted plan. */
  datatype InsertOutcome = Inserted(id: string, createdAt: int, expiresAt: Option<int>) | InsertFailed

  datatype UpdateOutcome = Updated | UpdateFailed

  /** How the remote part of `fetchUserPlan` ended: no user; no plan row
      (`PGRST116`), followed by the insert of a basic plan; another query
      error; the plan row, followed by the repair update when it needs one;
      or a thrown value. */
  datatype PlanFetch =
    | PlanNoUser
    | PlanMissing(userId: string, insert: InsertOutcome)
    | PlanQueryFailed(message: Option<string>)
    | PlanFound(plan: UserPlan, update: UpdateOutcome)
    | PlanThrew(message: Option<string>)

  /** The basic plan inserted for a user who has none. */
  function NewBasicPlan(userId: string, ins: InsertOutcome): (p: UserPlan)
    requires ins.Inserted?
    ensures p.userId == userId && p.planType == Basic && p.isActive
    ensures p.maxLicenses == Some(BasicLimits.maxLicenses)
  {
    UserPlan(ins.id, userId, Basic, ins.createdAt, ins.expiresAt, true, Some(BasicLimits.maxLicenses))
  }

  function FinishPlanFetch(s: LicenseState, f: PlanFetch): (r: LicenseState)
    ensures !r.loading && r.licenses == s.licenses
    ensures f.PlanNoUser? ==> r == s.(loading := false)
    ensures f.PlanMissing? && f.insert.Inserted? ==>
      r.userPlan == Some(NewBasicPlan(f.userId, f.insert)) && r.error == s.error
    ensures f.PlanFound? && f.update.Updated? ==> r.userPlan == Some(RepairPlan(f.plan))
    ensures f.PlanFound? && f.update.UpdateFailed? ==> r.userPlan == Some(f.plan)
    ensures f.PlanFound? ==> r.error == s.error
    ensures f.PlanFound? || (f.PlanMissing? && f.insert.Inserted?) || r.userPlan == s.userPlan
    ensures r.error.Some? <==> s.error.Some? || f.PlanQueryFailed? || f.PlanThrew? || (f.PlanMissing? && f.insert.InsertFailed?)
  {
    match f
    case PlanNoUser => s.(loading := false)
    case PlanMissing(userId, ins) =>
      if ins.Inserted? then s.(userPlan := Some(NewBasicPlan(userId, ins)), loading := false)
      else s.(error := Some("Failed to create user plan. Please try again."), loading := false)
    case PlanQueryFailed(m) => s.(error := Some(OrElse(m, "Failed to fetch user plan")), loading := false)
    case PlanFound(plan, update) =>
      if NeedsRepair(plan.maxLicenses) && update.Updated? then s.(userPlan := Some(RepairPlan(plan)), loading := false)
      else s.(userPlan := Some(plan), loading := false)
    case PlanThrew(m) => s.(error := Some(CaughtMessage(m, "Failed to fetch user plan")), loading := false)
  }

  function FetchUserPlan(s: LicenseState, f: PlanFetch): (r: LicenseState)
    ensures !r.loading && r.licenses == s.licenses
    ensures f.PlanMissing? && f.insert.Inserted? ==> r.userPlan.Some? && r.userPlan.value.maxLicenses == Some(10)
    ensures f.PlanFound? && f.update.Updated? ==> r.userPlan.Some? && !NeedsRepair(r.userPlan.value.maxLicenses)
    ensures f.PlanFound? && !NeedsRepair(f.plan.maxLicenses) ==> r.userPlan == Some(f.plan)
    ensures f.PlanFound? && f.update.UpdateFailed? ==> r.userPlan == Some(f.plan)
    // the error starts cleared and is set exactly on the failing paths
    ensures r.error.Some? <==> f.PlanQueryFailed? || f.PlanThrew? || (f.PlanMissing? && f.insert.InsertFailed?)
    ensures f.PlanMissing? && f.insert.InsertFailed? ==>
      r.error == Some("Failed to create user plan. Please try again.")
    // no plan is read or created: the plan the store had is kept
    ensures f.PlanNoUser? || f.PlanQueryFailed? || f.PlanThrew? || (f.PlanMissing? && f.insert.InsertFailed?) ==>
      r.userPlan == s.userPlan
  {
    FinishPlanFetch(Begin(s), f)
  }

  // ----- upgradeToPremium -----

  const YearMs: int := 365 * 24 * 60 * 60 * 1000

  /** The plan row after the upgrade's update. */
  function UpgradedPlan(p: UserPlan, now: int): (r: UserPlan)
    ensures r.planType == Premium
    ensures r.maxLicenses == Some(PremiumLimits.maxLicenses)
    ensures r.expiresAt == Some(now + YearMs)
    ensures r.(planType := p.planType, maxLicenses := p.maxLicenses, expiresAt := p.expiresAt) == p
  {
    p.(planType := Premium, maxLicenses := Some(PremiumLimits.maxLicenses), expiresAt := Some(now + YearMs))
  }

  /** An upgraded plan is never repaired when it is read back. */
  lemma UpgradedNeedsNoRepair(p: UserPlan, now: int)
    ensures RepairPlan(UpgradedPlan(p, now)) == UpgradedPlan(p, now)
  {
  }

  /** How the remote part of `upgradeToPremium` ended. `Upgraded` carries the
      plan row as it was before the update; the refetch reads back the updated
      row. */
  datatype UpgradeRemote =
    | UpgradeNoUser
    | UpgradeFailed(message: Option<string>)
    | Upgraded(stored: UserPlan, refetch: UpdateOutcome)

  function UpgradeToPremium(s: LicenseState, now: int, remote: UpgradeRemote): (r: (LicenseState, bool))
    ensures !r.0.loading && r.0.licenses == s.licenses
    ensures r.1 <==> remote.Upgraded?
    ensures r.1 ==> r.0.userPlan.Some? && r.0.userPlan.value.planType == Premium
                    && r.0.userPlan.value.maxLicenses == Some(5)
                    && r.0.userPlan.value.expiresAt == Some(now + YearMs)
                    && r.0.error == None
    ensures !r.1 ==> r.0.userPlan == s.userPlan && r.0.error.Some?
  {
    var s1 := Begin(s);
    match remote
    case UpgradeNoUser => (s1.(error := Some("User not authenticated"), loading := false), false)
    case UpgradeFailed(m) => (s1.(error := Some(CaughtMessage(m, "Failed to upgrade to premium")), loading := false), false)
    case Upgraded(stored, refetch) =>
      var s2 := FetchUserPlan(s1, PlanFound(UpgradedPlan(stored, now), refetch));
      (s2.(loading := false), true)
  }

  // ----- generateRandomKey -----

  /** `chars.charAt(n)` for `chars = 'ABCDEFGHIJKLMNOPQRSTUVWXYZ0123456789'`. */
  function KeyChar(n: nat): (c: char)
    requires n < 36
    ensures 'A' <= c <= 'Z' || '0' <= c <= '9'
  {
    if n < 26 then ('A' as int + n) as char else ('0' as int + (n - 26)) as char
  }

  /** The position in `chars` of a key character. */
  function KeyCharIndex(c: char): nat {
    if 'A' <= c <= 'Z' then c as int - 'A' as int
    else if '0' <= c <= '9' then 26 + (c as int - '0' as int)
    else 0
  }

  lemma KeyCharIndexInverse(n: nat)
    requires n < 36
    ensures KeyCharIndex(KeyChar(n)) == n
  {
  }

  /** The sixteen `Math.floor(Math.random() * chars.length)` draws, in order. */
  predicate ValidPicks(picks: seq<nat>) {
    |picks| == 16 && forall i :: 0 <= i < |picks| ==> picks[i] < 36
  }

  /** The `k`-th segment: four characters drawn from picks `4k .. 4k+3`. */
  function Segment(picks: seq<nat>, k: nat): (seg: string)
    requires ValidPicks(picks) && k < 4
    ensures |seg| == 4
  {
    seq(4, j requires 0 <= j < 4 => KeyChar(picks[4 * k + j]))
  }

  /** `segments.join('-')` */
  function JoinDash(segments: seq<string>): string
    decreases |segments|
  {
    if |segments| == 0 then ""
    else if |segments| == 1 then segments[0]
    else segments[0] + "-" + JoinDash(segments[1..])
  }

  /** Where the `i`-th drawn character lands in the key: one dash after every
      four characters. */
  function KeyPos(i: nat): nat {
    if i < 4 then i else if i < 8 then i + 1 else if i < 12 then i + 2 else i + 3
  }

  /** The key's layout: four four-character segments joined by dashes. */
  function FormatKey(picks: seq<nat>): (key: string)
    requires ValidPicks(picks)
    ensures |key| == 19
    ensures key[4] == '-' && key[9] == '-' && key[14] == '-'
    ensures forall i :: 0 <= i < 16 ==> key[KeyPos(i)] == KeyChar(picks[i])
  {
    var s0, s1, s2, s3 := Segment(picks, 0), Segment(picks, 1), Segment(picks, 2), Segment(picks, 3);
    var t2 := JoinDash([s2, s3]);
    assert JoinDash([s3]) == s3;
    assert [s2, s3][1..] == [s3];
    assert t2 == s2 + "-" + s3;
    var t1 := JoinDash([s1, s2, s3]);
    assert [s1, s2, s3][1..] == [s2, s3];
    assert t1 == s1 + "-" + t2;
    var key := JoinDash([s0, s1, s2, s3]);
    assert [s0, s1, s2, s3][1..] == [s1, s2, s3];
    assert key == s0 + "-" + t1;
    forall i | 0 <= i < 16
      ensures key[KeyPos(i)] == KeyChar(picks[i])
    {
      if i < 4 {
        assert key[KeyPos(i)] == s0[i];
      } else if i < 8 {
        assert key[KeyPos(i)] == t1[i - 4] == s1[i - 4];
      } else if i < 12 {
        assert key[KeyPos(i)] == t1[i - 3] == t2[i - 8] == s2[i - 8];
      } else {
        assert key[KeyPos(i)] == t1[i - 2] == t2[i - 7] == s3[i - 12];
      }
    }
    key
  }

  /** The draws read back from a key. */
  function KeyPicks(key: string): (picks: seq<nat>)
    requires |key| == 19
  {
    seq(16, i requires 0 <= i < 16 => KeyCharIndex(key[KeyPos(i)]))
  }

  /** The layout loses nothing: the draws can be read back, so different draws
      give different keys. */
  lemma FormatKeyRoundTrip(picks: seq<nat>)
    requires ValidPicks(picks)
    ensures KeyPicks(FormatKey(picks)) == picks
  {
    var key := FormatKey(picks);
    forall i | 0 <= i < 16
      ensures KeyPicks(key)[i] == picks[i]
    {
      KeyCharIndexInverse(picks[i]);
    }
  }

  lemma FormatKeyInjective(p1: seq<nat>, p2: seq<nat>)
    requires ValidPicks(p1) && ValidPicks(p2)
    requires FormatKey(p1) == FormatKey(p2)
    ensures p1 == p2
  {
    FormatKeyRoundTrip(p1);
    FormatKeyRoundTrip(p2);
  }

  /** `generateRandomKey`, with the random draws as input: builds four segments
      of four characters, then joins them with dashes. */
  method GenerateRandomKey(picks: seq<nat>) returns (key: string)
    requires ValidPicks(picks)
    ensures key == FormatKey(picks)
    ensures |key| == 19 && key[4] == '-' && key[9] == '-' && key[14] == '-'
  {
    var segments: seq<string> := [];
    var i := 0;
    while i < 4
      invariant 0 <= i <= 4
      invariant |segments| == i
      invariant forall k :: 0 <= k < i ==> segments[k] == Segment(picks, k)
    {
      var segment := "";
      var j := 0;
      while j < 4
        invariant 0 <= j <= 4
        invariant segment == Segment(picks, i)[..j]
      {
        segment := segment + [KeyChar(picks[4 * i + j])];
        j := j + 1;
      }
      segments := segments + [segment];
      i := i + 1;
    }
    assert segments == [Segment(picks, 0), Segment(picks, 1), Segment(picks, 2), Segment(picks, 3)];
    key := JoinDash(segments);
  }
}
