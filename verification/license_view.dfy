/** The decisions the license page makes from the store: which licenses count
    as active, whether another key may be generated, the status badge, the
    displayed key and which controls are shown. */
module LicenseView {
  import opened Wrappers
  import opened Seqs
  import opened License
  import opened LicenseStore

  /** `license => license.is_active` */
  function IsActive(): LicenseKey -> bool {
    (l: LicenseKey) => l.isActive
  }

  /** `licenses.filter(license => license.is_active)` */
  function ActiveLicenses(ls: seq<LicenseKey>): (r: seq<LicenseKey>)
    ensures forall l :: l in r <==> l in ls && l.isActive
    ensures |r| <= |ls|
  {
    Filter(ls, IsActive())
  }

  /** `canCreateMore`: a plan exists and fewer licenses are active than its
      limit (a null limit compares as 0). Revoked licenses do not count here. */
  predicate CanCreateMore(plan: Option<UserPlan>, ls: seq<LicenseKey>) {
    plan.Some? && |ActiveLicenses(ls)| < Capacity(plan.value)
  }

  /** `disabled={!canCreateMore || loading}` on the Generate button. */
  predicate GenerateDisabled(s: LicenseState) {
    !CanCreateMore(s.userPlan, s.licenses) || s.loading
  }

  /** When the store's guard lets a generation through, the page offers it
      too: the page counts fewer licenses than the store. */
  lemma GuardImpliesCanCreate(s: LicenseState)
    requires GuardError(s).None?
    ensures CanCreateMore(s.userPlan, s.licenses)
    ensures !s.loading ==> !GenerateDisabled(s)
  {
  }

  const SomePlan := UserPlan("p", "u", Basic, 0, None, true, Some(1))
  const RevokedLicense := LicenseKey("k", None, None, "u", Basic, None, 0, 0, false, Some("revoked"), None)

  /** The converse fails: with one revoked license on a one-license plan the
      button is enabled, yet the store refuses with "Maximum licenses reached". */
  lemma CanCreateButGuardRefuses()
    ensures var s := LicenseState([RevokedLicense], Some(SomePlan), false, None);
      !GenerateDisabled(s) && GuardError(s).Some?
  {
    var s := LicenseState([RevokedLicense], Some(SomePlan), false, None);
    assert ActiveLicenses(s.licenses) == [];
  }

  /** `isExpired`: `new Date(expiresAt) < new Date()`. */
  predicate IsExpired(expiresAt: int, now: int) {
    expiresAt < now
  }

  /** The status badge's text. */
  function Badge(l: LicenseKey, now: int): (text: string)
    ensures text == "Active" || text == "Inactive"
    ensures text == "Active" <==> l.isActive && l.expiresAt >= now
  {
    if l.isActive && !IsExpired(l.expiresAt, now) then "Active" else "Inactive"
  }

  /** Once rows are loaded, a badge reads "Active" only for a row whose status
      is `'active'` and which has not expired. */
  lemma LoadedBadge(rows: seq<LicenseKey>, i: nat, now: int)
    requires i < |rows|
    ensures Badge(TransformRows(Some(rows))[i], now) == "Active"
        <==> rows[i].status == Some("active") && rows[i].expiresAt >= now
  {
  }

  /** The key shown: `license.key || license.license_key || 'No key available'`. */
  function DisplayedKey(l: LicenseKey): (k: string)
    ensures k != ""
    ensures Present(l.key) ==> k == l.key.value
    ensures !Present(l.key) && Present(l.licenseKey) ==> k == l.licenseKey.value
    ensures !Present(l.key) && !Present(l.licenseKey) ==> k == "No key available"
  {
    OrElse(l.key, OrElse(l.licenseKey, "No key available"))
  }

  /** For a loaded row, the shown key is its `license_key`, or the
      placeholder. */
  lemma LoadedKey(row: LicenseKey)
    ensures DisplayedKey(FromRow(row)) == OrElse(row.licenseKey, "No key available")
  {
  }

  /** The Revoke control is rendered only for active licenses. */
  predicate ShowsRevoke(l: LicenseKey) {
    l.isActive
  }

  /** After a successful revoke, no license with that id offers Revoke any
      more, and the active licenses are the former ones minus that id. */
  lemma RevokeHidesControl(s: LicenseState, id: string)
    ensures var ls := RevokeLicenseKey(s, id, WriteOk).0.licenses;
      forall l :: l in ls && l.id == id ==> !ShowsRevoke(l)
    ensures var ls := RevokeLicenseKey(s, id, WriteOk).0.licenses;
      forall l :: l in ActiveLicenses(ls) <==> l in ActiveLicenses(s.licenses) && l.id != id
  {
    var ls := RevokeLicenseKey(s, id, WriteOk).0.licenses;
    RevokeLocalEffect(s.licenses, id);
    forall l | l in ActiveLicenses(ls)
      ensures l in ActiveLicenses(s.licenses) && l.id != id
    {
      var i :| 0 <= i < |ls| && ls[i] == l;
      assert s.licenses[i].id != id;
    }
  }

  /** Revoking never lowers `canCreateMore`. */
  lemma RevokeKeepsCanCreate(s: LicenseState, id: string)
    requires CanCreateMore(s.userPlan, s.licenses)
    ensures var r := RevokeLicenseKey(s, id, WriteOk).0;
      CanCreateMore(r.userPlan, r.licenses)
  {
    var r := RevokeLicenseKey(s, id, WriteOk).0;
    RevokeHidesControl(s, id);
    var a := ActiveLicenses(r.licenses);
    var b := ActiveLicenses(s.licenses);
    assert forall x :: multiset(a)[x] <= multiset(b)[x] by {
      forall x
        ensures multiset(a)[x] <= multiset(b)[x]
      {
        RevokeActiveCount(s.licenses, id, x);
      }
    }
    assert multiset(a) <= multiset(b);
    MultisetSubLength(a, b);
  }

  /** Revoking never makes a license active, and never adds one. */
  lemma {:induction false} RevokeActiveCount(ls: seq<LicenseKey>, id: string, x: LicenseKey)
    ensures multiset(ActiveLicenses(RevokeLocal(ls, id)))[x] <= multiset(ActiveLicenses(ls))[x]
    decreases |ls|
  {
    if |ls| > 0 {
      var init := ls[..|ls| - 1];
      var r := RevokeLocal(ls, id);
      assert r[..|r| - 1] == RevokeLocal(init, id);
      assert r == RevokeLocal(init, id) + [r[|r| - 1]];
      assert ls == init + [ls[|ls| - 1]];
      FilterAppend(RevokeLocal(init, id), [r[|r| - 1]], IsActive());
      FilterAppend(init, [ls[|ls| - 1]], IsActive());
      RevokeActiveCount(init, id, x);
    }
  }

  lemma MultisetSubLength<T>(a: seq<T>, b: seq<T>)
    requires multiset(a) <= multiset(b)
    ensures |a| <= |b|
  {
    assert |multiset(a)| <= |multiset(b)| by {
      var d := multiset(b) - multiset(a);
      assert multiset(b) == multiset(a) + d;
    }
  }

  /** `deviceName || undefined`: an empty input is not passed on. */
  function DeviceArgument(input: string): (arg: Option<string>)
    ensures arg.None? <==> input == ""
    ensures arg.Some? ==> arg.value == input
  {
    if input == "" then None else Some(input)
  }

  /** The device name the RPC receives for what was typed. */
  lemma TypedDeviceName(input: string)
    ensures RpcDeviceName(DeviceArgument(input)) == if input == "" then "Unknown Device" else input
  {
  }

  /** The input after `handleGenerateKey`: cleared only on success. */
  function InputAfterGenerate(input: string, ok: bool): (next: string)
    ensures ok ==> next == ""
    ensures !ok ==> next == input
  {
    if ok then "" else input
  }

  /** `handleGenerateKey`: the store action with the typed name, and the input
      that remains. */
  function HandleGenerateKey(s: LicenseState, input: string, remote: GenerateRemote): (r: (GenerateResult, string))
    ensures r.1 == "" || r.1 == input
    ensures r.1 != input ==> r.0.ok
    ensures GuardError(s).Some? ==> r.1 == input
    ensures r.0.rpc.Some? ==> r.0.rpc.value.deviceName == (if input == "" then "Unknown Device" else input)
  {
    var g := GenerateLicenseKey(s, DeviceArgument(input), remote);
    (g, InputAfterGenerate(input, g.ok))
  }

  /** The "Upgrade to Premium" button appears only on a basic plan. */
  predicate ShowsUpgrade(plan: Option<UserPlan>) {
    plan.Some? && plan.value.planType == Basic
  }

  /** After a successful upgrade the button is gone. */
  lemma UpgradeHidesButton(s: LicenseState, now: int, remote: UpgradeRemote)
    requires remote.Upgraded?
    ensures !ShowsUpgrade(UpgradeToPremium(s, now, remote).0.userPlan)
  {
  }
}
