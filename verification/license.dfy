/** The license records and plan limits shared by the license store and the
    license page. Dates are milliseconds since the epoch. */
module License {
  import opened Wrappers

  datatype PlanType = Basic | Premium

  /** The `plan_type` text as it is shown and interpolated. */
  function PlanName(p: PlanType): (r: string)
    ensures r != ""
    ensures p == Basic <==> r == "basic"
  {
    match p
    case Basic => "basic"
    case Premium => "premium"
  }

  /** One entry of a plan's limits. */
  datatype PlanLimit = PlanLimit(maxLicenses: nat, durationDays: nat, priceCents: nat)

  /** `PLAN_LIMITS.basic` */
  const BasicLimits := PlanLimit(10, 30, 0)

  /** `PLAN_LIMITS.premium`; the price 29.99 is written in cents. */
  const PremiumLimits := PlanLimit(5, 30, 2999)

  function Limits(p: PlanType): (r: PlanLimit)
    ensures r.maxLicenses > 1 && r.durationDays == 30
    ensures p == Premium <==> r.maxLicenses == 5
  {
    match p
    case Basic => BasicLimits
    case Premium => PremiumLimits
  }

  /** A license as the store holds it: the `license_keys` row spread into an
      object, with the interface's `key` and `is_active` besides the row's
      `license_key` and `status`. Fields the rows may lack are `Option`s. */
  datatype LicenseKey = LicenseKey(
    id: string,
    key: Option<string>,
    licenseKey: Option<string>,
    userId: string,
    planType: PlanType,
    macAddress: Option<string>,
    createdAt: int,
    expiresAt: int,
    isActive: bool,
    status: Option<string>,
    deviceName: Option<string>)

  /** A `user_plans` row. `max_licenses` is a number in the interface but the
      column can hold null, which the store checks for. */
  datatype UserPlan = UserPlan(
    id: string,
    userId: string,
    planType: PlanType,
    createdAt: int,
    expiresAt: Option<int>,
    isActive: bool,
    maxLicenses: Option<int>)
}
