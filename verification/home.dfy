/**
 The dashboard home: the counters computed from the users endpoint with their
 fallbacks, the five most recent local activities with their icon and colour,
 the role label of the signed-in user, and the total-users figure.
 */
module Home {
  import opened JsValues
  import opened Text
  import opened Api

  datatype Stats = Stats(
    services: int, codes: int, adminUsers: int, customerUsers: int, technicalUsers: int, orders: int)

  const InitialStats: Stats := Stats(0, 0, 0, 0, 0, 0)

  /** The counters the users endpoint reports; `None` for a missing property. */
  datatype DashboardCounts = DashboardCounts(
    servicesCount: Option<int>, adminsCount: Option<int>, usersCount: Option<int>,
    techniciansCount: Option<int>, orders: Option<int>)

  /** `user?.role === 'admin'`: exact, case-sensitive comparison. */
  predicate IsAdmin(user: Option<UserRecord>) {
    user.Some? && "role" in user.value && user.value["role"] == Some("admin")
  }

  /**
   The counters after a successful fetch: each reported counter when truthy,
   otherwise the length of the fetched list (services), 1 for a signed-in
   admin (admins) or 0.
   */
  function ComputeStats(counts: DashboardCounts, servicesLength: nat, codesLength: nat, user: Option<UserRecord>): (s: Stats)
    ensures s.services == (if TruthyNumber(counts.servicesCount) then counts.servicesCount.value else servicesLength)
    ensures s.codes == codesLength
    ensures TruthyNumber(counts.adminsCount) ==> s.adminUsers == counts.adminsCount.value
    ensures !TruthyNumber(counts.adminsCount) ==> (s.adminUsers == 1 <==> IsAdmin(user)) && 0 <= s.adminUsers <= 1
    ensures s.customerUsers == (if TruthyNumber(counts.usersCount) then counts.usersCount.value else 0)
    ensures s.technicalUsers == (if TruthyNumber(counts.techniciansCount) then counts.techniciansCount.value else 0)
    ensures s.orders == (if TruthyNumber(counts.orders) then counts.orders.value else 0)
  {
    Stats(
      OrNumber(counts.servicesCount, OrNumber(Some(servicesLength), 0)),
      OrNumber(Some(codesLength), 0),
      OrNumber(counts.adminsCount, if IsAdmin(user) then 1 else 0),
      OrNumber(counts.usersCount, 0),
      OrNumber(counts.techniciansCount, 0),
      OrNumber(counts.orders, 0))
  }

  /**
   The "total users" figure: admins, customers and technicians together, so
   with no negative counter it is never below any one of them.
   */
  function TotalUsers(s: Stats): (total: int)
    ensures s.customerUsers >= 0 && s.technicalUsers >= 0 ==> total >= s.adminUsers
    ensures s.adminUsers >= 0 && s.technicalUsers >= 0 ==> total >= s.customerUsers
    ensures s.adminUsers >= 0 && s.customerUsers >= 0 ==> total >= s.technicalUsers
  {
    s.adminUsers + s.customerUsers + s.technicalUsers
  }

  /**
   With no user counters reported, the total is 1 for a signed-in user whose
   role is exactly "admin" and 0 otherwise; reported counters are summed.
   */
  lemma TotalUsersAfterFetch(counts: DashboardCounts, servicesLength: nat, codesLength: nat, user: Option<UserRecord>)
    ensures var s := ComputeStats(counts, servicesLength, codesLength, user);
            && (!TruthyNumber(counts.adminsCount) && !TruthyNumber(counts.usersCount) && !TruthyNumber(counts.techniciansCount)
                ==> TotalUsers(s) == (if IsAdmin(user) then 1 else 0))
            && (TruthyNumber(counts.adminsCount) && TruthyNumber(counts.usersCount) && TruthyNumber(counts.techniciansCount)
                ==> TotalUsers(s) == counts.adminsCount.value + counts.usersCount.value + counts.techniciansCount.value)
  {
  }

  // ---------------------------------------------------------------------------
  // Activities

  datatype Icon = PackageIcon | CodeIcon | UsersIcon | CartIcon | PulseIcon | ClockIcon

  datatype Tone = Green | Blue | Purple | Amber | Indigo | Gray

  /** The activity kinds with their own icon and colour. */
  predicate IsKnownKind(kind: string) {
    kind in {"service", "code", "user", "order", "system"}
  }

  /** `getActivityIcon`: a kind's own icon, else the clock. */
  function IconOf(kind: string): (i: Icon)
    ensures i == ClockIcon <==> !IsKnownKind(kind)
  {
    if kind == "service" then PackageIcon
    else if kind == "code" then CodeIcon
    else if kind == "user" then UsersIcon
    else if kind == "order" then CartIcon
    else if kind == "system" then PulseIcon
    else ClockIcon
  }

  /** `getActivityColor`: a kind's own colour, else grey. */
  function ToneOf(kind: string): (t: Tone)
    ensures t == Gray <==> !IsKnownKind(kind)
  {
    if kind == "service" then Green
    else if kind == "code" then Blue
    else if kind == "user" then Purple
    else if kind == "order" then Amber
    else if kind == "system" then Indigo
    else Gray
  }

  /** Distinct known kinds get distinct icons and distinct colours. */
  lemma KnownKindsDistinguished(k1: string, k2: string)
    requires IsKnownKind(k1) && IsKnownKind(k2) && k1 != k2
    ensures IconOf(k1) != IconOf(k2)
    ensures ToneOf(k1) != ToneOf(k2)
  {
  }

  /** An activity as the home screen lists it. */
  datatype ActivityView = ActivityView(
    id: int, kind: string, title: string, details: string, time: string, icon: Icon, tone: Tone)

  /** `getLocalActivities` followed by the formatting of one entry, at clock reading `now`. */
  function Format(a: Activity, now: int): (v: ActivityView)
    ensures v.id == a.id && v.kind == a.kind && v.title == a.title && v.details == a.details
    ensures v.time == TimeAgo(now - a.time)
    ensures v.icon == IconOf(a.kind) && v.tone == ToneOf(a.kind)
  {
    ActivityView(a.id, a.kind, a.title, a.details, TimeAgo(now - a.time), IconOf(a.kind), ToneOf(a.kind))
  }

  const ShownActivities: nat := 5

  /** `formattedActivities.slice(0, 5)`: the first five entries of the log, newest first, in order. */
  function RecentActivities(log: seq<Activity>, now: int): (r: seq<ActivityView>)
    ensures |r| == Min(|log|, ShownActivities)
    ensures forall k :: 0 <= k < |r| ==> r[k] == Format(log[k], now)
  {
    var all := seq(|log|, i requires 0 <= i < |log| => Format(log[i], now));
    if |all| > ShownActivities then all[..ShownActivities] else all
  }

  /** Just after an activity is logged, it heads the home screen's list. */
  lemma LoggedActivityShownFirst(log: seq<Activity>, entry: Activity, now: int)
    ensures RecentActivities(LogActivity(log, entry), now)[0] == Format(entry, now)
    ensures |RecentActivities(LogActivity(log, entry), now)| == Min(|log| + 1, ShownActivities)
  {
  }

  // ---------------------------------------------------------------------------
  // Fetching

  datatype HomeState = HomeState(stats: Stats, activities: seq<ActivityView>, loading: bool, refreshing: bool)

  function Initial(): (s: HomeState)
    ensures s.stats == InitialStats && s.activities == [] && s.loading && !s.refreshing
  {
    HomeState(InitialStats, [], true, false)
  }

  /** What the three requests of `fetchDashboardData` gave: a failure of any, or the counters and list lengths. */
  datatype Fetch = FetchFailed | Fetched(counts: DashboardCounts, servicesLength: nat, codesLength: nat)

  /**
   `fetchDashboardData`: on success the counters and the recent activities are
   replaced; on failure both are kept. Loading and refreshing end either way.
   */
  function Refresh(s: HomeState, fetch: Fetch, user: Option<UserRecord>, log: seq<Activity>, now: int): (r: HomeState)
    ensures !r.loading && !r.refreshing
    ensures fetch.FetchFailed? ==> r.stats == s.stats && r.activities == s.activities
    ensures fetch.Fetched? ==>
              && r.stats == ComputeStats(fetch.counts, fetch.servicesLength, fetch.codesLength, user)
              && |r.activities| == Min(|log|, ShownActivities)
              && (forall k :: 0 <= k < |r.activities| ==> r.activities[k] == Format(log[k], now))
  {
    match fetch
    case FetchFailed => s.(loading := false, refreshing := false)
    case Fetched(counts, servicesLength, codesLength) =>
      HomeState(ComputeStats(counts, servicesLength, codesLength, user), RecentActivities(log, now), false, false)
  }

  // ---------------------------------------------------------------------------
  // Role label

  const AdminLabel: string := "مدير النظام"
  const TechnicalLabel: string := "فني"
  const CustomerLabel: string := "عميل"
  const DefaultRoleLabel: string := "مستخدم"

  /**
   `getRoleName(role)`: the three known roles in any letter case get their
   Arabic label; any other role is shown as it is, and a missing or empty
   role as "user".
   */
  function RoleName(role: Option<string>): (name: string)
    ensures role.Some? && Lower(role.value) == "admin" ==> name == AdminLabel
    ensures role.Some? && Lower(role.value) == "technical" ==> name == TechnicalLabel
    ensures role.Some? && Lower(role.value) == "customer" ==> name == CustomerLabel
    ensures !(role.Some? && Lower(role.value) in {"admin", "technical", "customer"})
            ==> name == (if Truthy(role) then role.value else DefaultRoleLabel)
  {
    if role.None? then DefaultRoleLabel
    else
      var folded := Lower(role.value);
      if folded == "admin" then AdminLabel
      else if folded == "technical" then TechnicalLabel
      else if folded == "customer" then CustomerLabel
      else OrElse(role, DefaultRoleLabel)
  }

  /** The label of a known role does not depend on letter case. */
  lemma RoleNameIgnoresCase(role: string)
    requires Lower(role) in {"admin", "technical", "customer"}
    ensures RoleName(Some(role)) == RoleName(Some(Lower(role)))
  {
    LowerIdempotent(role);
  }

  /**
   A signed-in user whose role is "Admin" is labelled as an administrator, but
   is not counted as one when the admins counter is missing: the counter's
   fallback compares the role exactly.
   */
  lemma CapitalisedAdmin(counts: DashboardCounts, servicesLength: nat, codesLength: nat)
    requires !TruthyNumber(counts.adminsCount)
    ensures RoleName(Some("Admin")) == AdminLabel
    ensures ComputeStats(counts, servicesLength, codesLength, Some(map["role" := Some("Admin")])).adminUsers == 0
  {
    var folded := Lower("Admin");
    assert folded[0] == 'a';
    assert folded == "admin";
  }
}
