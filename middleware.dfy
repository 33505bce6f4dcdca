/** The free-tier gate of middleware.ts: requests for the interview session
    page by logged-in free users are redirected to the upgrade page once
    they have started three sessions this UTC month. The session lookup,
    the plan lookup and the session count are oracle parameters. */
module Gate {
  import opened Wrappers

  const SessionPath: string := "/interview/session"
  const UpgradePath: string := "/interview/upgrade"
  /** `PLANS.free.monthlyLimit`. */
  const FreeMonthlyLimit: nat := 3

  /** A query parameter `name=value`. */
  datatype Param = Param(name: string, value: string)

  /** A request URL: its path and its query parameters in order. */
  datatype Url = Url(pathname: string, query: seq<Param>)

  datatype Decision = Next | Redirect(target: Url)

  /** The values of the parameters called `name`, in order. */
  function Values(q: seq<Param>, name: string): (vs: seq<string>)
    ensures |vs| <= |q|
  {
    if q == [] then []
    else (if q[0].name == name then [q[0].value] else []) + Values(q[1..], name)
  }

  /** The parameters not called `name`, in order. */
  function Others(q: seq<Param>, name: string): (os: seq<Param>)
    ensures |os| <= |q|
    ensures forall p | p in os :: p.name != name
  {
    if q == [] then []
    else (if q[0].name != name then [q[0]] else []) + Others(q[1..], name)
  }

  /** Drops every parameter called `name`. */
  function RemoveAll(q: seq<Param>, name: string): (r: seq<Param>)
    ensures Values(r, name) == []
    ensures Others(r, name) == Others(q, name)
  {
    if q == [] then []
    else if q[0].name == name then RemoveAll(q[1..], name)
    else [q[0]] + RemoveAll(q[1..], name)
  }

  /** Gives the first parameter called `name` the value and drops the rest
      of that name. */
  function ReplaceFirst(q: seq<Param>, name: string, value: string): (r: seq<Param>)
    ensures Values(q, name) != [] ==> Values(r, name) == [value]
    ensures Values(q, name) == [] ==> r == q
    ensures Others(r, name) == Others(q, name)
  {
    if q == [] then []
    else if q[0].name == name then [Param(name, value)] + RemoveAll(q[1..], name)
    else [q[0]] + ReplaceFirst(q[1..], name, value)
  }

  /** Appending a parameter adds its value to its own name only. */
  lemma {:induction false} AppendParam(q: seq<Param>, p: Param)
    ensures Values(q + [p], p.name) == Values(q, p.name) + [p.value]
    ensures Others(q + [p], p.name) == Others(q, p.name)
  {
    if q != [] {
      assert (q + [p])[1..] == q[1..] + [p];
      AppendParam(q[1..], p);
    } else {
      assert ([] + [p])[1..] == [];
    }
  }

  /** `URLSearchParams.set`: the one value of `name` afterwards is `value`,
      and every other parameter stays where it was. */
  function SetParam(q: seq<Param>, name: string, value: string): (r: seq<Param>)
    ensures Values(r, name) == [value]
    ensures Others(r, name) == Others(q, name)
  {
    if Values(q, name) == [] then
      AppendParam(q, Param(name, value));
      q + [Param(name, value)]
    else ReplaceFirst(q, name, value)
  }

  /** A UTC instant as `Date`'s UTC getters give it; `month` counts from 0. */
  datatype UtcTime = UtcTime(year: int, month: int, day: int, hour: int, minute: int, second: int, ms: int)

  predicate ValidTime(t: UtcTime)
  {
    0 <= t.month < 12 && 1 <= t.day <= 31 && 0 <= t.hour < 24 && 0 <= t.minute < 60
    && 0 <= t.second < 60 && 0 <= t.ms < 1000
  }

  /** Chronological order of instants. */
  predicate Before(a: UtcTime, b: UtcTime)
  {
    if a.year != b.year then a.year < b.year
    else if a.month != b.month then a.month < b.month
    else if a.day != b.day then a.day < b.day
    else if a.hour != b.hour then a.hour < b.hour
    else if a.minute != b.minute then a.minute < b.minute
    else if a.second != b.second then a.second < b.second
    else a.ms < b.ms
  }

  /** `startOfCurrentMonthUTC`: midnight UTC of day 1 of the current month. */
  function StartOfMonth(now: UtcTime): (start: UtcTime)
    requires ValidTime(now)
    ensures ValidTime(start) && start.year == now.year && start.month == now.month
    ensures start.day == 1 && start.hour == 0 && start.minute == 0 && start.second == 0 && start.ms == 0
    ensures !Before(now, start)
  {
    UtcTime(now.year, now.month, 1, 0, 0, 0, 0)
  }

  /** The window holds exactly the instants of the current month up to now:
      no instant of the month precedes its start, and every earlier
      month's instant does. */
  lemma CountingWindow(now: UtcTime, t: UtcTime)
    requires ValidTime(now) && ValidTime(t)
    ensures t.year == now.year && t.month == now.month ==> !Before(t, StartOfMonth(now))
    ensures (t.year < now.year || (t.year == now.year && t.month < now.month)) ==> Before(t, StartOfMonth(now))
  {
  }

  /** The count query: failed, or an exact count (`null` when absent). */
  datatype CountQuery = CountFailed | Counted(count: Option<nat>)

  /** `userRow?.plan ?? "free"`. */
  function PlanOrFree(stored: Option<string>): (plan: string)
    ensures stored.None? ==> plan == "free"
    ensures stored.Some? ==> plan == stored.value
  {
    stored.GetOr("free")
  }

  /** `count ?? 0` against the free limit. */
  predicate LimitReached(count: Option<nat>)
  {
    count.GetOr(0) >= FreeMonthlyLimit
  }

  /** `user?.id` is truthy. */
  predicate LoggedIn(userId: Option<string>)
  {
    userId.Some? && userId.value != ""
  }

  /** The URL the gate redirects to: the upgrade page with `reason=limit`,
      keeping the other query parameters. */
  function UpgradeUrl(url: Url): (r: Url)
    ensures r.pathname == UpgradePath
    ensures Values(r.query, "reason") == ["limit"]
    ensures Others(r.query, "reason") == Others(url.query, "reason")
  {
    Url(UpgradePath, SetParam(url.query, "reason", "limit"))
  }

  /** `middleware`. */
  function Middleware(url: Url, userId: Option<string>, planOf: string -> Option<string>,
                      countSince: (string, UtcTime) -> CountQuery, now: UtcTime): (d: Decision)
    requires ValidTime(now)
    ensures url.pathname != SessionPath ==> d == Next
    ensures !LoggedIn(userId) ==> d == Next
    ensures LoggedIn(userId) && PlanOrFree(planOf(userId.value)) == "pro" ==> d == Next
    ensures LoggedIn(userId) && countSince(userId.value, StartOfMonth(now)).CountFailed? ==> d == Next
    ensures d.Redirect? <==>
              url.pathname == SessionPath && LoggedIn(userId)
              && PlanOrFree(planOf(userId.value)) != "pro"
              && countSince(userId.value, StartOfMonth(now)).Counted?
              && LimitReached(countSince(userId.value, StartOfMonth(now)).count)
    ensures d.Redirect? ==> d.target == UpgradeUrl(url)
  {
    if url.pathname != SessionPath then Next
    else if !LoggedIn(userId) then Next
    else
      var plan := PlanOrFree(planOf(userId.value));
      if plan == "pro" then Next
      else
        match countSince(userId.value, StartOfMonth(now))
        case CountFailed => Next
        case Counted(count) => if LimitReached(count) then Redirect(UpgradeUrl(url)) else Next
  }

  /** More sessions never lift the limit: if a count of `n` redirects, a
      count of `m >= n` with everything else equal redirects too. */
  lemma RedirectMonotone(url: Url, userId: Option<string>, planOf: string -> Option<string>,
                         countA: (string, UtcTime) -> CountQuery, countB: (string, UtcTime) -> CountQuery,
                         now: UtcTime, n: nat, m: nat)
    requires ValidTime(now) && LoggedIn(userId) && n <= m
    requires countA(userId.value, StartOfMonth(now)) == Counted(Some(n))
    requires countB(userId.value, StartOfMonth(now)) == Counted(Some(m))
    ensures Middleware(url, userId, planOf, countA, now).Redirect? ==>
              Middleware(url, userId, planOf, countB, now).Redirect?
  {
  }

  /** A free user below the limit passes, and one at or above it is
      redirected: the limit is exactly three sessions. */
  lemma FreeLimitIsThree(url: Url, userId: Option<string>, planOf: string -> Option<string>,
                         countSince: (string, UtcTime) -> CountQuery, now: UtcTime)
    requires ValidTime(now) && url.pathname == SessionPath && LoggedIn(userId)
    requires planOf(userId.value) != Some("pro")
    ensures countSince(userId.value, StartOfMonth(now)) == Counted(Some(2)) ==>
              Middleware(url, userId, planOf, countSince, now) == Next
    ensures countSince(userId.value, StartOfMonth(now)) == Counted(None) ==>
              Middleware(url, userId, planOf, countSince, now) == Next
    ensures countSince(userId.value, StartOfMonth(now)) == Counted(Some(3)) ==>
              Middleware(url, userId, planOf, countSince, now) == Redirect(UpgradeUrl(url))
  {
  }
}
