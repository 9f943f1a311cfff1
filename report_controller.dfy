/** `getDashboardStats`: the release, revenue, user and per-status totals of the dashboard,
    scoped to the caller's own releases for role user. */
module ReportController {
  import opened Common
  import opened Tables

  /** `SELECT COUNT(*) FROM releases`, with `WHERE user_id = ?` for role user. */
  function CountScoped(rs: seq<ReleaseRow>, caller: AuthUser): (n: nat)
    ensures n <= |rs|
  {
    if rs == [] then 0
    else CountScoped(rs[..|rs| - 1], caller) + (if Visible(rs[|rs| - 1], caller) then 1 else 0)
  }

  /** The releases in scope that have the given status (NULL included as a status of its own). */
  function StatusCount(rs: seq<ReleaseRow>, caller: AuthUser, status: Option<string>): nat {
    if rs == [] then 0
    else
      var r := rs[|rs| - 1];
      StatusCount(rs[..|rs| - 1], caller, status) + (if Visible(r, caller) && r.status == status then 1 else 0)
  }

  /** `SELECT COUNT(*) FROM users WHERE role = "user"`. */
  function CountRole(us: seq<UserRow>, role: Role): nat {
    if us == [] then 0 else (if us[0].role == role then 1 else 0) + CountRole(us[1..], role)
  }

  /** One row of `GROUP BY status`: a status and how many releases have it. */
  type Group = (Option<string>, nat)

  function Total(groups: seq<Group>): nat {
    if groups == [] then 0 else groups[0].1 + Total(groups[1..])
  }

  /** The count a grouping holds for a status; 0 when it has no such group. */
  function GroupCount(groups: seq<Group>, status: Option<string>): nat {
    if groups == [] then 0
    else if groups[0].0 == status then groups[0].1
    else GroupCount(groups[1..], status)
  }

  predicate DistinctStatuses(groups: seq<Group>) {
    forall i, j :: 0 <= i < j < |groups| ==> groups[i].0 != groups[j].0
  }

  /** Counting one more row of a status: its group grows, or a new group of one is added. */
  function Bump(groups: seq<Group>, status: Option<string>): (r: seq<Group>)
    ensures Total(r) == Total(groups) + 1
    ensures forall i :: 0 <= i < |r| ==> r[i].1 > 0 || (i < |groups| && r[i] == groups[i])
  {
    if groups == [] then [(status, 1)]
    else if groups[0].0 == status then [(status, groups[0].1 + 1)] + groups[1..]
    else [groups[0]] + Bump(groups[1..], status)
  }

  lemma {:induction false} BumpCount(groups: seq<Group>, status: Option<string>, x: Option<string>)
    ensures GroupCount(Bump(groups, status), x) == GroupCount(groups, x) + (if x == status then 1 else 0)
  {
    if groups != [] && groups[0].0 != status {
      BumpCount(groups[1..], status, x);
    }
  }

  /** Every group after a bump holds the bumped status or one that was already grouped. */
  lemma {:induction false} BumpKey(groups: seq<Group>, status: Option<string>, i: nat)
    requires i < |Bump(groups, status)|
    ensures Bump(groups, status)[i].0 == status ||
      exists j :: 0 <= j < |groups| && groups[j].0 == Bump(groups, status)[i].0
  {
    var r := Bump(groups, status);
    if groups != [] && r[i].0 != status {
      if i == 0 {
        assert groups[0].0 == r[0].0;
      } else if groups[0].0 == status {
        assert r[i] == groups[i];
      } else {
        var rest := Bump(groups[1..], status);
        assert r[i] == rest[i - 1];
        BumpKey(groups[1..], status, i - 1);
        var j :| 0 <= j < |groups[1..]| && groups[1..][j].0 == rest[i - 1].0;
        assert groups[j + 1].0 == r[i].0;
      }
    }
  }

  lemma {:induction false} BumpDistinct(groups: seq<Group>, status: Option<string>)
    requires DistinctStatuses(groups)
    ensures DistinctStatuses(Bump(groups, status))
  {
    var r := Bump(groups, status);
    if groups != [] && groups[0].0 != status {
      var rest := Bump(groups[1..], status);
      BumpDistinct(groups[1..], status);
      assert r == [groups[0]] + rest;
      forall i, j | 0 <= i < j < |r|
        ensures r[i].0 != r[j].0
      {
        assert r[j] == rest[j - 1];
        if i == 0 {
          BumpKey(groups[1..], status, j - 1);
          if rest[j - 1].0 != status {
            var k :| 0 <= k < |groups[1..]| && groups[1..][k].0 == rest[j - 1].0;
            assert groups[k + 1].0 == rest[j - 1].0;
          }
        } else {
          assert r[i] == rest[i - 1];
        }
      }
    } else if groups != [] {
      assert r == [(status, groups[0].1 + 1)] + groups[1..];
      forall i, j | 0 <= i < j < |r|
        ensures r[i].0 != r[j].0
      {
        assert r[j] == groups[j];
        if i > 0 {
          assert r[i] == groups[i];
        }
      }
    }
  }

  /** `SELECT status, COUNT(*) FROM releases GROUP BY status`, with `WHERE user_id = ?` for
      role user; the groups come in first-seen order. */
  function StatusGroups(rs: seq<ReleaseRow>, caller: AuthUser): seq<Group> {
    if rs == [] then []
    else
      var r := rs[|rs| - 1];
      var g := StatusGroups(rs[..|rs| - 1], caller);
      if Visible(r, caller) then Bump(g, r.status) else g
  }

  /** The grouping is exact: one group per status, each with its number of releases in scope,
      and together they count every release in scope. */
  lemma {:induction false} StatusGroupsCorrect(rs: seq<ReleaseRow>, caller: AuthUser, status: Option<string>)
    ensures GroupCount(StatusGroups(rs, caller), status) == StatusCount(rs, caller, status)
    ensures Total(StatusGroups(rs, caller)) == CountScoped(rs, caller)
    ensures DistinctStatuses(StatusGroups(rs, caller))
    ensures forall i :: 0 <= i < |StatusGroups(rs, caller)| ==> StatusGroups(rs, caller)[i].1 > 0
  {
    if rs != [] {
      var init := rs[..|rs| - 1];
      var r := rs[|rs| - 1];
      StatusGroupsCorrect(init, caller, status);
      if Visible(r, caller) {
        BumpCount(StatusGroups(init, caller), r.status, status);
        BumpDistinct(StatusGroups(init, caller), r.status);
      }
    }
  }

  /** The amounts `SELECT SUM(amount)` adds up. */
  function Sum(amounts: seq<int>): int {
    if amounts == [] then 0 else Sum(amounts[..|amounts| - 1]) + amounts[|amounts| - 1]
  }

  lemma {:induction false} SumAppend(a: seq<int>, b: seq<int>)
    ensures Sum(a + b) == Sum(a) + Sum(b)
  {
    if b == [] {
      assert a + b == a;
    } else {
      assert (a + b)[..|a + b| - 1] == a + b[..|b| - 1];
      SumAppend(a, b[..|b| - 1]);
    }
  }

  /** The amount of a revenue once for every release row its `JOIN ... WHERE releases.user_id = ?`
      pairs it with. */
  function JoinedWith(v: RevenueRow, rs: seq<ReleaseRow>, userId: int): seq<int> {
    if rs == [] then []
    else
      JoinedWith(v, rs[..|rs| - 1], userId) +
        (if rs[|rs| - 1].id == v.releaseId && rs[|rs| - 1].userId == userId then [v.amountCents] else [])
  }

  function JoinedAmounts(vs: seq<RevenueRow>, rs: seq<ReleaseRow>, userId: int): seq<int> {
    if vs == [] then [] else JoinedAmounts(vs[..|vs| - 1], rs, userId) + JoinedWith(vs[|vs| - 1], rs, userId)
  }

  function Amounts(vs: seq<RevenueRow>): seq<int> {
    if vs == [] then [] else Amounts(vs[..|vs| - 1]) + [vs[|vs| - 1].amountCents]
  }

  /** The rows `SUM(amount)` sees: every revenue for roles admin and operator, the joined ones
      for role user. */
  function RevenueRows(vs: seq<RevenueRow>, rs: seq<ReleaseRow>, caller: AuthUser): seq<int> {
    if caller.role == User then JoinedAmounts(vs, rs, caller.id) else Amounts(vs)
  }

  /** `total || 0`: SUM over no rows is NULL, shown as 0. */
  function SumOrZero(amounts: seq<int>): (total: int)
    ensures amounts == [] ==> total == 0
  {
    if amounts == [] then 0 else Sum(amounts)
  }

  /** The NULL default changes nothing: the total is the plain sum in every case. */
  lemma SumOrZeroIsSum(amounts: seq<int>)
    ensures SumOrZero(amounts) == Sum(amounts)
  {
  }

  /** The owner of the release with this id, if some row has it. */
  function OwnerOf(rs: seq<ReleaseRow>, releaseId: int): Option<int> {
    if rs == [] then None
    else if rs[|rs| - 1].id == releaseId then Some(rs[|rs| - 1].userId)
    else OwnerOf(rs[..|rs| - 1], releaseId)
  }

  /** The revenues attributed to a user: those whose release the user owns. */
  function OwnedRevenue(vs: seq<RevenueRow>, rs: seq<ReleaseRow>, userId: int): int {
    if vs == [] then 0
    else
      var v := vs[|vs| - 1];
      OwnedRevenue(vs[..|vs| - 1], rs, userId) + (if OwnerOf(rs, v.releaseId) == Some(userId) then v.amountCents else 0)
  }

  lemma {:induction false} JoinedWithUnique(v: RevenueRow, rs: seq<ReleaseRow>, userId: int)
    requires UniqueReleaseIds(rs)
    ensures Sum(JoinedWith(v, rs, userId)) == if OwnerOf(rs, v.releaseId) == Some(userId) then v.amountCents else 0
  {
    if rs != [] {
      var init := rs[..|rs| - 1];
      var last := rs[|rs| - 1];
      JoinedWithUnique(v, init, userId);
      var tail := if last.id == v.releaseId && last.userId == userId then [v.amountCents] else [];
      SumAppend(JoinedWith(v, init, userId), tail);
      if last.id == v.releaseId {
        NoOwnerWithout(init, v.releaseId);
        assert Sum(JoinedWith(v, init, userId)) == 0;
        if tail != [] {
          assert Sum(tail) == Sum([]) + v.amountCents;
        }
      }
    }
  }

  lemma {:induction false} NoOwnerWithout(rs: seq<ReleaseRow>, releaseId: int)
    requires forall i :: 0 <= i < |rs| ==> rs[i].id != releaseId
    ensures OwnerOf(rs, releaseId) == None
  {
    if rs != [] {
      NoOwnerWithout(rs[..|rs| - 1], releaseId);
    }
  }

  /** With unique release ids the join counts each revenue once: role user's total is the sum of
      the revenues of the releases the user owns. */
  lemma {:induction false} JoinedRevenueIsOwned(vs: seq<RevenueRow>, rs: seq<ReleaseRow>, userId: int)
    requires UniqueReleaseIds(rs)
    ensures Sum(JoinedAmounts(vs, rs, userId)) == OwnedRevenue(vs, rs, userId)
  {
    if vs != [] {
      var init := vs[..|vs| - 1];
      JoinedRevenueIsOwned(init, rs, userId);
      SumAppend(JoinedAmounts(init, rs, userId), JoinedWith(vs[|vs| - 1], rs, userId));
      JoinedWithUnique(vs[|vs| - 1], rs, userId);
    }
  }

  /** The statistics object the handler answers with. */
  datatype Stats = Stats(totalReleases: nat, totalRevenueCents: int, totalUsers: nat, releaseByStatus: seq<Group>)

  /** `getDashboardStats`. The three scoped queries are chosen by role; the user count is
      queried only for roles admin and operator and stays 0 otherwise. */
  method GetDashboardStats(db: Database, caller: AuthUser) returns (stats: Stats)
    ensures stats.totalReleases == CountScoped(db.releases, caller)
    ensures stats.totalRevenueCents == Sum(RevenueRows(db.revenues, db.releases, caller))
    ensures stats.totalUsers == if caller.role == User then 0 else CountRole(db.users, User)
    ensures stats.releaseByStatus == StatusGroups(db.releases, caller)
  {
    var releaseTotal := CountScoped(db.releases, caller);
    var revenueTotal := SumOrZero(RevenueRows(db.revenues, db.releases, caller));
    var statusResult := StatusGroups(db.releases, caller);
    var userCount := 0;
    if caller.role != User {
      userCount := CountRole(db.users, User);
    }
    SumOrZeroIsSum(RevenueRows(db.revenues, db.releases, caller));
    stats := Stats(releaseTotal, revenueTotal, userCount, statusResult);
  }

  /** For role user every total covers only the caller's own releases: any other user's release
      can be removed without changing them. */
  lemma {:induction false} UserTotalsIgnoreOthers(rs: seq<ReleaseRow>, r: ReleaseRow, caller: AuthUser, status: Option<string>)
    requires caller.role == User && r.userId != caller.id
    ensures CountScoped(rs + [r], caller) == CountScoped(rs, caller)
    ensures StatusCount(rs + [r], caller, status) == StatusCount(rs, caller, status)
  {
    assert (rs + [r])[..|rs + [r]| - 1] == rs;
  }

  /** Roles admin and operator see the same totals, and the release count of role user never
      exceeds theirs. */
  lemma {:induction false} ScopeIsMonotone(rs: seq<ReleaseRow>, user: AuthUser, staff: AuthUser)
    requires user.role == User && staff.role != User
    ensures CountScoped(rs, user) <= CountScoped(rs, staff) == |rs|
  {
    if rs != [] {
      ScopeIsMonotone(rs[..|rs| - 1], user, staff);
    }
  }
}
