/** The role-filtered navigation of the dashboard's sidebar. */
module Sidebar {
  import opened Common

  /** The entries of the three navigation tables; each has a title, a target path and the
      roles allowed to see it. */
  datatype Link =
    | Dashboard | NewRelease | AllRelease
    | Statistik | Revenue | Payment | UploadLaporan
    | Aggregators | Users

  function Title(l: Link): string {
    match l
    case Dashboard => "Dashboard"
    case NewRelease => "New Release"
    case AllRelease => "All Release"
    case Statistik => "Statistik"
    case Revenue => "Revenue"
    case Payment => "Payment"
    case UploadLaporan => "Upload Laporan"
    case Aggregators => "Aggregators"
    case Users => "Users"
  }

  function Path(l: Link): string {
    match l
    case Dashboard => "/dashboard"
    case NewRelease => "/releases/new"
    case AllRelease => "/releases"
    case Statistik => "/reports/statistics"
    case Revenue => "/reports/revenue"
    case Payment => "/reports/payment"
    case UploadLaporan => "/reports/upload"
    case Aggregators => "/settings/aggregators"
    case Users => "/settings/users"
  }

  const AllRoles: seq<Role> := [Admin, Operator, User]

  function Roles(l: Link): seq<Role> {
    match l
    case NewRelease => [User]
    case UploadLaporan => [Admin]
    case Aggregators => [Admin]
    case Users => [Admin]
    case _ => AllRoles
  }

  const MenuItems: seq<Link> := [Dashboard, NewRelease, AllRelease]
  const ReportItems: seq<Link> := [Statistik, Revenue, Payment, UploadLaporan]
  const SettingItems: seq<Link> := [Aggregators, Users]

  /** `user?.role || 'user'`: without a logged-in user the sidebar acts for role user. */
  function CurrentRole(user: Option<SessionUser>): (r: Role)
    ensures user.None? ==> r == User
    ensures user.Some? ==> r == user.value.role
  {
    match user
    case None => User
    case Some(u) => u.role
  }

  predicate Allowed(l: Link, role: Role) {
    role in Roles(l)
  }

  function CountFor(items: seq<Link>, role: Role): nat {
    if items == [] then 0 else (if Allowed(items[0], role) then 1 else 0) + CountFor(items[1..], role)
  }

  /** `items.filter(item => item.roles.includes(role))`. */
  function FilterItems(items: seq<Link>, role: Role): (r: seq<Link>)
    ensures |r| == CountFor(items, role)
  {
    if items == [] then []
    else if Allowed(items[0], role) then [items[0]] + FilterItems(items[1..], role)
    else FilterItems(items[1..], role)
  }

  /** The filter keeps exactly the links the role is allowed to see. */
  lemma {:induction false} FilterItemsMembers(items: seq<Link>, role: Role, x: Link)
    ensures x in FilterItems(items, role) <==> x in items && Allowed(x, role)
  {
    if items != [] {
      FilterItemsMembers(items[1..], role, x);
      assert items == [items[0]] + items[1..];
    }
  }

  /** Filtering keeps order: the filter of a concatenation is the concatenation of the filters. */
  lemma {:induction false} FilterItemsConcat(a: seq<Link>, b: seq<Link>, role: Role)
    ensures FilterItems(a + b, role) == FilterItems(a, role) + FilterItems(b, role)
  {
    if a != [] {
      assert (a + b)[0] == a[0] && (a + b)[1..] == a[1..] + b;
      FilterItemsConcat(a[1..], b, role);
      if Allowed(a[0], role) {
        assert FilterItems(a + b, role) == [a[0]] + FilterItems(a[1..] + b, role);
      } else {
        assert FilterItems(a + b, role) == FilterItems(a[1..] + b, role);
      }
    } else {
      assert a + b == b;
    }
  }

  /** `renderNavItems`: nothing at all when no item is left for the role. */
  function RenderNavItems(items: seq<Link>, role: Role): (r: Option<seq<Link>>)
    ensures r.None? <==> CountFor(items, role) == 0
    ensures r.Some? ==> r.value == FilterItems(items, role)
  {
    var filtered := FilterItems(items, role);
    if |filtered| == 0 then None else Some(filtered)
  }

  datatype Section = Section(heading: string, nav: Option<seq<Link>>)

  /** The sections the sidebar renders: Menu and Data Laporan always (their headings even when
      empty), Settings only for role admin. */
  function Sections(role: Role): (r: seq<Section>)
    ensures |r| == if role == Admin then 3 else 2
    ensures r[0] == Section("Menu", RenderNavItems(MenuItems, role))
    ensures r[1] == Section("Data Laporan", RenderNavItems(ReportItems, role))
    ensures role == Admin ==> r[2] == Section("Settings", RenderNavItems(SettingItems, role))
  {
    [Section("Menu", RenderNavItems(MenuItems, role)),
     Section("Data Laporan", RenderNavItems(ReportItems, role))] +
    (if role == Admin then [Section("Settings", RenderNavItems(SettingItems, role))] else [])
  }

  function SectionItems(sections: seq<Section>): seq<Link> {
    if sections == [] then []
    else (match sections[0].nav case None => [] case Some(items) => items) + SectionItems(sections[1..])
  }

  /** Every link the sidebar shows to `role`, section by section. */
  function VisibleItems(role: Role): seq<Link> {
    SectionItems(Sections(role))
  }

  lemma FilterOne(x: Link, role: Role)
    ensures FilterItems([x], role) == if Allowed(x, role) then [x] else []
  {
    assert [x][1..] == [];
  }

  lemma MenuFor(role: Role)
    ensures FilterItems(MenuItems, role) == if role == User then MenuItems else [Dashboard, AllRelease]
  {
    var m := MenuItems;
    assert m == [m[0]] + ([m[1]] + [m[2]]);
    FilterItemsConcat([m[0]], [m[1]] + [m[2]], role);
    FilterItemsConcat([m[1]], [m[2]], role);
    FilterOne(m[0], role);
    FilterOne(m[1], role);
    FilterOne(m[2], role);
  }

  lemma ReportsFor(role: Role)
    ensures FilterItems(ReportItems, role) == if role == Admin then ReportItems else [Statistik, Revenue, Payment]
  {
    var r := ReportItems;
    assert r == [r[0]] + ([r[1]] + ([r[2]] + [r[3]]));
    FilterItemsConcat([r[0]], [r[1]] + ([r[2]] + [r[3]]), role);
    FilterItemsConcat([r[1]], [r[2]] + [r[3]], role);
    FilterItemsConcat([r[2]], [r[3]], role);
    FilterOne(r[0], role);
    FilterOne(r[1], role);
    FilterOne(r[2], role);
    FilterOne(r[3], role);
  }

  lemma SettingsFor(role: Role)
    ensures FilterItems(SettingItems, role) == if role == Admin then SettingItems else []
  {
    var t := SettingItems;
    assert t == [t[0]] + [t[1]];
    FilterItemsConcat([t[0]], [t[1]], role);
    FilterOne(t[0], role);
    FilterOne(t[1], role);
  }

  lemma SectionItemsOf(a: Section, b: Section, rest: seq<Section>)
    ensures SectionItems([a, b] + rest) ==
      (match a.nav case None => [] case Some(items) => items) +
      (match b.nav case None => [] case Some(items) => items) + SectionItems(rest)
  {
    assert ([a, b] + rest)[1..] == [b] + rest;
    assert ([b] + rest)[1..] == rest;
  }

  /** A rendered section lists exactly the filtered items, nothing when none is left. */
  lemma SectionNav(items: seq<Link>, role: Role)
    ensures (match RenderNavItems(items, role) case None => [] case Some(x) => x) == FilterItems(items, role)
  {
  }

  /** The sidebar shows the filtered menu, the filtered reports and, for role admin only, the
      filtered settings. */
  lemma {:induction false} VisibleAsFilters(role: Role)
    ensures VisibleItems(role) ==
      FilterItems(MenuItems, role) + FilterItems(ReportItems, role) +
      (if role == Admin then FilterItems(SettingItems, role) else [])
  {
    var a := Section("Menu", RenderNavItems(MenuItems, role));
    var b := Section("Data Laporan", RenderNavItems(ReportItems, role));
    SectionNav(MenuItems, role);
    SectionNav(ReportItems, role);
    if role == Admin {
      var c := Section("Settings", RenderNavItems(SettingItems, role));
      SectionNav(SettingItems, role);
      assert Sections(role) == [a, b] + [c];
      SectionItemsOf(a, b, [c]);
      assert [c][1..] == [];
    } else {
      assert Sections(role) == [a, b] + [];
      SectionItemsOf(a, b, []);
    }
  }

  /** The links each role sees, in order: the whole menu only for role user, the report upload
      and the Settings section only for role admin. */
  lemma VisibleItemsFor(role: Role)
    ensures VisibleItems(role) ==
      (if role == User then MenuItems else [Dashboard, AllRelease]) +
      (if role == Admin then ReportItems else [Statistik, Revenue, Payment]) +
      (if role == Admin then SettingItems else [])
  {
    VisibleAsFilters(role);
    MenuFor(role);
    ReportsFor(role);
    if role == Admin {
      SettingsFor(role);
    }
  }

  /** Every link is shown to exactly the roles its table entry names. */
  lemma VisibleIffAllowed(role: Role, l: Link)
    ensures l in VisibleItems(role) <==> Allowed(l, role)
  {
    VisibleAsFilters(role);
    FilterItemsMembers(MenuItems, role, l);
    FilterItemsMembers(ReportItems, role, l);
    FilterItemsMembers(SettingItems, role, l);
    assert l in MenuItems || l in ReportItems || l in SettingItems;
  }

  lemma VisibleItemsUser()
    ensures VisibleItems(User) == [Dashboard, NewRelease, AllRelease, Statistik, Revenue, Payment]
  {
    VisibleItemsFor(User);
  }

  lemma VisibleItemsOperator()
    ensures VisibleItems(Operator) == [Dashboard, AllRelease, Statistik, Revenue, Payment]
  {
    VisibleItemsFor(Operator);
  }

  /** An equality of eight-element lists, checked element by element. */
  lemma ConcatThree(a: seq<Link>, b: seq<Link>, c: seq<Link>, v: seq<Link>)
    requires |a| == 2 && |b| == 4 && |c| == 2 && v == a + b + c
    ensures v == [a[0], a[1], b[0], b[1], b[2], b[3], c[0], c[1]]
  {
  }

  lemma VisibleItemsAdmin()
    ensures VisibleItems(Admin) ==
      [Dashboard, AllRelease, Statistik, Revenue, Payment, UploadLaporan, Aggregators, Users]
  {
    VisibleItemsFor(Admin);
    ConcatThree([Dashboard, AllRelease], ReportItems, SettingItems, VisibleItems(Admin));
  }

  /** 'New Release' is offered only to role user. */
  lemma NewReleaseOnlyForUser(role: Role)
    ensures NewRelease in VisibleItems(role) <==> role == User
  {
    VisibleIffAllowed(role, NewRelease);
  }

  /** The report upload, aggregators and users pages are offered only to role admin. */
  lemma AdminOnlyLinks(role: Role, l: Link)
    requires l in {UploadLaporan, Aggregators, Users}
    ensures l in VisibleItems(role) <==> role == Admin
  {
    VisibleIffAllowed(role, l);
  }

  /** A signed-out visitor gets the links of role user. */
  lemma SignedOutSeesUserLinks()
    ensures VisibleItems(CurrentRole(None)) == MenuItems + [Statistik, Revenue, Payment]
  {
    VisibleItemsFor(User);
  }
}
