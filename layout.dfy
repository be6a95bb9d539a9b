/** The page frame (frontend/src/components/Layout.js): the navigation
    entries a user gets, which entry is highlighted for the current path,
    and the role's label and colours. */
module Layout {
  import opened Wrappers
  import opened Text
  import opened Records

  /** A navigation entry: its text and the path it leads to. */
  datatype NavItem = NavItem(name: string, href: string)

  const NAV_DASHBOARD := NavItem("Dashboard", "/")
  const NAV_ORDERS := NavItem("Sipari\U{15F}ler", "/orders")
  const NAV_PRODUCTS := NavItem("\U{DC}r\U{FC}nler", "/products")
  const NAV_USERS := NavItem("Kullan\U{131}c\U{131}lar", "/users")
  const NAV_SETTINGS := NavItem("Ayarlar", "/settings")

  /** The entries everybody gets. */
  const BASE_NAVIGATION := [NAV_DASHBOARD, NAV_ORDERS, NAV_PRODUCTS]

  predicate HasRole(user: Option<User>, role: string) {
    user.Some? && user.value.role == role
  }

  /** The user list is for administrators and accounting, the settings for
      administrators only; both come after the common entries. */
  function Navigation(user: Option<User>): (nav: seq<NavItem>)
    ensures |nav| == 3 + (if HasRole(user, ROLE_ADMIN) then 2 else if HasRole(user, ROLE_ACCOUNTING) then 1 else 0)
    ensures nav[..3] == BASE_NAVIGATION
    ensures NAV_USERS in nav <==> HasRole(user, ROLE_ADMIN) || HasRole(user, ROLE_ACCOUNTING)
    ensures NAV_SETTINGS in nav <==> HasRole(user, ROLE_ADMIN)
    ensures NAV_USERS in nav ==> nav[3] == NAV_USERS
    ensures NAV_SETTINGS in nav ==> nav[|nav| - 1] == NAV_SETTINGS
  {
    BASE_NAVIGATION
      + (if HasRole(user, ROLE_ADMIN) || HasRole(user, ROLE_ACCOUNTING) then [NAV_USERS] else [])
      + (if HasRole(user, ROLE_ADMIN) then [NAV_SETTINGS] else [])
  }

  /** The navigation list as the component builds it, by pushing onto the common entries. */
  method BuildNavigation(user: Option<User>) returns (nav: seq<NavItem>)
    ensures nav == Navigation(user)
  {
    nav := [NAV_DASHBOARD, NAV_ORDERS, NAV_PRODUCTS];
    if user.Some? && (user.value.role == ROLE_ADMIN || user.value.role == ROLE_ACCOUNTING) {
      nav := nav + [NAV_USERS];
    }
    if user.Some? && user.value.role == ROLE_ADMIN {
      nav := nav + [NAV_SETTINGS];
    }
  }

  /** The sidebar highlights the entry whose path is the current one or, for
      every entry but the dashboard, a prefix of it. */
  predicate IsActiveDesktop(path: string, href: string) {
    path == href || (href != "/" && StartsWith(path, href))
  }

  /** The mobile menu highlights an exact match only. */
  predicate IsActiveMobile(path: string, href: string) {
    path == href
  }

  /** Whatever the mobile menu highlights the sidebar highlights too; the
      dashboard is highlighted alike in both, and a page below an entry
      (`/orders/new`) is highlighted only in the sidebar. */
  lemma ActiveRules(path: string, href: string)
    ensures IsActiveMobile(path, href) ==> IsActiveDesktop(path, href)
    ensures IsActiveDesktop(path, "/") <==> IsActiveMobile(path, "/")
    ensures href != "/" && |path| > |href| && path[..|href|] == href ==>
      IsActiveDesktop(path, href) && !IsActiveMobile(path, href)
  {
  }

  /** Two entries that can never be highlighted together: the dashboard and
      a longer path, or two paths that differ in their second character. */
  predicate Exclusive(h1: string, h2: string) {
    (h1 == "/" && |h2| >= 2) || (|h1| >= 2 && |h2| >= 2 && h1[1] != h2[1])
  }

  lemma NotBothActive(path: string, h1: string, h2: string)
    requires Exclusive(h1, h2) || Exclusive(h2, h1)
    ensures !(IsActiveDesktop(path, h1) && IsActiveDesktop(path, h2))
  {
    if IsActiveDesktop(path, h1) && IsActiveDesktop(path, h2) {
      PrefixChar(path, h1);
      PrefixChar(path, h2);
      assert false;
    }
  }

  /** An active entry other than the dashboard shares the path's second character. */
  lemma PrefixChar(path: string, h: string)
    requires IsActiveDesktop(path, h) && |h| >= 2
    ensures |path| >= 2 && path[1] == h[1]
  {
    if path != h {
      assert path[..|h|][1] == path[1];
    }
  }

  const ALL_HREFS := ["/", "/orders", "/products", "/users", "/settings"]

  lemma HrefsExclusive(i: nat, j: nat)
    requires i < j < |ALL_HREFS|
    ensures Exclusive(ALL_HREFS[i], ALL_HREFS[j]) || Exclusive(ALL_HREFS[j], ALL_HREFS[i])
  {
    assert ALL_HREFS[1][1] == 'o' && ALL_HREFS[2][1] == 'p' && ALL_HREFS[3][1] == 'u' && ALL_HREFS[4][1] == 's';
  }

  /** On any path the sidebar highlights at most one entry. */
  lemma AtMostOneActive(user: Option<User>, path: string)
    ensures var nav := Navigation(user);
      forall i, j :: 0 <= i < j < |nav| ==> !(IsActiveDesktop(path, nav[i].href) && IsActiveDesktop(path, nav[j].href))
  {
    var nav := Navigation(user);
    forall i, j | 0 <= i < j < |nav|
      ensures !(IsActiveDesktop(path, nav[i].href) && IsActiveDesktop(path, nav[j].href))
    {
      var a, b := HrefIndex(user, i), HrefIndex(user, j);
      assert a < b;
      HrefsExclusive(a, b);
      NotBothActive(path, ALL_HREFS[a], ALL_HREFS[b]);
    }
  }

  /** The position among the five known paths of the `i`-th entry's path;
      later entries sit at later positions. */
  function HrefIndex(user: Option<User>, i: nat): (a: nat)
    requires i < |Navigation(user)|
    ensures a < |ALL_HREFS| && Navigation(user)[i].href == ALL_HREFS[a]
    ensures i <= a && (i < 3 ==> a == i)
    ensures |Navigation(user)| == 5 && i == 3 ==> a == 3
  {
    if i < 3 then i
    else if i == 3 && (HasRole(user, ROLE_ADMIN) || HasRole(user, ROLE_ACCOUNTING)) then 3
    else 4
  }

  /** `getRoleLabel`; an unknown role shows itself. */
  function RoleLabel(role: string): (l: string)
    ensures role == ROLE_SHOWROOM ==> l == "Showroom"
    ensures role == ROLE_CORPORATE_SALES ==> l == "Kurumsal Sat\U{131}\U{15F}"
    ensures role == ROLE_WAREHOUSE ==> l == "Depo"
    ensures role == ROLE_FINANCE ==> l == "Finans"
    ensures role == ROLE_ACCOUNTING ==> l == "Muhasebe"
    ensures role == ROLE_ADMIN ==> l == "Admin"
    ensures role !in ALL_ROLES ==> l == role
  {
    if role == ROLE_SHOWROOM then "Showroom"
    else if role == ROLE_CORPORATE_SALES then "Kurumsal Sat\U{131}\U{15F}"
    else if role == ROLE_WAREHOUSE then "Depo"
    else if role == ROLE_FINANCE then "Finans"
    else if role == ROLE_ACCOUNTING then "Muhasebe"
    else if role == ROLE_ADMIN then "Admin"
    else role
  }

  const ALL_ROLES := {ROLE_SHOWROOM, ROLE_CORPORATE_SALES, ROLE_WAREHOUSE, ROLE_FINANCE, ROLE_ACCOUNTING, ROLE_ADMIN}

  /** The colour a role's name is written in. */
  function RoleHue(role: string): Option<string> {
    if role == ROLE_SHOWROOM then Some("emerald")
    else if role == ROLE_CORPORATE_SALES then Some("indigo")
    else if role == ROLE_WAREHOUSE then Some("amber")
    else if role == ROLE_FINANCE then Some("pink")
    else if role == ROLE_ACCOUNTING then Some("purple")
    else if role == ROLE_ADMIN then Some("zinc")
    else None
  }

  /** `getRoleColor`: the role's hue at shade 600 (the administrator in
      near-black zinc 900); an unknown role in zinc 600. */
  function RoleColor(role: string): (c: string)
    ensures role !in ALL_ROLES ==> c == "text-zinc-600"
    ensures role == ROLE_ADMIN ==> c == "text-zinc-900"
    ensures role in ALL_ROLES && role != ROLE_ADMIN ==> c == "text-" + RoleHue(role).value + "-600"
  {
    match RoleHue(role)
    case None => "text-zinc-600"
    case Some(h) => if role == ROLE_ADMIN then "text-zinc-900" else "text-" + h + "-600"
  }

  /** `getRoleBadgeColor`: the role's hue as background, text and border; an
      unknown role gets a zinc badge without a border colour. */
  function RoleBadgeColor(role: string): (c: string)
    ensures role !in ALL_ROLES ==> c == "bg-zinc-100 text-zinc-800"
    ensures role in ALL_ROLES ==> var h := RoleHue(role).value;
      c == "bg-" + h + "-100 text-" + h + "-800 border-" + h + "-200"
  {
    match RoleHue(role)
    case None => "bg-zinc-100 text-zinc-800"
    case Some(h) => "bg-" + h + "-100 text-" + h + "-800 border-" + h + "-200"
  }

  /** The badge tells the roles apart: two different known roles get
      different badges, and no known role's badge is the plain one an unknown
      role gets, the administrator's zinc badge included (it has a border). */
  lemma BadgesDistinct(r1: string, r2: string)
    requires r1 in ALL_ROLES && r1 != r2
    ensures RoleBadgeColor(r1) != RoleBadgeColor(r2)
  {
    if r2 !in ALL_ROLES {
      assert |RoleBadgeColor(r1)| > |"bg-zinc-100 text-zinc-800"|;
    } else {
      HueInBadge(r1);
      HueInBadge(r2);
    }
  }

  /** A known role's badge spells its hue right after `bg-`. */
  lemma HueInBadge(r: string)
    requires r in ALL_ROLES
    ensures var h := RoleHue(r).value; 3 + |h| <= |RoleBadgeColor(r)| && RoleBadgeColor(r)[3..3 + |h|] == h
  {
    var h := RoleHue(r).value;
    assert RoleBadgeColor(r) == "bg-" + h + ("-100 text-" + h + "-800 border-" + h + "-200");
  }
}
