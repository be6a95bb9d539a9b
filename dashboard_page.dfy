/** The dashboard page (frontend/src/pages/Dashboard.js): the greeting, the
    counter cards a role is shown, and the attention box under them, read
    against the counters `get_dashboard_stats` computes. */
module DashboardPage {
  import opened Wrappers
  import opened Collections
  import opened Records
  import opened OrderQueries

  /** A counter card: its title, the number shown, and whether the role sees it. */
  datatype StatCard = StatCard(title: string, value: nat, color: string, show: bool)

  predicate RoleIn(user: Option<User>, roles: set<string>) {
    user.Some? && user.value.role in roles
  }

  const INVOICE_ROLES := {ROLE_ACCOUNTING, ROLE_FINANCE, ROLE_ADMIN}
  const PROCUREMENT_ROLES := {ROLE_WAREHOUSE, ROLE_FINANCE, ROLE_ADMIN}

  /** A counter as the page shows it: no statistics (the request failed) read as zero. */
  function Stat(stats: Option<DashboardStats>, field: DashboardStats -> nat): (n: nat)
    ensures stats.None? ==> n == 0
    ensures stats.Some? ==> n == field(stats.value)
  {
    if stats.None? then 0 else field(stats.value)
  }

  /** The six cards, in order: four for everybody, the pending-invoice card
      for accounting, finance and administrators, the procurement card for
      the warehouse, finance and administrators. */
  function StatCards(stats: Option<DashboardStats>, user: Option<User>): (cards: seq<StatCard>)
    ensures |cards| == 6
    ensures forall k :: 0 <= k < 4 ==> cards[k].show
    ensures cards[4].show <==> RoleIn(user, INVOICE_ROLES)
    ensures cards[5].show <==> RoleIn(user, PROCUREMENT_ROLES)
    ensures stats.None? ==> forall k :: 0 <= k < 6 ==> cards[k].value == 0
    ensures stats.Some? ==>
              cards[0].value == stats.value.totalOrders && cards[1].value == stats.value.waitingInfo &&
              cards[2].value == stats.value.inProgress && cards[3].value == stats.value.ready &&
              cards[4].value == stats.value.pendingInvoices && cards[5].value == stats.value.itemsToProcure
    ensures cards[0].title == "Toplam Sipari\U{15F}ler" && cards[1].title == "Bilgi Bekleyen" &&
            cards[2].title == "\U{130}\U{15F}lemde" && cards[3].title == "Haz\U{131}r" &&
            cards[4].title == "Fatura Bekleyen" && cards[5].title == "Temin Edilecek"
  {
    [ StatCard("Toplam Sipari\U{15F}ler", Stat(stats, (s: DashboardStats) => s.totalOrders), "text-zinc-600", true),
      StatCard("Bilgi Bekleyen", Stat(stats, (s: DashboardStats) => s.waitingInfo), "text-amber-600", true),
      StatCard("\U{130}\U{15F}lemde", Stat(stats, (s: DashboardStats) => s.inProgress), "text-blue-600", true),
      StatCard("Haz\U{131}r", Stat(stats, (s: DashboardStats) => s.ready), "text-emerald-600", true),
      StatCard("Fatura Bekleyen", Stat(stats, (s: DashboardStats) => s.pendingInvoices), "text-pink-600", RoleIn(user, INVOICE_ROLES)),
      StatCard("Temin Edilecek", Stat(stats, (s: DashboardStats) => s.itemsToProcure), "text-purple-600", RoleIn(user, PROCUREMENT_ROLES)) ]
  }

  function IsShown(c: StatCard): bool {
    c.show
  }

  /** The cards the grid shows, in their order. */
  function VisibleCards(stats: Option<DashboardStats>, user: Option<User>): seq<StatCard> {
    Filter(StatCards(stats, user), IsShown)
  }

  /** The grid starts with the four common cards and holds one more card for
      each of the two role gates the user passes. */
  lemma VisibleCardsShape(stats: Option<DashboardStats>, user: Option<User>)
    ensures var cards := StatCards(stats, user); var v := VisibleCards(stats, user);
      |v| == 4 + (if RoleIn(user, INVOICE_ROLES) then 1 else 0) + (if RoleIn(user, PROCUREMENT_ROLES) then 1 else 0)
      && v[..4] == cards[..4]
      && (cards[4] in v <==> RoleIn(user, INVOICE_ROLES))
      && (cards[5] in v <==> RoleIn(user, PROCUREMENT_ROLES))
  {
    var cards := StatCards(stats, user);
    VisibleCardsSplit(stats, user);
    CardsDistinct(stats, user);
  }

  lemma {:induction false} VisibleCardsSplit(stats: Option<DashboardStats>, user: Option<User>)
    ensures var cards := StatCards(stats, user);
      VisibleCards(stats, user) == cards[..4] + (if cards[4].show then [cards[4]] else []) + (if cards[5].show then [cards[5]] else [])
  {
    ShownCardsSplit(StatCards(stats, user));
  }

  /** Six cards whose first four are shown keep those four, then each of the
      last two that is shown. */
  lemma {:induction false} ShownCardsSplit(cards: seq<StatCard>)
    requires |cards| == 6 && forall k :: 0 <= k < 4 ==> cards[k].show
    ensures Filter(cards, IsShown) == cards[..4] + (if cards[4].show then [cards[4]] else []) + (if cards[5].show then [cards[5]] else [])
  {
    assert cards == cards[..4] + [cards[4]] + [cards[5]];
    FilterAppend(cards[..4] + [cards[4]], [cards[5]], IsShown);
    FilterAppend(cards[..4], [cards[4]], IsShown);
    FilterAll(cards[..4], IsShown);
    assert Filter([cards[4]], IsShown) == if cards[4].show then [cards[4]] else [];
    assert Filter([cards[5]], IsShown) == if cards[5].show then [cards[5]] else [];
  }

  lemma CardsDistinct(stats: Option<DashboardStats>, user: Option<User>)
    ensures var cards := StatCards(stats, user);
      cards[4] != cards[5] && cards[4] !in cards[..4] && cards[5] !in cards[..4]
  {
    var cards := StatCards(stats, user);
    assert cards[4].title != cards[5].title;
    assert forall k :: 0 <= k < 4 ==> cards[k].title != cards[4].title && cards[k].title != cards[5].title;
  }

  /** The page's role gates are the server's: a card a user is not shown
      always counts zero for that user, so no non-zero counter is hidden. */
  lemma HiddenCardsCountZero(orders: seq<Order>, items: seq<OrderItem>, u: User)
    ensures var cards := StatCards(Some(Dashboard(orders, items, u)), Some(u));
      forall k :: 0 <= k < 6 && !cards[k].show ==> cards[k].value == 0
  {
  }

  /** `getRoleGreeting`; an unknown role or no user gets the plain title. */
  function Greeting(user: Option<User>): (g: string)
    ensures user.None? ==> g == "Dashboard"
    ensures RoleIn(user, {ROLE_SHOWROOM}) ==> g == "Showroom Dashboard"
    ensures RoleIn(user, {ROLE_CORPORATE_SALES}) ==> g == "Kurumsal Sat\U{131}\U{15F} Dashboard"
    ensures RoleIn(user, {ROLE_WAREHOUSE}) ==> g == "Depo Dashboard"
    ensures RoleIn(user, {ROLE_FINANCE}) ==> g == "Finans Dashboard"
    ensures RoleIn(user, {ROLE_ACCOUNTING}) ==> g == "Muhasebe Dashboard"
    ensures RoleIn(user, {ROLE_ADMIN}) ==> g == "Y\U{F6}netici Dashboard"
    ensures user.Some? && user.value.role !in INVOICE_ROLES + PROCUREMENT_ROLES + {ROLE_SHOWROOM, ROLE_CORPORATE_SALES} ==> g == "Dashboard"
  {
    if user.None? then "Dashboard"
    else
      var role := user.value.role;
      if role == ROLE_SHOWROOM then "Showroom Dashboard"
      else if role == ROLE_CORPORATE_SALES then "Kurumsal Sat\U{131}\U{15F} Dashboard"
      else if role == ROLE_WAREHOUSE then "Depo Dashboard"
      else if role == ROLE_FINANCE then "Finans Dashboard"
      else if role == ROLE_ACCOUNTING then "Muhasebe Dashboard"
      else if role == ROLE_ADMIN then "Y\U{F6}netici Dashboard"
      else "Dashboard"
  }

  /** The attention box as written: shown when anything waits for
      information, has no invoice or must be procured. */
  predicate AlertBoxShown(stats: Option<DashboardStats>) {
    stats.Some? && (stats.value.waitingInfo > 0 || stats.value.pendingInvoices > 0 || stats.value.itemsToProcure > 0)
  }

  predicate WaitingLine(stats: Option<DashboardStats>) {
    stats.Some? && stats.value.waitingInfo > 0
  }

  /** The invoice line as written: for accounting only. */
  predicate InvoiceLineAsWritten(stats: Option<DashboardStats>, user: Option<User>) {
    stats.Some? && stats.value.pendingInvoices > 0 && RoleIn(user, {ROLE_ACCOUNTING})
  }

  predicate ProcureLine(stats: Option<DashboardStats>, user: Option<User>) {
    stats.Some? && stats.value.itemsToProcure > 0 && RoleIn(user, PROCUREMENT_ROLES)
  }

  /** A finance user with one order in progress whose invoice is not issued
      gets the attention box with no line in it: the box counts the pending
      invoice, the invoice line is kept for accounting. */
  lemma EmptyAlertBoxAsWritten(o: Order, u: User)
    requires u.role == ROLE_FINANCE
    requires o.generalStatus == STATUS_IN_PROGRESS && o.fields.invoiceStatus == INVOICE_NOT_ISSUED
    ensures var stats := Some(Dashboard([o], [], u));
      AlertBoxShown(stats) && !WaitingLine(stats) && !InvoiceLineAsWritten(stats, Some(u)) && !ProcureLine(stats, Some(u))
  {
    var q := RoleQuery(u);
    var waiting := q.(generalStatus := Some(STATUS_WAITING_INFO));
    assert !Matches(waiting, o);
    assert Filter([o], MatchedBy(waiting)) == [];
    assert Filter([o], InvoicePending) == [o];
  }

  /** The invoice line gated like the pending-invoice card: for every role
      that sees the counter. */
  predicate InvoiceLine(stats: Option<DashboardStats>, user: Option<User>) {
    stats.Some? && stats.value.pendingInvoices > 0 && RoleIn(user, INVOICE_ROLES)
  }

  /** With the server's counters and the corrected invoice line, the box
      appears exactly when it has a line to show; the procurement line's own
      role test then adds nothing to the server's. */
  lemma AlertBoxNeverEmpty(orders: seq<Order>, items: seq<OrderItem>, u: User)
    ensures var stats := Some(Dashboard(orders, items, u));
      AlertBoxShown(stats) <==> WaitingLine(stats) || InvoiceLine(stats, Some(u)) || ProcureLine(stats, Some(u))
    ensures var stats := Some(Dashboard(orders, items, u));
      ProcureLine(stats, Some(u)) <==> stats.value.itemsToProcure > 0
  {
  }
}
