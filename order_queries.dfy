/** The read side of the order store: the role-dependent MongoDB query that
    `get_orders` and `get_dashboard_stats` build, the order list (filter,
    sort by order number descending, skip, limit) and the dashboard counters. */
module OrderQueries {
  import opened Wrappers
  import opened Collections
  import opened Records

  /** The MongoDB query documents these endpoints build: equality on up to
      four fields, plus the `$or` of "corporate order" and "created by the
      given user" that corporate sales users get. */
  datatype Query = Query(
    orderType: Option<string>, corporateOrCreatedBy: Option<string>, generalStatus: Option<string>,
    invoiceStatus: Option<string>, cargoStatus: Option<string>)

  const EmptyQuery := Query(None, None, None, None, None)

  /** An equality condition that is absent, or that the actual value meets. */
  predicate FieldIs(cond: Option<string>, actual: string) {
    cond.None? || cond.value == actual
  }

  /** MongoDB's matching of an order document against a query. */
  predicate Matches(q: Query, o: Order) {
    FieldIs(q.orderType, o.fields.orderType)
    && (q.corporateOrCreatedBy.None? || o.fields.orderType == TYPE_CORPORATE || o.createdBy == q.corporateOrCreatedBy.value)
    && FieldIs(q.generalStatus, o.generalStatus)
    && FieldIs(q.invoiceStatus, o.fields.invoiceStatus)
    && FieldIs(q.cargoStatus, o.fields.cargoStatus)
  }

  function MatchedBy(q: Query): Order -> bool {
    o => Matches(q, o)
  }

  /** Which orders a user may see: a showroom user only showroom sales, a
      corporate sales user corporate orders and the orders they created,
      everybody else every order. */
  predicate Visible(user: User, o: Order) {
    if user.role == ROLE_SHOWROOM then o.fields.orderType == TYPE_SHOWROOM
    else if user.role == ROLE_CORPORATE_SALES then o.fields.orderType == TYPE_CORPORATE || o.createdBy == user.id
    else true
  }

  function VisibleBy(user: User): Order -> bool {
    o => Visible(user, o)
  }

  /** The role part of the query, shared by the order list and the dashboard. */
  function RoleQuery(user: User): (q: Query)
    ensures q.generalStatus.None? && q.invoiceStatus.None? && q.cargoStatus.None?
    ensures forall o :: Matches(q, o) <==> Visible(user, o)
  {
    if user.role == ROLE_SHOWROOM then EmptyQuery.(orderType := Some(TYPE_SHOWROOM))
    else if user.role == ROLE_CORPORATE_SALES then EmptyQuery.(corporateOrCreatedBy := Some(user.id))
    else EmptyQuery
  }

  /** The optional query parameters of `get_orders`; an empty string counts as absent. */
  datatype OrderFilters = OrderFilters(
    orderType: Option<string>, status: Option<string>, invoiceStatus: Option<string>, cargoStatus: Option<string>)

  /** A filter parameter that is absent or empty, or that the actual value meets. */
  predicate FilterAllows(filter: Option<string>, actual: string) {
    IsBlank(filter) || filter.value == actual
  }

  /** The order-type part of `Selected`. */
  predicate TypeAllowed(user: User, f: OrderFilters, o: Order) {
    if IsBlank(f.orderType) then Visible(user, o)
    else
      o.fields.orderType == f.orderType.value
      && (user.role == ROLE_CORPORATE_SALES ==> o.fields.orderType == TYPE_CORPORATE || o.createdBy == user.id)
  }

  /** What `get_orders` selects, stated rule by rule: an explicit order type
      replaces the showroom restriction but not the corporate one, and each
      further non-empty filter must hold. */
  predicate Selected(user: User, f: OrderFilters, o: Order) {
    TypeAllowed(user, f, o)
    && FilterAllows(f.status, o.generalStatus)
    && FilterAllows(f.invoiceStatus, o.fields.invoiceStatus)
    && FilterAllows(f.cargoStatus, o.fields.cargoStatus)
  }

  function SelectedBy(user: User, f: OrderFilters): Order -> bool {
    o => Selected(user, f, o)
  }

  /** The query `get_orders` builds: the role query, then each non-empty
      filter assigned over it in turn. */
  function OrdersQuery(user: User, f: OrderFilters): (q: Query)
    ensures forall o :: Matches(q, o) <==> Selected(user, f, o)
  {
    var q := RoleQuery(user);
    var q := if IsBlank(f.orderType) then q else q.(orderType := f.orderType);
    var q := if IsBlank(f.status) then q else q.(generalStatus := f.status);
    var q := if IsBlank(f.invoiceStatus) then q else q.(invoiceStatus := f.invoiceStatus);
    if IsBlank(f.cargoStatus) then q else q.(cargoStatus := f.cargoStatus)
  }

  /** Order numbers never increase along the sequence. */
  predicate SortedDesc(s: seq<Order>) {
    forall i, j :: 0 <= i < j < |s| ==> s[i].orderNumber >= s[j].orderNumber
  }

  /** Inserts `o` into a sequence sorted by descending order number. */
  function InsertDesc(o: Order, s: seq<Order>): (r: seq<Order>)
    requires SortedDesc(s)
    ensures SortedDesc(r) && multiset(r) == multiset(s) + multiset{o}
  {
    if s == [] then [o]
    else if o.orderNumber >= s[0].orderNumber then [o] + s
    else
      var rest := InsertDesc(o, s[1..]);
      assert s == [s[0]] + s[1..];
      BoundedByHead(s[0], rest, s[1..], o);
      ConsSorted(s[0], rest);
      [s[0]] + rest
  }

  /** An element numbered at least as high as every element of a sorted sequence can lead it. */
  lemma ConsSorted(x: Order, s: seq<Order>)
    requires SortedDesc(s) && forall y :: y in s ==> y.orderNumber <= x.orderNumber
    ensures SortedDesc([x] + s)
  {
    var r := [x] + s;
    forall i, j | 0 <= i < j < |r| ensures r[i].orderNumber >= r[j].orderNumber {
      assert r[j] == s[j - 1];
      if i > 0 { assert r[i] == s[i - 1]; }
    }
  }

  /** The elements of `rest`, which are those of `t` and `o`, are all bounded by `x`. */
  lemma BoundedByHead(x: Order, rest: seq<Order>, t: seq<Order>, o: Order)
    requires multiset(rest) == multiset(t) + multiset{o}
    requires o.orderNumber < x.orderNumber && SortedDesc([x] + t)
    ensures forall y :: y in rest ==> y.orderNumber <= x.orderNumber
  {
    forall y | y in rest ensures y.orderNumber <= x.orderNumber {
      assert y in multiset(rest);
      if y != o {
        assert y in t;
        var k :| 0 <= k < |t| && t[k] == y;
        assert ([x] + t)[0] == x && ([x] + t)[k + 1] == y;
      }
    }
  }

  /** MongoDB's `sort("order_number", -1)`: the same orders, by descending order number. */
  function SortDesc(s: seq<Order>): (r: seq<Order>)
    ensures SortedDesc(r) && multiset(r) == multiset(s)
  {
    if s == [] then []
    else
      assert s == [s[0]] + s[1..];
      InsertDesc(s[0], SortDesc(s[1..]))
  }

  function Min(a: nat, b: nat): nat {
    if a <= b then a else b
  }

  /** How many of `n` elements the window of at most `limit` elements starting at `skip` holds. */
  function WindowLength(n: nat, skip: nat, limit: nat): nat {
    if skip >= n then 0 else Min(limit, n - skip)
  }

  /** `skip(skip).limit(limit)`: the window of at most `limit` elements that starts at `skip`. */
  function Page<T>(s: seq<T>, skip: nat, limit: nat): (r: seq<T>)
    ensures |r| == WindowLength(|s|, skip, limit)
    ensures forall k :: 0 <= k < |r| ==> r[k] == s[skip + k]
  {
    if skip >= |s| then [] else s[skip..skip + Min(limit, |s| - skip)]
  }

  /** A window holds no more of any element than the whole sequence. */
  lemma PageMultiset<T>(s: seq<T>, skip: nat, limit: nat)
    ensures multiset(Page(s, skip, limit)) <= multiset(s)
  {
    if skip < |s| {
      var end := skip + Min(limit, |s| - skip);
      assert s == s[..skip] + s[skip..end] + s[end..];
      assert Page(s, skip, limit) == s[skip..end];
    }
  }

  /** `get_orders`: the orders matching the built query, by descending order
      number, paged. Every listed order is a stored one the rules select, and
      there are at most `limit` of them; the list is the window at `skip` of
      the selected orders sorted by descending number. */
  function ListOrders(orders: seq<Order>, user: User, f: OrderFilters, skip: nat, limit: nat): (r: seq<Order>)
    ensures |r| <= limit
    ensures forall o :: o in r ==> o in orders && Selected(user, f, o)
    ensures SortedDesc(r)
    ensures var selected := Filter(orders, SelectedBy(user, f));
      r == Page(SortDesc(selected), skip, limit)
  {
    var q := OrdersQuery(user, f);
    var r := Page(SortDesc(Filter(orders, MatchedBy(q))), skip, limit);
    QueryFindsSelection(orders, user, f);
    PageMembers(Filter(orders, SelectedBy(user, f)), skip, limit);
    SelectedMembers(orders, user, f, r);
    r
  }

  /** The list holds as many orders as the window at `skip` of the selected
      orders allows, and no order more often than the selection. */
  lemma ListOrdersWindow(orders: seq<Order>, user: User, f: OrderFilters, skip: nat, limit: nat)
    ensures var r := ListOrders(orders, user, f, skip, limit);
      var selected := Filter(orders, SelectedBy(user, f));
      |r| == (WindowLength(|selected|, skip, limit))
      && multiset(r) <= multiset(selected)
  {
    PageOfSort(Filter(orders, SelectedBy(user, f)), skip, limit);
  }

  /** The orders the built query matches are the orders the rules select, in store order. */
  lemma {:induction false} QueryFindsSelection(orders: seq<Order>, user: User, f: OrderFilters)
    ensures Filter(orders, MatchedBy(OrdersQuery(user, f))) == Filter(orders, SelectedBy(user, f))
  {
    var q := OrdersQuery(user, f);
    assert forall o :: MatchedBy(q)(o) == SelectedBy(user, f)(o) by {
      forall o ensures MatchedBy(q)(o) == SelectedBy(user, f)(o) {
        assert Matches(q, o) <==> Selected(user, f, o);
      }
    }
    FilterExt(orders, MatchedBy(q), SelectedBy(user, f));
  }

  /** The window of the descending sort of `s` has the length `s` fixes and
      holds no element more often than `s`. */
  lemma {:induction false} PageOfSort(s: seq<Order>, skip: nat, limit: nat)
    ensures |Page(SortDesc(s), skip, limit)| == WindowLength(|s|, skip, limit)
    ensures multiset(Page(SortDesc(s), skip, limit)) <= multiset(s)
  {
    var sorted := SortDesc(s);
    assert |sorted| == |multiset(sorted)| == |multiset(s)| == |s|;
    PageMultiset(sorted, skip, limit);
  }

  /** Every order of the window of the descending sort of `s` is one of `s`. */
  lemma {:induction false} PageMembers(s: seq<Order>, skip: nat, limit: nat)
    ensures forall o :: o in Page(SortDesc(s), skip, limit) ==> o in s
  {
    var sorted := SortDesc(s);
    PageMultiset(sorted, skip, limit);
    forall o | o in Page(sorted, skip, limit) ensures o in s {
      assert o in multiset(Page(sorted, skip, limit));
    }
  }

  /** Orders drawn from the selection are stored orders the rules select. */
  lemma SelectedMembers(orders: seq<Order>, user: User, f: OrderFilters, r: seq<Order>)
    requires forall o :: o in r ==> o in Filter(orders, SelectedBy(user, f))
    ensures forall o :: o in r ==> o in orders && Selected(user, f, o)
  {
    forall o | o in r ensures o in orders && Selected(user, f, o) {
      assert o in Filter(orders, SelectedBy(user, f));
      assert SelectedBy(user, f)(o);
    }
  }

  /** The first page, when it is large enough, lists every stored order the rules select. */
  lemma ListOrdersComplete(orders: seq<Order>, user: User, f: OrderFilters, limit: nat, o: Order)
    requires limit >= |orders|
    requires o in orders && Selected(user, f, o)
    ensures o in ListOrders(orders, user, f, 0, limit)
  {
    var q := OrdersQuery(user, f);
    var matching := Filter(orders, MatchedBy(q));
    FilterKeeps(orders, MatchedBy(q), o);
    var sorted := SortDesc(matching);
    assert o in multiset(sorted);
    assert Page(sorted, 0, limit) == sorted;
  }

  /** Without an order-type filter a showroom user gets only showroom sales. */
  lemma ShowroomSeesOnlyShowroom(orders: seq<Order>, user: User, f: OrderFilters, skip: nat, limit: nat)
    requires user.role == ROLE_SHOWROOM && IsBlank(f.orderType)
    ensures forall o :: o in ListOrders(orders, user, f, skip, limit) ==> o.fields.orderType == TYPE_SHOWROOM
  {
  }

  /** An explicit order type replaces the showroom restriction: the showroom
      user is shown orders of that type, whatever it is. */
  lemma ShowroomTypeOverride(user: User, f: OrderFilters, o: Order)
    requires user.role == ROLE_SHOWROOM && !IsBlank(f.orderType)
    ensures Selected(user, f, o) <==>
      o.fields.orderType == f.orderType.value && FilterAllows(f.status, o.generalStatus)
      && FilterAllows(f.invoiceStatus, o.fields.invoiceStatus) && FilterAllows(f.cargoStatus, o.fields.cargoStatus)
  {
  }

  /** A corporate sales user sees corporate orders and their own orders, even
      with an order-type filter. */
  lemma CorporateSeesCorporateOrOwn(orders: seq<Order>, user: User, f: OrderFilters, skip: nat, limit: nat)
    requires user.role == ROLE_CORPORATE_SALES
    ensures forall o :: o in ListOrders(orders, user, f, skip, limit) ==>
      o.fields.orderType == TYPE_CORPORATE || o.createdBy == user.id
  {
  }

  /** Roles other than showroom and corporate sales are not restricted. */
  lemma OtherRolesUnrestricted(user: User, o: Order)
    requires user.role != ROLE_SHOWROOM && user.role != ROLE_CORPORATE_SALES
    ensures Visible(user, o)
  {
  }

  /** The counters of `get_dashboard_stats`. */
  datatype DashboardStats = DashboardStats(
    totalOrders: nat, waitingInfo: nat, inProgress: nat, ready: nat,
    pendingInvoices: nat, itemsToProcure: nat)

  /** The orders a user sees that have the given status. */
  function VisibleWithStatus(user: User, status: string): Order -> bool {
    o => Visible(user, o) && o.generalStatus == status
  }

  /** `count_documents(query)`. */
  function Count(orders: seq<Order>, q: Query): nat {
    |Filter(orders, MatchedBy(q))|
  }

  predicate InvoicePending(o: Order) {
    o.fields.invoiceStatus == INVOICE_NOT_ISSUED
  }

  predicate ToProcure(i: OrderItem) {
    i.data.itemStatus == ITEM_TO_BE_PROCURED
  }

  predicate SeesInvoices(role: string) {
    role == ROLE_ACCOUNTING || role == ROLE_FINANCE || role == ROLE_ADMIN
  }

  predicate SeesProcurement(role: string) {
    role == ROLE_WAREHOUSE || role == ROLE_FINANCE || role == ROLE_ADMIN
  }

  /** `get_dashboard_stats`. The status counters refine the role query; the
      pending-invoice counter is computed only for accounting, finance and
      admin and then over every order, the role query notwithstanding; the
      procurement counter only for warehouse, finance and admin. */
  function Dashboard(orders: seq<Order>, items: seq<OrderItem>, user: User): (r: DashboardStats)
    ensures r.totalOrders == |Filter(orders, VisibleBy(user))|
    ensures r.waitingInfo == |Filter(orders, VisibleWithStatus(user, STATUS_WAITING_INFO))|
    ensures r.inProgress == |Filter(orders, VisibleWithStatus(user, STATUS_IN_PROGRESS))|
    ensures r.ready == |Filter(orders, VisibleWithStatus(user, STATUS_READY))|
    ensures r.pendingInvoices == if SeesInvoices(user.role) then |Filter(orders, InvoicePending)| else 0
    ensures r.itemsToProcure == if SeesProcurement(user.role) then |Filter(items, ToProcure)| else 0
  {
    var q := RoleQuery(user);
    FilterExt(orders, MatchedBy(q), VisibleBy(user));
    FilterExt(orders, MatchedBy(q.(generalStatus := Some(STATUS_WAITING_INFO))), VisibleWithStatus(user, STATUS_WAITING_INFO));
    FilterExt(orders, MatchedBy(q.(generalStatus := Some(STATUS_IN_PROGRESS))), VisibleWithStatus(user, STATUS_IN_PROGRESS));
    FilterExt(orders, MatchedBy(q.(generalStatus := Some(STATUS_READY))), VisibleWithStatus(user, STATUS_READY));
    var pending := EmptyQuery.(invoiceStatus := Some(INVOICE_NOT_ISSUED));
    FilterExt(orders, MatchedBy(pending), InvoicePending);
    DashboardStats(
      Count(orders, q),
      Count(orders, q.(generalStatus := Some(STATUS_WAITING_INFO))),
      Count(orders, q.(generalStatus := Some(STATUS_IN_PROGRESS))),
      Count(orders, q.(generalStatus := Some(STATUS_READY))),
      if SeesInvoices(user.role) then Count(orders, pending) else 0,
      if SeesProcurement(user.role) then |Filter(items, ToProcure)| else 0)
  }

  /** Three counts of one query narrowed to three different statuses add up
      to no more than the count of the query itself. */
  lemma {:induction false} StatusCountsBounded(orders: seq<Order>, q: Query, a: string, b: string, c: string)
    requires q.generalStatus.None? && a != b && b != c && a != c
    ensures Count(orders, q.(generalStatus := Some(a))) + Count(orders, q.(generalStatus := Some(b)))
      + Count(orders, q.(generalStatus := Some(c))) <= Count(orders, q)
  {
    if orders != [] {
      StatusCountsBounded(orders[1..], q, a, b, c);
    }
  }

  /** The orders waiting for information, in progress and ready are at most
      all the orders the user sees. */
  lemma DashboardStatusBound(orders: seq<Order>, items: seq<OrderItem>, user: User)
    ensures var s := Dashboard(orders, items, user); s.waitingInfo + s.inProgress + s.ready <= s.totalOrders
  {
    StatusCountsBounded(orders, RoleQuery(user), STATUS_WAITING_INFO, STATUS_IN_PROGRESS, STATUS_READY);
  }
}
