/** The dashboard's counting aggregators (src/routes/admin/dashboard/+page.server.js):
    the season, time-slot and quarter classifiers, and the `reduce` loops
    that fill count and amount dictionaries keyed by status, quarter,
    season, time slot, course code and employee name.  The query results
    are inputs; dates arrive as the numbers the reducers read from them. */
module Dashboard {
  import opened Common
  import opened Text

  // ------------------------------------------------------------ tallies

  /** The shape every keyed reducer shares: for each item that has a key,
      `acc[key] = (acc[key] || 0) + amount`; items without a key are skipped. */
  function Tally<T, K>(xs: seq<T>, key: T -> Option<K>, amount: T -> int): (tally: map<K, int>) {
    if xs == [] then map[]
    else
      var acc := Tally(xs[..|xs| - 1], key, amount);
      var x := xs[|xs| - 1];
      match key(x)
      case None => acc
      case Some(k) => acc[k := (if k in acc then acc[k] else 0) + amount(x)]
  }

  /** The reducer loop itself: the accumulator updated item by item. */
  method Accumulate<T, K>(xs: seq<T>, key: T -> Option<K>, amount: T -> int) returns (acc: map<K, int>)
    ensures acc == Tally(xs, key, amount)
  {
    acc := map[];
    for i := 0 to |xs|
      invariant acc == Tally(xs[..i], key, amount)
    {
      assert xs[..i + 1][..i] == xs[..i];
      match key(xs[i]) {
        case Some(k) =>
          acc := acc[k := (if k in acc then acc[k] else 0) + amount(xs[i])];
        case None =>
      }
    }
    assert xs[..|xs|] == xs;
  }

  /** Whether some item is filed under `k`. */
  ghost predicate Filed<T, K>(xs: seq<T>, key: T -> Option<K>, k: K) {
    exists i :: 0 <= i < |xs| && key(xs[i]) == Some(k)
  }

  /** The total amount of the items filed under `k`. */
  function KeySum<T, K(==)>(xs: seq<T>, key: T -> Option<K>, amount: T -> int, k: K): (sum: int) {
    if xs == [] then 0
    else
      KeySum(xs[..|xs| - 1], key, amount, k)
        + (if key(xs[|xs| - 1]) == Some(k) then amount(xs[|xs| - 1]) else 0)
  }

  /** The total amount of the items that have a key. */
  function KeyedSum<T, K>(xs: seq<T>, key: T -> Option<K>, amount: T -> int): (sum: int) {
    if xs == [] then 0
    else KeyedSum(xs[..|xs| - 1], key, amount) + (if key(xs[|xs| - 1]).Some? then amount(xs[|xs| - 1]) else 0)
  }

  /** The total amount of all items. */
  function Total<T>(xs: seq<T>, amount: T -> int): (sum: int) {
    if xs == [] then 0 else Total(xs[..|xs| - 1], amount) + amount(xs[|xs| - 1])
  }

  /** The number of items that satisfy `p`. */
  function Count<T>(xs: seq<T>, p: T -> bool): (n: nat)
    ensures n <= |xs|
  {
    if xs == [] then 0 else Count(xs[..|xs| - 1], p) + (if p(xs[|xs| - 1]) then 1 else 0)
  }

  /** `filter(p)`. */
  function Filter<T>(xs: seq<T>, p: T -> bool): (r: seq<T>)
    ensures |r| == Count(xs, p)
    ensures forall x :: x in r ==> x in xs && p(x)
  {
    if xs == [] then []
    else
      var rest := Filter(xs[..|xs| - 1], p);
      if p(xs[|xs| - 1]) then rest + [xs[|xs| - 1]] else rest
  }

  function One<T>(x: T): int { 1 }

  /** The dictionary holds a key exactly when some item is filed under it,
      and its value there is the total amount of those items. */
  lemma {:induction false} TallyByKey<T, K>(xs: seq<T>, key: T -> Option<K>, amount: T -> int)
    ensures forall k :: k in Tally(xs, key, amount) <==> Filed(xs, key, k)
    ensures forall k :: k in Tally(xs, key, amount) ==> Tally(xs, key, amount)[k] == KeySum(xs, key, amount, k)
  {
    if xs != [] {
      var ys := xs[..|xs| - 1];
      var x := xs[|xs| - 1];
      TallyByKey(ys, key, amount);
      forall k
        ensures Filed(xs, key, k) <==> Filed(ys, key, k) || key(x) == Some(k)
      {
        if Filed(xs, key, k) {
          var i :| 0 <= i < |xs| && key(xs[i]) == Some(k);
          if i < |ys| {
            assert key(ys[i]) == Some(k);
          }
        }
        if Filed(ys, key, k) {
          var i :| 0 <= i < |ys| && key(ys[i]) == Some(k);
          assert key(xs[i]) == Some(k);
        }
      }
      forall k | k in Tally(xs, key, amount)
        ensures Tally(xs, key, amount)[k] == KeySum(xs, key, amount, k)
      {
        if k !in Tally(ys, key, amount) {
          assert !Filed(ys, key, k);
          KeySumUnfiled(ys, key, amount, k);
        }
      }
    }
  }

  /** Nothing filed under `k` sums to zero. */
  lemma {:induction false} KeySumUnfiled<T, K>(xs: seq<T>, key: T -> Option<K>, amount: T -> int, k: K)
    requires !Filed(xs, key, k)
    ensures KeySum(xs, key, amount, k) == 0
  {
    if xs != [] {
      var ys := xs[..|xs| - 1];
      KeySumUnfiled(ys, key, amount, k);
      assert key(xs[|xs| - 1]) != Some(k);
    }
  }

  /** The values of the dictionary add up to the amounts of all items that
      have a key: every such item lands under exactly one key. */
  lemma {:induction false} TallyTotal<T, K>(xs: seq<T>, key: T -> Option<K>, amount: T -> int)
    ensures MapSum(Tally(xs, key, amount)) == KeyedSum(xs, key, amount)
  {
    if xs != [] {
      var ys := xs[..|xs| - 1];
      var acc := Tally(ys, key, amount);
      TallyTotal(ys, key, amount);
      match key(xs[|xs| - 1])
      case None =>
      case Some(k) =>
        MapSumUpdate(acc, k, (if k in acc then acc[k] else 0) + amount(xs[|xs| - 1]));
    }
  }

  /** When every item has a key, the keyed amounts are all the amounts. */
  lemma {:induction false} KeyedSumAll<T, K>(xs: seq<T>, key: T -> Option<K>, amount: T -> int)
    requires forall x :: key(x).Some?
    ensures KeyedSum(xs, key, amount) == Total(xs, amount)
  {
    if xs != [] {
      KeyedSumAll(xs[..|xs| - 1], key, amount);
    }
  }

  /** One per item counts the items. */
  lemma {:induction false} TotalOne<T>(xs: seq<T>)
    ensures Total(xs, One) == |xs|
  {
    if xs != [] {
      TotalOne(xs[..|xs| - 1]);
    }
  }

  /** One per keyed item counts the keyed items. */
  lemma {:induction false} KeyedSumOne<T, K>(xs: seq<T>, key: T -> Option<K>, p: T -> bool)
    requires forall x :: p(x) == key(x).Some?
    ensures KeyedSum(xs, key, One) == Count(xs, p)
  {
    if xs != [] {
      KeyedSumOne(xs[..|xs| - 1], key, p);
    }
  }

  /** Amounts that add up item by item add up key by key. */
  lemma {:induction false} KeySumAdd<T, K>(xs: seq<T>, key: T -> Option<K>, a: T -> int, b: T -> int, c: T -> int, k: K)
    requires forall x :: a(x) == b(x) + c(x)
    ensures KeySum(xs, key, a, k) == KeySum(xs, key, b, k) + KeySum(xs, key, c, k)
  {
    if xs != [] {
      KeySumAdd(xs[..|xs| - 1], key, a, b, c, k);
    }
  }

  /** Amounts that are smaller item by item are smaller key by key. */
  lemma {:induction false} KeySumMonotone<T, K>(xs: seq<T>, key: T -> Option<K>, a: T -> int, b: T -> int, k: K)
    requires forall x :: a(x) <= b(x)
    ensures KeySum(xs, key, a, k) <= KeySum(xs, key, b, k)
  {
    if xs != [] {
      KeySumMonotone(xs[..|xs| - 1], key, a, b, k);
    }
  }

  /** Amounts that are never negative give totals that are never negative. */
  lemma {:induction false} KeySumNonNegative<T, K>(xs: seq<T>, key: T -> Option<K>, a: T -> int, k: K)
    requires forall x :: 0 <= a(x)
    ensures 0 <= KeySum(xs, key, a, k)
  {
    if xs != [] {
      KeySumNonNegative(xs[..|xs| - 1], key, a, k);
    }
  }

  // ------------------------------------------------------------ classifiers

  /** `getSeason(month)`; None is NaN, for which every comparison is false. */
  function GetSeason(month: Option<int>): (r: string)
    ensures r in {"Spring", "Summer", "Fall", "Winter"}
  {
    match month
    case None => "Winter"
    case Some(m) =>
      if 2 <= m <= 4 then "Spring"
      else if 5 <= m <= 7 then "Summer"
      else if 8 <= m <= 10 then "Fall"
      else "Winter"
  }

  /** The seasons of January to December. */
  const SeasonOfMonth: seq<string> := [
    "Winter", "Winter", "Spring", "Spring", "Spring", "Summer",
    "Summer", "Summer", "Fall", "Fall", "Fall", "Winter"]

  /** Over the months `getMonth` yields, `getSeason` agrees with the table:
      three months to each season, December to February being winter; a
      NaN month is winter too. */
  lemma SeasonTable(m: int)
    requires 0 <= m < 12
    ensures GetSeason(Some(m)) == SeasonOfMonth[m]
    ensures GetSeason(None) == "Winter"
  {
    if m == 0 { } else if m == 1 { } else if m == 2 { } else if m == 3 { }
    else if m == 4 { } else if m == 5 { } else if m == 6 { } else if m == 7 { }
    else if m == 8 { } else if m == 9 { } else if m == 10 { } else { }
  }

  /** `getTimeSlot(hour)`; None is NaN. */
  function GetTimeSlot(hour: Option<int>): (r: string)
    ensures r in {"Morning", "Afternoon", "Evening", "Night"}
  {
    match hour
    case None => "Night"
    case Some(h) =>
      if 5 <= h < 12 then "Morning"
      else if 12 <= h < 17 then "Afternoon"
      else if 17 <= h < 21 then "Evening"
      else "Night"
  }

  /** The time slots of the hours 0 to 23. */
  const SlotOfHour: seq<string> := [
    "Night", "Night", "Night", "Night", "Night",
    "Morning", "Morning", "Morning", "Morning", "Morning", "Morning", "Morning",
    "Afternoon", "Afternoon", "Afternoon", "Afternoon", "Afternoon",
    "Evening", "Evening", "Evening", "Evening",
    "Night", "Night", "Night"]

  /** Over the hours `getHours` yields, `getTimeSlot` agrees with the table. */
  lemma TimeSlotTable(h: int)
    requires 0 <= h < 24
    ensures GetTimeSlot(Some(h)) == SlotOfHour[h]
  {
    if h < 5 { } else if h < 12 { } else if h < 17 { } else if h < 21 { } else { }
  }

  /** The quarter label `Q${Math.floor(month / 3) + 1}`; a NaN month gives "QNaN". */
  function QuarterLabel(month: Option<int>): string {
    match month
    case None => "QNaN"
    case Some(m) => "Q" + IntToString(m / 3 + 1)
  }

  /** The quarters of January to December. */
  const QuarterOfMonth: seq<string> := [
    "Q1", "Q1", "Q1", "Q2", "Q2", "Q2", "Q3", "Q3", "Q3", "Q4", "Q4", "Q4"]

  /** Over the months `getMonth` yields, the label agrees with the table,
      so it is one of Q1 to Q4. */
  lemma QuarterTable(m: int)
    requires 0 <= m < 12
    ensures QuarterLabel(Some(m)) == QuarterOfMonth[m]
    ensures QuarterLabel(Some(m)) in {"Q1", "Q2", "Q3", "Q4"}
  {
    if m < 3 { } else if m < 6 { } else if m < 9 { } else { }
  }

  // ------------------------------------------------------------ orders

  /** An order row as the reducers read it: `created_at` as its month
      (`getMonth`) and hour (`getHours`), None for an invalid date (NaN);
      `completed_at` and `due_date` as time stamps, None when null. */
  datatype Order = Order(
    status: string,
    amountPaid: Option<int>,
    courseCode: Option<string>,
    createdMonth: Option<int>,
    createdHour: Option<int>,
    completedAt: Option<int>,
    dueDate: Option<int>)

  /** `order.amount_paid || 0`. */
  function Paid(o: Order): int { o.amountPaid.GetOr(0) }

  function StatusKey(o: Order): Option<string> { Some(o.status) }

  function QuarterKey(o: Order): Option<string> { Some(QuarterLabel(o.createdMonth)) }

  function SeasonKey(o: Order): Option<string> { Some(GetSeason(o.createdMonth)) }

  function SlotKey(o: Order): Option<string> { Some(GetTimeSlot(o.createdHour)) }

  /** `calculateRevenueByStatus`: the amount paid per status; no orders
      (`null`) gives an empty dictionary. */
  method RevenueByStatus(orders: Option<seq<Order>>) returns (acc: map<string, int>)
    ensures orders.None? ==> acc == map[]
    ensures orders.Some? ==> forall s :: s in acc <==> Filed(orders.value, StatusKey, s)
    ensures orders.Some? ==> forall s :: s in acc ==> acc[s] == KeySum(orders.value, StatusKey, Paid, s)
    ensures MapSum(acc) == Total(orders.GetOr([]), Paid)
  {
    if orders.None? {
      return map[];
    }
    acc := Accumulate(orders.value, StatusKey, Paid);
    TallyByKey(orders.value, StatusKey, Paid);
    TallyTotal(orders.value, StatusKey, Paid);
    KeyedSumAll(orders.value, StatusKey, Paid);
  }

  /** `calculateQuarterlyRevenue`: the amount paid per quarter of creation;
      every order lands under one label, a valid month under Q1 to Q4. */
  method QuarterlyRevenue(orders: Option<seq<Order>>) returns (acc: map<string, int>)
    ensures forall q :: q in acc <==> Filed(orders.GetOr([]), QuarterKey, q)
    ensures forall q :: q in acc ==> exists o :: o in orders.GetOr([]) && q == QuarterLabel(o.createdMonth)
    ensures forall o :: o in orders.GetOr([]) ==> QuarterLabel(o.createdMonth) in acc
    ensures forall q :: q in acc ==> acc[q] == KeySum(orders.GetOr([]), QuarterKey, Paid, q)
    ensures MapSum(acc) == Total(orders.GetOr([]), Paid)
  {
    var xs := orders.GetOr([]);
    if orders.None? {
      acc := map[];
      assert Tally(xs, QuarterKey, Paid) == map[];
    } else {
      acc := Accumulate(xs, QuarterKey, Paid);
    }
    TallyByKey(xs, QuarterKey, Paid);
    TallyTotal(xs, QuarterKey, Paid);
    KeyedSumAll(xs, QuarterKey, Paid);
    forall q | q in acc
      ensures exists o :: o in xs && q == QuarterLabel(o.createdMonth)
    {
      var i :| 0 <= i < |xs| && QuarterKey(xs[i]) == Some(q);
      assert xs[i] in xs;
    }
    forall o | o in xs
      ensures QuarterLabel(o.createdMonth) in acc
    {
      var i :| 0 <= i < |xs| && xs[i] == o;
      assert Filed(xs, QuarterKey, QuarterLabel(o.createdMonth));
    }
  }

  /** `calculateSeasonalTrends`: the number of orders per season of creation. */
  method SeasonalTrends(orders: Option<seq<Order>>) returns (acc: map<string, int>)
    ensures acc.Keys <= {"Spring", "Summer", "Fall", "Winter"}
    ensures forall s :: s in acc <==> Filed(orders.GetOr([]), SeasonKey, s)
    ensures forall s :: s in acc ==> acc[s] == KeySum(orders.GetOr([]), SeasonKey, One, s)
    ensures MapSum(acc) == |orders.GetOr([])|
  {
    var xs := orders.GetOr([]);
    if orders.None? {
      acc := map[];
      assert Tally(xs, SeasonKey, One) == map[];
    } else {
      acc := Accumulate(xs, SeasonKey, One);
    }
    TallyByKey(xs, SeasonKey, One);
    TallyTotal(xs, SeasonKey, One);
    KeyedSumAll(xs, SeasonKey, One);
    TotalOne(xs);
    forall s | s in acc
      ensures s in {"Spring", "Summer", "Fall", "Winter"}
    {
      var i :| 0 <= i < |xs| && SeasonKey(xs[i]) == Some(s);
    }
  }

  /** `identifyPeakOrderTimes`: the number of orders per time slot of creation. */
  method PeakOrderTimes(orders: Option<seq<Order>>) returns (acc: map<string, int>)
    ensures acc.Keys <= {"Morning", "Afternoon", "Evening", "Night"}
    ensures forall s :: s in acc <==> Filed(orders.GetOr([]), SlotKey, s)
    ensures forall s :: s in acc ==> acc[s] == KeySum(orders.GetOr([]), SlotKey, One, s)
    ensures MapSum(acc) == |orders.GetOr([])|
  {
    var xs := orders.GetOr([]);
    if orders.None? {
      acc := map[];
      assert Tally(xs, SlotKey, One) == map[];
    } else {
      acc := Accumulate(xs, SlotKey, One);
    }
    TallyByKey(xs, SlotKey, One);
    TallyTotal(xs, SlotKey, One);
    KeyedSumAll(xs, SlotKey, One);
    TotalOne(xs);
    forall s | s in acc
      ensures s in {"Morning", "Afternoon", "Evening", "Night"}
    {
      var i :| 0 <= i < |xs| && SlotKey(xs[i]) == Some(s);
    }
  }

  // ------------------------------------------------------------ status metrics

  /** The key `processOrderMetrics` counts an order under: its lower-cased
      status, or none for a cancelled order. */
  function MetricKey(o: Order): Option<string> {
    var s := Lower(o.status);
    if s == "cancelled" then None else Some(s)
  }

  predicate Active(o: Order) { Lower(o.status) != "cancelled" }

  /** `defaultStatuses`. */
  const DefaultStatuses: map<string, int> := map["completed" := 0, "in progress" := 0, "pending" := 0]

  /** `processOrderMetrics`: the counts per lower-cased status, cancelled
      orders skipped, over the three default statuses at zero.  The order
      data is read without a null check, so null order data throws (None). */
  method ProcessOrderMetrics(orderData: Option<seq<Order>>) returns (metrics: Option<map<string, int>>)
    ensures metrics.None? <==> orderData.None?
    ensures metrics.Some? ==>
      && "completed" in metrics.value && "in progress" in metrics.value && "pending" in metrics.value
      && "cancelled" !in metrics.value
      && (forall s :: s in metrics.value <==> s in DefaultStatuses || Filed(orderData.value, MetricKey, s))
      && (forall s :: s in metrics.value ==> metrics.value[s] == KeySum(orderData.value, MetricKey, One, s))
      && MapSum(metrics.value) == Count(orderData.value, Active)
  {
    if orderData.None? {
      // `orders.reduce` on null throws.
      return None;
    }
    var orders := orderData.value;
    var statusCounts := Accumulate(orders, MetricKey, One);
    metrics := Some(DefaultStatuses + statusCounts);
    MetricsByStatus(orders);
    MetricsTotal(orders);
  }

  /** The merged dictionary has the three defaults, the statuses of the
      orders that are not cancelled, no other key, and never `cancelled`;
      every value is the number of orders with that lower-cased status. */
  lemma MetricsByStatus(orders: seq<Order>)
    ensures var metrics := DefaultStatuses + Tally(orders, MetricKey, One);
      && "cancelled" !in metrics
      && (forall s :: s in metrics <==> s in DefaultStatuses || Filed(orders, MetricKey, s))
      && forall s :: s in metrics ==> metrics[s] == KeySum(orders, MetricKey, One, s)
  {
    var counts := Tally(orders, MetricKey, One);
    TallyByKey(orders, MetricKey, One);
    forall s | s in DefaultStatuses && s !in counts
      ensures KeySum(orders, MetricKey, One, s) == 0
    {
      KeySumUnfiled(orders, MetricKey, One, s);
    }
  }

  /** The merged values add up to the number of orders that are not cancelled. */
  lemma MetricsTotal(orders: seq<Order>)
    ensures MapSum(DefaultStatuses + Tally(orders, MetricKey, One)) == Count(orders, Active)
  {
    TallyTotal(orders, MetricKey, One);
    KeyedSumOne(orders, MetricKey, Active);
    MapSumZeroUnion(DefaultStatuses, Tally(orders, MetricKey, One));
  }

  // ------------------------------------------------------------ course performance

  /** The per-course record of `calculateCoursePerformance`. */
  datatype CourseStats = CourseStats(totalOrders: int, completedOrders: int, totalRevenue: int, averageCompletion: int)

  /** An order counts for a course when its course code is truthy. */
  function CourseKey(o: Order): Option<string> {
    if o.courseCode.Some? && o.courseCode.value != "" then o.courseCode else None
  }

  /** One for an order whose status is exactly `completed`. */
  function CompletedOne(o: Order): int { if o.status == "completed" then 1 else 0 }

  predicate HasCourse(o: Order) { CourseKey(o).Some? }

  /** The course records describe `xs`: one per course code that occurs,
      holding the number of its orders, of its completed orders and their
      amount paid, with `averageCompletion` left at 0. */
  ghost predicate DescribesCourses(acc: map<string, CourseStats>, xs: seq<Order>) {
    && acc.Keys == Tally(xs, CourseKey, One).Keys
    && acc.Keys == Tally(xs, CourseKey, CompletedOne).Keys
    && acc.Keys == Tally(xs, CourseKey, Paid).Keys
    && forall c :: c in acc ==>
         && acc[c].totalOrders == Tally(xs, CourseKey, One)[c]
         && acc[c].completedOrders == Tally(xs, CourseKey, CompletedOne)[c]
         && acc[c].totalRevenue == Tally(xs, CourseKey, Paid)[c]
         && acc[c].averageCompletion == 0
  }

  /** One step of the reducer: an order with a course code counted under
      it, whose record starts at zero. */
  function AddCourseOrder(acc: map<string, CourseStats>, o: Order): map<string, CourseStats> {
    match CourseKey(o)
    case None => acc
    case Some(code) =>
      var stats := if code in acc then acc[code] else CourseStats(0, 0, 0, 0);
      acc[code := stats.(
        totalOrders := stats.totalOrders + 1,
        completedOrders := stats.completedOrders + CompletedOne(o),
        totalRevenue := stats.totalRevenue + Paid(o))]
  }

  /** The records after the reducer has seen `xs`. */
  function CourseSummary(xs: seq<Order>): map<string, CourseStats> {
    if xs == [] then map[] else AddCourseOrder(CourseSummary(xs[..|xs| - 1]), xs[|xs| - 1])
  }

  lemma {:induction false} CourseSummaryDescribes(xs: seq<Order>)
    ensures DescribesCourses(CourseSummary(xs), xs)
  {
    if xs != [] {
      var ys := xs[..|xs| - 1];
      CourseSummaryDescribes(ys);
      CourseStep(CourseSummary(ys), ys, xs[|xs| - 1], xs);
    }
  }

  lemma CourseStep(acc: map<string, CourseStats>, xs: seq<Order>, o: Order, ys: seq<Order>)
    requires DescribesCourses(acc, xs)
    requires ys == xs + [o]
    ensures DescribesCourses(AddCourseOrder(acc, o), ys)
  {
    assert ys[..|xs|] == xs;
  }

  /** The total orders per course, as a dictionary of their own. */
  function CourseTotals(acc: map<string, CourseStats>): map<string, int> {
    map c | c in acc :: acc[c].totalOrders
  }

  /** `calculateCoursePerformance`: orders without a course code are
      skipped; per course, completed orders never exceed total orders, and
      the totals add up to the number of orders that have a course code. */
  method CoursePerformance(orders: Option<seq<Order>>) returns (acc: map<string, CourseStats>)
    ensures acc == CourseSummary(orders.GetOr([]))
    ensures DescribesCourses(acc, orders.GetOr([]))
    ensures forall c :: c in acc ==> 0 <= acc[c].completedOrders <= acc[c].totalOrders
    ensures MapSum(CourseTotals(acc)) == Count(orders.GetOr([]), HasCourse)
  {
    var xs := orders.GetOr([]);
    acc := map[];
    for i := 0 to |xs|
      invariant acc == CourseSummary(xs[..i])
    {
      var order := xs[i];
      assert xs[..i + 1][..i] == xs[..i];
      ghost var before := acc;
      if order.courseCode.Some? && order.courseCode.value != "" {
        var code := order.courseCode.value;
        if code !in acc {
          acc := acc[code := CourseStats(0, 0, 0, 0)];
        }
        var stats := acc[code];
        stats := stats.(totalOrders := stats.totalOrders + 1);
        if order.status == "completed" {
          stats := stats.(completedOrders := stats.completedOrders + 1);
        }
        stats := stats.(totalRevenue := stats.totalRevenue + Paid(order));
        acc := acc[code := stats];
      }
      assert acc == AddCourseOrder(before, order);
    }
    assert xs[..|xs|] == xs;
    CourseSummaryDescribes(xs);
    CourseBounds(acc, xs);
  }

  /** What the course records promise: completed within total, and the
      totals adding up to the orders that have a course code. */
  lemma CourseBounds(acc: map<string, CourseStats>, xs: seq<Order>)
    requires DescribesCourses(acc, xs)
    ensures forall c :: c in acc ==> 0 <= acc[c].completedOrders <= acc[c].totalOrders
    ensures MapSum(CourseTotals(acc)) == Count(xs, HasCourse)
  {
    TallyByKey(xs, CourseKey, One);
    TallyByKey(xs, CourseKey, CompletedOne);
    forall c | c in acc
      ensures 0 <= acc[c].completedOrders <= acc[c].totalOrders
    {
      KeySumMonotone(xs, CourseKey, CompletedOne, One, c);
      KeySumNonNegative(xs, CourseKey, CompletedOne, c);
    }
    CourseTotalsCount(acc, xs);
  }

  lemma CourseTotalsCount(acc: map<string, CourseStats>, xs: seq<Order>)
    requires DescribesCourses(acc, xs)
    ensures MapSum(CourseTotals(acc)) == Count(xs, HasCourse)
  {
    assert CourseTotals(acc) == Tally(xs, CourseKey, One);
    TallyTotal(xs, CourseKey, One);
    KeyedSumOne(xs, CourseKey, HasCourse);
  }

  // ------------------------------------------------------------ employee statistics

  /** An order row of the employee query: the assigned employee's names,
      the status and `total_amount`. */
  datatype EmployeeOrder = EmployeeOrder(firstName: string, lastName: string, status: string, totalAmount: Option<int>)

  /** The per-employee record of `calculateEmployeeStats`, without the
      floating-point `averageOrderValue`. */
  datatype EmployeeStats = EmployeeStats(completed: int, pending: int, total: int, revenue: int)

  /** `${first_name} ${last_name}`. */
  function EmployeeName(r: EmployeeOrder): Option<string> { Some(r.firstName + " " + r.lastName) }

  /** One for a row whose lower-cased status is `completed`. */
  function DoneOne(r: EmployeeOrder): int { if Lower(r.status) == "completed" then 1 else 0 }

  /** One for every other row. */
  function OpenOne(r: EmployeeOrder): int { if Lower(r.status) == "completed" then 0 else 1 }

  /** `curr.total_amount || 0`. */
  function Amount(r: EmployeeOrder): int { r.totalAmount.GetOr(0) }

  /** The employee records describe `rows`: one per employee name, holding
      the number of the employee's rows, of those completed and of the rest,
      and their total amount. */
  ghost predicate DescribesEmployees(acc: map<string, EmployeeStats>, rows: seq<EmployeeOrder>) {
    && acc.Keys == Tally(rows, EmployeeName, One).Keys
    && acc.Keys == Tally(rows, EmployeeName, DoneOne).Keys
    && acc.Keys == Tally(rows, EmployeeName, OpenOne).Keys
    && acc.Keys == Tally(rows, EmployeeName, Amount).Keys
    && forall n :: n in acc ==>
         && acc[n].total == Tally(rows, EmployeeName, One)[n]
         && acc[n].completed == Tally(rows, EmployeeName, DoneOne)[n]
         && acc[n].pending == Tally(rows, EmployeeName, OpenOne)[n]
         && acc[n].revenue == Tally(rows, EmployeeName, Amount)[n]
  }

  /** One step of the reducer: the row counted under its employee's name,
      whose record starts at zero. */
  function AddEmployeeRow(acc: map<string, EmployeeStats>, r: EmployeeOrder): map<string, EmployeeStats> {
    var name := r.firstName + " " + r.lastName;
    var stats := if name in acc then acc[name] else EmployeeStats(0, 0, 0, 0);
    var counted := stats.(total := stats.total + 1, revenue := stats.revenue + Amount(r));
    acc[name := if Lower(r.status) == "completed" then counted.(completed := counted.completed + 1)
                else counted.(pending := counted.pending + 1)]
  }

  /** The records after the reducer has seen `rows`. */
  function EmployeeSummary(rows: seq<EmployeeOrder>): map<string, EmployeeStats> {
    if rows == [] then map[] else AddEmployeeRow(EmployeeSummary(rows[..|rows| - 1]), rows[|rows| - 1])
  }

  lemma {:induction false} EmployeeSummaryDescribes(rows: seq<EmployeeOrder>)
    ensures DescribesEmployees(EmployeeSummary(rows), rows)
  {
    if rows != [] {
      var xs := rows[..|rows| - 1];
      EmployeeSummaryDescribes(xs);
      EmployeeStep(EmployeeSummary(xs), xs, rows[|rows| - 1], rows);
    }
  }

  lemma EmployeeStep(acc: map<string, EmployeeStats>, rows: seq<EmployeeOrder>, r: EmployeeOrder, ys: seq<EmployeeOrder>)
    requires DescribesEmployees(acc, rows)
    requires ys == rows + [r]
    ensures DescribesEmployees(AddEmployeeRow(acc, r), ys)
  {
    assert ys[..|rows|] == rows;
    var next := AddEmployeeRow(acc, r);
    var name := r.firstName + " " + r.lastName;
    forall n | n in next
      ensures && next[n].total == Tally(ys, EmployeeName, One)[n]
              && next[n].completed == Tally(ys, EmployeeName, DoneOne)[n]
              && next[n].pending == Tally(ys, EmployeeName, OpenOne)[n]
              && next[n].revenue == Tally(ys, EmployeeName, Amount)[n]
    {
      if n != name {
        assert next[n] == acc[n];
      }
    }
  }

  /** `calculateEmployeeStats`: per employee, total = completed + pending =
      the number of the employee's rows. */
  method EmployeeStatistics(rows: Option<seq<EmployeeOrder>>) returns (acc: map<string, EmployeeStats>)
    ensures acc == EmployeeSummary(rows.GetOr([]))
    ensures DescribesEmployees(acc, rows.GetOr([]))
    ensures forall n :: n in acc ==>
      && acc[n].total == acc[n].completed + acc[n].pending
      && acc[n].total == KeySum(rows.GetOr([]), EmployeeName, One, n)
  {
    var xs := rows.GetOr([]);
    acc := map[];
    for i := 0 to |xs|
      invariant acc == EmployeeSummary(xs[..i])
    {
      var curr := xs[i];
      assert xs[..i + 1][..i] == xs[..i];
      ghost var before := acc;
      var name := curr.firstName + " " + curr.lastName;
      if name !in acc {
        acc := acc[name := EmployeeStats(0, 0, 0, 0)];
      }
      var stats := acc[name];
      stats := stats.(total := stats.total + 1);
      stats := stats.(revenue := stats.revenue + Amount(curr));
      if Lower(curr.status) == "completed" {
        stats := stats.(completed := stats.completed + 1);
      } else {
        stats := stats.(pending := stats.pending + 1);
      }
      acc := acc[name := stats];
      assert acc == AddEmployeeRow(before, curr);
    }
    assert xs[..|xs|] == xs;
    EmployeeSummaryDescribes(xs);
    EmployeeTotals(acc, xs);
  }

  /** Every row is either completed or pending. */
  lemma EmployeeTotals(acc: map<string, EmployeeStats>, rows: seq<EmployeeOrder>)
    requires DescribesEmployees(acc, rows)
    ensures forall n :: n in acc ==>
      && acc[n].total == acc[n].completed + acc[n].pending
      && acc[n].total == KeySum(rows, EmployeeName, One, n)
  {
    TallyByKey(rows, EmployeeName, One);
    TallyByKey(rows, EmployeeName, DoneOne);
    TallyByKey(rows, EmployeeName, OpenOne);
    forall n | n in acc
      ensures acc[n].total == acc[n].completed + acc[n].pending
    {
      KeySumAdd(rows, EmployeeName, One, DoneOne, OpenOne, n);
    }
  }

  // ------------------------------------------------------------ delivery performance

  /** `{ onTime, late, percentOnTime }`. */
  datatype Delivery = Delivery(onTime: int, late: int, percentOnTime: string)

  /** A completed order with a completion time. */
  predicate Delivered(o: Order) { o.status == "completed" && o.completedAt.Some? }

  /** `new Date(completed_at) <= new Date(due_date)`; a null date is the epoch. */
  predicate InTime(o: Order) { o.completedAt.GetOr(0) <= o.dueDate.GetOr(0) }

  predicate DeliveredInTime(o: Order) { Delivered(o) && InTime(o) }

  predicate DeliveredLate(o: Order) { Delivered(o) && !InTime(o) }

  /** `calculateDeliveryPerformance`; `percent(onTime, n)` stands for the
      floating-point `((onTime / n) * 100).toFixed(2)`. */
  function DeliveryPerformance(orders: Option<seq<Order>>, percent: (nat, nat) -> string): Delivery {
    var completed := Filter(orders.GetOr([]), Delivered);
    if |completed| == 0 then Delivery(0, 0, "0.00")
    else
      var onTime := Count(completed, InTime);
      Delivery(onTime, |completed| - onTime, percent(onTime, |completed|))
  }

  /** On time and late are the delivered orders in time and after their due
      date, and together all the delivered orders; with none delivered the
      result is all zero. */
  lemma DeliveryCounts(orders: Option<seq<Order>>, percent: (nat, nat) -> string)
    ensures var r := DeliveryPerformance(orders, percent);
      && r.onTime == Count(orders.GetOr([]), DeliveredInTime)
      && r.late == Count(orders.GetOr([]), DeliveredLate)
      && r.onTime + r.late == Count(orders.GetOr([]), Delivered)
    ensures Count(orders.GetOr([]), Delivered) == 0 ==> DeliveryPerformance(orders, percent) == Delivery(0, 0, "0.00")
  {
    var xs := orders.GetOr([]);
    CountFiltered(xs, Delivered, InTime, DeliveredInTime);
    CountSplit(xs, Delivered, InTime, DeliveredInTime, DeliveredLate);
  }

  /** Counting a filtered list counts the items passing both tests. */
  lemma {:induction false} CountFiltered<T>(xs: seq<T>, p: T -> bool, q: T -> bool, pq: T -> bool)
    requires forall x :: pq(x) == (p(x) && q(x))
    ensures Count(Filter(xs, p), q) == Count(xs, pq)
  {
    if xs != [] {
      var ys := xs[..|xs| - 1];
      var x := xs[|xs| - 1];
      CountFiltered(ys, p, q, pq);
      if p(x) {
        var f := Filter(ys, p);
        assert (f + [x])[..|f|] == f;
      }
    }
  }

  /** The items passing `p` split into those that pass `q` and those that do not. */
  lemma {:induction false} CountSplit<T>(xs: seq<T>, p: T -> bool, q: T -> bool, pq: T -> bool, pnq: T -> bool)
    requires forall x :: pq(x) == (p(x) && q(x))
    requires forall x :: pnq(x) == (p(x) && !q(x))
    ensures Count(xs, p) == Count(xs, pq) + Count(xs, pnq)
  {
    if xs != [] {
      CountSplit(xs[..|xs| - 1], p, q, pq, pnq);
    }
  }
}
