/**
  The A/B test registry: creating a test, listing the live ones (which
  expires overdue tests as a side effect), recording view and conversion
  events, and reading the analysis. The JSON file that holds the registry
  is a `map` from test id to test passed in and returned; the wall clock is
  the parameter `now`, in seconds since the epoch.
 */
module AbTest {
  import opened Common

  datatype Status = Active | Completed

  /** The counters kept for one arm of a test. */
  datatype Arm = Arm(views: int, conversions: int, revenue: real)

  const EmptyArm := Arm(0, 0, 0.0)

  /**
    A stored test. The two strategies are opaque parameter objects, kept as
    their serialised text; times are seconds since the epoch.
   */
  datatype Test = Test(
    name: string,
    strategyA: string,
    strategyB: string,
    trafficSplit: real,
    startTime: real,
    endTime: real,
    status: Status,
    a: Arm,
    b: Arm
  )

  type Registry = map<string, Test>

  /** The request body of a create; `DefaultRequest` fills in the declared defaults. */
  datatype CreateRequest = CreateRequest(
    testName: string,
    strategyA: string,
    strategyB: string,
    durationHours: int,
    trafficSplit: real
  )

  function DefaultRequest(testName: string, strategyA: string, strategyB: string): (req: CreateRequest)
    ensures req.durationHours == 24 && req.trafficSplit == 0.5
  {
    CreateRequest(testName, strategyA, strategyB, 24, 0.5)
  }

  const IdPrefix := "test_"

  /** Ids are the whole seconds of the clock. */
  function TestId(now: real): (id: string)
    ensures |id| > |IdPrefix| && id[..|IdPrefix|] == IdPrefix
  {
    IdPrefix + IntToString(Trunc(now))
  }

  datatype Created = Created(testId: string, message: string, registry: Registry)

  /** POST /ab_test/create: writes a fresh active test under the clock's id, overwriting any test already there. */
  function Create(reg: Registry, req: CreateRequest, now: real): (r: Created)
    ensures r.testId == TestId(now)
    ensures r.registry.Keys == reg.Keys + {r.testId}
    ensures forall id :: id in reg && id != r.testId ==> r.registry[id] == reg[id]
    ensures var t := r.registry[r.testId];
            && t.name == req.testName && t.strategyA == req.strategyA && t.strategyB == req.strategyB
            && t.trafficSplit == req.trafficSplit
            && t.status == Active
            && t.a == EmptyArm && t.b == EmptyArm
            && t.startTime == now
            && t.endTime - t.startTime == 3600.0 * req.durationHours as real
    ensures r.message == "A/B test \"" + req.testName + "\" created successfully"
  {
    var id := TestId(now);
    var t := Test(req.testName, req.strategyA, req.strategyB, req.trafficSplit,
                  now, now + 3600.0 * req.durationHours as real, Active, EmptyArm, EmptyArm);
    Created(id, "A/B test \"" + req.testName + "\" created successfully", reg[id := t])
  }

  /** Two creates within the same second share an id: the second replaces the first. */
  lemma SameSecondOverwrites(reg: Registry, first: CreateRequest, second: CreateRequest, t1: real, t2: real)
    requires Trunc(t1) == Trunc(t2)
    ensures var c1 := Create(reg, first, t1);
            var c2 := Create(c1.registry, second, t2);
            && c2.testId == c1.testId
            && c2.registry.Keys == c1.registry.Keys
            && c2.registry[c2.testId].name == second.testName
  {
  }

  /** Creates in different seconds get different ids, so the earlier test survives the later create. */
  lemma DistinctSecondsKeepBoth(reg: Registry, first: CreateRequest, second: CreateRequest, t1: real, t2: real)
    requires Trunc(t1) != Trunc(t2)
    ensures var c1 := Create(reg, first, t1);
            var c2 := Create(c1.registry, second, t2);
            && c2.testId != c1.testId
            && c2.registry[c1.testId] == c1.registry[c1.testId]
  {
    var id1, id2 := TestId(t1), TestId(t2);
    if id1 == id2 {
      assert id1[|IdPrefix|..] == IntToString(Trunc(t1));
      assert id2[|IdPrefix|..] == IntToString(Trunc(t2));
      IntToStringInjective(Trunc(t1), Trunc(t2));
    }
  }

  // ---------------------------------------------------------------------------
  // Listing with lazy expiry

  /** A test is live while it is marked active and its end time has not come. */
  predicate Live(t: Test, now: real) {
    t.status == Active && now < t.endTime
  }

  /** The status update the listing applies to one test. */
  function Expire(t: Test, now: real): (u: Test)
    ensures u.(status := t.status) == t
    ensures u.status == Active <==> Live(t, now)
  {
    if t.status == Active && now >= t.endTime then t.(status := Completed) else t
  }

  datatype Listing = Listing(active: Registry, registry: Registry)

  /** GET /ab_test/active: the live tests, and the registry with every overdue active test completed. */
  function ListActive(reg: Registry, now: real): (r: Listing)
    ensures r.active.Keys <= reg.Keys
    ensures forall id :: id in reg ==> (id in r.active <==> Live(reg[id], now))
    ensures forall id :: id in r.active ==> r.active[id] == reg[id]
    ensures r.registry.Keys == reg.Keys
    ensures forall id :: id in reg ==>
      && r.registry[id].(status := reg[id].status) == reg[id]
      && (reg[id].status == Completed ==> r.registry[id].status == Completed)
      && (reg[id].status == Active && now >= reg[id].endTime ==> r.registry[id].status == Completed)
      && (Live(reg[id], now) ==> r.registry[id] == reg[id])
  {
    Listing(map id | id in reg && Live(reg[id], now) :: reg[id],
            map id | id in reg :: Expire(reg[id], now))
  }

  /** Listing twice at the same instant: the second listing sees the same tests and writes nothing new. */
  lemma ListActiveIdempotent(reg: Registry, now: real)
    ensures var once := ListActive(reg, now);
            var twice := ListActive(once.registry, now);
            twice.active == once.active && twice.registry == once.registry
  {
    var once := ListActive(reg, now);
    var twice := ListActive(once.registry, now);
    assert forall id :: id in reg ==> (Live(once.registry[id], now) <==> Live(reg[id], now));
    assert twice.active == once.active;
    assert twice.registry == once.registry;
  }

  /** Once a test has dropped out of the listing, no later listing brings it back. */
  lemma ExpiryIsFinal(reg: Registry, id: string, t1: real, t2: real)
    requires id in reg && t1 <= t2
    requires id !in ListActive(reg, t1).active
    ensures id !in ListActive(ListActive(reg, t1).registry, t2).active
  {
  }

  /** A test created with a duration of zero hours is completed by the first listing. */
  lemma ZeroHourTestExpiresAtOnce(reg: Registry, req: CreateRequest, now: real, later: real)
    requires req.durationHours == 0 && now <= later
    ensures var c := Create(reg, req, now);
            var l := ListActive(c.registry, later);
            c.testId !in l.active && l.registry[c.testId].status == Completed
  {
  }

  /** A test created with a positive duration is listed until its end time. */
  lemma NewTestListedUntilEnd(reg: Registry, req: CreateRequest, now: real, later: real)
    requires req.durationHours > 0 && now <= later < now + 3600.0 * req.durationHours as real
    ensures var c := Create(reg, req, now);
            c.testId in ListActive(c.registry, later).active
  {
  }

  /** A test created with the declared defaults splits traffic evenly and is listed for a day. */
  lemma DefaultTestListedForADay(reg: Registry, testName: string, strategyA: string, strategyB: string, now: real, later: real)
    requires now <= later < now + 86400.0
    ensures var c := Create(reg, DefaultRequest(testName, strategyA, strategyB), now);
            && c.registry[c.testId].trafficSplit == 0.5
            && c.registry[c.testId].endTime == now + 86400.0
            && c.testId in ListActive(c.registry, later).active
  {
    NewTestListedUntilEnd(reg, DefaultRequest(testName, strategyA, strategyB), now, later);
  }

  // ---------------------------------------------------------------------------
  // Recording events

  /** The event body: each field is `None` when the key is absent. */
  datatype Event = Event(strategy: Option<string>, eventType: Option<string>, value: Option<real>)

  datatype Recorded = TestNotFound | EventRecorded(registry: Registry)

  /** The arm a counter update addresses, when `strategy_<s>` names one. */
  function ArmKey(strategy: string): (k: Option<bool>)
    ensures k == Some(true) <==> strategy == "a"
    ensures k == Some(false) <==> strategy == "b"
  {
    if strategy == "a" then Some(true) else if strategy == "b" then Some(false) else None
  }

  /** The update of one arm's counters for an event type and value. */
  function Count(arm: Arm, eventType: string, value: real): (r: Arm)
    ensures eventType == "view" ==> r == arm.(views := arm.views + 1)
    ensures eventType == "conversion" ==>
      r == arm.(conversions := arm.conversions + 1, revenue := arm.revenue + value)
    ensures eventType != "view" && eventType != "conversion" ==> r == arm
  {
    if eventType == "view" then arm.(views := arm.views + 1)
    else if eventType == "conversion" then arm.(conversions := arm.conversions + 1, revenue := arm.revenue + value)
    else arm
  }

  /** POST /ab_test/{id}/record, with the defaults 'a', 'view' and 0 for absent keys. */
  function RecordEvent(reg: Registry, id: string, e: Event): (r: Recorded)
    ensures r.TestNotFound? <==> id !in reg
    ensures r.EventRecorded? ==> r.registry.Keys == reg.Keys
    ensures r.EventRecorded? ==>
      var t, u := reg[id], r.registry[id];
      var s, ty, v := e.strategy.GetOr("a"), e.eventType.GetOr("view"), e.value.GetOr(0.0);
      && (forall other :: other in reg && other != id ==> r.registry[other] == reg[other])
      && u.(a := t.a, b := t.b) == t
      && u.a == (if s == "a" then Count(t.a, ty, v) else t.a)
      && u.b == (if s == "b" then Count(t.b, ty, v) else t.b)
  {
    if id !in reg then TestNotFound
    else
      var t := reg[id];
      var ty, v := e.eventType.GetOr("view"), e.value.GetOr(0.0);
      var u := match ArmKey(e.strategy.GetOr("a"))
               case Some(true) => t.(a := Count(t.a, ty, v))
               case Some(false) => t.(b := Count(t.b, ty, v))
               case None => t;
      EventRecorded(reg[id := u])
  }

  /** An event for an arm other than 'a' or 'b', or of another type, changes nothing. */
  lemma UnknownEventChangesNothing(reg: Registry, id: string, e: Event)
    requires id in reg
    requires e.strategy.GetOr("a") !in {"a", "b"} || e.eventType.GetOr("view") !in {"view", "conversion"}
    ensures RecordEvent(reg, id, e) == EventRecorded(reg)
  {
    var r := RecordEvent(reg, id, e);
    assert r.registry[id] == reg[id];
    assert r.registry == reg;
  }

  /** Recording never touches status or times, so it never changes what the listing shows. */
  lemma RecordKeepsListing(reg: Registry, id: string, e: Event, now: real)
    requires id in reg
    ensures var r := RecordEvent(reg, id, e).registry;
            ListActive(r, now).active.Keys == ListActive(reg, now).active.Keys
  {
  }

  /** A plain view on arm 'a' is a body with no keys at all. */
  lemma EmptyBodyIsViewOnA(reg: Registry, id: string)
    requires id in reg
    ensures var r := RecordEvent(reg, id, Event(None, None, None)).registry;
            r[id].a.views == reg[id].a.views + 1 && r[id].b == reg[id].b
  {
  }

  // ---------------------------------------------------------------------------
  // Results

  datatype Winner = WinnerA | WinnerB | Tie
  datatype Significance = InsufficientData | NeedsAnalysis

  /** The analysis block, before its rounding to two decimals. */
  datatype Analysis = Analysis(
    conversionRateA: real,
    conversionRateB: real,
    avgRevenueA: real,
    avgRevenueB: real,
    winner: Winner,
    significance: Significance,
    improvement: real
  )

  datatype Report = ReportNotFound | Report(test: Test, analysis: Analysis)

  function Abs(x: real): (r: real)
    ensures r >= 0.0 && (r == x || r == -x)
  {
    if x < 0.0 then -x else x
  }

  /** Conversions per view, with at least one view in the denominator. */
  function ConversionRate(arm: Arm): (r: real)
    ensures arm.views >= 1 ==> r * arm.views as real == arm.conversions as real
    ensures arm.views < 1 ==> r == arm.conversions as real
  {
    arm.conversions as real / MaxI(arm.views, 1) as real
  }

  /** Revenue per conversion, with at least one conversion in the denominator. */
  function AverageRevenue(arm: Arm): (r: real)
    ensures arm.conversions >= 1 ==> r * arm.conversions as real == arm.revenue
    ensures arm.conversions < 1 ==> r == arm.revenue
  {
    arm.revenue / MaxI(arm.conversions, 1) as real
  }

  const TieThreshold := 0.01
  const MinimumViews := 100

  /** A tie under one percentage point, otherwise the arm with the strictly higher rate. */
  function Decide(rateA: real, rateB: real): (w: Winner)
    ensures w == Tie <==> Abs(rateA - rateB) < TieThreshold
    ensures w == WinnerA <==> rateA - rateB >= TieThreshold
    ensures w == WinnerB <==> rateB - rateA >= TieThreshold
  {
    if Abs(rateA - rateB) < TieThreshold then Tie
    else if rateA > rateB then WinnerA
    else WinnerB
  }

  /** GET /ab_test/{id}/results. It reads the registry and never returns a new one. */
  function Results(reg: Registry, id: string): (r: Report)
    ensures r.ReportNotFound? <==> id !in reg
    ensures r.Report? ==>
      var t, an := reg[id], r.analysis;
      && r.test == t
      && an.conversionRateA == 100.0 * ConversionRate(t.a)
      && an.conversionRateB == 100.0 * ConversionRate(t.b)
      && an.avgRevenueA == AverageRevenue(t.a)
      && an.avgRevenueB == AverageRevenue(t.b)
      && (an.winner == Tie <==> Abs(ConversionRate(t.a) - ConversionRate(t.b)) < TieThreshold)
      && (an.winner == WinnerA <==> ConversionRate(t.a) >= ConversionRate(t.b) + TieThreshold)
      && (an.winner == WinnerB <==> ConversionRate(t.b) >= ConversionRate(t.a) + TieThreshold)
      && (an.significance == InsufficientData <==> t.a.views + t.b.views < MinimumViews)
      && an.improvement == 100.0 * Abs(ConversionRate(t.a) - ConversionRate(t.b))
  {
    if id !in reg then ReportNotFound
    else
      var t := reg[id];
      var ra, rb := ConversionRate(t.a), ConversionRate(t.b);
      var significance := if t.a.views + t.b.views < MinimumViews then InsufficientData else NeedsAnalysis;
      Report(t, Analysis(100.0 * ra, 100.0 * rb, AverageRevenue(t.a), AverageRevenue(t.b),
                         Decide(ra, rb), significance, 100.0 * Abs(ra - rb)))
  }

  /** With no more conversions than views, a conversion rate is a fraction. */
  lemma RateIsFraction(arm: Arm)
    requires 0 <= arm.conversions <= arm.views
    ensures 0.0 <= ConversionRate(arm) <= 1.0
  {
    var d := MaxI(arm.views, 1) as real;
    var r := ConversionRate(arm);
    assert r * d == arm.conversions as real;
    assert (1.0 - r) * d == d - arm.conversions as real;
    SignOfFactor(r, d);
    SignOfFactor(1.0 - r, d);
  }

  /** Swapping the two arms swaps the verdict and leaves a tie a tie. */
  lemma DecideSymmetric(rateA: real, rateB: real)
    ensures Decide(rateA, rateB) == Tie <==> Decide(rateB, rateA) == Tie
    ensures Decide(rateA, rateB) == WinnerA <==> Decide(rateB, rateA) == WinnerB
  {
  }

  /**
    The threshold is absolute, not relative: 10% against 10.4% is a tie,
    and so is 0.5% against 1.4%, though the second arm converts almost
    three times as often.
   */
  lemma AbsoluteThreshold()
    ensures Decide(0.1, 0.104) == Tie
    ensures Decide(0.005, 0.014) == Tie
    ensures Decide(0.1, 0.11) == WinnerB
  {
  }

  /** A freshly created test reports a tie on insufficient data. */
  lemma FreshTestReport(reg: Registry, req: CreateRequest, now: real)
    ensures var c := Create(reg, req, now);
            var r := Results(c.registry, c.testId);
            && r.Report?
            && r.analysis.winner == Tie
            && r.analysis.significance == InsufficientData
            && r.analysis.conversionRateA == 0.0 && r.analysis.conversionRateB == 0.0
  {
  }
}
