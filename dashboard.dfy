/** The admin dashboard: the calendar windows the monthly figures compare,
    the twelve-slot month charts (earnings and leads), the device-visit
    shares, the campaign table with its padding row, and the endpoint that
    records a page visit. The database's aggregations are the inputs. */
module Dashboard {
  import opened Common
  import opened Orders

  // ---------------------------------------------------------------------
  // Month windows
  // ---------------------------------------------------------------------

  /** A calendar month; `month` counts from 0 (January) as `getMonth` does. */
  datatype YearMonth = YearMonth(year: int, month: int)

  predicate ValidMonth(ym: YearMonth) {
    0 <= ym.month < 12
  }

  /** Months counted from year 0. */
  function Ordinal(ym: YearMonth): int {
    ym.year * 12 + ym.month
  }

  /** `new Date(year, month, 1)`: a month outside 0..11 rolls over into
      the neighbouring years. */
  function MonthStart(year: int, month: int): (ym: YearMonth)
    ensures ValidMonth(ym)
    ensures Ordinal(ym) == year * 12 + month
  {
    YearMonth(year + month / 12, month % 12)
  }

  /** The instant a local calendar month begins. */
  type Calendar = YearMonth -> int

  /** The current window is [first of this month, first of next month),
      the previous one [first of last month, first of this month). */
  datatype Windows = Windows(currentStart: int, nextStart: int, previousStart: int, previousEnd: int)

  function MonthWindows(cal: Calendar, now: YearMonth): Windows {
    var current := MonthStart(now.year, now.month);
    Windows(cal(current), cal(MonthStart(now.year, now.month + 1)), cal(MonthStart(now.year, now.month - 1)), cal(current))
  }

  predicate InCurrent(w: Windows, t: int) {
    w.currentStart <= t < w.nextStart
  }

  predicate InPrevious(w: Windows, t: int) {
    w.previousStart <= t < w.previousEnd
  }

  /** The three month starts are consecutive months, this month's start is
      `now`'s own month, and the two windows meet: no instant lies in both,
      and together they cover exactly last month and this month. */
  lemma WindowsAdjacent(cal: Calendar, now: YearMonth, t: int)
    requires ValidMonth(now)
    requires cal(MonthStart(now.year, now.month - 1)) <= cal(now) <= cal(MonthStart(now.year, now.month + 1))
    ensures Ordinal(MonthStart(now.year, now.month - 1)) + 1 == Ordinal(now)
    ensures Ordinal(now) + 1 == Ordinal(MonthStart(now.year, now.month + 1))
    ensures MonthWindows(cal, now).previousEnd == MonthWindows(cal, now).currentStart == cal(now)
    ensures !(InPrevious(MonthWindows(cal, now), t) && InCurrent(MonthWindows(cal, now), t))
    ensures InPrevious(MonthWindows(cal, now), t) || InCurrent(MonthWindows(cal, now), t) <==>
      MonthWindows(cal, now).previousStart <= t < MonthWindows(cal, now).nextStart
  {
    assert MonthStart(now.year, now.month) == now;
  }

  // ---------------------------------------------------------------------
  // Twelve-slot month charts
  // ---------------------------------------------------------------------

  /** One row of a `$group` by `$month`: the month, 1 to 12, and its value. */
  datatype MonthGroup<T> = MonthGroup(month: int, value: T)

  predicate MonthsInRange<T>(groups: seq<MonthGroup<T>>) {
    forall k :: 0 <= k < |groups| ==> 1 <= groups[k].month <= 12
  }

  predicate DistinctMonths<T>(groups: seq<MonthGroup<T>>) {
    forall i, j :: 0 <= i < j < |groups| ==> groups[i].month != groups[j].month
  }

  /** The value the `forEach` leaves in a month's slot: the last row for
      that month, if any. */
  function LastFor<T>(groups: seq<MonthGroup<T>>, month: int): (r: Option<T>)
    ensures r.None? <==> forall k :: 0 <= k < |groups| ==> groups[k].month != month
  {
    if groups == [] then None
    else if groups[|groups| - 1].month == month then Some(groups[|groups| - 1].value)
    else LastFor(groups[..|groups| - 1], month)
  }

  function SlotValue<T>(groups: seq<MonthGroup<T>>, month: int, zero: T): T {
    match LastFor(groups, month)
    case None => zero
    case Some(v) => v
  }

  lemma LastForSnoc<T>(groups: seq<MonthGroup<T>>, g: MonthGroup<T>)
    ensures forall month :: LastFor(groups + [g], month) == if g.month == month then Some(g.value) else LastFor(groups, month)
  {
    assert (groups + [g])[..|groups|] == groups;
  }

  /** With one row per month, as a `$group` yields, a month's slot holds
      that month's row. */
  lemma {:induction false} SlotOfGroup<T>(groups: seq<MonthGroup<T>>, k: nat, zero: T)
    requires DistinctMonths(groups) && k < |groups|
    ensures SlotValue(groups, groups[k].month, zero) == groups[k].value
  {
    if k < |groups| - 1 {
      var init := groups[..|groups| - 1];
      assert init[k] == groups[k];
      assert DistinctMonths(init);
      SlotOfGroup(init, k, zero);
    }
  }

  /** The earnings report's arrays: slot m - 1 holds month m's delivered
      total (and 80% of it for the profit series); other slots stay 0. */
  method EarningsSlots(groups: seq<MonthGroup<real>>) returns (dataA: array<real>, dataB: array<real>)
    requires MonthsInRange(groups)
    ensures fresh(dataA) && fresh(dataB) && dataA.Length == 12 && dataB.Length == 12
    ensures forall m :: 0 <= m < 12 ==> dataA[m] == SlotValue(groups, m + 1, 0.0)
    ensures forall m :: 0 <= m < 12 ==> dataB[m] == SlotValue(groups, m + 1, 0.0) * ProfitShare
  {
    dataA := new real[12](_ => 0.0);
    dataB := new real[12](_ => 0.0);
    var k := 0;
    while k < |groups|
      invariant 0 <= k <= |groups|
      invariant forall m :: 0 <= m < 12 ==> dataA[m] == SlotValue(groups[..k], m + 1, 0.0)
      invariant forall m :: 0 <= m < 12 ==> dataB[m] == SlotValue(groups[..k], m + 1, 0.0) * ProfitShare
    {
      var g := groups[k];
      assert groups[..k + 1] == groups[..k] + [g];
      LastForSnoc(groups[..k], g);
      dataA[g.month - 1] := g.value;
      dataB[g.month - 1] := g.value * ProfitShare;
      k := k + 1;
    }
    assert groups[..k] == groups;
  }

  /** The top-leads array: slot m - 1 holds month m's message count; other
      slots stay 0. */
  method LeadSlots(groups: seq<MonthGroup<nat>>) returns (data: array<nat>)
    requires MonthsInRange(groups)
    ensures fresh(data) && data.Length == 12
    ensures forall m :: 0 <= m < 12 ==> data[m] == SlotValue(groups, m + 1, 0)
  {
    data := new nat[12](_ => 0);
    var k := 0;
    while k < |groups|
      invariant 0 <= k <= |groups|
      invariant forall m :: 0 <= m < 12 ==> data[m] == SlotValue(groups[..k], m + 1, 0)
    {
      var g := groups[k];
      assert groups[..k + 1] == groups[..k] + [g];
      LastForSnoc(groups[..k], g);
      data[g.month - 1] := g.value;
      k := k + 1;
    }
    assert groups[..k] == groups;
  }

  /** The share of earnings reported as profit, and as tax and expense. */
  const ProfitShare: real := 0.8
  const TaxShare: real := 0.1

  /** The `reduce` over a series. */
  function Total(s: seq<real>): real {
    if s == [] then 0.0 else s[0] + Total(s[1..])
  }

  /** Scaling every slot scales the total. */
  lemma {:induction false} TotalScaled(a: seq<real>, b: seq<real>, c: real)
    requires |a| == |b| && forall k :: 0 <= k < |a| ==> b[k] == a[k] * c
    ensures Total(b) == Total(a) * c
  {
    if a != [] {
      TotalScaled(a[1..], b[1..], c);
    }
  }

  datatype EarningsSummary = EarningsSummary(earnings: real, profit: real, tax: real, expense: real)

  /** `GET /earnings-report`: the two series and their summary; the profit
      is 80% and tax and expense each 10% of the earnings. */
  method EarningsReport(groups: seq<MonthGroup<real>>) returns (dataA: seq<real>, dataB: seq<real>, summary: EarningsSummary)
    requires MonthsInRange(groups)
    ensures |dataA| == 12 && |dataB| == 12
    ensures forall m :: 0 <= m < 12 ==> dataA[m] == SlotValue(groups, m + 1, 0.0)
    ensures forall m :: 0 <= m < 12 ==> dataB[m] == dataA[m] * ProfitShare
    ensures summary.earnings == Total(dataA)
    ensures summary.profit == summary.earnings * ProfitShare
    ensures summary.tax == summary.expense == summary.earnings * TaxShare
  {
    var a, b := EarningsSlots(groups);
    dataA, dataB := a[..], b[..];
    TotalScaled(dataA, dataB, ProfitShare);
    var earnings := Total(dataA);
    summary := EarningsSummary(earnings, Total(dataB), earnings * TaxShare, earnings * TaxShare);
  }

  // ---------------------------------------------------------------------
  // Device visits
  // ---------------------------------------------------------------------

  /** One row of the `$group` by device. */
  datatype DeviceGroup = DeviceGroup(device: string, count: nat)

  function TotalCount(groups: seq<DeviceGroup>): nat {
    if groups == [] then 0 else TotalCount(groups[..|groups| - 1]) + groups[|groups| - 1].count
  }

  /** The count of the last row named `name`, if any. */
  function LastNamed(groups: seq<DeviceGroup>, name: string): (r: Option<nat>)
    ensures r.None? <==> forall k :: 0 <= k < |groups| ==> groups[k].device != name
  {
    if groups == [] then None
    else if groups[|groups| - 1].device == name then Some(groups[|groups| - 1].count)
    else LastNamed(groups[..|groups| - 1], name)
  }

  /** A row's share of all visits, in percent (0 when there are none). */
  function Percent(count: nat, total: nat): real {
    if total > 0 then (count as real) / (total as real) * 100.0 else 0.0
  }

  /** The share reported for a device: its row's share, or 0 without a
      row. */
  function Share(groups: seq<DeviceGroup>, name: string): real {
    ShareOf(groups, name, TotalCount(groups))
  }

  /** The share the loop has assigned after visiting `groups`, out of
      `total` visits. */
  function ShareOf(groups: seq<DeviceGroup>, name: string, total: nat): real {
    match LastNamed(groups, name)
    case None => 0.0
    case Some(c) => Percent(c, total)
  }

  lemma ShareOfSnoc(groups: seq<DeviceGroup>, g: DeviceGroup, total: nat)
    ensures forall name :: ShareOf(groups + [g], name, total) ==
                           if g.device == name then Percent(g.count, total) else ShareOf(groups, name, total)
  {
    assert (groups + [g])[..|groups|] == groups;
  }

  /** `GET /device-visits`: each of the three devices gets its row's share
      of the total; a device without a row stays 0 and rows under other
      names are ignored. */
  method DeviceVisits(groups: seq<DeviceGroup>) returns (mobile: real, tablet: real, web: real)
    ensures mobile == Share(groups, "Mobile") && tablet == Share(groups, "Tablet") && web == Share(groups, "Web")
  {
    var total := TotalCount(groups);
    mobile, tablet, web := 0.0, 0.0, 0.0;
    var k := 0;
    while k < |groups|
      invariant 0 <= k <= |groups|
      invariant mobile == ShareOf(groups[..k], "Mobile", total)
      invariant tablet == ShareOf(groups[..k], "Tablet", total)
      invariant web == ShareOf(groups[..k], "Web", total)
    {
      var g := groups[k];
      assert groups[..k + 1] == groups[..k] + [g];
      ShareOfSnoc(groups[..k], g, total);
      var percent := Percent(g.count, total);
      if g.device == "Mobile" { mobile := percent; }
      if g.device == "Tablet" { tablet := percent; }
      if g.device == "Web" { web := percent; }
      k := k + 1;
    }
    assert groups[..k] == groups;
  }

  /** The devices a visit may record. */
  predicate KnownDevice(d: string) {
    d == "Mobile" || d == "Tablet" || d == "Web"
  }

  function CountFor(groups: seq<DeviceGroup>, name: string): nat {
    if groups == [] then 0
    else CountFor(groups[..|groups| - 1], name) + (if groups[|groups| - 1].device == name then groups[|groups| - 1].count else 0)
  }

  lemma {:induction false} TotalIsSumOfDevices(groups: seq<DeviceGroup>)
    requires forall k :: 0 <= k < |groups| ==> KnownDevice(groups[k].device)
    ensures TotalCount(groups) == CountFor(groups, "Mobile") + CountFor(groups, "Tablet") + CountFor(groups, "Web")
  {
    if groups != [] {
      TotalIsSumOfDevices(groups[..|groups| - 1]);
    }
  }

  lemma {:induction false} LastNamedIsCount(groups: seq<DeviceGroup>, name: string)
    requires forall i, j :: 0 <= i < j < |groups| ==> groups[i].device != groups[j].device
    ensures LastNamed(groups, name).Some? ==> LastNamed(groups, name).value == CountFor(groups, name)
    ensures LastNamed(groups, name).None? ==> CountFor(groups, name) == 0
  {
    if groups != [] {
      var init := groups[..|groups| - 1];
      LastNamedIsCount(init, name);
      if groups[|groups| - 1].device == name {
        assert forall k :: 0 <= k < |init| ==> init[k].device != name by {
          forall k | 0 <= k < |init| ensures init[k].device != name {
            assert init[k] == groups[k];
          }
        }
      }
    }
  }

  /** With one row per device, as a `$group` yields, and only the three
      known devices recorded, the three shares add up to 100% whenever any
      visit was recorded (before the display rounding). */
  lemma SharesAddUp(groups: seq<DeviceGroup>)
    requires forall i, j :: 0 <= i < j < |groups| ==> groups[i].device != groups[j].device
    requires forall k :: 0 <= k < |groups| ==> KnownDevice(groups[k].device)
    requires TotalCount(groups) > 0
    ensures Share(groups, "Mobile") + Share(groups, "Tablet") + Share(groups, "Web") == 100.0
  {
    TotalIsSumOfDevices(groups);
    ShareIsCount(groups, "Mobile");
    ShareIsCount(groups, "Tablet");
    ShareIsCount(groups, "Web");
    SharesOfWhole(CountFor(groups, "Mobile") as real, CountFor(groups, "Tablet") as real,
      CountFor(groups, "Web") as real, TotalCount(groups) as real);
  }

  lemma ShareIsCount(groups: seq<DeviceGroup>, name: string)
    requires forall i, j :: 0 <= i < j < |groups| ==> groups[i].device != groups[j].device
    requires TotalCount(groups) > 0
    ensures Share(groups, name) == (CountFor(groups, name) as real) / (TotalCount(groups) as real) * 100.0
  {
    LastNamedIsCount(groups, name);
  }

  lemma SharesOfWhole(m: real, b: real, w: real, t: real)
    requires t > 0.0 && m + b + w == t
    ensures m / t * 100.0 + b / t * 100.0 + w / t * 100.0 == 100.0
  {
    assert m / t + b / t + w / t == (m + b + w) / t;
  }

  // ---------------------------------------------------------------------
  // Campaign table
  // ---------------------------------------------------------------------

  /** One row of the `$group` by payment method over delivered orders. */
  datatype ChannelGroup = ChannelGroup(channel: Option<string>, totalSales: real, count: nat)

  datatype CampaignRow = CampaignRow(source: string, medium: string, campaign: string, clicks: nat, conversion: real)

  const PaymentGateway: string := "Payment Gateway"

  /** The source and medium a payment channel is reported under. */
  function SourceMedium(channel: Option<string>): (r: (string, string))
    ensures channel == Some("cod") ==> r == ("Offline", "Cash")
    ensures channel == Some("stripe") || channel == Some("paypal") ==> r == (PaymentGateway, "Online")
    ensures !(channel == Some("cod") || channel == Some("stripe") || channel == Some("paypal")) ==>
      r == ("Unknown", "Unknown")
  {
    if channel == Some("cod") then ("Offline", "Cash")
    else if channel == Some("stripe") || channel == Some("paypal") then (PaymentGateway, "Online")
    else ("Unknown", "Unknown")
  }

  /** The orders' payment-method enum holds neither `stripe` nor `paypal`,
      so no stored order is ever reported under the payment gateway: cash
      on delivery is offline, every other method unknown. */
  lemma StoredMethodsNeverGateway(m: PaymentMethod)
    ensures SourceMedium(Some(m.Name())).0 != PaymentGateway
    ensures SourceMedium(Some(m.Name())) == if m == Cod then ("Offline", "Cash") else ("Unknown", "Unknown")
  {
  }

  function CampaignRowOf(g: ChannelGroup): (r: CampaignRow)
    requires g.count > 0
    ensures r.campaign == OrElse(g.channel, "Unknown") && r.clicks == g.count
    ensures (r.source, r.medium) == SourceMedium(g.channel)
  {
    var (source, medium) := SourceMedium(g.channel);
    CampaignRow(source, medium, OrElse(g.channel, "Unknown"), g.count, g.totalSales / (g.count as real) / 100.0)
  }

  /** The placeholder row appended to a short table. */
  const Placeholder: CampaignRow := CampaignRow("Social", "Instagram", "Q4_Ad", 400, 3.0)
  const MinCampaignRows: nat := 3

  /** `GET /campaign-source`: one row per channel in the database's order,
      then exactly one placeholder row when fewer than three rows exist. */
  method CampaignSource(groups: seq<ChannelGroup>) returns (rows: seq<CampaignRow>)
    requires forall k :: 0 <= k < |groups| ==> groups[k].count > 0
    ensures |rows| == |groups| + (if |groups| < MinCampaignRows then 1 else 0)
    ensures forall k :: 0 <= k < |groups| ==> rows[k] == CampaignRowOf(groups[k])
    ensures |groups| < MinCampaignRows ==> rows[|groups|] == Placeholder
  {
    rows := [];
    var k := 0;
    while k < |groups|
      invariant 0 <= k <= |groups| && |rows| == k
      invariant forall j :: 0 <= j < k ==> rows[j] == CampaignRowOf(groups[j])
    {
      rows := rows + [CampaignRowOf(groups[k])];
      k := k + 1;
    }
    if |rows| < MinCampaignRows {
      rows := rows + [Placeholder];
    }
  }

  // ---------------------------------------------------------------------
  // Recording a visit
  // ---------------------------------------------------------------------

  /** One document of the traffic collection. */
  datatype Visit = Visit(device: string, browser: string, source: string, pageUrl: string, createdAt: int)

  /** The traffic collection. */
  class TrafficLog {
    var visits: seq<Visit>

    /** Every stored visit names a known device and a page. */
    ghost predicate Valid()
      reads this
    {
      forall k :: 0 <= k < |visits| ==> KnownDevice(visits[k].device) && visits[k].pageUrl != ""
    }

    constructor ()
      ensures visits == [] && Valid()
    {
      visits := [];
    }

    /** `POST /traffic-source`: 400 without a device or a page; a device
        outside the schema's three fails validation, which this route
        answers with 500; otherwise the visit is stored with the browser
        defaulting to `Unknown` and the source to `direct` (201). */
    method Record(device: Option<string>, browser: Option<string>, source: Option<string>,
                  pageUrl: Option<string>, now: int) returns (code: nat)
      requires Valid()
      modifies this
      ensures Valid()
      ensures !Truthy(device) || !Truthy(pageUrl) ==> code == BadRequestStatus && visits == old(visits)
      ensures Truthy(device) && Truthy(pageUrl) && !KnownDevice(device.value) ==>
        code == ServerErrorStatus && visits == old(visits)
      ensures Truthy(device) && Truthy(pageUrl) && KnownDevice(device.value) ==>
        && code == CreatedStatus
        && visits == old(visits) + [Visit(device.value, OrElse(browser, "Unknown"), OrElse(source, "direct"), pageUrl.value, now)]
    {
      if !Truthy(device) || !Truthy(pageUrl) {
        return BadRequestStatus;
      }
      if !KnownDevice(device.value) {
        return ServerErrorStatus;
      }
      visits := visits + [Visit(device.value, OrElse(browser, "Unknown"), OrElse(source, "direct"), pageUrl.value, now)];
      code := CreatedStatus;
    }
  }
}
