/**
 * One simulated day of one store: the multiplicative sales model, the noise
 * and promotion steps, the guest count derived from a sampled ticket, and the
 * record the generator stores for the (store, date) pair.
 *
 * Every random number is an input. A normal draw arrives as a standard score
 * `z` and becomes `mean + sd * z`, which is how `np.random.normal(mean, sd)`
 * scales its standard normal sample; `random.random()` arrives as `promo`.
 * Amounts are exact reals, so no floating-point rounding enters.
 */
module Simulation {
  import opened Calendar
  import opened Stores

  /** Multipliers by weekday, Monday first. */
  const DowMultipliers: seq<real> := [0.8, 0.85, 0.9, 0.95, 1.2, 1.3, 1.1]

  /** Multipliers by month, January first. */
  const SeasonalMultipliers: seq<real> := [0.85, 0.9, 1.0, 1.05, 1.1, 1.15, 1.2, 1.15, 1.0, 0.95, 1.1, 1.25]

  const HolidayMultiplier: real := 0.4
  const WeatherFloor: real := 0.5
  const PromoProbability: real := 0.15
  const PromoSalesMultiplier: real := 1.25
  const PromoGuestMultiplier: real := 1.4
  const TicketFloor: real := 5.0

  /**
   * The random outcomes for one record, in the order the generator draws
   * them: weather and noise (numpy), the promotion coin (`random.random()`),
   * then the ticket (numpy).
   */
  datatype RecordDraw = RecordDraw(weatherZ: real, noiseZ: real, promo: real, ticketZ: real)

  /** The simulated figures of one store on one day, before they are stored. */
  datatype DayFigures = DayFigures(
    weatherEffect: real,
    promotionActive: bool,
    totalSales: real,
    guestCount: int,
    avgTicket: real)

  /** Sales and guests of one day, before the average ticket is computed back. */
  datatype SalesOutcome = SalesOutcome(promotionActive: bool, totalSales: real, guestCount: int)

  datatype SalesRecord = SalesRecord(
    date: Date,
    storeId: string,
    storeType: StoreType,
    region: Region,
    dayOfWeek: int,
    month: int,
    quarter: int,
    year: int,
    weekOfYear: int,
    isWeekend: bool,
    isHoliday: bool,
    promotionActive: bool,
    totalSales: real,
    guestCount: int,
    avgTicket: real,
    weatherFactor: real)

  // ---------------------------------------------------------------------
  // Lookup tables

  function DowEffect(dow: int): (r: real)
    requires 0 <= dow < |DowMultipliers|
    ensures 0.8 <= r <= 1.3
    ensures dow >= 5 ==> r >= 1.1
  {
    DowMultipliers[dow]
  }

  function SeasonalEffect(month: int): (r: real)
    requires 1 <= month <= |SeasonalMultipliers|
    ensures 0.85 <= r <= 1.25
  {
    SeasonalMultipliers[month - 1]
  }

  function TypeEffect(t: StoreType): (r: real)
    ensures 0.9 <= r <= 1.3
  {
    match t
    case Urban => 1.1
    case Suburban => 1.0
    case Highway => 0.9
    case Mall => 1.2
    case Airport => 1.3
  }

  /**
   * 0.4 on a listed holiday, 1.0 otherwise. The generator tests the printed date
   * against the holiday texts; `IsHolidayByDate` shows that test is membership of
   * the eight holiday dates, which is the test written here.
   */
  function HolidayEffect(d: Date): (r: real)
    requires ValidDate(d)
    ensures r == HolidayMultiplier || r == 1.0
    ensures r < 1.0 <==> d in HolidayDates
  {
    if d in HolidayDates then HolidayMultiplier else 1.0
  }

  /** The mean of the ticket draw: 15.0 at airports, 11.0 in malls, 12.5 elsewhere. */
  function TicketMean(t: StoreType): (r: real)
    ensures 11.0 <= r <= 15.0
  {
    if t == Airport then 15.0 else if t == Mall then 11.0 else 12.5
  }

  // ---------------------------------------------------------------------
  // The pipeline, one step per function

  /** `max(0.5, np.random.normal(1.0, 0.1))`. */
  function WeatherEffect(z: real): (r: real)
    ensures r >= WeatherFloor
    ensures r >= 1.0 + 0.1 * z
    ensures 1.0 + 0.1 * z >= WeatherFloor ==> r == 1.0 + 0.1 * z
    ensures 1.0 + 0.1 * z < WeatherFloor ==> r == WeatherFloor
  {
    var sample := 1.0 + 0.1 * z;
    if sample > WeatherFloor then sample else WeatherFloor
  }

  /** The product of the baseline and the six effects, before noise. */
  function ExpectedSales(store: StoreMeta, d: Date, weather: real): real
    requires ValidDate(d)
  {
    Effects(store.avgDailyBaseline as real, DowEffect(Weekday(d)), SeasonalEffect(d.month), HolidayEffect(d),
            weather, TypeEffect(store.storeType), store.sizeFactor)
  }

  /** The baseline times the six effects, in the order the generator multiplies them. */
  function Effects(baseline: real, dow: real, season: real, holiday: real, weather: real, kind: real, size: real): real
  {
    baseline * dow * season * holiday * weather * kind * size
  }

  /** Every effect is positive, so the expected sales are non-negative whenever the baseline, the size factor and the weather are. */
  lemma ExpectedSalesNonNegative(store: StoreMeta, d: Date, weather: real)
    requires ValidDate(d)
    ensures store.avgDailyBaseline >= 0 && store.sizeFactor >= 0.0 && weather >= 0.0 ==> ExpectedSales(store, d, weather) >= 0.0
  {
    NonNegativeProduct(store.avgDailyBaseline as real, DowEffect(Weekday(d)), SeasonalEffect(d.month), HolidayEffect(d),
                       weather, TypeEffect(store.storeType), store.sizeFactor);
  }

  /** A product of seven factors is non-negative when all of them are. */
  lemma NonNegativeProduct(a: real, b: real, c: real, e: real, f: real, g: real, h: real)
    ensures a >= 0.0 && b >= 0.0 && c >= 0.0 && e >= 0.0 && f >= 0.0 && g >= 0.0 && h >= 0.0 ==> Effects(a, b, c, e, f, g, h) >= 0.0
  {
    if a >= 0.0 && b >= 0.0 && c >= 0.0 && e >= 0.0 && f >= 0.0 && g >= 0.0 && h >= 0.0 {
      var p := a * b;
      assert p >= 0.0;
      p := p * c;
      assert p >= 0.0;
      p := p * e;
      assert p >= 0.0;
      p := p * f;
      assert p >= 0.0;
      p := p * g;
      assert p >= 0.0;
    }
  }

  /** `max(0, sales + np.random.normal(0, 50))`. */
  function NoisySales(sales: real, z: real): (r: real)
    ensures r >= 0.0
    ensures r >= sales + 50.0 * z
    ensures sales + 50.0 * z >= 0.0 ==> r == sales + 50.0 * z
    ensures sales + 50.0 * z < 0.0 ==> r == 0.0
  {
    var noisy := sales + 50.0 * z;
    if 0.0 > noisy then 0.0 else noisy
  }

  /** `random.random() < 0.15`. */
  predicate PromoActive(u: real)
  {
    u < PromoProbability
  }

  /** Sales after the promotion step: raised by a quarter when a promotion runs. */
  function PromoSales(sales: real, promo: bool): (r: real)
    ensures promo ==> r == sales * PromoSalesMultiplier
    ensures !promo ==> r == sales
    ensures sales >= 0.0 ==> r >= sales
  {
    if promo then sales * PromoSalesMultiplier else sales
  }

  /** `max(5.0, np.random.normal(mean, 2.0))` with the mean of the store's type. */
  function SampledTicket(t: StoreType, z: real): (r: real)
    ensures r >= TicketFloor
    ensures TicketMean(t) + 2.0 * z >= TicketFloor ==> r == TicketMean(t) + 2.0 * z
    ensures TicketMean(t) + 2.0 * z < TicketFloor ==> r == TicketFloor
  {
    var sample := TicketMean(t) + 2.0 * z;
    if TicketFloor > sample then TicketFloor else sample
  }

  /** Python's `int(x)` on a float: rounds toward zero. */
  function Trunc(x: real): (r: int)
    ensures x >= 0.0 ==> 0 <= r && r as real <= x < r as real + 1.0
    ensures x < 0.0 ==> r <= 0 && x <= r as real < x + 1.0
  {
    if x >= 0.0 then x.Floor else -((-x).Floor)
  }

  /** `int(total_sales / avg_ticket)`: whole tickets that fit into the sales. */
  function GuestCount(sales: real, ticket: real): (g: int)
    requires ticket > 0.0
    ensures sales >= 0.0 ==> 0 <= g
    ensures sales >= 0.0 ==> g as real * ticket <= sales < (g as real + 1.0) * ticket
  {
    if sales >= 0.0 then TruncQuotient(sales, ticket); Trunc(sales / ticket)
    else Trunc(sales / ticket)
  }

  /** Truncating a non-negative quotient counts the whole multiples of the divisor. */
  lemma TruncQuotient(s: real, t: real)
    requires t > 0.0 && s >= 0.0
    ensures 0 <= Trunc(s / t)
    ensures Trunc(s / t) as real * t <= s < (Trunc(s / t) as real + 1.0) * t
  {
    var q := s / t;
    assert q * t == s;
    assert q >= 0.0;
    var g := Trunc(q);
    var h := g as real + 1.0;
    ScaleBounds(g as real, q, h, t);
    assert q * t < h * t;
    assert s < h * t;
  }

  /** Multiplying a chain `lo <= x < hi` by a positive `t`. */
  lemma ScaleBounds(lo: real, x: real, hi: real, t: real)
    requires t > 0.0 && lo <= x < hi
    ensures lo * t <= x * t < hi * t
  {
  }

  /** `int(guest_count * 1.4)` when a promotion runs, the count itself otherwise. */
  function PromoGuests(g: int, promo: bool): (r: int)
    ensures !promo ==> r == g
    ensures promo && g >= 0 ==> g <= r && r as real <= g as real * PromoGuestMultiplier
    ensures promo && g >= 0 ==> g as real * PromoGuestMultiplier < r as real + 1.0
  {
    if promo then Trunc(g as real * PromoGuestMultiplier) else g
  }

  /** The stored average ticket times the guest count gives back the sales, whenever there are guests. */
  predicate TicketConsistent(sales: real, g: int, ticket: real)
  {
    g > 0 ==> ticket * g as real == sales
  }

  /** `total_sales / guest_count if guest_count > 0 else 0`. */
  function AvgTicket(sales: real, g: int): (r: real)
    ensures TicketConsistent(sales, g, r)
    ensures g <= 0 ==> r == 0.0
  {
    if g > 0 then sales / g as real else 0.0
  }

  /** The whole pipeline for one store on one day. */
  function SimulateDay(store: StoreMeta, d: Date, draw: RecordDraw): (f: DayFigures)
    requires ValidDate(d)
    ensures f.weatherEffect >= WeatherFloor
    ensures f.promotionActive <==> draw.promo < PromoProbability
    ensures f.totalSales >= 0.0 && f.guestCount >= 0
    ensures TicketConsistent(f.totalSales, f.guestCount, f.avgTicket)
    ensures f.guestCount == 0 ==> f.avgTicket == 0.0
  {
    var weather := WeatherEffect(draw.weatherZ);
    AfterExpected(weather, ExpectedSales(store, d, weather), store.storeType, draw)
  }

  /** The steps after the multiplicative model, then the average ticket computed back from them. */
  function AfterExpected(weather: real, expected: real, t: StoreType, draw: RecordDraw): (f: DayFigures)
    requires weather >= WeatherFloor
    ensures f.weatherEffect == weather
    ensures f.promotionActive <==> draw.promo < PromoProbability
    ensures f.totalSales >= 0.0 && f.guestCount >= 0
    ensures TicketConsistent(f.totalSales, f.guestCount, f.avgTicket)
    ensures f.guestCount == 0 ==> f.avgTicket == 0.0
  {
    var o := SalesAndGuests(expected, t, draw);
    DayFigures(weather, o.promotionActive, o.totalSales, o.guestCount, AvgTicket(o.totalSales, o.guestCount))
  }

  /** Noise, clamp, promotion, ticket draw, guest count and promotion uplift. */
  function SalesAndGuests(expected: real, t: StoreType, draw: RecordDraw): (o: SalesOutcome)
    ensures o.promotionActive <==> draw.promo < PromoProbability
    ensures o.totalSales >= 0.0 && o.guestCount >= 0
  {
    var noisy := NoisySales(expected, draw.noiseZ);
    var promo := PromoActive(draw.promo);
    var sales := PromoSales(noisy, promo);
    var ticket := SampledTicket(t, draw.ticketZ);
    var guests := PromoGuests(GuestCount(sales, ticket), promo);
    SalesOutcome(promo, sales, guests)
  }

  /** The stored record for one store on one day, calendar fields included. */
  function MakeRecord(store: StoreMeta, d: Date, draw: RecordDraw): (r: SalesRecord)
    requires ValidDate(d)
    ensures r.date == d && r.storeId == store.storeId
    ensures r.storeType == store.storeType && r.region == store.region
    ensures var f := SimulateDay(store, d, draw);
      && r.promotionActive == f.promotionActive && r.totalSales == f.totalSales
      && r.guestCount == f.guestCount && r.avgTicket == f.avgTicket && r.weatherFactor == f.weatherEffect
    ensures WellFormed(r)
  {
    Assemble(store, d, FieldsOf(d), HolidayEffect(d) < 1.0, SimulateDay(store, d, draw))
  }

  /** Puts the calendar columns, the holiday flag and the simulated figures into one record. */
  function Assemble(store: StoreMeta, d: Date, c: DayFields, holiday: bool, f: DayFigures): (r: SalesRecord)
    requires ValidDate(d)
    requires c.dayOfWeek == Weekday(d) && c.month == d.month && c.year == d.year
    requires 1 <= c.quarter <= 4 && 3 * c.quarter - 2 <= c.month <= 3 * c.quarter
    requires c.weekOfYear == WeekOfYear(d) && 1 <= c.weekOfYear <= 53
    requires c.isWeekend <==> c.dayOfWeek == 5 || c.dayOfWeek == 6
    requires holiday <==> d in HolidayDates
    requires f.weatherEffect >= WeatherFloor
    requires f.totalSales >= 0.0 && f.guestCount >= 0
    requires TicketConsistent(f.totalSales, f.guestCount, f.avgTicket)
    requires f.guestCount == 0 ==> f.avgTicket == 0.0
    ensures r.date == d && r.storeId == store.storeId
    ensures r.storeType == store.storeType && r.region == store.region
    ensures r.promotionActive == f.promotionActive && r.totalSales == f.totalSales
    ensures r.guestCount == f.guestCount && r.avgTicket == f.avgTicket && r.weatherFactor == f.weatherEffect
    ensures r.isHoliday == holiday && r.isWeekend == c.isWeekend && r.weekOfYear == c.weekOfYear
    ensures WellFormed(r)
  {
    SalesRecord(
      d, store.storeId, store.storeType, store.region,
      c.dayOfWeek, c.month, c.quarter, c.year, c.weekOfYear, c.isWeekend, holiday,
      f.promotionActive, f.totalSales, f.guestCount, f.avgTicket, f.weatherEffect)
  }

  /** What every stored record satisfies, whatever the random draws were. */
  predicate WellFormed(r: SalesRecord)
  {
    && ValidDate(r.date)
    && r.dayOfWeek == Weekday(r.date)
    && (r.isWeekend <==> r.dayOfWeek == 5 || r.dayOfWeek == 6)
    && r.month == r.date.month && r.year == r.date.year
    && 1 <= r.quarter <= 4 && 3 * r.quarter - 2 <= r.month <= 3 * r.quarter
    && r.weekOfYear == WeekOfYear(r.date) && 1 <= r.weekOfYear <= 53
    && (r.isHoliday <==> r.date in HolidayDates)
    && r.totalSales >= 0.0
    && r.guestCount >= 0
    && TicketConsistent(r.totalSales, r.guestCount, r.avgTicket)
    && (r.guestCount == 0 ==> r.avgTicket == 0.0)
    && r.weatherFactor >= WeatherFloor
  }

  // ---------------------------------------------------------------------
  // Properties of the pipeline

  /** Every lookup the pipeline makes for a valid date is inside its table. */
  lemma LookupsInRange(d: Date)
    requires ValidDate(d)
    ensures 0 <= Weekday(d) < |DowMultipliers|
    ensures 0 <= d.month - 1 < |SeasonalMultipliers|
  {
  }

  /**
   * The guest count never needs more than the minimum ticket per guest:
   * without a promotion `5 * guests <= sales`, with one `5 * guests <= 1.4 * sales`.
   */
  lemma GuestCountBound(expected: real, t: StoreType, draw: RecordDraw)
    ensures var o := SalesAndGuests(expected, t, draw);
      && (!o.promotionActive ==> o.guestCount as real * TicketFloor <= o.totalSales)
      && (o.promotionActive ==> o.guestCount as real * TicketFloor <= PromoGuestMultiplier * o.totalSales)
  {
    var promo := PromoActive(draw.promo);
    var sales := PromoSales(NoisySales(expected, draw.noiseZ), promo);
    var ticket := SampledTicket(t, draw.ticketZ);
    var g0 := GuestCount(sales, ticket);
    GuestBound(sales, ticket, g0, PromoGuests(g0, promo), promo);
  }

  /** The arithmetic behind `GuestCountBound`, over plain numbers. */
  lemma GuestBound(sales: real, ticket: real, g0: int, g: int, promo: bool)
    requires ticket >= TicketFloor && 0 <= g0 && g0 as real * ticket <= sales
    requires !promo ==> g == g0
    requires promo ==> g as real <= g0 as real * PromoGuestMultiplier
    ensures !promo ==> g as real * TicketFloor <= sales
    ensures promo ==> g as real * TicketFloor <= PromoGuestMultiplier * sales
  {
    ScaleRight(TicketFloor, ticket, g0 as real);
    if promo {
      var h := g0 as real * PromoGuestMultiplier;
      ScaleRight(g as real, h, TicketFloor);
      assert h * TicketFloor == PromoGuestMultiplier * (g0 as real * TicketFloor);
      ScaleRight(g0 as real * TicketFloor, sales, PromoGuestMultiplier);
    }
  }

  /** Multiplying `a <= b` by a non-negative `c` keeps the order. */
  lemma ScaleRight(a: real, b: real, c: real)
    requires a <= b && c >= 0.0
    ensures c * a <= c * b && a * c <= b * c
  {
  }

  /**
   * A promotion never lowers the guest count: the stored count is at least
   * the whole tickets that fit into the final sales, and equal to it without one.
   */
  lemma PromoNeverLowersGuests(expected: real, t: StoreType, draw: RecordDraw)
    ensures var o := SalesAndGuests(expected, t, draw);
      var g := GuestCount(o.totalSales, SampledTicket(t, draw.ticketZ));
      && o.guestCount >= g
      && (!o.promotionActive ==> o.guestCount == g)
  {
  }

  /** No sales means no guests and a zero average ticket. */
  lemma NoSalesNoGuests(weather: real, expected: real, t: StoreType, draw: RecordDraw)
    requires weather >= WeatherFloor
    requires AfterExpected(weather, expected, t, draw).totalSales == 0.0
    ensures AfterExpected(weather, expected, t, draw).guestCount == 0
    ensures AfterExpected(weather, expected, t, draw).avgTicket == 0.0
  {
  }

  /**
   * Without a promotion and with the noisy sales not clamped at zero, the day is the
   * plain formula: expected sales plus the noise, and the whole (floored) tickets they buy.
   */
  lemma UnclampedDay(store: StoreMeta, d: Date, draw: RecordDraw)
    requires ValidDate(d)
    requires draw.promo >= PromoProbability
    ensures 1.0 + 0.1 * draw.weatherZ >= WeatherFloor ==> WeatherEffect(draw.weatherZ) == 1.0 + 0.1 * draw.weatherZ
    ensures var weather := WeatherEffect(draw.weatherZ);
      var sales := ExpectedSales(store, d, weather) + 50.0 * draw.noiseZ;
      sales >= 0.0 ==> PlainFigures(SimulateDay(store, d, draw), weather, sales, SampledTicket(store.storeType, draw.ticketZ))
  {
    var weather := WeatherEffect(draw.weatherZ);
    SimulateDayUnfolded(store, d, draw);
    UnclampedAfter(weather, ExpectedSales(store, d, weather), store.storeType, draw);
  }

  /** The figures of a day without a promotion: the weather, the sales, and the whole tickets they buy. */
  predicate PlainFigures(f: DayFigures, weather: real, sales: real, ticket: real)
  {
    && f.weatherEffect == weather
    && !f.promotionActive
    && f.totalSales == sales
    && ticket > 0.0
    && f.guestCount == Trunc(sales / ticket)
  }

  /**
   * The figures of a promotion day: sales are the noisy value times 1.25, and the guests
   * are the whole tickets in those sales, times 1.4 and truncated again.
   */
  predicate PromotedFigures(f: DayFigures, weather: real, noisy: real, ticket: real)
  {
    && f.weatherEffect == weather
    && f.promotionActive
    && f.totalSales == noisy * PromoSalesMultiplier
    && ticket > 0.0
    && f.guestCount == Trunc(Trunc(noisy * PromoSalesMultiplier / ticket) as real * PromoGuestMultiplier)
  }

  /** The figures of a day whose noisy sales were clamped to zero: nothing sold, no guests, no ticket. */
  predicate ZeroFigures(f: DayFigures, weather: real, promo: bool)
  {
    && f.weatherEffect == weather
    && (f.promotionActive <==> promo)
    && f.totalSales == 0.0
    && f.guestCount == 0
    && f.avgTicket == 0.0
  }

  /** A simulated day is the later steps applied to the clamped weather effect. */
  lemma SimulateDayUnfolded(store: StoreMeta, d: Date, draw: RecordDraw)
    requires ValidDate(d)
    ensures var weather := WeatherEffect(draw.weatherZ);
      SimulateDay(store, d, draw) == AfterExpected(weather, ExpectedSales(store, d, weather), store.storeType, draw)
  {
  }

  /**
   * With a promotion and the noisy sales not clamped, sales are the noisy value times
   * 1.25, and the guests are the whole (floored) tickets in those sales, raised by 1.4
   * and truncated again.
   */
  lemma PromotedDay(store: StoreMeta, d: Date, draw: RecordDraw)
    requires ValidDate(d)
    requires draw.promo < PromoProbability
    ensures 1.0 + 0.1 * draw.weatherZ >= WeatherFloor ==> WeatherEffect(draw.weatherZ) == 1.0 + 0.1 * draw.weatherZ
    ensures var weather := WeatherEffect(draw.weatherZ);
      var noisy := ExpectedSales(store, d, weather) + 50.0 * draw.noiseZ;
      noisy >= 0.0 ==> PromotedFigures(SimulateDay(store, d, draw), weather, noisy, SampledTicket(store.storeType, draw.ticketZ))
  {
    var weather := WeatherEffect(draw.weatherZ);
    SimulateDayUnfolded(store, d, draw);
    PromotedAfter(weather, ExpectedSales(store, d, weather), store.storeType, draw);
  }

  /** When the noisy sales fall below zero, the day records zero sales, zero guests and a zero ticket, promotion or not. */
  lemma ClampedNoiseDay(store: StoreMeta, d: Date, draw: RecordDraw)
    requires ValidDate(d)
    ensures var weather := WeatherEffect(draw.weatherZ);
      ExpectedSales(store, d, weather) + 50.0 * draw.noiseZ < 0.0 ==>
        ZeroFigures(SimulateDay(store, d, draw), weather, draw.promo < PromoProbability)
  {
    var weather := WeatherEffect(draw.weatherZ);
    SimulateDayUnfolded(store, d, draw);
    ClampedNoiseAfter(weather, ExpectedSales(store, d, weather), store.storeType, draw);
  }

  /** `PromotedDay` once the weather effect and the expected sales are fixed. */
  lemma PromotedAfter(weather: real, expected: real, t: StoreType, draw: RecordDraw)
    requires weather >= WeatherFloor
    requires draw.promo < PromoProbability
    ensures var noisy := expected + 50.0 * draw.noiseZ;
      noisy >= 0.0 ==> PromotedFigures(AfterExpected(weather, expected, t, draw), weather, noisy, SampledTicket(t, draw.ticketZ))
  {
  }

  /** `UnclampedDay` once the weather effect and the expected sales are fixed. */
  lemma UnclampedAfter(weather: real, expected: real, t: StoreType, draw: RecordDraw)
    requires weather >= WeatherFloor
    requires draw.promo >= PromoProbability
    ensures var sales := expected + 50.0 * draw.noiseZ;
      sales >= 0.0 ==> PlainFigures(AfterExpected(weather, expected, t, draw), weather, sales, SampledTicket(t, draw.ticketZ))
  {
  }

  /** `ClampedNoiseDay` once the weather effect and the expected sales are fixed. */
  lemma ClampedNoiseAfter(weather: real, expected: real, t: StoreType, draw: RecordDraw)
    requires weather >= WeatherFloor
    ensures expected + 50.0 * draw.noiseZ < 0.0 ==>
      ZeroFigures(AfterExpected(weather, expected, t, draw), weather, draw.promo < PromoProbability)
  {
  }

  /** The weekend flag is the weekday test, and holiday days carry the 0.4 effect. */
  lemma CalendarFlags(store: StoreMeta, d: Date, draw: RecordDraw)
    requires ValidDate(d)
    ensures MakeRecord(store, d, draw).isWeekend <==> Weekday(d) >= 5
    ensures MakeRecord(store, d, draw).isHoliday <==> IsHoliday(d)
    ensures MakeRecord(store, d, draw).isHoliday <==> HolidayEffect(d) == HolidayMultiplier
  {
    IsHolidayByDate(d);
  }
}
