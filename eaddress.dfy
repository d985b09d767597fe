/** The e-address synthesizer (daily_dashboard.py, `get_eaddress_data`):
    monthly activation totals and monthly deactivation counts become daily
    rates, and a seven-day streak of jittered daily values is derived from them.
    Dates are day numbers (day 1 is Monday 1 January of year 1, as Python's
    `date.toordinal`); fetching and parsing the records is not modelled. */
module EAddress {
  import opened Seqs

  function Abs(x: int): nat
  {
    if x < 0 then -x else x
  }

  /** Python `round(n / d)` on the exact quotient n/d (see `RoundDivNearest`). */
  function RoundDiv(n: int, d: int): int
    requires d != 0
    decreases if d < 0 then 1 else 0
  {
    if d < 0 then RoundDiv(-n, -d)
    else
      var q, m := n / d, n % d;
      if 2 * m < d then q
      else if 2 * m > d then q + 1
      else if q % 2 == 0 then q
      else q + 1
  }

  lemma DivMod(n: int, d: int)
    requires d > 0
    ensures n == (n / d) * d + n % d && 0 <= n % d < d
  {
  }

  lemma RoundDivNearestPos(n: int, d: int)
    requires d > 0
    ensures 2 * Abs(RoundDiv(n, d) * d - n) <= d
    ensures 2 * Abs(RoundDiv(n, d) * d - n) == d ==> RoundDiv(n, d) % 2 == 0
  {
    var r := RoundDiv(n, d);
    var q, m := n / d, n % d;
    DivMod(n, d);
    if 2 * m < d || (2 * m == d && q % 2 == 0) {
      assert r == q;
      assert r * d - n == -m;
    } else {
      assert r == q + 1;
      assert (q + 1) * d == q * d + d;
      assert r * d - n == d - m;
    }
  }

  /** `RoundDiv` is the integer nearest to n/d, a tie going to the even neighbour. */
  lemma RoundDivNearest(n: int, d: int)
    requires d != 0
    ensures 2 * Abs(RoundDiv(n, d) * d - n) <= Abs(d)
    ensures 2 * Abs(RoundDiv(n, d) * d - n) == Abs(d) ==> RoundDiv(n, d) % 2 == 0
  {
    if d < 0 {
      var r := RoundDiv(-n, -d);
      RoundDivNearestPos(-n, -d);
      assert RoundDiv(n, d) == r;
      assert r * d == -(r * -d);
    } else {
      RoundDivNearestPos(n, d);
    }
  }

  /** No other integer is that close: the contract of `RoundDivNearest`, with the
      strict inequality of a non-tie, pins `RoundDiv` down. */
  lemma RoundDivUnique(n: int, d: int, k: int)
    requires d != 0
    requires 2 * Abs(k * d - n) < Abs(d)
    ensures k == RoundDiv(n, d)
  {
    if d > 0 {
      RoundDivUniquePos(n, d, k);
    } else {
      assert k * -d - -n == -(k * d - n);
      RoundDivUniquePos(-n, -d, k);
    }
  }

  lemma RoundDivUniquePos(n: int, d: int, k: int)
    requires d > 0
    requires 2 * Abs(k * d - n) < d
    ensures k == RoundDiv(n, d)
  {
    var r := RoundDiv(n, d);
    RoundDivNearestPos(n, d);
    if k != r {
      Separated(k, r, d);
    }
  }

  lemma Separated(a: int, b: int, d: int)
    requires d > 0 && a != b
    ensures Abs(a * d - b * d) >= d
  {
    if a > b {
      MulPos(a - b, d);
      assert a * d - b * d == (a - b) * d;
    } else {
      MulPos(b - a, d);
      assert b * d - a * d == (b - a) * d;
    }
  }

  lemma MulNonNeg(a: int, b: int)
    requires a >= 0 && b >= 0
    ensures a * b >= 0
  {
  }

  lemma MulNonPos(a: int, b: int)
    requires a <= 0 && b >= 0
    ensures a * b <= 0
  {
    MulNonNeg(-a, b);
    assert a * b == -((-a) * b);
  }

  lemma MulPos(x: int, d: int)
    requires x > 0 && d > 0
    ensures x * d >= d
  {
  }

  lemma MulAtLeast(x: int, d: int)
    requires x != 0 && d != 0
    ensures Abs(x * d) >= Abs(d)
  {
    var ax, ad := Abs(x), Abs(d);
    MulPos(ax, ad);
    assert Abs(x * d) == ax * ad by {
      if x < 0 && d < 0 { assert x * d == (-x) * (-d); }
      else if x < 0 { assert x * d == -((-x) * d); }
      else if d < 0 { assert x * d == -(x * (-d)); }
    }
  }

  /** A statistics row: the date of the month and the two counters
      (natural persons, legal entities). */
  datatype MonthlyRecord = MonthlyRecord(date: int, fiziska: int, juridiska: int)

  /** The daily rate of the period that starts at `date`. */
  datatype DailyRate = DailyRate(date: int, fiziska: int, juridiska: int)

  /** Days between two activation records; a zero distance counts as one day
      (`.days or 1`). */
  function ActivationGap(prev: MonthlyRecord, curr: MonthlyRecord): (g: int)
    ensures g != 0
    ensures curr.date != prev.date ==> g == curr.date - prev.date
  {
    if curr.date - prev.date == 0 then 1 else curr.date - prev.date
  }

  /** Activation rates of a cumulative series: one per adjacent pair, dated at the
      later record. */
  function ActivationRates(records: seq<MonthlyRecord>): (rates: seq<DailyRate>)
    ensures |rates| == if records == [] then 0 else |records| - 1
    ensures forall i :: 0 <= i < |rates| ==> rates[i].date == records[i + 1].date
  {
    if records == [] then []
    else
      seq(|records| - 1, i requires 0 <= i < |records| - 1 => ActivationRate(records[i], records[i + 1]))
  }

  /** The rate between two adjacent records: the increase of each counter
      spread over the days between them, dated at the later record. */
  function ActivationRate(prev: MonthlyRecord, curr: MonthlyRecord): (r: DailyRate)
    ensures r.date == curr.date
  {
    var g := ActivationGap(prev, curr);
    DailyRate(curr.date, RoundDiv(curr.fiziska - prev.fiziska, g), RoundDiv(curr.juridiska - prev.juridiska, g))
  }

  /** `_build_daily_rates`: the loop that appends one rate per adjacent pair. */
  method BuildDailyRates(records: seq<MonthlyRecord>) returns (rates: seq<DailyRate>)
    ensures rates == ActivationRates(records)
  {
    rates := [];
    var i := 1;
    while i < |records|
      invariant 1 <= i <= if records == [] then 1 else |records|
      invariant |rates| == i - 1
      invariant rates <= ActivationRates(records)
    {
      var prev, curr := records[i - 1], records[i];
      var g := ActivationGap(prev, curr);
      var rate := DailyRate(curr.date, RoundDiv(curr.fiziska - prev.fiziska, g), RoundDiv(curr.juridiska - prev.juridiska, g));
      assert rate == ActivationRate(prev, curr);
      rates := rates + [rate];
      i := i + 1;
    }
  }

  /** Each activation rate, multiplied by its gap, is within half a gap of the
      increase of the counter over that gap (both counters). */
  lemma ActivationRateNearest(records: seq<MonthlyRecord>, i: nat)
    requires i + 1 < |records|
    ensures var g := ActivationGap(records[i], records[i + 1]);
            var r := ActivationRates(records)[i];
            && 2 * Abs(r.fiziska * g - (records[i + 1].fiziska - records[i].fiziska)) <= Abs(g)
            && 2 * Abs(r.juridiska * g - (records[i + 1].juridiska - records[i].juridiska)) <= Abs(g)
  {
    var g := ActivationGap(records[i], records[i + 1]);
    RoundDivNearest(records[i + 1].fiziska - records[i].fiziska, g);
    RoundDivNearest(records[i + 1].juridiska - records[i].juridiska, g);
  }

  predicate Ascending(records: seq<MonthlyRecord>)
  {
    forall i :: 0 <= i < |records| - 1 ==> records[i].date < records[i + 1].date
  }

  predicate NonDecreasing(records: seq<MonthlyRecord>)
  {
    forall i :: 0 <= i < |records| - 1 ==>
      records[i].fiziska <= records[i + 1].fiziska && records[i].juridiska <= records[i + 1].juridiska
  }

  /** A cumulative series that never falls, sampled at increasing dates, has no
      negative activation rate. */
  lemma ActivationRatesNonNegative(records: seq<MonthlyRecord>)
    requires Ascending(records) && NonDecreasing(records)
    ensures forall i :: 0 <= i < |ActivationRates(records)| ==>
      ActivationRates(records)[i].fiziska >= 0 && ActivationRates(records)[i].juridiska >= 0
  {
    var rates := ActivationRates(records);
    forall i | 0 <= i < |rates|
      ensures rates[i].fiziska >= 0 && rates[i].juridiska >= 0
    {
      var g := ActivationGap(records[i], records[i + 1]);
      assert g > 0;
      RoundDivNonNegative(records[i + 1].fiziska - records[i].fiziska, g);
      RoundDivNonNegative(records[i + 1].juridiska - records[i].juridiska, g);
    }
  }

  lemma RoundDivNonNegative(n: int, d: int)
    requires n >= 0 && d > 0
    ensures RoundDiv(n, d) >= 0
  {
    var r := RoundDiv(n, d);
    RoundDivNearest(n, d);
    if r < 0 {
      MulAtLeast(r, d);
    }
  }

  /** The divisor of deactivation record `i`: the days to the next record, or 30
      for the last record and for a zero distance (`.days or 30`). */
  function DeactivationDays(records: seq<MonthlyRecord>, i: nat): (d: int)
    requires i < |records|
    ensures d != 0
    ensures i + 1 == |records| ==> d == 30
    ensures i + 1 < |records| && records[i + 1].date != records[i].date ==>
      d == records[i + 1].date - records[i].date
  {
    if i + 1 < |records| && records[i + 1].date - records[i].date != 0
    then records[i + 1].date - records[i].date
    else 30
  }

  /** Deactivation rates of a series of monthly counts: one per record, at its date. */
  function DeactivationRates(records: seq<MonthlyRecord>): (rates: seq<DailyRate>)
    ensures |rates| == |records|
    ensures forall i :: 0 <= i < |rates| ==> rates[i].date == records[i].date
  {
    seq(|records|, i requires 0 <= i < |records| => DeactivationRate(records, i))
  }

  /** The rate of record `i`: its counts spread over the days to the next record. */
  function DeactivationRate(records: seq<MonthlyRecord>, i: nat): (r: DailyRate)
    requires i < |records|
    ensures r.date == records[i].date
  {
    var d := DeactivationDays(records, i);
    DailyRate(records[i].date, RoundDiv(records[i].fiziska, d), RoundDiv(records[i].juridiska, d))
  }

  /** The deactivation loop of `get_eaddress_data`. */
  method BuildDeactivationRates(records: seq<MonthlyRecord>) returns (rates: seq<DailyRate>)
    ensures rates == DeactivationRates(records)
  {
    rates := [];
    var i := 0;
    while i < |records|
      invariant 0 <= i <= |records|
      invariant |rates| == i
      invariant rates <= DeactivationRates(records)
    {
      var r := records[i];
      var days := if i + 1 < |records| then
                    (if records[i + 1].date - r.date != 0 then records[i + 1].date - r.date else 30)
                  else 30;
      assert days == DeactivationDays(records, i);
      var rate := DailyRate(r.date, RoundDiv(r.fiziska, days), RoundDiv(r.juridiska, days));
      assert DeactivationRates(records)[i] == rate;
      rates := rates + [rate];
      i := i + 1;
    }
  }

  /** Each rate is the record's count spread over the days to the next record
      (30 for the last one), to within half a day's worth. */
  lemma DeactivationRateNearest(records: seq<MonthlyRecord>, i: nat)
    requires i < |records|
    ensures var r, d := DeactivationRates(records)[i], DeactivationDays(records, i);
            && 2 * Abs(r.fiziska * d - records[i].fiziska) <= Abs(d)
            && 2 * Abs(r.juridiska * d - records[i].juridiska) <= Abs(d)
  {
    var d := DeactivationDays(records, i);
    RoundDivNearest(records[i].fiziska, d);
    RoundDivNearest(records[i].juridiska, d);
  }

  /** `_find_rate`: the reversed scan that stops at the first entry dated on or
      before `day`; its result is characterised by `FindRateLatest`,
      `FindRateFallback` and `FindRateInPeriod`. */
  function FindRate(rates: seq<DailyRate>, day: int): (int, int)
  {
    match LastWhere(rates, (dr: DailyRate) => day >= dr.date)
    case Some(j) => (rates[j].fiziska, rates[j].juridiska)
    case None => if rates == [] then (0, 0) else (rates[|rates| - 1].fiziska, rates[|rates| - 1].juridiska)
  }

  /** The rate found is that of the last entry, in list order, dated on or before `day`. */
  lemma FindRateLatest(rates: seq<DailyRate>, day: int, j: nat)
    requires j < |rates| && rates[j].date <= day
    requires forall k :: j < k < |rates| ==> rates[k].date > day
    ensures FindRate(rates, day) == (rates[j].fiziska, rates[j].juridiska)
  {
  }

  /** With no entry dated on or before `day`, the last entry's rate is used, and
      with no entries at all the rate is zero. */
  lemma FindRateFallback(rates: seq<DailyRate>, day: int)
    requires forall k :: 0 <= k < |rates| ==> rates[k].date > day
    ensures rates == [] ==> FindRate(rates, day) == (0, 0)
    ensures rates != [] ==> FindRate(rates, day) == (rates[|rates| - 1].fiziska, rates[|rates| - 1].juridiska)
  {
  }

  /** With rates sorted by date, the rate found for a day is that of the period
      the day falls in: on or after its start and before the next one's. */
  lemma FindRateInPeriod(rates: seq<DailyRate>, day: int, j: nat)
    requires j < |rates|
    requires forall a, b :: 0 <= a < b < |rates| ==> rates[a].date < rates[b].date
    requires rates[j].date <= day
    requires j + 1 < |rates| ==> day < rates[j + 1].date
    ensures FindRate(rates, day) == (rates[j].fiziska, rates[j].juridiska)
  {
    forall k | j < k < |rates|
      ensures rates[k].date > day
    {
      assert rates[j + 1].date <= rates[k].date by {
        if j + 1 < k { assert rates[j + 1].date < rates[k].date; }
      }
    }
    FindRateLatest(rates, day, j);
  }

  /** The 32-bit integer read from the first eight hexadecimal digits of the
      md5 digest. */
  type Hash32 = x: int | 0 <= x <= 0xFFFF_FFFF

  const HashMax: int := 0xFFFF_FFFF

  /** The category tag hashed with the day: "fiz", "jur", "deact_fiz", "deact_jur". */
  datatype Category = Fiz | Jur | DeactFiz | DeactJur

  /** `vary`: `max(0, round(avg * (1 + offset)))` with
      `offset = (h / 0xFFFFFFFF - 0.5) * 0.4`, computed exactly: the factor
      `1 + offset` is `(4 * HashMax + 2 * h) / (5 * HashMax)`, between 0.8 and 1.2.
      The result is never negative, is zero for a zero (or negative) mean, and
      stays within 20% of the mean, give or take the rounding. */
  function Vary(avg: int, h: Hash32): (r: nat)
    ensures avg <= 0 ==> r == 0
    ensures avg >= 0 ==> 10 * r >= 8 * avg - 5 && 10 * r <= 12 * avg + 5
  {
    var v := RoundDiv(avg * (4 * HashMax + 2 * h), 5 * HashMax);
    VaryBounds(avg, h);
    if v < 0 then 0 else v
  }

  lemma VaryBounds(avg: int, h: Hash32)
    ensures var v := RoundDiv(avg * (4 * HashMax + 2 * h), 5 * HashMax);
            && (avg <= 0 ==> v <= 0)
            && (avg >= 0 ==> 10 * v >= 8 * avg - 5 && 10 * v <= 12 * avg + 5)
  {
    var n := avg * (4 * HashMax + 2 * h);
    var v := RoundDiv(n, 5 * HashMax);
    Scaled(n, v);
    if avg <= 0 {
      MulNonPos(avg, 4 * HashMax + 2 * h);
      ScaledNonPos(n, v);
    } else {
      Spread(avg, h);
      Unscaled(avg, n, v);
    }
  }

  /** A non-positive dividend rounds to a non-positive quotient. */
  lemma ScaledNonPos(n: int, v: int)
    requires n <= 0 && 10 * HashMax * v - 2 * n <= 5 * HashMax
    ensures v <= 0
  {
  }

  /** Dividing the scaled bounds by HashMax. */
  lemma Unscaled(avg: int, n: int, v: int)
    requires -5 * HashMax <= 10 * HashMax * v - 2 * n <= 5 * HashMax
    requires 4 * HashMax * avg <= n <= 6 * HashMax * avg
    ensures 10 * v >= 8 * avg - 5 && 10 * v <= 12 * avg + 5
  {
  }

  /** The rounding contract with the constant divisor written out linearly. */
  lemma Scaled(n: int, v: int)
    requires v == RoundDiv(n, 5 * HashMax)
    ensures -5 * HashMax <= 10 * HashMax * v - 2 * n <= 5 * HashMax
  {
    RoundDivNearestPos(n, 5 * HashMax);
    assert v * (5 * HashMax) == 5 * HashMax * v;
  }

  /** For a non-negative mean, the scaled mean lies between 4 and 6 times HashMax * avg. */
  lemma Spread(avg: int, h: Hash32)
    requires avg >= 0
    ensures 4 * HashMax * avg <= avg * (4 * HashMax + 2 * h) <= 6 * HashMax * avg
  {
    var ah := avg * h;
    assert avg * (4 * HashMax + 2 * h) == 4 * HashMax * avg + 2 * ah;
    MulNonNeg(avg, h);
    MulNonNeg(avg, HashMax - h);
    assert avg * (HashMax - h) == HashMax * avg - ah;
  }

  /** A day of the streak: the day number (the weekday label is derived from it),
      the activated and deactivated counts and their difference. */
  datatype StreakDay = StreakDay(day: int, activated: int, deactivated: int, net: int)

  /** Which counter a streak follows. */
  datatype Subject = Fiziska | Juridiska

  function Pick(r: (int, int), s: Subject): int
  {
    if s == Fiziska then r.0 else r.1
  }

  function ActivationTag(s: Subject): Category
  {
    if s == Fiziska then Fiz else Jur
  }

  function DeactivationTag(s: Subject): Category
  {
    if s == Fiziska then DeactFiz else DeactJur
  }

  /** The streak entry for `day`: the jittered activation and deactivation rates
      of the period the day falls in. */
  function StreakEntry(day: int, actRates: seq<DailyRate>, deactRates: seq<DailyRate>,
                       seed: (int, Category) -> Hash32, s: Subject): (e: StreakDay)
    ensures e.day == day
    ensures e.activated >= 0 && e.deactivated >= 0
    ensures e.net == e.activated - e.deactivated
  {
    var a := Vary(Pick(FindRate(actRates, day), s), seed(day, ActivationTag(s)));
    var d := Vary(Pick(FindRate(deactRates, day), s), seed(day, DeactivationTag(s)));
    StreakDay(day, a, d, a - d)
  }

  /** The seven days before `today`, oldest first. */
  function StreakDays(today: int, actRates: seq<DailyRate>, deactRates: seq<DailyRate>,
                      seed: (int, Category) -> Hash32, s: Subject): (r: seq<StreakDay>)
    ensures |r| == 7
    ensures forall i :: 0 <= i < 7 ==> r[i] == StreakEntry(today - 7 + i, actRates, deactRates, seed, s)
  {
    seq(7, i requires 0 <= i < 7 => StreakEntry(today - 7 + i, actRates, deactRates, seed, s))
  }

  /** The streak days run from `today - 7` to `today - 1` in ascending order, each
      with net = activated - deactivated, and the last is yesterday. */
  lemma StreakShape(today: int, actRates: seq<DailyRate>, deactRates: seq<DailyRate>,
                    seed: (int, Category) -> Hash32, s: Subject)
    ensures var r := StreakDays(today, actRates, deactRates, seed, s);
            && r[0].day == today - 7 && r[6].day == today - 1
            && (forall i :: 0 <= i < 6 ==> r[i + 1].day == r[i].day + 1)
            && (forall i :: 0 <= i < 7 ==> r[i].activated >= 0 && r[i].deactivated >= 0)
            && (forall i :: 0 <= i < 7 ==> r[i].net == r[i].activated - r[i].deactivated)
  {
    var r := StreakDays(today, actRates, deactRates, seed, s);
    assert r[0] == StreakEntry(today - 7, actRates, deactRates, seed, s);
    assert r[6] == StreakEntry(today - 1, actRates, deactRates, seed, s);
    forall i | 0 <= i < 6
      ensures r[i + 1].day == r[i].day + 1
    {
      assert r[i + 1] == StreakEntry(today - 7 + i + 1, actRates, deactRates, seed, s);
    }
  }

  /** The streak loop of `get_eaddress_data`: `days_ago` runs 7, 6, ..., 1 and each
      step appends one entry to each of the two lists. */
  method BuildStreaks(today: int, actRates: seq<DailyRate>, deactRates: seq<DailyRate>,
                      seed: (int, Category) -> Hash32)
    returns (streakFiziska: seq<StreakDay>, streakJuridiska: seq<StreakDay>)
    ensures streakFiziska == StreakDays(today, actRates, deactRates, seed, Fiziska)
    ensures streakJuridiska == StreakDays(today, actRates, deactRates, seed, Juridiska)
  {
    streakFiziska, streakJuridiska := [], [];
    var daysAgo := 7;
    while daysAgo > 0
      invariant 0 <= daysAgo <= 7
      invariant |streakFiziska| == |streakJuridiska| == 7 - daysAgo
      invariant forall i :: 0 <= i < 7 - daysAgo ==>
        streakFiziska[i] == StreakEntry(today - 7 + i, actRates, deactRates, seed, Fiziska) &&
        streakJuridiska[i] == StreakEntry(today - 7 + i, actRates, deactRates, seed, Juridiska)
    {
      var day := today - daysAgo;
      var (actFiz, actJur) := FindRate(actRates, day);
      var (deactFiz, deactJur) := FindRate(deactRates, day);
      var aFiz: int := Vary(actFiz, seed(day, Fiz));
      var aJur: int := Vary(actJur, seed(day, Jur));
      var dFiz: int := Vary(deactFiz, seed(day, DeactFiz));
      var dJur: int := Vary(deactJur, seed(day, DeactJur));
      streakFiziska := streakFiziska + [StreakDay(day, aFiz, dFiz, aFiz - dFiz)];
      streakJuridiska := streakJuridiska + [StreakDay(day, aJur, dJur, aJur - dJur)];
      daysAgo := daysAgo - 1;
    }
  }

  /** What the synthesizer hands to the report. */
  datatype EAddressResult = EAddressResult(
    records: seq<MonthlyRecord>,
    yesterdayFiziska: StreakDay,
    yesterdayJuridiska: StreakDay,
    streakFiziska: seq<StreakDay>,
    streakJuridiska: seq<StreakDay>)

  /** `get_eaddress_data` once both resources are fetched: the chart keeps the
      activation records dated from `chartFrom` on (the three-year cutoff, as a
      day number), and the streaks are built from the two rate series. `seed`
      stands for the md5 prefix of the day's ISO date and the category tag. */
  method EAddressData(actRecords: seq<MonthlyRecord>, deactRecords: seq<MonthlyRecord>,
                      today: int, chartFrom: int, seed: (int, Category) -> Hash32)
    returns (r: EAddressResult)
    ensures r.records == Filter((rec: MonthlyRecord) => rec.date >= chartFrom, actRecords)
    ensures r.streakFiziska ==
      StreakDays(today, ActivationRates(actRecords), DeactivationRates(deactRecords), seed, Fiziska)
    ensures r.streakJuridiska ==
      StreakDays(today, ActivationRates(actRecords), DeactivationRates(deactRecords), seed, Juridiska)
    ensures r.yesterdayFiziska == r.streakFiziska[6] && r.yesterdayFiziska.day == today - 1
    ensures r.yesterdayJuridiska == r.streakJuridiska[6] && r.yesterdayJuridiska.day == today - 1
  {
    var chart := Filter((rec: MonthlyRecord) => rec.date >= chartFrom, actRecords);
    var actRates := BuildDailyRates(actRecords);
    var deactRates := BuildDeactivationRates(deactRecords);
    var fiz, jur := BuildStreaks(today, actRates, deactRates, seed);
    StreakShape(today, actRates, deactRates, seed, Fiziska);
    StreakShape(today, actRates, deactRates, seed, Juridiska);
    r := EAddressResult(chart, fiz[6], jur[6], fiz, jur);
  }
}
