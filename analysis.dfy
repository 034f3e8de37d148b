/**
 * The data side of the analysis charts: `extract_timeseries`, which folds the per-day CSV records of
 * a finished run into seven chart columns, the 100-USDC price buckets of the impermanent-loss chart
 * and the wording of the price-change/liquidation correlation. A CSV row is a record of strings;
 * `float()` is the parameter `parse` (None for the ValueError it raises) and
 * `datetime.strptime(date, '%Y%m%d')` succeeding is the parameter `validDate`.
 */
module ChartData {
  import opened Common
  import opened Text
  import Lending
  import DayLedger
  import LoanShrinkSim

  /** One row of a daily CSV file, as `csv.DictReader` reads it: every field is text. */
  datatype Record = Record(shouldLiquidate: string, healthFactor: string, impermanentLossPct: string,
                           seedPrice: string, closePrice: string)

  /** The first record's seed and close price. */
  datatype Quote = Quote(seed: real, close: real)

  /** The seven lists `extract_timeseries` returns (a date is kept as its key). */
  datatype Timeseries = Timeseries(dates: seq<string>, liquidationCounts: seq<nat>,
                                   avgHealthFactors: seq<Lending.HF>, avgImpermanentLosses: seq<real>,
                                   seedPrices: seq<real>, closePrices: seq<real>, priceChanges: seq<real>)

  const NoDays := Timeseries([], [], [], [], [], [], [])

  /** The record asks for liquidation: its stripped flag is exactly `Yes`. */
  predicate IsYes(r: Record)
  {
    Strip(r.shouldLiquidate) == "Yes"
  }

  /** `sum(1 for r in records if r['should_liquidate'].strip() == 'Yes')`. */
  function YesCount(records: seq<Record>): (n: nat)
    ensures n <= |records|
  {
    if records == [] then 0
    else YesCount(records[..|records| - 1]) + (if IsYes(records[|records| - 1]) then 1 else 0)
  }

  /** Every record of the day is counted exactly when every record asks for liquidation. */
  lemma {:induction false} YesCountAll(records: seq<Record>)
    ensures YesCount(records) == |records| <==> forall k :: 0 <= k < |records| ==> IsYes(records[k])
  {
    if records != [] {
      var init := records[..|records| - 1];
      var last := records[|records| - 1];
      YesCountAll(init);
      if YesCount(records) == |records| {
        assert YesCount(init) == |init| && IsYes(last);
        forall k | 0 <= k < |records|
          ensures IsYes(records[k])
        {
          if k < |init| {
            assert records[k] == init[k];
          } else {
            assert records[k] == last;
          }
        }
      } else if IsYes(last) {
        var k :| 0 <= k < |init| && !IsYes(init[k]);
        assert records[k] == init[k];
      }
    }
  }

  /** The health factor a record contributes: its stripped text parsed, unless that text is `inf`. */
  function HealthValue(r: Record, parse: string -> Option<real>): Option<real>
  {
    var h := Strip(r.healthFactor);
    if h == "inf" then None else parse(h)
  }

  /** The values that parsed, in order: what a loop appending inside `try` collects. */
  function Parsed(vs: seq<Option<real>>): (xs: seq<real>)
    ensures |xs| <= |vs|
  {
    if vs == [] then []
    else Parsed(vs[..|vs| - 1]) + (match vs[|vs| - 1] case Some(v) => [v] case None => [])
  }

  /** Nothing is collected exactly when nothing parsed. */
  lemma {:induction false} NothingParsed(vs: seq<Option<real>>)
    ensures Parsed(vs) == [] <==> forall k :: 0 <= k < |vs| ==> vs[k].None?
  {
    if vs != [] {
      var init := vs[..|vs| - 1];
      NothingParsed(init);
      assert forall k :: 0 <= k < |init| ==> init[k] == vs[k];
    }
  }

  /** Every collected value parsed from some field, so it lies within any bounds all parsed fields do. */
  lemma {:induction false} ParsedWithin(vs: seq<Option<real>>, lo: real, hi: real)
    requires forall k :: 0 <= k < |vs| && vs[k].Some? ==> lo <= vs[k].value <= hi
    ensures forall i :: 0 <= i < |Parsed(vs)| ==> lo <= Parsed(vs)[i] <= hi
  {
    if vs != [] {
      var init := vs[..|vs| - 1];
      assert forall k :: 0 <= k < |init| ==> init[k] == vs[k];
      ParsedWithin(init, lo, hi);
    }
  }

  /** What each record's health factor field yields. */
  function HealthFields(records: seq<Record>, parse: string -> Option<real>): (vs: seq<Option<real>>)
    ensures |vs| == |records|
    ensures forall k :: 0 <= k < |records| ==> vs[k] == HealthValue(records[k], parse)
  {
    seq(|records|, k requires 0 <= k < |records| => HealthValue(records[k], parse))
  }

  /** `hf_values`: the health factors the records contribute, in record order. */
  function HealthValues(records: seq<Record>, parse: string -> Option<real>): (hs: seq<real>)
    ensures |hs| <= |records|
  {
    Parsed(HealthFields(records, parse))
  }

  /** The day's average health factor is infinite exactly when no record contributes one (each is `inf` or unparseable). */
  lemma InfiniteAverage(records: seq<Record>, parse: string -> Option<real>)
    ensures DayLedger.Average(HealthValues(records, parse)).Inf? <==>
              forall k :: 0 <= k < |records| ==> HealthValue(records[k], parse).None?
  {
    NothingParsed(HealthFields(records, parse));
  }

  /** What a record's impermanent-loss field yields: its stripped text parsed. */
  function IlValue(r: Record, parse: string -> Option<real>): Option<real>
  {
    parse(Strip(r.impermanentLossPct))
  }

  function IlFields(records: seq<Record>, parse: string -> Option<real>): (vs: seq<Option<real>>)
    ensures |vs| == |records|
    ensures forall k :: 0 <= k < |records| ==> vs[k] == IlValue(records[k], parse)
  {
    seq(|records|, k requires 0 <= k < |records| => IlValue(records[k], parse))
  }

  /** `il_values`: the parseable impermanent-loss fields, in record order. */
  function IlValues(records: seq<Record>, parse: string -> Option<real>): (ils: seq<real>)
    ensures |ils| <= |records|
  {
    Parsed(IlFields(records, parse))
  }

  /** The day's average loss lies within any bounds around 0.0 that every parseable loss of the day lies within. */
  lemma IlAverageWithin(records: seq<Record>, parse: string -> Option<real>, lo: real, hi: real)
    requires lo <= 0.0 <= hi
    requires forall k :: 0 <= k < |records| && IlValue(records[k], parse).Some? ==>
               lo <= IlValue(records[k], parse).value <= hi
    ensures lo <= LoanShrinkSim.MeanOrZero(IlValues(records, parse)) <= hi
  {
    var vs := IlFields(records, parse);
    ParsedWithin(vs, lo, hi);
    if Parsed(vs) != [] {
      MeanBounds(Parsed(vs), lo, hi);
    }
  }

  /** The seed and close price of the day's first record; a day without records has none. */
  function FirstQuote(records: seq<Record>, parse: string -> Option<real>): (q: Result<Option<Quote>>)
    ensures q.Err? ==> q.error == ParseError
    ensures q.Ok? && q.value.None? <==> records == []
  {
    if records == [] then Ok(None)
    else
      match parse(records[0].seedPrice)
      case None => Err(ParseError)
      case Some(seed) =>
        match parse(records[0].closePrice)
        case None => Err(ParseError)
        case Some(close) => Ok(Some(Quote(seed, close)))
  }

  /** The columns after one more day whose prices parsed. */
  function Appended(ts: Timeseries, day: string, records: seq<Record>, q: Option<Quote>,
                    parse: string -> Option<real>): (ts': Timeseries)
    ensures ts'.dates == ts.dates + [day]
    ensures |ts'.liquidationCounts| == |ts.liquidationCounts| + 1
    ensures |ts'.avgHealthFactors| == |ts.avgHealthFactors| + 1
    ensures |ts'.avgImpermanentLosses| == |ts.avgImpermanentLosses| + 1
    ensures |ts'.seedPrices| == |ts.seedPrices| + (if q.Some? then 1 else 0)
    ensures |ts'.closePrices| == |ts.closePrices| + (if q.Some? then 1 else 0)
    ensures ts'.priceChanges == ts.priceChanges
  {
    var ts' := ts.(dates := ts.dates + [day],
                   liquidationCounts := ts.liquidationCounts + [YesCount(records)],
                   avgHealthFactors := ts.avgHealthFactors + [DayLedger.Average(HealthValues(records, parse))],
                   avgImpermanentLosses := ts.avgImpermanentLosses + [LoanShrinkSim.MeanOrZero(IlValues(records, parse))]);
    match q
    case None => ts'
    case Some(p) => ts'.(seedPrices := ts'.seedPrices + [p.seed], closePrices := ts'.closePrices + [p.close])
  }

  /** One more day: its date must parse, and so must its prices when it has records. */
  function NextDay(ts: Timeseries, day: string, records: seq<Record>, parse: string -> Option<real>,
                   validDate: bool): Result<Timeseries>
  {
    if !validDate then Err(ParseError)
    else
      match FirstQuote(records, parse)
      case Err(e) => Err(e)
      case Ok(q) => Ok(Appended(ts, day, records, q, parse))
  }

  /** The day raises: its date does not parse, or its first record's prices do not. */
  predicate DayFails(daily: map<string, seq<Record>>, day: string, parse: string -> Option<real>,
                     validDate: string -> bool)
    requires day in daily
  {
    !validDate(day) || FirstQuote(daily[day], parse).Err?
  }

  /** How many of the days have records. */
  function PricedDays(daily: map<string, seq<Record>>, days: seq<string>): (n: nat)
    requires forall k :: 0 <= k < |days| ==> days[k] in daily
    ensures n <= |days|
  {
    if days == [] then 0
    else PricedDays(daily, days[..|days| - 1]) + (if daily[days[|days| - 1]] != [] then 1 else 0)
  }

  /** The columns collected over `days` in the given order, before the price changes. */
  function Collected(daily: map<string, seq<Record>>, days: seq<string>, parse: string -> Option<real>,
                     validDate: string -> bool): (r: Result<Timeseries>)
    requires forall k :: 0 <= k < |days| ==> days[k] in daily
    ensures r.Err? ==> r.error == ParseError
    ensures r.Ok? ==>
              && r.value.dates == days
              && |r.value.liquidationCounts| == |days|
              && |r.value.avgHealthFactors| == |days|
              && |r.value.avgImpermanentLosses| == |days|
              && |r.value.seedPrices| == |r.value.closePrices| == PricedDays(daily, days)
              && r.value.priceChanges == []
  {
    if days == [] then Ok(NoDays)
    else
      var before := Collected(daily, days[..|days| - 1], parse, validDate);
      var day := days[|days| - 1];
      assert days[..|days| - 1] + [day] == days;
      if before.Err? then before
      else NextDay(before.value, day, daily[day], parse, validDate(day))
  }

  /** The collection fails exactly when one of its days raises. */
  lemma {:induction false} CollectedFails(daily: map<string, seq<Record>>, days: seq<string>,
                                          parse: string -> Option<real>, validDate: string -> bool)
    requires forall k :: 0 <= k < |days| ==> days[k] in daily
    ensures Collected(daily, days, parse, validDate).Err? <==>
              exists k :: 0 <= k < |days| && DayFails(daily, days[k], parse, validDate)
  {
    if days != [] {
      var init := days[..|days| - 1];
      CollectedFails(daily, init, parse, validDate);
      assert forall k :: 0 <= k < |init| ==> init[k] == days[k];
      if exists k :: 0 <= k < |days| && DayFails(daily, days[k], parse, validDate) {
        var k :| 0 <= k < |days| && DayFails(daily, days[k], parse, validDate);
        if k < |init| {
          assert DayFails(daily, init[k], parse, validDate);
        }
      }
    }
  }

  /** Each day's column entries are that day's count, average health factor and average loss. */
  lemma {:induction false} CollectedAt(daily: map<string, seq<Record>>, days: seq<string>,
                                       parse: string -> Option<real>, validDate: string -> bool, i: nat)
    requires forall k :: 0 <= k < |days| ==> days[k] in daily
    requires Collected(daily, days, parse, validDate).Ok? && i < |days|
    ensures var ts := Collected(daily, days, parse, validDate).value;
            && ts.liquidationCounts[i] == YesCount(daily[days[i]])
            && ts.avgHealthFactors[i] == DayLedger.Average(HealthValues(daily[days[i]], parse))
            && ts.avgImpermanentLosses[i] == LoanShrinkSim.MeanOrZero(IlValues(daily[days[i]], parse))
  {
    var init := days[..|days| - 1];
    var before := Collected(daily, init, parse, validDate).value;
    var day := days[|days| - 1];
    var q := FirstQuote(daily[day], parse).value;
    assert Collected(daily, days, parse, validDate).value == Appended(before, day, daily[day], q, parse);
    if i < |init| {
      CollectedAt(daily, init, parse, validDate, i);
      assert init[i] == days[i];
    }
  }

  /** Unfolding one more day of a collection that has not failed. */
  lemma CollectedNext(daily: map<string, seq<Record>>, days: seq<string>, d: nat, ts: Timeseries,
                      parse: string -> Option<real>, validDate: string -> bool)
    requires forall k :: 0 <= k < |days| ==> days[k] in daily
    requires d < |days| && Collected(daily, days[..d], parse, validDate) == Ok(ts)
    ensures Collected(daily, days[..d + 1], parse, validDate)
            == NextDay(ts, days[d], daily[days[d]], parse, validDate(days[d]))
  {
    assert days[..d + 1][..d] == days[..d];
  }

  /** `price_changes` before the leading 0.0: each close's percentage change over the previous one. */
  function Changes(closes: seq<real>): (r: Result<seq<real>>)
    ensures r.Err? ==> r.error == ZeroDivision
    ensures r.Ok? <==> forall i :: 0 <= i < |closes| - 1 ==> closes[i] != 0.0
    ensures r.Ok? ==> |r.value| == if closes == [] then 0 else |closes| - 1
  {
    if |closes| <= 1 then Ok([])
    else
      var init := closes[..|closes| - 1];
      assert forall i :: 0 <= i < |init| ==> init[i] == closes[i];
      match Changes(init)
      case Err(e) => Err(e)
      case Ok(cs) =>
        var prev := closes[|closes| - 2];
        if prev == 0.0 then Err(ZeroDivision)
        else Ok(cs + [((closes[|closes| - 1] - prev) / prev) * 100.0])
  }

  /** `change` is the percentage by which `next` differs from `prev`, stated without a division. */
  predicate PercentMove(change: real, prev: real, next: real)
  {
    change * prev == (next - prev) * 100.0
  }

  lemma PercentChange(prev: real, next: real, change: real)
    requires prev != 0.0 && change == ((next - prev) / prev) * 100.0
    ensures PercentMove(change, prev, next)
  {
  }

  /** The change at place `i - 1` is the percentage by which close `i` differs from close `i - 1`. */
  lemma {:induction false} ChangeAt(closes: seq<real>, i: nat)
    requires Changes(closes).Ok? && 1 <= i < |closes|
    ensures PercentMove(Changes(closes).value[i - 1], closes[i - 1], closes[i])
  {
    var init := closes[..|closes| - 1];
    if i + 1 < |closes| {
      ChangeAt(init, i);
      assert init[i - 1] == closes[i - 1] && init[i] == closes[i];
    } else {
      var prev := closes[|closes| - 2];
      PercentChange(prev, closes[|closes| - 1], Changes(closes).value[i - 1]);
    }
  }

  /** `extract_timeseries`: the days in ascending key order, then the price changes after a 0.0. */
  ghost function Extracted(daily: map<string, seq<Record>>, parse: string -> Option<real>,
                           validDate: string -> bool): Result<Timeseries>
  {
    match Collected(daily, SortedKeys(daily.Keys), parse, validDate)
    case Err(e) => Err(e)
    case Ok(ts) =>
      match Changes(ts.closePrices)
      case Err(e) => Err(e)
      case Ok(cs) => Ok(ts.(priceChanges := [0.0] + cs))
  }

  /**
   * The dates are every key of the input, each once, in ascending order; every other column but
   * the prices has one entry per date, and the prices one per day with records.
   */
  lemma ExtractedShape(daily: map<string, seq<Record>>, parse: string -> Option<real>, validDate: string -> bool)
    requires Extracted(daily, parse, validDate).Ok?
    ensures var ts := Extracted(daily, parse, validDate).value;
            && StrictlySorted(ts.dates)
            && (forall day :: day in daily <==> day in ts.dates)
            && |ts.dates| == |daily|
            && |ts.liquidationCounts| == |ts.avgHealthFactors| == |ts.avgImpermanentLosses| == |ts.dates|
            && |ts.seedPrices| == |ts.closePrices| == PricedDays(daily, ts.dates)
            && Changes(ts.closePrices).Ok?
            && ts.priceChanges == [0.0] + Changes(ts.closePrices).value
            && |ts.priceChanges| == (if ts.closePrices == [] then 1 else |ts.closePrices|)
  {
  }

  /** Each date's entries are its liquidation count, average health factor and average loss. */
  lemma ExtractedDay(daily: map<string, seq<Record>>, parse: string -> Option<real>,
                     validDate: string -> bool, i: nat)
    requires Extracted(daily, parse, validDate).Ok?
    requires i < |Extracted(daily, parse, validDate).value.dates|
    ensures var ts := Extracted(daily, parse, validDate).value;
            && ts.dates[i] in daily
            && ts.liquidationCounts[i] == YesCount(daily[ts.dates[i]])
            && ts.avgHealthFactors[i] == DayLedger.Average(HealthValues(daily[ts.dates[i]], parse))
            && ts.avgImpermanentLosses[i] == LoanShrinkSim.MeanOrZero(IlValues(daily[ts.dates[i]], parse))
  {
    CollectedAt(daily, SortedKeys(daily.Keys), parse, validDate, i);
  }

  /** The extraction raises ValueError exactly when some day's date or first prices do not parse. */
  lemma ExtractedParseFails(daily: map<string, seq<Record>>, parse: string -> Option<real>, validDate: string -> bool)
    ensures Extracted(daily, parse, validDate) == Err(ParseError) <==>
              exists day :: day in daily && DayFails(daily, day, parse, validDate)
  {
    var days := SortedKeys(daily.Keys);
    CollectedFails(daily, days, parse, validDate);
    if exists day :: day in daily && DayFails(daily, day, parse, validDate) {
      var day :| day in daily && DayFails(daily, day, parse, validDate);
      var k :| 0 <= k < |days| && days[k] == day;
    }
  }

  /**
   * The extraction raises ZeroDivisionError exactly when every day parses and a close other than
   * the last one is zero.
   */
  lemma ExtractedZeroDivision(daily: map<string, seq<Record>>, parse: string -> Option<real>, validDate: string -> bool)
    ensures Extracted(daily, parse, validDate) == Err(ZeroDivision) <==>
              && Collected(daily, SortedKeys(daily.Keys), parse, validDate).Ok?
              && var closes := Collected(daily, SortedKeys(daily.Keys), parse, validDate).value.closePrices;
                 exists i :: 0 <= i < |closes| - 1 && closes[i] == 0.0
  {
  }

  /** The loop over `hf_values`. */
  method HealthValuesOf(records: seq<Record>, parse: string -> Option<real>) returns (hs: seq<real>)
    ensures hs == HealthValues(records, parse)
  {
    ghost var vs := HealthFields(records, parse);
    hs := [];
    for i := 0 to |records|
      invariant hs == Parsed(vs[..i])
    {
      assert vs[..i + 1][..i] == vs[..i];
      var hfText := Strip(records[i].healthFactor);
      if hfText != "inf" {
        var parsed := parse(hfText);
        if parsed.Some? {
          hs := hs + [parsed.value];
        }
      }
    }
    assert vs[..|records|] == vs;
  }

  /** The loop over `il_values`. */
  method IlValuesOf(records: seq<Record>, parse: string -> Option<real>) returns (ils: seq<real>)
    ensures ils == IlValues(records, parse)
  {
    ghost var vs := IlFields(records, parse);
    ils := [];
    for i := 0 to |records|
      invariant ils == Parsed(vs[..i])
    {
      assert vs[..i + 1][..i] == vs[..i];
      var parsed := parse(Strip(records[i].impermanentLossPct));
      if parsed.Some? {
        ils := ils + [parsed.value];
      }
    }
    assert vs[..|records|] == vs;
  }

  /** One day of the loop: its count and averages appended, and its prices when it has records. */
  method AddDay(ts: Timeseries, day: string, records: seq<Record>, q: Option<Quote>,
                parse: string -> Option<real>) returns (ts': Timeseries)
    ensures ts' == Appended(ts, day, records, q, parse)
  {
    var liquidations := YesCount(records);
    var hfValues := HealthValuesOf(records, parse);
    var avgHf := if hfValues != [] then Lending.Fin(Sum(hfValues) / (|hfValues| as real)) else Lending.Inf;
    var ilValues := IlValuesOf(records, parse);
    var avgIl := if ilValues != [] then Sum(ilValues) / (|ilValues| as real) else 0.0;
    ts' := ts.(dates := ts.dates + [day],
               liquidationCounts := ts.liquidationCounts + [liquidations],
               avgHealthFactors := ts.avgHealthFactors + [avgHf],
               avgImpermanentLosses := ts.avgImpermanentLosses + [avgIl]);
    if q.Some? {
      ts' := ts'.(seedPrices := ts'.seedPrices + [q.value.seed], closePrices := ts'.closePrices + [q.value.close]);
    }
  }

  /** The loop over consecutive closes. */
  method ChangesOf(closes: seq<real>) returns (r: Result<seq<real>>)
    ensures r == Changes(closes)
  {
    var changes: seq<real> := [];
    var i := 1;
    while i < |closes|
      invariant 1 <= i
      invariant closes != [] ==> i <= |closes| && Changes(closes[..i]) == Ok(changes)
      invariant closes == [] ==> changes == []
    {
      if closes[i - 1] == 0.0 {
        assert i - 1 < |closes| - 1;
        return Err(ZeroDivision);
      }
      ChangesNext(closes, i);
      changes := changes + [((closes[i] - closes[i - 1]) / closes[i - 1]) * 100.0];
      i := i + 1;
    }
    if closes != [] {
      assert closes[..i] == closes;
    }
    r := Ok(changes);
  }

  lemma ChangesNext(closes: seq<real>, i: nat)
    requires 1 <= i < |closes| && Changes(closes[..i]).Ok? && closes[i - 1] != 0.0
    ensures Changes(closes[..i + 1])
            == Ok(Changes(closes[..i]).value + [((closes[i] - closes[i - 1]) / closes[i - 1]) * 100.0])
  {
    assert closes[..i + 1][..i] == closes[..i];
  }

  /** `extract_timeseries` over the records of each day. */
  method ExtractTimeseries(daily: map<string, seq<Record>>, parse: string -> Option<real>,
                           validDate: string -> bool) returns (r: Result<Timeseries>)
    ensures r == Extracted(daily, parse, validDate)
  {
    var days := SortKeys(daily.Keys);
    var ts := NoDays;
    var d := 0;
    while d < |days|
      invariant d <= |days|
      invariant Collected(daily, days[..d], parse, validDate) == Ok(ts)
    {
      var day := days[d];
      var records := daily[day];
      CollectedNext(daily, days, d, ts, parse, validDate);
      if !validDate(day) {
        assert DayFails(daily, days[d], parse, validDate);
        CollectedFails(daily, days, parse, validDate);
        return Err(ParseError);
      }
      var q := FirstQuote(records, parse);
      if q.Err? {
        assert DayFails(daily, days[d], parse, validDate);
        CollectedFails(daily, days, parse, validDate);
        return Err(ParseError);
      }
      ts := AddDay(ts, day, records, q.value, parse);
      d := d + 1;
    }
    assert days[..d] == days;
    var changes := ChangesOf(ts.closePrices);
    if changes.Err? {
      return Err(ZeroDivision);
    }
    r := Ok(ts.(priceChanges := [0.0] + changes.value));
  }

  /** Python's `int()` of a float: the integer part, rounding toward zero. */
  function Truncate(x: real): (n: int)
    ensures 0.0 <= x ==> n as real <= x < n as real + 1.0
    ensures x < 0.0 ==> n as real - 1.0 < x <= n as real
  {
    if 0.0 <= x then x.Floor else -((-x).Floor)
  }

  /** `int(close_price / 100) * 100`: the 100-USDC bucket a close falls in. */
  function PriceBucket(close: real): (b: int)
    ensures b % 100 == 0
    ensures 0.0 <= close ==> b as real <= close < b as real + 100.0
    ensures close < 0.0 ==> b as real - 100.0 < close <= b as real
  {
    Truncate(close / 100.0) * 100
  }

  /** The bucket of a non-negative close is the only multiple of 100 at most 100 below it. */
  lemma BucketUnique(close: real, m: int)
    requires 0.0 <= close && m % 100 == 0 && m as real <= close < m as real + 100.0
    ensures PriceBucket(close) == m
  {
    var b := PriceBucket(close);
    var q := m / 100;
    var p := b / 100;
    assert m == 100 * q && b == 100 * p;
  }

  /** A higher close never falls in a lower bucket. */
  lemma BucketMonotone(a: real, b: real)
    requires a <= b
    ensures PriceBucket(a) <= PriceBucket(b)
  {
    var x := PriceBucket(a);
    var y := PriceBucket(b);
    assert x == 100 * (x / 100) && y == 100 * (y / 100);
  }

  datatype Strength = Weak | Moderate | Strong
  datatype Direction = Positive | Negative

  function Abs(x: real): real
  {
    if x < 0.0 then -x else x
  }

  /** The wording of a correlation coefficient's size: three bands of `|r|`, split at 0.3 and 0.7. */
  function StrengthOf(r: real): (s: Strength)
    ensures s == Weak <==> Abs(r) < 0.3
    ensures s == Strong <==> 0.7 <= Abs(r)
  {
    if Abs(r) < 0.3 then Weak else if Abs(r) < 0.7 then Moderate else Strong
  }

  /** The wording of its sign; a zero coefficient reads as negative. */
  function DirectionOf(r: real): (d: Direction)
    ensures d == Positive <==> 0.0 < r
  {
    if r > 0.0 then Positive else Negative
  }
}
