/** Market analytics: the split of a price series into the solid "actual" line and
    the dashed "forecast" line that join at the last historical point, and the
    impact calculator's current and predicted prices. */
module Market {
  import opened Wrappers

  /** One point of the trend series; `date` is display-only and left out. */
  datatype PricePoint = PricePoint(price: real, isForecast: bool)

  /** A point as the chart draws it; `None` leaves a gap in that series. */
  datatype ChartPoint = ChartPoint(price: real, isForecast: bool, actualPrice: Option<real>, forecastPrice: Option<real>)

  /** A historical point directly followed by a forecast one: it is drawn on both
      lines so they meet. The last point has no successor, so it is never one. */
  predicate IsTransition(data: seq<PricePoint>, i: nat)
    requires i < |data|
  {
    !data[i].isForecast && i + 1 < |data| && data[i + 1].isForecast
  }

  function ChartPointAt(data: seq<PricePoint>, i: nat): ChartPoint
    requires i < |data|
  {
    var p := data[i];
    var joins := IsTransition(data, i);
    ChartPoint(p.price, p.isForecast,
      if !p.isForecast || joins then Some(p.price) else None,
      if p.isForecast || joins then Some(p.price) else None)
  }

  /** `chartData`: the series with each point assigned to its line or lines. */
  function ChartData(data: seq<PricePoint>): (r: seq<ChartPoint>)
    ensures |r| == |data|
    ensures forall i :: 0 <= i < |data| ==>
      r[i].price == data[i].price && r[i].isForecast == data[i].isForecast
    ensures forall i :: 0 <= i < |data| ==>
      (r[i].actualPrice.Some? <==> !data[i].isForecast || IsTransition(data, i))
    ensures forall i :: 0 <= i < |data| ==>
      (r[i].forecastPrice.Some? <==> data[i].isForecast || IsTransition(data, i))
    ensures forall i :: 0 <= i < |data| ==>
      r[i].actualPrice.GetOr(data[i].price) == data[i].price
      && r[i].forecastPrice.GetOr(data[i].price) == data[i].price
  {
    if |data| == 0 then []
    else seq(|data|, i requires 0 <= i < |data| => ChartPointAt(data, i))
  }

  /** Every point is drawn on at least one line, and on both exactly where the
      two lines join. */
  lemma ChartPointsCovered(data: seq<PricePoint>, i: nat)
    requires i < |data|
    ensures ChartData(data)[i].actualPrice.Some? || ChartData(data)[i].forecastPrice.Some?
    ensures ChartData(data)[i].actualPrice.Some? && ChartData(data)[i].forecastPrice.Some?
      <==> IsTransition(data, i)
  {
  }

  predicate AllHistorical(s: seq<PricePoint>) {
    forall i :: 0 <= i < |s| ==> !s[i].isForecast
  }

  predicate AllForecast(s: seq<PricePoint>) {
    forall i :: 0 <= i < |s| ==> s[i].isForecast
  }

  /** For a history followed by a forecast, the lines join at the last
      historical point and nowhere else. */
  lemma HistoryThenForecastJoin(history: seq<PricePoint>, forecast: seq<PricePoint>)
    requires AllHistorical(history) && AllForecast(forecast)
    requires |history| > 0 && |forecast| > 0
    ensures forall i :: 0 <= i < |history + forecast| ==>
      (IsTransition(history + forecast, i) <==> i == |history| - 1)
  {
    var data := history + forecast;
    forall i | 0 <= i < |data|
      ensures IsTransition(data, i) <==> i == |history| - 1
    {
      if i < |history| - 1 {
        assert data[i + 1] == history[i + 1];
      } else if i == |history| - 1 {
        assert data[i + 1] == forecast[0];
      } else {
        assert data[i] == forecast[i - |history|];
      }
    }
  }

  /** Position of the last historical point, as `findLast` locates it. */
  function LastActualIndex(data: seq<PricePoint>): (r: Option<nat>)
    ensures r.None? <==> AllForecast(data)
    ensures r.Some? ==> r.value < |data| && !data[r.value].isForecast
    ensures r.Some? ==> forall j :: r.value < j < |data| ==> data[j].isForecast
  {
    if |data| == 0 then None
    else if !data[|data| - 1].isForecast then Some(|data| - 1)
    else
      var front := data[..|data| - 1];
      assert forall j :: 0 <= j < |front| ==> front[j] == data[j];
      LastActualIndex(front)
  }

  /** The latest historical price, or 0 when the series has none. */
  function CurrentPrice(data: seq<PricePoint>): (p: real)
    ensures AllForecast(data) ==> p == 0.0
    ensures !AllForecast(data) ==> exists k :: (0 <= k < |data| && !data[k].isForecast
      && (forall j :: k < j < |data| ==> data[j].isForecast) && p == data[k].price)
  {
    match LastActualIndex(data)
    case None => 0.0
    case Some(k) => data[k].price
  }

  /** The price at the end of the series (the furthest forecast), or 0 for no data. */
  function PredictedPrice(data: seq<PricePoint>): (p: real)
    ensures |data| == 0 ==> p == 0.0
    ensures |data| > 0 ==> p == data[|data| - 1].price
  {
    if |data| == 0 then 0.0 else data[|data| - 1].price
  }

  /** Projected gain of holding `grams` from today's price to the predicted one. */
  function Profit(grams: real, data: seq<PricePoint>): (r: real)
    ensures r == grams * (PredictedPrice(data) - CurrentPrice(data))
  {
    grams * PredictedPrice(data) - grams * CurrentPrice(data)
  }

  /** Without a forecast after the last historical point, the two prices agree
      and no profit is projected. */
  lemma NoForecastNoProfit(grams: real, data: seq<PricePoint>)
    requires |data| > 0 && !data[|data| - 1].isForecast
    ensures CurrentPrice(data) == PredictedPrice(data)
    ensures Profit(grams, data) == 0.0
  {
  }

  /** The calculator reads its prices off the chart: for a history followed by a
      forecast, the current price is where the actual and forecast lines join,
      and the predicted price is the end of the forecast line. */
  lemma CalculatorMatchesChart(history: seq<PricePoint>, forecast: seq<PricePoint>)
    requires AllHistorical(history) && AllForecast(forecast)
    requires |history| > 0 && |forecast| > 0
    ensures var data := history + forecast;
      var join := ChartData(data)[|history| - 1];
      join.actualPrice == Some(CurrentPrice(data)) && join.forecastPrice == Some(CurrentPrice(data))
    ensures var data := history + forecast;
      ChartData(data)[|data| - 1].forecastPrice == Some(PredictedPrice(data))
  {
    var data := history + forecast;
    HistoryThenForecastJoin(history, forecast);
    assert IsTransition(data, |history| - 1);
    assert data[|history| - 1] == history[|history| - 1];
    assert data[|data| - 1] == forecast[|forecast| - 1];
    assert forall i :: |history| <= i < |data| ==> data[i] == forecast[i - |history|];
    var k := LastActualIndex(data);
    assert !data[|history| - 1].isForecast;
    assert k.Some?;
    assert k.value >= |history| - 1;
    assert k.value < |history|;
  }
}
