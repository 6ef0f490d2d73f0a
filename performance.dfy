/**
  Trailing price performance (`get_price_change` and its nested
  `get_return`): for each lookback window, the base is the close of the last
  bar dated on or before the latest bar's date minus the window, and the
  figure is the percentage change from that base to the latest close.
 */
module Performance {
  import opened Wrappers

  /** One daily bar of the history: its date as a day number, and its close. */
  datatype Bar = Bar(day: int, close: real)

  /**
    One window's figure: "N/A", the exact percentage change, or the
    non-finite float (inf or nan) that a zero base close produces.
   */
  datatype Change = NotAvailable | Percent(pct: real) | NonFinite

  /** The "3m", "6m" and "12m" entries. */
  datatype Perf = Perf(m3: Change, m6: Change, m12: Change)

  const AllNA: Perf := Perf(NotAvailable, NotAvailable, NotAvailable)

  /** Bars in date order, oldest first, as the history comes back. */
  predicate Ascending(bars: seq<Bar>) {
    forall i, j :: 0 <= i < j < |bars| ==> bars[i].day <= bars[j].day
  }

  /** `hist[hist.index <= target]` followed by `[-1]`: the last such bar, if any. */
  function LastOnOrBefore(bars: seq<Bar>, target: int): (r: Option<nat>)
    ensures r.None? <==> forall j :: 0 <= j < |bars| ==> bars[j].day > target
    ensures r.Some? ==>
      && r.value < |bars|
      && bars[r.value].day <= target
      && forall j :: r.value < j < |bars| ==> bars[j].day > target
    decreases |bars|
  {
    if bars == [] then None
    else if bars[|bars| - 1].day <= target then Some(|bars| - 1)
    else LastOnOrBefore(bars[..|bars| - 1], target)
  }

  /** `get_return(days)`, before rounding and formatting. */
  function GetReturn(bars: seq<Bar>, days: int): (r: Change)
    requires bars != []
    ensures r == NotAvailable <==> forall j :: 0 <= j < |bars| ==> bars[j].day > bars[|bars| - 1].day - days
  {
    var latest := bars[|bars| - 1];
    match LastOnOrBefore(bars, latest.day - days)
    case None => NotAvailable
    case Some(k) =>
      var base := bars[k].close;
      if base == 0.0 then NonFinite else Percent((latest.close - base) / base * 100.0)
  }

  /** The percentage, multiplied back by its base, gives the change times 100. */
  lemma PercentOfBase(latest: real, base: real)
    requires base != 0.0
    ensures (latest - base) / base * 100.0 * base == (latest - base) * 100.0
  {
  }

  /**
    Bar `k` is the base of the window of `days` days and `c` is its figure:
    the last bar dated on or before the target date, which for a date-ordered
    history is the most recent such bar; the figure is the change from its
    close to the latest close.
   */
  ghost predicate IsBase(bars: seq<Bar>, days: int, k: int, c: Change)
    requires bars != []
  {
    var target := bars[|bars| - 1].day - days;
    var latest := bars[|bars| - 1].close;
    && 0 <= k < |bars| && bars[k].day <= target
    && (forall j :: k < j < |bars| ==> bars[j].day > target)
    && (Ascending(bars) ==> forall j :: 0 <= j < |bars| && bars[j].day <= target ==> bars[j].day <= bars[k].day)
    && (bars[k].close == 0.0 <==> c == NonFinite)
    && (bars[k].close != 0.0 ==> c.Percent? && c.pct * bars[k].close == (latest - bars[k].close) * 100.0)
  }

  /** `c` is what the window of `days` days shows: "N/A" without a base bar, otherwise the base's figure. */
  ghost predicate WindowFigure(bars: seq<Bar>, days: int, c: Change)
    requires bars != []
  {
    && (c == NotAvailable <==> forall j :: 0 <= j < |bars| ==> bars[j].day > bars[|bars| - 1].day - days)
    && (c != NotAvailable ==> exists k :: IsBase(bars, days, k, c))
  }

  lemma BaseBar(bars: seq<Bar>, days: int)
    requires bars != []
    requires GetReturn(bars, days) != NotAvailable
    ensures exists k :: IsBase(bars, days, k, GetReturn(bars, days))
  {
    var target := bars[|bars| - 1].day - days;
    var k := LastOnOrBefore(bars, target).value;
    if Ascending(bars) {
      forall j | 0 <= j < |bars| && bars[j].day <= target
        ensures bars[j].day <= bars[k].day
      {
        assert j <= k;
      }
    }
    if bars[k].close != 0.0 {
      PercentOfBase(bars[|bars| - 1].close, bars[k].close);
    }
    assert IsBase(bars, days, k, GetReturn(bars, days));
  }

  /** The window's figure is `GetReturn`'s. */
  lemma ReturnFigure(bars: seq<Bar>, days: int)
    requires bars != []
    ensures WindowFigure(bars, days, GetReturn(bars, days))
  {
    if GetReturn(bars, days) != NotAvailable {
      BaseBar(bars, days);
    }
  }

  /** A non-zero factor cancels. */
  lemma CancelFactor(x: real, y: real, b: real)
    requires b != 0.0 && x * b == y * b
    ensures x == y
  {
    assert (x - y) * b == 0.0;
  }

  /** A window shows one figure only: the base bar and the change from it are fixed. */
  lemma WindowFigureUnique(bars: seq<Bar>, days: int, c1: Change, c2: Change)
    requires bars != []
    requires WindowFigure(bars, days, c1) && WindowFigure(bars, days, c2)
    ensures c1 == c2
  {
    if c1 != NotAvailable {
      var k1 :| IsBase(bars, days, k1, c1);
      var k2 :| IsBase(bars, days, k2, c2);
      assert k1 == k2 by {
        var target := bars[|bars| - 1].day - days;
        assert !(k1 < k2) && !(k2 < k1);
      }
      assert IsBase(bars, days, k1, c2);
      var b := bars[k1].close;
      if b != 0.0 {
        var x := (bars[|bars| - 1].close - b) * 100.0;
        assert c1.Percent? && c1.pct * b == x;
        assert c2.Percent? && c2.pct * b == x;
        CancelFactor(c1.pct, c2.pct, b);
      }
    }
  }

  /** A longer window's target date is earlier, so it is "N/A" whenever a shorter one is. */
  lemma WindowsNest(bars: seq<Bar>, d1: int, d2: int)
    requires bars != []
    requires d1 <= d2
    ensures GetReturn(bars, d1) == NotAvailable ==> GetReturn(bars, d2) == NotAvailable
  {
  }

  /** `get_price_change` from the point where the history has been asked for. */
  function PriceChange(hist: Option<seq<Bar>>): (r: Perf)
    ensures hist.None? || hist == Some([]) ==> r == AllNA
    ensures hist.Some? && hist.value != [] ==>
      && WindowFigure(hist.value, 90, r.m3)
      && WindowFigure(hist.value, 180, r.m6)
      && WindowFigure(hist.value, 365, r.m12)
    ensures r.m12 != NotAvailable ==> r.m6 != NotAvailable
    ensures r.m6 != NotAvailable ==> r.m3 != NotAvailable
  {
    match hist
    case None => AllNA
    case Some(bars) =>
      if bars == [] then AllNA
      else
        WindowsNest(bars, 90, 180);
        WindowsNest(bars, 180, 365);
        ReturnFigure(bars, 90);
        ReturnFigure(bars, 180);
        ReturnFigure(bars, 365);
        Perf(GetReturn(bars, 90), GetReturn(bars, 180), GetReturn(bars, 365))
  }

  /** With less than 90 days between the first and the latest bar, every window is "N/A". */
  lemma ShortHistory(bars: seq<Bar>)
    requires bars != [] && Ascending(bars)
    requires bars[|bars| - 1].day - bars[0].day < 90
    ensures PriceChange(Some(bars)) == AllNA
  {
  }
}
