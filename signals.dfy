/**
  The signal classifier of the bot (`analiz_motoru`): a deterministic, first-match-wins
  rule table over a symbol's recent samples and its current sample.
 */
module Signals {

  /** One observation of a symbol: last price, 24h quote volume and relative volume. */
  datatype Sample = Sample(lastPrice: real, quoteVolume: real, rvol: real)

  /** The classifier's labels; the display strings of the source are not modelled. */
  datatype Label = AwaitingData | Observing | Breakout | Momentum | Whale | Weak | Dump | Stable

  datatype Status = Bullish | Bearish | Neutral

  datatype Signal = Signal(message: Label, status: Status)

  /** The status the rule table pairs with each label. */
  function StatusOf(l: Label): Status
  {
    match l
    case Breakout | Momentum | Whale => Bullish
    case Weak | Dump => Bearish
    case AwaitingData | Observing | Stable => Neutral
  }

  function Abs(x: real): real { if x < 0.0 then -x else x }

  /** Percentage move from `prev` to `now`; a non-positive previous price counts as no move. */
  function PriceChange(prev: real, now: real): real
  {
    if prev > 0.0 then (now - prev) / prev * 100.0 else 0.0
  }

  function Prices(h: seq<Sample>): (r: seq<real>)
    ensures |r| == |h| && forall i :: 0 <= i < |h| ==> r[i] == h[i].lastPrice
  {
    seq(|h|, i requires 0 <= i < |h| => h[i].lastPrice)
  }

  function Volumes(h: seq<Sample>): (r: seq<real>)
    ensures |r| == |h| && forall i :: 0 <= i < |h| ==> r[i] == h[i].quoteVolume
  {
    seq(|h|, i requires 0 <= i < |h| => h[i].quoteVolume)
  }

  function Rvols(h: seq<Sample>): (r: seq<real>)
    ensures |r| == |h| && forall i :: 0 <= i < |h| ==> r[i] == h[i].rvol
  {
    seq(|h|, i requires 0 <= i < |h| => h[i].rvol)
  }

  /**
    The classifier as the source writes it: a missing history gives AwaitingData, fewer
    than two stored samples give Observing, otherwise the current sample is appended to
    the stored price, volume and relative-volume columns and the rules are tried in order.
   */
  function Classify(history: map<string, seq<Sample>>, symbol: string, current: Sample): (r: Signal)
    ensures r.status == StatusOf(r.message)
    ensures r.message in {AwaitingData, Observing} <==> symbol !in history || |history[symbol]| < 2
    ensures r.message == AwaitingData <==> symbol !in history
  {
    if symbol !in history then Signal(AwaitingData, Neutral)
    else
      var h := history[symbol];
      if |h| < 2 then Signal(Observing, Neutral)
      else
        var prices := Prices(h) + [current.lastPrice];
        var volumes := Volumes(h) + [current.quoteVolume];
        var rvols := Rvols(h) + [current.rvol];
        var n := |prices|;
        var rvolNow := rvols[n - 1];
        var chg := PriceChange(prices[n - 2], prices[n - 1]);
        if rvolNow > 3.0 && chg > 1.0 then Signal(Breakout, Bullish)
        else if |volumes| >= 3 && volumes[n - 1] > volumes[n - 2] > volumes[n - 3] && chg > 0.3 then Signal(Momentum, Bullish)
        else if rvolNow > 5.0 && Abs(chg) < 0.5 then Signal(Whale, Bullish)
        else if chg > 0.0 && rvolNow < 0.8 then Signal(Weak, Bearish)
        else if chg < -1.0 && rvolNow > 2.0 then Signal(Dump, Bearish)
        else Signal(Stable, Neutral)
  }

  // ---------------------------------------------------------------------------
  // An independent statement of the rule table: the three quantities the rules
  // read, each rule as a condition, and its place in the priority order.

  datatype Features = Features(change: real, rvolNow: real, risingVolume: bool)

  /** What the rules read from a stored window of at least two samples and the current sample. */
  function FeaturesOf(h: seq<Sample>, current: Sample): Features
    requires |h| >= 2
  {
    Features(PriceChange(h[|h| - 1].lastPrice, current.lastPrice),
             current.rvol,
             h[|h| - 2].quoteVolume < h[|h| - 1].quoteVolume < current.quoteVolume)
  }

  /** The condition of each rule; the two cold-start labels are not rules. */
  predicate Fires(l: Label, f: Features)
  {
    match l
    case Breakout => f.rvolNow > 3.0 && f.change > 1.0
    case Momentum => f.risingVolume && f.change > 0.3
    case Whale => f.rvolNow > 5.0 && Abs(f.change) < 0.5
    case Weak => f.change > 0.0 && f.rvolNow < 0.8
    case Dump => f.change < -1.0 && f.rvolNow > 2.0
    case Stable => true
    case AwaitingData | Observing => false
  }

  /** Position of each rule in the priority order. */
  function Rank(l: Label): nat
  {
    match l
    case Breakout => 0
    case Momentum => 1
    case Whale => 2
    case Weak => 3
    case Dump => 4
    case Stable => 5
    case AwaitingData | Observing => 6
  }

  /** `l` fires and no rule of higher priority does. */
  predicate FirstMatch(l: Label, f: Features)
  {
    Fires(l, f) && forall l' :: Rank(l') < Rank(l) ==> !Fires(l', f)
  }

  /** With a warm history, Classify returns exactly the first rule that fires. */
  lemma ClassifyIsFirstMatch(history: map<string, seq<Sample>>, symbol: string, current: Sample)
    requires symbol in history && |history[symbol]| >= 2
    ensures forall l :: FirstMatch(l, FeaturesOf(history[symbol], current)) <==> l == Classify(history, symbol, current).message
  {
    var h := history[symbol];
    var f := FeaturesOf(h, current);
    var prices := Prices(h) + [current.lastPrice];
    var volumes := Volumes(h) + [current.quoteVolume];
    var n := |prices|;
    assert prices[n - 2] == h[|h| - 1].lastPrice && prices[n - 1] == current.lastPrice;
    assert volumes[n - 3] == h[|h| - 2].quoteVolume && volumes[n - 2] == h[|h| - 1].quoteVolume;
    var r := Classify(history, symbol, current).message;
    assert Rank(r) < 6;
    forall l
      ensures FirstMatch(l, f) <==> l == r
    {
      if l != r && FirstMatch(l, f) {
        assert Rank(l) != Rank(r);
        assert Fires(r, f);
      }
    }
  }

  /** Priority: a volume spike with a rise above 1% is a breakout, whatever else holds. */
  lemma BreakoutWins(history: map<string, seq<Sample>>, symbol: string, current: Sample)
    requires symbol in history && |history[symbol]| >= 2
    requires current.rvol > 3.0
    requires PriceChange(history[symbol][|history[symbol]| - 1].lastPrice, current.lastPrice) > 1.0
    ensures Classify(history, symbol, current) == Signal(Breakout, Bullish)
  {
    ClassifyIsFirstMatch(history, symbol, current);
    assert FirstMatch(Breakout, FeaturesOf(history[symbol], current));
  }

  /** Cold start: with no history or a single stored sample the status is neutral. */
  lemma ColdStartIsNeutral(history: map<string, seq<Sample>>, symbol: string, current: Sample)
    requires symbol !in history || |history[symbol]| < 2
    ensures Classify(history, symbol, current).status == Neutral
  {
  }

  /**
    When the previously stored price is not positive the change counts as zero, so only
    the whale rule or the fallback can match.
   */
  lemma NoPreviousPriceMeansNoTrend(history: map<string, seq<Sample>>, symbol: string, current: Sample)
    requires symbol in history && |history[symbol]| >= 2
    requires history[symbol][|history[symbol]| - 1].lastPrice <= 0.0
    ensures Classify(history, symbol, current).message in {Whale, Stable}
  {
    ClassifyIsFirstMatch(history, symbol, current);
    var f := FeaturesOf(history[symbol], current);
    assert f.change == 0.0;
    if current.rvol > 5.0 {
      assert FirstMatch(Whale, f);
    } else {
      assert FirstMatch(Stable, f);
    }
  }

  /** A sample that repeats the last stored price can never produce a trend label. */
  lemma RepeatedPriceMeansNoTrend(history: map<string, seq<Sample>>, symbol: string, current: Sample)
    requires symbol in history && |history[symbol]| >= 1
    requires history[symbol][|history[symbol]| - 1].lastPrice == current.lastPrice
    ensures Classify(history, symbol, current).message in {Observing, Whale, Stable}
  {
    if |history[symbol]| >= 2 {
      ClassifyIsFirstMatch(history, symbol, current);
      var f := FeaturesOf(history[symbol], current);
      assert f.change == 0.0;
      if current.rvol > 5.0 {
        assert FirstMatch(Whale, f);
      } else {
        assert FirstMatch(Stable, f);
      }
    }
  }
}
