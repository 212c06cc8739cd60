/**
  One market scan of the main loop: the scanned rows are written into the signal history
  and every row is classified. The loop as written records the rows first and classifies
  afterwards, so the classifier compares each sample with itself; the corrected order
  classifies against the windows of the previous scans and records afterwards.
 */
module Scan {
  import opened Signals
  import opened History

  /** The signals of a scan as the main loop computes them: record every row, then classify. */
  function SignalsAsWritten(h: Windows, rows: seq<Row>): seq<Signal>
  {
    var after := RecordRows(h, rows, |rows|);
    seq(|rows|, i requires 0 <= i < |rows| => Classify(after, rows[i].symbol, rows[i].sample))
  }

  /** The signals of a scan measured against the history of the previous scans. */
  function SignalsAgainstPrevious(h: Windows, rows: seq<Row>): seq<Signal>
  {
    seq(|rows|, i requires 0 <= i < |rows| => Classify(h, rows[i].symbol, rows[i].sample))
  }

  /**
    As written, a row whose symbol does not reappear later in the scan is classified
    against a window that already ends with its own sample: the price change is zero,
    so no breakout, momentum, weak or dump signal can ever be raised, and the only
    bullish signal left (the only one that can trigger a buy) is the whale signal.
   */
  lemma AsWrittenSeesNoTrend(h: Windows, rows: seq<Row>, i: nat)
    requires i < |rows| && LastOccurrence(rows, |rows|, i)
    ensures SignalsAsWritten(h, rows)[i].message in {Observing, Whale, Stable}
    ensures SignalsAsWritten(h, rows)[i].status == Bullish ==> SignalsAsWritten(h, rows)[i].message == Whale
  {
    var after := RecordRows(h, rows, |rows|);
    RecordRowsNewestLast(h, rows, |rows|, i);
    RepeatedPriceMeansNoTrend(after, rows[i].symbol, rows[i].sample);
    assert SignalsAsWritten(h, rows)[i] == Classify(after, rows[i].symbol, rows[i].sample);
  }

  /** Two flat samples of BTC at 100, then a scan quoting 110 on four times the usual volume. */
  function FlatHistory(): Windows
  {
    map["BTC" := [Sample(100.0, 1000.0, 1.0), Sample(100.0, 1000.0, 1.0)]]
  }

  function SpikeRows(): seq<Row>
  {
    [Row("BTC", Sample(110.0, 4000.0, 4.0))]
  }

  /**
    The concrete scan that shows the discrepancy: a 10% jump on four times the usual
    volume is a breakout against the previous scan, but the loop as written reports it
    as stable.
   */
  lemma AsWrittenMissesBreakout()
    ensures SignalsAsWritten(FlatHistory(), SpikeRows())[0] == Signal(Stable, Neutral)
    ensures SignalsAgainstPrevious(FlatHistory(), SpikeRows())[0] == Signal(Breakout, Bullish)
  {
    var h := FlatHistory();
    var rows := SpikeRows();
    var spike := rows[0].sample;
    var after := RecordRows(h, rows, 1);
    assert after == h["BTC" := h["BTC"] + [spike]];
    assert SignalsAsWritten(h, rows)[0] == Classify(after, "BTC", spike);
    assert PriceChange(after["BTC"][2].lastPrice, spike.lastPrice) == 0.0;
    assert SignalsAgainstPrevious(h, rows)[0] == Classify(h, "BTC", spike);
    assert PriceChange(100.0, 110.0) == 10.0;
    BreakoutWins(h, "BTC", spike);
  }

  /**
    In the corrected order each row with a warm history gets exactly the first rule that
    fires on the move from the price of the previous scan to its own price.
   */
  lemma AgainstPreviousIsFirstMatch(h: Windows, rows: seq<Row>, i: nat)
    requires i < |rows|
    requires rows[i].symbol in h && |h[rows[i].symbol]| >= 2
    ensures forall l :: FirstMatch(l, FeaturesOf(h[rows[i].symbol], rows[i].sample))
                        <==> l == SignalsAgainstPrevious(h, rows)[i].message
  {
    ClassifyIsFirstMatch(h, rows[i].symbol, rows[i].sample);
  }

  /** The main loop as written: the scan is recorded first, then every row is classified. */
  method ScanAsWritten(history: SignalHistory, rows: seq<Row>) returns (signals: seq<Signal>)
    requires history.Valid()
    modifies history
    ensures history.Valid() && history.windows == RecordRows(old(history.windows), rows, |rows|)
    ensures signals == SignalsAsWritten(old(history.windows), rows)
  {
    history.Update(rows);
    signals := [];
    for i := 0 to |rows|
      invariant signals == SignalsAsWritten(old(history.windows), rows)[..i]
    {
      signals := signals + [Classify(history.windows, rows[i].symbol, rows[i].sample)];
    }
  }

  /** The corrected scan: every row is classified against the previous scans, then recorded. */
  method ScanRows(history: SignalHistory, rows: seq<Row>) returns (signals: seq<Signal>)
    requires history.Valid()
    modifies history
    ensures history.Valid() && history.windows == RecordRows(old(history.windows), rows, |rows|)
    ensures signals == SignalsAgainstPrevious(old(history.windows), rows)
  {
    signals := [];
    for i := 0 to |rows|
      invariant signals == SignalsAgainstPrevious(history.windows, rows)[..i]
    {
      signals := signals + [Classify(history.windows, rows[i].symbol, rows[i].sample)];
    }
    history.Update(rows);
  }
}
