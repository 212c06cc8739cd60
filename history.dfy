/**
  The per-symbol signal history (`hafizayi_guncelle`): each symbol keeps a FIFO window of
  at most `HistorySize` samples; recording appends at the end and evicts the oldest
  sample once the window overflows.
 */
module History {
  import opened Signals

  const HistorySize: nat := 6

  type Windows = map<string, seq<Sample>>

  /** One row of the scanned market table: a symbol and the sample it contributes. */
  datatype Row = Row(symbol: string, sample: Sample)

  /** The last `n` elements of `s` (all of `s` when it is shorter). */
  function Latest<T>(s: seq<T>, n: nat): (r: seq<T>)
    ensures |r| == if |s| <= n then |s| else n
  {
    if |s| <= n then s else s[|s| - n..]
  }

  /** Append `x` to one window, dropping the oldest sample when the window overflows. */
  function Record(w: seq<Sample>, x: Sample): seq<Sample>
  {
    var grown := w + [x];
    if |grown| > HistorySize then grown[1..] else grown
  }

  /** The recorded sample is the newest one of the window. */
  lemma RecordEndsWith(w: seq<Sample>, x: Sample)
    ensures var r := Record(w, x); |r| >= 1 && r[|r| - 1] == x
  {
  }

  /** A symbol seen for the first time starts with a one-sample window. */
  lemma FirstRecordStartsWindow(h: Windows, row: Row)
    requires row.symbol !in h
    ensures row.symbol in RecordRow(h, row) && RecordRow(h, row)[row.symbol] == [row.sample]
  {
  }

  /** The window of `symbol`, empty for a symbol never recorded. */
  function WindowOf(h: Windows, symbol: string): seq<Sample>
  {
    if symbol in h then h[symbol] else []
  }

  /** Record one row; a symbol seen for the first time starts from an empty window. */
  function RecordRow(h: Windows, row: Row): Windows
  {
    h[row.symbol := Record(WindowOf(h, row.symbol), row.sample)]
  }

  /** Record the first `n` rows of one scan, in table order. */
  function RecordRows(h: Windows, rows: seq<Row>, n: nat): Windows
    requires n <= |rows|
  {
    if n == 0 then h
    else RecordRow(RecordRows(h, rows, n - 1), rows[n - 1])
  }

  /** Every window holds at most `HistorySize` samples. */
  ghost predicate Bounded(h: Windows)
  {
    forall s :: s in h ==> |h[s]| <= HistorySize
  }

  /** The samples the first `n` rows contribute to `symbol`, in table order. */
  function SamplesFor(rows: seq<Row>, n: nat, symbol: string): (r: seq<Sample>)
    requires n <= |rows|
    ensures |r| <= n
  {
    if n == 0 then []
    else SamplesFor(rows, n - 1, symbol) + (if rows[n - 1].symbol == symbol then [rows[n - 1].sample] else [])
  }

  /** Recording onto the latest `n` samples keeps the latest `n` of the longer sequence. */
  lemma {:induction false} RecordLatest(s: seq<Sample>, x: Sample)
    ensures Record(Latest(s, HistorySize), x) == Latest(s + [x], HistorySize)
  {
    var t := s + [x];
    if |s| > HistorySize {
      calc {
        Record(Latest(s, HistorySize), x);
        (s[|s| - HistorySize..] + [x])[1..];
        { assert (s[|s| - HistorySize..] + [x])[1..] == s[|s| - HistorySize + 1..] + [x]; }
        s[|s| - HistorySize + 1..] + [x];
        { assert t[|t| - HistorySize..] == s[|s| - HistorySize + 1..] + [x]; }
        Latest(t, HistorySize);
      }
    }
  }

  /** How recording one row changes the window of any symbol. */
  lemma RecordRowWindow(h: Windows, row: Row, symbol: string)
    ensures symbol in RecordRow(h, row) <==> symbol in h || row.symbol == symbol
    ensures WindowOf(RecordRow(h, row), symbol)
         == if row.symbol == symbol then Record(WindowOf(h, symbol), row.sample) else WindowOf(h, symbol)
  {
  }

  /**
    After a scan, a symbol's window is the latest `HistorySize` samples of its old window
    followed by the samples the rows contributed, oldest first; the window exists exactly
    when the symbol was known before or appears in the rows.
   */
  lemma {:induction false} RecordRowsWindow(h: Windows, rows: seq<Row>, n: nat, symbol: string)
    requires n <= |rows|
    ensures symbol in RecordRows(h, rows, n) <==> symbol in h || |SamplesFor(rows, n, symbol)| > 0
    ensures Bounded(h) ==>
      WindowOf(RecordRows(h, rows, n), symbol) == Latest(WindowOf(h, symbol) + SamplesFor(rows, n, symbol), HistorySize)
  {
    if n == 0 {
      assert WindowOf(h, symbol) + [] == WindowOf(h, symbol);
    } else {
      RecordRowsWindow(h, rows, n - 1, symbol);
      RecordRowWindow(RecordRows(h, rows, n - 1), rows[n - 1], symbol);
      if Bounded(h) {
        RecordRowsWindowStep(h, rows, n, symbol);
      }
    }
  }

  /** The inductive step of RecordRowsWindow for the window itself. */
  lemma RecordRowsWindowStep(h: Windows, rows: seq<Row>, n: nat, symbol: string)
    requires 0 < n <= |rows|
    requires WindowOf(RecordRows(h, rows, n - 1), symbol)
          == Latest(WindowOf(h, symbol) + SamplesFor(rows, n - 1, symbol), HistorySize)
    ensures WindowOf(RecordRows(h, rows, n), symbol)
         == Latest(WindowOf(h, symbol) + SamplesFor(rows, n, symbol), HistorySize)
  {
    var w := WindowOf(h, symbol);
    var before := SamplesFor(rows, n - 1, symbol);
    var row := rows[n - 1];
    RecordRowWindow(RecordRows(h, rows, n - 1), row, symbol);
    if row.symbol == symbol {
      RecordLatest(w + before, row.sample);
      assert w + before + [row.sample] == w + SamplesFor(rows, n, symbol);
    } else {
      assert SamplesFor(rows, n, symbol) == before + [] == before;
    }
  }

  /** A scan keeps every window within capacity. */
  lemma RecordRowsBounded(h: Windows, rows: seq<Row>, n: nat)
    requires n <= |rows| && Bounded(h)
    ensures Bounded(RecordRows(h, rows, n))
  {
    forall s | s in RecordRows(h, rows, n)
      ensures |RecordRows(h, rows, n)[s]| <= HistorySize
    {
      RecordRowsWindow(h, rows, n, s);
    }
  }

  /** No later row among the first `n` carries the symbol of row `i`. */
  predicate LastOccurrence(rows: seq<Row>, n: nat, i: nat)
    requires i < n <= |rows|
  {
    forall j :: i < j < n ==> rows[j].symbol != rows[i].symbol
  }

  /**
    The row a symbol last appears in supplies the newest sample of that symbol's window.
   */
  lemma {:induction false} RecordRowsNewestLast(h: Windows, rows: seq<Row>, n: nat, i: nat)
    requires i < n <= |rows| && LastOccurrence(rows, n, i)
    ensures rows[i].symbol in RecordRows(h, rows, n)
    ensures var w := WindowOf(RecordRows(h, rows, n), rows[i].symbol); |w| >= 1 && w[|w| - 1] == rows[i].sample
  {
    var mid := RecordRows(h, rows, n - 1);
    RecordRowWindow(mid, rows[n - 1], rows[i].symbol);
    if i < n - 1 {
      RecordRowsNewestLast(h, rows, n - 1, i);
    } else {
      RecordEndsWith(WindowOf(mid, rows[i].symbol), rows[i].sample);
    }
  }

  /**
    The session's signal history, updated in place by each scan.
   */
  class SignalHistory {
    var windows: Windows

    ghost predicate Valid()
      reads this
    {
      Bounded(windows)
    }

    constructor ()
      ensures Valid() && windows == map[]
    {
      windows := map[];
    }

    /** Record every row of a scan, in table order. */
    method Update(rows: seq<Row>)
      requires Valid()
      modifies this
      ensures Valid()
      ensures windows == RecordRows(old(windows), rows, |rows|)
    {
      for i := 0 to |rows|
        invariant windows == RecordRows(old(windows), rows, i)
      {
        var row := rows[i];
        var w := if row.symbol in windows then windows[row.symbol] else [];
        w := w + [row.sample];
        if |w| > HistorySize {
          w := w[1..];
        }
        assert w == Record(WindowOf(windows, row.symbol), row.sample);
        windows := windows[row.symbol := w];
      }
      RecordRowsBounded(old(windows), rows, |rows|);
    }
  }
}
