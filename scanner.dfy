/**
 * The batch scan: ask the per-ticker scan about each ticker in turn, append
 * every match to the results, and report the fraction of tickers done after
 * each one.
 */
module Scanner {
  import opened Wrappers
  import opened Selection

  /**
   * One row the per-ticker scan emits for a ticker that shows the setup:
   * Ticker, Close, RSI, RelVol, ATR%, ADX. The numbers are exact reals
   * standing for the rounded floats.
   */
  datatype MatchRecord = MatchRecord(ticker: string, close: real, rsi: real, relVol: real, atrPercent: real, adx: real)

  /** The progress value `done / total` once `done` of `total` tickers are processed. */
  function Fraction(done: nat, total: nat): (p: real)
    requires 0 < done <= total
    ensures 0.0 < p <= 1.0
    ensures p == 1.0 <==> done == total
  {
    done as real / total as real
  }

  /** Progress strictly increases with the number of tickers done. */
  lemma FractionIncreases(done: nat, done': nat, total: nat)
    requires 0 < done < done' <= total
    ensures Fraction(done, total) < Fraction(done', total)
  {
    var n := total as real;
    assert Fraction(done, total) * n == done as real;
    assert Fraction(done', total) * n == done' as real;
  }

  /**
   * The progress values pushed during a scan of `n` tickers, one per ticker:
   * after the ticker at index `i`, `i + 1` of `n` are done. They strictly
   * increase, lie in (0, 1], and the last is 1.
   */
  function ProgressReports(n: nat): (ps: seq<real>)
    ensures |ps| == n
    ensures forall i :: 0 <= i < n ==> ps[i] * n as real == (i + 1) as real
    ensures forall i :: 0 <= i < n ==> 0.0 < ps[i] <= 1.0
    ensures forall i, j :: 0 <= i < j < n ==> ps[i] < ps[j]
    ensures n > 0 ==> ps[n - 1] == 1.0
  {
    var ps := seq(n, i requires 0 <= i < n => Fraction(i + 1, n));
    forall i, j | 0 <= i < j < n ensures ps[i] < ps[j] {
      FractionIncreases(i + 1, j + 1, n);
    }
    ps
  }

  /**
   * The scan loop. `scanStock` stands for the per-ticker scan, whose answer
   * is a match record or nothing. `results` is the list of match records, in
   * ticker order, of the tickers the scan matched, and `reported` the
   * progress values pushed, one per ticker.
   */
  method ScanBatch(tickers: seq<string>, scanStock: string -> Option<MatchRecord>)
    returns (results: seq<MatchRecord>, reported: seq<real>)
    ensures results == FilterMap(tickers, scanStock)
    ensures reported == ProgressReports(|tickers|)
  {
    var n := |tickers|;
    results := [];
    reported := [];
    for i := 0 to n
      invariant results == FilterMap(tickers[..i], scanStock)
      invariant reported == ProgressReports(n)[..i]
    {
      var result := scanStock(tickers[i]);
      if result.Some? {
        results := results + [result.value];
      }
      assert tickers[..i + 1] == tickers[..i] + [tickers[i]];
      FilterMapAppend(tickers[..i], [tickers[i]], scanStock);
      reported := reported + [Fraction(i + 1, n)];
    }
    assert tickers[..n] == tickers;
  }
}
