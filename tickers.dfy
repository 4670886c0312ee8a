/**
 * The ticker list a scan runs over: the fixed large-cap preset, or the
 * free-text list a user types, split on commas, trimmed, upper-cased, with
 * blank entries dropped.
 */
module Tickers {
  import opened Wrappers
  import opened PyStr
  import opened Selection

  /** A ticker as normalisation leaves it: non-empty, no whitespace at either end, upper-case, no comma. */
  predicate IsTicker(t: string) {
    t != [] && IsStripped(t) && IsUpper(t) && ',' !in t
  }

  /** The stricter shape of a preset entry: non-empty, and no whitespace, lower-case letter or comma anywhere. */
  predicate IsPresetTicker(t: string) {
    t != [] && forall k :: 0 <= k < |t| ==> !IsSpace(t[k]) && !IsLower(t[k]) && t[k] != ','
  }

  /** The hard-coded "S&P 100" preset, laid out in the ten rows of its source text; it holds 107 symbols. */
  const SP100_TICKERS: seq<string> :=
    PresetRow0 + PresetRow1 + PresetRow2 + PresetRow3 + PresetRow4 +
    PresetRow5 + PresetRow6 + PresetRow7 + PresetRow8 + PresetRow9

  const PresetRow0: seq<string> := ["AAPL", "MSFT", "GOOGL", "GOOG", "AMZN", "NVDA", "META", "TSLA", "BRK-B", "JPM"]
  const PresetRow1: seq<string> := ["UNH", "V", "MA", "LLY", "HD", "PG", "JNJ", "XOM", "AVGO", "MRK", "ABBV", "CVX"]
  const PresetRow2: seq<string> := ["KO", "PEP", "COST", "ADBE", "TMO", "CRM", "AMD", "NFLX", "ACN", "LIN", "MCD"]
  const PresetRow3: seq<string> := ["ABT", "CSCO", "DIS", "TMUS", "WFC", "TXN", "QCOM", "AMGN", "INTU", "NOW"]
  const PresetRow4: seq<string> := ["IBM", "PM", "UNP", "HON", "GE", "CAT", "RTX", "NEE", "GS", "SBUX", "BKNG"]
  const PresetRow5: seq<string> := ["MDT", "LMT", "GILD", "ISRG", "SPGI", "BMY", "ELV", "SYK", "ADP", "AXP", "T"]
  const PresetRow6: seq<string> := ["VRTX", "REGN", "PGR", "PLD", "BLK", "CB", "AMT", "SCHW", "CI", "DE", "MO"]
  const PresetRow7: seq<string> := ["BA", "MDLZ", "MMC", "KLAC", "SO", "DUK", "ZTS", "ICE", "SHW", "ITW", "CL"]
  const PresetRow8: seq<string> := ["LRCX", "BSX", "CME", "TGT", "EOG", "BDX", "APH", "PNC", "EMR", "FDX", "MSI"]
  const PresetRow9: seq<string> := ["NSC", "HUM", "ANET", "CSX", "WM", "ORLY", "MCO", "ECL", "AZO"]

  /** One comma-separated piece `t`: `Some(t.strip().upper())` when `t.strip()` is non-empty, else dropped. */
  function NormalisePiece(t: string): (r: Option<string>)
    ensures r.None? <==> IsBlank(t)
    ensures r.Some? ==> r.value != [] && IsStripped(r.value) && IsUpper(r.value)
    ensures r.Some? && ',' !in t ==> IsTicker(r.value)
    ensures IsTicker(t) ==> r == Some(t)
  {
    var s := Strip(t);
    if s == [] then None
    else
      StripKeepsOut(t, ',');
      UpperKeepsOut(s, ',');
      UpperKeepsEnds(s);
      Some(Upper(s))
  }

  lemma UpperKeepsEnds(s: string)
    requires s != [] && IsStripped(s)
    ensures IsStripped(Upper(s))
  {
    var u := Upper(s);
    assert !IsSpace(s[0]) ==> !IsLower(s[0]) || !IsSpace(u[0]);
  }

  /** `[t.strip().upper() for t in text.split(',') if t.strip()]`. */
  function Normalise(text: string): (ts: seq<string>)
    ensures |ts| <= Count(text, ',') + 1
  {
    FilterMap(Split(text, ','), NormalisePiece)
  }

  /** Every normalised ticker is non-empty, trimmed, upper-case and comma-free. */
  lemma NormaliseYieldsTickers(text: string)
    ensures forall k :: 0 <= k < |Normalise(text)| ==> IsTicker(Normalise(text)[k])
  {
    var pieces := Split(text, ',');
    FilterMapIsSelection(pieces, NormalisePiece);
    var idx :| IsSelection(pieces, NormalisePiece, idx, Normalise(text));
    forall k | 0 <= k < |Normalise(text)| ensures IsTicker(Normalise(text)[k]) {
      assert NormalisePiece(pieces[idx[k]]) == Some(Normalise(text)[k]);
    }
  }

  /**
   * `ts` is, in input order, exactly the non-blank `pieces`, each passed
   * through strip and then upper: `idx` picks the kept pieces in increasing
   * order, and a piece is picked exactly when it is not blank.
   */
  ghost predicate KeepsPieces(pieces: seq<string>, idx: seq<nat>, ts: seq<string>)
  {
    && |idx| == |ts|
    && (forall k :: 0 <= k < |idx| ==> idx[k] < |pieces| && ts[k] == Upper(Strip(pieces[idx[k]])))
    && (forall j, k :: 0 <= j < k < |idx| ==> idx[j] < idx[k])
    && (forall i :: 0 <= i < |pieces| ==> (i in idx <==> !IsBlank(pieces[i])))
  }

  /** The output of normalisation is the non-blank pieces of `text.split(',')`, stripped and upper-cased, in order. */
  lemma NormaliseKeepsPieces(text: string)
    ensures exists idx :: KeepsPieces(Split(text, ','), idx, Normalise(text))
  {
    var pieces := Split(text, ',');
    var ts := Normalise(text);
    FilterMapIsSelection(pieces, NormalisePiece);
    var idx :| IsSelection(pieces, NormalisePiece, idx, ts);
    SelectionKeepsPieces(pieces, idx, ts);
  }

  lemma SelectionKeepsPieces(pieces: seq<string>, idx: seq<nat>, ts: seq<string>)
    requires IsSelection(pieces, NormalisePiece, idx, ts)
    ensures KeepsPieces(pieces, idx, ts)
  {
    forall k | 0 <= k < |idx| ensures ts[k] == Upper(Strip(pieces[idx[k]])) {
      assert NormalisePiece(pieces[idx[k]]) == Some(ts[k]);
    }
    forall i | 0 <= i < |pieces| && i in idx ensures !IsBlank(pieces[i]) {
      var k :| 0 <= k < |idx| && idx[k] == i;
      assert NormalisePiece(pieces[idx[k]]).Some?;
    }
  }

  /** Nothing survives exactly when the text holds only whitespace and commas; in particular whitespace-only text gives []. */
  lemma NormaliseEmpty(text: string)
    ensures Normalise(text) == [] <==> OnlySpaceOr(text, ',')
    ensures IsBlank(text) ==> Normalise(text) == []
  {
    AllPiecesDropped(Split(text, ','));
    SplitAllBlank(text, ',');
  }

  /** Every piece is dropped exactly when every piece is blank. */
  lemma AllPiecesDropped(pieces: seq<string>)
    ensures FilterMap(pieces, NormalisePiece) == [] <==> AllBlank(pieces)
  {
    FilterMapEmpty(pieces, NormalisePiece);
    forall i | 0 <= i < |pieces|
      ensures NormalisePiece(pieces[i]).None? <==> IsBlank(pieces[i])
    {
    }
  }

  /** Joining a list of tickers with commas and normalising it gives the list back. */
  lemma NormaliseJoin(ts: seq<string>)
    requires forall k :: 0 <= k < |ts| ==> IsTicker(ts[k])
    ensures Normalise(Join(ts, ',')) == ts
  {
    if ts == [] {
      assert Split("", ',') == [""];
      assert NormalisePiece("") == None;
    } else {
      SplitJoin(ts, ',');
      FilterMapIdentity(ts, NormalisePiece);
    }
  }

  /** Normalisation is idempotent: normalising the comma-joined output changes nothing. */
  lemma NormaliseIdempotent(text: string)
    ensures Normalise(Join(Normalise(text), ',')) == Normalise(text)
  {
    NormaliseYieldsTickers(text);
    NormaliseJoin(Normalise(text));
  }

  /** A single well-formed ticker is a fixed point of normalisation. */
  lemma NormaliseFixedPoint(t: string)
    requires IsTicker(t)
    ensures Normalise(t) == [t]
  {
    NormaliseJoin([t]);
  }

  lemma PresetRow0Shaped()
    ensures forall t :: t in PresetRow0 ==> IsPresetTicker(t)
  {
  }

  lemma PresetRow1Shaped()
    ensures forall t :: t in PresetRow1 ==> IsPresetTicker(t)
  {
  }

  lemma PresetRow2Shaped()
    ensures forall t :: t in PresetRow2 ==> IsPresetTicker(t)
  {
  }

  lemma PresetRow3Shaped()
    ensures forall t :: t in PresetRow3 ==> IsPresetTicker(t)
  {
  }

  lemma PresetRow4Shaped()
    ensures forall t :: t in PresetRow4 ==> IsPresetTicker(t)
  {
  }

  lemma PresetRow5Shaped()
    ensures forall t :: t in PresetRow5 ==> IsPresetTicker(t)
  {
  }

  lemma PresetRow6Shaped()
    ensures forall t :: t in PresetRow6 ==> IsPresetTicker(t)
  {
  }

  lemma PresetRow7Shaped()
    ensures forall t :: t in PresetRow7 ==> IsPresetTicker(t)
  {
  }

  lemma PresetRow8Shaped()
    ensures forall t :: t in PresetRow8 ==> IsPresetTicker(t)
  {
  }

  lemma PresetRow9Shaped()
    ensures forall t :: t in PresetRow9 ==> IsPresetTicker(t)
  {
  }

  /** Every preset entry is non-empty and free of whitespace, lower case and commas, hence normalises to itself. */
  lemma PresetIsNormalised()
    ensures |SP100_TICKERS| == 107
    ensures forall k :: 0 <= k < |SP100_TICKERS| ==> IsPresetTicker(SP100_TICKERS[k])
    ensures forall k :: 0 <= k < |SP100_TICKERS| ==> IsTicker(SP100_TICKERS[k])
    ensures forall k :: 0 <= k < |SP100_TICKERS| ==> Normalise(SP100_TICKERS[k]) == [SP100_TICKERS[k]]
    ensures Normalise(Join(SP100_TICKERS, ',')) == SP100_TICKERS
  {
    PresetEntriesShaped();
    forall k | 0 <= k < |SP100_TICKERS| ensures IsTicker(SP100_TICKERS[k]) {
      PresetIsTicker(SP100_TICKERS[k]);
      NormaliseFixedPoint(SP100_TICKERS[k]);
    }
    NormaliseJoin(SP100_TICKERS);
  }

  lemma PresetEntriesShaped()
    ensures forall k :: 0 <= k < |SP100_TICKERS| ==> IsPresetTicker(SP100_TICKERS[k])
  {
    PresetRow0Shaped(); PresetRow1Shaped(); PresetRow2Shaped(); PresetRow3Shaped(); PresetRow4Shaped();
    PresetRow5Shaped(); PresetRow6Shaped(); PresetRow7Shaped(); PresetRow8Shaped(); PresetRow9Shaped();
    forall k | 0 <= k < |SP100_TICKERS| ensures IsPresetTicker(SP100_TICKERS[k]) {
      assert SP100_TICKERS[k] in SP100_TICKERS;
    }
  }

  lemma PresetIsTicker(t: string)
    requires IsPresetTicker(t)
    ensures IsTicker(t)
  {
  }

  /** The two choices of the scan-mode radio button: the preset, or an own list typed as text. */
  datatype ScanMode = Preset | OwnList

  /** The tickers a scan runs over; whichever the mode, every one of them is a well-formed ticker. */
  function ChooseTickers(mode: ScanMode, text: string): (ts: seq<string>)
    ensures forall k :: 0 <= k < |ts| ==> IsTicker(ts[k])
    ensures mode == Preset ==> |ts| == 107
  {
    match mode
    case Preset =>
      PresetIsNormalised();
      SP100_TICKERS
    case OwnList =>
      NormaliseYieldsTickers(text);
      Normalise(text)
  }
}
