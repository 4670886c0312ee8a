# Swing scanner: ticker lists and the batch scan loop

This project models the sequential logic of the Streamlit page `Swingscan.py`
of a "bullish pullback" swing-trading screener. Two parts are modelled:

- **The ticker list.** The page scans either a fixed preset of large-cap
  symbols (`SP100_TICKERS`, 107 entries despite its name), or a free-text
  list. The free text is split on `,`, each piece is stripped of surrounding
  whitespace and upper-cased, and blank pieces are dropped. Module `Tickers`
  holds the preset, the normalisation and the choice between the two modes.
  Module `PyStr` models the Python string methods it uses (`strip()`,
  `upper()`, `split(',')`, and `','.join` to state round trips) on ASCII.
- **The batch scan.** For each ticker in order, the per-ticker scan
  `scan_stock` is called; a match is appended to `results`, and the fraction
  `(i+1)/len(tickers)` is pushed to the progress bar. Module `Scanner` holds
  this loop as a method, `ScanBatch`. `Swingscan.py` neither defines nor
  imports `scan_stock` (its only imports, at lines 2-5, are streamlit,
  pandas, yfinance and datetime), so it is a function parameter from ticker
  to `Option<MatchRecord>`: Python's `if result:` becomes `Some`/`None`.

Module `Selection` holds what the list comprehension and the loop have in
common: `FilterMap` keeps, in order, the `Some` answers of a function over a
list. It comes with the lemma that this is exactly an order-preserving
selection (`IsSelection`). The loop is proved against it, and so are the
normalisation's properties. Module `Wrappers` holds `Option`.

Three points about what the page does:

- An empty ticker list is not rejected before scanning. The loop runs zero
  times, reports no progress and yields no results.
- Per-ticker failures are not caught around the call at `Swingscan.py:39`.
  Any isolation lives inside `scan_stock`, which is not part of this model.
  The model assumes every call returns.
- Results are kept in ticker order. Sorting by RSI happens only for display.

## Model

| member | source | states |
|---|---|---|
| `Tickers.PresetIsNormalised` | Swingscan.py:8-19 | The preset holds 107 entries. Each is non-empty and has no whitespace, lower-case letter or comma, so each normalises to itself. Joining the whole preset with commas and normalising gives the preset back. |
| `Tickers.ChooseTickers` | Swingscan.py:27-32 | Whichever scan mode is chosen, every ticker to scan is well formed: non-empty, stripped, upper-case, comma-free. The preset mode yields 107 tickers. |
| `Tickers.NormalisePiece` | Swingscan.py:32 | A piece is dropped exactly when it is whitespace only. A kept piece is non-empty, stripped and upper-case, and comma-free when the piece was. A well-formed ticker is kept unchanged. |
| `Tickers.Normalise` | Swingscan.py:32 | There are at most (number of commas in the text) + 1 tickers. |
| `Tickers.NormaliseYieldsTickers` | Swingscan.py:32 | Every normalised ticker is non-empty, has no leading or trailing whitespace, has no lower-case letter and has no comma. |
| `Tickers.NormaliseKeepsPieces` | Swingscan.py:32 | The output is the non-blank pieces of `text.split(',')`, in input order, each mapped through strip then upper. Indices picked are strictly increasing, and a piece is picked exactly when it is not blank, so nothing is reordered or duplicated. |
| `Tickers.NormaliseEmpty` | Swingscan.py:32 | The result is empty exactly when the text holds only whitespace and commas. In particular, whitespace-only text yields the empty list. |
| `Tickers.NormaliseJoin` | Swingscan.py:32 | For any list of well-formed tickers, joining with `,` and normalising returns that list. |
| `Tickers.NormaliseIdempotent` | Swingscan.py:32 | Normalising the comma-joined output of normalisation gives the same list. |
| `Tickers.NormaliseFixedPoint` | Swingscan.py:32 | A single well-formed ticker normalises to the one-element list of itself. |
| `PyStr.Strip` | Swingscan.py:32 | `strip()` returns an infix with everything before and after it whitespace, and no whitespace at either end. It is empty exactly when the input is blank. An already stripped string is returned unchanged. |
| `PyStr.StripKeepsOut` | Swingscan.py:32 | Stripping adds no character absent from the input. |
| `PyStr.Upper` | Swingscan.py:32 | `upper()` keeps the length and leaves no lower-case letter. Each letter a-z becomes the matching A-Z, and every other character is unchanged. An upper-case string is a fixed point. |
| `PyStr.UpperKeepsOut` | Swingscan.py:32 | Upper-casing adds no non-letter character absent from the input. |
| `PyStr.StripStart` | Swingscan.py:32 | The left scan of `strip()` stops at the first non-whitespace character, and everything before it is whitespace. |
| `PyStr.StripEnd` | Swingscan.py:32 | The right scan of `strip()` stops after the last non-whitespace character at or beyond the left scan's stop, and everything after it is whitespace. |
| `PyStr.Split` | Swingscan.py:32 | `split(',')` yields one more piece than there are separators. No piece contains the separator, and joining the pieces with it gives the input back. |
| `PyStr.SplitJoin` | Swingscan.py:32 | Splitting undoes joining for a non-empty list of separator-free pieces. |
| `PyStr.SplitAllBlank` | Swingscan.py:32 | Every piece of the split is blank exactly when every character is whitespace or the separator. |
| `Selection.FilterMap` | Swingscan.py:32 | The filtered, mapped list is no longer than its input. |
| `Selection.FilterMapIsSelection` | Swingscan.py:36-41 | The kept values are exactly the `Some` answers, in input order. Each position with a `Some` answer is picked once, positions strictly increase, and `None` positions contribute nothing. |
| `Selection.FilterMapAppend` | Swingscan.py:38-41 | Filtering a concatenation is the concatenation of the filtered parts. This is the step each loop iteration takes. |
| `Selection.FilterMapEmpty` | Swingscan.py:40-44 | Nothing is kept exactly when every answer is `None`. For the scan, that is when the page reports no setups. |
| `Selection.FilterMapIdentity` | Swingscan.py:32 | If each element is handed back unchanged, the list is returned unchanged. |
| `Scanner.Fraction` | Swingscan.py:42 | The progress value `(i+1)/n` lies in (0,1] and equals 1 exactly when all tickers are done. It is only defined for `n > 0`, so no division by zero occurs. |
| `Scanner.FractionIncreases` | Swingscan.py:42 | Progress strictly increases with the number of tickers done. |
| `Scanner.ProgressReports` | Swingscan.py:42 | One progress value per ticker. The value after index `i` times `n` is `i+1`. The values strictly increase, lie in (0,1], and the last is 1. |
| `Scanner.ScanBatch` | Swingscan.py:36-42 | `results` are the `Some` answers of the scan over the tickers, in ticker order (`FilterMap`, characterised by `FilterMapIsSelection`). The progress values pushed are exactly `ProgressReports(len(tickers))`. |

## Left out

- Streamlit calls are presentation and are not modelled: page config, title, radio, text area, button, spinner, `st.info`/`st.success`, dataframe display, download button. This includes the progress bar's initial value 0 at `Swingscan.py:37`; only the values pushed inside the loop are modelled.
- How the radio button's label is compared to choose the mode is reduced to the two-valued `ScanMode`.
- `scan_stock`, its `yfinance` data fetch and its indicator maths are not part of this model. `Swingscan.py` neither defines nor imports `scan_stock`, so as written line 39 raises `NameError` on the first ticker of any non-empty list. Whatever definition is meant would do network I/O and floating-point numerics. It is a function parameter here, so the model treats it as defined, deterministic and always returning, and does not model the `NameError`.
- `ScanBatch` models Python's `if result:` as `Some`/`None`. A scan that returned an empty, falsy dict would be dropped by the source; the model has no such value.
- `pandas` DataFrame construction, `sort_values("RSI")` and `to_csv` (`Swingscan.py:45-49`) are a foreign library applied to float fields, for display and export only.
- `Scanner.Fraction`: progress values are exact reals, not Python floats, so float rounding of `(i+1)/n` is not modelled.
- `MatchRecord` numbers are exact reals standing for the rounded floats the scan emits.
- `PyStr.Strip` and `PyStr.Upper` model `str.strip()` and `str.upper()` on ASCII only. Non-ASCII whitespace (U+0085, U+00A0, U+2000-U+200A, ...) is not stripped, and non-ASCII letters are not upper-cased. Upper-casing that changes length (`'ß'` to `'SS'`) is not modelled.
- `datetime` is imported at `Swingscan.py:5` but never used.
