# Per-security normalisation of `fetch_data.py`, modelled in Dafny

`fetch_data.py` pulls, for every ticker, an info snapshot and three quarterly
statements (income, cash flow, balance sheet) from a market-data provider and turns
them into one flat record. The record holds the price, the trailing-twelve-month (TTM)
revenue, operating cash flow, capital expenditure and stock-based compensation. It also
holds the newest total debt and cash, the shares outstanding, the beta, an analyst growth
estimate, the forward EPS and a sector bucket. A security gets no record when no price
is quoted or when the provider fails. The tickers come from named list files, one
ticker per line.

This project models that logic:

- `optional.dfy` (module `Optional`): the `Option` type. It stands for a NaN cell, an
  absent info field and "no record".
- `statements.dfy` (module `Statements`): a quarterly statement as a rectangular table
  of line items. Values run newest period first, and a NaN cell is `None`. The module
  holds the ordered-alias row lookup `safe_get` and the TTM sum `get_ttm_value`.
- `info.dfy` (module `InfoSnapshot`): the info snapshot, with numeric and text fields in
  two maps. It holds the price choice, the analyst-growth derivation, the display name
  and the raw sector string.
- `sectors.dfy` (module `Sectors`): the ordered substring rules that put the sector
  string into SaaS, Financial, Semiconductor or General.
- `fetch.dfy` (module `FetchData`): `fetch_stock_data` as a method. It covers the TTM
  fields, capex as an absolute value and the imperative balance-sheet block. It also
  covers the worked example of a software company.
- `text.dfy` (module `Text`): Python's `str.strip`, ASCII `str.upper`, `sub in s` and
  `str.replace(pat, "")`.
- `tickers.dfy` (module `TickerLists`): `load_tickers_from_lists` as a method with a
  loop over the list files, plus the lemmas about the lists it stores.

Notes on what the code does, as modelled:

- A zero TTM revenue only prints a warning; the record is still returned. The
  `return None` at fetch_data.py:154 is commented out.
- `safe_get` never merges aliases. The first alias present wins, even when its row is
  all NaN (its TTM is then 0).
- A current price of 0 falls through to the previous close, because the code uses
  Python's `or`. A zero previous close then means no record.
- The list name is `basename.replace(".txt", "")`. This removes EVERY ".txt" in the
  name, so "a.txt" and "a.txt.txt" both become the list "a" and the later file replaces
  the earlier one in the list map. The unique set still keeps the earlier file's
  tickers, so it equals the union of the stored lists only when the list names are
  distinct (`TickerLists.TickerUnionIsMapUnion`, `TickerLists.SameNameLists`).
- `fetch_data.py` does no currency conversion, no beta sanitising, no growth clamping
  and no ticker canonicalisation ("BRK.B" stays "BRK.B"). It also has only four sector
  buckets. Beta is passed through with a default of 1.0. Growth is not clamped. Tickers
  are only stripped and upper-cased.

## Model

| member | source | states |
|---|---|---|
| `Statements.SafeGet` | fetch_data.py:16-21 | The result is the row of the earliest alias present in the table, and the empty row when no alias is present |
| `Statements.FirstPresentExists` | fetch_data.py:18-20 | If any alias is present, some alias at or before it is the first present one, so the two cases of `SafeGet` cover every table |
| `Statements.SafeGetTwoAliases` | fetch_data.py:16-21 | With aliases [A, B], A's row wins when both are present, B's row is returned when only B is present, and the result is empty when neither is |
| `Statements.RowTtm` | fetch_data.py:33-36 | The TTM of a row is the sum of quarters 0 to 3; a NaN cell and a quarter the row does not reach both count as 0 |
| `Statements.Ttm` | fetch_data.py:23-36 | 0 for an empty table and when no alias matches; otherwise the TTM of the first matching alias's row |
| `Statements.RowTtmIgnoresOlderQuarters` | fetch_data.py:35 | Quarters after the fourth never change the TTM |
| `Statements.RowTtmNaNIsZero` | fetch_data.py:36 | A NaN cell contributes exactly what a 0 does |
| `Statements.RowTtmExamples` | fetch_data.py:23-36 | ttm([]) = 0, ttm([10]) = 10, ttm([10,20,30,40,999]) = 100, ttm([10,NaN,30]) = 40 |
| `InfoSnapshot.GetOr` | fetch_data.py:141 | `info.get(key, default)`: the stored value when the key is present, the default otherwise |
| `InfoSnapshot.Price` | fetch_data.py:45-49 | A price exists exactly when `currentPrice` or `previousClose` is non-zero; it is `currentPrice` when that is non-zero, else `previousClose`, and never 0 |
| `InfoSnapshot.AnalystGrowth` | fetch_data.py:97-107 | `earningsGrowth` x 100 when that is non-zero; else growth x PEG = PE when PE is non-zero and PEG > 0; the result is non-zero exactly when one of the two sources is usable |
| `InfoSnapshot.PegInversionExample` | fetch_data.py:101-105 | PE 30 and PEG 1.5 with no earnings growth give 20 |
| `InfoSnapshot.DisplayName` | fetch_data.py:125 | A non-empty `shortName` wins; otherwise the name is `longName` if present, else missing |
| `InfoSnapshot.SectorName` | fetch_data.py:112 | The `sector` field, or "General" when it is absent |
| `Sectors.Classify` | fetch_data.py:112-120 | One bucket of four. SaaS iff "Technology" or "Software" occurs; Financial iff not SaaS and "Financial" or "Bank" occurs; Semiconductor iff neither of those and "Semiconductor" occurs; General iff no keyword occurs |
| `Sectors.OccursInside` | fetch_data.py:113 | A keyword counts wherever it sits in the sector text |
| `Sectors.ClassifyPrecedence` | fetch_data.py:113-117 | Text holding "Semiconductor" and "Software", or "Financial" and "Technology", is SaaS, in either order and whatever surrounds them |
| `Sectors.ClassifyTechnology` | fetch_data.py:113-114 | "Technology" is SaaS |
| `Sectors.ClassifyFinancialServices` | fetch_data.py:115-116 | "Financial Services" is Financial |
| `Sectors.ClassifyDefaultSector` | fetch_data.py:112-120 | The default sector "General" is the General bucket |
| `FetchData.CapexTtm` | fetch_data.py:65 | Capex is never negative and is the TTM sum of the first capex alias or its negation (its absolute value) |
| `FetchData.CapexExample` | fetch_data.py:65 | Four quarters of -10 give a capex of 40 |
| `FetchData.NewestColumn` | fetch_data.py:77 | The newest column has the same line items as the sheet and holds each row's period-0 cell |
| `FetchData.NewestOf` | fetch_data.py:71-89 | Reference reading of one balance-sheet figure: 0 for an empty sheet |
| `FetchData.BalanceSheetFigures` | fetch_data.py:71-89 | Both figures are 0 for an empty sheet. Total debt is the newest "Total Debt", else "Long Term Debt", else 0. Cash is the newest "Cash And Cash Equivalents", else 0 (the "Total Assets" branch leaves 0). A NaN cell is copied. Both agree with `NewestOf` over the alias lists |
| `FetchData.FetchStockData` | fetch_data.py:38-160 | A record exists exactly when the provider answered and a price exists, whatever the revenue. Each field is stated: ticker, name, price, market cap (default 0), the four TTM figures, debt, cash, shares (default 0), beta (default 1.0), growth, forward EPS (default 0), sector bucket and timestamp |
| `FetchData.ScenarioStatements` | fetch_data.py:59-65 | Revenue 100 per quarter, OCF 30 and capex -10 give revenue_ttm 400, ocf_ttm 120 and capex_ttm 40 |
| `FetchData.ScenarioEstimates` | fetch_data.py:97-141 | Sector "Software", PE 30, PEG 1.5 and beta 1.1 give SaaS, growth 20 and beta 1.1 |
| `Text.Upper` | fetch_data.py:171 | Upper-casing keeps the length, upper-cases each character where it stands, and leaves no lower-case ASCII letter |
| `Text.LeadingSpacesSpec` | fetch_data.py:171 | The leading run that `strip` removes is all whitespace and stops at the first other character |
| `Text.TrailingSpacesSpec` | fetch_data.py:171 | The trailing run that `strip` removes is all whitespace and stops at the last other character |
| `Text.StripIsSlice` | fetch_data.py:171 | `strip` keeps one contiguous slice of the line and cuts off only whitespace on either side |
| `Text.Strip` | fetch_data.py:171 | `line.strip()` is never longer than the line, and a line with no whitespace at either end is its own strip |
| `Text.StripIdempotent` | fetch_data.py:171 | Stripping twice gives what stripping once gives |
| `Text.StripSpec` | fetch_data.py:171 | The stripped line has no whitespace at either end and is empty exactly when the line is blank |
| `Text.Contains` | fetch_data.py:113-117 | Python's `sub in s` holds exactly when `sub` occurs in `s` at some position |
| `Text.RemoveAll` | fetch_data.py:177 | `s.replace(pat, "")` is never longer than `s` |
| `Text.RemoveAllAbsent` | fetch_data.py:177 | `replace(pat, "")` leaves text that does not contain `pat` as it is |
| `Text.NoOccurrenceAtJoin` | fetch_data.py:177 | A pattern whose first character does not recur (such as ".txt") matches at no position from the start of a non-empty stem that lacks it up to the stem's end, when what follows the stem starts with that first character |
| `Text.RemoveAllKeepsPrefix` | fetch_data.py:177 | `replace(pat, "")` passes over a stem that does not contain `pat` when what follows starts with `pat`'s first character, for a `pat` such as ".txt" whose first character does not recur |
| `Text.RemoveAllLeading` | fetch_data.py:177 | `replace(pat, "")` drops an occurrence of `pat` at the front |
| `TickerLists.ParseLine` | fetch_data.py:179 | One line of the comprehension: when it gives a ticker, that ticker is non-empty and no longer than the line |
| `TickerLists.ParseTickers` | fetch_data.py:179 | The comprehension over a file's lines gives at most one ticker per line |
| `TickerLists.ParseLineSpec` | fetch_data.py:179 | A line gives nothing exactly when it is blank. Otherwise it gives a non-empty ticker with no surrounding whitespace and no lower-case letter: the stripped line upper-cased |
| `TickerLists.ParseTickersWellFormed` | fetch_data.py:179 | Every parsed ticker is well formed, and there is at most one per line |
| `TickerLists.ParseTickersMembers` | fetch_data.py:179 | A ticker is parsed exactly when some line gives it |
| `TickerLists.ParseTickersAppend` | fetch_data.py:179 | Line order is kept: the tickers of earlier lines come first |
| `TickerLists.ParseTickersBlankLine` | fetch_data.py:179 | A blank line adds nothing |
| `TickerLists.ListName` | fetch_data.py:177 | The list name is never longer than the base name, and a base name without ".txt" is its own list name |
| `TickerLists.ListNameOfStem` | fetch_data.py:177 | "stem.txt" and "stem.txt.txt" are both named "stem" when the stem does not contain ".txt" (dots are allowed) |
| `TickerLists.ListNameDotted` | fetch_data.py:177 | "brk.b.txt" is the list "brk.b" |
| `TickerLists.ListMapOf` | fetch_data.py:180 | `list_map` after the loop holds at most one list per file read |
| `TickerLists.TickerUnion` | fetch_data.py:181 | `unique_tickers` after the loop holds every ticker of every list read |
| `TickerLists.StoreOneMore` | fetch_data.py:180-181 | One more file updates the map under its name only and adds its tickers to the unique set |
| `TickerLists.ReadOneMore` | fetch_data.py:177-181 | Reading the next file stores its parsed tickers under its list name and adds them to the unique set |
| `TickerLists.TickerUnionMembers` | fetch_data.py:181 | The unique set holds exactly the tickers some list holds |
| `TickerLists.TickerUnionWellFormed` | fetch_data.py:179-181 | Every unique ticker is well formed |
| `TickerLists.ListMapKeys` | fetch_data.py:180 | The map's keys are exactly the list names of the files read |
| `TickerLists.ListMapLastWins` | fetch_data.py:180 | The last file with a given list name decides that name's list |
| `TickerLists.MapUnionWithinTickerUnion` | fetch_data.py:176-181 | Every ticker stored in the map is in the unique set |
| `TickerLists.TickerUnionIsMapUnion` | fetch_data.py:176-181 | With distinct list names, the unique set equals the union of the stored lists |
| `TickerLists.SameNameLists` | fetch_data.py:180-181 | Two lists under one name: the map keeps the second, the unique set keeps both, and a ticker only the first holds is in no stored list |
| `TickerLists.ListNameCollision` | fetch_data.py:177 | Files "stem.txt" and "stem.txt.txt" are both read as list "stem", for any stem that does not contain ".txt" |
| `TickerLists.LoadTickersFromLists` | fetch_data.py:162-184 | With no lists directory and no tickers.txt, both results are empty. With only tickers.txt, the map is exactly {"all": tickers} and the set holds its tickers. Otherwise the map and set are those of the files in listing order. Every returned ticker, in the unique set and in every stored list, is well formed |

## Left out

- The provider calls (`yf.Ticker`, `.info` and the quarterly statement properties, fetch_data.py:41-55) are inputs: a `ProviderData` value, or `None` for a provider that raised.
- The catch-all at fetch_data.py:158-160 is modelled only as that `None` input. Errors raised inside the function for a field that is present but `None` (`revenueGrowth` at line 93, `sector` at line 113) are not modelled, because an info field here is either present with a value or absent. For the same reason, a `beta`, `marketCap`, `sharesOutstanding` or `forwardEps` that is present but `None` is not modelled: `info.get(key, default)` at lines 73, 109, 127 and 141 would put `None` into the record rather than the default, while the model always has a value or the default.
- `growth_rate` (fetch_data.py:93) is computed but never used, so it is not modelled.
- `round(analyst_growth, 2)` (fetch_data.py:142) and binary floating point are not modelled. Amounts are exact reals, and NaN appears only as a missing statement cell.
- The `last_updated` timestamp (fetch_data.py:147) is a parameter (the clock is I/O). Printing and logging are not modelled.
- Directory and file handling (`os.makedirs`, `os.path.exists`, `glob`, `open`) is input. The lists directory is given as its `*.txt` files in listing order; each file is its base name and the lines that iterating over it yields.
- `main` (fetch_data.py:186-218) is not modelled: the JSON writes, the manifest, the `time.sleep` throttle and the success counter are I/O or bookkeeping over `fetch_stock_data` results.
- `Text.Upper`: upper-cases ASCII letters only; Python's `str.upper` also maps other Unicode letters.
- A statement with duplicate row labels, where pandas' `df.loc[key]` returns a table rather than a row, is not modelled. Each line item here appears once.
