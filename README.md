# options_scanner — a Dafny model of the options-chain aggregation pipeline

This project models the record-shaping core of `options_scanner.py`. That code
collects option contracts for one equity from two data providers, brings them
into one record shape, merges them into a snapshot sorted by contract id, and
derives the contracts with the earliest expiration on or after today.

Parts of the model, one Dafny module (and file) each:

- `Common` (common.dfy): `Option`, `Result`, the failure kinds (`ScanError`), and the JSON value type (`Json`).
- `Lexical` (lexical.dfy): Python's ordering on `str`, proved a total order and matched against the textbook definition.
- `Records` (records.dfy): the canonical `Contract` record (contract_id, type, strike, expiration, volume, open_interest, implied_volatility, bid, ask) and the aggregate `Row` with its `source` tag.
- `Coercion` (coercion.dfy): Python's `int(x)` and `float(x)` applied to a decoded JSON value, as partial functions.
- `Yfinance` (yfinance.dfy): `get_options_chain_from_yfinance`.
  - The per-date loop that appends a calls frame and a puts frame is a method, proved equal to a specification function.
  - The provider is passed in: a list of expiration dates, and a function from a date to its chain (`None` where the fetch raised).
- `AlphaVantage` (alphavantage.dfy): `get_options_chain_from_alphavantage` from the decoded response on.
  - The per-contract normalise-or-skip loop is a method, proved equal to a specification function.
  - The HTTP exchange is passed in as `Option<Json>`; `None` stands for a request, status or JSON-decoding failure.
- `Aggregation` (aggregation.dfy): `get_and_save_aggregate_options_chain`.
  - It calls both adapters, tags the rows, and concatenates yfinance rows before Alpha Vantage rows.
  - It rounds the four decimal columns in place over an array. The rounding function is the parameter `round`.
  - It insertion-sorts the array in place by `contract_id`, and builds the snapshot path.
  - The capture date and time come in as their `strftime` texts.
- `ExpirationFilter` (expiration.dfy): `get_and_save_earliest_expiring_contracts`, as pure functions. Today's `%Y-%m-%d` text is a parameter.

Behaviours of the code that the model keeps:

- The Alpha Vantage `type` column is copied without any check (options_scanner.py:203). The docstrings at options_scanner.py:78 and 158 describe it as 'call' or 'put', but nothing enforces that.
- The `expiration` text is copied without checking that it is a well-formed ISO date (options_scanner.py:205).
- The yfinance adapter succeeds with zero rows when a date was fetched but its frames are empty. Its emptiness test at options_scanner.py:136 looks at the list of frames, not at the rows.
- The earliest filter returns at options_scanner.py:309-310, before the CSV write at options_scanner.py:318. So no file is written for an empty frame.
- `sort_values` at options_scanner.py:282 uses pandas' default sort kind, which is not stable. The sort is therefore stated as "sorted and a permutation" only.

## Model

| member | source | states |
|---|---|---|
| Lexical.LexLeMatchesDefinition | options_scanner.py:314 | Python's string `<=` holds exactly when the left string is a prefix of the right or is smaller at their first difference |
| Lexical.LexLeTransitive | options_scanner.py:282 | string order is transitive, which the sort and `min` rely on |
| Lexical.LexLeTotal | options_scanner.py:282 | any two strings are comparable |
| Lexical.LexLeAntisymmetric | options_scanner.py:314 | two strings each `<=` the other are equal, so the earliest expiration is a single text |
| Coercion.TruncateTowardZero | options_scanner.py:206-207 | `int()` of a float drops the fraction toward zero: the result lies within 1 of the input, on the same side of zero |
| Coercion.ParseIntegerRoundTrip | options_scanner.py:206-207 | `int()` reads the decimal text of any integer back as that integer |
| Coercion.ParseDecimalOfIntegerText | options_scanner.py:204 | `float()` reads the decimal text of any integer as that integer's value |
| Coercion.ParseDecimalOfLiteral | options_scanner.py:204 | `float()` reads a text with a decimal point, such as "-12.50", as its whole part plus its fraction digits over the matching power of ten, negated for a leading '-' |
| Coercion.ParseIntegerRejectsFraction | options_scanner.py:206-207 | `int()` of a text with a decimal point raises |
| Yfinance.OptionsChainFromYfinance | options_scanner.py:95-142 | the loop over expiration dates returns exactly the specified result: no dates fails, no fetched date fails, otherwise the concatenated frames |
| Yfinance.YfinanceFailsIffNothingFetched | options_scanner.py:97-98 | the adapter fails exactly when no listed date was fetched; an empty date list gives the no-options failure, otherwise the nothing-fetched failure (lines 136-137); a fetched date with empty frames still succeeds |
| Yfinance.FetchedRowsAppend | options_scanner.py:104-131 | the rows of consecutive date lists follow each other, so date order is kept |
| Yfinance.FetchedRowsOfOneDate | options_scanner.py:107-131 | one date contributes its calls tagged 'call' then its puts tagged 'put', all with that expiration, or nothing when its fetch raised |
| Yfinance.FetchedRowsCount | options_scanner.py:126-140 | the row count is the sum of calls and puts over the fetched dates: nothing is dropped or deduplicated |
| Yfinance.FetchedRowsMembership | options_scanner.py:104-134 | a row is returned exactly when it is a tagged call or put row of some fetched date |
| Yfinance.YfinanceRowsAreTagged | options_scanner.py:110-117 | every returned row has type 'call' or 'put' and the expiration of a listed date that was fetched |
| AlphaVantage.OptionsChainFromAlphaVantage | options_scanner.py:184-228 | the normalise-or-skip loop returns exactly the specified result, with the error-message, empty-body, malformed-body and no-survivor failures |
| AlphaVantage.SurvivorsAppend | options_scanner.py:198-215 | each raw contract is kept or dropped on its own, and survivors keep input order |
| AlphaVantage.DroppedContractIsolated | options_scanner.py:213-215 | a contract that fails normalisation removes nothing else from the batch |
| AlphaVantage.SurvivorsMembership | options_scanner.py:198-212 | survivors are exactly the normalised contracts, and there are no more of them than raw contracts |
| AlphaVantage.AlphaVantageSucceedsIff | options_scanner.py:185-218 | data comes back exactly when the body is an object with no "Error Message", is not empty, its `data` entry (default empty list) is a list, and some contract in it normalises |
| AlphaVantage.NormalizeProviderObject | options_scanner.py:201-211 | a contract with every column present, counts as integer text and prices as JSON numbers, normalises to itself, whatever its `type` text |
| AlphaVantage.NormalizeTextObject | options_scanner.py:201-211 | a contract whose every column is text normalises to the contract whose prices are the values of its decimal literals and whose counts are its integers |
| AlphaVantage.TextObjectPrices | options_scanner.py:204-210 | `float()` reads the four price columns sent as decimal text as the values those literals denote |
| AlphaVantage.TextObjectCounts | options_scanner.py:202-207 | the identifier, type and expiration texts are copied and the count texts are read back by `int()` as their integers |
| AlphaVantage.NormalizeDefaultsToZero | options_scanner.py:206-210 | absent volume, open_interest, implied_volatility, bid and ask become 0 |
| AlphaVantage.NormalizeNeedsRequiredColumns | options_scanner.py:202-205 | a contract lacking contractID, type, strike or expiration is dropped |
| AlphaVantage.NormalizeDropsUnconvertibleOptional | options_scanner.py:206-207 | a volume or open_interest that is present but not convertible drops the contract |
| AlphaVantage.NormalizeDropsUnconvertiblePrice | options_scanner.py:204-215 | a strike, implied_volatility, bid or ask that is present but rejected by `float()` drops the contract |
| Aggregation.RoundDecimalColumns | options_scanner.py:277-279 | the frame afterwards holds every row with strike, implied_volatility, bid and ask rounded, and nothing else changed |
| Aggregation.SortByContractId | options_scanner.py:282 | the frame afterwards is sorted ascending by contract_id and is a permutation of the frame before |
| Aggregation.AdjacentSortedIsSorted | options_scanner.py:282 | rows whose neighbours are in order are in order pairwise |
| Aggregation.AggregateOptionsChain | options_scanner.py:259-294 | a yfinance failure, else an Alpha Vantage failure, fails the whole call; otherwise the rows are sorted by contract_id, are a permutation of the rounded, tagged concatenation (yfinance first), and the path is built from directory, exchange, ticker, date and time |
| Aggregation.AggregateCounts | options_scanner.py:266-274 | the aggregate holds exactly the yfinance count plus the Alpha Vantage count of rows, with exactly as many tagged 'yfinance' and 'alphavantage' as each provider gave |
| Aggregation.AggregateRowOrigin | options_scanner.py:270-274 | every row whose source column reads 'yfinance' is a rounded yfinance contract, and every row reading 'alphavantage' a rounded Alpha Vantage contract |
| Aggregation.CountFromTagged | options_scanner.py:270-271 | tagging a provider's frame gives all its rows that provider's tag and none the other's |
| Aggregation.FileNameInjective | options_scanner.py:285 | for a fixed exchange and ticker, the file name determines the capture date (fixed width) and time |
| Aggregation.JoinPathInjective | options_scanner.py:286 | joining a directory with two names that agree on being absolute gives one path only when the names are equal |
| Aggregation.SnapshotPathIdentifiesInstant | options_scanner.py:261-286 | two captures of one exchange and ticker share a snapshot path only when their date and time texts are equal |
| ExpirationFilter.MinText | options_scanner.py:314 | `min` of a non-empty sequence of strings is one of them and `<=` all of them |
| ExpirationFilter.FutureExpirationsMembership | options_scanner.py:314 | the candidate expirations are exactly the row expirations at or after today |
| ExpirationFilter.EarliestFailsIffNoFutureRow | options_scanner.py:309-314 | an empty frame gives an empty result; otherwise the filter fails, with no-future-contracts, exactly when every row expires before today |
| ExpirationFilter.EarliestDateIsLeastFuture | options_scanner.py:312-314 | the chosen date E is at or after today, is some row's expiration, and no row expires in [today, E) |
| ExpirationFilter.WithExpirationContents | options_scanner.py:315 | selection by expiration is an order-preserving subsequence holding each matching row as often as the frame does, and no other row |
| ExpirationFilter.EarliestExpiringContents | options_scanner.py:314-315 | on a non-empty frame the filter returns a non-empty subsequence holding exactly the rows that expire on the chosen date |
| ExpirationFilter.TwoEarliestOfThree | options_scanner.py:309-320 | rows expiring 2025-01-17, 2025-01-17 and 2025-02-21, filtered on 2025-01-10, give the two January rows in order |

## Left out

- The HTTP request, with its URL and API-key assembly (options_scanner.py:172-182), is not modelled. Its outcome is the parameter `avResponse`.
- The yfinance `Ticker`, `options` and `option_chain` calls (options_scanner.py:92-107) are not modelled. Their outcomes are the parameters `expirationDates` and `fetch`. A `Ticker` lookup that raises is not modelled.
- The CSV writes (options_scanner.py:289, 318) are file I/O and are not modelled, including their failures. `Snapshot.path` records only where the aggregate would be written.
- `datetime.now()` (options_scanner.py:261-263, 312-313) is not modelled. The date and time texts are parameters, and `strftime` formatting is not modelled.
- Floats are exact reals. IEEE rounding, NaN and infinities are not modelled. `int()` of an infinite float raises `OverflowError`, and so does `float()` of a JSON integer too large for a float. `OverflowError` is not among the exceptions caught per contract at options_scanner.py:213, so in the source it fails the whole Alpha Vantage adapter (options_scanner.py:234-235) instead of dropping one contract. The model converts both and never fails that way.
- Aggregation.AggregateOptionsChain: the `round(2)` of the four decimal columns is the parameter `round`, because float rounding is not modelled.
- Coercion.ParseDecimal covers only a sign, ASCII digits and one decimal point. Python's `float()` also accepts whitespace, underscores, exponents, "inf", "nan" and non-ASCII Unicode decimal digits.
- Coercion.ParseInteger covers only a sign and ASCII digits. Python's `int()` also accepts surrounding whitespace, underscores and non-ASCII Unicode decimal digits.
- AlphaVantage.NormalizeContract drops a contract whose contractID, type or expiration is not a JSON string, because `Contract` holds only text in those columns. The source keeps such a contract. A number in contract_id or expiration later makes the sort or the `>=` comparison raise. A non-text `type`, or a null in any of the three, goes through unnoticed. On a batch made only of such contracts the source returns data, while the model fails with NoValidContracts.
- AlphaVantage.AlphaVantageChain gives every failure of a response body that is not a JSON object the single kind `MalformedResponse`. The source's messages differ by case; for example, an empty list or empty string body gets "No options data available".
- Error messages are not modelled, only which failure occurred. This includes the `ValueError` wrapping at options_scanner.py:144-145, 230-235 and 293-294.
- Yfinance.OptionChain frames always carry every selected column. When a puts frame lacks one, the source raises `KeyError` after appending that date's calls frame; the model has no such case.
- yfinance volume and open-interest columns may hold NaN floats. The model has integers there.
- DataFrame index labels, column order and `ignore_index` are not modelled. Rows are sequences of records.
- `get_option_price` (options_scanner.py:8-65), with its case-insensitive call/put check, is a provider wrapper and is not modelled.
- `get_most_recent_equity_price`, `get_equity_price_history`, `calculate_price_differences` and `see_data_structure` (options_scanner.py:322-373) are not modelled. They are provider wrappers, float arithmetic and printing.
- main.py is an entry point with a fixed exchange and ticker, and is not part of this model.
